# xacpp-rs transfer plane: a verified model

This project models the reliable binary-transfer plane of xacpp-rs in Dafny 4.11 and proves what it promises.

* **Copy holder** (`Sender`, `Holder`): payloads are cut into frames, a copy of every frame is kept until the
  receiver's contiguous progress covers it, one byte cap bounds all copies, a clock resends with exponential
  backoff, and after a reconnect a gate holds everything back until the receiver's verdicts arrive.
* **Receiver** (`Reassembly`, `Receiver`): per-transaction slots, the contiguous prefix, streaming emission,
  ACK and gap export, delivery.
* **Session** (`Inbound`, `Streams`, `SessionState`, `Completions`, `SendSide`, `Wakeup`): inbound handlers over the
  slot and stream tables, terminal states, completion callbacks, parked writers.
* **Wire** (`Wire`, `FrameDecoders`, `Control`, `NackCodec`): frame encoding, the incremental decoder with
  resynchronisation, and the control payloads.
* **Egress and fetch** (`Egress`, `EgressQueues`, `FetchTables`): a two-queue priority scheduler, and the idempotency
  tables of the fetch responder under concurrent requests.

## How it is organised

Every component has a specification on values (functions from state and input to state and output). The objects that
the program updates in place are classes (`Holder.TransactionSender`, `Receiver.TransactionReassembler`,
`FrameDecoders.FrameDecoder`, `SessionState.StreamInner`, `SessionState.Session`, `SendSide.SendSession`,
`EgressQueues.EgressQueue`); each of their methods, loops included, is proved to compute the specification function of
the same name. The properties are then proved about runs of the specification functions:

* `SenderRuns.SenderRun` runs any list of holder operations; `Inbound.HandleAll` runs any list of receiver inputs.
* `LinkRuns.Run` is the two-party machine: the holder acts, the network hands over any frame ever sent, in any order
  and any number of times or never, the receiver exports ACKs that may be lost, delayed or repeated, and its session
  takes any other input at any time.
* `Watermark`, `FramingRuns`, `FlowRuns` and `Announcement` follow one transaction through those runs, whatever happens
  to the others.
* `Completions.Run`, `Wakeup.Run`, `Egress.Run` and `FetchTables.Run` interleave critical sections of concurrent tasks.

Fields marked as history (`books`, `ledger`, `births`, `delivered`, `fired`, `submitted`, `wire` and the like) record
what has happened so that whole-run claims can be stated; the operations never read them.

## Findings

Places where the code does not do what its comments or a reader would expect. Each has a lemma with the exact condition.

* A reconnect handshake brings both sides into agreement if and only if at most 255 transactions are pending and the
  declaration is not empty while slots are open: an empty declaration is not sent, and a longer one cannot be encoded
  (`Handshake.DeclarationConverges`).
* The re-declaration of unanswered transactions, if it fits one frame, converges if and only if every pending one has
  timed out; one that has not is cancelled at the receiver although the holder keeps it (`Handshake.RedeclarationConverges`,
  `Handshake.RedeclarationDropsLive`).
* "Confirmed frames are inside the receiver's prefix" holds if and only if no ACK that the holder handled and that was
  read from an earlier slot of the id lies beyond the open slot's prefix. It fails after a partial re-declaration drops
  a slot and a late first frame reopens it (`Confirmation.ConfirmedWithinPrefix`, `Reopening.ReopenedExample`).
* A `send_binary` callback never reports failure, and it is lost if and only if the verdict that closes its
  transaction arrives in a frame during which a retransmission write fails (`ExactlyOnce.RegisteredWhilePending`,
  `ExactlyOnce.StrandedExactly`). The comment above `send_binary` says it never fires zero times.
* A `send_binary` that passes its own cap check leaves an empty transaction pending if the append then refuses the
  payload, because it does not fit under the cap or its length does not fit 32 bits (`ExactlyOnce.FailedSendResidue`).
  When the cap check itself refuses, nothing is left. `begin_transaction` leaves a residue only for a length beyond
  32 bits (`Framing.FailedBeginResidue`).
* A finish before all bytes are written flushes the buffered tail although it errs. A payload completed after that is
  not cut as a one-shot split: it is if and only if there was no such finish (`FramingRuns.RunSplits`).
* The retransmission timeout is min(initial * 2^attempts, max) except past 62 doublings that have not yet reached the
  maximum (`Pacing.RtoExact`).
* A frame decodes to itself if and only if its type is canonical (`Decoding.CanonicalExactly`).
* Decoding a NACK does not check the control payload cap, so it inverts encoding exactly up to that cap
  (`NackCodec.NackStrict`).
* The terminal operation of a fetch serving has one owner, but that owner skips it when another handler activation has
  not yet dropped its reference, a branch commented as unreachable (`FetchSafety.TerminalUnlisted`,
  `FetchSafety.TerminalSkippedExample`).

## Model

| member | source | states |
|---|---|---|
| LinkRuns.EndToEnd | src/reliability/reassemble.rs:159-269 | in every run of the two-party machine, over any loss, duplication and reordering, whatever is taken or was delivered for an id is exactly the bytes its holder accepted, all of them |
| Link.CompleteIsWhole | src/reliability/reassemble.rs:94-108 | byte counts and some prefix suffice: a complete slot filled from one sender's pieces holds every piece and assembles to the whole payload |
| Link.HonestStore | src/reliability/reassemble.rs:159-231 | a frame the sender really sent is never rejected, and is stored unless it is slotless with a later position |
| LinkRuns.AckSoundness | src/reliability/transaction.rs:479-513 | with stale, lost or reordered ACKs of an honest receiver, completion is reported only if the payload was fully written and the receiver's slot held every frame of it at some earlier step |
| LinkRuns.StreamingRefines | src/transfer/inbound.rs:222-301 | the chunks of any stream are frames 0, 1, 2, ... each once, their bytes are a prefix of the payload, equal to it if the stream ended complete, and while it lives they are exactly the slot's prefix |
| LinkRuns.BookIsWritten | src/reliability/transaction.rs:334-385 | the recorded history of an id is the concatenation of its accepted appends |
| LinkRuns.RunShape | src/reliability/transaction.rs:121-164 | in every run each pending transaction has one state per frame |
| Handshake.DeclarationConverges | src/transfer/inbound.rs:426-502 | after a lossless declare, adjudicate, apply round through the real codecs, pending ids equal open incomplete slots, no gate remains, every removed id is reported once, confirmed if and only if fully sent, and complete slots are untouched: exactly when at most 255 are pending and the declaration is not empty beside open slots |
| Handshake.RedeclarationConverges | src/reliability/transaction.rs:636-656 | a re-declaration of 1 to 255 transactions makes both sides agree exactly when every pending one has timed out; otherwise nothing is sent and they agree only if they did before |
| Handshake.RedeclarationDropsLive | src/transfer/inbound.rs:474-489 | a pending transaction that has not timed out loses its open slot in a re-declaration round, and stays pending |
| Confirmation.ConfirmedWithinPrefix | src/reliability/transaction.rs:479-513 | in every run, each confirmed frame of a pending transaction with an open slot lies inside its contiguous prefix if and only if every ACK the holder handled for the id that was not read from this slot does |
| Confirmation.OnlySlotInside | src/reliability/reassemble.rs:278-286 | confirmed frames are inside the prefix of a slot that is the only one its id ever had |
| Watermark.WatermarkIsMaximum | src/reliability/transaction.rs:479-491 | in every run the acknowledged watermark of a pending transaction is the maximum of the ACKs handled for it, and is unset if there was none |
| Confirmation.NackRoundCloses | src/reliability/transaction.rs:521-559 | in every run, delivering the answer to an untruncated gap list in any order lifts the prefix past the highest stored frame if and only if there is no gap or no handled ACK of an earlier slot lies beyond the prefix |
| Confirmation.ResumeRoundCompletes | src/reliability/transaction.rs:684-713 | in every run, delivering a Resumed retransmission in any order completes a fully sent payload if and only if no handled ACK of an earlier slot lies beyond the prefix; what completes assembles to what was written |
| Repair.NackRepairs | src/reliability/reassemble.rs:295-309 | delivering a NACK answer closes every known gap if and only if no gap is a frame the holder has confirmed |
| Repair.ResumeRepairs | src/reliability/transaction.rs:692-713 | delivering a resume retransmission completes the slot if and only if it holds every frame the holder has confirmed |
| Repair.AllGapsExact | src/reliability/reassemble.rs:295-309 | the gap list is exactly the absent positions between the prefix and the highest stored one |
| Reopening.ReopenedExample | src/reliability/reassemble.rs:116-124 | a run in which a partial re-declaration drops a slot and a duplicate first frame reopens it: a confirmed and released frame is outside the open slot's prefix, and the stale ACK is the one the condition names |
| Reopening.DeclarationIsReal | src/reliability/transaction.rs:636-656 | the declaration in that run is the one its holder emits: the other transaction has timed out, this one has not |
| SenderRuns.CopyRetention | src/reliability/transaction.rs:121-190 | in every reachable sender state confirmed frames are a prefix, a copy is held exactly for unconfirmed frames and carries its position and bytes, and both byte counters are exact |
| SenderRuns.BackpressureBound | src/reliability/transaction.rs:334-359 | over any run the unacknowledged bytes of all transactions together never exceed the cap |
| SenderRuns.Conservation | src/reliability/transaction.rs:464-513 | per transaction and in total, bytes accepted equal bytes held plus bytes released |
| SenderRuns.ResendsOnlyLiveCopies | src/reliability/transaction.rs:521-602 | clock, NACK and verdict paths emit only held copies of unpaused transactions, and the clock none of a gated one |
| SenderRuns.EmitsGenuine | src/reliability/transaction.rs:334-436 | every frame an operation emits is the recorded piece of its transaction at its position |
| Retention.TracksAcked | src/reliability/transaction.rs:479-513 | however inflated an ACK is, the copies kept still match the history and the saturating subtraction never saturates |
| Retention.StepSound | src/reliability/transaction.rs:293-729 | every sender operation keeps every transaction in agreement with its history, and histories only grow |
| Framing.StreamSplits | src/reliability/transaction.rs:334-436 | any uninterrupted chunking of a payload that fits under the cap emits, through append and finish, exactly the one-shot split, numbered from 0 |
| FramingRuns.RunSplits | src/reliability/transaction.rs:334-436 | in every run, for payloads of any size with ACKs, resends, reconnects and other transactions in between, a fully sent transaction was cut into the one-shot split of its bytes, and before that into full frames, if and only if no finish flushed a tail while bytes were missing |
| Framing.BeginMatchesStream | src/reliability/transaction.rs:268-287 | begin_transaction succeeds and emits the same frames as any chunked writing of the payload |
| Framing.SplitShape | src/reliability/transaction.rs:361-385 | the split is full frames and a non-empty tail that together are the payload |
| Framing.FailedBeginResidue | src/reliability/transaction.rs:268-287 | a failed begin changes the table exactly when the 32-bit cast wraps to a non-zero length, and then leaves an empty slot |
| Framing.WrappedLengthExample | src/reliability/transaction.rs:268-287 | a concrete wrapped length and the slot it leaves |
| Pacing.NthResend | src/reliability/transaction.rs:564-602 | with monotone time, whatever else happens in between except a verdict that resumes the transaction, the n-th clock resend of a frame comes no earlier than its send plus the first n timeouts |
| Pacing.RtoExact | src/reliability/transaction.rs:106-109 | the exact condition under which the timeout is min(initial * 2^attempts, max) |
| Holder.TickedExactly | src/reliability/transaction.rs:564-602 | a retransmission walk in any order of the table emits a frame if and only if it is due |
| Holder.TransactionSender.constructor | src/reliability/transaction.rs:226-233 | a new sender is empty and its frame size is at least 1 |
| Holder.TransactionSender.UnackedBytes | src/reliability/transaction.rs:247-249 | the loop computes the sum over all pending transactions |
| Holder.TransactionSender.OpenTransaction | src/reliability/transaction.rs:293-323 | refines opening, with its two errors |
| Holder.TransactionSender.CutFrames | src/reliability/transaction.rs:360-384 | the framing loop computes the recursive cut, and returns copies of exactly the new frames |
| Holder.TransactionSender.AppendChunk | src/reliability/transaction.rs:334-385 | refines append: the order of its three checks, unchanged state on error, new state and frames on success |
| Holder.TransactionSender.FinishTransaction | src/reliability/transaction.rs:395-436 | refines finish, including the tail flushed by a short finish that errs |
| Holder.TransactionSender.BeginTransaction | src/reliability/transaction.rs:268-287 | refines open, append and finish of the whole payload with the 32-bit cast |
| Holder.TransactionSender.SetPaused | src/reliability/transaction.rs:442-458 | refines pausing; resuming restarts the clock of unconfirmed frames only |
| Holder.TransactionSender.AbortTransaction | src/reliability/transaction.rs:464-466 | releases the copy and reports whether it existed |
| Holder.TransactionSender.Release | src/reliability/transaction.rs:493-505 | the two loops confirm and release exactly the first n frames, and subtract exactly their bytes |
| Holder.TransactionSender.HandleAck | src/reliability/transaction.rs:479-513 | refines merging, clamping, release and completion |
| Holder.TransactionSender.Answer | src/reliability/transaction.rs:537-558 | the loop over a NACK list answers exactly the listed unconfirmed frames in range, in list order, repeats included |
| Holder.TransactionSender.HandleNack | src/reliability/transaction.rs:521-559 | refines NACK handling, silent while paused |
| Holder.TransactionSender.Resend | src/reliability/transaction.rs:580-599 | the resend loop picks, restamps and emits exactly the frames its rule selects, in order |
| Holder.TransactionSender.DueRetransmissions | src/reliability/transaction.rs:564-602 | refines the clock over every transaction once, in the table's order |
| Holder.TransactionSender.DeclarePending | src/reliability/transaction.rs:613-626 | gates every transaction and lists each exactly once |
| Holder.TransactionSender.TimedOutDeclarations | src/reliability/transaction.rs:636-656 | re-anchors and lists exactly the timed-out ones |
| Holder.TransactionSender.ApplyResumeVerdicts | src/reliability/transaction.rs:684-729 | refines the verdicts, entry by entry |
| Reassembly.ReceiveOk | src/reliability/reassemble.rs:159-231 | whatever frame arrives, counters equal the stored frames and bytes, the prefix is maximal, nothing stored is lost and the prefix never shrinks |
| Reassembly.StoredAgainst | src/reliability/reassemble.rs:102-108 | a subset of the pieces weighs as much as all of them only if it is all of them |
| Reassembly.FirstGap | src/reliability/reassemble.rs:94-100 | the position the prefix advances to is absent, and every one before it is present |
| Receiver.TransactionReassembler.AdvanceContiguous | src/reliability/reassemble.rs:94-100 | the loop advances the prefix to the first gap |
| Receiver.TransactionReassembler.Emit | src/reliability/reassemble.rs:219-229 | the loop emits the newly covered frames in order |
| Receiver.TransactionReassembler.ReceiveFrame | src/reliability/reassemble.rs:159-231 | refines reception with all its errors, including the empty slot an oversized first frame leaves |
| Receiver.TransactionReassembler.TakeCompleted | src/reliability/reassemble.rs:259-269 | releases a complete slot and returns its payloads in order; an incomplete one stays |
| Receiver.TransactionReassembler.AckEntryFor | src/reliability/reassemble.rs:278-286 | no entry without a prefix from frame 0 |
| Receiver.TransactionReassembler.MissingSeqs | src/reliability/reassemble.rs:295-309 | the gap list cut off at the bound |
| Receiver.TransactionReassembler.Discard | src/reliability/reassemble.rs:326-328 | drops the slot and reports whether there was one |
| StreamTable.StreamTableSafety | src/transfer/inbound.rs:111-325 | after any inputs both stream tables have the same ids, each with an open incomplete slot and a live stream that was pushed exactly the slot's prefix; every other stream object is terminal |
| StreamTable.TerminalIsFinal | src/reliability/stream.rs:166-218 | a stream object in a terminal state never changes again, over any continuation |
| StreamTable.AtMostOneSurface | src/transfer/inbound.rs:280-300 | no slot incarnation reaches two stream objects, two deliveries, or one of each |
| StreamTable.HandleRest | src/transfer/inbound.rs:40-88 | every inbound handler keeps slots, tables, pushed chunks and history consistent |
| Streams.FlowReading | src/reliability/stream.rs:187-263 | over any history of pauses, data, disconnects and re-wirings of one stream object, a live one reads stalled exactly while the link is down, and otherwise the last pause intent; a terminal one never changes |
| FlowRuns.ConsumerReads | src/reliability/stream.rs:187-263 | over any session inputs, what a live stream reads follows from the inputs handled: stalled if the last link change was a loss, else paused if a pause came after its last stored data frame, else active |
| SessionState.StreamInner.Finish | src/reliability/stream.rs:170-173 | stores the terminal state and nothing else |
| SessionState.StreamInner.FinishIncomplete | src/reliability/stream.rs:179-183 | records the gap and ends incomplete |
| SessionState.StreamInner.SetPaused | src/reliability/stream.rs:187-194 | pauses an active stream only |
| SessionState.StreamInner.ClearPaused | src/reliability/stream.rs:197-204 | reactivates a paused stream only |
| SessionState.StreamInner.SetStalled | src/reliability/stream.rs:208-212 | stalls unless terminal, leaving the pause intent |
| SessionState.StreamInner.ClearStalled | src/reliability/stream.rs:216-218 | clears the stall only |
| SessionState.StreamInner.State | src/reliability/stream.rs:254-263 | terminal over stalled over paused over active |
| SessionState.Session.OnPause | src/transfer/inbound.rs:111-124 | pauses the listed stream object, and no other object changes |
| SessionState.Session.OnAbort | src/transfer/inbound.rs:129-148 | cancels the stream and drops the slot |
| SessionState.Session.OnCompleted | src/transfer/inbound.rs:165-207 | the three cases of a COMPLETED |
| SessionState.Session.Land | src/transfer/inbound.rs:236-248 | stores the frame; a slot that did not exist is a new incarnation |
| SessionState.Session.OpenStream | src/transfer/inbound.rs:253-269 | a new stream object, listed and owned, with the emitted chunks |
| SessionState.Session.PushInto | src/transfer/inbound.rs:270-279 | lifts a pause and pushes the emitted chunks into the listed object |
| SessionState.Session.Settle | src/transfer/inbound.rs:280-300 | a complete slot closes its stream or is handed over, never both, or waits |
| SessionState.Session.OnData | src/transfer/inbound.rs:222-325 | refines the data-frame handler; a payload it hands out is the one recorded as delivered |
| SessionState.Session.Adjudicate | src/transfer/inbound.rs:444-462 | one verdict per declared entry, in order |
| SessionState.Session.OnResume | src/transfer/inbound.rs:426-502 | refines adjudication and the cancelling of undeclared open slots, in any order |
| SessionState.Session.LinkChanged | src/transfer/sink.rs:372-377 | stalls, or on re-wiring clears, exactly the listed streams |
| SessionState.Session.DrainCompleted | src/transfer/clock.rs:115-129 | hands over every complete slot exactly once, in any order, each with its assembled payload; other slots stay as they are, and none is complete while a handler is registered |
| Announcement.CompletedIsHonest | src/transfer/inbound.rs:165-207 | over any interleaving of senders, control frames, write failures and shutdown, and with any declarations, aborts, expiries, drains or link changes at the receiver, when a payload and then its COMPLETED are submitted, the COMPLETED is handled only with the slot complete or gone, so it changes nothing |
| Announcement.InOrderHolds | src/transfer/inbound.rs:222-301 | after inputs whose frames of an id are its first k in order, whatever else came between, a slot still open for it holds exactly those, and is complete once they are all |
| Completions.NeverTwice | src/transfer/inbound.rs:363-377 | no callback fires twice in any run of session steps |
| ExactlyOnce.RegisteredWhilePending | src/transfer/core.rs:518-541 | a send_binary callback is registered while its transaction is pending; afterwards it has fired as confirmed or is stranded; it never fires as failed |
| ExactlyOnce.StrandedExactly | src/transfer/inbound.rs:512-531 | a callback is stranded if and only if the step that removed its transaction was a verdict frame during which a retransmission write failed |
| ExactlyOnce.VerdictLists | src/reliability/transaction.rs:714-725 | verdicts report exactly the removed ids, and a fully sent one only as confirmed |
| ExactlyOnce.FailedSendResidue | src/transfer/core.rs:518-541 | send_binary succeeds exactly for 1 to 2^32 - 1 bytes under the cap, and a failure after opening leaves an empty pending slot |
| SendSide.SendSession.OnAck | src/transfer/inbound.rs:350-378 | refines an ACK frame of any number of entries and returns the callbacks fired by it, in order |
| SendSide.SendSession.OnVerdicts | src/transfer/inbound.rs:512-558 | refines the verdict handler: it writes the retransmissions in order, all of them or those before the first failed write, and after a failed write fires nothing |
| SendSide.SendSession.SendBinary | src/transfer/core.rs:511-541 | refines the cap check, open, append, finish and registration; it succeeds exactly when the payload is non-empty, fits 32 bits and the cap, and then returns its one-shot split numbered from 0 |
| SendSide.SendSession.SinkAbort | src/transfer/sink.rs:307-325 | takes the callback out in any case and fires it only if the transaction existed |
| Wakeup.NoLostWakeup | src/transfer/sink.rs:52-109 | in every interleaving a parked writer that would no longer block has a version bump behind it or one still owed |
| Wakeup.WakeIsEnabled | src/transfer/sink.rs:339-343 | once nothing is owed, a parked writer without a reason to wait wakes at its next poll |
| Wakeup.SectionBlocks | src/transfer/inbound.rs:57-93 | a critical section that owes no bump unblocks no writer |
| Decoding.ChunkingInvariance | src/wire/frame.rs:380-480 | for every byte stream and partition, chunked feeding gives the frames and state of one feed, and fails exactly when it does, with the same error |
| Decoding.RoundTrip | src/wire/frame.rs:400-480 | any encodable canonical frames between magic-free garbage, in any chunking, decode to exactly that list |
| Decoding.CanonicalExactly | src/wire/frame.rs:99-136 | a frame decodes to itself if and only if its type survives its wire code |
| Decoding.FrameDecodes | src/wire/frame.rs:199-224 | garbage and one encoded frame decode to that frame, whatever follows |
| Wire.FindMagic | src/wire/frame.rs:400-409 | the first magic and none before it, or none at all |
| Wire.CrcConcat | src/wire/frame.rs:454-457 | hashing header and payload in two updates is hashing their concatenation |
| FrameDecoders.FrameDecoder.ProgressSync | src/wire/frame.rs:400-435 | refines a sync step; a fatal header drains the decoder |
| FrameDecoders.FrameDecoder.ProgressBody | src/wire/frame.rs:438-480 | refines a body step with its CRC check |
| FrameDecoders.FrameDecoder.Feed | src/wire/frame.rs:380-389 | the loop computes the specified feed, error included |
| Control.AckPayloadRoundTrip | src/wire/control.rs:406-463 | an ACK or RESUME list encodes exactly within its count range and decodes to itself |
| Control.AckPayloadStrict | src/wire/control.rs:547-566 | a payload that decodes is the one encoding of its entries |
| Control.ResponseRoundTrip | src/wire/control.rs:569-607 | a RESUME_RESPONSE encodes exactly up to 255 entries and decodes to itself |
| Control.ResponseStrict | src/wire/control.rs:583-607 | a response that decodes is the one encoding of its entries |
| Control.WriteAckList | src/wire/control.rs:408-414 | the encoding loop computes the specified bytes |
| Control.WriteResponse | src/wire/control.rs:571-580 | the encoding loop computes the specified bytes |
| Control.ReadResponse | src/wire/control.rs:583-607 | the decoding loop stops at the first unknown status |
| NackCodec.NackRoundTrip | src/wire/control.rs:465-534 | a NACK encodes exactly within its count, list and size bounds and decodes to itself |
| NackCodec.NackStrict | src/wire/control.rs:489-533 | a NACK that decodes re-encodes to itself exactly when it respects the size cap |
| NackCodec.Encode | src/wire/control.rs:467-485 | the nested loops compute the specified bytes, or the error of the first overlong list |
| NackCodec.Decode | src/wire/control.rs:489-533 | the loop over the shrinking rest computes the specified entries or the specified error |
| Feedback.SingleNackExactly | src/reliability/reassemble.rs:331-334 | the bound on one gap list is tight for the payload cap |
| Feedback.GapReportArrives | src/transfer/clock.rs:170-184 | the truncated gap list of any slot encodes, and what decodes names only missing positions between prefix and highest frame |
| Egress.WireIsFifo | src/session/egress.rs:146-212 | in every interleaving each channel's frames on the wire are an initial part of its submissions, in order, each once |
| Egress.ControlFirst | src/session/egress.rs:164-171 | in every interleaving, whenever a data frame is written all control frames submitted so far are already on the wire |
| Egress.CloseFlushes | src/session/egress.rs:119-126 | without write failures, when the drain task has exited every data frame submitted before the close is on the wire |
| EgressQueues.EgressQueue.SendData | src/session/egress.rs:92-102 | enqueues at the tail while connected |
| EgressQueues.EgressQueue.SendControl | src/session/egress.rs:107-117 | enqueues on the control channel while connected |
| EgressQueues.EgressQueue.Close | src/session/egress.rs:122-126 | refuses later sends and queues the close behind what is there |
| EgressQueues.EgressQueue.DrainStep | src/session/egress.rs:165-209 | one choice of the drain task |
| EgressQueues.EgressQueue.DrainLoop | src/session/egress.rs:164-210 | the loop runs those choices until the drain task exits |
| FetchSafety.TablesInBijection | src/ext/fetch.rs:502-511 | in every run a transaction id maps to a serving exactly when that serving carries it and is the ready entry of its uri |
| FetchSafety.OneResolvePerUri | src/ext/fetch.rs:702-783 | two activations never resolve one uri at once, nor one while it is ready |
| FetchSafety.OneTerminalOwner | src/ext/fetch.rs:789-912 | nobody owns the terminal operation before the begin gate flips, exactly one owner exists from then until it is tried, and it is tried once |
| FetchSafety.TerminalUnlisted | src/ext/fetch.rs:578-600 | when it is tried the tables no longer refer to the serving, and it is performed exactly when no activation still does |
| FetchSafety.TerminalSkippedExample | src/ext/fetch.rs:594-598 | a run in which the owner skips it |

## Left out

- Sockets, stdio carriers, tokio tasks, channels and locks: one critical section is one step; only the drain task's choice rule is kept.
- JSON envelopes, commands, events, capabilities, negotiation and session identity: no hard property.
- Batching of ACKs (`pending_ack_frames`), heartbeats and the silent-peer timeout: any ACK may be exported at any time in the runs, and time is a parameter.
- Liveness of whole transfers and of waiting on a resolve slot: only safety, one lossless round, and enabledness of wake-ups.
- Fixed-size payloads (heartbeat, pause, abort, completed), error payloads, and the hex id of an expired transaction: easy codecs; the handlers take the id as a parameter.
- 32-bit overflow of frame counts and of a prefix at the last 32-bit position, of `attempts` and of the version counter: unbounded here. The length cast of `begin_transaction` and `send_binary` and the saturating operations are modelled.
- Peer errors other than an expired transaction, which drops the slot and cancels the stream like an abort.
- `sink_finish` beyond its critical sections: its fast path reads absence from the table as confirmed, so it is not claimed to mean received.
- Delivery tickets of the egress (`send_acked`) and the map of pending requests it clears.
- Fetch puller, providers, hashing, pause and resume forwarding, and what a serving writes: only tables, resolves, the begin gate and the terminal operation.
- Delivery per id across reopened slots: claims are per slot incarnation, because no terminal trace is kept.
- NthResend: bounds the resends of the clock. A NACK is answered at once and does not count as an attempt; a verdict that resumes the transaction resends at once and does count as one, so it is excluded.
- In-place update inside one pending transaction or slot: these records are values in a map field, which their object owns alone.
- `wire` and `unwire` beyond storing the wiring, gating, clearing stalls and waking writers.
