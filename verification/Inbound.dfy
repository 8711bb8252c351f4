/**
 The receive side of a transfer session (src/transfer/inbound.rs, src/transfer/clock.rs:115-129) as
 functions on values: inbound handlers over the slot table, the stream table and the two delivery surfaces.

 One critical section of the session lock is one step. `ledger`, `births` and `delivered` are history:
 they number slot incarnations and record which surface each of them reached.
 */
module Inbound {
  import opened Prelude
  import opened Frames
  import opened Reassembly
  import opened Streams

  /** The surface a slot incarnation reached: a stream object, or an aggregate delivery. */
  datatype Surface = Nowhere | Stream(handle: nat) | Aggregate(index: nat)

  datatype Incarnation = Incarnation(txid: Txid, surface: Surface)

  datatype Delivery = Delivery(incarnation: nat, txid: Txid, payload: Bytes)

  datatype Inbox = Inbox(
    slots: Slots,
    streams: map<Txid, nat>,
    streamOwned: set<Txid>,
    objects: seq<StreamObject>,
    binaryHandler: bool,
    streamHandler: bool,
    ledger: seq<Incarnation>,
    births: map<Txid, nat>,
    delivered: seq<Delivery>)

  const EMPTY := Inbox(map[], map[], {}, [], false, false, [], map[], [])

  // ---------------------------------------------------------------------------------------------
  // Handlers

  function Discard(ib: Inbox, id: Txid): Inbox { ib.(slots := ib.slots - {id}, births := ib.births - {id}) }

  /** Put `o` in the place of the object behind a stream-table entry, if there is one. */
  function OnStream(ib: Inbox, id: Txid, o: StreamObject): Inbox
  {
    if id in ib.streams && ib.streams[id] < |ib.objects| then ib.(objects := ib.objects[ib.streams[id] := o]) else ib
  }

  function StreamOf(ib: Inbox, id: Txid): Option<StreamObject>
  {
    if id in ib.streams && ib.streams[id] < |ib.objects| then Some(ib.objects[ib.streams[id]]) else None
  }

  function Unlisted(ib: Inbox, id: Txid): Inbox
  {
    ib.(streams := ib.streams - {id}, streamOwned := ib.streamOwned - {id})
  }

  /** Remove the stream entry with a terminal state. */
  function Ended(ib: Inbox, id: Txid, s: StreamState): Inbox
  {
    var o := StreamOf(ib, id);
    Unlisted(if o.Some? then OnStream(ib, id, Finished(o.value, s)) else ib, id)
  }

  function OnPause(ib: Inbox, id: Txid): Inbox
  {
    var o := StreamOf(ib, id);
    if o.Some? then OnStream(ib, id, SetPaused(o.value)) else ib
  }

  function OnAbort(ib: Inbox, id: Txid): Inbox { Discard(Ended(ib, id, Cancelled), id) }

  /** A peer `transaction_expired` error has the same effect as an abort. */
  function OnExpired(ib: Inbox, id: Txid): Inbox { Discard(Ended(ib, id, Cancelled), id) }

  function OnCompleted(ib: Inbox, id: Txid): Inbox
  {
    if id !in ib.slots then ib
    else if IsComplete(ib.slots[id]) then (if id in ib.streams then Ended(ib, id, Complete) else ib)
    else
      var o := StreamOf(ib, id);
      var s := ib.slots[id];
      var told := if o.Some? then OnStream(ib, id, FinishedIncomplete(o.value, s.receivedBytes, s.totalLen)) else ib;
      Discard(Unlisted(told, id), id)
  }

  function ReceiveFrame(ib: Inbox, f: Frame): (Slots, Result<ReceiveOutcome, ReassemblyError>)
  {
    Receive(ib.slots, f.transactionId, f.seqNo, f.totalLen, |f.payload|, f.payload, ib.streamHandler)
  }

  /** Store the frame; a slot that did not exist before gets a new incarnation number. */
  function Landed(ib: Inbox, f: Frame): Inbox
  {
    var slots := ReceiveFrame(ib, f).0;
    var id := f.transactionId;
    if id in slots && id !in ib.slots then
      ib.(slots := slots, ledger := ib.ledger + [Incarnation(id, Nowhere)], births := ib.births[id := |ib.ledger|])
    else ib.(slots := slots)
  }

  predicate OpensStream(ib: Inbox, f: Frame) { ib.streamHandler && f.seqNo == 0 && f.transactionId !in ib.slots }

  /** The incarnation number of the open slot. */
  function Birth(ib: Inbox, id: Txid): nat { if id in ib.births then ib.births[id] else 0 }

  function Reached(ledger: seq<Incarnation>, n: nat, s: Surface): seq<Incarnation>
  {
    if n < |ledger| then ledger[n := ledger[n].(surface := s)] else ledger
  }

  /** Open a stream with the first frame, or push the newly contiguous frames into the open one. */
  function Streamed(ib: Inbox, f: Frame, opens: bool, emitted: seq<(nat, Bytes)>): Inbox
  {
    var id := f.transactionId;
    if opens then
      ib.(streams := ib.streams[id := |ib.objects|],
          streamOwned := ib.streamOwned + {id},
          objects := ib.objects + [Pushed(Fresh(id, f.totalLen, Birth(ib, id)), emitted)],
          ledger := Reached(ib.ledger, Birth(ib, id), Stream(|ib.objects|)))
    else
      var o := StreamOf(ib, id);
      if o.Some? then OnStream(ib, id, Pushed(ClearPaused(o.value), emitted)) else ib
  }

  /** Take a completed slot for the aggregate surface. */
  function Delivered(ib: Inbox, id: Txid): Inbox
  {
    var (slots, payload) := TakeCompleted(ib.slots, id);
    if payload.None? then ib
    else
      Discard(ib.(delivered := ib.delivered + [Delivery(Birth(ib, id), id, payload.value)],
                  ledger := Reached(ib.ledger, Birth(ib, id), Aggregate(|ib.delivered|))), id)
  }

  /** A complete slot goes to the surface that owns it: the stream closes, or the payload is handed over. */
  function Settled(ib: Inbox, id: Txid): Inbox
  {
    if id in ib.streamOwned then Discard(Ended(ib, id, Complete), id)
    else if ib.binaryHandler then Delivered(ib, id)
    else ib
  }

  function OnData(ib: Inbox, f: Frame): Inbox
  {
    var r := ReceiveFrame(ib, f).1;
    var landed := Landed(ib, f);
    if r.Ok? && r.value.Accepted? then
      var streamed := Streamed(landed, f, OpensStream(ib, f), r.value.emitted);
      if r.value.complete then Settled(streamed, f.transactionId) else streamed
    else landed
  }

  /** The verdict for one declared id: an open incomplete slot resumes, anything else is unknown. */
  function Verdict(slots: Slots, id: Txid): ResumeStatus
  {
    if id in slots && !IsComplete(slots[id]) then Resumed else UnknownTxn
  }

  function Verdicts(slots: Slots, entries: seq<AckEntry>): seq<ResumeStatusEntry>
  {
    seq(|entries|, i requires 0 <= i < |entries| =>
      ResumeStatusEntry(entries[i].transactionId, Verdict(slots, entries[i].transactionId)))
  }

  predicate Declared(entries: seq<AckEntry>, id: Txid)
  {
    exists i :: 0 <= i < |entries| && entries[i].transactionId == id
  }

  /** Open incomplete slots the declaration does not cover. */
  function Abandoned(slots: Slots, entries: seq<AckEntry>): set<Txid>
  {
    set id | id in slots && !IsComplete(slots[id]) && !Declared(entries, id)
  }

  /** Cancel and drop every slot in `ids`, together with its stream. */
  function CancelAll(ib: Inbox, ids: set<Txid>): Inbox
  {
    ib.(slots := ib.slots - ids,
        births := ib.births - ids,
        streams := ib.streams - ids,
        streamOwned := ib.streamOwned - ids,
        objects := seq(|ib.objects|, h requires 0 <= h < |ib.objects| =>
          var o := ib.objects[h];
          if o.txid in ids && o.txid in ib.streams && ib.streams[o.txid] == h then Finished(o, Cancelled) else o))
  }

  function OnResume(ib: Inbox, entries: seq<AckEntry>): (Inbox, seq<ResumeStatusEntry>)
  {
    if entries == [] then (ib, [])
    else (CancelAll(ib, Abandoned(ib.slots, entries)), Verdicts(ib.slots, entries))
  }

  function DrainOne(ib: Inbox, id: Txid): Inbox { if ib.binaryHandler then Delivered(ib, id) else ib }

  /** Disconnect or re-wire: every listed stream is stalled or cleared. */
  function SetLink(ib: Inbox, up: bool): Inbox
  {
    ib.(objects := seq(|ib.objects|, h requires 0 <= h < |ib.objects| =>
      var o := ib.objects[h];
      if o.txid in ib.streams && ib.streams[o.txid] == h then (if up then ClearStalled(o) else SetStalled(o)) else o))
  }

  // ---------------------------------------------------------------------------------------------
  // The machine

  datatype Input =
    | Data(frame: Frame)
    | PauseFor(id: Txid)
    | AbortFor(id: Txid)
    | CompletedFor(id: Txid)
    | ResumeFor(entries: seq<AckEntry>)
    | ExpiredFor(id: Txid)
    | Drain(id: Txid)
    | Link(up: bool)
    | RegisterBinary
    | RegisterStream
    | Death

  function Handle(ib: Inbox, i: Input): Inbox
  {
    match i
    case Data(f) => OnData(ib, f)
    case PauseFor(id) => OnPause(ib, id)
    case AbortFor(id) => OnAbort(ib, id)
    case CompletedFor(id) => OnCompleted(ib, id)
    case ResumeFor(entries) => OnResume(ib, entries).0
    case ExpiredFor(id) => OnExpired(ib, id)
    case Drain(id) => DrainOne(ib, id)
    case Link(up) => SetLink(ib, up)
    case RegisterBinary => ib.(binaryHandler := true)
    case RegisterStream => ib.(streamHandler := true)
    case Death => CancelAll(ib, ib.slots.Keys + ib.streams.Keys)
  }

  /** The session state after a run of inputs. `Death` drops everything it still holds. */
  function HandleAll(ib: Inbox, inputs: seq<Input>): Inbox
  {
    if inputs == [] then ib else Handle(HandleAll(ib, inputs[..|inputs| - 1]), inputs[|inputs| - 1])
  }
}
