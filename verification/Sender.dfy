/**
 The copy holder (src/reliability/transaction.rs) as functions on values: framing, per-frame copy
 retention, ACK/NACK/timeout handling, the reconnect gate and the resume verdicts.

 `Holder.TransactionSender` is the imperative form; every method there is proved against these functions.
 */
module Sender {
  import opened Prelude
  import opened Frames

  datatype SenderConfig = SenderConfig(frameSize: nat, rtoInitialMs: nat, rtoMaxMs: nat, capBytes: nat)

  datatype BeginError =
    | Backpressured(unackedBytes: nat, incomingBytes: nat, capBytes: nat)
    | EmptyPayload
    | DuplicateTransaction
    | UnknownTransaction
    | TotalLenExceeded(total: nat)
    | IncompletePayload(written: nat, declared: nat)

  datatype FrameState = FrameState(confirmed: bool, lastSentMs: nat, attempts: nat)

  datatype PendingTxn = PendingTxn(
    totalLen: nat,
    frames: seq<Option<Frame>>,
    states: seq<FrameState>,
    partial: Bytes,
    written: nat,
    bytes: nat,
    paused: bool,
    awaitingResume: bool,
    declaredMs: Option<nat>,
    ackedContiguous: Option<nat>,
    ackedReceived: nat,
    lastProgressMs: nat)

  type Pending = map<Txid, PendingTxn>

  // ---------------------------------------------------------------------------------------------
  // Accounting

  /** Payload bytes of the copies still held in a frame list. */
  function Held(frames: seq<Option<Frame>>): nat
  {
    if frames == [] then 0
    else Held(frames[..|frames| - 1]) + HeldBy(frames[|frames| - 1])
  }

  function HeldBy(f: Option<Frame>): nat { if f.Some? then |f.value.payload| else 0 }

  /** Sum of `bytes` over every pending transaction (`unacked_bytes`). */
  ghost function Total(p: Pending): nat { Sum(BytesOf(p)) }

  function BytesOf(p: Pending): map<Txid, nat> { map id | id in p :: p[id].bytes }

  lemma {:induction false} TotalPut(p: Pending, id: Txid, t: PendingTxn)
    ensures Total(p[id := t]) == t.bytes + Total(p - {id})
    ensures Total(p) == (if id in p then p[id].bytes else 0) + Total(p - {id})
  {
    SumPut(BytesOf(p), id, t.bytes);
    assert BytesOf(p[id := t]) == BytesOf(p)[id := t.bytes];
    assert BytesOf(p - {id}) == BytesOf(p) - {id};
  }

  lemma {:induction false} HeldConcat(a: seq<Option<Frame>>, b: seq<Option<Frame>>)
    ensures Held(a + b) == Held(a) + Held(b)
  {
    if b == [] {
      assert a + b == a;
    } else {
      var n := |b| - 1;
      HeldConcat(a, b[..n]);
      assert (a + b)[..|a| + n] == a + b[..n];
    }
  }

  lemma {:induction false} HeldNothing(frames: seq<Option<Frame>>)
    requires forall i :: 0 <= i < |frames| ==> frames[i].None?
    ensures Held(frames) == 0
  {
    if frames != [] { HeldNothing(frames[..|frames| - 1]); }
  }

  // ---------------------------------------------------------------------------------------------
  // Completeness criteria

  predicate IsFullySent(t: PendingTxn) { t.written == t.totalLen && t.partial == [] }

  predicate IsFullyAcked(t: PendingTxn)
  {
    && IsFullySent(t)
    && t.frames != []
    && t.ackedContiguous == Some(|t.frames| - 1)
    && t.ackedReceived >= |t.frames|
  }

  // ---------------------------------------------------------------------------------------------
  // Opening and framing

  function Opened(totalLen: nat, now: nat): PendingTxn
  {
    PendingTxn(totalLen, [], [], [], 0, 0, false, false, None, None, 0, now)
  }

  function Open(p: Pending, id: Txid, totalLen: nat, now: nat): (Pending, Result<(), BeginError>)
  {
    if id in p then (p, Err(DuplicateTransaction))
    else if totalLen == 0 then (p, Err(EmptyPayload))
    else (p[id := Opened(totalLen, now)], Ok(()))
  }

  /** Move the first `n` buffered bytes into a new working frame, held and unconfirmed. */
  function Push(t: PendingTxn, id: Txid, n: nat, now: nat): PendingTxn
    requires n <= |t.partial|
  {
    t.(frames := t.frames + [Some(Frame(DataBinary, id, t.totalLen, |t.frames|, t.partial[..n]))],
       states := t.states + [FrameState(false, now, 0)],
       partial := t.partial[n..])
  }

  function Buffered(t: PendingTxn, chunk: Bytes): PendingTxn
  {
    t.(partial := t.partial + chunk, written := t.written + |chunk|, bytes := t.bytes + |chunk|)
  }

  /** Frame off full working frames until less than one is buffered. */
  function Cut(t: PendingTxn, id: Txid, frameSize: nat, now: nat): PendingTxn
    requires 0 < frameSize
    decreases |t.partial|
  {
    if |t.partial| >= frameSize then Cut(Push(t, id, frameSize, now), id, frameSize, now) else t
  }

  /** The copies of the frames from position `from` on. */
  function CopiesFrom(frames: seq<Option<Frame>>, from: nat): seq<Frame>
    decreases |frames| - from
  {
    if from >= |frames| then []
    else (if frames[from].Some? then [frames[from].value] else []) + CopiesFrom(frames, from + 1)
  }

  ghost function Append(cfg: SenderConfig, p: Pending, id: Txid, chunk: Bytes, now: nat)
    : (Pending, Result<seq<Frame>, BeginError>)
    requires 0 < cfg.frameSize
  {
    if id !in p then (p, Err(UnknownTransaction))
    else if Total(p) + |chunk| > cfg.capBytes then (p, Err(Backpressured(Total(p), |chunk|, cfg.capBytes)))
    else if p[id].written + |chunk| > p[id].totalLen then (p, Err(TotalLenExceeded(p[id].totalLen)))
    else
      var t := Cut(Buffered(p[id], chunk), id, cfg.frameSize, now);
      (p[id := t], Ok(CopiesFrom(t.frames, |p[id].frames|)))
  }

  function Flushed(t: PendingTxn, id: Txid, now: nat): PendingTxn
  {
    if t.partial == [] then t else Push(t, id, |t.partial|, now)
  }

  /** Note that a short finish still flushes the tail: the error does not undo it. */
  function Finish(p: Pending, id: Txid, now: nat): (Pending, Result<seq<Frame>, BeginError>)
  {
    if id !in p then (p, Err(UnknownTransaction))
    else
      var t := Flushed(p[id], id, now);
      (p[id := t],
       if t.written != t.totalLen then Err(IncompletePayload(t.written, t.totalLen))
       else Ok(CopiesFrom(t.frames, |p[id].frames|)))
  }

  // ---------------------------------------------------------------------------------------------
  // Pause and abort

  function Rearmed(s: FrameState, now: nat): FrameState
  {
    if s.confirmed then s else s.(lastSentMs := now)
  }

  function Paused(t: PendingTxn, paused: bool, now: nat): PendingTxn
  {
    if paused then t.(paused := true)
    else t.(paused := false, states := seq(|t.states|, i requires 0 <= i < |t.states| => Rearmed(t.states[i], now)))
  }

  function SetPaused(p: Pending, id: Txid, paused: bool, now: nat): (Pending, bool)
  {
    if id in p then (p[id := Paused(p[id], paused, now)], true) else (p, false)
  }

  function Abort(p: Pending, id: Txid): (Pending, bool) { (p - {id}, id in p) }

  // ---------------------------------------------------------------------------------------------
  // ACK and NACK

  function Confirmed(states: seq<FrameState>, n: nat): seq<FrameState>
  {
    seq(|states|, i requires 0 <= i < |states| => if i < n then states[i].(confirmed := true) else states[i])
  }

  function Released(frames: seq<Option<Frame>>, n: nat): seq<Option<Frame>>
  {
    seq(|frames|, i requires 0 <= i < |frames| => if i < n then None else frames[i])
  }

  /** Merged contiguous progress, clamped to the real frame range. */
  function AckedTo(t: PendingTxn, e: AckEntry): nat
  {
    Min(if t.ackedContiguous.Some? then Max(t.ackedContiguous.value, e.highestContiguousSeq)
        else e.highestContiguousSeq,
        SatSub(|t.frames|, 1))
  }

  /** How many leading frames an ACK entry confirms. */
  function Frontier(t: PendingTxn, e: AckEntry): nat { Min(AckedTo(t, e) + 1, |t.states|) }

  function Acked(t: PendingTxn, e: AckEntry, now: nat): PendingTxn
    requires |t.frames| == |t.states|
  {
    var n := Frontier(t, e);
    t.(ackedContiguous := Some(AckedTo(t, e)),
       ackedReceived := Max(t.ackedReceived, e.receivedFrames),
       lastProgressMs := now,
       states := Confirmed(t.states, n),
       frames := Released(t.frames, n),
       bytes := SatSub(t.bytes, Held(t.frames[..n])))
  }

  function HandleAck(p: Pending, e: AckEntry, now: nat): (Pending, bool)
    requires SameShape(p)
  {
    if e.transactionId !in p then (p, false)
    else
      var t := Acked(p[e.transactionId], e, now);
      if IsFullyAcked(t) then (p - {e.transactionId}, true) else (p[e.transactionId := t], false)
  }

  predicate SameShape(p: Pending) { forall id :: id in p ==> |p[id].frames| == |p[id].states| }

  /** A NACK answer names an in-range, unconfirmed frame. */
  predicate Answers(t: PendingTxn, seqNo: nat) { seqNo < |t.states| && !t.states[seqNo].confirmed }

  function NackedStates(t: PendingTxn, missing: seq<nat>, now: nat): seq<FrameState>
  {
    seq(|t.states|, i requires 0 <= i < |t.states| =>
      if i in missing && !t.states[i].confirmed then t.states[i].(lastSentMs := now) else t.states[i])
  }

  function NackedFrames(t: PendingTxn, missing: seq<nat>): seq<Frame>
    requires |t.frames| == |t.states|
  {
    if missing == [] then []
    else
      var rest := NackedFrames(t, missing[..|missing| - 1]);
      var k := missing[|missing| - 1];
      if Answers(t, k) && t.frames[k].Some? then rest + [t.frames[k].value] else rest
  }

  function HandleNack(p: Pending, id: Txid, missing: seq<nat>, now: nat): (Pending, seq<Frame>)
    requires SameShape(p)
  {
    if id !in p then (p, [])
    else if p[id].paused then (p[id := p[id].(lastProgressMs := now)], [])
    else
      (p[id := p[id].(lastProgressMs := now, states := NackedStates(p[id], missing, now))],
       NackedFrames(p[id], missing))
  }

  // ---------------------------------------------------------------------------------------------
  // Retransmission

  function Pow2(n: nat): nat { if n == 0 then 1 else 2 * Pow2(n - 1) }

  const U64_MAX: nat := 0xFFFF_FFFF_FFFF_FFFF

  /** The initial timeout doubled per attempt, at most 62 times and saturating at 64 bits, under the ceiling. */
  function CurrentRto(cfg: SenderConfig, attempts: nat): nat
  {
    Min(Min(cfg.rtoInitialMs * Pow2(Min(attempts, 62)), U64_MAX), cfg.rtoMaxMs)
  }

  /** Resend rules: which frames a retransmission path picks. */
  datatype Rule = Due(cfg: SenderConfig, now: nat) | Unconfirmed

  predicate Picks(rule: Rule, s: FrameState)
  {
    && !s.confirmed
    && (rule.Due? ==> SatSub(rule.now, s.lastSentMs) >= CurrentRto(rule.cfg, s.attempts))
  }

  function Bumped(rule: Rule, s: FrameState, now: nat): FrameState
  {
    if Picks(rule, s) then s.(lastSentMs := now, attempts := s.attempts + 1) else s
  }

  function ResentStates(rule: Rule, states: seq<FrameState>, now: nat): seq<FrameState>
  {
    seq(|states|, i requires 0 <= i < |states| => Bumped(rule, states[i], now))
  }

  /** The copies picked among the first `n` frames, in order. */
  function ResentFrames(rule: Rule, t: PendingTxn, n: nat): seq<Frame>
    requires n <= |t.frames| == |t.states|
  {
    if n == 0 then []
    else
      ResentFrames(rule, t, n - 1)
      + (if Picks(rule, t.states[n - 1]) && t.frames[n - 1].Some? then [t.frames[n - 1].value] else [])
  }

  function Ticked(cfg: SenderConfig, t: PendingTxn, now: nat): PendingTxn
  {
    if t.paused || t.awaitingResume then t else t.(states := ResentStates(Due(cfg, now), t.states, now))
  }

  function TickFrames(cfg: SenderConfig, t: PendingTxn, now: nat): seq<Frame>
    requires |t.frames| == |t.states|
  {
    if t.paused || t.awaitingResume then [] else ResentFrames(Due(cfg, now), t, |t.frames|)
  }

  function DueRetransmissions(cfg: SenderConfig, p: Pending, now: nat): Pending
  {
    map id | id in p :: Ticked(cfg, p[id], now)
  }

  /** Frame order across transactions follows hash-map iteration, so only the set is specified. */
  ghost predicate IsDue(cfg: SenderConfig, p: Pending, now: nat, f: Frame)
    requires SameShape(p)
  {
    exists id :: id in p && f in TickFrames(cfg, p[id], now)
  }

  // ---------------------------------------------------------------------------------------------
  // Reconnect gate and verdicts

  function EntryFor(id: Txid, t: PendingTxn): AckEntry { AckEntry(id, SatSub(|t.frames|, 1), |t.frames|) }

  function Gated(t: PendingTxn, now: nat): PendingTxn { t.(awaitingResume := true, declaredMs := Some(now)) }

  function DeclarePending(p: Pending, now: nat): Pending { map id | id in p :: Gated(p[id], now) }

  predicate TimedOut(t: PendingTxn, now: nat, timeout: nat)
  {
    t.awaitingResume && t.declaredMs.Some? && SatSub(now, t.declaredMs.value) >= timeout
  }

  function Redeclare(p: Pending, now: nat, timeout: nat): Pending
  {
    map id | id in p :: if TimedOut(p[id], now, timeout) then p[id].(declaredMs := Some(now)) else p[id]
  }

  /** The transactions whose declaration has stayed unanswered for `timeout`. */
  ghost function Late(p: Pending, now: nat, timeout: nat): (ids: set<Txid>)
    ensures ids <= p.Keys
  {
    set id | id in p && TimedOut(p[id], now, timeout)
  }

  /** `entries` lists, once each and in any order, exactly the ids in `ids`. */
  ghost predicate Lists(p: Pending, ids: set<Txid>, entries: seq<AckEntry>)
    requires ids <= p.Keys
  {
    && (forall i :: 0 <= i < |entries| ==>
          && entries[i].transactionId in ids
          && entries[i] == EntryFor(entries[i].transactionId, p[entries[i].transactionId]))
    && (forall i, j :: 0 <= i < j < |entries| ==> entries[i].transactionId != entries[j].transactionId)
    && (forall id :: id in ids ==> exists i :: 0 <= i < |entries| && entries[i].transactionId == id)
  }

  function Lifted(t: PendingTxn, now: nat): PendingTxn
  {
    var u := t.(awaitingResume := false, declaredMs := None, lastProgressMs := now);
    if t.paused then u else u.(states := ResentStates(Unconfirmed, t.states, now))
  }

  datatype ResumeVerdicts = ResumeVerdicts(retransmit: seq<Frame>, confirmed: seq<Txid>, failed: seq<Txid>)

  function ApplyVerdict(p: Pending, v: ResumeVerdicts, e: ResumeStatusEntry, now: nat): (Pending, ResumeVerdicts)
    requires SameShape(p)
  {
    var id := e.transactionId;
    if id !in p then (p, v)
    else if e.status == Resumed then
      (p[id := Lifted(p[id], now)],
       if p[id].paused then v
       else v.(retransmit := v.retransmit + ResentFrames(Unconfirmed, p[id], |p[id].frames|)))
    else
      (p - {id},
       if IsFullySent(p[id]) then v.(confirmed := v.confirmed + [id]) else v.(failed := v.failed + [id]))
  }

  function ApplyResumeVerdicts(p: Pending, entries: seq<ResumeStatusEntry>, now: nat): (Pending, ResumeVerdicts)
    requires SameShape(p)
    ensures SameShape(ApplyResumeVerdicts(p, entries, now).0)
  {
    if entries == [] then (p, ResumeVerdicts([], [], []))
    else
      var (q, v) := ApplyResumeVerdicts(p, entries[..|entries| - 1], now);
      ApplyVerdict(q, v, entries[|entries| - 1], now)
  }
}
