/**
 Completion callbacks of a transfer session (src/transfer/core.rs:502-554, src/transfer/sink.rs:111-325,
 src/transfer/inbound.rs:351-377 and 512-558): which callbacks are registered, which fire, and when.
 One critical section of the session lock is one step, and any interleaving of steps is a run.
 */
module Completions {
  import opened Prelude
  import opened Frames
  import opened Sender
  import opened Retention
  import opened SenderRuns

  /** Callback number `c` is the `c`-th one registered; `whole` marks those of `send_binary`. */
  datatype Registration = Registration(id: Txid, whole: bool)

  datatype Firing = Firing(callback: nat, confirmed: bool)

  /** `whole` collects the ids `send_binary` generated; sinks never name one of these. */
  datatype Session = Session(
    tx: Tx, completions: map<Txid, nat>, registered: seq<Registration>, fired: seq<Firing>, whole: set<Txid>)

  const IDLE := Session(Tx(map[], map[]), map[], [], [], {})

  datatype Action =
    | SendBinary(id: Txid, payload: Bytes, callback: bool, now: nat)
    /** Sink operations other than the ones below, clock ticks, NACKs and the reconnect gate. */
    | Plain(event: Event)
    | SinkRegisters(id: Txid)
    | SinkRechecks(id: Txid)
    | SinkAborts(id: Txid)
    | AckArrives(entry: AckEntry, now: nat)
    /** `failAt` is the first retransmission whose write fails, if any. */
    | VerdictsArrive(entries: seq<ResumeStatusEntry>, failAt: Option<nat>, now: nat)

  function Register(s: Session, id: Txid, whole: bool): Session
  {
    s.(completions := s.completions[id := |s.registered|], registered := s.registered + [Registration(id, whole)])
  }

  /** Take the callback out of the table and fire it. */
  function Fire(s: Session, id: Txid, confirmed: bool): Session
  {
    if id in s.completions then
      s.(completions := s.completions - {id}, fired := s.fired + [Firing(s.completions[id], confirmed)])
    else s
  }

  function FireAll(s: Session, ids: seq<Txid>, confirmed: bool): Session
  {
    if ids == [] then s else Fire(FireAll(s, ids[..|ids| - 1], confirmed), ids[|ids| - 1], confirmed)
  }

  /** The sender's part of `send_binary`: open, append, finish; an error leaves behind whatever was done before it. */
  ghost function Sends(cfg: SenderConfig, tx: Tx, id: Txid, payload: Bytes, now: nat): (Tx, bool)
    requires 0 < cfg.frameSize && Good(tx)
  {
    var total := |payload| % U32_LIMIT;
    if id in tx.pending || total == 0 then (tx, false)
    else
      StepGood(cfg, tx, Opens(id, total, now));
      Fills(cfg, Step(cfg, tx, Opens(id, total, now)), id, payload, now)
  }

  ghost function Fills(cfg: SenderConfig, tx: Tx, id: Txid, payload: Bytes, now: nat): (Tx, bool)
    requires 0 < cfg.frameSize && Good(tx)
  {
    if Append(cfg, tx.pending, id, payload, now).1.Err? then (tx, false)
    else
      StepGood(cfg, tx, Appends(id, payload, now));
      Closes(cfg, Step(cfg, tx, Appends(id, payload, now)), id, now)
  }

  ghost function Closes(cfg: SenderConfig, tx: Tx, id: Txid, now: nat): (Tx, bool)
    requires 0 < cfg.frameSize && Good(tx)
  {
    (Step(cfg, tx, Finishes(id, now)), Finish(tx.pending, id, now).1.Ok?)
  }

  /** `send_binary` with a fresh id; on an error the callback is dropped. */
  ghost function Sent(cfg: SenderConfig, s: Session, id: Txid, payload: Bytes, callback: bool, now: nat): Session
    requires 0 < cfg.frameSize && Good(s.tx)
  {
    if id in s.tx.books || id in s.whole || Total(s.tx.pending) >= cfg.capBytes then s
    else
      var (tx, ok) := Sends(cfg, s.tx, id, payload, now);
      var u := s.(tx := tx, whole := s.whole + {id});
      if ok && callback then Register(u, id, true) else u
  }

  predicate SinkEvent(e: Event) { e.Opens? || e.Appends? || e.Finishes? || e.Pauses? }

  /** Events of the plain kind: the sink's own, on ids that are not `send_binary`'s, and timers. */
  ghost predicate IsPlain(s: Session, e: Event) { if SinkEvent(e) then e.id !in s.whole else IsTimer(e) }

  predicate WriteFails(v: ResumeVerdicts, failAt: Option<nat>) { failAt.Some? && failAt.value < |v.retransmit| }

  /** A failed retransmission write returns before any completion is fired. */
  ghost function Adjudicated(cfg: SenderConfig, s: Session, entries: seq<ResumeStatusEntry>, failAt: Option<nat>,
          now: nat): Session
    requires 0 < cfg.frameSize && Good(s.tx)
  {
    var v := ApplyResumeVerdicts(s.tx.pending, entries, now).1;
    var u := s.(tx := Step(cfg, s.tx, Verdicts(entries, now)));
    if WriteFails(v, failAt) then u else FireAll(FireAll(u, v.confirmed, true), v.failed, false)
  }

  /** The final ACK fires the callback as confirmed. */
  ghost function Acknowledged(cfg: SenderConfig, s: Session, entry: AckEntry, now: nat): Session
    requires 0 < cfg.frameSize && Good(s.tx)
  {
    var u := s.(tx := Step(cfg, s.tx, Acks(entry, now)));
    if HandleAck(s.tx.pending, entry, now).1 then Fire(u, entry.transactionId, true) else u
  }

  lemma {:induction false} AcknowledgedGood(cfg: SenderConfig, s: Session, entry: AckEntry, now: nat)
    requires 0 < cfg.frameSize && Good(s.tx)
    ensures Good(Acknowledged(cfg, s, entry, now).tx)
  {
    StepGood(cfg, s.tx, Acks(entry, now));
  }

  ghost function Next(cfg: SenderConfig, s: Session, a: Action): Session
    requires 0 < cfg.frameSize && Good(s.tx)
  {
    match a
    case SendBinary(id, payload, callback, now) => Sent(cfg, s, id, payload, callback, now)
    case Plain(e) => if IsPlain(s, e) then s.(tx := Step(cfg, s.tx, e)) else s
    case SinkRegisters(id) => if id in s.whole then s else Register(s, id, false)
    case SinkRechecks(id) =>
      if id in s.whole || id in s.tx.pending then s else s.(completions := s.completions - {id})
    case SinkAborts(id) =>
      if id in s.whole then s
      else if id in s.tx.pending then Fire(s.(tx := Step(cfg, s.tx, Aborts(id))), id, false)
      else s.(completions := s.completions - {id})
    case AckArrives(entry, now) => Acknowledged(cfg, s, entry, now)
    case VerdictsArrive(entries, failAt, now) => Adjudicated(cfg, s, entries, failAt, now)
  }

  lemma {:induction false} FireAllSameTx(s: Session, ids: seq<Txid>, confirmed: bool)
    ensures var u := FireAll(s, ids, confirmed); u.tx == s.tx && u.whole == s.whole && u.registered == s.registered
  {
    if ids != [] { FireAllSameTx(s, ids[..|ids| - 1], confirmed); }
  }

  lemma {:induction false} FillsGood(cfg: SenderConfig, tx: Tx, id: Txid, payload: Bytes, now: nat)
    requires 0 < cfg.frameSize && Good(tx)
    ensures Good(Fills(cfg, tx, id, payload, now).0) && Grows(tx.books, Fills(cfg, tx, id, payload, now).0.books)
  {
    StepGood(cfg, tx, Appends(id, payload, now));
    StepGood(cfg, Step(cfg, tx, Appends(id, payload, now)), Finishes(id, now));
  }

  lemma {:induction false} SendsGood(cfg: SenderConfig, tx: Tx, id: Txid, payload: Bytes, now: nat)
    requires 0 < cfg.frameSize && Good(tx)
    ensures Good(Sends(cfg, tx, id, payload, now).0) && Grows(tx.books, Sends(cfg, tx, id, payload, now).0.books)
  {
    var total := |payload| % U32_LIMIT;
    if id !in tx.pending && total != 0 {
      StepGood(cfg, tx, Opens(id, total, now));
      FillsGood(cfg, Step(cfg, tx, Opens(id, total, now)), id, payload, now);
    }
  }

  lemma {:induction false} NextGood(cfg: SenderConfig, s: Session, a: Action)
    requires 0 < cfg.frameSize && Good(s.tx)
    ensures Good(Next(cfg, s, a).tx)
  {
    match a
    case SendBinary(id, payload, callback, now) => SendsGood(cfg, s.tx, id, payload, now);
    case Plain(e) => StepGood(cfg, s.tx, e);
    case SinkAborts(id) => StepGood(cfg, s.tx, Aborts(id));
    case AckArrives(entry, now) => StepGood(cfg, s.tx, Acks(entry, now));
    case VerdictsArrive(entries, failAt, now) =>
      StepGood(cfg, s.tx, Verdicts(entries, now));
      var v := ApplyResumeVerdicts(s.tx.pending, entries, now).1;
      var u := s.(tx := Step(cfg, s.tx, Verdicts(entries, now)));
      FireAllSameTx(u, v.confirmed, true);
      FireAllSameTx(FireAll(u, v.confirmed, true), v.failed, false);
    case _ =>
  }

  ghost function Run(cfg: SenderConfig, actions: seq<Action>): (s: Session)
    requires 0 < cfg.frameSize
    ensures Good(s.tx)
  {
    if actions == [] then IDLE
    else
      var s := Run(cfg, actions[..|actions| - 1]);
      NextGood(cfg, s, actions[|actions| - 1]);
      Next(cfg, s, actions[|actions| - 1])
  }

  // ---------------------------------------------------------------------------------------------
  // No callback fires twice

  predicate HasFired(s: Session, c: nat) { exists i :: 0 <= i < |s.fired| && s.fired[i].callback == c }

  /** Table entries are distinct, unfired callbacks of their own id; nothing fired twice. */
  ghost predicate Tidy(s: Session)
  {
    && (forall id :: id in s.completions ==>
          && s.completions[id] < |s.registered| && s.registered[s.completions[id]].id == id
          && !HasFired(s, s.completions[id]))
    && (forall i :: 0 <= i < |s.fired| ==> s.fired[i].callback < |s.registered|)
    && (forall i, j :: 0 <= i < j < |s.fired| ==> s.fired[i].callback != s.fired[j].callback)
  }

  lemma {:induction false} FireTidy(s: Session, id: Txid, confirmed: bool)
    requires Tidy(s)
    ensures Tidy(Fire(s, id, confirmed))
  {
    if id in s.completions {
      var u := Fire(s, id, confirmed);
      forall j | j in u.completions ensures !HasFired(u, u.completions[j]) {
        assert s.registered[s.completions[j]].id == j && s.registered[s.completions[id]].id == id;
      }
      forall i | 0 <= i < |s.fired| ensures s.fired[i].callback != s.completions[id] { }
    }
  }

  lemma {:induction false} FireAllTidy(s: Session, ids: seq<Txid>, confirmed: bool)
    requires Tidy(s)
    ensures Tidy(FireAll(s, ids, confirmed))
  {
    if ids != [] {
      FireAllTidy(s, ids[..|ids| - 1], confirmed);
      FireTidy(FireAll(s, ids[..|ids| - 1], confirmed), ids[|ids| - 1], confirmed);
    }
  }

  lemma {:induction false} RegisterTidy(s: Session, id: Txid, whole: bool)
    requires Tidy(s)
    ensures Tidy(Register(s, id, whole))
  {
  }

  lemma {:induction false} SameTableTidy(s: Session, u: Session)
    requires Tidy(s) && u == s.(tx := u.tx, whole := u.whole)
    ensures Tidy(u)
  {
  }

  lemma {:induction false} SentTidy(cfg: SenderConfig, s: Session, id: Txid, payload: Bytes, callback: bool, now: nat)
    requires 0 < cfg.frameSize && Good(s.tx) && Tidy(s)
    ensures Tidy(Sent(cfg, s, id, payload, callback, now))
  {
    var u := s.(tx := Sends(cfg, s.tx, id, payload, now).0, whole := s.whole + {id});
    SameTableTidy(s, u);
    RegisterTidy(u, id, true);
  }

  lemma {:induction false} AdjudicatedTidy(cfg: SenderConfig, s: Session, entries: seq<ResumeStatusEntry>,
          failAt: Option<nat>, now: nat)
    requires 0 < cfg.frameSize && Good(s.tx) && Tidy(s)
    ensures Tidy(Adjudicated(cfg, s, entries, failAt, now))
  {
    var v := ApplyResumeVerdicts(s.tx.pending, entries, now).1;
    var u := s.(tx := Step(cfg, s.tx, Verdicts(entries, now)));
    SameTableTidy(s, u);
    FireAllTidy(u, v.confirmed, true);
    FireAllTidy(FireAll(u, v.confirmed, true), v.failed, false);
  }

  lemma {:induction false} AcknowledgedTidy(cfg: SenderConfig, s: Session, entry: AckEntry, now: nat)
    requires 0 < cfg.frameSize && Good(s.tx) && Tidy(s)
    ensures Tidy(Acknowledged(cfg, s, entry, now))
  {
    var u := s.(tx := Step(cfg, s.tx, Acks(entry, now)));
    SameTableTidy(s, u);
    FireTidy(u, entry.transactionId, true);
  }

  lemma {:induction false} NextTidy(cfg: SenderConfig, s: Session, a: Action)
    requires 0 < cfg.frameSize && Good(s.tx) && Tidy(s)
    ensures Tidy(Next(cfg, s, a))
  {
    match a
    case SendBinary(id, payload, callback, now) => SentTidy(cfg, s, id, payload, callback, now);
    case Plain(e) => SameTableTidy(s, s.(tx := Step(cfg, s.tx, e)));
    case SinkRegisters(id) => RegisterTidy(s, id, false);
    case SinkAborts(id) =>
      var u := s.(tx := Step(cfg, s.tx, Aborts(id)));
      SameTableTidy(s, u);
      FireTidy(u, id, false);
    case AckArrives(entry, now) => AcknowledgedTidy(cfg, s, entry, now);
    case VerdictsArrive(entries, failAt, now) => AdjudicatedTidy(cfg, s, entries, failAt, now);
    case SinkRechecks(id) =>
  }

  lemma {:induction false} RunTidy(cfg: SenderConfig, actions: seq<Action>)
    requires 0 < cfg.frameSize
    ensures Tidy(Run(cfg, actions))
  {
    if actions != [] {
      RunTidy(cfg, actions[..|actions| - 1]);
      NextTidy(cfg, Run(cfg, actions[..|actions| - 1]), actions[|actions| - 1]);
    }
  }

  /** No callback fires twice, in any run. */
  lemma {:induction false} NeverTwice(cfg: SenderConfig, actions: seq<Action>, i: nat, j: nat)
    requires 0 < cfg.frameSize && i < j < |Run(cfg, actions).fired|
    ensures Run(cfg, actions).fired[i].callback != Run(cfg, actions).fired[j].callback
  {
    RunTidy(cfg, actions);
  }
}
