/**
 Parked sink writers and their wake-ups (src/transfer/sink.rs:52-109 and 291-343, src/transfer/inbound.rs:57-93,
 src/transfer/core.rs:371-399). Writers subscribe to a version counter, check, and park; steps that may unblock
 them bump the counter, some of them only after leaving the session lock. Any interleaving of these is a run.
 */
module Wakeup {
  import opened Prelude
  import opened Frames
  import opened Sender
  import opened Retention
  import opened SenderRuns

  /** Where a `sink_write` call stands; `seen` is the version it subscribed at. */
  datatype Stage =
    | Subscribed(seen: nat)
    | Checked(seen: nat)
    | Parked(seen: nat)
    | Written
    | Refused

  datatype Writer = Writer(id: Txid, chunk: Bytes, stage: Stage)

  /** `owed` counts the bumps that finished critical sections have still to make. */
  datatype Session = Session(tx: Tx, wired: bool, version: nat, owed: nat, writers: map<nat, Writer>)

  const QUIET := Session(Tx(map[], map[]), false, 0, 0, map[])

  datatype Action =
    | Writes(writer: nat, id: Txid, chunk: Bytes)
    | ChecksWiring(writer: nat)
    | TriesAppend(writer: nat, now: nat)
    | Wakes(writer: nat)
    /** Critical sections: an ACK frame with all its entries, or any other sender event but an append. */
    | AckFrame(entries: seq<AckEntry>, now: nat)
    | Section(event: Event)
    /** A finished section makes its bump; the clock bumps after every tick of a live connection. */
    | Bump
    | ClockBump
    | StoreWiring
    | DropWiring

  /** Sections that leave a bump to be made: releases, verdicts, and a pause lifted or an abort that took effect. */
  predicate Owes(p: Pending, e: Event)
  {
    match e
    case Acks(_, _) => true
    case Verdicts(_, _) => true
    case Pauses(id, paused, _) => !paused && id in p
    case Aborts(id) => id in p
    case _ => false
  }

  ghost function AckAll(cfg: SenderConfig, tx: Tx, entries: seq<AckEntry>, now: nat): (u: Tx)
    requires 0 < cfg.frameSize && Good(tx)
    ensures Good(u)
  {
    if entries == [] then tx
    else
      var v := AckAll(cfg, tx, entries[..|entries| - 1], now);
      StepGood(cfg, v, Acks(entries[|entries| - 1], now));
      Step(cfg, v, Acks(entries[|entries| - 1], now))
  }

  predicate Suspended(p: Pending, id: Txid) { id in p && (p[id].paused || p[id].awaitingResume) }

  /** A write of `chunk` would park: no connection, paused or gated, or over the cap. */
  ghost predicate Blocked(cfg: SenderConfig, wired: bool, p: Pending, id: Txid, chunk: Bytes)
  {
    !wired || Suspended(p, id) || (id in p && Total(p) + |chunk| > cfg.capBytes)
  }

  function At(s: Session, w: nat, stage: Stage): Session
    requires w in s.writers
  {
    s.(writers := s.writers[w := s.writers[w].(stage := stage)])
  }

  /** The append section of `sink_write`. */
  ghost function Appended(cfg: SenderConfig, s: Session, w: nat, now: nat): Session
    requires 0 < cfg.frameSize && Good(s.tx) && w in s.writers && s.writers[w].stage.Checked?
  {
    var Writer(id, chunk, stage) := s.writers[w];
    if Suspended(s.tx.pending, id) then At(s, w, Parked(stage.seen))
    else
      match Append(cfg, s.tx.pending, id, chunk, now).1
      case Ok(_) => At(s, w, Written).(tx := Step(cfg, s.tx, Appends(id, chunk, now)))
      case Err(e) => At(s, w, if e.Backpressured? then Parked(stage.seen) else Refused)
  }

  ghost function Next(cfg: SenderConfig, s: Session, a: Action): Session
    requires 0 < cfg.frameSize && Good(s.tx)
  {
    match a
    case Writes(w, id, chunk) =>
      if w in s.writers then s else s.(writers := s.writers[w := Writer(id, chunk, Subscribed(s.version))])
    case ChecksWiring(w) =>
      if w in s.writers && s.writers[w].stage.Subscribed? then
        At(s, w, if s.wired then Checked(s.writers[w].stage.seen) else Parked(s.writers[w].stage.seen))
      else s
    case TriesAppend(w, now) => if w in s.writers && s.writers[w].stage.Checked? then Appended(cfg, s, w, now) else s
    case Wakes(w) =>
      if w in s.writers && s.writers[w].stage.Parked? && s.writers[w].stage.seen != s.version then
        At(s, w, Subscribed(s.version))
      else s
    case AckFrame(entries, now) => s.(tx := AckAll(cfg, s.tx, entries, now), owed := s.owed + 1)
    case Section(e) =>
      if e.Acks? || e.Appends? then s
      else s.(tx := Step(cfg, s.tx, e), owed := s.owed + if Owes(s.tx.pending, e) then 1 else 0)
    case Bump => if s.owed > 0 then s.(version := s.version + 1, owed := s.owed - 1) else s
    case ClockBump => s.(version := s.version + 1)
    case StoreWiring => s.(wired := true, owed := s.owed + 1)
    case DropWiring => s.(wired := false)
  }

  lemma {:induction false} NextGood(cfg: SenderConfig, s: Session, a: Action)
    requires 0 < cfg.frameSize && Good(s.tx)
    ensures Good(Next(cfg, s, a).tx)
  {
    if a.Section? { StepGood(cfg, s.tx, a.event); }
    if a.TriesAppend? && a.writer in s.writers {
      StepGood(cfg, s.tx, Appends(s.writers[a.writer].id, s.writers[a.writer].chunk, a.now));
    }
  }

  ghost function Run(cfg: SenderConfig, actions: seq<Action>): (s: Session)
    requires 0 < cfg.frameSize
    ensures Good(s.tx)
  {
    if actions == [] then QUIET
    else
      var s := Run(cfg, actions[..|actions| - 1]);
      NextGood(cfg, s, actions[|actions| - 1]);
      Next(cfg, s, actions[|actions| - 1])
  }

  // ---------------------------------------------------------------------------------------------
  // Sections that owe nothing unblock nobody

  lemma {:induction false} FlagsStay(cfg: SenderConfig, tx: Tx, e: Event, id: Txid)
    requires 0 < cfg.frameSize && Good(tx) && IsTimer(e) && !Owes(tx.pending, e) && Suspended(tx.pending, id)
    ensures Suspended(Step(cfg, tx, e).pending, id)
  {
  }

  lemma {:induction false} CutFlags(t: PendingTxn, id: Txid, frameSize: nat, now: nat)
    requires 0 < frameSize
    ensures var u := Cut(t, id, frameSize, now);
            u.paused == t.paused && u.awaitingResume == t.awaitingResume && u.bytes == t.bytes
    decreases |t.partial|
  {
    if |t.partial| >= frameSize { CutFlags(Push(t, id, frameSize, now), id, frameSize, now); }
  }

  /** One transaction is replaced by a version that holds no fewer bytes and keeps its flags. */
  lemma {:induction false} GrownBlocks(cfg: SenderConfig, wired: bool, p: Pending, j: Txid, t: PendingTxn, id: Txid,
          chunk: Bytes)
    requires j in p ==> t.paused == p[j].paused && t.awaitingResume == p[j].awaitingResume && p[j].bytes <= t.bytes
    requires Blocked(cfg, wired, p, id, chunk)
    ensures Blocked(cfg, wired, p[j := t], id, chunk)
  {
    TotalPut(p, j, t);
  }

  lemma {:induction false} TimersBlock(cfg: SenderConfig, tx: Tx, wired: bool, e: Event, id: Txid, chunk: Bytes)
    requires 0 < cfg.frameSize && Good(tx) && IsTimer(e) && !Owes(tx.pending, e)
    requires Blocked(cfg, wired, tx.pending, id, chunk)
    ensures Blocked(cfg, wired, Step(cfg, tx, e).pending, id, chunk)
  {
    TimersSound(cfg, tx, e);
    if Suspended(tx.pending, id) {
      FlagsStay(cfg, tx, e, id);
    } else if id in tx.pending {
      TimersRestamp(cfg, tx.pending, e, id);
    }
  }

  lemma {:induction false} AppendsBlock(cfg: SenderConfig, tx: Tx, wired: bool, e: Event, id: Txid, chunk: Bytes)
    requires 0 < cfg.frameSize && Good(tx) && e.Appends?
    requires Blocked(cfg, wired, tx.pending, id, chunk)
    ensures Blocked(cfg, wired, Step(cfg, tx, e).pending, id, chunk)
  {
    if Append(cfg, tx.pending, e.id, e.chunk, e.now).1.Ok? {
      var t := Buffered(tx.pending[e.id], e.chunk);
      CutFlags(t, e.id, cfg.frameSize, e.now);
      GrownBlocks(cfg, wired, tx.pending, e.id, Cut(t, e.id, cfg.frameSize, e.now), id, chunk);
    }
  }

  lemma {:induction false} SectionBlocks(cfg: SenderConfig, tx: Tx, wired: bool, e: Event, id: Txid, chunk: Bytes)
    requires 0 < cfg.frameSize && Good(tx) && !Owes(tx.pending, e)
    requires Blocked(cfg, wired, tx.pending, id, chunk)
    ensures Blocked(cfg, wired, Step(cfg, tx, e).pending, id, chunk)
  {
    match e
    case Opens(j, total, now) =>
      if j !in tx.books { GrownBlocks(cfg, wired, tx.pending, j, Opened(total, now), id, chunk); }
    case Appends(_, _, _) => AppendsBlock(cfg, tx, wired, e, id, chunk);
    case Finishes(j, now) =>
      if j in tx.pending { GrownBlocks(cfg, wired, tx.pending, j, Flushed(tx.pending[j], j, now), id, chunk); }
    case Aborts(j) => assert tx.pending - {j} == tx.pending;
    case _ => TimersBlock(cfg, tx, wired, e, id, chunk);
  }

  // ---------------------------------------------------------------------------------------------
  // No lost wake-up

  predicate Current(s: Session, stage: Stage)
  {
    stage.Subscribed? || stage.Checked? || stage.Parked? ==> stage.seen <= s.version
  }

  /** A parked writer is blocked, or has a bump behind it, or one is owed. */
  ghost predicate Safe(cfg: SenderConfig, s: Session, w: Writer)
  {
    && Current(s, w.stage)
    && (w.stage.Parked? ==>
          Blocked(cfg, s.wired, s.tx.pending, w.id, w.chunk) || w.stage.seen < s.version || 0 < s.owed)
  }

  ghost predicate AllSafe(cfg: SenderConfig, s: Session) { forall w :: w in s.writers ==> Safe(cfg, s, s.writers[w]) }

  lemma {:induction false} SectionSafe(cfg: SenderConfig, s: Session, e: Event)
    requires 0 < cfg.frameSize && Good(s.tx) && AllSafe(cfg, s)
    ensures AllSafe(cfg, Next(cfg, s, Section(e)))
  {
    var u := Next(cfg, s, Section(e));
    forall w | w in u.writers ensures Safe(cfg, u, u.writers[w]) {
      var x := s.writers[w];
      assert Safe(cfg, s, x);
      if !Owes(s.tx.pending, e) && Blocked(cfg, s.wired, s.tx.pending, x.id, x.chunk) {
        SectionBlocks(cfg, s.tx, s.wired, e, x.id, x.chunk);
      }
    }
  }

  lemma {:induction false} AppendedSafe(cfg: SenderConfig, s: Session, w: nat, now: nat)
    requires 0 < cfg.frameSize && Good(s.tx) && AllSafe(cfg, s) && w in s.writers && s.writers[w].stage.Checked?
    ensures AllSafe(cfg, Appended(cfg, s, w, now))
  {
    var u := Appended(cfg, s, w, now);
    var me := s.writers[w];
    assert Safe(cfg, s, me);
    forall x | x in u.writers ensures Safe(cfg, u, u.writers[x]) {
      var y := s.writers[x];
      assert Safe(cfg, s, y);
      if Blocked(cfg, s.wired, s.tx.pending, y.id, y.chunk) {
        AppendsBlock(cfg, s.tx, s.wired, Appends(me.id, me.chunk, now), y.id, y.chunk);
      }
    }
  }

  lemma {:induction false} NextSafe(cfg: SenderConfig, s: Session, a: Action)
    requires 0 < cfg.frameSize && Good(s.tx) && AllSafe(cfg, s)
    ensures AllSafe(cfg, Next(cfg, s, a))
  {
    match a
    case Section(e) => SectionSafe(cfg, s, e);
    case TriesAppend(w, now) =>
      if w in s.writers && s.writers[w].stage.Checked? { AppendedSafe(cfg, s, w, now); }
    case _ =>
      var u := Next(cfg, s, a);
      forall w | w in u.writers ensures Safe(cfg, u, u.writers[w]) {
        if w in s.writers { assert Safe(cfg, s, s.writers[w]); }
      }
  }

  /**
   No lost wake-up, in every interleaving: a parked writer that would no longer block has a version bump already
   behind it, or one still owed by a finished critical section.
   */
  lemma {:induction false} NoLostWakeup(cfg: SenderConfig, actions: seq<Action>)
    requires 0 < cfg.frameSize
    ensures AllSafe(cfg, Run(cfg, actions))
  {
    if actions != [] {
      NoLostWakeup(cfg, actions[..|actions| - 1]);
      NextSafe(cfg, Run(cfg, actions[..|actions| - 1]), actions[|actions| - 1]);
    }
  }

  /** Once every owed bump is made, a parked writer with no reason left to wait is woken by its next poll. */
  lemma {:induction false} WakeIsEnabled(cfg: SenderConfig, actions: seq<Action>, w: nat)
    requires 0 < cfg.frameSize
    requires var s := Run(cfg, actions);
             && s.owed == 0 && w in s.writers && s.writers[w].stage.Parked?
             && !Blocked(cfg, s.wired, s.tx.pending, s.writers[w].id, s.writers[w].chunk)
    ensures var s := Run(cfg, actions); Next(cfg, s, Wakes(w)).writers[w].stage == Subscribed(s.version)
  {
    NoLostWakeup(cfg, actions);
    var s := Run(cfg, actions);
    assert Safe(cfg, s, s.writers[w]);
  }
}
