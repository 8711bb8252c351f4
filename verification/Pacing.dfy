/** Exponential backoff: how early a frame can be resent by the clock. */
module Pacing {
  import opened Prelude
  import opened Frames
  import opened Sender
  import opened Retention
  import opened SenderRuns

  /** Sum of the first `n` timeouts of a frame. */
  function Backoff(cfg: SenderConfig, n: nat): nat
  {
    if n == 0 then 0 else Backoff(cfg, n - 1) + CurrentRto(cfg, n - 1)
  }

  lemma {:induction false} Pow2Grows(m: nat, n: nat)
    requires m <= n
    ensures 0 < Pow2(m) <= Pow2(n)
    ensures m < n ==> 2 * Pow2(m) <= Pow2(n)
    decreases n
  {
    if m < n { Pow2Grows(m, n - 1); } else if m > 0 { Pow2Grows(m - 1, n - 1); }
  }

  /** The timeout is `min(initial * 2^attempts, max)`, except past 62 doublings that have not reached the ceiling. */
  lemma {:induction false} RtoExact(cfg: SenderConfig, attempts: nat)
    requires cfg.rtoMaxMs <= U64_MAX
    ensures CurrentRto(cfg, attempts) == Min(cfg.rtoInitialMs * Pow2(attempts), cfg.rtoMaxMs)
            <==> (attempts <= 62 || cfg.rtoInitialMs == 0 || cfg.rtoMaxMs <= cfg.rtoInitialMs * Pow2(62))
  {
    if attempts > 62 {
      Pow2Grows(62, attempts);
      Doubled(cfg.rtoInitialMs, Pow2(62), Pow2(attempts));
      CeilingReached(cfg.rtoInitialMs, cfg.rtoInitialMs * Pow2(62), cfg.rtoInitialMs * Pow2(attempts), cfg.rtoMaxMs);
    }
  }

  lemma {:induction false} Doubled(x: nat, m: nat, n: nat)
    requires 0 < m && 2 * m <= n
    ensures 2 * (x * m) <= x * n && (x == 0 <==> x * m == 0)
  {
    assert x * (n - 2 * m) >= 0;
    assert x * (n - 2 * m) == x * n - 2 * (x * m);
  }

  lemma {:induction false} CeilingReached(x: nat, a: nat, b: nat, max: nat)
    requires max <= U64_MAX && 2 * a <= b && (x == 0 <==> a == 0) && (x == 0 ==> b == 0)
    ensures Min(Min(a, U64_MAX), max) == Min(b, max) <==> x == 0 || max <= a
  {
  }

  /** A run of events continued from a given state. */
  ghost function RunFrom(cfg: SenderConfig, tx: Tx, events: seq<Event>): (r: Tx)
    requires 0 < cfg.frameSize && Good(tx)
    ensures Good(r) && Grows(tx.books, r.books)
  {
    if events == [] then tx
    else
      var q := RunFrom(cfg, tx, events[..|events| - 1]);
      StepGood(cfg, q, events[|events| - 1]);
      Step(cfg, q, events[|events| - 1])
  }

  function NowOf(e: Event, clock: nat): nat { if e.Aborts? then clock else e.now }

  /** A verdict resumes transaction `id`, and so resends its frames at once. */
  predicate Resumes(e: Event, id: Txid)
  {
    e.Verdicts? && exists i :: 0 <= i < |e.entries| && e.entries[i] == ResumeStatusEntry(id, Resumed)
  }

  /** Time never runs backwards along the events, and no verdict resumes `id`. */
  ghost predicate ClockOnly(events: seq<Event>, id: Txid, clock: nat)
  {
    if events == [] then true
    else
      var before, e := events[..|events| - 1], events[|events| - 1];
      && !Resumes(e, id) && ClockOnly(before, id, clock)
      && LastInstant(before, clock) <= NowOf(e, LastInstant(before, clock))
  }

  function LastInstant(events: seq<Event>, clock: nat): nat
  {
    if events == [] then clock else NowOf(events[|events| - 1], LastInstant(events[..|events| - 1], clock))
  }

  /** Every frame of `id` was last sent no later than `clock`. */
  ghost predicate SentBy(p: Pending, id: Txid, clock: nat)
    requires id in p
  {
    forall i :: 0 <= i < |p[id].states| ==> p[id].states[i].lastSentMs <= clock
  }

  /** From `s` to `u` each new attempt waited out its timeout. */
  ghost predicate Paced(cfg: SenderConfig, s: FrameState, u: FrameState)
  {
    s.attempts <= u.attempts && s.lastSentMs + Backoff(cfg, u.attempts) <= u.lastSentMs + Backoff(cfg, s.attempts)
  }

  /** One event, applied to a transaction that stays pending: old frames are paced, all are sent by `now`. */
  ghost predicate PacedStates(cfg: SenderConfig, old_: seq<FrameState>, now_: seq<FrameState>, instant: nat)
  {
    && |old_| <= |now_|
    && (forall i :: 0 <= i < |old_| ==> Paced(cfg, old_[i], now_[i]))
    && (forall i :: 0 <= i < |now_| ==> now_[i].lastSentMs <= instant)
  }

  lemma {:induction false} CutStates(t: PendingTxn, id: Txid, frameSize: nat, now: nat)
    requires 0 < frameSize
    ensures t.states <= Cut(t, id, frameSize, now).states
    ensures forall i :: |t.states| <= i < |Cut(t, id, frameSize, now).states| ==>
              Cut(t, id, frameSize, now).states[i].lastSentMs == now
    decreases |t.partial|
  {
    if |t.partial| >= frameSize { CutStates(Push(t, id, frameSize, now), id, frameSize, now); }
  }

  lemma {:induction false} TickPaced(cfg: SenderConfig, s: FrameState, now: nat)
    requires s.lastSentMs <= now
    ensures Paced(cfg, s, Bumped(Due(cfg, now), s, now))
  {
  }

  lemma {:induction false} TicksPaced(cfg: SenderConfig, states: seq<FrameState>, now: nat)
    requires forall i :: 0 <= i < |states| ==> states[i].lastSentMs <= now
    ensures PacedStates(cfg, states, ResentStates(Due(cfg, now), states, now), now)
  {
    forall i | 0 <= i < |states| ensures Paced(cfg, states[i], ResentStates(Due(cfg, now), states, now)[i]) {
      TickPaced(cfg, states[i], now);
    }
  }

  /** Stamping frames without counting an attempt, and adding fresh frames, keeps the pace. */
  lemma {:induction false} StampsPaced(cfg: SenderConfig, old_: seq<FrameState>, now_: seq<FrameState>, instant: nat)
    requires |old_| <= |now_|
    requires forall i :: 0 <= i < |old_| ==>
               now_[i].attempts == old_[i].attempts && old_[i].lastSentMs <= now_[i].lastSentMs <= instant
    requires forall i :: |old_| <= i < |now_| ==> now_[i].lastSentMs <= instant
    ensures PacedStates(cfg, old_, now_, instant)
  {
  }

  lemma {:induction false} FramingPaced(cfg: SenderConfig, p: Pending, e: Event, id: Txid, clock: nat)
    requires 0 < cfg.frameSize && SameShape(p) && (e.Appends? || e.Finishes?) && e.id == id
    requires id in p && SentBy(p, id, clock) && clock <= e.now
    ensures id in After(cfg, p, e) && PacedStates(cfg, p[id].states, After(cfg, p, e)[id].states, e.now)
  {
    if e.Appends? { CutStates(Buffered(p[id], e.chunk), id, cfg.frameSize, e.now); }
    StampsPaced(cfg, p[id].states, After(cfg, p, e)[id].states, e.now);
  }

  lemma {:induction false} StampingPaced(cfg: SenderConfig, p: Pending, e: Event, id: Txid, clock: nat)
    requires 0 < cfg.frameSize && SameShape(p)
    requires !e.Verdicts? && !e.Ticks? && !((e.Appends? || e.Finishes?) && e.id == id)
    requires id in p && SentBy(p, id, clock) && clock <= NowOf(e, clock) && id in After(cfg, p, e)
    ensures PacedStates(cfg, p[id].states, After(cfg, p, e)[id].states, NowOf(e, clock))
  {
    StampsPaced(cfg, p[id].states, After(cfg, p, e)[id].states, NowOf(e, clock));
  }

  /** Verdicts that do not resume a transaction either remove it or leave it alone. */
  lemma {:induction false} VerdictsSkip(p: Pending, entries: seq<ResumeStatusEntry>, now: nat, id: Txid)
    requires SameShape(p) && !Resumes(Verdicts(entries, now), id) && id in ApplyResumeVerdicts(p, entries, now).0
    ensures id in p && ApplyResumeVerdicts(p, entries, now).0[id] == p[id]
  {
    if entries != [] {
      var front := entries[..|entries| - 1];
      assert forall i :: 0 <= i < |front| ==> front[i] == entries[i];
      VerdictsSkip(p, front, now, id);
    }
  }

  lemma {:induction false} StepPaced(cfg: SenderConfig, tx: Tx, e: Event, id: Txid, clock: nat)
    requires 0 < cfg.frameSize && Good(tx) && !Resumes(e, id)
    requires id in tx.pending && id in Step(cfg, tx, e).pending
    requires SentBy(tx.pending, id, clock) && clock <= NowOf(e, clock)
    ensures PacedStates(cfg, tx.pending[id].states, Step(cfg, tx, e).pending[id].states, NowOf(e, clock))
  {
    var p := tx.pending;
    if !Enabled(tx, e) {
      StampsPaced(cfg, p[id].states, p[id].states, NowOf(e, clock));
    } else if (e.Appends? || e.Finishes?) && e.id == id {
      FramingPaced(cfg, p, e, id, clock);
    } else if e.Verdicts? {
      VerdictsSkip(p, e.entries, e.now, id);
      StampsPaced(cfg, p[id].states, p[id].states, e.now);
    } else if e.Ticks? {
      TicksPaced(cfg, p[id].states, e.now);
      StampsPaced(cfg, p[id].states, p[id].states, e.now);
    } else {
      StampingPaced(cfg, p, e, id, clock);
    }
  }

  lemma {:induction false} PacedTrans(cfg: SenderConfig, a: seq<FrameState>, b: seq<FrameState>, c: seq<FrameState>,
          now: nat)
    requires |a| <= |b| && (forall i :: 0 <= i < |a| ==> Paced(cfg, a[i], b[i]))
    requires PacedStates(cfg, b, c, now)
    ensures PacedStates(cfg, a, c, now)
  {
    forall i | 0 <= i < |a| ensures Paced(cfg, a[i], c[i]) {
      assert Paced(cfg, a[i], b[i]) && Paced(cfg, b[i], c[i]);
    }
  }

  lemma {:induction false} RunPaced(cfg: SenderConfig, tx: Tx, events: seq<Event>, id: Txid, clock: nat)
    requires 0 < cfg.frameSize && Good(tx) && id in tx.pending && SentBy(tx.pending, id, clock)
    requires ClockOnly(events, id, clock) && id in RunFrom(cfg, tx, events).pending
    ensures PacedStates(cfg, tx.pending[id].states, RunFrom(cfg, tx, events).pending[id].states,
            LastInstant(events, clock))
  {
    if events != [] {
      var n := |events| - 1;
      var q := RunFrom(cfg, tx, events[..n]);
      StaysPending(cfg, q, events[n], id);
      RunPaced(cfg, tx, events[..n], id, clock);
      StepPaced(cfg, q, events[n], id, LastInstant(events[..n], clock));
      PacedTrans(cfg, tx.pending[id].states, q.pending[id].states, Step(cfg, q, events[n]).pending[id].states,
                 LastInstant(events, clock));
    }
  }

  /** A used id is never opened again, so a pending transaction was pending before. */
  lemma {:induction false} StaysPending(cfg: SenderConfig, tx: Tx, e: Event, id: Txid)
    requires 0 < cfg.frameSize && Good(tx) && id in tx.books && id in Step(cfg, tx, e).pending
    ensures id in tx.pending
  {
    if e.Verdicts? { VerdictsOnlyStamp(tx.pending, e.entries, e.now, id); }
  }

  /**
   With monotone time and no verdict that resumes the transaction, the n-th clock resend of a frame comes no earlier
   than its first send plus the first n timeouts; NACK resends and unpausing in between only push it later.
   */
  lemma {:induction false} NthResend(cfg: SenderConfig, tx: Tx, events: seq<Event>, id: Txid, i: nat, clock: nat,
          now: nat)
    requires 0 < cfg.frameSize && Good(tx) && id in tx.pending && SentBy(tx.pending, id, clock)
    requires i < |tx.pending[id].states| && tx.pending[id].states[i].attempts == 0
    requires ClockOnly(events, id, clock) && LastInstant(events, clock) <= now
    requires id in RunFrom(cfg, tx, events).pending
    ensures i < |StatesAfter(cfg, tx, events, id)|
    ensures var s := StatesAfter(cfg, tx, events, id)[i];
            Picks(Due(cfg, now), s) ==> now >= tx.pending[id].states[i].lastSentMs + Backoff(cfg, s.attempts + 1)
  {
    AfterPaced(cfg, tx, events, id, clock);
    StatesDue(cfg, tx.pending[id].states, StatesAfter(cfg, tx, events, id), i, LastInstant(events, clock), now);
  }

  /** The frame states of `id` after the events, if it is still pending. */
  ghost function StatesAfter(cfg: SenderConfig, tx: Tx, events: seq<Event>, id: Txid): seq<FrameState>
    requires 0 < cfg.frameSize && Good(tx)
  {
    var p := RunFrom(cfg, tx, events).pending;
    if id in p then p[id].states else []
  }

  lemma {:induction false} AfterPaced(cfg: SenderConfig, tx: Tx, events: seq<Event>, id: Txid, clock: nat)
    requires 0 < cfg.frameSize && Good(tx) && id in tx.pending && SentBy(tx.pending, id, clock)
    requires ClockOnly(events, id, clock) && id in RunFrom(cfg, tx, events).pending
    ensures PacedStates(cfg, tx.pending[id].states, StatesAfter(cfg, tx, events, id), LastInstant(events, clock))
  {
    RunPaced(cfg, tx, events, id, clock);
  }

  lemma {:induction false} StatesDue(
    cfg: SenderConfig, old_: seq<FrameState>, now_: seq<FrameState>, i: nat, instant: nat, now: nat)
    requires PacedStates(cfg, old_, now_, instant) && instant <= now && i < |old_| && old_[i].attempts == 0
    ensures Picks(Due(cfg, now), now_[i]) ==> now >= old_[i].lastSentMs + Backoff(cfg, now_[i].attempts + 1)
  {
    if Picks(Due(cfg, now), now_[i]) { DueAfterBackoff(cfg, old_[i], now_[i], now); }
  }

  lemma {:induction false} DueAfterBackoff(cfg: SenderConfig, s: FrameState, u: FrameState, now: nat)
    requires s.attempts == 0 && Paced(cfg, s, u) && u.lastSentMs <= now && Picks(Due(cfg, now), u)
    ensures now >= s.lastSentMs + Backoff(cfg, u.attempts + 1)
  {
  }
}
