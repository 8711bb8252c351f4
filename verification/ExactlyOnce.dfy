/**
 The life of a `send_binary` callback, over every run of session steps: registered exactly while its transaction
 is pending, fired once, confirmed, when it leaves; and the one way in which it is never fired.
 */
module ExactlyOnce {
  import opened Prelude
  import opened Frames
  import opened Sender
  import opened Retention
  import opened SenderRuns
  import opened Completions

  predicate FiredAs(s: Session, c: nat, confirmed: bool)
  {
    exists i :: 0 <= i < |s.fired| && s.fired[i] == Firing(c, confirmed)
  }

  predicate Registered(s: Session, c: nat)
    requires c < |s.registered|
  {
    s.registered[c].id in s.completions && s.completions[s.registered[c].id] == c && !HasFired(s, c)
  }

  predicate IsPending(s: Session, c: nat)
    requires c < |s.registered|
  {
    s.registered[c].id in s.tx.pending
  }

  /** Transaction pending and fully sent, callback registered and unfired. */
  predicate Armed(s: Session, c: nat)
    requires c < |s.registered|
  {
    IsPending(s, c) && IsFullySent(s.tx.pending[s.registered[c].id]) && Registered(s, c)
  }

  /** Transaction gone, callback taken out and fired as confirmed. */
  predicate Fulfilled(s: Session, c: nat)
    requires c < |s.registered|
  {
    !IsPending(s, c) && s.registered[c].id !in s.completions && FiredAs(s, c, true)
  }

  /** Transaction gone, callback still registered: nothing will fire it. */
  predicate Stranded(s: Session, c: nat)
    requires c < |s.registered|
  {
    !IsPending(s, c) && Registered(s, c)
  }

  ghost predicate WholeOk(s: Session)
  {
    && Tidy(s)
    && (forall c :: 0 <= c < |s.registered| && s.registered[c].whole ==>
          s.registered[c].id in s.whole && (Armed(s, c) || Fulfilled(s, c) || Stranded(s, c)))
  }

  /** The step is a RESUME_RESPONSE one of whose retransmission writes fails. */
  ghost predicate Strands(s: Session, a: Action)
    requires SameShape(s.tx.pending)
  {
    a.VerdictsArrive? && WriteFails(ApplyResumeVerdicts(s.tx.pending, a.entries, a.now).1, a.failAt)
  }

  /** What a step may do to a `send_binary` callback. */
  ghost predicate Moves(s: Session, u: Session, c: nat, strands: bool)
    requires c < |s.registered| <= |u.registered|
  {
    && (Fulfilled(s, c) ==> Fulfilled(u, c))
    && (Stranded(s, c) ==> Stranded(u, c))
    && (Armed(s, c) ==> if IsPending(u, c) then Armed(u, c) else if strands then Stranded(u, c) else Fulfilled(u, c))
  }

  /** The same, with the registration itself kept. */
  ghost predicate Advances(s: Session, u: Session, c: nat, strands: bool)
    requires c < |s.registered|
  {
    && |s.registered| <= |u.registered| && u.registered[c] == s.registered[c] && s.whole <= u.whole
    && Moves(s, u, c, strands)
  }

  // ---------------------------------------------------------------------------------------------
  // Steps about other transactions

  /** `j` stays pending, and fully sent, as it was. */
  ghost predicate SparesTxn(p: Pending, q: Pending, j: Txid)
  {
    (j in q <==> j in p) && (j in p && IsFullySent(p[j]) ==> IsFullySent(q[j]))
  }

  lemma {:induction false} PlainSpares(cfg: SenderConfig, tx: Tx, e: Event, j: Txid)
    requires 0 < cfg.frameSize && Good(tx) && (IsTimer(e) || (SinkEvent(e) && e.id != j))
    ensures SparesTxn(tx.pending, Step(cfg, tx, e).pending, j)
  {
    if IsTimer(e) && j in tx.pending { TimersRestamp(cfg, tx.pending, e, j); }
  }

  lemma {:induction false} FillsSpares(cfg: SenderConfig, tx: Tx, id: Txid, payload: Bytes, now: nat, j: Txid)
    requires 0 < cfg.frameSize && Good(tx) && j != id
    ensures SparesTxn(tx.pending, Fills(cfg, tx, id, payload, now).0.pending, j)
  {
    if Append(cfg, tx.pending, id, payload, now).1.Ok? {
      StepGood(cfg, tx, Appends(id, payload, now));
      PlainSpares(cfg, tx, Appends(id, payload, now), j);
      PlainSpares(cfg, Step(cfg, tx, Appends(id, payload, now)), Finishes(id, now), j);
    }
  }

  lemma {:induction false} SendsSpares(cfg: SenderConfig, tx: Tx, id: Txid, payload: Bytes, now: nat, j: Txid)
    requires 0 < cfg.frameSize && Good(tx) && j != id
    ensures SparesTxn(tx.pending, Sends(cfg, tx, id, payload, now).0.pending, j)
  {
    var total := |payload| % U32_LIMIT;
    if id !in tx.pending && total != 0 {
      StepGood(cfg, tx, Opens(id, total, now));
      PlainSpares(cfg, tx, Opens(id, total, now), j);
      FillsSpares(cfg, Step(cfg, tx, Opens(id, total, now)), id, payload, now, j);
    }
  }

  lemma {:induction false} FinishIsWhole(p: Pending, id: Txid, now: nat)
    requires Finish(p, id, now).1.Ok?
    ensures var q := Finish(p, id, now).0; id in q && IsFullySent(q[id])
  {
  }

  /** A send that succeeds leaves its transaction pending and fully sent. */
  lemma {:induction false} SendsWhole(cfg: SenderConfig, tx: Tx, id: Txid, payload: Bytes, now: nat)
    requires 0 < cfg.frameSize && Good(tx) && Sends(cfg, tx, id, payload, now).1
    ensures var q := Sends(cfg, tx, id, payload, now).0.pending; id in q && IsFullySent(q[id])
  {
    StepGood(cfg, tx, Opens(id, |payload| % U32_LIMIT, now));
    FillsWhole(cfg, Step(cfg, tx, Opens(id, |payload| % U32_LIMIT, now)), id, payload, now);
  }

  lemma {:induction false} FillsWhole(cfg: SenderConfig, tx: Tx, id: Txid, payload: Bytes, now: nat)
    requires 0 < cfg.frameSize && Good(tx) && Fills(cfg, tx, id, payload, now).1
    ensures var q := Fills(cfg, tx, id, payload, now).0.pending; id in q && IsFullySent(q[id])
  {
    StepGood(cfg, tx, Appends(id, payload, now));
    ClosesWhole(cfg, Step(cfg, tx, Appends(id, payload, now)), id, now);
  }

  lemma {:induction false} ClosesWhole(cfg: SenderConfig, tx: Tx, id: Txid, now: nat)
    requires 0 < cfg.frameSize && Good(tx) && Closes(cfg, tx, id, now).1
    ensures var q := Closes(cfg, tx, id, now).0.pending; id in q && IsFullySent(q[id])
  {
    FinishIsWhole(tx.pending, id, now);
  }

  /** Nothing about callback `c` changes. */
  lemma {:induction false} Unmoved(s: Session, u: Session, c: nat, strands: bool)
    requires c < |s.registered| <= |u.registered| && u.registered[c] == s.registered[c]
    requires SparesTxn(s.tx.pending, u.tx.pending, s.registered[c].id)
    requires u.fired == s.fired
    requires var id := s.registered[c].id;
             && (id in u.completions <==> id in s.completions)
             && (id in s.completions ==> u.completions[id] == s.completions[id])
    ensures Moves(s, u, c, strands)
  {
  }

  // ---------------------------------------------------------------------------------------------
  // Firing

  /** Firing other ids leaves callback `c` alone. */
  lemma {:induction false} FireOther(s: Session, id: Txid, confirmed: bool, c: nat)
    requires Tidy(s) && c < |s.registered| && s.registered[c].id != id
    ensures var u := Fire(s, id, confirmed);
            && (HasFired(u, c) <==> HasFired(s, c)) && (FiredAs(u, c, true) <==> FiredAs(s, c, true))
            && (Registered(u, c) <==> Registered(s, c))
            && (s.registered[c].id in u.completions <==> s.registered[c].id in s.completions)
  {
    var u := Fire(s, id, confirmed);
    if id in s.completions {
      assert s.registered[s.completions[id]].id == id;
      assert u.fired[..|s.fired|] == s.fired;
      assert forall i :: 0 <= i < |s.fired| ==> u.fired[i] == s.fired[i];
    }
  }

  lemma {:induction false} FireAllOther(s: Session, ids: seq<Txid>, confirmed: bool, c: nat)
    requires Tidy(s) && c < |s.registered| && s.registered[c].id !in ids
    ensures var u := FireAll(s, ids, confirmed);
            && u.registered == s.registered && u.tx == s.tx
            && (HasFired(u, c) <==> HasFired(s, c)) && (FiredAs(u, c, true) <==> FiredAs(s, c, true))
            && (Registered(u, c) <==> Registered(s, c))
            && (s.registered[c].id in u.completions <==> s.registered[c].id in s.completions)
  {
    if ids != [] {
      var n := |ids| - 1;
      FireAllOther(s, ids[..n], confirmed, c);
      FireAllTidy(s, ids[..n], confirmed);
      FireOther(FireAll(s, ids[..n], confirmed), ids[n], confirmed, c);
    }
  }

  lemma {:induction false} FireOwn(s: Session, c: nat)
    requires Tidy(s) && c < |s.registered| && Registered(s, c)
    ensures var u := Fire(s, s.registered[c].id, true); s.registered[c].id !in u.completions && FiredAs(u, c, true)
  {
    var u := Fire(s, s.registered[c].id, true);
    assert u.fired[|s.fired|] == Firing(c, true);
  }

  /** Once fired and taken out, it stays so. */
  lemma {:induction false} FireAgain(s: Session, id: Txid, confirmed: bool, c: nat)
    requires c < |s.registered| && s.registered[c].id !in s.completions && FiredAs(s, c, true)
    ensures var u := Fire(s, id, confirmed); s.registered[c].id !in u.completions && FiredAs(u, c, true)
  {
    var u := Fire(s, id, confirmed);
    assert forall i :: 0 <= i < |s.fired| ==> u.fired[i] == s.fired[i];
  }

  lemma {:induction false} FireAllOwn(s: Session, ids: seq<Txid>, c: nat)
    requires Tidy(s) && c < |s.registered| && Registered(s, c) && s.registered[c].id in ids
    ensures var u := FireAll(s, ids, true);
            u.registered == s.registered && u.tx == s.tx && s.registered[c].id !in u.completions && FiredAs(u, c, true)
  {
    var n := |ids| - 1;
    var v := FireAll(s, ids[..n], true);
    FireAllSameTx(s, ids[..n], true);
    if s.registered[c].id in ids[..n] {
      FireAllOwn(s, ids[..n], c);
      FireAgain(v, ids[n], true, c);
    } else {
      FireAllOther(s, ids[..n], true, c);
      FireAllTidy(s, ids[..n], true);
      FireOwn(v, c);
    }
  }

  // ---------------------------------------------------------------------------------------------
  // Verdicts

  /** A transaction leaves the table exactly when it is reported, and a fully sent one only as confirmed. */
  lemma {:induction false} VerdictLists(p: Pending, entries: seq<ResumeStatusEntry>, now: nat, id: Txid)
    requires SameShape(p)
    ensures var (q, v) := ApplyResumeVerdicts(p, entries, now);
            && (id !in p ==> id !in q)
            && (id in v.confirmed || id in v.failed <==> id in p && id !in q)
            && (id in p && IsFullySent(p[id]) ==> id !in v.failed && (id in q ==> IsFullySent(q[id])))
  {
    if entries != [] {
      var n := |entries| - 1;
      VerdictLists(p, entries[..n], now, id);
    }
  }

  lemma {:induction false} VerdictsMove(cfg: SenderConfig, s: Session, a: Action, c: nat)
    requires 0 < cfg.frameSize && Good(s.tx) && Tidy(s) && a.VerdictsArrive?
    requires c < |s.registered| && (Armed(s, c) || Fulfilled(s, c) || Stranded(s, c))
    ensures |s.registered| == |Next(cfg, s, a).registered| && Moves(s, Next(cfg, s, a), c, Strands(s, a))
  {
    var id := s.registered[c].id;
    var (q, v) := ApplyResumeVerdicts(s.tx.pending, a.entries, a.now);
    var u := s.(tx := Step(cfg, s.tx, Verdicts(a.entries, a.now)));
    VerdictLists(s.tx.pending, a.entries, a.now, id);
    assert u.tx.pending == q && Tidy(u);
    if !Strands(s, a) {
      var w := FireAll(u, v.confirmed, true);
      FireAllTidy(u, v.confirmed, true);
      FireAllSameTx(u, v.confirmed, true);
      FireAllSameTx(w, v.failed, false);
      if id in v.confirmed { FireAllOwn(u, v.confirmed, c); } else { FireAllOther(u, v.confirmed, true, c); }
      FireAllOther(w, v.failed, false, c);
    }
  }

  lemma {:induction false} AckSpares(p: Pending, e: AckEntry, now: nat, j: Txid)
    requires SameShape(p)
    ensures var (q, done) := HandleAck(p, e, now);
            if done && j == e.transactionId then j in p && j !in q else SparesTxn(p, q, j)
  {
  }

  /** The transaction leaves and its callback is fired. */
  lemma {:induction false} OwnFired(s: Session, u: Session, c: nat)
    requires Tidy(s) && u == s.(tx := u.tx) && c < |s.registered| && (Armed(s, c) || Fulfilled(s, c) || Stranded(s, c))
    requires IsPending(s, c) && !IsPending(u, c)
    ensures Moves(s, Fire(u, s.registered[c].id, true), c, false)
  {
    assert Tidy(u) && Registered(u, c);
    FireOwn(u, c);
  }

  /** Another transaction's callback is fired. */
  lemma {:induction false} OtherFired(s: Session, u: Session, c: nat, id: Txid, confirmed: bool)
    requires Tidy(s) && u == s.(tx := u.tx) && c < |s.registered| && id != s.registered[c].id
    requires SparesTxn(s.tx.pending, u.tx.pending, s.registered[c].id)
    ensures Moves(s, Fire(u, id, confirmed), c, false)
  {
    assert Tidy(u);
    FireOther(u, id, confirmed, c);
  }

  lemma {:induction false} AckMoves(cfg: SenderConfig, s: Session, e: AckEntry, now: nat, c: nat)
    requires 0 < cfg.frameSize && Good(s.tx) && Tidy(s)
    requires c < |s.registered| && (Armed(s, c) || Fulfilled(s, c) || Stranded(s, c))
    ensures Advances(s, Acknowledged(cfg, s, e, now), c, false)
  {
    var u := s.(tx := Step(cfg, s.tx, Acks(e, now)));
    AckSpares(s.tx.pending, e, now, s.registered[c].id);
    AckStep(cfg, s.tx, e, now);
    if !HandleAck(s.tx.pending, e, now).1 {
      Unmoved(s, u, c, false);
    } else if e.transactionId == s.registered[c].id {
      OwnFired(s, u, c);
    } else {
      OtherFired(s, u, c, e.transactionId, true);
    }
  }

  lemma {:induction false} AckStep(cfg: SenderConfig, tx: Tx, e: AckEntry, now: nat)
    requires 0 < cfg.frameSize && Good(tx)
    ensures Step(cfg, tx, Acks(e, now)).pending == HandleAck(tx.pending, e, now).0
  {
  }

  lemma {:induction false} AbortMoves(cfg: SenderConfig, s: Session, id: Txid, c: nat)
    requires 0 < cfg.frameSize && Good(s.tx) && Tidy(s) && c < |s.registered| && s.registered[c].id != id
    ensures Advances(s, Fire(s.(tx := Step(cfg, s.tx, Aborts(id))), id, false), c, false)
    ensures Advances(s, s.(completions := s.completions - {id}), c, false)
  {
    OtherFired(s, s.(tx := Step(cfg, s.tx, Aborts(id))), c, id, false);
    Unmoved(s, s.(completions := s.completions - {id}), c, false);
  }

  lemma {:induction false} SendMoves(cfg: SenderConfig, s: Session, a: Action, c: nat)
    requires 0 < cfg.frameSize && Good(s.tx) && a.SendBinary? && c < |s.registered| && s.registered[c].id in s.whole
    ensures Advances(s, Sent(cfg, s, a.id, a.payload, a.callback, a.now), c, false)
  {
    if a.id !in s.whole { SendsSpares(cfg, s.tx, a.id, a.payload, a.now, s.registered[c].id); }
    Unmoved(s, Sent(cfg, s, a.id, a.payload, a.callback, a.now), c, false);
  }

  lemma {:induction false} PlainMoves(cfg: SenderConfig, s: Session, e: Event, c: nat)
    requires 0 < cfg.frameSize && Good(s.tx) && IsPlain(s, e) && c < |s.registered| && s.registered[c].id in s.whole
    ensures Advances(s, s.(tx := Step(cfg, s.tx, e)), c, false)
  {
    PlainSpares(cfg, s.tx, e, s.registered[c].id);
    Unmoved(s, s.(tx := Step(cfg, s.tx, e)), c, false);
  }

  /** Every step moves every `send_binary` callback as described. */
  lemma {:induction false} NextMoves(cfg: SenderConfig, s: Session, a: Action, c: nat)
    requires 0 < cfg.frameSize && Good(s.tx) && WholeOk(s) && c < |s.registered| && s.registered[c].whole
    ensures Advances(s, Next(cfg, s, a), c, Strands(s, a))
  {
    Unmoved(s, s, c, false);
    match a
    case SendBinary(j, payload, callback, now) => SendMoves(cfg, s, a, c);
    case Plain(e) => if IsPlain(s, e) { PlainMoves(cfg, s, e, c); }
    case SinkAborts(j) => if j !in s.whole { AbortMoves(cfg, s, j, c); }
    case AckArrives(entry, now) => AckMoves(cfg, s, entry, now, c);
    case VerdictsArrive(entries, failAt, now) =>
      VerdictsMove(cfg, s, a, c);
      VerdictsRegister(cfg, s, a);
    case SinkRegisters(j) => if j !in s.whole { Unmoved(s, Register(s, j, false), c, false); }
    case SinkRechecks(j) => if j !in s.whole { Unmoved(s, s.(completions := s.completions - {j}), c, false); }
  }

  lemma {:induction false} VerdictsRegister(cfg: SenderConfig, s: Session, a: Action)
    requires 0 < cfg.frameSize && Good(s.tx) && a.VerdictsArrive?
    ensures Next(cfg, s, a).registered == s.registered && Next(cfg, s, a).whole == s.whole
  {
    var v := ApplyResumeVerdicts(s.tx.pending, a.entries, a.now).1;
    var u := s.(tx := Step(cfg, s.tx, Verdicts(a.entries, a.now)));
    FireAllSameTx(u, v.confirmed, true);
    FireAllSameTx(FireAll(u, v.confirmed, true), v.failed, false);
  }

  /** A callback is born with a `send_binary` that succeeds, and armed. */
  lemma {:induction false} NewlyArmed(cfg: SenderConfig, s: Session, a: Action, c: nat)
    requires 0 < cfg.frameSize && Good(s.tx) && Tidy(s)
    requires |s.registered| <= c < |Next(cfg, s, a).registered| && Next(cfg, s, a).registered[c].whole
    ensures a.SendBinary? && a.id !in s.tx.books && a.id !in s.whole
    ensures var u := Next(cfg, s, a); u.registered[c].id == a.id && a.id in u.whole && Armed(u, c)
  {
    if a.VerdictsArrive? {
      VerdictsRegister(cfg, s, a);
    } else if a.SendBinary? {
      SendsWhole(cfg, s.tx, a.id, a.payload, a.now);
    }
  }

  lemma {:induction false} RunWhole(cfg: SenderConfig, actions: seq<Action>)
    requires 0 < cfg.frameSize
    ensures WholeOk(Run(cfg, actions))
  {
    RunTidy(cfg, actions);
    if actions != [] {
      var n := |actions| - 1;
      RunWhole(cfg, actions[..n]);
      var s, a, u := Run(cfg, actions[..n]), actions[n], Run(cfg, actions);
      forall c | 0 <= c < |u.registered| && u.registered[c].whole
        ensures u.registered[c].id in u.whole && (Armed(u, c) || Fulfilled(u, c) || Stranded(u, c))
      {
        if c < |s.registered| {
          RegisteredGrows(cfg, s, a);
          NextMoves(cfg, s, a, c);
        } else {
          NewlyArmed(cfg, s, a, c);
        }
      }
    }
  }

  lemma {:induction false} RegisteredGrows(cfg: SenderConfig, s: Session, a: Action)
    requires 0 < cfg.frameSize && Good(s.tx)
    ensures s.registered <= Next(cfg, s, a).registered
  {
    if a.VerdictsArrive? { VerdictsRegister(cfg, s, a); }
  }

  // ---------------------------------------------------------------------------------------------
  // The main results

  /**
   Registered exactly while pending: after any run, a `send_binary` callback is registered while its transaction
   is pending; once that is gone the callback has fired, as confirmed, or it was stranded. It never reports failure.
   */
  lemma {:induction false} RegisteredWhilePending(cfg: SenderConfig, actions: seq<Action>, c: nat)
    requires 0 < cfg.frameSize && c < |Run(cfg, actions).registered| && Run(cfg, actions).registered[c].whole
    ensures var s := Run(cfg, actions);
            && (if IsPending(s, c) then Registered(s, c) else FiredAs(s, c, true) || Registered(s, c))
            && !FiredAs(s, c, false)
  {
    var s := Run(cfg, actions);
    RunWhole(cfg, actions);
    RunTidy(cfg, actions);
  }

  /** The last step of the run removed transaction `id` while a retransmission write failed. */
  ghost predicate StrandedLast(cfg: SenderConfig, actions: seq<Action>, id: Txid)
    requires 0 < cfg.frameSize && actions != []
  {
    var n := |actions| - 1;
    var s := Run(cfg, actions[..n]);
    Strands(s, actions[n]) && id in s.tx.pending && id !in Next(cfg, s, actions[n]).tx.pending
  }

  ghost predicate Knows(cfg: SenderConfig, actions: seq<Action>, id: Txid)
    requires 0 < cfg.frameSize
  {
    id in Run(cfg, actions).tx.books
  }

  lemma {:induction false} KnowsNext(cfg: SenderConfig, actions: seq<Action>, id: Txid)
    requires 0 < cfg.frameSize && actions != [] && Knows(cfg, actions[..|actions| - 1], id)
    ensures Knows(cfg, actions, id)
  {
    NextBooks(cfg, Run(cfg, actions[..|actions| - 1]), actions[|actions| - 1]);
  }

  lemma {:induction false} NextBooks(cfg: SenderConfig, s: Session, a: Action)
    requires 0 < cfg.frameSize && Good(s.tx)
    ensures s.tx.books.Keys <= Next(cfg, s, a).tx.books.Keys
  {
    match a
    case VerdictsArrive(entries, failAt, now) =>
      var v := ApplyResumeVerdicts(s.tx.pending, entries, now).1;
      var u := s.(tx := Step(cfg, s.tx, Verdicts(entries, now)));
      FireAllSameTx(u, v.confirmed, true);
      FireAllSameTx(FireAll(u, v.confirmed, true), v.failed, false);
    case SendBinary(id, payload, callback, now) => SendsGood(cfg, s.tx, id, payload, now);
    case Plain(e) => StepGood(cfg, s.tx, e);
    case _ =>
  }

  lemma {:induction false} StrandedNext(cfg: SenderConfig, s: Session, a: Action, c: nat)
    requires 0 < cfg.frameSize && Good(s.tx) && WholeOk(s) && c < |s.registered| && s.registered[c].whole
    ensures |s.registered| <= |Next(cfg, s, a).registered|
    ensures Stranded(Next(cfg, s, a), c)
            <==> Stranded(s, c) || (Strands(s, a) && IsPending(s, c) && !IsPending(Next(cfg, s, a), c))
  {
    NextMoves(cfg, s, a, c);
  }

  lemma {:induction false} LastKnows(cfg: SenderConfig, actions: seq<Action>, id: Txid)
    requires 0 < cfg.frameSize && actions != [] && StrandedLast(cfg, actions, id)
    ensures Knows(cfg, actions[..|actions| - 1], id)
  {
  }

  lemma {:induction false} NeverStranded(cfg: SenderConfig, actions: seq<Action>, id: Txid)
    requires 0 < cfg.frameSize && !Knows(cfg, actions, id)
    ensures !EverStranded(cfg, actions, id)
  {
    if actions != [] {
      var before := actions[..|actions| - 1];
      if Knows(cfg, before, id) {
        KnowsNext(cfg, actions, id);
      } else {
        NeverStranded(cfg, before, id);
        if StrandedLast(cfg, actions, id) { LastKnows(cfg, actions, id); }
      }
    }
  }

  /** Some step of the run did that. */
  ghost predicate EverStranded(cfg: SenderConfig, actions: seq<Action>, id: Txid)
    requires 0 < cfg.frameSize
  {
    actions != [] && (EverStranded(cfg, actions[..|actions| - 1], id) || StrandedLast(cfg, actions, id))
  }

  /** The id of a `send_binary` callback, in a run that has registered it. */
  ghost predicate Names(cfg: SenderConfig, actions: seq<Action>, c: nat, id: Txid)
    requires 0 < cfg.frameSize
  {
    var s := Run(cfg, actions);
    c < |s.registered| && s.registered[c] == Registration(id, true)
  }

  ghost predicate StrandedIn(cfg: SenderConfig, actions: seq<Action>, c: nat)
    requires 0 < cfg.frameSize
  {
    c < |Run(cfg, actions).registered| && Stranded(Run(cfg, actions), c)
  }

  lemma {:induction false} OldCallback(cfg: SenderConfig, actions: seq<Action>, c: nat, id: Txid)
    requires 0 < cfg.frameSize && actions != [] && Names(cfg, actions[..|actions| - 1], c, id)
    ensures var n := |actions| - 1;
            StrandedIn(cfg, actions, c) <==> StrandedIn(cfg, actions[..n], c) || StrandedLast(cfg, actions, id)
  {
    var n := |actions| - 1;
    RunWhole(cfg, actions[..n]);
    StrandedNext(cfg, Run(cfg, actions[..n]), actions[n], c);
    NextMoves(cfg, Run(cfg, actions[..n]), actions[n], c);
  }

  lemma {:induction false} NewCallback(cfg: SenderConfig, actions: seq<Action>, c: nat, id: Txid)
    requires 0 < cfg.frameSize && actions != [] && Names(cfg, actions, c, id)
    requires !Names(cfg, actions[..|actions| - 1], c, id)
    ensures !StrandedIn(cfg, actions, c) && !Knows(cfg, actions[..|actions| - 1], id)
    ensures !StrandedLast(cfg, actions, id)
  {
    var n := |actions| - 1;
    RunWhole(cfg, actions[..n]);
    RegisteredGrows(cfg, Run(cfg, actions[..n]), actions[n]);
    NewlyArmed(cfg, Run(cfg, actions[..n]), actions[n], c);
  }

  /**
   Exactly once, exactly when: the callback of a `send_binary` is stranded, that is, stays registered and never
   fires although its transaction is gone, if and only if the step that removed the transaction was a
   RESUME_RESPONSE during which a retransmission write failed.
   */
  lemma {:induction false} StrandedExactly(cfg: SenderConfig, actions: seq<Action>, c: nat, id: Txid)
    requires 0 < cfg.frameSize && Names(cfg, actions, c, id)
    ensures StrandedIn(cfg, actions, c) <==> EverStranded(cfg, actions, id)
  {
    assert actions != [];
    var n := |actions| - 1;
    if Names(cfg, actions[..n], c, id) {
      OldCallback(cfg, actions, c, id);
      StrandedExactly(cfg, actions[..n], c, id);
    } else {
      NewCallback(cfg, actions, c, id);
      NeverStranded(cfg, actions[..n], id);
    }
  }

  // ---------------------------------------------------------------------------------------------
  // When `send_binary` succeeds, and what a failed one leaves behind

  lemma {:induction false} CutWritten(t: PendingTxn, id: Txid, frameSize: nat, now: nat)
    requires 0 < frameSize
    ensures var u := Cut(t, id, frameSize, now); u.written == t.written && u.totalLen == t.totalLen
    decreases |t.partial|
  {
    if |t.partial| >= frameSize { CutWritten(Push(t, id, frameSize, now), id, frameSize, now); }
  }

  lemma {:induction false} AppendExactly(cfg: SenderConfig, p: Pending, id: Txid, payload: Bytes, now: nat)
    requires 0 < cfg.frameSize && id in p && p[id].written == 0
    ensures var (q, r) := Append(cfg, p, id, payload, now);
            && (r.Ok? <==> Total(p) + |payload| <= cfg.capBytes && |payload| <= p[id].totalLen)
            && (r.Ok? ==> id in q && q[id].written == |payload| && q[id].totalLen == p[id].totalLen)
  {
    CutWritten(Buffered(p[id], payload), id, cfg.frameSize, now);
  }

  lemma {:induction false} FillsExactly(cfg: SenderConfig, tx: Tx, id: Txid, payload: Bytes, now: nat)
    requires 0 < cfg.frameSize && Good(tx) && id in tx.pending && tx.pending[id].written == 0
    ensures Fills(cfg, tx, id, payload, now).1
            <==> Total(tx.pending) + |payload| <= cfg.capBytes && |payload| == tx.pending[id].totalLen
    ensures Append(cfg, tx.pending, id, payload, now).1.Err? ==> Fills(cfg, tx, id, payload, now).0 == tx
  {
    StepGood(cfg, tx, Appends(id, payload, now));
    AppendExactly(cfg, tx.pending, id, payload, now);
  }

  lemma {:induction false} OpensEmpty(cfg: SenderConfig, tx: Tx, id: Txid, total: nat, now: nat)
    requires 0 < cfg.frameSize && Good(tx) && id !in tx.books && total != 0
    ensures var begun := Step(cfg, tx, Opens(id, total, now));
            && Good(begun) && begun.pending == tx.pending[id := Opened(total, now)]
            && Total(begun.pending) == Total(tx.pending)
  {
    StepGood(cfg, tx, Opens(id, total, now));
    TotalPut(tx.pending, id, Opened(total, now));
    assert tx.pending - {id} == tx.pending;
  }

  /** Filling an empty slot succeeds exactly when the payload fits, and otherwise leaves it as it was. */
  lemma {:induction false} FillsEmpty(cfg: SenderConfig, tx: Tx, id: Txid, payload: Bytes, now: nat)
    requires 0 < cfg.frameSize && Good(tx) && id in tx.pending && tx.pending[id] == Opened(|payload| % U32_LIMIT, now)
    ensures var (u, ok) := Fills(cfg, tx, id, payload, now);
            && (ok <==> |payload| < U32_LIMIT && Total(tx.pending) + |payload| <= cfg.capBytes)
            && (!ok ==> u == tx)
  {
    FillsExactly(cfg, tx, id, payload, now);
  }

  /**
   `send_binary` with a fresh id succeeds exactly for a payload of 1 to 2^32 - 1 bytes that fits under the cap.
   Otherwise its transaction stays in the pending table, empty, unless the length is a multiple of 2^32: the
   backpressure and overflow errors are raised after the slot was opened, and do not close it again.
   */
  lemma {:induction false} FailedSendResidue(cfg: SenderConfig, tx: Tx, id: Txid, payload: Bytes, now: nat)
    requires 0 < cfg.frameSize && Good(tx) && id !in tx.books
    ensures var (u, ok) := Sends(cfg, tx, id, payload, now);
            && (ok <==> 0 < |payload| < U32_LIMIT && Total(tx.pending) + |payload| <= cfg.capBytes)
            && (!ok ==> u.pending == if |payload| % U32_LIMIT == 0 then tx.pending
                                     else tx.pending[id := Opened(|payload| % U32_LIMIT, now)])
  {
    var total := |payload| % U32_LIMIT;
    if total != 0 {
      OpensEmpty(cfg, tx, id, total, now);
      FillsEmpty(cfg, Step(cfg, tx, Opens(id, total, now)), id, payload, now);
    }
  }
}
