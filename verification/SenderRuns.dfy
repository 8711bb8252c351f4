/** Whole runs of the copy holder: copy retention, backpressure, conservation, genuine emission. */
module SenderRuns {
  import opened Prelude
  import opened Frames
  import opened Sender
  import opened Retention

  ghost predicate Good(tx: Tx) { Sound(tx) && SameShape(tx.pending) }

  /** The state after a run of events from an empty sender. */
  ghost function SenderRun(cfg: SenderConfig, events: seq<Event>): (tx: Tx)
    requires 0 < cfg.frameSize
    ensures Good(tx)
  {
    if events == [] then
      Tx(map[], map[])
    else
      var tx := SenderRun(cfg, events[..|events| - 1]);
      StepGood(cfg, tx, events[|events| - 1]);
      Step(cfg, tx, events[|events| - 1])
  }

  lemma {:induction false} SumEmpty()
    ensures Total(map[]) == 0
  {
    assert BytesOf(map[]) == map[];
  }

  lemma {:induction false} AppendBounded(cfg: SenderConfig, p: Pending, id: Txid, chunk: Bytes, now: nat)
    requires 0 < cfg.frameSize && Total(p) <= cfg.capBytes
    ensures Total(Append(cfg, p, id, chunk, now).0) <= cfg.capBytes
  {
    if id in p {
      var t := Buffered(p[id], chunk);
      CutKeeps(t, id, cfg.frameSize, now);
      TotalPut(p, id, Cut(t, id, cfg.frameSize, now));
    }
  }

  lemma {:induction false} FramingBounded(cfg: SenderConfig, tx: Tx, e: Event)
    requires 0 < cfg.frameSize && Good(tx) && Total(tx.pending) <= cfg.capBytes
             && (e.Opens? || e.Appends? || e.Finishes?)
    ensures Total(Step(cfg, tx, e).pending) <= cfg.capBytes
  {
    var p := tx.pending;
    match e
    case Opens(id, totalLen, now) => TotalPut(p, id, Opened(totalLen, now));
    case Appends(id, chunk, now) => AppendBounded(cfg, p, id, chunk, now);
    case Finishes(id, now) => if id in p { TotalPut(p, id, Flushed(p[id], id, now)); }
  }

  /** No event lets the unacknowledged bytes of all transactions together pass the cap. */
  lemma {:induction false} StepBounded(cfg: SenderConfig, tx: Tx, e: Event)
    requires 0 < cfg.frameSize && Good(tx) && Total(tx.pending) <= cfg.capBytes
    ensures Total(Step(cfg, tx, e).pending) <= cfg.capBytes
  {
    if e.Opens? || e.Appends? || e.Finishes? {
      FramingBounded(cfg, tx, e);
    } else if e.Acks? {
      AckShrinks(cfg, tx, e);
    } else if e.Aborts? {
      TotalPut(tx.pending, e.id, Opened(0, 0));
    } else if e.Verdicts? {
      VerdictsKeep(tx, e.entries, e.now);
    } else {
      TimersSound(cfg, tx, e);
    }
  }

  lemma {:induction false} AckShrinks(cfg: SenderConfig, tx: Tx, e: Event)
    requires 0 < cfg.frameSize && Good(tx) && e.Acks?
    ensures Total(After(cfg, tx.pending, e)) <= Total(tx.pending)
  {
    var p, id := tx.pending, e.entry.transactionId;
    if id in p {
      var t := Acked(p[id], e.entry, e.now);
      assert t.bytes <= p[id].bytes;
      TotalPut(p, id, t);
    }
  }

  lemma {:induction false} CutKeeps(t: PendingTxn, id: Txid, frameSize: nat, now: nat)
    requires 0 < frameSize
    ensures Cut(t, id, frameSize, now).bytes == t.bytes
    decreases |t.partial|
  {
    if |t.partial| >= frameSize { CutKeeps(Push(t, id, frameSize, now), id, frameSize, now); }
  }

  lemma {:induction false} StepGood(cfg: SenderConfig, tx: Tx, e: Event)
    requires 0 < cfg.frameSize && Good(tx)
    ensures Good(Step(cfg, tx, e))
    ensures Grows(tx.books, Step(cfg, tx, e).books)
  {
    StepSound(cfg, tx, e);
    SoundShape(Step(cfg, tx, e));
  }

  /** The first `n` frames are confirmed and released; every later one is held, as recorded. */
  ghost predicate HoldsFrom(id: Txid, t: PendingTxn, b: Book, n: nat)
  {
    && n <= |t.states| == |t.frames| == |b.pieces|
    && (forall i :: 0 <= i < n ==> t.states[i].confirmed && t.frames[i].None?)
    && (forall i :: n <= i < |t.states| ==> !t.states[i].confirmed && t.frames[i] == Some(FrameOf(id, b, i)))
  }

  /** The confirmed frames are a prefix, copies are exactly as recorded, `bytes` and `written` are exact. */
  ghost predicate RetainsCopies(tx: Tx, id: Txid)
    requires id in tx.pending
  {
    && id in tx.books
    && var (t, b) := (tx.pending[id], tx.books[id]);
       && (exists n :: HoldsFrom(id, t, b, n))
       && t.bytes == Held(t.frames) + |t.partial|
       && t.written == |Flatten(b.pieces)| + |t.partial|
       && Flatten(b.pieces) + t.partial == b.data
  }

  lemma {:induction false} SoundRetains(tx: Tx, id: Txid)
    requires Sound(tx) && id in tx.pending
    ensures RetainsCopies(tx, id)
  {
    var (t, b) := (tx.pending[id], tx.books[id]);
    assert Tracks(id, t, b);
    var n := ConfirmedPrefix(t);
    assert HoldsFrom(id, t, b, n);
  }

  /** Copy retention, in every reachable state, for every transaction, whatever the peer reports. */
  lemma {:induction false} CopyRetention(cfg: SenderConfig, events: seq<Event>)
    requires 0 < cfg.frameSize
    ensures forall id :: id in SenderRun(cfg, events).pending ==> RetainsCopies(SenderRun(cfg, events), id)
  {
    var tx := SenderRun(cfg, events);
    forall id | id in tx.pending ensures RetainsCopies(tx, id) { SoundRetains(tx, id); }
  }

  /** Backpressure: over any run the unacknowledged bytes of all transactions together stay under the cap. */
  lemma {:induction false} BackpressureBound(cfg: SenderConfig, events: seq<Event>)
    requires 0 < cfg.frameSize
    ensures Total(SenderRun(cfg, events).pending) <= cfg.capBytes
  {
    if events == [] {
      SumEmpty();
    } else {
      BackpressureBound(cfg, events[..|events| - 1]);
      StepBounded(cfg, SenderRun(cfg, events[..|events| - 1]), events[|events| - 1]);
    }
  }

  lemma {:induction false} ConfirmedPrefix(t: PendingTxn) returns (n: nat)
    requires Shape(t)
    ensures n <= |t.states| && forall i :: 0 <= i < |t.states| ==> t.states[i].confirmed == (i < n)
  {
    n := 0;
    while n < |t.states| && t.states[n].confirmed
      invariant n <= |t.states| && forall i :: 0 <= i < n ==> t.states[i].confirmed
    {
      n := n + 1;
    }
  }

  // ---------------------------------------------------------------------------------------------
  // Conservation

  /** Bytes of a transaction no longer held: its confirmed frames, or everything once it is closed. */
  ghost function Freed(tx: Tx, id: Txid): nat
    requires id in tx.books
  {
    if id in tx.pending then FreedFrames(tx.pending[id].states, tx.books[id].pieces, |tx.books[id].pieces|)
    else |tx.books[id].data|
  }

  ghost function FreedFrames(states: seq<FrameState>, pieces: seq<Bytes>, n: nat): nat
  {
    if n == 0 || n > |states| || n > |pieces| then 0
    else FreedFrames(states, pieces, n - 1) + (if states[n - 1].confirmed then |pieces[n - 1]| else 0)
  }

  lemma {:induction false} HeldOrFreed(id: Txid, t: PendingTxn, b: Book, n: nat)
    requires Tracks(id, t, b) && n <= |b.pieces|
    ensures Held(t.frames[..n]) + FreedFrames(t.states, b.pieces, n) == |Flatten(b.pieces[..n])|
  {
    if n > 0 {
      HeldOrFreed(id, t, b, n - 1);
      assert t.frames[..n][..n - 1] == t.frames[..n - 1];
      assert b.pieces[..n][..n - 1] == b.pieces[..n - 1];
    }
  }

  /** Over any run: bytes accepted == bytes held + bytes released, per transaction and in total. */
  lemma {:induction false} Conservation(cfg: SenderConfig, events: seq<Event>)
    requires 0 < cfg.frameSize
    ensures var tx := SenderRun(cfg, events);
            forall id :: id in tx.books ==>
              |tx.books[id].data| == Freed(tx, id) + (if id in tx.pending then tx.pending[id].bytes else 0)
    ensures var tx := SenderRun(cfg, events);
            Sum(map id | id in tx.books :: |tx.books[id].data|)
            == Total(tx.pending) + Sum(map id | id in tx.books :: Freed(tx, id))
  {
    var tx := SenderRun(cfg, events);
    forall id | id in tx.books
      ensures |tx.books[id].data| == Freed(tx, id) + (if id in tx.pending then tx.pending[id].bytes else 0)
    {
      if id in tx.pending {
        var t, b := tx.pending[id], tx.books[id];
        HeldOrFreed(id, t, b, |b.pieces|);
        assert t.frames[..|b.pieces|] == t.frames && b.pieces[..|b.pieces|] == b.pieces;
      }
    }
    var held := map id | id in tx.books :: if id in tx.pending then tx.pending[id].bytes else 0;
    var freed := map id | id in tx.books :: Freed(tx, id);
    SumAdds(held, freed, map id | id in tx.books :: |tx.books[id].data|);
    ZerosDropOut(held, BytesOf(tx.pending));
  }

  lemma {:induction false} ZerosDropOut(m: map<Txid, nat>, n: map<Txid, nat>)
    requires n.Keys <= m.Keys
    requires forall k :: k in m ==> m[k] == if k in n then n[k] else 0
    ensures Sum(m) == Sum(n)
    decreases |m|
  {
    if m == map[] {
      assert n == map[];
    } else {
      var k :| k in m;
      SumPut(m, k, 0);
      SumPut(n, k, 0);
      ZerosDropOut(m - {k}, n - {k});
    }
  }

  // ---------------------------------------------------------------------------------------------
  // What goes on the wire

  /** `f` is a frame of the recorded history. */
  ghost predicate Genuine(books: map<Txid, Book>, f: Frame)
  {
    && f.transactionId in books
    && f.seqNo < |books[f.transactionId].pieces|
    && f == FrameOf(f.transactionId, books[f.transactionId], f.seqNo)
  }

  lemma {:induction false} CopiesFromMember(frames: seq<Option<Frame>>, from: nat, f: Frame) returns (i: nat)
    requires f in CopiesFrom(frames, from)
    ensures from <= i < |frames| && frames[i] == Some(f)
    decreases |frames| - from
  {
    if frames[from] == Some(f) { i := from; } else { i := CopiesFromMember(frames, from + 1, f); }
  }

  lemma {:induction false} NackedMember(t: PendingTxn, missing: seq<nat>, f: Frame) returns (i: nat)
    requires |t.frames| == |t.states| && f in NackedFrames(t, missing)
    ensures i in missing && Answers(t, i) && t.frames[i] == Some(f)
  {
    var k := missing[|missing| - 1];
    if Answers(t, k) && t.frames[k] == Some(f) { i := k; } else { i := NackedMember(t, missing[..|missing| - 1], f); }
  }

  lemma {:induction false} ResentMember(rule: Rule, t: PendingTxn, n: nat, f: Frame) returns (i: nat)
    requires n <= |t.frames| == |t.states| && f in ResentFrames(rule, t, n)
    ensures i < n && Picks(rule, t.states[i]) && t.frames[i] == Some(f)
  {
    if Picks(rule, t.states[n - 1]) && t.frames[n - 1] == Some(f) {
      i := n - 1;
    } else {
      i := ResentMember(rule, t, n - 1, f);
    }
  }

  /** `f` is the copy of an unconfirmed frame of an unpaused pending transaction. */
  ghost predicate LiveCopy(p: Pending, f: Frame)
    requires SameShape(p)
  {
    && f.transactionId in p
    && var t := p[f.transactionId];
       !t.paused && f.seqNo < |t.states| && !t.states[f.seqNo].confirmed && t.frames[f.seqNo] == Some(f)
  }

  /** What one verdict resends are live copies of a table that differs in stamps only. */
  lemma {:induction false} ResentIsLive(p: Pending, id: Txid, u: PendingTxn, b: Book, f: Frame)
    requires SameShape(p) && id in p && Restamped(p[id], u) && u.paused == p[id].paused == false && Tracks(id, u, b)
    requires f in ResentFrames(Unconfirmed, u, |u.frames|)
    ensures LiveCopy(p, f)
  {
    var i := ResentMember(Unconfirmed, u, |u.frames|, f);
  }

  lemma {:induction false} VerdictEmits(tx: Tx, entries: seq<ResumeStatusEntry>, now: nat, f: Frame)
    requires Sound(tx) && SameShape(tx.pending)
    requires f in ApplyResumeVerdicts(tx.pending, entries, now).1.retransmit
    ensures LiveCopy(tx.pending, f)
  {
    var n := |entries| - 1;
    var (q, v) := ApplyResumeVerdicts(tx.pending, entries[..n], now);
    var id := entries[n].transactionId;
    if f in v.retransmit {
      VerdictEmits(tx, entries[..n], now, f);
    } else {
      VerdictsOnlyStamp(tx.pending, entries[..n], now, id);
      assert Tracks(id, q[id], tx.books[id]) by { VerdictsKeep(tx, entries[..n], now); }
      ResentIsLive(tx.pending, id, q[id], tx.books[id], f);
    }
  }

  lemma {:induction false} VerdictsOnlyStamp(p: Pending, entries: seq<ResumeStatusEntry>, now: nat, id: Txid)
    requires SameShape(p) && id in ApplyResumeVerdicts(p, entries, now).0
    ensures id in p
    ensures var q := ApplyResumeVerdicts(p, entries, now).0;
            q[id].paused == p[id].paused && Restamped(p[id], q[id])
  {
    if entries != [] { VerdictsOnlyStamp(p, entries[..|entries| - 1], now, id); }
  }

  /**
   Retransmission discipline: every retransmission path (clock, NACK, verdict) emits only the retained
   copy of an unconfirmed frame of an unpaused transaction; the clock, moreover, only an ungated one.
   */
  lemma {:induction false} ResendsOnlyLiveCopies(cfg: SenderConfig, tx: Tx, e: Event, f: Frame)
    requires 0 < cfg.frameSize && Good(tx)
    requires Emits(cfg, tx.pending, e, f) && (e.Nacks? || e.Ticks? || e.Verdicts?)
    ensures LiveCopy(tx.pending, f)
    ensures e.Ticks? ==> !tx.pending[f.transactionId].awaitingResume
  {
    var p := tx.pending;
    if e.Nacks? {
      var i := NackedMember(p[e.id], e.missing, f);
      assert Tracks(e.id, p[e.id], tx.books[e.id]);
    } else if e.Ticks? {
      var id :| id in p && f in TickFrames(cfg, p[id], e.now);
      var i := ResentMember(Due(cfg, e.now), p[id], |p[id].frames|, f);
      assert Tracks(id, p[id], tx.books[id]);
    } else {
      VerdictEmits(tx, e.entries, e.now, f);
    }
  }

  /** A copy in the table of a transaction that agrees with its history is genuine. */
  lemma {:induction false} CopyGenuine(tx: Tx, id: Txid, from: nat, f: Frame)
    requires Sound(tx) && id in tx.pending && f in CopiesFrom(tx.pending[id].frames, from)
    ensures Genuine(tx.books, f)
  {
    assert Tracks(id, tx.pending[id], tx.books[id]);
    var i := CopiesFromMember(tx.pending[id].frames, from, f);
  }

  lemma {:induction false} FramingGenuine(cfg: SenderConfig, tx: Tx, e: Event, f: Frame)
    requires 0 < cfg.frameSize && Good(tx) && (e.Appends? || e.Finishes?) && Emits(cfg, tx.pending, e, f)
    ensures Genuine(Step(cfg, tx, e).books, f)
  {
    StepGood(cfg, tx, e);
    CopyGenuine(Step(cfg, tx, e), e.id, |tx.pending[e.id].frames|, f);
  }

  /** Everything ever put on the wire is a frame of the recorded history. */
  lemma {:induction false} EmitsGenuine(cfg: SenderConfig, tx: Tx, e: Event, f: Frame)
    requires 0 < cfg.frameSize && Good(tx)
    requires Enabled(tx, e) && Emits(cfg, tx.pending, e, f)
    ensures Genuine(Step(cfg, tx, e).books, f)
  {
    if e.Appends? || e.Finishes? {
      FramingGenuine(cfg, tx, e, f);
    } else {
      StepGood(cfg, tx, e);
      ResendsOnlyLiveCopies(cfg, tx, e, f);
      assert Tracks(f.transactionId, tx.pending[f.transactionId], tx.books[f.transactionId]);
    }
  }
}
