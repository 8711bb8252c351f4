/**
 Framing over whole runs of the copy holder (src/reliability/transaction.rs:334-436): however a payload is written in
 chunks, and whatever happens to it and to other transactions in between, its frames are the one-shot split, unless
 it was finished too early.
 */
module FramingRuns {
  import opened Prelude
  import opened Sender
  import opened Retention
  import opened SenderRuns
  import opened Framing

  /** The event does not flush a partial tail of `id` before all its bytes are written. */
  ghost predicate NotEarly(p: Pending, e: Event, id: Txid)
  {
    e.Finishes? && e.id == id && id in p ==> p[id].written == p[id].totalLen || p[id].partial == []
  }

  /** No finish of `id` in the run was early. */
  ghost predicate NeverEarly(cfg: SenderConfig, events: seq<Event>, id: Txid)
    requires 0 < cfg.frameSize
  {
    if events == [] then true
    else
      var before := events[..|events| - 1];
      NeverEarly(cfg, before, id) && NotEarly(SenderRun(cfg, before).pending, events[|events| - 1], id)
  }

  /** Still cutting: full pieces so far and the rest in the buffer. Or finished: the whole split. */
  ghost predicate Cutting(frameSize: nat, tx: Tx, id: Txid)
    requires 0 < frameSize && id in tx.books
  {
    var b := tx.books[id];
    || (b.pieces == Pieces(frameSize, b.data)
        && (id in tx.pending ==> tx.pending[id].partial == Rest(frameSize, b.data)))
    || (|b.data| == b.totalLen && b.pieces == Split(frameSize, b.data)
        && (id in tx.pending ==> tx.pending[id].partial == []))
  }

  lemma {:induction false} CutPartial(t: PendingTxn, id: Txid, frameSize: nat, now: nat)
    requires 0 < frameSize
    ensures Cut(t, id, frameSize, now).partial == Rest(frameSize, t.partial)
    decreases |t.partial|
  {
    if |t.partial| >= frameSize { CutPartial(Push(t, id, frameSize, now), id, frameSize, now); }
  }

  lemma {:induction false} AppendCuts(cfg: SenderConfig, tx: Tx, e: Event)
    requires 0 < cfg.frameSize && Good(tx) && e.Appends? && e.id in tx.books && Cutting(cfg.frameSize, tx, e.id)
    ensures e.id in Step(cfg, tx, e).books && Cutting(cfg.frameSize, Step(cfg, tx, e), e.id)
  {
    if Append(cfg, tx.pending, e.id, e.chunk, e.now).1.Ok? {
      var t, b := tx.pending[e.id], tx.books[e.id];
      assert Tracks(e.id, t, b);
      CutPartial(Buffered(t, e.chunk), e.id, cfg.frameSize, e.now);
      if b.pieces == Pieces(cfg.frameSize, b.data) && t.partial == Rest(cfg.frameSize, b.data) {
        PiecesAppend(cfg.frameSize, b.data, e.chunk);
      } else {
        assert e.chunk == [];
        assert b.data + [] == b.data && t.partial + [] == [] && b.pieces + [] == b.pieces;
      }
    }
  }

  lemma {:induction false} FinishCuts(cfg: SenderConfig, tx: Tx, e: Event)
    requires 0 < cfg.frameSize && Good(tx) && e.Finishes? && e.id in tx.books && Cutting(cfg.frameSize, tx, e.id)
    requires NotEarly(tx.pending, e, e.id)
    ensures e.id in Step(cfg, tx, e).books && Cutting(cfg.frameSize, Step(cfg, tx, e), e.id)
  {
    if e.id in tx.pending { assert Tracks(e.id, tx.pending[e.id], tx.books[e.id]); }
  }

  /** `id` is not written to: its history and its buffer stay. */
  ghost predicate Idle(tx: Tx, u: Tx, id: Txid)
  {
    && id in tx.books && id in u.books && u.books[id] == tx.books[id]
    && (id in u.pending ==> id in tx.pending && u.pending[id].partial == tx.pending[id].partial)
  }

  lemma {:induction false} TimersIdle(cfg: SenderConfig, tx: Tx, e: Event, id: Txid)
    requires 0 < cfg.frameSize && Good(tx) && id in tx.books && IsTimer(e)
    ensures Idle(tx, Step(cfg, tx, e), id)
  {
    if id in tx.pending {
      TimersRestamp(cfg, tx.pending, e, id);
    } else if id in After(cfg, tx.pending, e) {
      TimerKeys(cfg, tx.pending, e, id);
    }
  }

  lemma {:induction false} OthersFraming(cfg: SenderConfig, tx: Tx, e: Event, id: Txid)
    requires 0 < cfg.frameSize && Good(tx) && id in tx.books && (e.Opens? || e.Appends? || e.Finishes?)
    requires e.Opens? || e.id != id
    ensures Idle(tx, Step(cfg, tx, e), id)
  {
  }

  lemma {:induction false} OthersIdle(cfg: SenderConfig, tx: Tx, e: Event, id: Txid)
    requires 0 < cfg.frameSize && Good(tx) && id in tx.books && !((e.Appends? || e.Finishes?) && e.id == id)
    ensures Idle(tx, Step(cfg, tx, e), id)
  {
    if e.Opens? || e.Appends? || e.Finishes? {
      OthersFraming(cfg, tx, e, id);
    } else if e.Verdicts? {
      if id in Step(cfg, tx, e).pending { VerdictsOnlyStamp(tx.pending, e.entries, e.now, id); }
    } else if IsTimer(e) {
      TimersIdle(cfg, tx, e, id);
    }
  }

  lemma {:induction false} StepCuts(cfg: SenderConfig, tx: Tx, e: Event, id: Txid)
    requires 0 < cfg.frameSize && Good(tx) && id in Step(cfg, tx, e).books && NotEarly(tx.pending, e, id)
    requires id in tx.books ==> Cutting(cfg.frameSize, tx, id)
    ensures Cutting(cfg.frameSize, Step(cfg, tx, e), id)
  {
    if id !in tx.books {
      assert e.Opens? && e.id == id;
    } else if e.Appends? && e.id == id {
      AppendCuts(cfg, tx, e);
    } else if e.Finishes? && e.id == id {
      FinishCuts(cfg, tx, e);
    } else {
      OthersIdle(cfg, tx, e, id);
    }
  }

  lemma {:induction false} RunCuts(cfg: SenderConfig, events: seq<Event>, id: Txid)
    requires 0 < cfg.frameSize && NeverEarly(cfg, events, id) && id in SenderRun(cfg, events).books
    ensures Cutting(cfg.frameSize, SenderRun(cfg, events), id)
  {
    assert events != [];
    var before := events[..|events| - 1];
    if id in SenderRun(cfg, before).books { RunCuts(cfg, before, id); }
    StepCuts(cfg, SenderRun(cfg, before), events[|events| - 1], id);
  }

  // ---------------------------------------------------------------------------------------------
  // An early finish leaves a short piece in the middle, for good

  /** A piece shorter than a frame that does not reach the end of the payload. */
  ghost predicate Broken(frameSize: nat, b: Book)
  {
    exists k :: 0 <= k < |b.pieces| && |b.pieces[k]| < frameSize && |Flatten(b.pieces[..k + 1])| < b.totalLen
  }

  lemma {:induction false} BrokenStays(frameSize: nat, b: Book, c: Book)
    requires Shorter(b, c) && Broken(frameSize, b)
    ensures Broken(frameSize, c)
  {
    var k :| 0 <= k < |b.pieces| && |b.pieces[k]| < frameSize && |Flatten(b.pieces[..k + 1])| < b.totalLen;
    assert c.pieces[..k + 1] == b.pieces[..k + 1] && c.pieces[k] == b.pieces[k];
  }

  /** The buffer of `id` is never a whole frame. */
  ghost predicate ShortBuffer(frameSize: nat, tx: Tx, id: Txid)
  {
    id in tx.pending ==> |tx.pending[id].partial| < frameSize
  }

  lemma {:induction false} RestShort(frameSize: nat, buf: Bytes)
    requires 0 < frameSize
    ensures |Rest(frameSize, buf)| < frameSize
  {
    if |buf| >= frameSize { RestShort(frameSize, buf[frameSize..]); }
  }

  lemma {:induction false} AppendShort(cfg: SenderConfig, tx: Tx, e: Event)
    requires 0 < cfg.frameSize && Good(tx) && e.Appends? && ShortBuffer(cfg.frameSize, tx, e.id)
    ensures ShortBuffer(cfg.frameSize, Step(cfg, tx, e), e.id)
  {
    if Append(cfg, tx.pending, e.id, e.chunk, e.now).1.Ok? {
      CutPartial(Buffered(tx.pending[e.id], e.chunk), e.id, cfg.frameSize, e.now);
      RestShort(cfg.frameSize, tx.pending[e.id].partial + e.chunk);
    }
  }

  lemma {:induction false} StepShort(cfg: SenderConfig, tx: Tx, e: Event, id: Txid)
    requires 0 < cfg.frameSize && Good(tx) && ShortBuffer(cfg.frameSize, tx, id)
    ensures ShortBuffer(cfg.frameSize, Step(cfg, tx, e), id)
  {
    if id !in tx.books {
      StepSound(cfg, tx, e);
      assert id in Step(cfg, tx, e).books ==> e.Opens? && e.id == id;
    } else if e.Appends? && e.id == id {
      AppendShort(cfg, tx, e);
    } else if !(e.Finishes? && e.id == id) {
      OthersIdle(cfg, tx, e, id);
    }
  }

  lemma {:induction false} RunShort(cfg: SenderConfig, events: seq<Event>, id: Txid)
    requires 0 < cfg.frameSize
    ensures ShortBuffer(cfg.frameSize, SenderRun(cfg, events), id)
  {
    if events != [] {
      var before := events[..|events| - 1];
      RunShort(cfg, before, id);
      StepShort(cfg, SenderRun(cfg, before), events[|events| - 1], id);
    }
  }

  lemma {:induction false} EarlyBreaks(cfg: SenderConfig, tx: Tx, e: Event, id: Txid)
    requires 0 < cfg.frameSize && Good(tx) && ShortBuffer(cfg.frameSize, tx, id) && !NotEarly(tx.pending, e, id)
    ensures id in Step(cfg, tx, e).books && Broken(cfg.frameSize, Step(cfg, tx, e).books[id])
  {
    var t, b := tx.pending[id], tx.books[id];
    assert Tracks(id, t, b);
    var c := Step(cfg, tx, e).books[id];
    assert c == b.(pieces := b.pieces + [t.partial]);
    FlattenSnoc(b.pieces, t.partial);
    assert c.pieces[..|b.pieces| + 1] == c.pieces && c.pieces[|b.pieces|] == t.partial;
  }

  lemma {:induction false} RunBreaks(cfg: SenderConfig, events: seq<Event>, id: Txid)
    requires 0 < cfg.frameSize && !NeverEarly(cfg, events, id)
    ensures id in SenderRun(cfg, events).books && Broken(cfg.frameSize, SenderRun(cfg, events).books[id])
  {
    var before, e := events[..|events| - 1], events[|events| - 1];
    var tx := SenderRun(cfg, before);
    if NeverEarly(cfg, before, id) {
      RunShort(cfg, before, id);
      EarlyBreaks(cfg, tx, e, id);
    } else {
      RunBreaks(cfg, before, id);
      StepSound(cfg, tx, e);
      BrokenStays(cfg.frameSize, tx.books[id], Step(cfg, tx, e).books[id]);
    }
  }

  lemma {:induction false} BrokenDiffers(frameSize: nat, b: Book)
    requires 0 < frameSize && Broken(frameSize, b)
    ensures b.pieces != Pieces(frameSize, b.data)
    ensures |b.data| == b.totalLen ==> b.pieces != Split(frameSize, b.data)
  {
    var k :| 0 <= k < |b.pieces| && |b.pieces[k]| < frameSize && |Flatten(b.pieces[..k + 1])| < b.totalLen;
    assert b.pieces[..|b.pieces|] == b.pieces;
    if b.pieces == Pieces(frameSize, b.data) {
      PiecesSized(frameSize, b.data, k);
    } else if |b.data| == b.totalLen && b.pieces == Split(frameSize, b.data) {
      SplitShape(frameSize, b.data);
    }
  }

  /** The one-shot split of a fully sent transaction; before that, the full pieces of what was written. */
  ghost predicate SplitSoFar(frameSize: nat, t: PendingTxn, b: Book)
    requires 0 < frameSize
  {
    b.pieces == if IsFullySent(t) then Split(frameSize, b.data) else Pieces(frameSize, b.data)
  }

  /**
   Incremental framing refines one-shot splitting in every run: for any chunking of a payload of any size, with ACKs,
   resends, aborts, reconnects and other transactions in between, a fully sent transaction has been cut into exactly
   the one-shot split of its bytes, and before that into the full pieces of what was written, if and only if no finish
   came while a tail was buffered and bytes were missing.
   */
  lemma {:induction false} RunSplits(cfg: SenderConfig, events: seq<Event>, id: Txid)
    requires 0 < cfg.frameSize && id in SenderRun(cfg, events).pending
    ensures var tx := SenderRun(cfg, events);
            && id in tx.books
            && (IsFullySent(tx.pending[id]) ==> |tx.books[id].data| == tx.pending[id].totalLen)
            && (SplitSoFar(cfg.frameSize, tx.pending[id], tx.books[id]) <==> NeverEarly(cfg, events, id))
  {
    var tx := SenderRun(cfg, events);
    assert Tracks(id, tx.pending[id], tx.books[id]);
    if NeverEarly(cfg, events, id) {
      RunCuts(cfg, events, id);
    } else {
      RunBreaks(cfg, events, id);
      BrokenDiffers(cfg.frameSize, tx.books[id]);
    }
  }
}
