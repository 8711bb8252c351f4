/**
 What the holder's ACK watermark is (src/reliability/transaction.rs:479-491), over every run of the two-party machine:
 the highest contiguous position among the ACK entries it has handled for the transaction.
 */
module Watermark {
  import opened Prelude
  import opened Frames
  import opened Sender
  import opened Retention
  import opened SenderRuns
  import opened Link
  import opened LinkRuns

  /** The step hands the holder an ACK entry of pending transaction `id`. */
  ghost predicate Hears(w: World, a: Action, id: Txid)
  {
    && a.Holder? && a.event.Acks? && CanHold(w, a.event)
    && a.event.entry.transactionId == id && id in w.tx.pending
  }

  /** The ACK entries the holder has handled for `id` while it was pending, in order. */
  ghost function Heard(cfg: SenderConfig, actions: seq<Action>, id: Txid): seq<AckEntry>
    requires 0 < cfg.frameSize
  {
    if actions == [] then []
    else
      var before, a := actions[..|actions| - 1], actions[|actions| - 1];
      Heard(cfg, before, id) + if Hears(Run(cfg, before), a, id) then [a.event.entry] else []
  }

  /** The watermark is the maximum of what was heard. */
  ghost predicate Topmost(t: PendingTxn, heard: seq<AckEntry>)
  {
    if heard == [] then t.ackedContiguous.None?
    else
      && t.ackedContiguous.Some?
      && (forall i :: 0 <= i < |heard| ==> heard[i].highestContiguousSeq <= t.ackedContiguous.value)
      && (exists i :: 0 <= i < |heard| && heard[i].highestContiguousSeq == t.ackedContiguous.value)
  }

  lemma {:induction false} CutAcked(t: PendingTxn, id: Txid, frameSize: nat, now: nat)
    requires 0 < frameSize
    ensures Cut(t, id, frameSize, now).ackedContiguous == t.ackedContiguous
    decreases |t.partial|
  {
    if |t.partial| >= frameSize { CutAcked(Push(t, id, frameSize, now), id, frameSize, now); }
  }

  lemma {:induction false} FramingKeepsMark(cfg: SenderConfig, p: Pending, e: Event)
    requires 0 < cfg.frameSize && SameShape(p) && (e.Opens? || e.Appends? || e.Finishes?) && e.id in p
    ensures e.id in After(cfg, p, e) && After(cfg, p, e)[e.id].ackedContiguous == p[e.id].ackedContiguous
  {
    if e.Appends? { CutAcked(Buffered(p[e.id], e.chunk), e.id, cfg.frameSize, e.now); }
  }

  /** Only an ACK of the transaction moves its watermark. */
  lemma {:induction false} OthersKeepMark(cfg: SenderConfig, p: Pending, e: Event, id: Txid)
    requires 0 < cfg.frameSize && SameShape(p) && id in p && id in After(cfg, p, e)
    requires !(e.Acks? && e.entry.transactionId == id)
    ensures After(cfg, p, e)[id].ackedContiguous == p[id].ackedContiguous
  {
    if e.Verdicts? {
      VerdictsOnlyStamp(p, e.entries, e.now, id);
    } else if IsTimer(e) {
      TimersRestamp(cfg, p, e, id);
    } else if id != Target(e) {
      OthersUntouched(cfg, p, e, id);
    } else if !e.Aborts? {
      FramingKeepsMark(cfg, p, e);
    }
  }

  /** A transaction enters the table by being opened, with a fresh id and nothing acknowledged. */
  lemma {:induction false} EntersUnmarked(cfg: SenderConfig, p: Pending, e: Event, id: Txid)
    requires 0 < cfg.frameSize && SameShape(p) && id !in p && id in After(cfg, p, e)
    ensures e.Opens? && e.id == id && After(cfg, p, e)[id].ackedContiguous == None
  {
    if e.Verdicts? {
      VerdictsOnlyStamp(p, e.entries, e.now, id);
    } else if IsTimer(e) {
      TimerKeys(cfg, p, e, id);
    } else if id != Target(e) {
      OthersUntouched(cfg, p, e, id);
    }
  }

  /** An exported ACK is in range, so merging it takes the maximum. */
  lemma {:induction false} AckRaisesMark(cfg: SenderConfig, w: World, e: Event)
    requires 0 < cfg.frameSize && Inv(w) && e.Acks? && CanHold(w, e) && e.entry.transactionId in w.tx.pending
    ensures var t := w.tx.pending[e.entry.transactionId];
            Acked(t, e.entry, e.now).ackedContiguous
            == Some(if t.ackedContiguous.Some? then Max(t.ackedContiguous.value, e.entry.highestContiguousSeq)
                    else e.entry.highestContiguousSeq)
  {
    var id := e.entry.transactionId;
    var a :| a in w.acks && a.entry == e.entry;
    assert AckFrom(w.tx.books, a);
    AckInRange(w.tx.books, a);
    assert Tracks(id, w.tx.pending[id], w.tx.books[id]);
    assert Backed(w.tx.pending[id], id, w.acks);
    BackedAcked(w.tx.pending[id], id, w.acks, a, e.now);
  }

  lemma {:induction false} TopmostNext(t: PendingTxn, heard: seq<AckEntry>, e: AckEntry, u: PendingTxn)
    requires Topmost(t, heard)
    requires u.ackedContiguous
             == Some(if t.ackedContiguous.Some? then Max(t.ackedContiguous.value, e.highestContiguousSeq)
                                       else e.highestContiguousSeq)
    ensures Topmost(u, heard + [e])
  {
    var more := heard + [e];
    assert more[|heard|] == e;
    if heard != [] && e.highestContiguousSeq < t.ackedContiguous.value {
      var i :| 0 <= i < |heard| && heard[i].highestContiguousSeq == t.ackedContiguous.value;
      assert more[i] == heard[i];
    }
  }

  lemma {:induction false} AckTop(cfg: SenderConfig, w: World, e: Event, heard: seq<AckEntry>)
    requires 0 < cfg.frameSize && Inv(w) && e.Acks? && CanHold(w, e) && e.entry.transactionId in w.tx.pending
    requires Topmost(w.tx.pending[e.entry.transactionId], heard)
    ensures Topmost(Acked(w.tx.pending[e.entry.transactionId], e.entry, e.now), heard + [e.entry])
  {
    var t := w.tx.pending[e.entry.transactionId];
    AckRaisesMark(cfg, w, e);
    TopmostNext(t, heard, e.entry, Acked(t, e.entry, e.now));
  }

  lemma {:induction false} AckStays(p: Pending, e: AckEntry, now: nat)
    requires SameShape(p) && e.transactionId in HandleAck(p, e, now).0
    ensures e.transactionId in p && HandleAck(p, e, now).0[e.transactionId] == Acked(p[e.transactionId], e, now)
  {
  }

  /** A step of the holder that is no ACK of `id`. */
  lemma {:induction false} SilentTop(cfg: SenderConfig, tx: Tx, e: Event, id: Txid, heard: seq<AckEntry>)
    requires 0 < cfg.frameSize && SameShape(tx.pending) && Enabled(tx, e) && id in After(cfg, tx.pending, e)
    requires !(e.Acks? && e.entry.transactionId == id)
    requires id in tx.pending ==> Topmost(tx.pending[id], heard)
    requires id !in tx.books ==> heard == []
    ensures Topmost(After(cfg, tx.pending, e)[id], heard)
  {
    if id in tx.pending { OthersKeepMark(cfg, tx.pending, e, id); } else { EntersUnmarked(cfg, tx.pending, e, id); }
  }

  /** One step of the two parties. */
  lemma {:induction false} NextTop(cfg: SenderConfig, w: World, a: Action, id: Txid, heard: seq<AckEntry>)
    requires 0 < cfg.frameSize && Inv(w) && id in Next(cfg, w, a).tx.pending
    requires id in w.tx.pending ==> Topmost(w.tx.pending[id], heard)
    requires id !in w.tx.books ==> heard == []
    ensures Topmost(Next(cfg, w, a).tx.pending[id], heard + if Hears(w, a, id) then [a.event.entry] else [])
  {
    assert heard + [] == heard;
    if a.Holder? && CanHold(w, a.event) {
      var e := a.event;
      if e.Acks? && e.entry.transactionId == id {
        AckStays(w.tx.pending, e.entry, e.now);
        AckTop(cfg, w, e, heard);
      } else {
        SilentTop(cfg, w.tx, e, id, heard);
      }
    }
  }

  /** Nothing is heard of a transaction that was never opened. */
  lemma {:induction false} HeardIsKnown(cfg: SenderConfig, actions: seq<Action>, id: Txid)
    requires 0 < cfg.frameSize && Heard(cfg, actions, id) != []
    ensures id in Run(cfg, actions).tx.books
  {
    var before := actions[..|actions| - 1];
    RunInv(cfg, before);
    NextKeeps(cfg, Run(cfg, before), actions[|actions| - 1]);
    if Heard(cfg, before, id) != [] {
      HeardIsKnown(cfg, before, id);
    } else {
      assert id in Run(cfg, before).tx.pending;
    }
  }

  /** In every run the watermark of a pending transaction is the highest position heard for it. */
  lemma {:induction false} WatermarkIsMaximum(cfg: SenderConfig, actions: seq<Action>, id: Txid)
    requires 0 < cfg.frameSize && id in Run(cfg, actions).tx.pending
    ensures Topmost(Run(cfg, actions).tx.pending[id], Heard(cfg, actions, id))
  {
    assert actions != [];
    var before, a := actions[..|actions| - 1], actions[|actions| - 1];
    RunInv(cfg, before);
    if id in Run(cfg, before).tx.pending { WatermarkIsMaximum(cfg, before, id); }
    if Heard(cfg, before, id) != [] { HeardIsKnown(cfg, before, id); }
    NextTop(cfg, Run(cfg, before), a, id, Heard(cfg, before, id));
  }

  lemma {:induction false} HeardIsOwn(cfg: SenderConfig, actions: seq<Action>, id: Txid)
    requires 0 < cfg.frameSize
    ensures forall i :: 0 <= i < |Heard(cfg, actions, id)| ==> Heard(cfg, actions, id)[i].transactionId == id
  {
    if actions != [] { HeardIsOwn(cfg, actions[..|actions| - 1], id); }
  }
}
