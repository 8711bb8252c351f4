/**
 What the holder has confirmed, the receiver still holds: over every run, the exact condition under which the confirmed
 frames of a transaction lie inside the contiguous prefix of its open slot, and what repair rounds then achieve.
 */
module Confirmation {
  import opened Prelude
  import opened Frames
  import opened Sender
  import opened Retention
  import opened Reassembly
  import opened Streams
  import opened Inbound
  import opened StreamTable
  import opened Link
  import opened LinkRuns
  import opened Watermark
  import opened Repair

  /** Open slots keep their incarnation and only extend their prefix, or are new. */
  ghost predicate Progress(ib: Inbox, u: Inbox)
  {
    && |ib.ledger| <= |u.ledger|
    && (forall n :: 0 <= n < |ib.ledger| ==> u.ledger[n].txid == ib.ledger[n].txid)
    && (forall id :: id in u.births ==>
          || u.births[id] >= |ib.ledger|
          || (id in ib.births && id in ib.slots && id in u.slots
              && u.births[id] == ib.births[id] && PrefixEnd(ib.slots[id]) <= PrefixEnd(u.slots[id])))
  }

  /** An exported entry, as long as the incarnation it was read from is open, is inside the prefix. */
  ghost predicate Fresh(ib: Inbox, a: AckRecord)
  {
    var id := a.entry.transactionId;
    && a.incarnation < |ib.ledger| && ib.ledger[a.incarnation].txid == id
    && (id in ib.births && ib.births[id] == a.incarnation ==>
          id in ib.slots && a.entry.highestContiguousSeq < PrefixEnd(ib.slots[id]))
  }

  lemma {:induction false} FreshStays(ib: Inbox, u: Inbox, a: AckRecord)
    requires Fresh(ib, a) && Progress(ib, u)
    ensures Fresh(u, a)
  {
  }

  /** Every slot has an incarnation number, and the ledger names its transaction. */
  ghost predicate Numbered(ib: Inbox)
  {
    && ib.births.Keys == ib.slots.Keys
    && (forall id :: id in ib.births ==> ib.births[id] < |ib.ledger| && ib.ledger[ib.births[id]].txid == id)
  }

  /** Slots are only dropped; the ledger keeps its transactions. */
  ghost predicate Trims(ib: Inbox, u: Inbox)
  {
    && |ib.ledger| == |u.ledger|
    && (forall n :: 0 <= n < |ib.ledger| ==> u.ledger[n].txid == ib.ledger[n].txid)
    && (forall id :: id in u.births ==> id in ib.births && u.births[id] == ib.births[id]
                                        && (id in ib.slots ==> id in u.slots && u.slots[id] == ib.slots[id]))
  }

  lemma {:induction false} TrimsProgress(ib: Inbox, u: Inbox)
    requires Numbered(ib) && Trims(ib, u)
    ensures Progress(ib, u)
  {
  }

  lemma {:induction false} TrimsTrans(a: Inbox, b: Inbox, c: Inbox)
    requires Numbered(a) && Trims(a, b) && Trims(b, c)
    ensures Trims(a, c)
  {
  }

  lemma {:induction false} ReceiveOthers(slots: Slots, f: Frame, emit: bool, id: Txid)
    requires id != f.transactionId
    ensures var u := Receive(slots, f.transactionId, f.seqNo, f.totalLen, |f.payload|, f.payload, emit).0;
            (id in u <==> id in slots) && (id in slots ==> u[id] == slots[id])
  {
  }

  /** Only the slot of `id` changes, by opening or by extending its prefix. */
  lemma {:induction false} GrownProgress(ib: Inbox, u: Inbox, id: Txid)
    requires Numbered(ib)
    requires u.births == (if id in u.slots && id !in ib.slots then ib.births[id := |ib.ledger|] else ib.births)
    requires u.ledger == if id in u.slots && id !in ib.slots then ib.ledger + [Incarnation(id, Nowhere)] else ib.ledger
    requires GrowsOnly(ib.slots, u.slots, id)
    ensures Progress(ib, u) && Numbered(u)
  {
  }

  /** Receiving a frame changes at most the slot of its own transaction. */
  ghost predicate GrowsOnly(slots: Slots, u: Slots, id: Txid)
  {
    && (forall j :: j != id ==> (j in u <==> j in slots) && (j in slots ==> u[j] == slots[j]))
    && (id in slots ==> id in u && PrefixEnd(slots[id]) <= PrefixEnd(u[id]))
  }

  lemma {:induction false} ReceiveGrows(ib: Inbox, f: Frame)
    requires SlotsOk(ib.slots)
    ensures GrowsOnly(ib.slots, ReceiveFrame(ib, f).0, f.transactionId)
  {
    ReceiveOk(ib.slots, f.transactionId, f.seqNo, f.totalLen, |f.payload|, f.payload, ib.streamHandler);
    forall id | id != f.transactionId
      ensures (id in ReceiveFrame(ib, f).0 <==> id in ib.slots)
              && (id in ib.slots ==> ReceiveFrame(ib, f).0[id] == ib.slots[id])
    {
      ReceiveOthers(ib.slots, f, ib.streamHandler, id);
    }
  }

  lemma {:induction false} LandedProgress(ib: Inbox, f: Frame)
    requires SlotsOk(ib.slots) && Numbered(ib)
    ensures Progress(ib, Landed(ib, f)) && Numbered(Landed(ib, f))
  {
    ReceiveGrows(ib, f);
    GrownProgress(ib, Landed(ib, f), f.transactionId);
  }

  lemma {:induction false} StreamedTrims(ib: Inbox, f: Frame, opens: bool, emitted: seq<(nat, Bytes)>)
    ensures Trims(ib, Streamed(ib, f, opens, emitted))
  {
  }

  lemma {:induction false} DeliveredTrims(ib: Inbox, id: Txid)
    ensures Trims(ib, Delivered(ib, id))
  {
  }

  lemma {:induction false} SettledTrims(ib: Inbox, id: Txid)
    ensures Trims(ib, Settled(ib, id)) && Trims(ib, Delivered(ib, id))
  {
    DeliveredTrims(ib, id);
    EndingTrims(ib, id, Complete);
  }

  lemma {:induction false} DataProgress(ib: Inbox, f: Frame)
    requires Numbered(Landed(ib, f))
    ensures Progress(Landed(ib, f), OnData(ib, f))
  {
    var r := ReceiveFrame(ib, f).1;
    var u := Landed(ib, f);
    if r.Ok? && r.value.Accepted? {
      var v := Streamed(u, f, OpensStream(ib, f), r.value.emitted);
      StreamedTrims(u, f, OpensStream(ib, f), r.value.emitted);
      SettledTrims(v, f.transactionId);
      TrimsTrans(u, v, Settled(v, f.transactionId));
    }
    TrimsProgress(u, OnData(ib, f));
  }

  lemma {:induction false} EndingTrims(ib: Inbox, id: Txid, s: StreamState)
    ensures Trims(ib, Discard(Ended(ib, id, s), id)) && Trims(ib, Ended(ib, id, s)) && Trims(ib, OnPause(ib, id))
  {
  }

  /** Closing a transaction, and setting link or pause flags, only drops slots. */
  lemma {:induction false} ClosingTrims(ib: Inbox, id: Txid, s: StreamState)
    ensures Trims(ib, Discard(Ended(ib, id, s), id)) && Trims(ib, OnCompleted(ib, id)) && Trims(ib, OnPause(ib, id))
  {
    EndingTrims(ib, id, s);
    EndingTrims(ib, id, Complete);
  }

  lemma {:induction false} HandleTrims(ib: Inbox, i: Input)
    requires !i.Data?
    ensures Trims(ib, Handle(ib, i))
  {
    match i
    case PauseFor(id) => ClosingTrims(ib, id, Cancelled);
    case AbortFor(id) => ClosingTrims(ib, id, Cancelled);
    case ExpiredFor(id) => ClosingTrims(ib, id, Cancelled);
    case CompletedFor(id) => ClosingTrims(ib, id, Cancelled);
    case Drain(id) => SettledTrims(ib, id);
    case _ =>
  }

  lemma {:induction false} HandleProgress(ib: Inbox, i: Input)
    requires Numbered(ib) && !i.Data?
    ensures Progress(ib, Handle(ib, i))
  {
    HandleTrims(ib, i);
    TrimsProgress(ib, Handle(ib, i));
  }

  lemma {:induction false} RestNumbered(ib: Inbox)
    requires HistoryOk(ib)
    ensures Numbered(ib)
  {
  }

  lemma {:induction false} ExportedFresh(ib: Inbox, id: Txid, a: AckRecord)
    requires a in Exported(ib.slots, ib.births, id)
    requires id in ib.births ==> ib.births[id] < |ib.ledger| && ib.ledger[ib.births[id]].txid == id
    ensures Fresh(ib, a)
  {
  }

  ghost predicate AllFresh(w: World) { forall a :: a in w.acks ==> Fresh(w.rx, a) }

  lemma {:induction false} NextFresh(cfg: SenderConfig, w: World, step: Action)
    requires 0 < cfg.frameSize && Inv(w) && AllFresh(w)
    ensures AllFresh(Next(cfg, w, step))
  {
    var u := Next(cfg, w, step);
    RestNumbered(w.rx);
    if step.Deliver? && step.frame in w.net {
      var f := step.frame;
      LandedProgress(w.rx, f);
      DataProgress(w.rx, f);
      forall a | a in u.acks ensures Fresh(u.rx, a) {
        if a in w.acks {
          FreshStays(w.rx, Landed(w.rx, f), a);
        } else {
          ExportedFresh(Landed(w.rx, f), f.transactionId, a);
        }
        FreshStays(Landed(w.rx, f), u.rx, a);
      }
    } else if step.Export? {
      forall a | a in u.acks ensures Fresh(u.rx, a) { if a !in w.acks { ExportedFresh(w.rx, step.id, a); } }
    } else if step.Other? && !step.input.Data? {
      HandleProgress(w.rx, step.input);
      forall a | a in u.acks ensures Fresh(u.rx, a) { FreshStays(w.rx, u.rx, a); }
    }
  }

  lemma {:induction false} RunFresh(cfg: SenderConfig, actions: seq<Action>)
    requires 0 < cfg.frameSize
    ensures AllFresh(Run(cfg, actions))
  {
    if actions != [] {
      RunFresh(cfg, actions[..|actions| - 1]);
      RunInv(cfg, actions[..|actions| - 1]);
      NextFresh(cfg, Run(cfg, actions[..|actions| - 1]), actions[|actions| - 1]);
    }
  }

  /** The open slot of `id` is the only one its id ever had. */
  ghost predicate OpenedOnce(ib: Inbox, id: Txid)
  {
    id in ib.births && forall n :: 0 <= n < |ib.ledger| && ib.ledger[n].txid == id ==> n == ib.births[id]
  }

  /** The entry was exported from the slot that is open now. */
  ghost predicate FromOpenSlot(w: World, e: AckEntry)
  {
    e.transactionId in w.rx.births
    && exists a :: a in w.acks && a.entry == e && a.incarnation == w.rx.births[e.transactionId]
  }

  /** The handled entries that stem from an earlier slot of their id claim nothing beyond the prefix of the open one. */
  ghost predicate StaleInside(w: World, heard: seq<AckEntry>, s: Slot)
  {
    forall i :: 0 <= i < |heard| && !FromOpenSlot(w, heard[i]) ==> heard[i].highestContiguousSeq < PrefixEnd(s)
  }

  /** Every frame the holder has confirmed lies inside the contiguous prefix. */
  ghost predicate ConfirmedInside(t: PendingTxn, s: Slot)
  {
    forall k: nat :: HolderConfirmed(t, k) ==> k < PrefixEnd(s)
  }

  /** The watermark alone decides. */
  lemma {:induction false} MarkDecides(t: PendingTxn, id: Txid, acks: iset<AckRecord>, s: Slot)
    requires Backed(t, id, acks)
    ensures ConfirmedInside(t, s) <==> t.ackedContiguous.None? || t.ackedContiguous.value < PrefixEnd(s)
  {
    if t.ackedContiguous.Some? { assert HolderConfirmed(t, t.ackedContiguous.value); }
  }

  lemma {:induction false} OpenSlotInside(w: World, id: Txid, e: AckEntry)
    requires AllFresh(w) && id in w.rx.slots && e.transactionId == id && FromOpenSlot(w, e)
    ensures e.highestContiguousSeq < PrefixEnd(w.rx.slots[id])
  {
    var a :| a in w.acks && a.entry == e && a.incarnation == w.rx.births[id];
    assert Fresh(w.rx, a);
  }

  lemma {:induction false} StaleDecides(w: World, id: Txid, t: PendingTxn, heard: seq<AckEntry>)
    requires AllFresh(w) && id in w.rx.slots && Topmost(t, heard)
    requires forall i :: 0 <= i < |heard| ==> heard[i].transactionId == id
    ensures StaleInside(w, heard, w.rx.slots[id])
            <==> t.ackedContiguous.None? || t.ackedContiguous.value < PrefixEnd(w.rx.slots[id])
  {
    var s := w.rx.slots[id];
    if StaleInside(w, heard, s) && heard != [] {
      var i :| 0 <= i < |heard| && heard[i].highestContiguousSeq == t.ackedContiguous.value;
      if FromOpenSlot(w, heard[i]) { OpenSlotInside(w, id, heard[i]); }
    }
  }

  /**
   Confirmed stays received, exactly: in every run, for a pending transaction whose slot is open, every confirmed frame
   lies inside the slot's contiguous prefix if and only if the handled ACK entries that were exported from an earlier
   slot of the id, if any, claim nothing beyond that prefix. So it holds for the whole life of a slot incarnation
   unless such a stale ACK is handled.
   */
  lemma {:induction false} ConfirmedWithinPrefix(cfg: SenderConfig, actions: seq<Action>, id: Txid)
    requires 0 < cfg.frameSize && id in Run(cfg, actions).tx.pending && id in Run(cfg, actions).rx.slots
    ensures ConfirmedInside(Run(cfg, actions).tx.pending[id], Run(cfg, actions).rx.slots[id])
            <==> StaleInside(Run(cfg, actions), Heard(cfg, actions, id), Run(cfg, actions).rx.slots[id])
  {
    var w := Run(cfg, actions);
    RunInv(cfg, actions);
    RunFresh(cfg, actions);
    WatermarkIsMaximum(cfg, actions, id);
    HeardIsOwn(cfg, actions, id);
    assert Backed(w.tx.pending[id], id, w.acks);
    MarkDecides(w.tx.pending[id], id, w.acks, w.rx.slots[id]);
    StaleDecides(w, id, w.tx.pending[id], Heard(cfg, actions, id));
  }

  /** In particular it holds for a slot that is the only one its id ever had. */
  lemma {:induction false} OnlySlotInside(cfg: SenderConfig, actions: seq<Action>, id: Txid)
    requires 0 < cfg.frameSize && id in Run(cfg, actions).tx.pending && id in Run(cfg, actions).rx.slots
    requires OpenedOnce(Run(cfg, actions).rx, id)
    ensures ConfirmedInside(Run(cfg, actions).tx.pending[id], Run(cfg, actions).rx.slots[id])
  {
    var w := Run(cfg, actions);
    RunInv(cfg, actions);
    RunFresh(cfg, actions);
    var t := w.tx.pending[id];
    assert Backed(t, id, w.acks);
    MarkDecides(t, id, w.acks, w.rx.slots[id]);
    if t.ackedContiguous.Some? {
      var a := BackingAck(t, id, w.acks);
      assert Fresh(w.rx, a);
    }
  }

  /** A confirmed frame beyond the prefix means that the first missing one is confirmed. */
  lemma {:induction false} FirstMissingConfirmed(t: PendingTxn, id: Txid, acks: iset<AckRecord>, s: Slot)
    requires Backed(t, id, acks) && !ConfirmedInside(t, s)
    ensures HolderConfirmed(t, PrefixEnd(s))
  {
    MarkDecides(t, id, acks, s);
  }

  ghost predicate CanRepair(w: World, id: Txid)
  {
    id in w.tx.pending && id in w.rx.slots && !w.tx.pending[id].paused && SameShape(w.tx.pending)
  }

  /** A gap list has a confirmed position exactly when some frame beyond the prefix is confirmed, and there is a gap. */
  lemma {:induction false} GapsConfirmed(t: PendingTxn, id: Txid, acks: iset<AckRecord>, s: Slot)
    requires Backed(t, id, acks) && SlotOk(s) && s.frames != map[]
    ensures (forall k :: k in AllGaps(s) ==> !HolderConfirmed(t, k)) <==> ConfirmedInside(t, s) || AllGaps(s) == []
  {
    forall k | k in AllGaps(s) ensures PrefixEnd(s) <= k && PrefixEnd(s) in AllGaps(s) {
      AllGapsExact(s, k);
      AllGapsExact(s, PrefixEnd(s));
    }
    if !ConfirmedInside(t, s) && AllGaps(s) != [] {
      FirstMissingConfirmed(t, id, acks, s);
      assert AllGaps(s)[0] in AllGaps(s);
    }
  }

  /**
   In a run, one delivered NACK round for an unpaused transaction lifts the prefix past the highest stored frame if and
   only if no stale ACK claims more than the prefix, or there was no gap.
   */
  lemma {:induction false} NackRoundCloses(cfg: SenderConfig, actions: seq<Action>, id: Txid, now: nat, fs: seq<Frame>)
    requires 0 < cfg.frameSize && CanRepair(Run(cfg, actions), id) && Run(cfg, actions).rx.slots[id].frames != map[]
    requires Delivers(fs, HandleNack(Run(cfg, actions).tx.pending, id, AllGaps(Run(cfg, actions).rx.slots[id]), now).1)
    ensures var slots := Run(cfg, actions).rx.slots;
            && id in DeliverAll(slots, fs)
            && (PrefixEnd(DeliverAll(slots, fs)[id]) > Highest(slots[id].frames)
                <==> StaleInside(Run(cfg, actions), Heard(cfg, actions, id), slots[id]) || AllGaps(slots[id]) == [])
  {
    var w := Run(cfg, actions);
    RunInv(cfg, actions);
    assert SlotOk(w.rx.slots[id]) && Backed(w.tx.pending[id], id, w.acks);
    assert Tracks(id, w.tx.pending[id], w.tx.books[id]);
    NackRepairs(w.tx.books, id, w.tx.pending[id], w.rx.slots, fs);
    GapsConfirmed(w.tx.pending[id], id, w.acks, w.rx.slots[id]);
    ConfirmedWithinPrefix(cfg, actions, id);
  }

  lemma {:induction false} HeldConfirmed(t: PendingTxn, id: Txid, acks: iset<AckRecord>, s: Slot)
    requires Backed(t, id, acks) && SlotOk(s)
    ensures (forall k :: HolderConfirmed(t, k) ==> k in s.frames) <==> ConfirmedInside(t, s)
  {
    if !ConfirmedInside(t, s) { FirstMissingConfirmed(t, id, acks, s); }
  }

  /**
   In a run, one delivered `Resumed` retransmission of an unpaused, fully sent transaction completes its slot if and
   only if no stale ACK claims more than the prefix; and then the slot assembles to what was written.
   */
  lemma {:induction false} ResumeRoundCompletes(cfg: SenderConfig, actions: seq<Action>, id: Txid, now: nat,
          fs: seq<Frame>)
    requires 0 < cfg.frameSize && CanRepair(Run(cfg, actions), id) && IsFullySent(Run(cfg, actions).tx.pending[id])
    requires Delivers(fs, ResumeAnswer(Run(cfg, actions).tx.pending, id, now))
    ensures var slots := DeliverAll(Run(cfg, actions).rx.slots, fs);
            && id in slots
            && (IsComplete(slots[id])
                <==> StaleInside(Run(cfg, actions), Heard(cfg, actions, id), Run(cfg, actions).rx.slots[id]))
            && (IsComplete(slots[id]) ==> Assembled(slots[id].frames) == WrittenBy(cfg, actions, id))
  {
    var w := Run(cfg, actions);
    RunInv(cfg, actions);
    var t := w.tx.pending[id];
    assert SlotOk(w.rx.slots[id]) && Backed(t, id, w.acks);
    assert Tracks(id, t, w.tx.books[id]);
    OneResumed(w.tx.pending, id, now);
    ResumeRepairs(w.tx.books, id, t, w.rx.slots, fs);
    HeldConfirmed(t, id, w.acks, w.rx.slots[id]);
    ConfirmedWithinPrefix(cfg, actions, id);
    BookIsWritten(cfg, actions, id);
    ResentAssembles(w.tx.books, id, t, w.rx.slots, fs);
  }

  /** Whatever a retransmission completes is the recorded payload. */
  lemma {:induction false} ResentAssembles(books: map<Txid, Book>, id: Txid, t: PendingTxn, slots: Slots,
          fs: seq<Frame>)
    requires Pair(books, id, t, slots) && Delivers(fs, ResentFrames(Unconfirmed, t, |t.frames|))
    ensures var u := DeliverAll(slots, fs); id in u && (IsComplete(u[id]) ==> Assembled(u[id].frames) == books[id].data)
  {
    ResentDelivered(books, id, t, slots, fs);
    DeliverAllHonest(books, id, slots, fs);
    var u := DeliverAll(slots, fs);
    assert SlotOk(u[id]) && SlotFrom(books, id, u[id]);
    if IsComplete(u[id]) { CompleteIsWhole(books, id, u[id]); }
  }

  /** The frames a `Resumed` verdict for `id` retransmits. */
  function ResumeAnswer(p: Pending, id: Txid, now: nat): seq<Frame>
    requires SameShape(p)
  {
    ApplyResumeVerdicts(p, [ResumeStatusEntry(id, Resumed)], now).1.retransmit
  }

  lemma {:induction false} OneResumed(p: Pending, id: Txid, now: nat)
    requires SameShape(p) && id in p && !p[id].paused
    ensures ApplyResumeVerdicts(p, [ResumeStatusEntry(id, Resumed)], now).1.retransmit
            == ResentFrames(Unconfirmed, p[id], |p[id].frames|)
  {
    var es := [ResumeStatusEntry(id, Resumed)];
    assert es[..0] == [];
    assert ApplyResumeVerdicts(p, es[..0], now) == (p, ResumeVerdicts([], [], []));
  }
}
