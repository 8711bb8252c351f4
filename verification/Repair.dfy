/**
 Repair: the answer to a gap list closes the gaps, and the retransmission after a `Resumed` verdict completes
 the transfer, exactly when the receiver still holds every frame the holder believes confirmed.
 */
module Repair {
  import opened Prelude
  import opened Frames
  import opened Sender
  import opened Retention
  import opened SenderRuns
  import opened Reassembly
  import opened Streams
  import opened Inbound
  import opened Link

  // ---------------------------------------------------------------------------------------------
  // Delivering a list of frames

  function DeliverAll(slots: Slots, fs: seq<Frame>): Slots
  {
    if fs == [] then slots else DeliverOne(DeliverAll(slots, fs[..|fs| - 1]), fs[|fs| - 1])
  }

  function DeliverOne(slots: Slots, f: Frame): Slots
  {
    Receive(slots, f.transactionId, f.seqNo, f.totalLen, |f.payload|, f.payload, false).0
  }

  /** Every slot was filled from the recorded histories, and `id` has one. */
  ghost predicate Filled(books: map<Txid, Book>, id: Txid, slots: Slots)
  {
    id in books && BookOk(books[id]) && id in slots && SlotsOk(slots) && SlotsFrom(books, slots)
  }

  /** A holder, its transaction's history and the receiver's slot for it. */
  ghost predicate Pair(books: map<Txid, Book>, id: Txid, t: PendingTxn, slots: Slots)
  {
    Filled(books, id, slots) && Tracks(id, t, books[id])
  }

  /** `fs` delivers, in any order and with any repetition, exactly the frames in `answer`. */
  ghost predicate Delivers(fs: seq<Frame>, answer: seq<Frame>) { forall f :: f in fs <==> f in answer }

  function SeqsOf(fs: seq<Frame>): set<nat> { set f | f in fs :: f.seqNo }

  ghost predicate AllOf(books: map<Txid, Book>, id: Txid, fs: seq<Frame>)
  {
    forall f :: f in fs ==> Genuine(books, f) && f.transactionId == id
  }

  /** One honest frame for an open slot adds exactly its position. */
  lemma {:induction false} DeliverOneHonest(books: map<Txid, Book>, id: Txid, slots: Slots, f: Frame)
    requires Filled(books, id, slots) && Genuine(books, f) && f.transactionId == id
    ensures Filled(books, id, DeliverOne(slots, f))
    ensures DeliverOne(slots, f)[id].frames.Keys == slots[id].frames.Keys + {f.seqNo}
  {
    HonestStore(books, slots, f, false);
    ReceiveOk(slots, id, f.seqNo, f.totalLen, |f.payload|, f.payload, false);
  }

  /** Honest frames, in any order and with any repetition, add exactly their positions. */
  lemma {:induction false} DeliverAllHonest(books: map<Txid, Book>, id: Txid, slots: Slots, fs: seq<Frame>)
    requires Filled(books, id, slots) && AllOf(books, id, fs)
    ensures Filled(books, id, DeliverAll(slots, fs))
    ensures DeliverAll(slots, fs)[id].frames.Keys == slots[id].frames.Keys + SeqsOf(fs)
  {
    if fs != [] {
      var n := |fs| - 1;
      DeliverAllHonest(books, id, slots, fs[..n]) by { Snoc(books, id, fs); }
      DeliverSnoc(books, id, slots, fs);
    }
  }

  lemma {:induction false} DeliverSnoc(books: map<Txid, Book>, id: Txid, slots: Slots, fs: seq<Frame>)
    requires fs != [] && AllOf(books, id, fs) && id in slots && Filled(books, id, DeliverAll(slots, fs[..|fs| - 1]))
    requires DeliverAll(slots, fs[..|fs| - 1])[id].frames.Keys == slots[id].frames.Keys + SeqsOf(fs[..|fs| - 1])
    ensures Filled(books, id, DeliverAll(slots, fs))
    ensures DeliverAll(slots, fs)[id].frames.Keys == slots[id].frames.Keys + SeqsOf(fs)
  {
    Snoc(books, id, fs);
    DeliverOneHonest(books, id, DeliverAll(slots, fs[..|fs| - 1]), fs[|fs| - 1]);
  }

  lemma {:induction false} Snoc(books: map<Txid, Book>, id: Txid, fs: seq<Frame>)
    requires fs != [] && AllOf(books, id, fs)
    ensures AllOf(books, id, fs[..|fs| - 1]) && Genuine(books, fs[|fs| - 1]) && fs[|fs| - 1].transactionId == id
    ensures SeqsOf(fs) == SeqsOf(fs[..|fs| - 1]) + {fs[|fs| - 1].seqNo}
  {
    var n := |fs| - 1;
    assert fs == fs[..n] + [fs[n]];
    assert forall f :: f in fs <==> f in fs[..n] || f == fs[n];
  }

  /** The prefix covers `top` exactly when no position up to `top` is missing. */
  lemma {:induction false} PrefixCovers(u: Slot, top: nat)
    requires SlotOk(u)
    ensures PrefixEnd(u) > top <==> forall k :: 0 <= k <= top ==> k in u.frames
  {
  }

  // ---------------------------------------------------------------------------------------------
  // Repair after a NACK

  lemma {:induction false} NackAnswer(t: PendingTxn, missing: seq<nat>, k: nat)
    requires Shape(t) && k in missing && Answers(t, k)
    ensures t.frames[k].Some? && t.frames[k].value in NackedFrames(t, missing)
  {
    var n := |missing| - 1;
    if k != missing[n] { NackAnswer(t, missing[..n], k); }
  }

  /** The answer holds exactly the listed frames that are still unconfirmed. */
  lemma {:induction false} NackAnswerExact(id: Txid, t: PendingTxn, b: Book, missing: seq<nat>, f: Frame)
    requires Tracks(id, t, b)
    ensures f in NackedFrames(t, missing) <==> f.seqNo in missing && Answers(t, f.seqNo) && f == FrameOf(id, b, f.seqNo)
  {
    if f in NackedFrames(t, missing) {
      var i := NackedMember(t, missing, f);
    } else if f.seqNo in missing && Answers(t, f.seqNo) && f == FrameOf(id, b, f.seqNo) {
      NackAnswer(t, missing, f.seqNo);
    }
  }

  predicate HolderConfirmed(t: PendingTxn, k: nat) { k < |t.states| && t.states[k].confirmed }

  /** The slot's positions after delivering the answer: the stored ones and the unconfirmed gaps. */
  lemma {:induction false} NackDelivered(books: map<Txid, Book>, id: Txid, t: PendingTxn, slots: Slots, fs: seq<Frame>,
          missing: seq<nat>)
    requires Pair(books, id, t, slots) && Delivers(fs, NackedFrames(t, missing))
    ensures AllOf(books, id, fs)
    ensures forall k :: k in SeqsOf(fs) <==> k in missing && Answers(t, k)
  {
    var b := books[id];
    forall f | f in fs ensures Genuine(books, f) && f.transactionId == id && f.seqNo in missing && Answers(t, f.seqNo) {
      NackAnswerExact(id, t, b, missing, f);
    }
    forall k | k in missing && Answers(t, k) ensures k in SeqsOf(fs) {
      NackAnswerExact(id, t, b, missing, FrameOf(id, b, k));
      assert FrameOf(id, b, k) in fs;
    }
  }

  lemma {:induction false} AllGapsExact(s: Slot, k: nat)
    requires SlotOk(s) && s.frames != map[]
    ensures k in AllGaps(s) <==> k < Highest(s.frames) && k !in s.frames
  {
    GapsExact(s.frames, PrefixEnd(s), Highest(s.frames), k);
  }

  /**
   Gap repair, exactly: delivering the answer to an untruncated gap list, in any order, lifts the prefix past
   the highest stored frame if and only if the holder has confirmed nothing the slot is missing.
   */
  lemma {:induction false} NackRepairs(books: map<Txid, Book>, id: Txid, t: PendingTxn, slots: Slots, fs: seq<Frame>)
    requires Pair(books, id, t, slots) && slots[id].frames != map[]
    requires Delivers(fs, NackedFrames(t, AllGaps(slots[id])))
    ensures id in DeliverAll(slots, fs)
    ensures PrefixEnd(DeliverAll(slots, fs)[id]) > Highest(slots[id].frames)
            <==> forall k :: k in AllGaps(slots[id]) ==> !HolderConfirmed(t, k)
  {
    var s := slots[id];
    NackDelivered(books, id, t, slots, fs, AllGaps(s));
    DeliverAllHonest(books, id, slots, fs);
    var u := DeliverAll(slots, fs)[id];
    assert SlotOk(s) && SlotOk(u) && SlotFrom(books, id, s);
    assert Highest(s.frames) < |t.states|;
    ClosedExactly(t, s, u, SeqsOf(fs));
  }

  lemma {:induction false} ClosedExactly(t: PendingTxn, s: Slot, u: Slot, arrived: set<nat>)
    requires SlotOk(s) && SlotOk(u) && s.frames != map[] && Highest(s.frames) < |t.states|
    requires u.frames.Keys == s.frames.Keys + arrived
    requires forall k :: k in arrived <==> k in AllGaps(s) && Answers(t, k)
    ensures PrefixEnd(u) > Highest(s.frames) <==> forall k :: k in AllGaps(s) ==> !HolderConfirmed(t, k)
  {
    var top := Highest(s.frames);
    forall k: nat ensures k in AllGaps(s) <==> k < top && k !in s.frames { AllGapsExact(s, k); }
    PrefixCovers(u, top);
    forall k | 0 <= k <= top ensures k in u.frames <==> k in s.frames || !HolderConfirmed(t, k) {
      assert k in u.frames.Keys <==> k in s.frames.Keys || k in arrived;
    }
  }

  // ---------------------------------------------------------------------------------------------
  // Repair after a `Resumed` verdict

  lemma {:induction false} ResentComplete(t: PendingTxn, n: nat, k: nat)
    requires Shape(t) && k < n <= |t.frames| && !t.states[k].confirmed
    ensures t.frames[k].Some? && t.frames[k].value in ResentFrames(Unconfirmed, t, n)
  {
    if k < n - 1 { ResentComplete(t, n - 1, k); }
  }

  lemma {:induction false} ResentDelivered(books: map<Txid, Book>, id: Txid, t: PendingTxn, slots: Slots,
          fs: seq<Frame>)
    requires Pair(books, id, t, slots) && Delivers(fs, ResentFrames(Unconfirmed, t, |t.frames|))
    ensures AllOf(books, id, fs)
    ensures forall k: nat :: k in SeqsOf(fs) <==> k < |t.states| && !t.states[k].confirmed
  {
    forall f | f in fs
      ensures Genuine(books, f) && f.transactionId == id && f.seqNo < |t.states| && !t.states[f.seqNo].confirmed
    {
      var i := ResentMember(Unconfirmed, t, |t.frames|, f);
    }
    forall k: nat | k < |t.states| && !t.states[k].confirmed ensures k in SeqsOf(fs) {
      ResentComplete(t, |t.frames|, k);
      assert t.frames[k].value in fs;
    }
  }

  /** A slot that holds every piece of a fully written payload is complete. */
  lemma {:induction false} AllPiecesComplete(books: map<Txid, Book>, id: Txid, s: Slot)
    requires id in books && BookOk(books[id]) && SlotOk(s) && SlotFrom(books, id, s) && Whole(books[id])
    requires forall k :: 0 <= k < |books[id].pieces| ==> k in s.frames
    ensures IsComplete(s)
  {
    var b := books[id];
    var n := |b.pieces|;
    assert Bounded(s.frames, n);
    StoredAgainst(s.frames, b.pieces, n);
    assert b.pieces[..n] == b.pieces;
    assert n > 0;
    assert 0 in s.frames;
  }

  /**
   Resume repair, exactly: delivering every frame a `Resumed` verdict retransmits, in any order, completes a
   fully sent payload if and only if the slot holds every frame the holder has confirmed.
   */
  lemma {:induction false} ResumeRepairs(books: map<Txid, Book>, id: Txid, t: PendingTxn, slots: Slots, fs: seq<Frame>)
    requires Pair(books, id, t, slots) && IsFullySent(t)
    requires Delivers(fs, ResentFrames(Unconfirmed, t, |t.frames|))
    ensures id in DeliverAll(slots, fs)
    ensures IsComplete(DeliverAll(slots, fs)[id]) <==> forall k :: HolderConfirmed(t, k) ==> k in slots[id].frames
  {
    var b := books[id];
    ResentDelivered(books, id, t, slots, fs);
    DeliverAllHonest(books, id, slots, fs);
    var u := DeliverAll(slots, fs)[id];
    assert SlotOk(u) && SlotFrom(books, id, u);
    assert Whole(b);
    if IsComplete(u) {
      CompleteIsWhole(books, id, u);
      forall k | HolderConfirmed(t, k) ensures k in slots[id].frames { assert k in u.frames; }
    } else if forall k :: HolderConfirmed(t, k) ==> k in slots[id].frames {
      forall k | 0 <= k < |b.pieces| ensures k in u.frames { }
      AllPiecesComplete(books, id, u);
      assert false;
    }
  }
}
