/**
 A run in which confirmation outruns reception: no terminal trace is kept (src/reliability/reassemble.rs:116-124), so
 after a partial re-declaration has dropped a live slot (src/reliability/transaction.rs:636-656,
 src/transfer/inbound.rs:474-489) a duplicate first frame opens another one, which lacks frames the holder has
 confirmed and released.
 */
module Reopening {
  import opened Prelude
  import opened Frames
  import opened Sender
  import opened Retention
  import opened SenderRuns
  import opened Reassembly
  import opened Inbound
  import opened Link
  import opened LinkRuns
  import opened Watermark
  import opened Repair
  import opened Confirmation

  const CFG := SenderConfig(1, 100, 1000, 10)

  /** The verdict timeout. */
  const TIMEOUT: nat := 5000

  function F(id: Txid, k: nat): Frame { Frame(DataBinary, id, 3, k, if k == 0 then [7] else [8]) }

  /** The other transaction: declared at instant 0, its verdict never arrives. */
  function Waiting(declared: nat): PendingTxn { Gated(Opened(1, 0), declared) }

  /** Two of three bytes written, two frames out. */
  function Sent2(id: Txid): PendingTxn
  {
    var s := FrameState(false, 0, 0);
    PendingTxn(3, [Some(F(id, 0)), Some(F(id, 1))], [s, s], [], 2, 2, false, false, None, None, 0, 0)
  }

  /** The first ACK has confirmed and released both frames. */
  function Confirmed2(id: Txid): PendingTxn { Acked(Sent2(id), AckEntry(id, 1, 2), 0) }

  function Both(id: Txid, t: PendingTxn, other: Txid, o: PendingTxn): Pending { map[other := o, id := t] }

  /** What the holder and the receiver do, in order. */
  function Story(id: Txid, other: Txid): seq<Action>
  {
    [Holder(Opens(other, 1, 0)), Holder(Declares(0)), Holder(Opens(id, 3, 0)), Holder(Appends(id, [7, 8], 0)),
     Deliver(F(id, 0)), Deliver(F(id, 1)), Export(id), Holder(Acks(AckEntry(id, 1, 2), 0)),
     Holder(Redeclares(TIMEOUT, TIMEOUT)), Other(ResumeFor([AckEntry(other, 0, 0)])), Deliver(F(id, 0))]
  }

  // ---------------------------------------------------------------------------------------------
  // The holder's operations

  lemma {:induction false} CutsTwo(id: Txid)
    ensures Cut(Buffered(Opened(3, 0), [7, 8]), id, 1, 0) == Sent2(id)
  {
    var t := Buffered(Opened(3, 0), [7, 8]);
    var u := Push(t, id, 1, 0);
    assert t.partial[..1] == [7] && u.partial == [8];
    var v := Push(u, id, 1, 0);
    assert u.partial[..1] == [8] && v.partial == [];
    assert Cut(v, id, 1, 0) == v;
  }

  lemma {:induction false} EmptyTotal(id: Txid, other: Txid)
    requires other != id
    ensures Total(Both(id, Opened(3, 0), other, Waiting(0))) == 0
  {
    var none: Pending := map[];
    var one: Pending := map[other := Waiting(0)];
    SumEmpty();
    TotalPut(none, other, Waiting(0));
    assert none[other := Waiting(0)] == one && none - {other} == none;
    TotalPut(one, id, Opened(3, 0));
    assert one[id := Opened(3, 0)] == Both(id, Opened(3, 0), other, Waiting(0)) && one - {id} == one;
  }

  lemma {:induction false} AppendsTwo(id: Txid, other: Txid)
    requires other != id
    ensures Append(CFG, Both(id, Opened(3, 0), other, Waiting(0)), id, [7, 8], 0)
            == (Both(id, Sent2(id), other, Waiting(0)), Ok([F(id, 0), F(id, 1)]))
  {
    EmptyTotal(id, other);
    CutsTwo(id);
    var fs := Sent2(id).frames;
    assert CopiesFrom(fs, 2) == [];
    assert CopiesFrom(fs, 1) == [F(id, 1)];
    assert CopiesFrom(fs, 0) == [F(id, 0), F(id, 1)];
    assert Both(id, Opened(3, 0), other, Waiting(0))[id := Sent2(id)] == Both(id, Sent2(id), other, Waiting(0));
  }

  lemma {:induction false} AckConfirms(id: Txid, other: Txid)
    requires other != id
    ensures HandleAck(Both(id, Sent2(id), other, Waiting(0)), AckEntry(id, 1, 2), 0)
            == (Both(id, Confirmed2(id), other, Waiting(0)), false)
  {
    assert !IsFullyAcked(Confirmed2(id));
    assert Both(id, Sent2(id), other, Waiting(0))[id := Confirmed2(id)] == Both(id, Confirmed2(id), other, Waiting(0));
  }

  /** Only the other transaction has timed out, so the holder declares it alone. */
  lemma {:induction false} RedeclaresOne(id: Txid, other: Txid)
    requires other != id
    ensures var p := Both(id, Confirmed2(id), other, Waiting(0));
            && Lists(p, Late(p, TIMEOUT, TIMEOUT), [AckEntry(other, 0, 0)])
            && Redeclare(p, TIMEOUT, TIMEOUT) == Both(id, Confirmed2(id), other, Waiting(TIMEOUT))
  {
    var p := Both(id, Confirmed2(id), other, Waiting(0));
    assert Late(p, TIMEOUT, TIMEOUT) == {other};
    assert [AckEntry(other, 0, 0)][0].transactionId == other;
  }

  // ---------------------------------------------------------------------------------------------
  // The receiver

  function One(): Slot { Slot(3, map[0 := [7]], 1, 1, Some(0)) }

  function Two(): Slot { Slot(3, map[0 := [7], 1 := [8]], 2, 2, Some(1)) }

  /** An inbox without handlers that holds one slot of incarnation `n`. */
  function Holding(id: Txid, s: Slot, ledger: seq<Incarnation>, n: nat): Inbox
  {
    EMPTY.(slots := map[id := s], ledger := ledger, births := map[id := n])
  }

  lemma {:induction false} FirstStored()
    ensures Stored1(EmptySlot(3), 0, [7]) == One() && Stored1(One(), 1, [8]) == Two()
  {
    assert FirstGap(One().frames, 0) == 1;
    assert FirstGap(Two().frames, 1) == 2;
  }

  lemma {:induction false} OpensSlot(id: Txid, ib: Inbox)
    requires ib == EMPTY.(ledger := ib.ledger)
    ensures Handle(ib, Data(F(id, 0))) == Holding(id, One(), ib.ledger + [Incarnation(id, Nowhere)], |ib.ledger|)
  {
    FirstStored();
    var slots: Slots := map[];
    assert slots[id := One()] == map[id := One()];
  }

  lemma {:induction false} AddsFrame(id: Txid, ledger: seq<Incarnation>)
    ensures Handle(Holding(id, One(), ledger, 0), Data(F(id, 1))) == Holding(id, Two(), ledger, 0)
  {
    FirstStored();
    var ib := Holding(id, One(), ledger, 0);
    assert map[id := One()][id := Two()] == map[id := Two()];
    assert ReceiveFrame(ib, F(id, 1)) == (map[id := Two()], Ok(Accepted(false, [])));
    assert Landed(ib, F(id, 1)) == Holding(id, Two(), ledger, 0);
  }

  lemma {:induction false} DropsSlot(id: Txid, other: Txid, ledger: seq<Incarnation>)
    requires other != id
    ensures Handle(Holding(id, Two(), ledger, 0), ResumeFor([AckEntry(other, 0, 0)])) == EMPTY.(ledger := ledger)
  {
    var ib, entries := Holding(id, Two(), ledger, 0), [AckEntry(other, 0, 0)];
    assert Abandoned(ib.slots, entries) == {id};
    var u := CancelAll(ib, {id});
    assert u.slots == map[] && u.births == map[] && u.streams == map[] && u.streamOwned == {} && u.objects == [];
  }

  // ---------------------------------------------------------------------------------------------
  // The run

  ghost function AtStep(id: Txid, other: Txid, n: nat): World
    requires n <= |Story(id, other)|
  {
    Run(CFG, Story(id, other)[..n])
  }

  lemma {:induction false} Prefix(id: Txid, other: Txid, n: nat)
    requires n < |Story(id, other)|
    ensures AtStep(id, other, n + 1) == Next(CFG, AtStep(id, other, n), Story(id, other)[n])
  {
    assert Story(id, other)[..n + 1][..n] == Story(id, other)[..n];
  }

  ghost predicate Stands(w: World, p: Pending, rx: Inbox) { w.tx.pending == p && w.rx == rx }

  ghost predicate Sent(w: World, id: Txid) { F(id, 0) in w.net && F(id, 1) in w.net }

  lemma {:induction false} OpensOther(id: Txid, other: Txid)
    ensures var w := AtStep(id, other, 1); Stands(w, map[other := Opened(1, 0)], EMPTY) && w.tx.books.Keys == {other}
  {
    Prefix(id, other, 0);
    assert Story(id, other)[..0] == [];
  }

  lemma {:induction false} Gates(id: Txid, other: Txid)
    ensures var w := AtStep(id, other, 2); Stands(w, map[other := Waiting(0)], EMPTY) && w.tx.books.Keys == {other}
  {
    OpensOther(id, other);
    Prefix(id, other, 1);
    var p: Pending := map[other := Opened(1, 0)];
    assert DeclarePending(p, 0) == map[other := Waiting(0)];
  }

  lemma {:induction false} Begins(id: Txid, other: Txid)
    requires other != id
    ensures Stands(AtStep(id, other, 3), Both(id, Opened(3, 0), other, Waiting(0)), EMPTY)
  {
    Gates(id, other);
    Prefix(id, other, 2);
    var p: Pending := map[other := Waiting(0)];
    assert p[id := Opened(3, 0)] == Both(id, Opened(3, 0), other, Waiting(0));
  }

  lemma {:induction false} Writes(id: Txid, other: Txid)
    requires other != id
    ensures Stands(AtStep(id, other, 4), Both(id, Sent2(id), other, Waiting(0)), EMPTY)
            && Sent(AtStep(id, other, 4), id)
  {
    Begins(id, other);
    Prefix(id, other, 3);
    AppendsTwo(id, other);
    var p, e := Both(id, Opened(3, 0), other, Waiting(0)), Appends(id, [7, 8], 0);
    assert Emits(CFG, p, e, F(id, 0)) && Emits(CFG, p, e, F(id, 1));
  }

  /** A delivered frame changes the receiver only. */
  lemma {:induction false} DeliverStep(w: World, f: Frame)
    requires f in w.net
    ensures var u := Next(CFG, w, Deliver(f)); u.tx == w.tx && u.net == w.net && u.rx == Handle(w.rx, Data(f))
  {
  }

  lemma {:induction false} ReceivesOne(id: Txid, other: Txid)
    requires other != id
    ensures Stands(AtStep(id, other, 5), Both(id, Sent2(id), other, Waiting(0)),
            Holding(id, One(), [Incarnation(id, Nowhere)], 0))
    ensures Sent(AtStep(id, other, 5), id)
  {
    Writes(id, other);
    Prefix(id, other, 4);
    DeliverStep(AtStep(id, other, 4), F(id, 0));
    OpensSlot(id, EMPTY);
    assert [] + [Incarnation(id, Nowhere)] == [Incarnation(id, Nowhere)];
  }

  lemma {:induction false} Receives(id: Txid, other: Txid)
    requires other != id
    ensures Stands(AtStep(id, other, 6), Both(id, Sent2(id), other, Waiting(0)),
            Holding(id, Two(), [Incarnation(id, Nowhere)], 0))
    ensures Sent(AtStep(id, other, 6), id)
  {
    ReceivesOne(id, other);
    Prefix(id, other, 5);
    DeliverStep(AtStep(id, other, 5), F(id, 1));
    AddsFrame(id, [Incarnation(id, Nowhere)]);
  }

  lemma {:induction false} ExportStep(id: Txid, w: World)
    requires w.rx.slots == map[id := Two()] && w.rx.births == map[id := 0]
    ensures var u := Next(CFG, w, Export(id));
            AckRecord(AckEntry(id, 1, 2), Two(), 0) in u.acks && u == w.(acks := u.acks)
  {
    assert AckFor(w.rx.slots, id) == Some(AckEntry(id, 1, 2));
  }

  lemma {:induction false} AckStep(id: Txid, other: Txid, w: World)
    requires other != id && w.tx.pending == Both(id, Sent2(id), other, Waiting(0))
    requires AckRecord(AckEntry(id, 1, 2), Two(), 0) in w.acks
    ensures var u := Next(CFG, w, Holder(Acks(AckEntry(id, 1, 2), 0)));
            Stands(u, Both(id, Confirmed2(id), other, Waiting(0)), w.rx) && forall f :: f in w.net ==> f in u.net
  {
    AckConfirms(id, other);
    assert CanHold(w, Acks(AckEntry(id, 1, 2), 0));
  }

  lemma {:induction false} Confirms(id: Txid, other: Txid)
    requires other != id
    ensures Stands(AtStep(id, other, 8), Both(id, Confirmed2(id), other, Waiting(0)),
            Holding(id, Two(), [Incarnation(id, Nowhere)], 0))
    ensures Sent(AtStep(id, other, 8), id)
  {
    Receives(id, other);
    Prefix(id, other, 6);
    ExportStep(id, AtStep(id, other, 6));
    Prefix(id, other, 7);
    AckStep(id, other, AtStep(id, other, 7));
  }

  lemma {:induction false} RedeclareStep(id: Txid, other: Txid, w: World)
    requires other != id && w.tx.pending == Both(id, Confirmed2(id), other, Waiting(0))
    ensures var u := Next(CFG, w, Holder(Redeclares(TIMEOUT, TIMEOUT)));
            Stands(u, Both(id, Confirmed2(id), other, Waiting(TIMEOUT)), w.rx) && forall f :: f in w.net ==> f in u.net
  {
    RedeclaresOne(id, other);
  }

  lemma {:induction false} Drops(id: Txid, other: Txid)
    requires other != id
    ensures Stands(AtStep(id, other, 10), Both(id, Confirmed2(id), other, Waiting(TIMEOUT)),
            EMPTY.(ledger := [Incarnation(id, Nowhere)]))
    ensures Sent(AtStep(id, other, 10), id)
  {
    Confirms(id, other);
    Prefix(id, other, 8);
    RedeclareStep(id, other, AtStep(id, other, 8));
    Prefix(id, other, 9);
    DropsSlot(id, other, [Incarnation(id, Nowhere)]);
  }

  /** The declaration in the story is the one the holder makes at that point, and not of `id`. */
  lemma {:induction false} DeclarationIsReal(id: Txid, other: Txid)
    requires other != id
    ensures var p := AtStep(id, other, 8).tx.pending;
            && Story(id, other)[8] == Holder(Redeclares(TIMEOUT, TIMEOUT))
            && Lists(p, Late(p, TIMEOUT, TIMEOUT), Story(id, other)[9].input.entries)
            && id in p && !TimedOut(p[id], TIMEOUT, TIMEOUT)
  {
    Confirms(id, other);
    RedeclaresOne(id, other);
  }

  /**
   In this run frame 1 is confirmed and its copy released, while the open slot, the second of its id, has only frame 0;
   the ACK that confirmed it is the stale one that `StaleInside` excludes.
   */
  lemma {:induction false} ReopenedExample(id: Txid, other: Txid)
    requires other != id
    ensures var w := Run(CFG, Story(id, other));
            && id in w.tx.pending && HolderConfirmed(w.tx.pending[id], 1)
            && |w.tx.pending[id].frames| == 2 && w.tx.pending[id].frames[1].None?
            && id in w.rx.slots && PrefixEnd(w.rx.slots[id]) == 1
            && !StaleInside(w, Heard(CFG, Story(id, other), id), w.rx.slots[id])
  {
    Drops(id, other);
    var ledger := [Incarnation(id, Nowhere)];
    Prefix(id, other, 10);
    DeliverStep(AtStep(id, other, 10), F(id, 0));
    OpensSlot(id, EMPTY.(ledger := ledger));
    assert Story(id, other)[..11] == Story(id, other);
    var w := Run(CFG, Story(id, other));
    assert w.rx == Holding(id, One(), ledger + [Incarnation(id, Nowhere)], 1);
    assert HolderConfirmed(w.tx.pending[id], 1) && !ConfirmedInside(w.tx.pending[id], w.rx.slots[id]);
    ConfirmedWithinPrefix(CFG, Story(id, other), id);
  }
}
