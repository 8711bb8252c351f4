/**
 COMPLETED announcements on one in-order connection (src/transfer/inbound.rs:281-325, src/session/egress.rs:71-222).
 The holder submits a payload's frames and then its COMPLETED on the data channel; because the wire keeps that
 order, the receiver never sees the announcement before the last frame, so it never ends a stream as incomplete.
 */
module Announcement {
  import opened Prelude
  import opened Frames
  import opened Retention
  import opened Reassembly
  import opened Streams
  import opened Inbound
  import opened StreamTable
  import opened Link
  import Repair
  import Confirmation
  import Egress

  /** Inputs that carry neither a frame nor the COMPLETED of `id`; anything may still drop its slot. */
  predicate Neutral(i: Input, id: Txid)
  {
    match i
    case Data(f) => f.transactionId != id
    case CompletedFor(j) => j != id
    case _ => true
  }

  /** The inputs about `id`, in order. */
  function About(inputs: seq<Input>, id: Txid): seq<Input>
  {
    if inputs == [] then []
    else
      var rest := About(inputs[..|inputs| - 1], id);
      var i := inputs[|inputs| - 1];
      if Neutral(i, id) then rest else rest + [i]
  }

  /** The first `k` frames of the payload in `b`, as inputs. */
  function FrameInputs(b: Book, id: Txid, k: nat): seq<Input>
    requires k <= |b.pieces|
  {
    seq(k, i requires 0 <= i < k => Data(FrameOf(id, b, i)))
  }

  /** A payload that was written out completely. */
  ghost predicate Payload(b: Book) { BookOk(b) && Whole(b) && b.pieces != [] }

  /** The receiver after the first `k` frames of `id`, in order: a slot it has open holds exactly those. */
  ghost predicate Holds(ib: Inbox, b: Book, id: Txid, k: nat)
  {
    if k == 0 then id !in ib.slots
    else if k < |b.pieces| then
      id in ib.slots ==>
        SlotFrom(map[id := b], id, ib.slots[id]) && (forall i :: i in ib.slots[id].frames <==> 0 <= i < k)
    else id in ib.slots ==> IsComplete(ib.slots[id])
  }

  /** A neutral input leaves the slot of `id` alone, or drops it. */
  ghost predicate Spares(ib: Inbox, u: Inbox, id: Txid)
  {
    id in u.slots ==> id in ib.slots && u.slots[id] == ib.slots[id]
  }

  lemma {:induction false} EndingSpares(ib: Inbox, j: Txid, id: Txid, s: StreamState)
    ensures Spares(ib, Discard(Ended(ib, j, s), j), id) && Spares(ib, Ended(ib, j, s), id)
  {
  }

  lemma {:induction false} CompletedSpares(ib: Inbox, j: Txid, id: Txid)
    ensures Spares(ib, OnCompleted(ib, j), id)
  {
    EndingSpares(ib, j, id, Complete);
  }

  lemma {:induction false} DeliveredSpares(ib: Inbox, j: Txid, id: Txid)
    ensures Spares(ib, Delivered(ib, j), id)
  {
  }

  lemma {:induction false} SettledSpares(ib: Inbox, j: Txid, id: Txid)
    ensures Spares(ib, Settled(ib, j), id)
  {
    EndingSpares(ib, j, id, Complete);
    DeliveredSpares(ib, j, id);
  }

  lemma {:induction false} LandedSpares(ib: Inbox, f: Frame, id: Txid)
    requires f.transactionId != id
    ensures Spares(ib, Landed(ib, f), id)
  {
    Confirmation.ReceiveOthers(ib.slots, f, ib.streamHandler, id);
  }

  lemma {:induction false} DataSpares(ib: Inbox, f: Frame, id: Txid)
    requires f.transactionId != id
    ensures Spares(ib, OnData(ib, f), id)
  {
    LandedSpares(ib, f, id);
    var r := ReceiveFrame(ib, f).1;
    var u := Landed(ib, f);
    if r.Ok? && r.value.Accepted? {
      var v := Streamed(u, f, OpensStream(ib, f), r.value.emitted);
      assert v.slots == u.slots;
      SettledSpares(v, f.transactionId, id);
    }
  }

  lemma {:induction false} NeutralSpares(ib: Inbox, i: Input, id: Txid)
    requires Neutral(i, id)
    ensures Spares(ib, Handle(ib, i), id)
  {
    match i
    case Data(f) => DataSpares(ib, f, id);
    case AbortFor(j) => EndingSpares(ib, j, id, Cancelled);
    case CompletedFor(j) => CompletedSpares(ib, j, id);
    case ExpiredFor(j) => EndingSpares(ib, j, id, Cancelled);
    case Drain(j) => DeliveredSpares(ib, j, id);
    case _ =>
  }

  /** A slot that holds the first `k` of several frames is incomplete. */
  lemma {:induction false} PartIncomplete(b: Book, id: Txid, s: Slot, k: nat)
    requires Payload(b) && SlotOk(s) && SlotFrom(map[id := b], id, s)
    requires (forall i :: i in s.frames <==> 0 <= i < k) && k < |b.pieces|
    ensures !IsComplete(s)
  {
    assert k !in s.frames;
    if IsComplete(s) { CompleteIsWhole(map[id := b], id, s); }
  }

  /** The part of the slot table about `id`. */
  function Mine(slots: Slots, id: Txid): Slots { if id in slots then map[id := slots[id]] else map[] }

  /** Receiving a frame reads and writes the slot of its own transaction only. */
  lemma {:induction false} ReceiveIsLocal(slots: Slots, f: Frame, emit: bool)
    ensures var (u, r) := Receive(slots, f.transactionId, f.seqNo, f.totalLen, |f.payload|, f.payload, emit);
            var (v, q) := Receive(Mine(slots, f.transactionId), f.transactionId, f.seqNo, f.totalLen, |f.payload|,
                f.payload, emit);
            r == q && Mine(u, f.transactionId) == Mine(v, f.transactionId)
  {
  }

  /** What receiving frame `k` does to a slot that holds the frames before it. */
  lemma {:induction false} StoreNext(slots: Slots, b: Book, id: Txid, k: nat, emit: bool)
    requires Payload(b) && SlotsOk(slots) && SlotsFrom(map[id := b], slots) && k < |b.pieces|
    requires (id in slots <==> 0 < k) && (id in slots ==> forall i :: i in slots[id].frames <==> 0 <= i < k)
    ensures var f := FrameOf(id, b, k);
            var (u, r) := Receive(slots, id, k, b.totalLen, |f.payload|, f.payload, emit);
            && r.Ok? && r.value.Accepted? && id in u && SlotFrom(map[id := b], id, u[id])
            && (forall i :: i in u[id].frames <==> 0 <= i < k + 1)
            && r.value.complete == IsComplete(u[id])
  {
    HonestStore(map[id := b], slots, FrameOf(id, b, k), emit);
  }

  lemma {:induction false} StoreCompletes(slots: Slots, b: Book, id: Txid, k: nat, emit: bool)
    requires Payload(b) && SlotsOk(slots) && SlotsFrom(map[id := b], slots) && k < |b.pieces|
    requires (id in slots <==> 0 < k) && (id in slots ==> forall i :: i in slots[id].frames <==> 0 <= i < k)
    ensures var u := Receive(slots, id, k, b.totalLen, |b.pieces[k]|, b.pieces[k], emit).0;
            id in u && (IsComplete(u[id]) <==> k + 1 == |b.pieces|)
  {
    StoreNext(slots, b, id, k, emit);
    ReceiveOk(slots, id, k, b.totalLen, |b.pieces[k]|, b.pieces[k], emit);
    var u := Receive(slots, id, k, b.totalLen, |b.pieces[k]|, b.pieces[k], emit).0[id];
    if k + 1 == |b.pieces| { Repair.AllPiecesComplete(map[id := b], id, u); } else { PartIncomplete(b, id, u, k + 1); }
  }

  /** The same for the whole table. */
  lemma {:induction false} ReceiveNext(ib: Inbox, b: Book, id: Txid, k: nat)
    requires Payload(b) && SlotsOk(ib.slots) && k < |b.pieces| && Holds(ib, b, id, k) && (0 < k ==> id in ib.slots)
    ensures var (u, r) := ReceiveFrame(ib, FrameOf(id, b, k));
            && r.Ok? && r.value.Accepted? && id in u && SlotFrom(map[id := b], id, u[id])
            && (forall i :: i in u[id].frames <==> 0 <= i < k + 1)
            && r.value.complete == IsComplete(u[id]) == (k + 1 == |b.pieces|)
  {
    var mine := Mine(ib.slots, id);
    var f := FrameOf(id, b, k);
    ReceiveIsLocal(ib.slots, f, ib.streamHandler);
    StoreNext(mine, b, id, k, ib.streamHandler);
    StoreCompletes(mine, b, id, k, ib.streamHandler);
    var u, v := ReceiveFrame(ib, f).0, Receive(mine, id, k, f.totalLen, |f.payload|, f.payload, ib.streamHandler).0;
    assert id in Mine(v, id) && Mine(u, id)[id] == Mine(v, id)[id];
  }

  /** A later frame without a slot is dropped; any other is stored in its place. */
  lemma {:induction false} NextHolds(ib: Inbox, b: Book, id: Txid, k: nat)
    requires Payload(b) && RestOk(ib) && k < |b.pieces| && Holds(ib, b, id, k)
    ensures Holds(OnData(ib, FrameOf(id, b, k)), b, id, k + 1)
  {
    var f := FrameOf(id, b, k);
    if 0 < k && id !in ib.slots {
      assert ReceiveFrame(ib, f) == (ib.slots, Ok(SlotlessDropped));
    } else {
      ReceiveNext(ib, b, id, k);
      var r := ReceiveFrame(ib, f).1;
      var u := Landed(ib, f);
      assert u.slots == ReceiveFrame(ib, f).0;
      var v := Streamed(u, f, OpensStream(ib, f), r.value.emitted);
      assert v.slots == u.slots;
    }
  }

  /** In-order reception: after inputs whose part about `id` is its first `k` frames, the slot holds those. */
  lemma {:induction false} InOrderHolds(ib: Inbox, inputs: seq<Input>, b: Book, id: Txid, k: nat)
    requires Payload(b) && RestOk(ib) && id !in ib.slots && k <= |b.pieces|
    requires About(inputs, id) == FrameInputs(b, id, k)
    ensures Holds(HandleAll(ib, inputs), b, id, k)
  {
    if inputs != [] {
      var before, i := inputs[..|inputs| - 1], inputs[|inputs| - 1];
      RunRest(ib, before);
      if Neutral(i, id) {
        InOrderHolds(ib, before, b, id, k);
        var v := HandleAll(ib, before);
        NeutralSpares(v, i, id);
      } else {
        assert FrameInputs(b, id, k)[..k - 1] == FrameInputs(b, id, k - 1);
        assert About(inputs, id)[..k - 1] == About(before, id);
        assert i == About(inputs, id)[k - 1] == Data(FrameOf(id, b, k - 1));
        InOrderHolds(ib, before, b, id, k - 1);
        NextHolds(HandleAll(ib, before), b, id, k - 1);
      }
    }
  }

  // ---------------------------------------------------------------------------------------------
  // Across the egress queues

  function Values(wire: seq<(Egress.Channel, Input)>): seq<Input>
  {
    seq(|wire|, i requires 0 <= i < |wire| => wire[i].1)
  }

  /** Data frames and COMPLETED travel the data channel; the control channel carries everything else. */
  ghost predicate ControlNeutral(wire: seq<(Egress.Channel, Input)>, id: Txid)
  {
    forall i :: 0 <= i < |wire| && wire[i].0 == Egress.ControlChannel ==> Neutral(wire[i].1, id)
  }

  /** Control frames that are neutral for `id` do not matter to it. */
  lemma {:induction false} OnlyDataMatters(wire: seq<(Egress.Channel, Input)>, id: Txid)
    requires ControlNeutral(wire, id)
    ensures About(Values(wire), id) == About(Egress.Written(wire, Egress.DataChannel), id)
  {
    if wire != [] {
      var n := |wire| - 1;
      OnlyDataMatters(wire[..n], id);
      assert Values(wire)[..n] == Values(wire[..n]);
      var out, now := Egress.Written(wire[..n], Egress.DataChannel), Egress.Written(wire, Egress.DataChannel);
      if wire[n].0 == Egress.DataChannel { assert now[..|now| - 1] == out; }
    }
  }

  lemma {:induction false} AboutPrefix(inputs: seq<Input>, n: nat, id: Txid)
    requires n <= |inputs|
    ensures About(inputs[..n], id) <= About(inputs, id)
    ensures n < |inputs| && !Neutral(inputs[n], id) ==> About(inputs[..n], id) + [inputs[n]] <= About(inputs, id)
    decreases |inputs|
  {
    if n < |inputs| {
      var m := |inputs| - 1;
      if n < m {
        AboutPrefix(inputs[..m], n, id);
        assert inputs[..m][..n] == inputs[..n];
      }
    } else {
      assert inputs[..n] == inputs;
    }
  }

  /** Everything submitted about `id`: its frames in order, then its COMPLETED. */
  ghost predicate AnnouncedAfter(submitted: seq<Input>, b: Book, id: Txid)
  {
    About(submitted, id) == FrameInputs(b, id, |b.pieces|) + [CompletedFor(id)]
  }

  /** The part of the submissions before the COMPLETED is exactly the frames. */
  lemma {:induction false} FramesFirst(submitted: seq<Input>, n: nat, b: Book, id: Txid)
    requires AnnouncedAfter(submitted, b, id) && n < |submitted| && submitted[n] == CompletedFor(id)
    ensures About(submitted[..n], id) == FrameInputs(b, id, |b.pieces|)
  {
    AboutPrefix(submitted, n, id);
    var front, all := About(submitted[..n], id), About(submitted, id);
    assert forall i :: 0 <= i < |b.pieces| ==> all[i].Data?;
    assert all[|front|] == (front + [submitted[n]])[|front|] == CompletedFor(id);
    assert front == all[..|front|];
  }

  /** The data frames submitted before the first `Close`. */
  function Offered(items: seq<Egress.Item<Input>>): seq<Input>
  {
    if items == [] || items[0].Close? then [] else [items[0].value] + Offered(items[1..])
  }

  lemma {:induction false} OfferedHolds(items: seq<Egress.Item<Input>>, out: seq<Input>)
    requires |out| <= |items| && forall i :: 0 <= i < |out| ==> items[i] == Egress.Payload(out[i])
    ensures out <= Offered(items)
  {
    if out != [] { OfferedHolds(items[1..], out[1..]); }
  }

  /**
   FIFO keeps completions honest. A holder submits a whole payload and then its COMPLETED on the data channel, with
   any senders, control frames, write failures and shutdown interleaved. The receiver handles what the wire carried
   before the COMPLETED, with any other inputs in between: declarations, aborts, expiries, drains, link changes.
   Then the COMPLETED finds the slot complete or gone, so it changes nothing and ends no stream as incomplete.
   */
  lemma {:induction false} CompletedIsHonest(
    ib: Inbox, moves: seq<Egress.Move<Input>>, b: Book, id: Txid, j: nat, inputs: seq<Input>)
    requires Payload(b) && RestOk(ib) && id !in ib.slots
    requires AnnouncedAfter(Offered(Egress.Run(moves).submitted), b, id)
    requires ControlNeutral(Egress.Run(moves).wire, id)
    requires j < |Egress.Run(moves).wire| && Egress.Run(moves).wire[j].1 == CompletedFor(id)
    requires About(inputs, id) == About(Values(Egress.Run(moves).wire[..j]), id)
    ensures var u := HandleAll(ib, inputs);
            && (id in u.slots ==> IsComplete(u.slots[id]))
            && OnCompleted(u, id) == u
  {
    var wire := Egress.Run(moves).wire;
    var out := Egress.Written(wire, Egress.DataChannel);
    var n := |Egress.Written(wire[..j], Egress.DataChannel)|;
    Egress.WireIsFifo(moves);
    OfferedHolds(Egress.Run(moves).submitted, out);
    var submitted := Offered(Egress.Run(moves).submitted);
    WrittenSplit(wire, j);
    assert submitted[..n] == Egress.Written(wire[..j], Egress.DataChannel) && submitted[n] == CompletedFor(id);
    FramesFirst(submitted, n, b, id);
    OnlyDataMatters(wire[..j], id);
    InOrderHolds(ib, inputs, b, id, |b.pieces|);
    RunRest(ib, inputs);
  }

  lemma {:induction false} WrittenSplit(wire: seq<(Egress.Channel, Input)>, j: nat)
    requires j <= |wire|
    ensures Egress.Written(wire[..j], Egress.DataChannel) <= Egress.Written(wire, Egress.DataChannel)
    ensures j < |wire| && wire[j].0 == Egress.DataChannel ==>
              Egress.Written(wire[..j], Egress.DataChannel) + [wire[j].1] <= Egress.Written(wire, Egress.DataChannel)
    decreases |wire|
  {
    if j < |wire| {
      var m := |wire| - 1;
      if j < m {
        WrittenSplit(wire[..m], j);
        assert wire[..m][..j] == wire[..j];
      }
    } else {
      assert wire[..j] == wire;
    }
  }
}
