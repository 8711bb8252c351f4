/**
 The receive side of a session as the objects it is made of (src/transfer/inbound.rs, src/reliability/stream.rs,
 src/transfer/clock.rs:115-129): stream objects with their own state, the reassembler, and the tables that the
 inbound handlers update in place. Each handler is proved to compute the function of the same name in `Inbound`.
 */
module SessionState {
  import opened Prelude
  import opened Frames
  import opened Reassembly
  import opened Streams
  import opened Receiver
  import I = Inbound
  import opened Inbound

  /** `handle` and `incarnation` are history: the position in the order of creation, and the slot it was opened for. */
  class StreamInner {
    const txid: Txid
    const totalLen: nat
    ghost const handle: nat
    ghost const incarnation: nat
    var state: StreamState
    var stalled: bool
    var chunks: seq<(nat, Bytes)>
    var gap: (nat, nat)

    constructor (txid: Txid, totalLen: nat, ghost handle: nat, ghost incarnation: nat)
      ensures Value() == Streams.Fresh(txid, totalLen, incarnation) && this.handle == handle
    {
      this.txid, this.totalLen, this.handle, this.incarnation := txid, totalLen, handle, incarnation;
      state, stalled, chunks, gap := Active, false, [], (0, 0);
    }

    ghost function Value(): StreamObject
      reads this
    {
      StreamObject(txid, totalLen, state, stalled, chunks, gap, incarnation)
    }

    method Finish(s: StreamState)
      modifies this
      ensures Value() == Finished(old(Value()), s)
    {
      state := s;
    }

    /** The gap is published before the terminal state. */
    method FinishIncomplete(received: nat, expected: nat)
      modifies this
      ensures Value() == FinishedIncomplete(old(Value()), received, expected)
    {
      gap := (received, expected);
      Finish(Incomplete);
    }

    method SetPaused()
      modifies this
      ensures Value() == Streams.SetPaused(old(Value()))
    {
      if state == Active { state := Paused; }
    }

    method ClearPaused()
      modifies this
      ensures Value() == Streams.ClearPaused(old(Value()))
    {
      if state == Paused { state := Active; }
    }

    method SetStalled()
      modifies this
      ensures Value() == Streams.SetStalled(old(Value()))
    {
      if !IsTerminal(state) { stalled := true; }
    }

    method ClearStalled()
      modifies this
      ensures Value() == Streams.ClearStalled(old(Value()))
    {
      stalled := false;
    }

    method Push(emitted: seq<(nat, Bytes)>)
      modifies this
      ensures Value() == Pushed(old(Value()), emitted)
    {
      var i := 0;
      ghost var before := chunks;
      while i < |emitted|
        invariant 0 <= i <= |emitted| && Value() == old(Value()).(chunks := before + emitted[..i])
      {
        chunks := chunks + [emitted[i]];
        i := i + 1;
      }
      assert emitted[..i] == emitted;
    }

    /** Terminal over stalled over paused over active. */
    method State() returns (s: StreamState)
      ensures s == Reads(Value())
    {
      if IsTerminal(state) { return state; }
      if stalled { return Stalled; }
      s := state;
    }
  }

  /** The history of deliveries grew by exactly the payload handed out, if any. */
  ghost predicate HandedOver(before: seq<Delivery>, after: seq<Delivery>, payload: Option<Bytes>)
  {
    if payload.None? then after == before
    else |after| == |before| + 1 && after[..|before|] == before && after[|before|].payload == payload.value
  }

  class Session {
    const reassembler: TransactionReassembler
    var streams: map<Txid, StreamInner>
    var streamOwned: set<Txid>
    var binaryHandler: bool
    var streamHandler: bool
    ghost var all: seq<StreamInner>
    ghost var ledger: seq<Incarnation>
    ghost var births: map<Txid, nat>
    ghost var delivered: seq<Delivery>

    constructor ()
      ensures Valid() && Value() == EMPTY && fresh(reassembler)
    {
      reassembler := new TransactionReassembler();
      streams, streamOwned, binaryHandler, streamHandler := map[], {}, false, false;
      all, ledger, births, delivered := [], [], map[], [];
    }

    /** Table entries are stream objects of their own id, and `all` numbers every object ever made. */
    ghost predicate Valid()
      reads this
    {
      && (forall h :: 0 <= h < |all| ==> all[h].handle == h)
      && (forall id :: id in streams ==>
            streams[id].handle < |all| && all[streams[id].handle] == streams[id] && streams[id].txid == id)
    }

    ghost function Handles(): map<Txid, nat>
      reads this
    {
      map id | id in streams :: streams[id].handle
    }

    ghost function Objects(): seq<StreamObject>
      reads this, all
    {
      seq(|all|, h requires 0 <= h < |all| reads this, all => all[h].Value())
    }

    ghost function Value(): Inbox
      reads this, all, reassembler
    {
      Inbox(reassembler.slots, Handles(), streamOwned, Objects(), binaryHandler, streamHandler, ledger, births,
          delivered)
    }

    /** Take a stream out of the tables. */
    method Unlist(id: Txid)
      requires Valid()
      modifies this`streams, this`streamOwned
      ensures Valid() && Value() == Unlisted(old(Value()), id)
    {
      streams := streams - {id};
      streamOwned := streamOwned - {id};
      assert Handles() == old(Handles()) - {id};
    }

    /** Give a listed stream object its terminal state. */
    method FinishStream(id: Txid, s: StreamState)
      requires Valid() && id in streams
      modifies all
      ensures Valid() && StreamOf(old(Value()), id).Some?
      ensures Value() == OnStream(old(Value()), id, Finished(StreamOf(old(Value()), id).value, s))
    {
      var x := streams[id];
      x.Finish(s);
      assert Objects() == old(Objects())[x.handle := Finished(old(x.Value()), s)];
    }

    /** The same for a completion whose bytes fell short. */
    method FinishShort(id: Txid, received: nat, expected: nat)
      requires Valid() && id in streams
      modifies all
      ensures Valid() && StreamOf(old(Value()), id).Some?
      ensures Value() == OnStream(old(Value()), id,
              FinishedIncomplete(StreamOf(old(Value()), id).value, received, expected))
    {
      var x := streams[id];
      x.FinishIncomplete(received, expected);
      assert Objects() == old(Objects())[x.handle := FinishedIncomplete(old(x.Value()), received, expected)];
    }

    /** Take a stream out of the tables with a terminal state. */
    method End(id: Txid, s: StreamState)
      requires Valid()
      modifies this, all
      ensures Valid() && all == old(all) && Value() == Ended(old(Value()), id, s)
    {
      if id in streams { FinishStream(id, s); }
      Unlist(id);
    }

    /** Drop the slot. */
    method Drop(id: Txid)
      requires Valid()
      modifies this, reassembler
      ensures Valid() && all == old(all) && streams == old(streams) && Value() == I.Discard(old(Value()), id)
    {
      var _ := reassembler.Discard(id);
      births := births - {id};
    }

    method OnPause(id: Txid)
      requires Valid()
      modifies this, all
      ensures Valid() && Value() == I.OnPause(old(Value()), id)
    {
      if id in streams {
        var x := streams[id];
        x.SetPaused();
        assert Objects() == old(Objects())[x.handle := Streams.SetPaused(old(x.Value()))];
      }
      assert Handles() == old(Handles());
    }

    /** Cancel the stream and drop the slot. */
    method Cancel(id: Txid)
      requires Valid()
      modifies this, all, reassembler
      ensures Valid() && all == old(all) && Value() == I.Discard(Ended(old(Value()), id, Cancelled), id)
    {
      End(id, Cancelled);
      Drop(id);
    }

    method OnAbort(id: Txid)
      requires Valid()
      modifies this, all, reassembler
      ensures Valid() && Value() == I.OnAbort(old(Value()), id)
    {
      Cancel(id);
    }

    method OnCompleted(id: Txid)
      requires Valid()
      modifies this, all, reassembler
      ensures Valid() && Value() == I.OnCompleted(old(Value()), id)
    {
      if id !in reassembler.slots { return; }
      var slot := reassembler.slots[id];
      if IsComplete(slot) {
        if id in streams { End(id, Complete); }
        return;
      }
      if id in streams { FinishShort(id, slot.receivedBytes, slot.totalLen); }
      Unlist(id);
      Drop(id);
    }

    /** Store the frame; a new slot gets the next incarnation number. */
    method Land(f: Frame) returns (r: Result<ReceiveOutcome, ReassemblyError>)
      requires Valid()
      modifies this, reassembler
      ensures Valid() && all == old(all) && streams == old(streams)
      ensures r == I.ReceiveFrame(old(Value()), f).1 && Value() == Landed(old(Value()), f)
    {
      ghost var isNew := f.transactionId !in reassembler.slots;
      r := reassembler.ReceiveFrame(f.transactionId, f.seqNo, f.totalLen, |f.payload|, f.payload, streamHandler);
      if isNew && f.transactionId in reassembler.slots {
        births := births[f.transactionId := |ledger|];
        ledger := ledger + [Incarnation(f.transactionId, Nowhere)];
      }
    }

    /** Enter a new stream object into the tables. */
    method Enlist(x: StreamInner)
      requires Valid() && x.handle == |all|
      modifies this`all, this`streams, this`streamOwned
      ensures Valid() && all == old(all) + [x] && streamOwned == old(streamOwned) + {x.txid}
      ensures Handles() == old(Handles())[x.txid := |old(all)|] && Objects() == old(Objects()) + [x.Value()]
    {
      all := all + [x];
      streams := streams[x.txid := x];
      streamOwned := streamOwned + {x.txid};
    }

    /** A first frame opens a stream object. */
    method OpenStream(f: Frame, emitted: seq<(nat, Bytes)>)
      requires Valid()
      modifies this
      ensures Valid() && Value() == Streamed(old(Value()), f, true, emitted)
      ensures |all| == |old(all)| + 1 && all[..|old(all)|] == old(all) && fresh(all[|old(all)|])
    {
      ghost var n := Birth(Value(), f.transactionId);
      var x := new StreamInner(f.transactionId, f.totalLen, |all|, n);
      x.Push(emitted);
      assert Objects() == old(Objects());
      Enlist(x);
      ledger := Reached(ledger, n, Stream(|old(all)|));
    }

    /** A later frame is pushed into the stream and lifts a pause. */
    method PushInto(f: Frame, emitted: seq<(nat, Bytes)>)
      requires Valid()
      modifies all
      ensures Valid() && Value() == Streamed(old(Value()), f, false, emitted)
    {
      if f.transactionId in streams {
        var x := streams[f.transactionId];
        x.ClearPaused();
        x.Push(emitted);
        assert Objects() == old(Objects())[x.handle := Pushed(Streams.ClearPaused(old(x.Value())), emitted)];
      }
    }

    /** Hand a complete slot to the aggregate surface. */
    method Take(id: Txid) returns (payload: Option<Bytes>)
      requires Valid()
      modifies this, reassembler
      ensures Valid() && all == old(all) && streams == old(streams) && Value() == Delivered(old(Value()), id)
      ensures HandedOver(old(delivered), delivered, payload)
      ensures (reassembler.slots, payload) == TakeCompleted(old(reassembler.slots), id)
    {
      payload := reassembler.TakeCompleted(id);
      if payload.Some? {
        ghost var n := Birth(old(Value()), id);
        ledger := Reached(ledger, n, Aggregate(|delivered|));
        delivered := delivered + [Delivery(n, id, payload.value)];
        births := births - {id};
      }
    }

    /** A complete slot goes to the surface that owns it. */
    method Settle(id: Txid) returns (payload: Option<Bytes>)
      requires Valid() && id in reassembler.slots && IsComplete(reassembler.slots[id])
      modifies this, all, reassembler
      ensures Valid() && Value() == Settled(old(Value()), id)
      ensures HandedOver(old(delivered), delivered, payload)
    {
      if id in streamOwned {
        End(id, Complete);
        var _ := reassembler.TakeCompleted(id);
        births := births - {id};
        return None;
      }
      if binaryHandler {
        payload := Take(id);
      } else {
        payload := None;
      }
    }

    /** What follows an accepted frame; a payload it returns is for the binary handler. */
    method Accept(f: Frame, opens: bool, complete: bool, emitted: seq<(nat, Bytes)>) returns (payload: Option<Bytes>)
      requires Valid()
      requires complete ==> f.transactionId in reassembler.slots && IsComplete(reassembler.slots[f.transactionId])
      modifies this, all, reassembler
      ensures Valid()
      ensures var streamed := Streamed(old(Value()), f, opens, emitted);
              Value() == if complete then Settled(streamed, f.transactionId) else streamed
      ensures HandedOver(old(delivered), delivered, payload)
    {
      payload := None;
      if opens {
        OpenStream(f, emitted);
      } else {
        PushInto(f, emitted);
      }
      if complete { payload := Settle(f.transactionId); }
    }

    method OnData(f: Frame) returns (payload: Option<Bytes>)
      requires Valid()
      modifies this, all, reassembler
      ensures Valid() && Value() == I.OnData(old(Value()), f)
      ensures HandedOver(old(delivered), delivered, payload)
    {
      payload := None;
      var opens := streamHandler && f.seqNo == 0 && f.transactionId !in reassembler.slots;
      var r := Land(f);
      if r.Ok? && r.value.Accepted? {
        payload := Accept(f, opens, r.value.complete, r.value.emitted);
      }
    }

    /** One verdict per declared entry, in order. */
    method Adjudicate(entries: seq<AckEntry>) returns (out: seq<ResumeStatusEntry>)
      ensures out == Verdicts(reassembler.slots, entries)
    {
      out := [];
      var i := 0;
      while i < |entries|
        invariant 0 <= i <= |entries| && out == Verdicts(reassembler.slots, entries[..i])
      {
        var id := entries[i].transactionId;
        var open := id in reassembler.slots && !IsComplete(reassembler.slots[id]);
        out := out + [ResumeStatusEntry(id, if open then Resumed else UnknownTxn)];
        i := i + 1;
      }
      assert entries[..i] == entries;
    }

    /** The declared-or-abandoned check: open incomplete slots outside the declaration are cancelled, in any order. */
    method OnResume(entries: seq<AckEntry>) returns (response: seq<ResumeStatusEntry>)
      requires Valid()
      modifies this, all, reassembler
      ensures Valid() && (Value(), response) == I.OnResume(old(Value()), entries)
    {
      response := [];
      if entries == [] { return; }
      response := Adjudicate(entries);
      var abandoned := set id | id in reassembler.slots && !IsComplete(reassembler.slots[id]) && !Declared(entries, id);
      assert abandoned == Abandoned(reassembler.slots, entries);
      CancelIds(abandoned);
    }

    /** Cancel one more of a set. */
    method CancelNext(id: Txid, ghost start: Inbox, ghost done: set<Txid>)
      requires Valid() && Value() == CancelAll(start, done)
      modifies this, all, reassembler
      ensures Valid() && all == old(all) && Value() == CancelAll(start, done + {id})
    {
      assert Entered(Value(), id);
      CancelStep(start, done, Value(), id);
      Cancel(id);
    }

    method CancelIds(ids: set<Txid>)
      requires Valid()
      modifies this, all, reassembler
      ensures Valid() && Value() == CancelAll(old(Value()), ids)
    {
      var rest := ids;
      ghost var start := Value();
      CancelNone(start);
      while rest != {}
        invariant Valid() && all == old(all) && rest <= ids && Value() == CancelAll(start, ids - rest)
        decreases |rest|
      {
        var id :| id in rest;
        CancelNext(id, start, ids - rest);
        assert ids - (rest - {id}) == ids - rest + {id};
        rest := rest - {id};
      }
      assert ids - rest == ids;
    }

    /** Stall or clear one listed stream. */
    method SetFlow(id: Txid, up: bool)
      requires Valid() && id in streams
      modifies all
      ensures Valid() && streams[id].handle < |old(Objects())|
      ensures Objects() == old(Objects())[streams[id].handle := Linked(old(Objects())[streams[id].handle], up)]
    {
      var x := streams[id];
      if up { x.ClearStalled(); } else { x.SetStalled(); }
    }

    /** Stall every listed stream on a disconnect, or clear the stalls on a re-wire. */
    method LinkChanged(up: bool)
      requires Valid()
      modifies all
      ensures Valid() && Value() == SetLink(old(Value()), up)
    {
      var rest := streams.Keys;
      ghost var start := Value();
      SweptEnds(start, up);
      while rest != {}
        invariant Valid() && rest <= streams.Keys && Objects() == Swept(start, rest, up)
        decreases |rest|
      {
        var id :| id in rest;
        assert Entered(start, id);
        SweptNext(start, rest, id, up);
        SetFlow(id, up);
        rest := rest - {id};
      }
    }

    /** Hand every complete slot to the binary handler, in any order, each once. */
    method DrainCompleted() returns (out: seq<(Txid, Bytes)>, ghost order: seq<Txid>)
      requires Valid()
      modifies this, reassembler
      ensures Valid() && Value() == HandleAll(old(Value()), Drains(order))
      ensures HandsOut(old(reassembler.slots), reassembler.slots, order, out)
      ensures binaryHandler ==> forall id :: id in reassembler.slots ==> !IsComplete(reassembler.slots[id])
      ensures !binaryHandler ==> order == []
    {
      out, order := [], [];
      if !binaryHandler { return; }
      var rest := set id | id in reassembler.slots && IsComplete(reassembler.slots[id]);
      while rest != {}
        invariant Valid() && all == old(all) && streams == old(streams) && binaryHandler == old(binaryHandler)
        invariant forall id :: id in reassembler.slots ==> (id in rest <==> IsComplete(reassembler.slots[id]))
        invariant rest <= reassembler.slots.Keys && Value() == HandleAll(old(Value()), Drains(order))
        invariant HandsOut(old(reassembler.slots), reassembler.slots, order, out)
        decreases |rest|
      {
        var id :| id in rest;
        DrainsNext(old(Value()), order, id);
        ghost var before := Value();
        HandsOutNext(old(reassembler.slots), reassembler.slots, order, out, id);
        var payload := Take(id);
        assert Value() == DrainOne(before, id);
        if payload.Some? { out := out + [(id, payload.value)]; }
        order := order + [id];
        rest := rest - {id};
      }
    }
  }

  /** `order` lists the slots taken out, each once, and `out` has them with their assembled payloads. */
  ghost predicate HandsOut(before: Slots, after: Slots, order: seq<Txid>, out: seq<(Txid, Bytes)>)
  {
    && |out| == |order|
    && (forall i, j :: 0 <= i < j < |order| ==> order[i] != order[j])
    && (forall i :: 0 <= i < |order| ==>
          && order[i] in before && IsComplete(before[order[i]])
          && out[i] == (order[i], Assembled(before[order[i]].frames)))
    && (forall id :: id in after ==> id in before && after[id] == before[id] && id !in order)
  }

  lemma {:induction false} HandsOutNext(before: Slots, after: Slots, order: seq<Txid>, out: seq<(Txid, Bytes)>,
          id: Txid)
    requires HandsOut(before, after, order, out) && id in after && IsComplete(after[id])
    ensures HandsOut(before, after - {id}, order + [id], out + [(id, Assembled(after[id].frames))])
  {
  }

  function Linked(o: StreamObject, up: bool): StreamObject
  {
    if up then Streams.ClearStalled(o) else Streams.SetStalled(o)
  }

  /** The objects when the sweep has passed all listed streams but those in `rest`. */
  function Swept(ib: Inbox, rest: set<Txid>, up: bool): seq<StreamObject>
  {
    seq(|ib.objects|, h requires 0 <= h < |ib.objects| =>
      var o := ib.objects[h];
      if o.txid in ib.streams && ib.streams[o.txid] == h && o.txid !in rest then Linked(o, up) else o)
  }

  lemma {:induction false} SweptEnds(ib: Inbox, up: bool)
    ensures Swept(ib, ib.streams.Keys, up) == ib.objects && ib.(objects := Swept(ib, {}, up)) == SetLink(ib, up)
  {
    assert Swept(ib, {}, up) == SetLink(ib, up).objects;
  }

  lemma {:induction false} SweptNext(ib: Inbox, rest: set<Txid>, id: Txid, up: bool)
    requires id in rest && id in ib.streams && Entered(ib, id)
    ensures var h, objects := ib.streams[id], Swept(ib, rest, up);
            Swept(ib, rest - {id}, up) == objects[h := Linked(objects[h], up)]
  {
  }

  function Drains(order: seq<Txid>): seq<Input> { seq(|order|, i requires 0 <= i < |order| => Drain(order[i])) }

  lemma {:induction false} DrainsNext(ib: Inbox, order: seq<Txid>, id: Txid)
    ensures HandleAll(ib, Drains(order + [id])) == DrainOne(HandleAll(ib, Drains(order)), id)
  {
    assert Drains(order + [id])[..|order|] == Drains(order);
  }

  lemma {:induction false} CancelNone(ib: Inbox)
    ensures CancelAll(ib, {}) == ib
  {
    assert ib.slots - {} == ib.slots && ib.births - {} == ib.births && ib.streams - {} == ib.streams;
    assert CancelAll(ib, {}).objects == ib.objects;
  }

  /** The table entry of `id`, if any, points at an object of that id. */
  ghost predicate Entered(ib: Inbox, id: Txid)
  {
    id in ib.streams ==> ib.streams[id] < |ib.objects| && ib.objects[ib.streams[id]].txid == id
  }

  lemma {:induction false} CancelOne(ib: Inbox, id: Txid)
    requires Entered(ib, id)
    ensures I.Discard(Ended(ib, id, Cancelled), id) == CancelAll(ib, {id})
  {
    assert I.Discard(Ended(ib, id, Cancelled), id).objects == CancelAll(ib, {id}).objects;
  }

  lemma {:induction false} CancelStep(start: Inbox, done: set<Txid>, ib: Inbox, id: Txid)
    requires ib == CancelAll(start, done) && Entered(ib, id)
    ensures I.Discard(Ended(ib, id, Cancelled), id) == CancelAll(start, done + {id})
  {
    CancelOne(ib, id);
    CancelMore(start, done, id);
  }

  lemma {:induction false} CancelMore(ib: Inbox, ids: set<Txid>, id: Txid)
    ensures CancelAll(CancelAll(ib, ids), {id}) == CancelAll(ib, ids + {id})
  {
    var u, v := CancelAll(CancelAll(ib, ids), {id}), CancelAll(ib, ids + {id});
    assert u.slots == v.slots && u.births == v.births && u.streams == v.streams && u.streamOwned == v.streamOwned;
    assert u.objects == v.objects;
  }
}
