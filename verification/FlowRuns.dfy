/**
 What a consumer reads off a stream over whole session runs (src/reliability/stream.rs:187-263,
 src/transfer/inbound.rs:111-124 and 267-279, src/transfer/sink.rs:372-377): pause intent and link state of a
 live stream, in terms of the inputs handled.
 */
module FlowRuns {
  import opened Prelude
  import opened Frames
  import opened Reassembly
  import opened Streams
  import opened Inbound
  import opened StreamTable

  predicate Stores(ib: Inbox, f: Frame)
  {
    var r := ReceiveFrame(ib, f).1;
    r.Ok? && r.value.Accepted?
  }

  /** The flow change an input means for stream `id`: a pause, a stored data frame, or a change of the link. */
  function FlowOf(ib: Inbox, i: Input, id: Txid): seq<Flow>
  {
    match i
    case Data(f) => if f.transactionId == id && Stores(ib, f) then [DataFrame] else []
    case PauseFor(j) => if j == id then [PauseFrame] else []
    case Link(up) => [if up then Rewire else Disconnect]
    case _ => []
  }

  /** The flow changes along a run of inputs, in order. */
  function FlowsOf(ib: Inbox, inputs: seq<Input>, id: Txid): seq<Flow>
  {
    if inputs == [] then []
    else
      var before := inputs[..|inputs| - 1];
      FlowsOf(ib, before, id) + FlowOf(HandleAll(ib, before), inputs[|inputs| - 1], id)
  }

  /** Object `h` exists and has not ended. */
  predicate Live(ib: Inbox, h: nat) { h < |ib.objects| && !IsTerminal(ib.objects[h].stored) }

  /** The object went through these flow changes, and perhaps got more chunks. */
  ghost predicate Flowing(o: StreamObject, u: StreamObject, fs: seq<Flow>)
  {
    u.stored == AllFlowed(o, fs).stored && u.stalled == AllFlowed(o, fs).stalled && u.txid == o.txid
  }

  lemma {:induction false} OneFlow(o: StreamObject, f: Flow)
    ensures AllFlowed(o, [f]) == Flowed(o, f) && AllFlowed(o, []) == o
  {
    assert [f][..0] == [];
    assert AllFlowed(o, [f][..0]) == o;
  }

  lemma {:induction false} LiveListed(ib: Inbox, h: nat)
    requires TableOk(ib, {}) && Live(ib, h)
    ensures Listed(ib, h) && ib.objects[h].txid in ib.slots && ib.objects[h].txid in ib.streamOwned
  {
    assert EntryOk(ib, ib.objects[h].txid);
  }

  /** Pushing into another transaction's stream, or opening one, leaves the object alone. */
  lemma {:induction false} StreamedOther(ib: Inbox, f: Frame, opens: bool, emitted: seq<(nat, Bytes)>, h: nat)
    requires h < |ib.objects| && ib.objects[h].txid != f.transactionId
    requires f.transactionId in ib.streams ==> EntryOk(ib, f.transactionId)
    ensures var v := Streamed(ib, f, opens, emitted); h < |v.objects| && v.objects[h] == ib.objects[h]
  {
  }

  /** A frame of another transaction does not reach the object. */
  lemma {:induction false} OtherFrame(ib: Inbox, f: Frame, h: nat)
    requires RestOk(ib) && Live(ib, h) && f.transactionId != ib.objects[h].txid && Stores(ib, f)
    ensures var v := Streamed(Landed(ib, f), f, OpensStream(ib, f), ReceiveFrame(ib, f).1.value.emitted);
            h < |v.objects| && v.objects[h] == ib.objects[h]
  {
    AcceptedLands(ib, f);
    var u := Landed(ib, f);
    assert u.streams == ib.streams && u.objects == ib.objects;
    if f.transactionId in ib.streams { assert EntryOk(ib, f.transactionId) && EntryOk(u, f.transactionId); }
    StreamedOther(u, f, OpensStream(ib, f), ReceiveFrame(ib, f).1.value.emitted, h);
  }

  /** A frame of its own lifts a pause. */
  lemma {:induction false} OwnFrame(ib: Inbox, f: Frame, h: nat)
    requires RestOk(ib) && Live(ib, h) && f.transactionId == ib.objects[h].txid && Stores(ib, f)
    ensures var r := ReceiveFrame(ib, f).1.value;
            var v := Streamed(Landed(ib, f), f, OpensStream(ib, f), r.emitted);
            h < |v.objects| && v.objects[h] == Pushed(ClearPaused(ib.objects[h]), r.emitted)
  {
    LiveListed(ib, h);
  }

  /** Settling a complete slot ends its stream, or touches no object. */
  lemma {:induction false} SettleFlows(v: Inbox, id: Txid, h: nat, u: Slot, ib: Inbox)
    requires MidOk(ib, v, id, u) && h < |v.objects| && Live(Settled(v, id), h)
    ensures Settled(v, id).objects[h] == v.objects[h]
  {
    if id in v.streamOwned { StreamSettles(v, id); }
  }

  lemma {:induction false} DataFlows(ib: Inbox, f: Frame, h: nat)
    requires RestOk(ib) && Live(ib, h) && Live(OnData(ib, f), h)
    ensures Flowing(ib.objects[h], OnData(ib, f).objects[h], FlowOf(ib, Data(f), ib.objects[h].txid))
  {
    OneFlow(ib.objects[h], DataFrame);
    if Stores(ib, f) {
      var r := ReceiveFrame(ib, f).1.value;
      var v := Streamed(Landed(ib, f), f, OpensStream(ib, f), r.emitted);
      if f.transactionId == ib.objects[h].txid { OwnFrame(ib, f, h); } else { OtherFrame(ib, f, h); }
      StreamedMid(ib, f);
      if r.complete { SettleFlows(v, f.transactionId, h, v.slots[f.transactionId], ib); }
    }
  }

  lemma {:induction false} PauseFlows(ib: Inbox, id: Txid, h: nat)
    requires TableOk(ib, {}) && Live(ib, h)
    ensures var u := OnPause(ib, id);
            && h < |u.objects|
            && u.objects[h] == if id == ib.objects[h].txid then SetPaused(ib.objects[h]) else ib.objects[h]
  {
    LiveListed(ib, h);
    if id in ib.streams { assert EntryOk(ib, id); }
  }

  lemma {:induction false} LinkFlows(ib: Inbox, up: bool, h: nat)
    requires TableOk(ib, {}) && Live(ib, h)
    ensures var u := SetLink(ib, up);
            h < |u.objects| && u.objects[h] == if up then ClearStalled(ib.objects[h]) else SetStalled(ib.objects[h])
  {
    LiveListed(ib, h);
  }

  lemma {:induction false} FlagFlows(ib: Inbox, i: Input, h: nat)
    requires TableOk(ib, {}) && Live(ib, h) && (i.PauseFor? || i.Link?)
    ensures h < |Handle(ib, i).objects|
    ensures Flowing(ib.objects[h], Handle(ib, i).objects[h], FlowOf(ib, i, ib.objects[h].txid))
  {
    if i.PauseFor? {
      OneFlow(ib.objects[h], PauseFrame);
      PauseFlows(ib, i.id, h);
    } else {
      OneFlow(ib.objects[h], if i.up then Rewire else Disconnect);
      LinkFlows(ib, i.up, h);
    }
  }

  /** A step that closes streams leaves the live ones alone. */
  lemma {:induction false} ClosesFlows(ib: Inbox, u: Inbox, ids: set<Txid>, final: StreamState, h: nat)
    requires Closes(ib, u, ids, final) && Live(u, h)
    ensures h < |ib.objects| && u.objects[h] == ib.objects[h]
  {
  }

  lemma {:induction false} ClosingFlows(ib: Inbox, i: Input, h: nat)
    requires RestOk(ib) && Live(ib, h) && Live(Handle(ib, i), h)
    requires i.AbortFor? || i.ExpiredFor? || i.CompletedFor? || i.ResumeFor? || i.Death?
    ensures Handle(ib, i).objects[h] == ib.objects[h]
  {
    var u := Handle(ib, i);
    match i
    case AbortFor(id) => ClosesSingle(ib, id, Cancelled, {}); ClosesFlows(ib, u, {id}, Cancelled, h);
    case ExpiredFor(id) => ClosesSingle(ib, id, Cancelled, {}); ClosesFlows(ib, u, {id}, Cancelled, h);
    case CompletedFor(id) => CompletedChanges(ib, id); if u != ib { ClosesFlows(ib, u, {id}, Incomplete, h); }
    case ResumeFor(entries) =>
      CancelAllCloses(ib, Abandoned(ib.slots, entries));
      if entries != [] { ClosesFlows(ib, u, Abandoned(ib.slots, entries), Cancelled, h); }
    case Death =>
      CancelAllCloses(ib, ib.slots.Keys + ib.streams.Keys);
      ClosesFlows(ib, u, ib.slots.Keys + ib.streams.Keys, Cancelled, h);
  }

  lemma {:induction false} StepFlows(ib: Inbox, i: Input, h: nat)
    requires RestOk(ib) && Live(ib, h) && Live(Handle(ib, i), h)
    ensures Flowing(ib.objects[h], Handle(ib, i).objects[h], FlowOf(ib, i, ib.objects[h].txid))
  {
    OneFlow(ib.objects[h], PauseFrame);
    if i.Data? {
      DataFlows(ib, i.frame, h);
    } else if i.PauseFor? || i.Link? {
      FlagFlows(ib, i, h);
    } else if !(i.Drain? || i.RegisterBinary? || i.RegisterStream?) {
      ClosingFlows(ib, i, h);
    }
  }

  /** Flow changes depend on the two flags alone. */
  lemma {:induction false} FlowedSame(o: StreamObject, u: StreamObject, fs: seq<Flow>)
    requires o.stored == u.stored && o.stalled == u.stalled
    ensures AllFlowed(o, fs).stored == AllFlowed(u, fs).stored && AllFlowed(o, fs).stalled == AllFlowed(u, fs).stalled
  {
    if fs != [] { FlowedSame(o, u, fs[..|fs| - 1]); }
  }

  lemma {:induction false} FlowedConcat(o: StreamObject, a: seq<Flow>, b: seq<Flow>)
    ensures AllFlowed(o, a + b) == AllFlowed(AllFlowed(o, a), b)
  {
    if b == [] {
      assert a + b == a;
    } else {
      FlowedConcat(o, a, b[..|b| - 1]);
      assert (a + b)[..|a + b| - 1] == a + b[..|b| - 1];
    }
  }

  lemma {:induction false} FlowingTrans(o: StreamObject, v: StreamObject, u: StreamObject, a: seq<Flow>, b: seq<Flow>)
    requires Flowing(o, v, a) && Flowing(v, u, b)
    ensures Flowing(o, u, a + b)
  {
    FlowedConcat(o, a, b);
    FlowedSame(v, AllFlowed(o, a), b);
  }

  lemma {:induction false} RunFlows(ib: Inbox, inputs: seq<Input>, h: nat)
    requires RestOk(ib) && h < |ib.objects| && Live(HandleAll(ib, inputs), h)
    ensures Flowing(ib.objects[h], HandleAll(ib, inputs).objects[h], FlowsOf(ib, inputs, ib.objects[h].txid))
  {
    if inputs == [] {
      OneFlow(ib.objects[h], PauseFrame);
    } else {
      var before, i := inputs[..|inputs| - 1], inputs[|inputs| - 1];
      var v := HandleAll(ib, before);
      RunRest(ib, before);
      HandleRest(v, i);
      RunFlows(ib, before, h);
      StepFlows(v, i, h);
      FlowingTrans(ib.objects[h], v.objects[h], Handle(v, i).objects[h], FlowsOf(ib, before, ib.objects[h].txid),
          FlowOf(v, i, ib.objects[h].txid));
    }
  }

  /**
   What a consumer reads, in every run: from any reachable state on, whatever inputs follow, a stream that has not ended
   reads `Stalled` exactly while the link is down, and otherwise `Paused` exactly while the last pause or stored data
   frame of its transaction was a pause.
   */
  lemma {:induction false} ConsumerReads(ib: Inbox, inputs: seq<Input>, h: nat)
    requires RestOk(ib) && h < |ib.objects| && Live(HandleAll(ib, inputs), h)
    ensures var o := ib.objects[h];
            var fs := FlowsOf(ib, inputs, o.txid);
            Reads(HandleAll(ib, inputs).objects[h])
            == if Down(o.stalled, fs) then Stalled else if PauseIntent(o.stored == Paused, fs) then Paused else Active
  {
    RunRest(ib, inputs);
    RunFlows(ib, inputs, h);
    FlowReading(ib.objects[h], FlowsOf(ib, inputs, ib.objects[h].txid));
  }
}
