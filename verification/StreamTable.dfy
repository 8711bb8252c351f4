/**
 What every inbound handler keeps, whatever frames arrive: the stream table mirrors the open incomplete
 slots it owns, streams get exactly the contiguous prefix, terminal states are final, and every slot
 incarnation reaches at most one delivery surface, at most once.
 */
module StreamTable {
  import opened Prelude
  import opened Frames
  import opened Reassembly
  import opened Streams
  import opened Inbound

  /** Object `h` is the one a stream-table entry points at. */
  predicate Listed(ib: Inbox, h: nat)
  {
    h < |ib.objects| && ib.objects[h].txid in ib.streams && ib.streams[ib.objects[h].txid] == h
  }

  /** Chunks of a live stream: frames `0..prefix`, in order, each once. */
  function PrefixChunks(s: Slot): seq<(nat, Bytes)> { Emission(s.frames, 0, PrefixEnd(s)) }

  ghost predicate EntryOk(ib: Inbox, id: Txid)
    requires id in ib.streams
  {
    && ib.streams[id] < |ib.objects|
    && id in ib.slots && id in ib.births
    && var o := ib.objects[ib.streams[id]];
       o.txid == id && o.incarnation == ib.births[id]
  }

  /** Every listed stream was pushed exactly the contiguous prefix of its slot. */
  ghost predicate ChunksOk(ib: Inbox)
  {
    forall id :: id in ib.streams && id in ib.slots && ib.streams[id] < |ib.objects| ==>
      ib.objects[ib.streams[id]].chunks == PrefixChunks(ib.slots[id])
  }

  /** Only the ids in `busy` may be listed with a complete slot; at rest there are none. */
  ghost predicate TableOk(ib: Inbox, busy: set<Txid>)
  {
    && ib.streams.Keys == ib.streamOwned
    && (forall id :: id in ib.streams ==> EntryOk(ib, id))
    && (forall id :: id in ib.streams && id !in busy ==> !IsComplete(ib.slots[id]))
    && (forall h :: 0 <= h < |ib.objects| ==> ib.objects[h].stored != Stalled)
    && (forall h :: 0 <= h < |ib.objects| ==> (IsTerminal(ib.objects[h].stored) <==> !Listed(ib, h)))
    && (ib.streams != map[] ==> ib.streamHandler)
  }

  /** The surface the incarnation behind an open slot has reached so far. */
  function OpenSurface(ib: Inbox, id: Txid): Surface { if id in ib.streams then Stream(ib.streams[id]) else Nowhere }

  /** Every open slot, stream object and delivery is the one its incarnation's ledger entry names. */
  ghost predicate HistoryOk(ib: Inbox)
  {
    && ib.births.Keys == ib.slots.Keys
    && (forall id :: id in ib.births ==>
          ib.births[id] < |ib.ledger| && ib.ledger[ib.births[id]] == Incarnation(id, OpenSurface(ib, id)))
    && (forall h :: 0 <= h < |ib.objects| ==>
          && ib.objects[h].incarnation < |ib.ledger|
          && ib.ledger[ib.objects[h].incarnation] == Incarnation(ib.objects[h].txid, Stream(h)))
    && (forall d :: 0 <= d < |ib.delivered| ==>
          && ib.delivered[d].incarnation < |ib.ledger|
          && ib.ledger[ib.delivered[d].incarnation] == Incarnation(ib.delivered[d].txid, Aggregate(d)))
  }

  ghost predicate RestOk(ib: Inbox) { SlotsOk(ib.slots) && TableOk(ib, {}) && ChunksOk(ib) && HistoryOk(ib) }

  /** Two objects tell the same story: same transaction, incarnation and chunks. */
  predicate SameStory(o: StreamObject, u: StreamObject)
  {
    o.txid == u.txid && o.totalLen == u.totalLen && o.incarnation == u.incarnation && o.chunks == u.chunks
  }

  // ---------------------------------------------------------------------------------------------
  // The three kinds of change

  /** The slots in `ids` are closed and their streams get the terminal state `final`. */
  ghost predicate Closes(ib: Inbox, u: Inbox, ids: set<Txid>, final: StreamState)
  {
    && IsTerminal(final)
    && u == ib.(slots := ib.slots - ids, births := ib.births - ids, streams := ib.streams - ids,
                streamOwned := ib.streamOwned - ids, objects := u.objects)
    && |u.objects| == |ib.objects|
    && (forall h :: 0 <= h < |ib.objects| ==>
          if Listed(ib, h) && ib.objects[h].txid in ids
          then SameStory(ib.objects[h], u.objects[h]) && u.objects[h].stored == final
          else u.objects[h] == ib.objects[h])
  }

  lemma {:induction false} ClosesTable(ib: Inbox, u: Inbox, ids: set<Txid>, final: StreamState, busy: set<Txid>)
    requires TableOk(ib, busy) && ChunksOk(ib) && Closes(ib, u, ids, final) && busy <= ids
    ensures TableOk(u, {}) && ChunksOk(u)
  {
    forall id | id in u.streams ensures EntryOk(u, id) && !IsComplete(u.slots[id]) {
      assert EntryOk(ib, id);
      assert u.objects[ib.streams[id]] == ib.objects[ib.streams[id]];
    }
    forall h | 0 <= h < |u.objects| ensures IsTerminal(u.objects[h].stored) <==> !Listed(u, h) {
      assert IsTerminal(ib.objects[h].stored) <==> !Listed(ib, h);
    }
  }

  lemma {:induction false} ClosesHistory(ib: Inbox, u: Inbox, ids: set<Txid>, final: StreamState)
    requires HistoryOk(ib) && Closes(ib, u, ids, final)
    ensures HistoryOk(u)
  {
    forall h | 0 <= h < |u.objects| ensures SameStory(ib.objects[h], u.objects[h]) { }
  }

  /** Listed streams change flow state only. */
  ghost predicate Touches(ib: Inbox, u: Inbox)
  {
    && u == ib.(objects := u.objects)
    && |u.objects| == |ib.objects|
    && (forall h :: 0 <= h < |ib.objects| ==>
          if Listed(ib, h)
          then SameStory(ib.objects[h], u.objects[h])
              && (u.objects[h].stored == Active || u.objects[h].stored == Paused)
          else u.objects[h] == ib.objects[h])
  }

  lemma {:induction false} TouchesListed(ib: Inbox, u: Inbox, h: nat)
    requires Touches(ib, u) && h < |u.objects|
    ensures SameStory(ib.objects[h], u.objects[h]) && (Listed(u, h) <==> Listed(ib, h))
  {
  }

  lemma {:induction false} TouchesTable(ib: Inbox, u: Inbox)
    requires TableOk(ib, {}) && Touches(ib, u)
    ensures TableOk(u, {})
  {
    forall h | 0 <= h < |u.objects|
      ensures u.objects[h].stored != Stalled && (IsTerminal(u.objects[h].stored) <==> !Listed(u, h))
    {
      TouchesListed(ib, u, h);
    }
    forall id | id in u.streams ensures EntryOk(u, id) {
      assert EntryOk(ib, id);
      TouchesListed(ib, u, ib.streams[id]);
    }
  }

  lemma {:induction false} TouchesRest(ib: Inbox, u: Inbox)
    requires RestOk(ib) && Touches(ib, u)
    ensures RestOk(u)
  {
    TouchesTable(ib, u);
    forall h | 0 <= h < |u.objects| ensures SameStory(ib.objects[h], u.objects[h]) { TouchesListed(ib, u, h); }
  }

  /** Terminal stream objects are never written again, and objects are never dropped. */
  ghost predicate KeepsTerminals(ib: Inbox, u: Inbox)
  {
    && |ib.objects| <= |u.objects|
    && (forall h :: 0 <= h < |ib.objects| && IsTerminal(ib.objects[h].stored) ==> u.objects[h] == ib.objects[h])
    && (forall h :: 0 <= h < |ib.objects| ==>
          u.objects[h].txid == ib.objects[h].txid && u.objects[h].incarnation == ib.objects[h].incarnation
          && ib.objects[h].chunks <= u.objects[h].chunks)
  }

  lemma {:induction false} ChangeKeepsTerminals(ib: Inbox, u: Inbox, ids: set<Txid>, final: StreamState,
          busy: set<Txid>)
    requires TableOk(ib, busy) && (Closes(ib, u, ids, final) || Touches(ib, u))
    ensures KeepsTerminals(ib, u)
  {
    forall h | 0 <= h < |ib.objects| && IsTerminal(ib.objects[h].stored) ensures u.objects[h] == ib.objects[h] {
      assert !Listed(ib, h);
    }
  }

  // ---------------------------------------------------------------------------------------------
  // Which handler makes which change

  lemma {:induction false} EndedCloses(ib: Inbox, id: Txid, o: StreamObject, busy: set<Txid>)
    requires TableOk(ib, busy) && id in ib.streams
    requires SameStory(ib.objects[ib.streams[id]], o) && IsTerminal(o.stored)
    ensures Closes(ib, Discard(Unlisted(OnStream(ib, id, o), id), id), {id}, o.stored)
  {
    assert EntryOk(ib, id);
  }

  lemma {:induction false} PlainDiscardCloses(ib: Inbox, id: Txid, final: StreamState, busy: set<Txid>)
    requires TableOk(ib, busy) && id !in ib.streams && IsTerminal(final)
    ensures Closes(ib, Discard(Unlisted(ib, id), id), {id}, final)
  {
    assert ib.streams - {id} == ib.streams && ib.streamOwned - {id} == ib.streamOwned;
  }

  lemma {:induction false} ClosesSingle(ib: Inbox, id: Txid, s: StreamState, busy: set<Txid>)
    requires TableOk(ib, busy) && IsTerminal(s)
    ensures Closes(ib, Discard(Ended(ib, id, s), id), {id}, s)
  {
    if id in ib.streams {
      assert EntryOk(ib, id);
      EndedCloses(ib, id, Finished(ib.objects[ib.streams[id]], s), busy);
    } else {
      PlainDiscardCloses(ib, id, s, busy);
    }
  }

  lemma {:induction false} CompletedChanges(ib: Inbox, id: Txid)
    requires TableOk(ib, {})
    ensures OnCompleted(ib, id) == ib || Closes(ib, OnCompleted(ib, id), {id}, Incomplete)
  {
    if id in ib.slots && !IsComplete(ib.slots[id]) {
      if id in ib.streams {
        assert EntryOk(ib, id);
        var s := ib.slots[id];
        EndedCloses(ib, id, FinishedIncomplete(ib.objects[ib.streams[id]], s.receivedBytes, s.totalLen), {});
      } else {
        PlainDiscardCloses(ib, id, Incomplete, {});
      }
    }
  }

  lemma {:induction false} CancelAllCloses(ib: Inbox, ids: set<Txid>)
    ensures Closes(ib, CancelAll(ib, ids), ids, Cancelled)
  {
  }

  lemma {:induction false} FlowTouches(ib: Inbox, i: Input)
    requires TableOk(ib, {}) && (i.PauseFor? || i.Link?)
    ensures Touches(ib, Handle(ib, i))
  {
    forall h | 0 <= h < |ib.objects| && Listed(ib, h)
      ensures ib.objects[h].stored == Active || ib.objects[h].stored == Paused
    {
      assert !IsTerminal(ib.objects[h].stored);
    }
    if i.PauseFor? && i.id in ib.streams { assert EntryOk(ib, i.id); }
  }

  // ---------------------------------------------------------------------------------------------
  // Aggregate delivery

  lemma {:induction false} DeliveredTable(ib: Inbox, id: Txid)
    requires TableOk(ib, {}) && ChunksOk(ib) && id in ib.slots && IsComplete(ib.slots[id])
    ensures TableOk(Delivered(ib, id), {}) && ChunksOk(Delivered(ib, id)) && KeepsTerminals(ib, Delivered(ib, id))
  {
    var u := Delivered(ib, id);
    assert id !in ib.streams;
    forall j | j in u.streams ensures EntryOk(u, j) && !IsComplete(u.slots[j]) { assert EntryOk(ib, j); }
    forall h | 0 <= h < |u.objects| ensures Listed(u, h) <==> Listed(ib, h) { }
  }

  lemma {:induction false} DeliveredHistory(ib: Inbox, id: Txid)
    requires HistoryOk(ib) && id in ib.slots && IsComplete(ib.slots[id]) && id !in ib.streams
    ensures HistoryOk(Delivered(ib, id))
  {
    var u := Delivered(ib, id);
    var n := ib.births[id];
    assert ib.ledger[n] == Incarnation(id, Nowhere);
    forall h | 0 <= h < |ib.objects| ensures ib.objects[h].incarnation != n { }
    forall j | j in u.births ensures u.births[j] != n { assert ib.ledger[ib.births[j]].txid == j; }
  }

  lemma {:induction false} DeliveredRest(ib: Inbox, id: Txid)
    requires RestOk(ib)
    ensures RestOk(Delivered(ib, id)) && KeepsTerminals(ib, Delivered(ib, id))
  {
    if id in ib.slots && IsComplete(ib.slots[id]) {
      assert id !in ib.streams;
      DeliveredTable(ib, id);
      DeliveredHistory(ib, id);
    }
  }

  // ---------------------------------------------------------------------------------------------
  // Data frames

  lemma {:induction false} EmissionConcat(frames: Store, lo: nat, mid: nat, hi: nat)
    requires lo <= mid <= hi
    ensures Emission(frames, lo, hi) == Emission(frames, lo, mid) + Emission(frames, mid, hi)
    decreases mid - lo
  {
    if lo < mid { EmissionConcat(frames, lo + 1, mid, hi); }
  }

  lemma {:induction false} EmissionSame(a: Store, b: Store, lo: nat, hi: nat)
    requires forall k :: lo <= k < hi ==> (k in a <==> k in b) && (k in a ==> a[k] == b[k])
    ensures Emission(a, lo, hi) == Emission(b, lo, hi)
    decreases hi - lo
  {
    if lo < hi { EmissionSame(a, b, lo + 1, hi); }
  }

  /** Storing a frame extends the prefix chunks by exactly what is emitted. */
  lemma {:induction false} EmittedExtends(s: Slot, seqNo: nat, payload: Bytes)
    requires SlotOk(s) && seqNo !in s.frames && s.receivedBytes + |payload| <= s.totalLen
    ensures var u := Stored1(s, seqNo, payload);
            PrefixChunks(u) == PrefixChunks(s) + Emission(u.frames, PrefixEnd(s), PrefixEnd(u))
  {
    var u := Stored1(s, seqNo, payload);
    StoreOk(s, seqNo, payload);
    EmissionConcat(u.frames, 0, PrefixEnd(s), PrefixEnd(u));
    EmissionSame(s.frames, u.frames, 0, PrefixEnd(s));
  }

  /** A slot opens: it gets a new incarnation number, and no surface yet. */
  function Born(ib: Inbox, id: Txid, u: Slot): Inbox
  {
    ib.(slots := ib.slots[id := u], ledger := ib.ledger + [Incarnation(id, Nowhere)],
        births := ib.births[id := |ib.ledger|])
  }

  lemma {:induction false} BornTable(ib: Inbox, id: Txid, u: Slot)
    requires TableOk(ib, {}) && ChunksOk(ib) && id !in ib.slots
    ensures TableOk(Born(ib, id, u), {}) && ChunksOk(Born(ib, id, u)) && id !in ib.streams
  {
    var v := Born(ib, id, u);
    assert id in ib.streams ==> EntryOk(ib, id);
    forall j | j in v.streams ensures EntryOk(v, j) && !IsComplete(v.slots[j]) { assert EntryOk(ib, j); }
    forall h | 0 <= h < |v.objects| ensures Listed(v, h) <==> Listed(ib, h) { }
  }

  lemma {:induction false} BornHistory(ib: Inbox, id: Txid, u: Slot)
    requires HistoryOk(ib) && id !in ib.slots && id !in ib.streams
    ensures HistoryOk(Born(ib, id, u))
  {
  }

  lemma {:induction false} BornRest(ib: Inbox, id: Txid, u: Slot)
    requires RestOk(ib) && id !in ib.slots && SlotOk(u)
    ensures RestOk(Born(ib, id, u)) && KeepsTerminals(ib, Born(ib, id, u)) && id !in ib.streams
  {
    BornTable(ib, id, u);
    BornHistory(ib, id, u);
  }

  /** What an accepted frame found, and what it stored. */
  ghost predicate LandsAs(ib: Inbox, f: Frame, s: Slot, u: Slot, r: ReceiveOutcome)
  {
    && SlotOk(s) && s.totalLen == f.totalLen && f.seqNo !in s.frames && s.receivedBytes + |f.payload| <= s.totalLen
    && (f.transactionId !in ib.slots ==> f.seqNo == 0)
    && r == Accepted(IsComplete(u), if ib.streamHandler then Emission(u.frames, PrefixEnd(s), PrefixEnd(u)) else [])
    && (Landed(ib, f) == if f.transactionId in ib.slots then ib.(slots := ib.slots[f.transactionId := u])
                         else Born(ib, f.transactionId, u))
  }

  function SlotBefore(ib: Inbox, f: Frame): Slot
  {
    if f.transactionId in ib.slots then ib.slots[f.transactionId] else EmptySlot(f.totalLen)
  }

  lemma {:induction false} AcceptedLands(ib: Inbox, f: Frame)
    requires SlotsOk(ib.slots) && ReceiveFrame(ib, f).1.Ok? && ReceiveFrame(ib, f).1.value.Accepted?
    ensures var s := SlotBefore(ib, f);
            LandsAs(ib, f, s, Stored1(s, f.seqNo, f.payload), ReceiveFrame(ib, f).1.value)
  {
    EmptySlotOk(f.totalLen);
  }

  lemma {:induction false} RefusedLands(ib: Inbox, f: Frame)
    requires var r := ReceiveFrame(ib, f).1; !(r.Ok? && r.value.Accepted?)
    ensures || Landed(ib, f) == ib
            || (f.transactionId !in ib.slots && 0 < f.totalLen
                && Landed(ib, f) == Born(ib, f.transactionId, EmptySlot(f.totalLen)))
  {
    var id := f.transactionId;
    if id in ib.slots { assert ib.slots[id := ib.slots[id]] == ib.slots; }
  }

  /** The first frame of a transaction opens its stream. */
  lemma {:induction false} OpenedEntries(ib: Inbox, f: Frame, emitted: seq<(nat, Bytes)>)
    requires TableOk(ib, {}) && f.transactionId in ib.slots && f.transactionId in ib.births
             && f.transactionId !in ib.streams
    ensures var u := Streamed(ib, f, true, emitted);
            && (forall j :: j in u.streams ==> EntryOk(u, j))
            && (forall j :: j in u.streams && j != f.transactionId ==>
                  !IsComplete(u.slots[j]) && u.objects[u.streams[j]] == ib.objects[ib.streams[j]])
  {
    var id := f.transactionId;
    var u := Streamed(ib, f, true, emitted);
    assert u.objects[|ib.objects|].txid == id && EntryOk(u, id);
    forall j | j in u.streams && j != id
      ensures EntryOk(u, j) && !IsComplete(u.slots[j]) && u.objects[u.streams[j]] == ib.objects[ib.streams[j]]
    {
      assert EntryOk(ib, j);
    }
  }

  lemma {:induction false} OpenedObjects(ib: Inbox, f: Frame, emitted: seq<(nat, Bytes)>)
    requires TableOk(ib, {}) && f.transactionId !in ib.streams
    ensures var u := Streamed(ib, f, true, emitted);
            forall h :: 0 <= h < |u.objects| ==>
              u.objects[h].stored != Stalled && (IsTerminal(u.objects[h].stored) <==> !Listed(u, h))
  {
    var u := Streamed(ib, f, true, emitted);
    var n := |ib.objects|;
    assert Listed(u, n) && u.objects[n].stored == Active;
    forall h | 0 <= h < n ensures u.objects[h] == ib.objects[h] && (Listed(u, h) <==> Listed(ib, h)) { }
  }

  lemma {:induction false} OpenedTable(ib: Inbox, f: Frame, emitted: seq<(nat, Bytes)>)
    requires TableOk(ib, {}) && ChunksOk(ib) && ib.streamHandler
    requires f.transactionId in ib.slots && f.transactionId in ib.births && f.transactionId !in ib.streams
    requires emitted == PrefixChunks(ib.slots[f.transactionId])
    ensures TableOk(Streamed(ib, f, true, emitted), {f.transactionId}) && ChunksOk(Streamed(ib, f, true, emitted))
  {
    OpenedEntries(ib, f, emitted);
    OpenedObjects(ib, f, emitted);
    var u := Streamed(ib, f, true, emitted);
    assert u.objects[|ib.objects|].chunks == [] + emitted == emitted;
  }

  lemma {:induction false} OpenedHistory(ib: Inbox, f: Frame, emitted: seq<(nat, Bytes)>)
    requires HistoryOk(ib) && f.transactionId in ib.slots && f.transactionId !in ib.streams
    requires forall j :: j in ib.streams ==> ib.streams[j] < |ib.objects|
    ensures HistoryOk(Streamed(ib, f, true, emitted))
  {
    var id := f.transactionId;
    var u := Streamed(ib, f, true, emitted);
    var n := ib.births[id];
    forall j | j in u.births && j != id ensures u.births[j] != n { assert ib.ledger[ib.births[j]].txid == j; }
    forall h | 0 <= h < |ib.objects| ensures ib.objects[h].incarnation != n { }
    forall d | 0 <= d < |ib.delivered| ensures ib.delivered[d].incarnation != n { }
  }

  /** A later frame of a streamed transaction pushes exactly the newly contiguous frames. */
  lemma {:induction false} PushedTable(ib: Inbox, f: Frame, u: Slot, emitted: seq<(nat, Bytes)>)
    requires TableOk(ib, {}) && ChunksOk(ib) && f.transactionId in ib.streams
    requires PrefixChunks(u) == PrefixChunks(ib.slots[f.transactionId]) + emitted
    ensures var v := Streamed(ib.(slots := ib.slots[f.transactionId := u]), f, false, emitted);
            TableOk(v, {f.transactionId}) && ChunksOk(v)
  {
    var id := f.transactionId;
    var v := Streamed(ib.(slots := ib.slots[id := u]), f, false, emitted);
    assert EntryOk(ib, id);
    var h0 := ib.streams[id];
    assert Listed(ib, h0) && !IsTerminal(ib.objects[h0].stored);
    assert v.objects == ib.objects[h0 := Pushed(ClearPaused(ib.objects[h0]), emitted)];
    assert EntryOk(v, id);
    forall j | j in v.streams && j != id ensures EntryOk(v, j) && !IsComplete(v.slots[j]) {
      assert EntryOk(ib, j);
      assert v.objects[ib.streams[j]] == ib.objects[ib.streams[j]];
    }
    forall h | 0 <= h < |v.objects|
      ensures (Listed(v, h) <==> Listed(ib, h))
              && (IsTerminal(v.objects[h].stored) <==> IsTerminal(ib.objects[h].stored))
    {
    }
  }

  lemma {:induction false} StreamedKeeps(ib: Inbox, slots: Slots, f: Frame, emitted: seq<(nat, Bytes)>, opens: bool)
    requires TableOk(ib, {})
    ensures KeepsTerminals(ib, Streamed(ib.(slots := slots), f, opens, emitted))
  {
    if f.transactionId in ib.streams { assert EntryOk(ib, f.transactionId) && Listed(ib, ib.streams[f.transactionId]); }
  }

  lemma {:induction false} PushedHistory(ib: Inbox, f: Frame, u: Slot, emitted: seq<(nat, Bytes)>)
    requires HistoryOk(ib) && f.transactionId in ib.slots
    ensures HistoryOk(Streamed(ib.(slots := ib.slots[f.transactionId := u]), f, false, emitted))
  {
    var v := Streamed(ib.(slots := ib.slots[f.transactionId := u]), f, false, emitted);
    forall h | 0 <= h < |ib.objects|
      ensures v.objects[h].txid == ib.objects[h].txid && v.objects[h].incarnation == ib.objects[h].incarnation
    {
    }
  }

  lemma {:induction false} UnlistedTable(ib: Inbox, id: Txid, u: Slot)
    requires TableOk(ib, {}) && ChunksOk(ib) && id !in ib.streams
    ensures TableOk(ib.(slots := ib.slots[id := u]), {}) && ChunksOk(ib.(slots := ib.slots[id := u]))
  {
    var v := ib.(slots := ib.slots[id := u]);
    forall j | j in v.streams ensures EntryOk(v, j) && !IsComplete(v.slots[j]) { assert EntryOk(ib, j); }
    forall h | 0 <= h < |v.objects| ensures Listed(v, h) <==> Listed(ib, h) { }
  }

  /** The tables right after storing and pushing; the slot of `id` may now be complete. */
  ghost predicate MidOk(ib: Inbox, v: Inbox, id: Txid, u: Slot)
  {
    && SlotsOk(v.slots) && TableOk(v, {id}) && ChunksOk(v) && HistoryOk(v) && KeepsTerminals(ib, v) && id in v.slots
    && v.slots[id] == u
  }

  lemma {:induction false} OpenedMid(ib: Inbox, v: Inbox, f: Frame, u: Slot)
    requires RestOk(v) && KeepsTerminals(ib, v) && v.streamHandler
    requires f.transactionId in v.slots && v.slots[f.transactionId] == u && f.transactionId !in v.streams
    ensures MidOk(ib, Streamed(v, f, true, PrefixChunks(u)), f.transactionId, u)
  {
    forall j | j in v.streams ensures v.streams[j] < |v.objects| { assert EntryOk(v, j); }
    OpenedTable(v, f, PrefixChunks(u));
    OpenedHistory(v, f, PrefixChunks(u));
    StreamedKeeps(v, v.slots, f, PrefixChunks(u), true);
    KeepsTrans(ib, v, Streamed(v, f, true, PrefixChunks(u)));
  }

  lemma {:induction false} FirstFrameMid(ib: Inbox, f: Frame, u: Slot)
    requires RestOk(ib) && f.transactionId !in ib.slots && SlotOk(u)
    ensures MidOk(ib, Streamed(Born(ib, f.transactionId, u), f, ib.streamHandler, PrefixChunks(u)), f.transactionId, u)
    ensures !ib.streamHandler ==> MidOk(ib, Streamed(Born(ib, f.transactionId, u), f, false, []), f.transactionId, u)
  {
    var v := Born(ib, f.transactionId, u);
    BornRest(ib, f.transactionId, u);
    if ib.streamHandler {
      forall j | j in ib.streams ensures j in ib.slots { assert EntryOk(ib, j); }
      OpenedMid(ib, v, f, u);
    }
  }

  lemma {:induction false} LaterTable(ib: Inbox, f: Frame, u: Slot, emitted: seq<(nat, Bytes)>)
    requires RestOk(ib) && f.transactionId in ib.slots
    requires ib.streamHandler ==> PrefixChunks(u) == PrefixChunks(ib.slots[f.transactionId]) + emitted
    ensures var v := Streamed(ib.(slots := ib.slots[f.transactionId := u]), f, false, emitted);
            TableOk(v, {f.transactionId}) && ChunksOk(v) && v.slots == ib.slots[f.transactionId := u]
  {
    if f.transactionId in ib.streams { PushedTable(ib, f, u, emitted); } else { UnlistedTable(ib, f.transactionId, u); }
  }

  lemma {:induction false} LaterFrameMid(ib: Inbox, f: Frame, u: Slot, emitted: seq<(nat, Bytes)>)
    requires RestOk(ib) && f.transactionId in ib.slots && SlotOk(u)
    requires ib.streamHandler ==> PrefixChunks(u) == PrefixChunks(ib.slots[f.transactionId]) + emitted
    ensures MidOk(ib, Streamed(ib.(slots := ib.slots[f.transactionId := u]), f, false, emitted), f.transactionId, u)
  {
    LaterTable(ib, f, u, emitted);
    PushedHistory(ib, f, u, emitted);
    StreamedKeeps(ib, ib.slots[f.transactionId := u], f, emitted, false);
  }

  /** The frame was stored and, if the transaction is streamed, pushed. */
  lemma {:induction false} StreamedMid(ib: Inbox, f: Frame)
    requires RestOk(ib)
    requires var r := ReceiveFrame(ib, f).1; r.Ok? && r.value.Accepted?
    ensures var r := ReceiveFrame(ib, f).1.value;
            var v := Streamed(Landed(ib, f), f, OpensStream(ib, f), r.emitted);
            && f.transactionId in v.slots && r.complete == IsComplete(v.slots[f.transactionId])
            && MidOk(ib, v, f.transactionId, v.slots[f.transactionId])
  {
    AcceptedLands(ib, f);
    var s := SlotBefore(ib, f);
    LandedMid(ib, f, s, Stored1(s, f.seqNo, f.payload), ReceiveFrame(ib, f).1.value);
  }

  lemma {:induction false} LandedMid(ib: Inbox, f: Frame, s: Slot, u: Slot, r: ReceiveOutcome)
    requires RestOk(ib) && s == SlotBefore(ib, f) && u == Stored1(s, f.seqNo, f.payload) && LandsAs(ib, f, s, u, r)
    ensures MidOk(ib, Streamed(Landed(ib, f), f, OpensStream(ib, f), r.emitted), f.transactionId, u)
  {
    StoreOk(s, f.seqNo, f.payload);
    EmittedExtends(s, f.seqNo, f.payload);
    if f.transactionId !in ib.slots { FirstFrameMid(ib, f, u); } else { LaterFrameMid(ib, f, u, r.emitted); }
  }

  lemma {:induction false} KeepsTrans(a: Inbox, b: Inbox, c: Inbox)
    requires KeepsTerminals(a, b) && KeepsTerminals(b, c)
    ensures KeepsTerminals(a, c)
  {
  }

  lemma {:induction false} StreamSettles(v: Inbox, id: Txid)
    requires SlotsOk(v.slots) && TableOk(v, {id}) && ChunksOk(v) && HistoryOk(v) && id in v.streamOwned
    ensures Closes(v, Settled(v, id), {id}, Complete)
    ensures RestOk(Settled(v, id)) && KeepsTerminals(v, Settled(v, id))
  {
    var w := Settled(v, id);
    ClosesSingle(v, id, Complete, {id});
    ClosesTable(v, w, {id}, Complete, {id});
    ClosesHistory(v, w, {id}, Complete);
    ChangeKeepsTerminals(v, w, {id}, Complete, {id});
    assert SlotsOk(w.slots);
  }

  lemma {:induction false} SettledRest(ib: Inbox, v: Inbox, id: Txid, u: Slot)
    requires MidOk(ib, v, id, u) && IsComplete(u)
    ensures RestOk(Settled(v, id)) && KeepsTerminals(ib, Settled(v, id))
  {
    if id in v.streamOwned {
      StreamSettles(v, id);
    } else {
      assert TableOk(v, {});
      DeliveredRest(v, id);
    }
    KeepsTrans(ib, v, Settled(v, id));
  }

  lemma {:induction false} DataRest(ib: Inbox, f: Frame)
    requires RestOk(ib)
    ensures RestOk(OnData(ib, f)) && KeepsTerminals(ib, OnData(ib, f))
  {
    var r := ReceiveFrame(ib, f).1;
    var id := f.transactionId;
    if r.Ok? && r.value.Accepted? {
      StreamedMid(ib, f);
      var v := Streamed(Landed(ib, f), f, OpensStream(ib, f), r.value.emitted);
      if r.value.complete { SettledRest(ib, v, id, v.slots[id]); } else { assert TableOk(v, {}); }
    } else {
      RefusedLands(ib, f);
      if Landed(ib, f) != ib {
        EmptySlotOk(f.totalLen);
        BornRest(ib, id, EmptySlot(f.totalLen));
      }
    }
  }

  // ---------------------------------------------------------------------------------------------
  // Whole runs

  /** Every inbound handler keeps the tables in order and never writes a terminal stream object. */
  lemma {:induction false} HandleRest(ib: Inbox, i: Input)
    requires RestOk(ib)
    ensures RestOk(Handle(ib, i)) && KeepsTerminals(ib, Handle(ib, i))
  {
    var u := Handle(ib, i);
    match i
    case Data(f) => DataRest(ib, f);
    case PauseFor(_) => FlowTouches(ib, i); TouchesRest(ib, u); ChangeKeepsTerminals(ib, u, {}, Cancelled, {});
    case Link(_) => FlowTouches(ib, i); TouchesRest(ib, u); ChangeKeepsTerminals(ib, u, {}, Cancelled, {});
    case AbortFor(id) => ClosesSingle(ib, id, Cancelled, {}); ClosesRest(ib, u, {id}, Cancelled);
    case ExpiredFor(id) => ClosesSingle(ib, id, Cancelled, {}); ClosesRest(ib, u, {id}, Cancelled);
    case CompletedFor(id) => CompletedChanges(ib, id); if u != ib { ClosesRest(ib, u, {id}, Incomplete); }
    case ResumeFor(entries) =>
      if entries != [] {
        CancelAllCloses(ib, Abandoned(ib.slots, entries));
        ClosesRest(ib, u, Abandoned(ib.slots, entries), Cancelled);
      }
    case Drain(id) => DeliveredRest(ib, id);
    case RegisterBinary => RegisteredRest(ib, u);
    case RegisterStream => RegisteredRest(ib, u);
    case Death =>
      CancelAllCloses(ib, ib.slots.Keys + ib.streams.Keys);
      ClosesRest(ib, u, ib.slots.Keys + ib.streams.Keys, Cancelled);
  }

  lemma {:induction false} ClosesRest(ib: Inbox, u: Inbox, ids: set<Txid>, final: StreamState)
    requires RestOk(ib) && Closes(ib, u, ids, final)
    ensures RestOk(u) && KeepsTerminals(ib, u)
  {
    ClosesTable(ib, u, ids, final, {});
    ClosesHistory(ib, u, ids, final);
    ChangeKeepsTerminals(ib, u, ids, final, {});
  }

  lemma {:induction false} RegisteredTable(ib: Inbox, u: Inbox)
    requires TableOk(ib, {}) && (u == ib.(binaryHandler := true) || u == ib.(streamHandler := true))
    ensures TableOk(u, {})
  {
    forall j | j in u.streams ensures EntryOk(u, j) { assert EntryOk(ib, j); }
    forall h | 0 <= h < |u.objects| ensures Listed(u, h) <==> Listed(ib, h) { }
  }

  lemma {:induction false} RegisteredHistory(ib: Inbox, u: Inbox)
    requires HistoryOk(ib) && (u == ib.(binaryHandler := true) || u == ib.(streamHandler := true))
    ensures HistoryOk(u) && KeepsTerminals(ib, u)
  {
    forall id | id in u.births ensures OpenSurface(u, id) == OpenSurface(ib, id) { }
  }

  lemma {:induction false} RegisteredRest(ib: Inbox, u: Inbox)
    requires RestOk(ib) && (u == ib.(binaryHandler := true) || u == ib.(streamHandler := true))
    ensures RestOk(u) && KeepsTerminals(ib, u)
  {
    RegisteredTable(ib, u);
    RegisteredHistory(ib, u);
  }

  lemma {:induction false} RunRest(ib: Inbox, inputs: seq<Input>)
    requires RestOk(ib)
    ensures RestOk(HandleAll(ib, inputs)) && KeepsTerminals(ib, HandleAll(ib, inputs))
  {
    if inputs != [] {
      RunRest(ib, inputs[..|inputs| - 1]);
      HandleRest(HandleAll(ib, inputs[..|inputs| - 1]), inputs[|inputs| - 1]);
    }
  }

  /**
   Stream table safety over every run, whatever the peer sends: the table and the ownership set have the
   same ids, each of them an open incomplete slot with a live stream object that was pushed exactly the
   slot's contiguous prefix; and every other stream object is terminal.
   */
  lemma {:induction false} StreamTableSafety(inputs: seq<Input>)
    ensures var ib := HandleAll(EMPTY, inputs);
            && ib.streams.Keys == ib.streamOwned
            && (forall id :: id in ib.streams ==>
                  && id in ib.slots && !IsComplete(ib.slots[id])
                  && Listed(ib, ib.streams[id])
                  && !IsTerminal(ib.objects[ib.streams[id]].stored)
                  && ib.objects[ib.streams[id]].txid == id
                  && ib.objects[ib.streams[id]].chunks == PrefixChunks(ib.slots[id]))
            && (forall h :: 0 <= h < |ib.objects| && !Listed(ib, h) ==> IsTerminal(ib.objects[h].stored))
  {
    EmptyRest();
    RunRest(EMPTY, inputs);
    var ib := HandleAll(EMPTY, inputs);
    forall id | id in ib.streams ensures EntryOk(ib, id) && Listed(ib, ib.streams[id]) { }
  }

  lemma {:induction false} EmptyRest()
    ensures RestOk(EMPTY)
  {
  }

  lemma {:induction false} HandleAllConcat(ib: Inbox, a: seq<Input>, b: seq<Input>)
    ensures HandleAll(ib, a + b) == HandleAll(HandleAll(ib, a), b)
  {
    if b == [] {
      assert a + b == a;
    } else {
      HandleAllConcat(ib, a, b[..|b| - 1]);
      assert (a + b)[..|a + b| - 1] == a + b[..|b| - 1];
    }
  }

  /** Terminal states are final: once a stream object is terminal, no later input changes anything about it. */
  lemma {:induction false} TerminalIsFinal(before: seq<Input>, after: seq<Input>, h: nat)
    requires h < |HandleAll(EMPTY, before).objects|
    requires IsTerminal(HandleAll(EMPTY, before).objects[h].stored)
    ensures h < |HandleAll(EMPTY, before + after).objects|
    ensures HandleAll(EMPTY, before + after).objects[h] == HandleAll(EMPTY, before).objects[h]
  {
    EmptyRest();
    RunRest(EMPTY, before);
    RunRest(HandleAll(EMPTY, before), after);
    HandleAllConcat(EMPTY, before, after);
  }

  /** Every slot incarnation reaches at most one of the two surfaces, and at most once. */
  lemma {:induction false} AtMostOneSurface(inputs: seq<Input>)
    ensures var ib := HandleAll(EMPTY, inputs);
            && (forall g, h :: 0 <= g < h < |ib.objects| ==> ib.objects[g].incarnation != ib.objects[h].incarnation)
            && (forall c, d :: 0 <= c < d < |ib.delivered| ==>
                  ib.delivered[c].incarnation != ib.delivered[d].incarnation)
            && (forall h, d :: 0 <= h < |ib.objects| && 0 <= d < |ib.delivered| ==>
                  ib.objects[h].incarnation != ib.delivered[d].incarnation)
  {
    EmptyRest();
    RunRest(EMPTY, inputs);
  }
}
