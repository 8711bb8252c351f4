/**
 Two parties over a network that drops, duplicates and reorders: a copy holder, a receiving session, every
 data frame ever put on the wire and every ACK entry ever exported. A run is any list of steps; a step that
 is not enabled changes nothing.
 */
module Link {
  import opened Prelude
  import opened Frames
  import opened Sender
  import opened Retention
  import opened SenderRuns
  import opened Reassembly
  import opened Streams
  import opened Inbound
  import opened StreamTable

  /** An exported ACK entry, with the slot it was read from and that slot's incarnation number. */
  datatype AckRecord = AckRecord(entry: AckEntry, slot: Slot, incarnation: nat)

  datatype World = World(tx: Tx, rx: Inbox, net: iset<Frame>, acks: iset<AckRecord>)

  datatype Action =
    /** The holder acts; an ACK it handles must have been exported. */
    | Holder(event: Event)
    /** The network hands over any frame ever sent, in any order, any number of times. */
    | Deliver(frame: Frame)
    /** The receiver exports its progress on a transaction. */
    | Export(id: Txid)
    /** Any other input to the receiving session, from any peer behaviour. */
    | Other(input: Input)

  ghost function Start(): World { World(Tx(map[], map[]), EMPTY, iset{}, iset{}) }

  ghost predicate CanHold(w: World, e: Event)
  {
    && Enabled(w.tx, e)
    && (e.Acks? ==> exists a :: a in w.acks && a.entry == e.entry)
  }

  /** ACK records for the entries readable from a slot table. */
  ghost function Exported(slots: Slots, births: map<Txid, nat>, id: Txid): iset<AckRecord>
  {
    var e := AckFor(slots, id);
    if e.Some? && id in births then iset{AckRecord(e.value, slots[id], births[id])} else iset{}
  }

  /** The final ACK is exported from the complete slot before the slot is settled. */
  ghost function FinalAck(ib: Inbox, f: Frame): iset<AckRecord>
  {
    var r := ReceiveFrame(ib, f).1;
    if r.Ok? && r.value.Accepted? && r.value.complete then
      Exported(Landed(ib, f).slots, Landed(ib, f).births, f.transactionId)
    else iset{}
  }

  ghost function Next(cfg: SenderConfig, w: World, a: Action): World
    requires 0 < cfg.frameSize
  {
    match a
    case Holder(e) =>
      if CanHold(w, e) && SameShape(w.tx.pending) then
        w.(tx := Step(cfg, w.tx, e), net := w.net + iset f | Emits(cfg, w.tx.pending, e, f))
      else w
    case Deliver(f) =>
      if f in w.net then w.(rx := Handle(w.rx, Data(f)), acks := w.acks + FinalAck(w.rx, f)) else w
    case Export(id) => w.(acks := w.acks + Exported(w.rx.slots, w.rx.births, id))
    case Other(i) => if i.Data? then w else w.(rx := Handle(w.rx, i))
  }

  // ---------------------------------------------------------------------------------------------
  // Invariant: everything on the receiving side comes from the recorded history

  ghost predicate SlotFrom(books: map<Txid, Book>, id: Txid, s: Slot)
  {
    id in books && s.totalLen == books[id].totalLen && Agrees(s.frames, books[id].pieces)
  }

  ghost predicate SlotsFrom(books: map<Txid, Book>, slots: Slots)
  {
    forall id :: id in slots ==> SlotFrom(books, id, slots[id])
  }

  /** Chunks of a stream object: a numbered prefix of the pieces; everything, once it is complete. */
  ghost predicate ChunksFrom(b: Book, chunks: seq<(nat, Bytes)>)
  {
    |chunks| <= |b.pieces| && forall i :: 0 <= i < |chunks| ==> chunks[i] == (i, b.pieces[i])
  }

  ghost predicate ObjectFrom(books: map<Txid, Book>, o: StreamObject)
  {
    && o.txid in books
    && ChunksFrom(books[o.txid], o.chunks)
    && (o.stored == Complete ==> Whole(books[o.txid]) && |o.chunks| == |books[o.txid].pieces|)
  }

  /** The whole payload was accepted and framed. */
  ghost predicate Whole(b: Book) { |b.data| == b.totalLen && Flatten(b.pieces) == b.data }

  ghost predicate DeliveryFrom(books: map<Txid, Book>, d: Delivery)
  {
    d.txid in books && Whole(books[d.txid]) && d.payload == books[d.txid].data
  }

  ghost predicate ReceivedFrom(books: map<Txid, Book>, rx: Inbox)
  {
    && SlotsFrom(books, rx.slots)
    && (forall h :: 0 <= h < |rx.objects| ==> ObjectFrom(books, rx.objects[h]))
    && (forall d :: 0 <= d < |rx.delivered| ==> DeliveryFrom(books, rx.delivered[d]))
  }

  ghost predicate AckFrom(books: map<Txid, Book>, a: AckRecord)
  {
    && SlotOk(a.slot) && SlotFrom(books, a.entry.transactionId, a.slot)
    && a.slot.contiguousPrefix == Some(a.entry.highestContiguousSeq)
    && a.entry.receivedFrames == a.slot.receivedFrames
  }

  /** What the holder believes confirmed was reported by some exported ACK. */
  ghost predicate Backed(t: PendingTxn, id: Txid, acks: iset<AckRecord>)
  {
    && (t.ackedContiguous.None? ==> forall i :: 0 <= i < |t.states| ==> !t.states[i].confirmed)
    && (t.ackedContiguous.Some? ==>
          && t.ackedContiguous.value < |t.states|
          && (forall i :: 0 <= i < |t.states| ==> (t.states[i].confirmed <==> i <= t.ackedContiguous.value))
          && exists a :: a in acks && a.entry.transactionId == id
                         && a.entry.highestContiguousSeq == t.ackedContiguous.value)
  }

  ghost predicate Inv(w: World)
  {
    && Good(w.tx)
    && RestOk(w.rx)
    && (forall f :: f in w.net ==> Genuine(w.tx.books, f))
    && ReceivedFrom(w.tx.books, w.rx)
    && (forall a :: a in w.acks ==> AckFrom(w.tx.books, a))
    && (forall id :: id in w.tx.pending ==> Backed(w.tx.pending[id], id, w.acks))
  }

  // ---------------------------------------------------------------------------------------------
  // Histories only grow, so everything recorded stays valid

  lemma {:induction false} WholeStays(b: Book, c: Book)
    requires BookOk(b) && BookOk(c) && Shorter(b, c) && Whole(b)
    ensures c == b
  {
    assert c.data == b.data;
    var extra := c.pieces[|b.pieces|..];
    assert c.pieces == b.pieces + extra;
    FlattenConcat(b.pieces, extra);
    assert |Flatten(extra)| == 0;
  }

  lemma {:induction false} ReceivedStays(m: map<Txid, Book>, n: map<Txid, Book>, rx: Inbox)
    requires Grows(m, n) && ReceivedFrom(m, rx)
    requires (forall id :: id in m ==> BookOk(m[id])) && (forall id :: id in n ==> BookOk(n[id]))
    ensures ReceivedFrom(n, rx)
  {
    forall id | id in rx.slots ensures SlotFrom(n, id, rx.slots[id]) {
      assert SlotFrom(m, id, rx.slots[id]) && Shorter(m[id], n[id]);
    }
    forall h | 0 <= h < |rx.objects| ensures ObjectFrom(n, rx.objects[h]) {
      var o := rx.objects[h];
      assert ObjectFrom(m, o) && Shorter(m[o.txid], n[o.txid]);
      if o.stored == Complete { WholeStays(m[o.txid], n[o.txid]); }
    }
    forall d | 0 <= d < |rx.delivered| ensures DeliveryFrom(n, rx.delivered[d]) {
      var v := rx.delivered[d];
      assert DeliveryFrom(m, v) && Shorter(m[v.txid], n[v.txid]);
      WholeStays(m[v.txid], n[v.txid]);
    }
  }

  lemma {:induction false} AckStays(m: map<Txid, Book>, n: map<Txid, Book>, a: AckRecord)
    requires Grows(m, n) && AckFrom(m, a)
    ensures AckFrom(n, a)
  {
    assert Shorter(m[a.entry.transactionId], n[a.entry.transactionId]);
  }

  lemma {:induction false} GenuineStays(m: map<Txid, Book>, n: map<Txid, Book>, f: Frame)
    requires Grows(m, n) && Genuine(m, f)
    ensures Genuine(n, f)
  {
    assert Shorter(m[f.transactionId], n[f.transactionId]);
  }

  // ---------------------------------------------------------------------------------------------
  // A complete slot is the payload

  /** The heart of end-to-end safety: byte counts alone force a complete slot to be the whole payload. */
  lemma {:induction false} CompleteIsWhole(books: map<Txid, Book>, id: Txid, s: Slot)
    requires SlotOk(s) && SlotFrom(books, id, s) && BookOk(books[id]) && IsComplete(s)
    ensures Whole(books[id])
    ensures Assembled(s.frames) == books[id].data
    ensures PrefixEnd(s) == |books[id].pieces| && forall k :: k in s.frames <==> 0 <= k < |books[id].pieces|
  {
    var b := books[id];
    var n := |b.pieces|;
    assert Bounded(s.frames, n);
    StoredAgainst(s.frames, b.pieces, n);
    assert b.pieces[..n] == b.pieces;
    AssembledAll(s.frames, n);
    assert n < PrefixEnd(s) ==> n in s.frames;
    assert PrefixEnd(s) < n ==> PrefixEnd(s) in s.frames;
  }

  lemma {:induction false} EmissionAt(frames: Store, lo: nat, hi: nat, i: nat)
    requires lo <= hi && (forall k :: lo <= k < hi ==> k in frames) && i < hi - lo
    ensures |Emission(frames, lo, hi)| == hi - lo && Emission(frames, lo, hi)[i] == (lo + i, frames[lo + i])
    decreases hi - lo
  {
    var rest := Emission(frames, lo + 1, hi);
    assert Emission(frames, lo, hi) == [(lo, frames[lo])] + rest;
    if i > 0 {
      EmissionAt(frames, lo + 1, hi, i - 1);
    } else if lo + 1 < hi {
      EmissionAt(frames, lo + 1, hi, 0);
    }
  }

  lemma {:induction false} PrefixChunksFrom(b: Book, frames: Store, lo: nat, hi: nat)
    requires Agrees(frames, b.pieces) && lo <= hi && forall k :: lo <= k < hi ==> k in frames
    ensures |Emission(frames, lo, hi)| == hi - lo && hi <= Max(lo, |b.pieces|)
    ensures forall i :: 0 <= i < hi - lo ==> Emission(frames, lo, hi)[i] == (lo + i, b.pieces[lo + i])
  {
    if lo < hi {
      EmissionAt(frames, lo, hi, 0);
      assert hi - 1 in frames;
    }
    forall i | 0 <= i < hi - lo ensures Emission(frames, lo, hi)[i] == (lo + i, b.pieces[lo + i]) {
      EmissionAt(frames, lo, hi, i);
    }
  }

  // ---------------------------------------------------------------------------------------------
  // Receiver steps

  /** A genuine piece that is not stored yet still fits. */
  lemma {:induction false} PieceFits(b: Book, s: Slot, k: nat)
    requires BookOk(b) && SlotOk(s) && Agrees(s.frames, b.pieces) && k < |b.pieces| && k !in s.frames
    ensures s.receivedBytes + |b.pieces[k]| <= |Flatten(b.pieces)| && Agrees(s.frames[k := b.pieces[k]], b.pieces)
  {
    var n := |b.pieces|;
    var more := s.frames[k := b.pieces[k]];
    assert Bounded(s.frames, n) && Agrees(more, b.pieces);
    StoredInsert(s.frames, k, b.pieces[k], n);
    StoredAgainst(more, b.pieces, n);
    assert b.pieces[..n] == b.pieces;
  }

  /** An honest frame is never rejected and only adds a piece of the history. */
  lemma {:induction false} HonestStore(books: map<Txid, Book>, slots: Slots, f: Frame, emit: bool)
    requires SlotsOk(slots) && SlotsFrom(books, slots) && Genuine(books, f) && BookOk(books[f.transactionId])
    ensures var (u, r) := Receive(slots, f.transactionId, f.seqNo, f.totalLen, |f.payload|, f.payload, emit);
            && SlotsFrom(books, u) && r.Ok?
            && ((f.transactionId in slots || f.seqNo == 0) ==>
                  f.transactionId in u && f.seqNo in u[f.transactionId].frames)
            && (r.value.SlotlessDropped? ==> u == slots)
  {
    var id, b := f.transactionId, books[f.transactionId];
    var s := if id in slots then slots[id] else EmptySlot(f.totalLen);
    EmptySlotOk(f.totalLen);
    assert SlotOk(s) && SlotFrom(books, id, s);
    if f.seqNo !in s.frames { PieceFits(b, s, f.seqNo); }
  }

  /** Live streams hold a prefix of the pieces because their chunks are the slot's prefix. */
  lemma {:induction false} ListedFrom(books: map<Txid, Book>, ib: Inbox, busy: set<Txid>, h: nat)
    requires TableOk(ib, busy) && ChunksOk(ib) && SlotsOk(ib.slots) && SlotsFrom(books, ib.slots) && Listed(ib, h)
    ensures var id := ib.objects[h].txid;
            && id in ib.slots && id in books && ChunksFrom(books[id], ib.objects[h].chunks)
            && |ib.objects[h].chunks| == PrefixEnd(ib.slots[id])
  {
    var id := ib.objects[h].txid;
    assert EntryOk(ib, id) && SlotOk(ib.slots[id]) && SlotFrom(books, id, ib.slots[id]);
    PrefixChunksFrom(books[id], ib.slots[id].frames, 0, PrefixEnd(ib.slots[id]));
  }

  lemma {:induction false} ClosesFrom(books: map<Txid, Book>, ib: Inbox, u: Inbox, ids: set<Txid>, final: StreamState)
    requires ReceivedFrom(books, ib) && Closes(ib, u, ids, final)
    requires final == Complete ==> forall h :: 0 <= h < |ib.objects| && Listed(ib, h) && ib.objects[h].txid in ids ==>
               Whole(books[ib.objects[h].txid]) && |ib.objects[h].chunks| == |books[ib.objects[h].txid].pieces|
    ensures ReceivedFrom(books, u)
  {
    forall h | 0 <= h < |u.objects| ensures ObjectFrom(books, u.objects[h]) { assert ObjectFrom(books, ib.objects[h]); }
    forall id | id in u.slots ensures SlotFrom(books, id, u.slots[id]) { assert SlotFrom(books, id, ib.slots[id]); }
  }

  lemma {:induction false} TouchesFrom(books: map<Txid, Book>, ib: Inbox, u: Inbox)
    requires ReceivedFrom(books, ib) && Touches(ib, u)
    ensures ReceivedFrom(books, u)
  {
    forall h | 0 <= h < |u.objects| ensures ObjectFrom(books, u.objects[h]) { assert ObjectFrom(books, ib.objects[h]); }
  }

  ghost predicate BooksOk(books: map<Txid, Book>) { forall id :: id in books ==> BookOk(books[id]) }

  /** A slot taken from the table takes nothing else along. */
  lemma {:induction false} FewerSlotsFrom(books: map<Txid, Book>, slots: Slots, ids: set<Txid>)
    requires SlotsFrom(books, slots)
    ensures SlotsFrom(books, slots - ids)
  {
    forall j | j in slots - ids ensures SlotFrom(books, j, slots[j]) { }
  }

  lemma {:induction false} DeliveredShape(ib: Inbox, id: Txid)
    requires id in ib.slots && IsComplete(ib.slots[id])
    ensures var u := Delivered(ib, id);
            && u.slots == ib.slots - {id} && u.objects == ib.objects
            && u.delivered == ib.delivered + [Delivery(Birth(ib, id), id, Assembled(ib.slots[id].frames))]
  {
  }

  lemma {:induction false} ReceivedMore(books: map<Txid, Book>, ib: Inbox, u: Inbox, id: Txid, d: Delivery)
    requires ReceivedFrom(books, ib) && DeliveryFrom(books, d)
    requires u.slots == ib.slots - {id} && u.objects == ib.objects && u.delivered == ib.delivered + [d]
    ensures ReceivedFrom(books, u)
  {
    FewerSlotsFrom(books, ib.slots, {id});
  }

  lemma {:induction false} DeliveredFrom(books: map<Txid, Book>, ib: Inbox, id: Txid)
    requires BooksOk(books) && ReceivedFrom(books, ib) && SlotsOk(ib.slots)
    ensures ReceivedFrom(books, Delivered(ib, id))
  {
    if id in ib.slots && IsComplete(ib.slots[id]) {
      var d := Delivery(Birth(ib, id), id, Assembled(ib.slots[id].frames));
      assert DeliveryFrom(books, d) by {
        assert SlotFrom(books, id, ib.slots[id]) && SlotOk(ib.slots[id]);
        CompleteIsWhole(books, id, ib.slots[id]);
      }
      DeliveredShape(ib, id);
      ReceivedMore(books, ib, Delivered(ib, id), id, d);
    }
  }

  /** Inputs other than data frames move nothing from the network into the session. */
  lemma {:induction false} OtherFrom(books: map<Txid, Book>, ib: Inbox, i: Input)
    requires BooksOk(books) && RestOk(ib) && ReceivedFrom(books, ib) && !i.Data?
    ensures ReceivedFrom(books, Handle(ib, i))
  {
    var u := Handle(ib, i);
    if i.PauseFor? || i.Link? { FlowTouches(ib, i); TouchesFrom(books, ib, u); }
    else if i.AbortFor? || i.ExpiredFor? {
      ClosesSingle(ib, i.id, Cancelled, {});
      ClosesFrom(books, ib, u, {i.id}, Cancelled);
    }
    else if i.CompletedFor? { CompletedChanges(ib, i.id); if u != ib { ClosesFrom(books, ib, u, {i.id}, Incomplete); } }
    else if i.ResumeFor? && i.entries != [] {
      CancelAllCloses(ib, Abandoned(ib.slots, i.entries));
      ClosesFrom(books, ib, u, Abandoned(ib.slots, i.entries), Cancelled);
    } else if i.Death? {
      CancelAllCloses(ib, ib.slots.Keys + ib.streams.Keys);
      ClosesFrom(books, ib, u, ib.slots.Keys + ib.streams.Keys, Cancelled);
    } else if i.Drain? { DeliveredFrom(books, ib, i.id); }
    else { assert u.slots == ib.slots && u.objects == ib.objects && u.delivered == ib.delivered; }
  }

  /** Storing and pushing keeps earlier streams listed and delivers nothing. */
  lemma {:induction false} StreamedShape(ib: Inbox, f: Frame, emitted: seq<(nat, Bytes)>, j: Txid)
    ensures var v := Streamed(Landed(ib, f), f, OpensStream(ib, f), emitted);
            && v.delivered == ib.delivered && v.slots == ReceiveFrame(ib, f).0
            && (j in ib.streams && j != f.transactionId ==> j in v.streams && v.streams[j] == ib.streams[j])
            && (f.transactionId in ib.slots ==> v.streams == ib.streams)
  {
  }

  lemma {:induction false} MidFrom(books: map<Txid, Book>, ib: Inbox, f: Frame)
    requires BooksOk(books) && RestOk(ib) && ReceivedFrom(books, ib) && Genuine(books, f)
    requires var r := ReceiveFrame(ib, f).1; r.Ok? && r.value.Accepted?
    ensures var v := Streamed(Landed(ib, f), f, OpensStream(ib, f), ReceiveFrame(ib, f).1.value.emitted);
            && f.transactionId in v.slots && MidOk(ib, v, f.transactionId, v.slots[f.transactionId])
            && ReceivedFrom(books, v)
  {
    StreamedMid(ib, f);
    HonestStore(books, ib.slots, f, ib.streamHandler);
    var emitted := ReceiveFrame(ib, f).1.value.emitted;
    var v := Streamed(Landed(ib, f), f, OpensStream(ib, f), emitted);
    StreamedShape(ib, f, emitted, f.transactionId);
    forall h | 0 <= h < |v.objects| ensures ObjectFrom(books, v.objects[h]) {
      if Listed(v, h) {
        ListedFrom(books, v, {f.transactionId}, h);
        assert !IsTerminal(v.objects[h].stored);
      } else {
        UnlistedWasTerminal(ib, v, f, emitted, h);
        assert ObjectFrom(books, ib.objects[h]);
      }
    }
    forall d | 0 <= d < |v.delivered| ensures DeliveryFrom(books, v.delivered[d]) {
      assert DeliveryFrom(books, ib.delivered[d]);
    }
  }

  lemma {:induction false} UnlistedWasTerminal(ib: Inbox, v: Inbox, f: Frame, emitted: seq<(nat, Bytes)>, h: nat)
    requires RestOk(ib) && KeepsTerminals(ib, v) && TableOk(v, {f.transactionId})
    requires v == Streamed(Landed(ib, f), f, OpensStream(ib, f), emitted)
    requires h < |v.objects| && !Listed(v, h)
    ensures h < |ib.objects| && v.objects[h] == ib.objects[h]
  {
    if h < |ib.objects| {
      var j := ib.objects[h].txid;
      StreamedShape(ib, f, emitted, j);
      assert j in ib.streams ==> EntryOk(ib, j);
      assert !Listed(ib, h);
    }
  }

  lemma {:induction false} StreamSettlesFrom(books: map<Txid, Book>, v: Inbox, id: Txid)
    requires BooksOk(books) && ReceivedFrom(books, v) && id in v.slots && IsComplete(v.slots[id])
    requires SlotsOk(v.slots) && TableOk(v, {id}) && ChunksOk(v)
    requires Closes(v, Settled(v, id), {id}, Complete)
    ensures ReceivedFrom(books, Settled(v, id))
  {
    assert SlotFrom(books, id, v.slots[id]) && SlotOk(v.slots[id]);
    CompleteIsWhole(books, id, v.slots[id]);
    forall h | 0 <= h < |v.objects| && Listed(v, h) && v.objects[h].txid in {id}
      ensures Whole(books[v.objects[h].txid]) && |v.objects[h].chunks| == |books[v.objects[h].txid].pieces|
    {
      ListedFrom(books, v, {id}, h);
    }
    ClosesFrom(books, v, Settled(v, id), {id}, Complete);
  }

  lemma {:induction false} SettledFrom(books: map<Txid, Book>, ib: Inbox, v: Inbox, id: Txid)
    requires BooksOk(books) && id in v.slots && MidOk(ib, v, id, v.slots[id]) && ReceivedFrom(books, v)
             && IsComplete(v.slots[id])
    ensures ReceivedFrom(books, Settled(v, id))
  {
    if id in v.streamOwned {
      StreamSettles(v, id);
      StreamSettlesFrom(books, v, id);
    } else {
      DeliveredFrom(books, v, id);
    }
  }

  lemma {:induction false} DataFrom(books: map<Txid, Book>, ib: Inbox, f: Frame)
    requires BooksOk(books) && RestOk(ib) && ReceivedFrom(books, ib) && Genuine(books, f)
    ensures ReceivedFrom(books, OnData(ib, f))
  {
    var r := ReceiveFrame(ib, f).1;
    var id := f.transactionId;
    if r.Ok? && r.value.Accepted? {
      MidFrom(books, ib, f);
      StreamedMid(ib, f);
      var v := Streamed(Landed(ib, f), f, OpensStream(ib, f), r.value.emitted);
      if r.value.complete { SettledFrom(books, ib, v, id); }
    } else {
      HonestStore(books, ib.slots, f, ib.streamHandler);
      assert Landed(ib, f).objects == ib.objects && Landed(ib, f).delivered == ib.delivered;
    }
  }
}
