/** End-to-end safety, ACK soundness and streaming refinement over every run of the two-party machine. */
module LinkRuns {
  import opened Prelude
  import opened Frames
  import opened Sender
  import opened Retention
  import opened SenderRuns
  import opened Reassembly
  import opened Streams
  import opened Inbound
  import opened StreamTable
  import opened Link

  // ---------------------------------------------------------------------------------------------
  // Holder steps keep what the holder believes backed by exported ACKs

  /** An exported entry never claims more than the frames that exist. */
  lemma {:induction false} AckInRange(books: map<Txid, Book>, a: AckRecord)
    requires AckFrom(books, a)
    ensures a.entry.highestContiguousSeq < |books[a.entry.transactionId].pieces|
    ensures forall k :: 0 <= k <= a.entry.highestContiguousSeq ==> k in a.slot.frames
  {
    assert a.entry.highestContiguousSeq in a.slot.frames;
  }

  lemma {:induction false} BackedRestamped(t: PendingTxn, u: PendingTxn, id: Txid, acks: iset<AckRecord>)
    requires Backed(t, id, acks) && Restamped(t, u)
    ensures Backed(u, id, acks)
  {
  }

  /** New frames are unconfirmed. */
  lemma {:induction false} BackedExtended(t: PendingTxn, u: PendingTxn, id: Txid, acks: iset<AckRecord>)
    requires Backed(t, id, acks) && t.states <= u.states && t.ackedContiguous == u.ackedContiguous
    requires forall i :: |t.states| <= i < |u.states| ==> !u.states[i].confirmed
    ensures Backed(u, id, acks)
  {
    forall i | 0 <= i < |t.states| ensures u.states[i] == t.states[i] { }
  }

  /** Exported progress is in range, so merging it needs no clamping and stays backed. */
  lemma {:induction false} BackedAcked(t: PendingTxn, id: Txid, acks: iset<AckRecord>, a: AckRecord, now: nat)
    requires Backed(t, id, acks) && |t.frames| == |t.states| && a in acks && a.entry.transactionId == id
    requires a.entry.highestContiguousSeq < |t.frames|
    ensures Backed(Acked(t, a.entry, now), id, acks)
    ensures Acked(t, a.entry, now).ackedContiguous
            == Some(if t.ackedContiguous.Some? then Max(t.ackedContiguous.value, a.entry.highestContiguousSeq)
                    else a.entry.highestContiguousSeq)
  {
  }

  lemma {:induction false} CutUnconfirmed(t: PendingTxn, id: Txid, frameSize: nat, now: nat)
    requires 0 < frameSize
    ensures t.states <= Cut(t, id, frameSize, now).states
    ensures Cut(t, id, frameSize, now).ackedContiguous == t.ackedContiguous
    ensures forall i :: |t.states| <= i < |Cut(t, id, frameSize, now).states| ==>
              !Cut(t, id, frameSize, now).states[i].confirmed
    decreases |t.partial|
  {
    if |t.partial| >= frameSize { CutUnconfirmed(Push(t, id, frameSize, now), id, frameSize, now); }
  }

  lemma {:induction false} FramingBacked(cfg: SenderConfig, p: Pending, acks: iset<AckRecord>, e: Event)
    requires 0 < cfg.frameSize && SameShape(p) && (e.Opens? || e.Appends? || e.Finishes?) && e.id in After(cfg, p, e)
    requires e.id in p ==> Backed(p[e.id], e.id, acks)
    ensures Backed(After(cfg, p, e)[e.id], e.id, acks)
  {
    if e.id in p {
      if e.Appends? { CutUnconfirmed(Buffered(p[e.id], e.chunk), e.id, cfg.frameSize, e.now); }
      BackedExtended(p[e.id], After(cfg, p, e)[e.id], e.id, acks);
    }
  }

  lemma {:induction false} AcksBacked(cfg: SenderConfig, w: World, e: Event)
    requires 0 < cfg.frameSize && Inv(w) && e.Acks? && CanHold(w, e) && e.entry.transactionId in w.tx.pending
    ensures Backed(Acked(w.tx.pending[e.entry.transactionId], e.entry, e.now), e.entry.transactionId, w.acks)
  {
    var id := e.entry.transactionId;
    var a :| a in w.acks && a.entry == e.entry;
    AckInRange(w.tx.books, a);
    assert Tracks(id, w.tx.pending[id], w.tx.books[id]);
    BackedAcked(w.tx.pending[id], id, w.acks, a, e.now);
  }

  ghost function Target(e: Event): Txid
    requires !e.Verdicts? && !IsTimer(e)
  {
    if e.Acks? then e.entry.transactionId else e.id
  }

  lemma {:induction false} OthersUntouched(cfg: SenderConfig, p: Pending, e: Event, id: Txid)
    requires 0 < cfg.frameSize && SameShape(p) && !e.Verdicts? && !IsTimer(e)
    requires id != Target(e) && id in After(cfg, p, e)
    ensures id in p && After(cfg, p, e)[id] == p[id]
  {
  }

  lemma {:induction false} HolderBacked(cfg: SenderConfig, w: World, e: Event, id: Txid)
    requires 0 < cfg.frameSize && Inv(w) && CanHold(w, e) && id in After(cfg, w.tx.pending, e)
    ensures Backed(After(cfg, w.tx.pending, e)[id], id, w.acks)
  {
    var p := w.tx.pending;
    if e.Verdicts? {
      VerdictsOnlyStamp(p, e.entries, e.now, id);
      BackedRestamped(p[id], After(cfg, p, e)[id], id, w.acks);
    } else if IsTimer(e) {
      TimerBacked(cfg, w, e, id);
    } else if id != Target(e) {
      OthersUntouched(cfg, p, e, id);
    } else if e.Acks? {
      AcksBacked(cfg, w, e);
    } else if !e.Aborts? {
      FramingBacked(cfg, p, w.acks, e);
    }
  }

  lemma {:induction false} TimerBacked(cfg: SenderConfig, w: World, e: Event, id: Txid)
    requires 0 < cfg.frameSize && Inv(w) && IsTimer(e) && id in After(cfg, w.tx.pending, e)
    ensures Backed(After(cfg, w.tx.pending, e)[id], id, w.acks)
  {
    TimerKeys(cfg, w.tx.pending, e, id);
    TimersRestamp(cfg, w.tx.pending, e, id);
    BackedRestamped(w.tx.pending[id], After(cfg, w.tx.pending, e)[id], id, w.acks);
  }

  lemma {:induction false} HolderKeeps(cfg: SenderConfig, w: World, e: Event)
    requires 0 < cfg.frameSize && Inv(w) && CanHold(w, e)
    ensures Inv(Next(cfg, w, Holder(e))) && Grows(w.tx.books, Next(cfg, w, Holder(e)).tx.books)
  {
    var u := Next(cfg, w, Holder(e));
    StepGood(cfg, w.tx, e);
    forall f | f in u.net ensures Genuine(u.tx.books, f) {
      if f in w.net { GenuineStays(w.tx.books, u.tx.books, f); } else { EmitsGenuine(cfg, w.tx, e, f); }
    }
    ReceivedStays(w.tx.books, u.tx.books, w.rx);
    forall a | a in u.acks ensures AckFrom(u.tx.books, a) { AckStays(w.tx.books, u.tx.books, a); }
    forall id | id in u.tx.pending ensures Backed(u.tx.pending[id], id, u.acks) { HolderBacked(cfg, w, e, id); }
  }

  // ---------------------------------------------------------------------------------------------
  // Receiver steps

  lemma {:induction false} MoreAcks(w: World, rx: Inbox, more: iset<AckRecord>)
    requires Inv(w) && RestOk(rx) && ReceivedFrom(w.tx.books, rx)
    requires forall a :: a in more ==> AckFrom(w.tx.books, a)
    ensures Inv(w.(rx := rx, acks := w.acks + more))
  {
    var u := w.(rx := rx, acks := w.acks + more);
    forall id | id in u.tx.pending ensures Backed(u.tx.pending[id], id, u.acks) {
      var t := u.tx.pending[id];
      assert Backed(t, id, w.acks);
      if t.ackedContiguous.Some? {
        var a :| a in w.acks && a.entry.transactionId == id && a.entry.highestContiguousSeq == t.ackedContiguous.value;
        assert a in u.acks;
      }
    }
  }

  lemma {:induction false} ExportedFrom(books: map<Txid, Book>, slots: Slots, births: map<Txid, nat>, id: Txid)
    requires SlotsOk(slots) && SlotsFrom(books, slots)
    ensures forall a :: a in Exported(slots, births, id) ==> AckFrom(books, a)
  {
    if id in slots { assert SlotFrom(books, id, slots[id]) && SlotOk(slots[id]); }
  }

  lemma {:induction false} DeliverKeeps(cfg: SenderConfig, w: World, f: Frame)
    requires 0 < cfg.frameSize && Inv(w) && f in w.net
    ensures Inv(Next(cfg, w, Deliver(f)))
  {
    var books := w.tx.books;
    DataRest(w.rx, f);
    DataFrom(books, w.rx, f);
    HonestStore(books, w.rx.slots, f, w.rx.streamHandler);
    ReceiveOk(w.rx.slots, f.transactionId, f.seqNo, f.totalLen, |f.payload|, f.payload, w.rx.streamHandler);
    ExportedFrom(books, Landed(w.rx, f).slots, Landed(w.rx, f).births, f.transactionId);
    MoreAcks(w, OnData(w.rx, f), FinalAck(w.rx, f));
  }

  /** Every step keeps the invariant, and histories only grow. */
  lemma {:induction false} NextKeeps(cfg: SenderConfig, w: World, a: Action)
    requires 0 < cfg.frameSize && Inv(w)
    ensures Inv(Next(cfg, w, a)) && Grows(w.tx.books, Next(cfg, w, a).tx.books)
  {
    match a
    case Holder(e) => if CanHold(w, e) { HolderKeeps(cfg, w, e); }
    case Deliver(f) => if f in w.net { DeliverKeeps(cfg, w, f); }
    case Export(id) =>
      ExportedFrom(w.tx.books, w.rx.slots, w.rx.births, id);
      MoreAcks(w, w.rx, Exported(w.rx.slots, w.rx.births, id));
    case Other(i) =>
      if !i.Data? {
        HandleRest(w.rx, i);
        OtherFrom(w.tx.books, w.rx, i);
        MoreAcks(w, Handle(w.rx, i), iset{});
        assert w.acks + iset{} == w.acks;
      }
  }

  /** The state after a run of steps. */
  ghost function Run(cfg: SenderConfig, actions: seq<Action>): World
    requires 0 < cfg.frameSize
  {
    if actions == [] then Start() else Next(cfg, Run(cfg, actions[..|actions| - 1]), actions[|actions| - 1])
  }

  lemma {:induction false} RunInv(cfg: SenderConfig, actions: seq<Action>)
    requires 0 < cfg.frameSize
    ensures Inv(Run(cfg, actions))
  {
    if actions == [] {
      EmptyRest();
    } else {
      RunInv(cfg, actions[..|actions| - 1]);
      NextKeeps(cfg, Run(cfg, actions[..|actions| - 1]), actions[|actions| - 1]);
    }
  }

  /** What `handle_ack` and the other operations ask of the table holds in every run. */
  lemma {:induction false} RunShape(cfg: SenderConfig, actions: seq<Action>)
    requires 0 < cfg.frameSize
    ensures SameShape(Run(cfg, actions).tx.pending)
  {
    RunInv(cfg, actions);
  }

  // ---------------------------------------------------------------------------------------------
  // End-to-end safety

  /** The bytes the holder accepted for `id` along a run: its successful appends, in order. */
  ghost function WrittenBy(cfg: SenderConfig, actions: seq<Action>, id: Txid): Bytes
    requires 0 < cfg.frameSize
  {
    if actions == [] then []
    else
      var before := actions[..|actions| - 1];
      var a := actions[|actions| - 1];
      WrittenBy(cfg, before, id)
      + (if a.Holder? && Accepts(cfg, Run(cfg, before).tx.pending, a.event, id) then a.event.chunk else [])
  }

  lemma {:induction false} BookIsWritten(cfg: SenderConfig, actions: seq<Action>, id: Txid)
    requires 0 < cfg.frameSize
    ensures id in Run(cfg, actions).tx.books ==> Run(cfg, actions).tx.books[id].data == WrittenBy(cfg, actions, id)
    ensures id !in Run(cfg, actions).tx.books ==> WrittenBy(cfg, actions, id) == []
  {
    if actions != [] {
      var before := actions[..|actions| - 1];
      BookIsWritten(cfg, before, id);
      RunInv(cfg, before);
      var w, a := Run(cfg, before), actions[|actions| - 1];
      BookStep(cfg, w, a, id);
    }
  }

  ghost predicate Accepts(cfg: SenderConfig, p: Pending, e: Event, id: Txid)
    requires 0 < cfg.frameSize
  {
    e.Appends? && e.id == id && Append(cfg, p, id, e.chunk, e.now).1.Ok?
  }

  lemma {:induction false} TxBookStep(cfg: SenderConfig, tx: Tx, e: Event, id: Txid)
    requires 0 < cfg.frameSize && Good(tx) && Enabled(tx, e)
    ensures var books := BooksAfter(cfg, tx, e);
            && (id in tx.books ==>
                  && id in books
                  && books[id].data == tx.books[id].data + (if Accepts(cfg, tx.pending, e, id) then e.chunk else []))
            && (id !in tx.books ==> !Accepts(cfg, tx.pending, e, id) && (id in books ==> books[id].data == []))
  {
    if id in tx.pending { assert id in tx.books; }
  }

  lemma {:induction false} BookStep(cfg: SenderConfig, w: World, a: Action, id: Txid)
    requires 0 < cfg.frameSize && Inv(w)
    ensures var appended := a.Holder? && Accepts(cfg, w.tx.pending, a.event, id);
            var books := Next(cfg, w, a).tx.books;
            && (id in w.tx.books ==>
                  id in books && books[id].data == w.tx.books[id].data + (if appended then a.event.chunk else []))
            && (id !in w.tx.books ==> !appended && (id in books ==> books[id].data == []))
  {
    if a.Holder? {
      if CanHold(w, a.event) { TxBookStep(cfg, w.tx, a.event, id); }
    } else {
      assert Next(cfg, w, a).tx == w.tx;
    }
  }

  /**
   End-to-end safety: for every payload, write chunking, frame size and network schedule, whatever the
   aggregate surface receives for an id — and whatever `take_completed` would hand out at any moment — is
   exactly the bytes the holder accepted for it, and as many as it declared.
   */
  lemma {:induction false} EndToEnd(cfg: SenderConfig, actions: seq<Action>, id: Txid, payload: Bytes)
    requires 0 < cfg.frameSize
    requires var rx := Run(cfg, actions).rx;
             TakeCompleted(rx.slots, id).1 == Some(payload)
             || exists d :: 0 <= d < |rx.delivered| && rx.delivered[d].txid == id && rx.delivered[d].payload == payload
    ensures id in Run(cfg, actions).tx.books
    ensures payload == WrittenBy(cfg, actions, id)
    ensures |payload| == Run(cfg, actions).tx.books[id].totalLen
  {
    var w := Run(cfg, actions);
    RunInv(cfg, actions);
    BookIsWritten(cfg, actions, id);
    if TakeCompleted(w.rx.slots, id).1 == Some(payload) {
      assert SlotFrom(w.tx.books, id, w.rx.slots[id]) && SlotOk(w.rx.slots[id]);
      CompleteIsWhole(w.tx.books, id, w.rx.slots[id]);
    } else {
      var d :| 0 <= d < |w.rx.delivered| && w.rx.delivered[d].txid == id && w.rx.delivered[d].payload == payload;
      assert DeliveryFrom(w.tx.books, w.rx.delivered[d]);
    }
  }

  // ---------------------------------------------------------------------------------------------
  // ACK soundness

  /** The slot table as the receiver sees it during a step: a delivered frame is stored before it is settled. */
  ghost function SlotsDuring(w: World, a: Action): Slots
  {
    if a.Deliver? && a.frame in w.net then ReceiveFrame(w.rx, a.frame).0 else w.rx.slots
  }

  /** During step `j` of the run, the receiver held `s` for `id`. */
  ghost predicate HeldAt(cfg: SenderConfig, actions: seq<Action>, j: nat, id: Txid, s: Slot)
    requires 0 < cfg.frameSize
  {
    && j < |actions|
    && id in SlotsDuring(Run(cfg, actions[..j]), actions[j])
    && SlotsDuring(Run(cfg, actions[..j]), actions[j])[id] == s
  }

  lemma {:induction false} HeldLater(cfg: SenderConfig, actions: seq<Action>, n: nat, j: nat, id: Txid, s: Slot)
    requires 0 < cfg.frameSize && n <= |actions| && HeldAt(cfg, actions[..n], j, id, s)
    ensures HeldAt(cfg, actions, j, id, s)
  {
    assert actions[..n][..j] == actions[..j];
  }

  lemma {:induction false} AckWasHeld(cfg: SenderConfig, actions: seq<Action>, a: AckRecord) returns (j: nat)
    requires 0 < cfg.frameSize && a in Run(cfg, actions).acks
    ensures HeldAt(cfg, actions, j, a.entry.transactionId, a.slot)
  {
    var n := |actions| - 1;
    if a in Run(cfg, actions[..n]).acks {
      j := AckWasHeld(cfg, actions[..n], a);
      HeldLater(cfg, actions, n, j, a.entry.transactionId, a.slot);
    } else {
      NewAckHeld(cfg, Run(cfg, actions[..n]), actions[n], a);
      j := n;
    }
  }

  lemma {:induction false} NewAckHeld(cfg: SenderConfig, w: World, step: Action, a: AckRecord)
    requires 0 < cfg.frameSize && a in Next(cfg, w, step).acks && a !in w.acks
    ensures a.entry.transactionId in SlotsDuring(w, step)
    ensures SlotsDuring(w, step)[a.entry.transactionId] == a.slot
  {
  }

  /** `s` holds every piece of `b`. */
  ghost predicate HoldsAll(s: Slot, b: Book)
  {
    forall k :: 0 <= k < |b.pieces| ==> k in s.frames && s.frames[k] == b.pieces[k]
  }

  /** A completing ACK is backed by one exported entry that covers the whole, fully written payload. */
  lemma {:induction false} CompletingAck(cfg: SenderConfig, w: World, e: Event) returns (a: AckRecord)
    requires 0 < cfg.frameSize && Inv(w) && e.Acks? && CanHold(w, e)
    requires HandleAck(w.tx.pending, e.entry, e.now).1
    ensures a in w.acks && a.entry.transactionId == e.entry.transactionId && e.entry.transactionId in w.tx.books
    ensures Whole(w.tx.books[e.entry.transactionId]) && HoldsAll(a.slot, w.tx.books[e.entry.transactionId])
  {
    var id := e.entry.transactionId;
    assert Tracks(id, w.tx.pending[id], w.tx.books[id]);
    var t := Acked(w.tx.pending[id], e.entry, e.now);
    TracksAcked(id, w.tx.pending[id], w.tx.books[id], e.entry, e.now);
    AcksBacked(cfg, w, e);
    a := BackingAck(t, id, w.acks);
    assert AckFrom(w.tx.books, a);
    AckedIsHeld(w.tx.books, id, t, a);
  }

  lemma {:induction false} BackingAck(t: PendingTxn, id: Txid, acks: iset<AckRecord>) returns (a: AckRecord)
    requires Backed(t, id, acks) && t.ackedContiguous.Some?
    ensures a in acks && a.entry.transactionId == id && a.entry.highestContiguousSeq == t.ackedContiguous.value
  {
    a :| a in acks && a.entry.transactionId == id && a.entry.highestContiguousSeq == t.ackedContiguous.value;
  }

  /** A fully acknowledged transaction is backed by a slot that held all its frames. */
  lemma {:induction false} AckedIsHeld(books: map<Txid, Book>, id: Txid, t: PendingTxn, a: AckRecord)
    requires id in books && Tracks(id, t, books[id]) && IsFullyAcked(t) && AckFrom(books, a)
    requires a.entry.transactionId == id && a.entry.highestContiguousSeq == t.ackedContiguous.value
    ensures Whole(books[id]) && HoldsAll(a.slot, books[id])
  {
    AckInRange(books, a);
    assert SlotFrom(books, id, a.slot);
    assert Flatten(books[id].pieces) + [] == Flatten(books[id].pieces);
  }

  /**
   ACK soundness: with an honest receiver and lossy, stale, duplicated or reordered ACKs, `handle_ack` reports
   completion only if the payload was fully written and, at some earlier step, the receiver held all of it.
   */
  lemma {:induction false} AckSoundness(cfg: SenderConfig, actions: seq<Action>, entry: AckEntry, now: nat)
    requires 0 < cfg.frameSize && CanHold(Run(cfg, actions), Acks(entry, now))
    requires SameShape(Run(cfg, actions).tx.pending) && HandleAck(Run(cfg, actions).tx.pending, entry, now).1
    ensures entry.transactionId in Run(cfg, actions).tx.books
    ensures var b := Run(cfg, actions).tx.books[entry.transactionId];
            && Whole(b) && b.data == WrittenBy(cfg, actions, entry.transactionId)
            && exists j, s :: HeldAt(cfg, actions, j, entry.transactionId, s) && HoldsAll(s, b)
  {
    var w := Run(cfg, actions);
    RunInv(cfg, actions);
    var a := CompletingAck(cfg, w, Acks(entry, now));
    var j := AckWasHeld(cfg, actions, a);
    BookIsWritten(cfg, actions, entry.transactionId);
    assert HeldAt(cfg, actions, j, entry.transactionId, a.slot) && HoldsAll(a.slot, w.tx.books[entry.transactionId]);
  }

  // ---------------------------------------------------------------------------------------------
  // Streaming refines aggregation

  function ChunkBytes(chunks: seq<(nat, Bytes)>): Bytes
  {
    Flatten(seq(|chunks|, i requires 0 <= i < |chunks| => chunks[i].1))
  }

  lemma {:induction false} ChunksArePrefix(b: Book, chunks: seq<(nat, Bytes)>)
    requires BookOk(b) && ChunksFrom(b, chunks)
    ensures ChunkBytes(chunks) <= b.data
    ensures |chunks| == |b.pieces| && Whole(b) ==> ChunkBytes(chunks) == b.data
  {
    var n := |chunks|;
    assert seq(n, i requires 0 <= i < n => chunks[i].1) == b.pieces[..n];
    assert b.pieces == b.pieces[..n] + b.pieces[n..];
    FlattenConcat(b.pieces[..n], b.pieces[n..]);
  }

  /**
   Streaming refines aggregation: over any run, the chunks pushed into a stream are frames 0, 1, 2, … each
   once and in order; their bytes are always a prefix of what the holder accepted, and all of it — as much
   as declared — when the stream ends `Complete`. While the stream is live they are the contiguous prefix.
   */
  lemma {:induction false} StreamingRefines(cfg: SenderConfig, actions: seq<Action>, h: nat)
    requires 0 < cfg.frameSize && h < |Run(cfg, actions).rx.objects|
    ensures var o := Run(cfg, actions).rx.objects[h];
            && (forall i :: 0 <= i < |o.chunks| ==> o.chunks[i].0 == i)
            && ChunkBytes(o.chunks) <= WrittenBy(cfg, actions, o.txid)
            && (o.stored == Complete ==>
                  && ChunkBytes(o.chunks) == WrittenBy(cfg, actions, o.txid)
                  && o.txid in Run(cfg, actions).tx.books
                  && |ChunkBytes(o.chunks)| == Run(cfg, actions).tx.books[o.txid].totalLen)
    ensures var rx := Run(cfg, actions).rx;
            Listed(rx, h) ==>
              rx.objects[h].txid in rx.slots && |rx.objects[h].chunks| == PrefixEnd(rx.slots[rx.objects[h].txid])
  {
    var w := Run(cfg, actions);
    RunInv(cfg, actions);
    var o := w.rx.objects[h];
    assert ObjectFrom(w.tx.books, o);
    ChunksArePrefix(w.tx.books[o.txid], o.chunks);
    BookIsWritten(cfg, actions, o.txid);
    if Listed(w.rx, h) { ListedFrom(w.tx.books, w.rx, {}, h); }
  }
}
