/**
 What every sender operation keeps, whatever the peer reports: per-frame copy retention, the byte
 accounting behind it, and the global backpressure bound, over arbitrary runs of sender events.
 */
module Retention {
  import opened Prelude
  import opened Frames
  import opened Sender

  /** History of one transaction: every piece ever framed, and every byte ever accepted. */
  datatype Book = Book(totalLen: nat, pieces: seq<Bytes>, data: Bytes)

  function FrameOf(id: Txid, b: Book, i: nat): Frame
    requires i < |b.pieces|
  {
    Frame(DataBinary, id, b.totalLen, i, b.pieces[i])
  }

  /** Framed pieces are non-empty and make up a prefix of the accepted bytes. */
  ghost predicate BookOk(b: Book)
  {
    && (forall i :: 0 <= i < |b.pieces| ==> b.pieces[i] != [])
    && Flatten(b.pieces) <= b.data
    && |b.data| <= b.totalLen
    && 0 < b.totalLen
  }

  /** Confirmed frames form a prefix; a copy is held exactly while its frame is unconfirmed. */
  ghost predicate Shape(t: PendingTxn)
  {
    && |t.frames| == |t.states|
    && (forall i :: 0 <= i < |t.frames| ==> (t.frames[i].Some? <==> !t.states[i].confirmed))
    && (forall i, j :: 0 <= i < j < |t.states| && t.states[j].confirmed ==> t.states[i].confirmed)
  }

  /** A pending transaction agrees with its history. */
  ghost predicate Tracks(id: Txid, t: PendingTxn, b: Book)
  {
    && Shape(t)
    && BookOk(b)
    && t.totalLen == b.totalLen
    && |t.frames| == |b.pieces|
    && (forall i :: 0 <= i < |t.frames| && t.frames[i].Some? ==> t.frames[i].value == FrameOf(id, b, i))
    && t.bytes == Held(t.frames) + |t.partial|
    && t.written == |b.data|
    && b.data == Flatten(b.pieces) + t.partial
  }

  // ---------------------------------------------------------------------------------------------
  // Each transaction-level operation keeps `Tracks`

  lemma {:induction false} TracksPush(id: Txid, t: PendingTxn, b: Book, n: nat, now: nat)
    requires Tracks(id, t, b) && 0 < n <= |t.partial|
    ensures Tracks(id, Push(t, id, n, now), b.(pieces := b.pieces + [t.partial[..n]]))
  {
    var u := Push(t, id, n, now);
    var piece := t.partial[..n];
    FlattenSnoc(b.pieces, piece);
    assert t.partial == piece + u.partial;
    assert u.frames[..|t.frames|] == t.frames;
    assert b.data == Flatten(b.pieces + [piece]) + u.partial;
  }

  /** The pieces cut off a buffer by repeated framing. */
  function Pieces(frameSize: nat, buf: Bytes): seq<Bytes>
    requires 0 < frameSize
  {
    if |buf| >= frameSize then [buf[..frameSize]] + Pieces(frameSize, buf[frameSize..]) else []
  }

  lemma {:induction false} TracksCut(id: Txid, t: PendingTxn, b: Book, frameSize: nat, now: nat)
    requires Tracks(id, t, b) && 0 < frameSize
    ensures Tracks(id, Cut(t, id, frameSize, now), b.(pieces := b.pieces + Pieces(frameSize, t.partial)))
    ensures |Cut(t, id, frameSize, now).partial| < frameSize
    ensures t.frames <= Cut(t, id, frameSize, now).frames
    decreases |t.partial|
  {
    if |t.partial| >= frameSize {
      TracksPush(id, t, b, frameSize, now);
      var piece := t.partial[..frameSize];
      var b' := b.(pieces := b.pieces + [piece]);
      TracksCut(id, Push(t, id, frameSize, now), b', frameSize, now);
      assert b'.pieces + Pieces(frameSize, t.partial[frameSize..]) == b.pieces + Pieces(frameSize, t.partial);
    } else {
      assert b.pieces + [] == b.pieces;
    }
  }

  lemma {:induction false} TracksBuffered(id: Txid, t: PendingTxn, b: Book, chunk: Bytes)
    requires Tracks(id, t, b) && t.written + |chunk| <= t.totalLen
    ensures Tracks(id, Buffered(t, chunk), b.(data := b.data + chunk))
  {
    assert Flatten(b.pieces) + (t.partial + chunk) == b.data + chunk;
  }

  lemma {:induction false} ReleasedBytes(frames: seq<Option<Frame>>, n: nat)
    requires n <= |frames|
    ensures Held(frames) == Held(frames[..n]) + Held(Released(frames, n))
  {
    var kept := Released(frames, n);
    assert frames == frames[..n] + frames[n..];
    HeldConcat(frames[..n], frames[n..]);
    assert kept == kept[..n] + frames[n..];
    HeldConcat(kept[..n], frames[n..]);
    HeldNothing(kept[..n]);
  }

  /** An ACK, however inflated, only drops copies of the frames it confirms; the subtraction never saturates. */
  lemma {:induction false} TracksAcked(id: Txid, t: PendingTxn, b: Book, e: AckEntry, now: nat)
    requires Tracks(id, t, b)
    ensures Tracks(id, Acked(t, e, now), b)
    ensures Acked(t, e, now).bytes == t.bytes - Held(t.frames[..Frontier(t, e)])
  {
    ReleasedBytes(t.frames, Frontier(t, e));
  }

  /** `u` differs from `t` only in timers and flags. */
  ghost predicate Restamped(t: PendingTxn, u: PendingTxn)
  {
    && |t.states| == |u.states|
    && (forall i :: 0 <= i < |t.states| ==> u.states[i].confirmed == t.states[i].confirmed)
    && t.totalLen == u.totalLen && t.frames == u.frames && t.partial == u.partial
    && t.written == u.written && t.bytes == u.bytes
    && t.ackedContiguous == u.ackedContiguous && t.ackedReceived == u.ackedReceived
  }

  lemma {:induction false} TracksRestamped(id: Txid, t: PendingTxn, u: PendingTxn, b: Book)
    requires Tracks(id, t, b) && Restamped(t, u)
    ensures Tracks(id, u, b)
  {
  }

  // ---------------------------------------------------------------------------------------------
  // Runs of sender events

  datatype Event =
    | Opens(id: Txid, totalLen: nat, now: nat)
    | Appends(id: Txid, chunk: Bytes, now: nat)
    | Finishes(id: Txid, now: nat)
    | Pauses(id: Txid, paused: bool, now: nat)
    | Aborts(id: Txid)
    | Acks(entry: AckEntry, now: nat)
    | Nacks(id: Txid, missing: seq<nat>, now: nat)
    | Ticks(now: nat)
    | Declares(now: nat)
    | Redeclares(now: nat, timeout: nat)
    | Verdicts(entries: seq<ResumeStatusEntry>, now: nat)

  /** Pending copies plus the history of every id opened so far. */
  datatype Tx = Tx(pending: Pending, books: map<Txid, Book>)

  ghost predicate Sound(tx: Tx)
  {
    && (forall id :: id in tx.books ==> BookOk(tx.books[id]))
    && (forall id :: id in tx.pending ==> id in tx.books && Tracks(id, tx.pending[id], tx.books[id]))
  }

  ghost function After(cfg: SenderConfig, p: Pending, e: Event): Pending
    requires 0 < cfg.frameSize && SameShape(p)
  {
    match e
    case Opens(id, totalLen, now) => Open(p, id, totalLen, now).0
    case Appends(id, chunk, now) => Append(cfg, p, id, chunk, now).0
    case Finishes(id, now) => Finish(p, id, now).0
    case Pauses(id, paused, now) => SetPaused(p, id, paused, now).0
    case Aborts(id) => Abort(p, id).0
    case Acks(entry, now) => HandleAck(p, entry, now).0
    case Nacks(id, missing, now) => HandleNack(p, id, missing, now).0
    case Ticks(now) => DueRetransmissions(cfg, p, now)
    case Declares(now) => DeclarePending(p, now)
    case Redeclares(now, timeout) => Redeclare(p, now, timeout)
    case Verdicts(entries, now) => ApplyResumeVerdicts(p, entries, now).0
  }

  /** The data frames an event hands to the egress. */
  ghost predicate Emits(cfg: SenderConfig, p: Pending, e: Event, f: Frame)
    requires 0 < cfg.frameSize && SameShape(p)
  {
    match e
    case Appends(id, chunk, now) => var r := Append(cfg, p, id, chunk, now).1; r.Ok? && f in r.value
    case Finishes(id, now) => var r := Finish(p, id, now).1; r.Ok? && f in r.value
    case Nacks(id, missing, now) => f in HandleNack(p, id, missing, now).1
    case Ticks(now) => IsDue(cfg, p, now, f)
    case Verdicts(entries, now) => f in ApplyResumeVerdicts(p, entries, now).1.retransmit
    case _ => false
  }

  ghost function BooksAfter(cfg: SenderConfig, tx: Tx, e: Event): map<Txid, Book>
    requires 0 < cfg.frameSize
  {
    var p := tx.pending;
    match e
    case Opens(id, totalLen, _) =>
      if Open(p, id, totalLen, 0).1.Ok? then tx.books[id := Book(totalLen, [], [])] else tx.books
    case Appends(id, chunk, now) =>
      if Append(cfg, p, id, chunk, now).1.Ok? && id in tx.books then
        var b := tx.books[id];
        tx.books[id := Book(b.totalLen, b.pieces + Pieces(cfg.frameSize, p[id].partial + chunk), b.data + chunk)]
      else tx.books
    case Finishes(id, now) =>
      if id in p && p[id].partial != [] && id in tx.books then
        tx.books[id := tx.books[id].(pieces := tx.books[id].pieces + [p[id].partial])]
      else tx.books
    case _ => tx.books
  }

  /** Ids are fresh UUIDs: an event that would open a used id again does not happen. */
  ghost predicate Enabled(tx: Tx, e: Event) { e.Opens? ==> e.id !in tx.books }

  ghost function Step(cfg: SenderConfig, tx: Tx, e: Event): Tx
    requires 0 < cfg.frameSize && SameShape(tx.pending)
  {
    if Enabled(tx, e) then Tx(After(cfg, tx.pending, e), BooksAfter(cfg, tx, e)) else tx
  }

  ghost predicate Shorter(b: Book, c: Book)
  {
    b.totalLen == c.totalLen && b.pieces <= c.pieces && b.data <= c.data
  }

  /** Histories only grow. */
  ghost predicate Grows(m: map<Txid, Book>, n: map<Txid, Book>)
  {
    forall id :: id in m ==> id in n && Shorter(m[id], n[id])
  }

  lemma {:induction false} SoundShape(tx: Tx)
    requires Sound(tx)
    ensures SameShape(tx.pending)
  {
  }

  lemma {:induction false} SoundPut(tx: Tx, id: Txid, t: PendingTxn, b: Book)
    requires Sound(tx) && Tracks(id, t, b)
    ensures Sound(Tx(tx.pending[id := t], tx.books[id := b]))
  {
  }

  lemma {:induction false} GrowsPut(books: map<Txid, Book>, id: Txid, b: Book)
    requires id in books && Shorter(books[id], b)
    ensures Grows(books, books[id := b])
  {
  }

  lemma {:induction false} SoundRestamped(tx: Tx, q: Pending)
    requires Sound(tx) && q.Keys == tx.pending.Keys
    requires forall id :: id in q ==> Restamped(tx.pending[id], q[id])
    ensures Sound(tx.(pending := q)) && Total(q) == Total(tx.pending)
  {
    forall id | id in q ensures Tracks(id, q[id], tx.books[id]) {
      TracksRestamped(id, tx.pending[id], q[id], tx.books[id]);
    }
    assert BytesOf(q) == BytesOf(tx.pending);
  }

  lemma {:induction false} SoundRemove(tx: Tx, id: Txid)
    requires Sound(tx)
    ensures Sound(tx.(pending := tx.pending - {id}))
  {
  }

  lemma {:induction false} LiftedKeeps(tx: Tx, id: Txid, now: nat)
    requires Sound(tx) && id in tx.pending
    ensures var q := tx.pending[id := Lifted(tx.pending[id], now)];
            Sound(tx.(pending := q)) && Total(q) == Total(tx.pending)
  {
    var q := tx.pending[id := Lifted(tx.pending[id], now)];
    forall j | j in q ensures Restamped(tx.pending[j], q[j]) { LiftedRestamps(tx.pending[j], now); }
    SoundRestamped(tx, q);
  }

  lemma {:induction false} LiftedRestamps(t: PendingTxn, now: nat)
    ensures Restamped(t, Lifted(t, now)) && Restamped(t, t)
  {
  }

  lemma {:induction false} VerdictKeeps(tx: Tx, v: ResumeVerdicts, e: ResumeStatusEntry, now: nat)
    requires Sound(tx) && SameShape(tx.pending)
    ensures Sound(tx.(pending := ApplyVerdict(tx.pending, v, e, now).0))
    ensures Total(ApplyVerdict(tx.pending, v, e, now).0) <= Total(tx.pending)
  {
    var p, id := tx.pending, e.transactionId;
    if id in p {
      if e.status == Resumed {
        LiftedKeeps(tx, id, now);
      } else {
        SoundRemove(tx, id);
        TotalPut(p, id, p[id]);
      }
    }
  }

  lemma {:induction false} VerdictsKeep(tx: Tx, entries: seq<ResumeStatusEntry>, now: nat)
    requires Sound(tx) && SameShape(tx.pending)
    ensures Sound(tx.(pending := ApplyResumeVerdicts(tx.pending, entries, now).0))
    ensures Total(ApplyResumeVerdicts(tx.pending, entries, now).0) <= Total(tx.pending)
  {
    if entries != [] {
      var n := |entries| - 1;
      VerdictsKeep(tx, entries[..n], now);
      var (q, v) := ApplyResumeVerdicts(tx.pending, entries[..n], now);
      VerdictKeeps(tx.(pending := q), v, entries[n], now);
    }
  }

  lemma {:induction false} GrowsNew(books: map<Txid, Book>, id: Txid, b: Book)
    requires id !in books
    ensures Grows(books, books[id := b])
  {
  }

  lemma {:induction false} OpensSound(cfg: SenderConfig, tx: Tx, e: Event)
    requires 0 < cfg.frameSize && Sound(tx) && SameShape(tx.pending) && e.Opens?
    ensures Sound(Step(cfg, tx, e)) && Grows(tx.books, Step(cfg, tx, e).books)
  {
    if Enabled(tx, e) && Open(tx.pending, e.id, e.totalLen, e.now).1.Ok? {
      SoundPut(tx, e.id, Opened(e.totalLen, e.now), Book(e.totalLen, [], []));
      GrowsNew(tx.books, e.id, Book(e.totalLen, [], []));
    }
  }

  lemma {:induction false} AppendTracks(id: Txid, t: PendingTxn, b: Book, chunk: Bytes, frameSize: nat, now: nat)
    requires 0 < frameSize && Tracks(id, t, b) && t.written + |chunk| <= t.totalLen
    ensures Tracks(id, Cut(Buffered(t, chunk), id, frameSize, now),
                   Book(b.totalLen, b.pieces + Pieces(frameSize, t.partial + chunk), b.data + chunk))
  {
    TracksBuffered(id, t, b, chunk);
    TracksCut(id, Buffered(t, chunk), b.(data := b.data + chunk), frameSize, now);
  }

  lemma {:induction false} AppendStep(cfg: SenderConfig, tx: Tx, e: Event, u: PendingTxn, c: Book)
    requires 0 < cfg.frameSize && SameShape(tx.pending) && e.Appends? && e.id in tx.books
    requires Append(cfg, tx.pending, e.id, e.chunk, e.now).1.Ok?
    requires u == Cut(Buffered(tx.pending[e.id], e.chunk), e.id, cfg.frameSize, e.now)
    requires var b := tx.books[e.id];
             c == Book(b.totalLen, b.pieces + Pieces(cfg.frameSize, tx.pending[e.id].partial + e.chunk),
                       b.data + e.chunk)
    ensures Step(cfg, tx, e) == Tx(tx.pending[e.id := u], tx.books[e.id := c])
  {
  }

  lemma {:induction false} AppendsSound(cfg: SenderConfig, tx: Tx, e: Event)
    requires 0 < cfg.frameSize && Sound(tx) && SameShape(tx.pending) && e.Appends?
    ensures Sound(Step(cfg, tx, e)) && Grows(tx.books, Step(cfg, tx, e).books)
  {
    if Append(cfg, tx.pending, e.id, e.chunk, e.now).1.Ok? {
      var t, b := tx.pending[e.id], tx.books[e.id];
      var u := Cut(Buffered(t, e.chunk), e.id, cfg.frameSize, e.now);
      var c := Book(b.totalLen, b.pieces + Pieces(cfg.frameSize, t.partial + e.chunk), b.data + e.chunk);
      AppendTracks(e.id, t, b, e.chunk, cfg.frameSize, e.now);
      AppendStep(cfg, tx, e, u, c);
      SoundPut(tx, e.id, u, c);
      GrowsPut(tx.books, e.id, c);
    }
  }

  lemma {:induction false} FinishesSound(cfg: SenderConfig, tx: Tx, e: Event)
    requires 0 < cfg.frameSize && Sound(tx) && SameShape(tx.pending) && e.Finishes?
    ensures Sound(Step(cfg, tx, e)) && Grows(tx.books, Step(cfg, tx, e).books)
  {
    var p := tx.pending;
    if e.id in p {
      var t, b := p[e.id], tx.books[e.id];
      if t.partial != [] {
        assert t.partial[..|t.partial|] == t.partial;
        TracksPush(e.id, t, b, |t.partial|, e.now);
        SoundPut(tx, e.id, Flushed(t, e.id, e.now), b.(pieces := b.pieces + [t.partial]));
      } else {
        assert p[e.id := t] == p;
      }
    }
  }

  lemma {:induction false} AcksSound(cfg: SenderConfig, tx: Tx, e: Event)
    requires 0 < cfg.frameSize && Sound(tx) && SameShape(tx.pending) && e.Acks?
    ensures Sound(Step(cfg, tx, e)) && Grows(tx.books, Step(cfg, tx, e).books)
  {
    var p, id := tx.pending, e.entry.transactionId;
    if id in p {
      TracksAcked(id, p[id], tx.books[id], e.entry, e.now);
      SoundPut(tx, id, Acked(p[id], e.entry, e.now), tx.books[id]);
      assert tx.books[id := tx.books[id]] == tx.books;
      SoundRemove(tx, id);
    }
  }

  ghost predicate IsTimer(e: Event) { e.Pauses? || e.Nacks? || e.Ticks? || e.Declares? || e.Redeclares? }

  /** Operations that touch neither copies nor history: timers, the gate and the pause flag. */
  lemma {:induction false} TimersRestamp(cfg: SenderConfig, p: Pending, e: Event, id: Txid)
    requires 0 < cfg.frameSize && SameShape(p) && IsTimer(e) && id in p
    ensures id in After(cfg, p, e) && Restamped(p[id], After(cfg, p, e)[id])
  {
  }

  lemma {:induction false} TimerKeys(cfg: SenderConfig, p: Pending, e: Event, id: Txid)
    requires 0 < cfg.frameSize && SameShape(p) && IsTimer(e) && id in After(cfg, p, e)
    ensures id in p
  {
  }

  lemma {:induction false} TimersSound(cfg: SenderConfig, tx: Tx, e: Event)
    requires 0 < cfg.frameSize && Sound(tx) && SameShape(tx.pending) && IsTimer(e)
    ensures Sound(Step(cfg, tx, e)) && Grows(tx.books, Step(cfg, tx, e).books)
    ensures Total(After(cfg, tx.pending, e)) == Total(tx.pending)
  {
    var q := After(cfg, tx.pending, e);
    assert q.Keys == tx.pending.Keys;
    forall id | id in q ensures Restamped(tx.pending[id], q[id]) {
      TimersRestamp(cfg, tx.pending, e, id);
    }
    SoundRestamped(tx, q);
  }

  /** Every operation keeps every transaction in agreement with its history. */
  lemma {:induction false} StepSound(cfg: SenderConfig, tx: Tx, e: Event)
    requires 0 < cfg.frameSize && Sound(tx) && SameShape(tx.pending)
    ensures Sound(Step(cfg, tx, e))
    ensures Grows(tx.books, Step(cfg, tx, e).books)
  {
    if e.Opens? { OpensSound(cfg, tx, e); }
    else if e.Appends? { AppendsSound(cfg, tx, e); }
    else if e.Finishes? { FinishesSound(cfg, tx, e); }
    else if e.Acks? { AcksSound(cfg, tx, e); }
    else if e.Aborts? { SoundRemove(tx, e.id); }
    else if e.Verdicts? { VerdictsKeep(tx, e.entries, e.now); }
    else { TimersSound(cfg, tx, e); }
  }
}
