/** Incremental framing against one-shot splitting (src/reliability/transaction.rs:268-436). */
module Framing {
  import opened Prelude
  import opened Frames
  import opened Sender
  import opened Retention

  /** What repeated framing leaves in the buffer. */
  function Rest(frameSize: nat, buf: Bytes): Bytes
    requires 0 < frameSize
  {
    if |buf| >= frameSize then Rest(frameSize, buf[frameSize..]) else buf
  }

  /** One-shot split: consecutive `frameSize` pieces and a non-empty tail. */
  function Split(frameSize: nat, payload: Bytes): seq<Bytes>
    requires 0 < frameSize
  {
    Pieces(frameSize, payload) + (if Rest(frameSize, payload) == [] then [] else [Rest(frameSize, payload)])
  }

  function Numbered(id: Txid, totalLen: nat, from: nat, pieces: seq<Bytes>): seq<Frame>
  {
    seq(|pieces|, i requires 0 <= i < |pieces| => Frame(DataBinary, id, totalLen, from + i, pieces[i]))
  }

  lemma {:induction false} PiecesSized(frameSize: nat, buf: Bytes, i: nat)
    requires 0 < frameSize && i < |Pieces(frameSize, buf)|
    ensures |Pieces(frameSize, buf)[i]| == frameSize
  {
    if i > 0 {
      PiecesSized(frameSize, buf[frameSize..], i - 1);
      assert Pieces(frameSize, buf)[i] == Pieces(frameSize, buf[frameSize..])[i - 1];
    }
  }

  lemma {:induction false} Joined(head: Bytes, tail: Bytes, front: Bytes, rest: Bytes, buf: Bytes)
    requires front + rest == tail && buf == head + tail
    ensures (head + front) + rest == buf
  {
  }

  lemma {:induction false} PiecesJoin(frameSize: nat, buf: Bytes)
    requires 0 < frameSize
    ensures Flatten(Pieces(frameSize, buf)) + Rest(frameSize, buf) == buf && |Rest(frameSize, buf)| < frameSize
  {
    if |buf| >= frameSize {
      var head, tail := buf[..frameSize], buf[frameSize..];
      PiecesJoin(frameSize, tail);
      FlattenCons(head, Pieces(frameSize, tail));
      Joined(head, tail, Flatten(Pieces(frameSize, tail)), Rest(frameSize, tail), buf);
    }
  }

  /** The split loses nothing: it is the payload, in full frames up to a non-empty last one. */
  lemma {:induction false} SplitShape(frameSize: nat, payload: Bytes)
    requires 0 < frameSize && payload != []
    ensures Flatten(Split(frameSize, payload)) == payload
    ensures Split(frameSize, payload) != []
    ensures forall i :: 0 <= i < |Split(frameSize, payload)| - 1 ==> |Split(frameSize, payload)[i]| == frameSize
    ensures 0 < |Split(frameSize, payload)[|Split(frameSize, payload)| - 1]| <= frameSize
  {
    PiecesJoin(frameSize, payload);
    forall i | 0 <= i < |Pieces(frameSize, payload)| ensures |Pieces(frameSize, payload)[i]| == frameSize {
      PiecesSized(frameSize, payload, i);
    }
    FlattenSnoc(Pieces(frameSize, payload), Rest(frameSize, payload));
    if Rest(frameSize, payload) == [] { assert Split(frameSize, payload) == Pieces(frameSize, payload); }
  }

  lemma {:induction false} PiecesAppend(frameSize: nat, buf: Bytes, c: Bytes)
    requires 0 < frameSize
    ensures Pieces(frameSize, buf + c)
            == Pieces(frameSize, buf) + Pieces(frameSize, Rest(frameSize, buf) + c)
    ensures Rest(frameSize, buf + c) == Rest(frameSize, Rest(frameSize, buf) + c)
  {
    if |buf| >= frameSize {
      PiecesAppend(frameSize, buf[frameSize..], c);
      assert (buf + c)[..frameSize] == buf[..frameSize];
      assert (buf + c)[frameSize..] == buf[frameSize..] + c;
    }
  }

  function Wrapped(frames: seq<Frame>): seq<Option<Frame>>
  {
    seq(|frames|, i requires 0 <= i < |frames| => Some(frames[i]))
  }

  lemma {:induction false} CutExact(t: PendingTxn, id: Txid, frameSize: nat, now: nat)
    requires 0 < frameSize
    ensures var u := Cut(t, id, frameSize, now);
            && u.frames == t.frames + Wrapped(Numbered(id, t.totalLen, |t.frames|, Pieces(frameSize, t.partial)))
            && u.partial == Rest(frameSize, t.partial)
            && u.(frames := t.frames, states := t.states, partial := t.partial) == t
    decreases |t.partial|
  {
    if |t.partial| >= frameSize {
      var u := Push(t, id, frameSize, now);
      CutExact(u, id, frameSize, now);
      var pieces := Pieces(frameSize, t.partial);
      assert pieces[1..] == Pieces(frameSize, u.partial);
      assert Wrapped(Numbered(id, t.totalLen, |t.frames|, pieces))
          == [u.frames[|t.frames|]] + Wrapped(Numbered(id, t.totalLen, |u.frames|, pieces[1..]));
    }
  }

  lemma {:induction false} CopiesOfWrapped(old_: seq<Option<Frame>>, fresh_: seq<Frame>, from: nat)
    requires |old_| <= from <= |old_| + |fresh_|
    ensures CopiesFrom(old_ + Wrapped(fresh_), from) == fresh_[from - |old_|..]
    decreases |old_| + |fresh_| - from
  {
    if from < |old_| + |fresh_| { CopiesOfWrapped(old_, fresh_, from + 1); }
  }

  /** A sequence of `append_chunk` calls, stopping at the first error; each chunk has its own instant. */
  ghost function WriteAll(cfg: SenderConfig, p: Pending, id: Txid, writes: seq<(Bytes, nat)>)
    : (Pending, Result<seq<Frame>, BeginError>)
    requires 0 < cfg.frameSize
  {
    if writes == [] then (p, Ok([]))
    else
      var (q, r) := WriteAll(cfg, p, id, writes[..|writes| - 1]);
      if r.Err? then (q, r)
      else
        var (q', r') := Append(cfg, q, id, writes[|writes| - 1].0, writes[|writes| - 1].1);
        (q', if r'.Ok? then Ok(r.value + r'.value) else r')
  }

  /** `open_transaction`, then the writes, then `finish_transaction`. */
  ghost function Stream(cfg: SenderConfig, p: Pending, id: Txid, totalLen: nat, writes: seq<(Bytes, nat)>, now: nat)
    : (Pending, Result<seq<Frame>, BeginError>)
    requires 0 < cfg.frameSize
  {
    var (p1, r1) := Open(p, id, totalLen, now);
    if r1.Err? then (p1, Err(r1.error))
    else
      var (p2, r2) := WriteAll(cfg, p1, id, writes);
      if r2.Err? then (p2, r2)
      else
        var (p3, r3) := Finish(p2, id, now);
        (p3, if r3.Ok? then Ok(r2.value + r3.value) else r3)
  }

  /** `begin_transaction`; the length is cast to u32 when the transaction is opened. */
  ghost function Begin(cfg: SenderConfig, p: Pending, id: Txid, payload: Bytes, now: nat)
    : (Pending, Result<seq<Frame>, BeginError>)
    requires 0 < cfg.frameSize
  {
    if Total(p) + |payload| > cfg.capBytes then (p, Err(Backpressured(Total(p), |payload|, cfg.capBytes)))
    else Stream(cfg, p, id, |payload| % U32_LIMIT, [(payload, now)], now)
  }

  function Chunks(writes: seq<(Bytes, nat)>): seq<Bytes>
  {
    seq(|writes|, i requires 0 <= i < |writes| => writes[i].0)
  }

  /** What the writes leave pending, in closed form up to timestamps. */
  ghost predicate Holds(t: PendingTxn, cfg: SenderConfig, id: Txid, totalLen: nat, data: Bytes)
    requires 0 < cfg.frameSize
  {
    && t.totalLen == totalLen
    && t.frames == Wrapped(Numbered(id, totalLen, 0, Pieces(cfg.frameSize, data)))
    && t.partial == Rest(cfg.frameSize, data)
    && t.written == t.bytes == |data|
  }

  lemma {:induction false} NumberedConcat(id: Txid, totalLen: nat, from: nat, a: seq<Bytes>, b: seq<Bytes>)
    ensures Numbered(id, totalLen, from, a + b)
            == Numbered(id, totalLen, from, a) + Numbered(id, totalLen, from + |a|, b)
    ensures Wrapped(Numbered(id, totalLen, from, a + b))
         == Wrapped(Numbered(id, totalLen, from, a)) + Wrapped(Numbered(id, totalLen, from + |a|, b))
  {
  }

  /** One accepted append moves the closed form forward by its chunk. */
  lemma {:induction false} AppendHolds(cfg: SenderConfig, q: Pending, id: Txid, totalLen: nat, data: Bytes, c: Bytes,
          now: nat)
    requires 0 < cfg.frameSize && id in q && Holds(q[id], cfg, id, totalLen, data)
    requires Total(q) + |c| <= cfg.capBytes && |data| + |c| <= totalLen
    ensures var (q', r) := Append(cfg, q, id, c, now);
            && id in q' && q' == q[id := q'[id]] && Holds(q'[id], cfg, id, totalLen, data + c)
            && r == Ok(Numbered(id, totalLen, |q[id].frames|, Pieces(cfg.frameSize, q[id].partial + c)))
            && Pieces(cfg.frameSize, data + c) == Pieces(cfg.frameSize, data) + Pieces(cfg.frameSize, q[id].partial + c)
  {
    var t := Buffered(q[id], c);
    var pieces := Pieces(cfg.frameSize, t.partial);
    CutExact(t, id, cfg.frameSize, now);
    PiecesAppend(cfg.frameSize, data, c);
    NumberedConcat(id, totalLen, 0, Pieces(cfg.frameSize, data), pieces);
    CopiesOfWrapped(t.frames, Numbered(id, totalLen, |t.frames|, pieces), |t.frames|);
  }

  /** `data` went from `p` to `q` under `id`, emitting `frames`. */
  ghost predicate Wrote(cfg: SenderConfig, p: Pending, id: Txid, totalLen: nat, data: Bytes, q: Pending,
          frames: seq<Frame>)
    requires 0 < cfg.frameSize
  {
    && id in q && q == p[id := q[id]]
    && Holds(q[id], cfg, id, totalLen, data)
    && frames == Numbered(id, totalLen, 0, Pieces(cfg.frameSize, data))
  }

  lemma {:induction false} WroteMore(cfg: SenderConfig, p: Pending, id: Txid, totalLen: nat, data: Bytes,
                                     q: Pending, frames: seq<Frame>, c: Bytes, now: nat)
    requires 0 < cfg.frameSize && id in p && p[id].bytes == 0
    requires Wrote(cfg, p, id, totalLen, data, q, frames)
    requires Total(p) + |data| + |c| <= cfg.capBytes && |data| + |c| <= totalLen
    ensures var (q', r) := Append(cfg, q, id, c, now);
            r.Ok? && Wrote(cfg, p, id, totalLen, data + c, q', frames + r.value)
  {
    TotalPut(p, id, q[id]);
    AppendHolds(cfg, q, id, totalLen, data, c, now);
    NumberedConcat(id, totalLen, 0, Pieces(cfg.frameSize, data), Pieces(cfg.frameSize, q[id].partial + c));
  }

  lemma {:induction false} WritesHold(cfg: SenderConfig, p: Pending, id: Txid, totalLen: nat, writes: seq<(Bytes, nat)>)
    requires 0 < cfg.frameSize && id in p && Holds(p[id], cfg, id, totalLen, [])
    requires |Flatten(Chunks(writes))| <= totalLen && Total(p) + |Flatten(Chunks(writes))| <= cfg.capBytes
    ensures var (q, r) := WriteAll(cfg, p, id, writes);
            r.Ok? && Wrote(cfg, p, id, totalLen, Flatten(Chunks(writes)), q, r.value)
  {
    if writes == [] {
      assert p == p[id := p[id]];
    } else {
      var n := |writes| - 1;
      assert Chunks(writes) == Chunks(writes[..n]) + [writes[n].0];
      FlattenSnoc(Chunks(writes[..n]), writes[n].0);
      WritesHold(cfg, p, id, totalLen, writes[..n]);
      var (q, r) := WriteAll(cfg, p, id, writes[..n]);
      WroteMore(cfg, p, id, totalLen, Flatten(Chunks(writes[..n])), q, r.value, writes[n].0, writes[n].1);
    }
  }

  lemma {:induction false} FinishHolds(cfg: SenderConfig, q: Pending, id: Txid, payload: Bytes, now: nat)
    requires 0 < cfg.frameSize && id in q && Holds(q[id], cfg, id, |payload|, payload)
    ensures var (q', r) := Finish(q, id, now);
            && q' == q[id := q'[id]] && q'[id].partial == []
            && q'[id].frames == Wrapped(Numbered(id, |payload|, 0, Split(cfg.frameSize, payload)))
            && r == Ok(Numbered(id, |payload|, |q[id].frames|, Split(cfg.frameSize, payload)[|q[id].frames|..]))
  {
    var t := q[id];
    var tail := Split(cfg.frameSize, payload)[|t.frames|..];
    assert Split(cfg.frameSize, payload) == Pieces(cfg.frameSize, payload) + tail;
    NumberedConcat(id, |payload|, 0, Pieces(cfg.frameSize, payload), tail);
    CopiesOfWrapped(t.frames, Numbered(id, |payload|, |t.frames|, tail), |t.frames|);
    assert t.partial[..|t.partial|] == t.partial;
  }

  /**
   Incremental framing refines one-shot splitting: whatever the chunk boundaries and the instants of the
   writes, opening, writing the payload and finishing emits exactly the numbered one-shot split.
   */
  lemma {:induction false} StreamSplits(cfg: SenderConfig, p: Pending, id: Txid, payload: Bytes,
          writes: seq<(Bytes, nat)>, now: nat)
    requires 0 < cfg.frameSize && id !in p && payload != []
    requires Flatten(Chunks(writes)) == payload && Total(p) + |payload| <= cfg.capBytes
    ensures var (q, r) := Stream(cfg, p, id, |payload|, writes, now);
            && r == Ok(Numbered(id, |payload|, 0, Split(cfg.frameSize, payload)))
            && q.Keys == p.Keys + {id} && q - {id} == p
            && q[id].frames == Wrapped(r.value) && q[id].partial == []
  {
    var p1 := p[id := Opened(|payload|, now)];
    TotalPut(p, id, Opened(|payload|, now));
    assert p - {id} == p;
    WritesHold(cfg, p1, id, |payload|, writes);
    var (p2, r2) := WriteAll(cfg, p1, id, writes);
    FinishHolds(cfg, p2, id, payload, now);
    SplitNumbers(cfg.frameSize, id, payload);
    var p3 := Finish(p2, id, now).0;
    assert p3 == p[id := p3[id]];
  }

  lemma {:induction false} SplitNumbers(frameSize: nat, id: Txid, payload: Bytes)
    requires 0 < frameSize
    ensures var n := |Pieces(frameSize, payload)|;
            Numbered(id, |payload|, 0, Split(frameSize, payload))
            == Numbered(id, |payload|, 0, Pieces(frameSize, payload))
               + Numbered(id, |payload|, n, Split(frameSize, payload)[n..])
  {
    var pieces := Pieces(frameSize, payload);
    assert Split(frameSize, payload) == pieces + Split(frameSize, payload)[|pieces|..];
    NumberedConcat(id, |payload|, 0, pieces, Split(frameSize, payload)[|pieces|..]);
  }

  lemma {:induction false} OneChunk(payload: Bytes, now: nat)
    ensures Flatten(Chunks([(payload, now)])) == payload
  {
    assert Chunks([(payload, now)]) == [payload];
    assert Flatten([payload]) == payload by { FlattenCons(payload, []); }
  }

  lemma {:induction false} BeginIsStream(cfg: SenderConfig, p: Pending, id: Txid, payload: Bytes, now: nat)
    requires 0 < cfg.frameSize && |payload| < U32_LIMIT && Total(p) + |payload| <= cfg.capBytes
    ensures Begin(cfg, p, id, payload, now) == Stream(cfg, p, id, |payload|, [(payload, now)], now)
  {
    assert |payload| % U32_LIMIT == |payload|;
  }

  lemma {:induction false} BeginSplits(cfg: SenderConfig, p: Pending, id: Txid, payload: Bytes, now: nat)
    requires 0 < cfg.frameSize && id !in p && 0 < |payload| < U32_LIMIT && Total(p) + |payload| <= cfg.capBytes
    ensures Begin(cfg, p, id, payload, now).1 == Ok(Numbered(id, |payload|, 0, Split(cfg.frameSize, payload)))
  {
    OneChunk(payload, now);
    BeginIsStream(cfg, p, id, payload, now);
    StreamSplits(cfg, p, id, payload, [(payload, now)], now);
  }

  /** `begin_transaction` is the one-chunk instance, so both paths put the same frames on the wire. */
  lemma {:induction false} BeginMatchesStream(cfg: SenderConfig, p: Pending, id: Txid, payload: Bytes,
          writes: seq<(Bytes, nat)>, now: nat)
    requires 0 < cfg.frameSize && id !in p && 0 < |payload| < U32_LIMIT
    requires Flatten(Chunks(writes)) == payload && Total(p) + |payload| <= cfg.capBytes
    ensures Begin(cfg, p, id, payload, now).1.Ok?
    ensures Begin(cfg, p, id, payload, now).1 == Stream(cfg, p, id, |payload|, writes, now).1
  {
    StreamSplits(cfg, p, id, payload, writes, now);
    BeginSplits(cfg, p, id, payload, now);
  }

  /**
   A failed `begin_transaction` leaves the pending table alone, except when the length cast wraps to a
   non-zero value: then an empty transaction with the wrapped total stays open.
   */
  lemma {:induction false} FailedBeginResidue(cfg: SenderConfig, p: Pending, id: Txid, payload: Bytes, now: nat)
    requires 0 < cfg.frameSize && Begin(cfg, p, id, payload, now).1.Err?
    ensures Begin(cfg, p, id, payload, now).0 != p
            <==> (Total(p) + |payload| <= cfg.capBytes && id !in p
                  && |payload| >= U32_LIMIT && |payload| % U32_LIMIT != 0)
    ensures Begin(cfg, p, id, payload, now).0 != p
            ==> Begin(cfg, p, id, payload, now).0 == p[id := Opened(|payload| % U32_LIMIT, now)]
  {
    if Total(p) + |payload| <= cfg.capBytes && id !in p && |payload| % U32_LIMIT != 0 {
      var total := |payload| % U32_LIMIT;
      var p1 := p[id := Opened(total, now)];
      TotalPut(p, id, Opened(total, now));
      assert p - {id} == p;
      var w := [(payload, now)];
      assert w[..0] == [];
      assert WriteAll(cfg, p1, id, w[..0]) == (p1, Ok([]));
      if |payload| < U32_LIMIT {
        BeginMatchesStream(cfg, p, id, payload, w, now) by {
          assert Chunks(w) == [payload];
          FlattenCons(payload, []);
          assert Flatten([payload]) == payload;
        }
        assert false;
      }
    }
  }

  /** The residue is real: one byte past 4 GiB, under a cap that admits it, leaves a 1-byte transaction open. */
  lemma {:induction false} WrappedLengthExample(id: Txid)
    ensures var cfg := SenderConfig(1, 1, 1, 2 * U32_LIMIT);
            var payload: Bytes := seq(U32_LIMIT + 1, i => 0);
            var (q, r) := Begin(cfg, map[], id, payload, 0);
            r == Err(TotalLenExceeded(1)) && q == map[id := Opened(1, 0)]
  {
    var cfg := SenderConfig(1, 1, 1, 2 * U32_LIMIT);
    var payload: Bytes := seq(U32_LIMIT + 1, i => 0);
    var p: Pending := map[];
    var p1 := p[id := Opened(1, 0)];
    assert BytesOf(p) == map[];
    TotalPut(p, id, Opened(1, 0));
    assert p - {id} == p;
    var w := [(payload, 0)];
    assert w[..0] == [];
    assert WriteAll(cfg, p1, id, w[..0]) == (p1, Ok([]));
    assert p1 == map[id := Opened(1, 0)];
  }
}
