/** Chunking invariance of the decoder, and round trips through garbage in any chunking. */
module Decoding {
  import opened Prelude
  import opened BigEndian
  import opened Frames
  import opened Wire

  function Fed(d: Decoder, c: Bytes): Decoder { d.(buf := d.buf + c) }

  // ---------------------------------------------------------------------------------------------
  // One step, with more input behind it

  lemma {:induction false} MagicStays(buf: Bytes, c: Bytes, i: nat)
    requires i + 4 <= |buf|
    ensures MagicAt(buf + c, i) <==> MagicAt(buf, i)
  {
    assert (buf + c)[i..i + 4] == buf[i..i + 4];
  }

  lemma {:induction false} MagicDropped(buf: Bytes, n: nat, i: nat)
    requires n <= i <= |buf|
    ensures MagicAt(buf[n..], i - n) <==> MagicAt(buf, i)
  {
    if i + 4 <= |buf| { assert buf[n..][i - n..i - n + 4] == buf[i..i + 4]; }
  }

  lemma {:induction false} FindStays(buf: Bytes, c: Bytes)
    requires FindMagic(buf, 0).Some?
    ensures FindMagic(buf + c, 0) == FindMagic(buf, 0)
  {
    var p := FindMagic(buf, 0).value;
    MagicStays(buf, c, p);
    forall i | 0 <= i < p ensures !MagicAt(buf + c, i) { MagicStays(buf, c, i); }
  }

  /** Without a magic in `buf`, only its last three bytes matter to what follows. */
  lemma {:induction false} FindShifts(buf: Bytes, c: Bytes)
    requires FindMagic(buf, 0).None?
    ensures var n := |buf| - Min(|buf|, 3);
            var p := FindMagic(KeepTail(buf) + c, 0);
            FindMagic(buf + c, 0) == if p.None? then None else Some(p.value + n)
  {
    var n := |buf| - Min(|buf|, 3);
    var all, tail := buf + c, KeepTail(buf) + c;
    assert all[n..] == tail;
    forall i | 0 <= i < n ensures !MagicAt(all, i) { if MagicAt(all, i) { MagicStays(buf, c, i); } }
    forall i | 0 <= i <= |tail| ensures MagicAt(tail, i) <==> MagicAt(all, i + n) { MagicDropped(all, n, i + n); }
    FirstAfter(all, tail, n);
  }

  /** If the magics of `tail` are those of `all`, moved by `n`, and `all` has none before, so are the first ones. */
  lemma {:induction false} FirstAfter(all: Bytes, tail: Bytes, n: nat)
    requires |all| == n + |tail| && (forall i :: 0 <= i < n ==> !MagicAt(all, i))
    requires forall i :: 0 <= i <= |tail| ==> (MagicAt(tail, i) <==> MagicAt(all, i + n))
    ensures var p := FindMagic(tail, 0); FindMagic(all, 0) == if p.None? then None else Some(p.value + n)
  {
    var p, q := FindMagic(tail, 0), FindMagic(all, 0);
    if p.Some? { assert MagicAt(all, p.value + n); }
    if q.Some? { assert MagicAt(tail, q.value - n); }
  }

  /** `more` is `a` with `c` fed behind it. */
  predicate Continues(a: Progress, more: Progress, c: Bytes)
  {
    match a
    case Moved(next, out) => more == Moved(Fed(next, c), out)
    case Fails(_) => more == a
    case Waits(_) => true
  }

  lemma {:induction false} LockedMore(buf: Bytes, c: Bytes)
    ensures Continues(Locked(buf), Locked(buf + c), c)
  {
    if |buf| >= HEADER_LEN {
      assert (buf + c)[..HEADER_LEN] == buf[..HEADER_LEN];
      assert (buf + c)[HEADER_LEN..] == buf[HEADER_LEN..] + c;
    }
  }

  lemma {:induction false} InBodyMore(buf: Bytes, header: Bytes, info: HeaderInfo, c: Bytes)
    ensures Continues(InBody(buf, header, info), InBody(buf + c, header, info), c)
  {
    var n := info.frameLen;
    if |buf| >= n + CRC_LEN {
      assert (buf + c)[..n] == buf[..n];
      assert (buf + c)[n..n + CRC_LEN] == buf[n..n + CRC_LEN];
      assert (buf + c)[n + CRC_LEN..] == buf[n + CRC_LEN..] + c;
    }
  }

  lemma {:induction false} AdvanceMore(d: Decoder, c: Bytes)
    ensures Continues(Advance(d), Advance(Fed(d, c)), c)
  {
    if d.state.Body? {
      InBodyMore(d.buf, d.state.header, d.state.info, c);
    } else if FindMagic(d.buf, 0).Some? {
      FindStays(d.buf, c);
      var p := FindMagic(d.buf, 0).value;
      assert (d.buf + c)[p..] == d.buf[p..] + c;
      LockedMore(d.buf[p..], c);
    }
  }

  lemma {:induction false} KeepTailShifts(buf: Bytes, c: Bytes)
    ensures KeepTail(buf + c) == KeepTail(KeepTail(buf) + c)
  {
  }

  lemma {:induction false} LostMore(buf: Bytes, c: Bytes)
    requires FindMagic(buf, 0).None?
    ensures Advance(Decoder(buf + c, Sync)) == Advance(Decoder(KeepTail(buf) + c, Sync))
  {
    FindShifts(buf, c);
    var p := FindMagic(KeepTail(buf) + c, 0);
    if p.Some? {
      TailShifts(buf, c, p.value);
      SameStart(buf + c, |buf| - Min(|buf|, 3) + p.value, KeepTail(buf) + c, p.value);
    } else {
      KeepTailShifts(buf, c);
    }
  }

  lemma {:induction false} SameStart(x: Bytes, i: nat, y: Bytes, j: nat)
    requires FindMagic(x, 0) == Some(i) && FindMagic(y, 0) == Some(j) && x[i..] == y[j..]
    ensures Advance(Decoder(x, Sync)) == Advance(Decoder(y, Sync))
  {
    assert Advance(Decoder(x, Sync)) == Locked(x[i..]);
    assert Advance(Decoder(y, Sync)) == Locked(y[j..]);
  }

  lemma {:induction false} TailShifts(buf: Bytes, c: Bytes, k: nat)
    requires k <= |KeepTail(buf) + c|
    ensures (buf + c)[|buf| - Min(|buf|, 3) + k..] == (KeepTail(buf) + c)[k..]
  {
    var n := |buf| - Min(|buf|, 3);
    assert (buf + c)[n..] == KeepTail(buf) + c;
    assert (buf + c)[n + k..] == (buf + c)[n..][k..];
  }

  lemma {:induction false} CandidateMore(buf: Bytes, c: Bytes)
    requires FindMagic(buf, 0).Some?
    ensures Advance(Decoder(buf + c, Sync)) == Advance(Decoder(buf[FindMagic(buf, 0).value..] + c, Sync))
  {
    var p := FindMagic(buf, 0).value;
    FindStays(buf, c);
    MagicDropped(buf, p, p);
    assert FindMagic(buf[p..], 0) == Some(0);
    FindStays(buf[p..], c);
    assert (buf + c)[p..] == (buf[p..] + c)[0..];
  }

  lemma {:induction false} AdvanceWaits(d: Decoder, c: Bytes)
    requires Advance(d).Waits?
    ensures Advance(Fed(d, c)) == Advance(Fed(Advance(d).next, c))
  {
    if d.state.Sync? {
      if FindMagic(d.buf, 0).None? { LostMore(d.buf, c); } else { CandidateMore(d.buf, c); }
    }
  }

  // ---------------------------------------------------------------------------------------------
  // Chunking invariance

  lemma {:induction false} DrainMore(d: Decoder, c: Bytes)
    ensures Drain(Fed(d, c)) == if Drain(d).Failed? then Drain(d)
            else Before(Drain(d).frames, Drain(Fed(Drain(d).next, c)))
    decreases |d.buf|
  {
    var a := Advance(d);
    if a.Moved? {
      AdvanceMore(d, c);
      DrainMore(a.next, c);
      if Drain(a.next).Done? && Drain(Fed(Drain(a.next).next, c)).Done? {
        assert a.out + (Drain(a.next).frames + Drain(Fed(Drain(a.next).next, c)).frames)
            == (a.out + Drain(a.next).frames) + Drain(Fed(Drain(a.next).next, c)).frames;
      }
    } else if a.Fails? {
      AdvanceMore(d, c);
    } else {
      AdvanceWaits(d, c);
      var e := Fed(a.next, c);
      assert Drain(Fed(d, c)) == Drain(e);
      assert Drain(e).Done? ==> [] + Drain(e).frames == Drain(e).frames;
    }
  }

  /** The decoder has nothing left to do without more input. */
  predicate Idle(d: Decoder) { Drain(d) == Done(d, []) }

  lemma {:induction false} DrainIdles(d: Decoder)
    requires Drain(d).Done?
    ensures Idle(Drain(d).next)
    decreases |d.buf|
  {
    var a := Advance(d);
    if a.Moved? {
      DrainIdles(a.next);
    } else if d.state.Sync? {
      if FindMagic(d.buf, 0).Some? {
        var p := FindMagic(d.buf, 0).value;
        MagicDropped(d.buf, p, p);
        assert FindMagic(d.buf[p..], 0) == Some(0);
        assert d.buf[p..][0..] == d.buf[p..];
      } else {
        assert KeepTail(KeepTail(d.buf)) == KeepTail(d.buf);
      }
    }
  }

  /**
   Chunking invariance: for every byte stream and every partition of it, feeding the chunks one by one gives
   the frames and the final decoder state of one feed of the whole, and fails exactly when that one fails,
   with the same error.
   */
  lemma {:induction false} ChunkingInvariance(d: Decoder, chunks: seq<Bytes>)
    requires Idle(d)
    ensures FeedAll(d, chunks) == Feed(d, Flatten(chunks))
    decreases |chunks|
  {
    if chunks == [] {
      assert Fed(d, []) == d;
    } else {
      var c, rest := chunks[0], chunks[1..];
      assert chunks == [c] + rest;
      FlattenCons(c, rest);
      assert d.buf + (c + Flatten(rest)) == (d.buf + c) + Flatten(rest);
      DrainMore(Fed(d, c), Flatten(rest));
      if Drain(Fed(d, c)).Done? {
        DrainIdles(Fed(d, c));
        ChunkingInvariance(Drain(Fed(d, c)).next, rest);
      }
    }
  }

  // ---------------------------------------------------------------------------------------------
  // Round trip of one frame

  /** Field widths, as the Rust types give them, and a payload the encoder accepts. */
  predicate Encodable(f: Frame)
  {
    && |f.transactionId| == TXID_LEN && f.totalLen < U32_LIMIT && f.seqNo < U32_LIMIT
    && ToU16(f.frameType) < 0x1_0000 && Encode(f).Ok?
  }

  lemma {:induction false} HeaderFields(f: Frame)
    requires Encodable(f)
    ensures var h := Header(f);
            && |h| == HEADER_LEN && h[..4] == MAGIC && h[4] == VERSION_MAJOR
            && Of16(h[6..8]) == ToU16(f.frameType) && h[8..24] == f.transactionId
            && Of32(h[24..28]) == f.totalLen && Of32(h[28..32]) == f.seqNo && Of32(h[32..36]) == |f.payload|
  {
    var h := Header(f);
    assert h[6..8] == Be16(ToU16(f.frameType)) && h[24..28] == Be32(f.totalLen)
        && h[28..32] == Be32(f.seqNo) && h[32..36] == Be32(|f.payload|);
    Be16Of16(ToU16(f.frameType), [0, 0]);
    Of32Be32(f.totalLen);
    Of32Be32(f.seqNo);
    Of32Be32(|f.payload|);
  }

  lemma {:induction false} HeaderRoundTrip(f: Frame)
    requires Encodable(f) && Canonical(f.frameType)
    ensures |Header(f)| == HEADER_LEN
    ensures CheckHeader(Header(f)) == Ok(HeaderInfo(f.frameType, f.transactionId, f.totalLen, f.seqNo, |f.payload|))
  {
    HeaderFields(f);
  }

  /** The first magic of garbage followed by a frame is the frame's own: `XACP` has no border. */
  lemma {:induction false} MagicAfterGarbage(g: Bytes, rest: Bytes)
    requires FindMagic(g, 0).None?
    ensures FindMagic(g + (MAGIC + rest), 0) == Some(|g|)
  {
    var s := g + (MAGIC + rest);
    assert s[|g|..|g| + 4] == MAGIC;
    assert MagicAt(s, |g|);
    forall i | 0 <= i < |g| ensures !MagicAt(s, i) {
      if i + 4 <= |g| {
        MagicStays(g, MAGIC + rest, i);
      } else {
        assert s[i..i + 4][|g| - i] == s[|g|] == 0x58;
      }
    }
  }

  /** Garbage and a valid header bring the decoder into the body state. */
  lemma {:induction false} SyncAdvances(g: Bytes, h: Bytes, rest: Bytes)
    requires FindMagic(g, 0).None? && |h| == HEADER_LEN && h[..4] == MAGIC
    ensures Advance(Decoder(g + h + rest, Sync))
            == if CheckHeader(h).Err? then Fails(CheckHeader(h).error)
                else Moved(Decoder(rest, Body(h, CheckHeader(h).value)), [])
  {
    var all := g + h + rest;
    assert all == g + (MAGIC + (h[4..] + rest));
    MagicAfterGarbage(g, h[4..] + rest);
    assert all[|g|..] == h + rest;
    assert (h + rest)[..HEADER_LEN] == h && (h + rest)[HEADER_LEN..] == rest;
  }

  lemma {:induction false} FrameDecodes(g: Bytes, f: Frame, rest: Bytes)
    requires FindMagic(g, 0).None? && Encodable(f) && Canonical(f.frameType)
    ensures Drain(Decoder(g + Sealed(f) + rest, Sync)) == Before([f], Drain(Decoder(rest, Sync)))
  {
    var h, crc := Header(f), Be32(Crc32(Header(f) + f.payload));
    HeaderFields(f);
    HeaderRoundTrip(f);
    assert g + Sealed(f) + rest == g + h + (f.payload + crc + rest);
    SyncAdvances(g, h, f.payload + crc + rest);
    var body := Decoder(f.payload + crc + rest, Body(h, CheckHeader(h).value));
    BodyDecodes(f, h, crc, rest);
    EmptyBefore(Drain(body));
  }

  lemma {:induction false} BodyDecodes(f: Frame, h: Bytes, crc: Bytes, rest: Bytes)
    requires h == Header(f) && crc == Be32(Crc32(h + f.payload))
    ensures var info := HeaderInfo(f.frameType, f.transactionId, f.totalLen, f.seqNo, |f.payload|);
            Drain(Decoder(f.payload + crc + rest, Body(h, info))) == Before([f], Drain(Decoder(rest, Sync)))
  {
    var n := |f.payload|;
    var buf := f.payload + crc + rest;
    assert buf[..n] == f.payload && buf[n..n + CRC_LEN] == crc && buf[n + CRC_LEN..] == rest;
    CrcConcat(0xFFFF_FFFF, h, f.payload);
    CrcFits(CrcUpdate(0xFFFF_FFFF, h + f.payload));
    Of32Be32(Crc32(h + f.payload));
  }

  // ---------------------------------------------------------------------------------------------
  // Round trip of a stream

  /** Frames on the wire, each preceded by some garbage, with more garbage at the end. */
  function Stream(garbage: seq<Bytes>, frames: seq<Frame>): Bytes
    requires |garbage| == |frames| + 1
  {
    if frames == [] then garbage[0] else garbage[0] + Sealed(frames[0]) + Stream(garbage[1..], frames[1..])
  }

  lemma {:induction false} StreamDecodes(garbage: seq<Bytes>, frames: seq<Frame>)
    requires |garbage| == |frames| + 1
    requires forall i :: 0 <= i < |garbage| ==> FindMagic(garbage[i], 0).None?
    requires forall i :: 0 <= i < |frames| ==> Encodable(frames[i]) && Canonical(frames[i].frameType)
    ensures Drain(Decoder(Stream(garbage, frames), Sync))
            == Done(Decoder(KeepTail(garbage[|garbage| - 1]), Sync), frames)
  {
    if frames != [] {
      FrameDecodes(garbage[0], frames[0], Stream(garbage[1..], frames[1..]));
      StreamDecodes(garbage[1..], frames[1..]);
      assert [frames[0]] + frames[1..] == frames;
    }
  }

  lemma {:induction false} FreshFeeds(chunks: seq<Bytes>)
    ensures FeedAll(FRESH, chunks) == Drain(Decoder(Flatten(chunks), Sync))
  {
    assert Idle(FRESH);
    ChunkingInvariance(FRESH, chunks);
    assert [] + Flatten(chunks) == Flatten(chunks);
  }

  /**
   Codec round trip with resynchronisation: any list of encodable frames of canonical type, separated by
   arbitrary magic-free garbage and fed in any chunking, decodes to exactly that list.
   */
  lemma {:induction false} RoundTrip(garbage: seq<Bytes>, frames: seq<Frame>, chunks: seq<Bytes>)
    requires |garbage| == |frames| + 1
    requires forall i :: 0 <= i < |garbage| ==> FindMagic(garbage[i], 0).None?
    requires forall i :: 0 <= i < |frames| ==> Encodable(frames[i]) && Canonical(frames[i].frameType)
    requires Flatten(chunks) == Stream(garbage, frames)
    ensures FeedAll(FRESH, chunks) == Done(Decoder(KeepTail(garbage[|garbage| - 1]), Sync), frames)
  {
    FreshFeeds(chunks);
    StreamDecodes(garbage, frames);
  }

  lemma {:induction false} CanonicalDecodes(f: Frame)
    requires Encodable(f) && Canonical(f.frameType)
    ensures Drain(Decoder(Sealed(f), Sync)) == Done(FRESH, [f])
  {
    FrameDecodes([], f, []);
    assert [] + Sealed(f) + [] == Sealed(f);
    assert Drain(Decoder([], Sync)) == Done(FRESH, []);
  }

  lemma {:induction false} FreshFeed(b: Bytes)
    ensures Feed(FRESH, b) == Drain(Decoder(b, Sync))
  {
    assert [] + b == b;
  }

  /** A frame comes back as itself exactly when its type is canonical: an `Unknown` that names a known code does not. */
  lemma {:induction false} CanonicalExactly(f: Frame)
    requires Encodable(f)
    ensures Feed(FRESH, Sealed(f)) == Done(FRESH, [f]) <==> Canonical(f.frameType)
  {
    FreshFeed(Sealed(f));
    if Canonical(f.frameType) { CanonicalDecodes(f); } else { NonCanonicalDiffers(f); }
  }

  /** What comes out of a body first has the type its header announced. */
  lemma {:induction false} BodyType(d: Decoder)
    requires d.state.Body? && Drain(d).Done? && Drain(d).frames != []
    ensures Drain(d).frames[0].frameType == d.state.info.frameType
  {
    assert Advance(d).Moved?;
  }

  lemma {:induction false} NonCanonicalDiffers(f: Frame)
    requires Encodable(f) && !Canonical(f.frameType)
    ensures var o := Drain(Decoder(Sealed(f), Sync)); o.Done? ==> o.frames != [f]
  {
    var h, crc := Header(f), Be32(Crc32(Header(f) + f.payload));
    HeaderFields(f);
    assert Sealed(f) == [] + h + (f.payload + crc);
    SyncAdvances([], h, f.payload + crc);
    if CheckHeader(h).Ok? {
      var body := Decoder(f.payload + crc, Body(h, CheckHeader(h).value));
      EmptyBefore(Drain(body));
      if Drain(body).Done? && Drain(body).frames != [] { BodyType(body); }
    }
  }
}
