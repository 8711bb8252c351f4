/** The NACK payload (src/wire/control.rs:461-540): entries of variable length under one size cap. */
module NackCodec {
  import opened Prelude
  import opened BigEndian
  import opened Control

  const U16_MAX: nat := 65535
  const NACK_HEAD_LEN: nat := 18

  datatype NackEntry = NackEntry(transactionId: Txid, missingSeqs: seq<nat>)

  predicate FitsNack(e: NackEntry)
  {
    |e.transactionId| == TXID_LEN && forall i :: 0 <= i < |e.missingSeqs| ==> e.missingSeqs[i] < U32_LIMIT
  }

  function SeqBytes(ks: seq<nat>): Bytes { if ks == [] then [] else SeqBytes(ks[..|ks| - 1]) + Be32(ks[|ks| - 1]) }

  /** `chunks_exact(4)`. */
  function SeqsOf(b: Bytes): seq<nat> { if |b| < 4 then [] else [Of32(b[..4])] + SeqsOf(b[4..]) }

  function EntryBytes(e: NackEntry): Bytes { e.transactionId + Be16(|e.missingSeqs|) + SeqBytes(e.missingSeqs) }

  /** Entry by entry; a list too long for its count field fails. */
  function EntriesBytes(es: seq<NackEntry>): Result<Bytes, ControlError>
  {
    if es == [] then Ok([])
    else
      var front, e := EntriesBytes(es[..|es| - 1]), es[|es| - 1];
      if front.Err? then front
      else if |e.missingSeqs| > U16_MAX then Err(MissingSeqOverflow(|e.missingSeqs|))
      else Ok(front.value + EntryBytes(e))
  }

  function EncodeNack(es: seq<NackEntry>): Result<Bytes, ControlError>
  {
    if |es| < 1 || |es| > 255 then Err(CountOutOfRange(|es|, 1, 255))
    else
      var body := EntriesBytes(es);
      if body.Err? then body else Capped([|es|] + body.value)
  }

  /** One entry off the front of `b`, and what is left. */
  function EntryOf(b: Bytes): Result<(NackEntry, Bytes), ControlError>
  {
    if |b| < NACK_HEAD_LEN then Err(LengthMismatch(NACK_HEAD_LEN, |b|))
    else
      var n := 4 * Of16(b[16..18]);
      var rest := b[NACK_HEAD_LEN..];
      if |rest| < n then Err(LengthMismatch(n, |rest|)) else Ok((NackEntry(b[..16], SeqsOf(rest[..n])), rest[n..]))
  }

  /** `count` entries, and nothing after them. */
  function EntriesOf(b: Bytes, count: nat): Result<seq<NackEntry>, ControlError>
    decreases count
  {
    if count == 0 then (if b == [] then Ok([]) else Err(LengthMismatch(0, |b|)))
    else
      var first := EntryOf(b);
      if first.Err? then Err(first.error) else Behind([first.value.0], EntriesOf(first.value.1, count - 1))
  }

  function Behind(front: seq<NackEntry>, r: Result<seq<NackEntry>, ControlError>): Result<seq<NackEntry>, ControlError>
  {
    if r.Err? then r else Ok(front + r.value)
  }

  function DecodeNack(b: Bytes): Result<seq<NackEntry>, ControlError>
  {
    if b == [] then Err(LengthMismatch(1, 0))
    else if b[0] < 1 then Err(CountOutOfRange(b[0], 1, 255))
    else EntriesOf(b[1..], b[0])
  }

  // ---------------------------------------------------------------------------------------------
  // Sequence numbers

  lemma {:induction false} SeqBytesCons(k: nat, ks: seq<nat>)
    ensures SeqBytes([k] + ks) == Be32(k) + SeqBytes(ks)
  {
    if ks == [] {
      assert ([k] + ks)[..0] == [];
    } else {
      var n := |ks| - 1;
      assert ([k] + ks)[..n + 1] == [k] + ks[..n];
      SeqBytesCons(k, ks[..n]);
    }
  }

  lemma {:induction false} SeqsRoundTrip(ks: seq<nat>)
    requires forall i :: 0 <= i < |ks| ==> ks[i] < U32_LIMIT
    ensures |SeqBytes(ks)| == 4 * |ks| && SeqsOf(SeqBytes(ks)) == ks
  {
    if ks != [] {
      assert ks == [ks[0]] + ks[1..];
      SeqBytesCons(ks[0], ks[1..]);
      Of32Be32(ks[0]);
      SeqsRoundTrip(ks[1..]);
      var b := SeqBytes(ks);
      assert b[..4] == Be32(ks[0]) && b[4..] == SeqBytes(ks[1..]);
    }
  }

  lemma {:induction false} SeqsStrict(b: Bytes, n: nat)
    requires |b| == 4 * n
    ensures |SeqsOf(b)| == n && SeqBytes(SeqsOf(b)) == b && forall i :: 0 <= i < n ==> SeqsOf(b)[i] < U32_LIMIT
  {
    if n > 0 {
      SeqsStrict(b[4..], n - 1);
      Be32Of32(b[..4]);
      SeqBytesCons(Of32(b[..4]), SeqsOf(b[4..]));
    }
  }

  // ---------------------------------------------------------------------------------------------
  // Entries

  lemma {:induction false} EntryRoundTrip(e: NackEntry, rest: Bytes)
    requires FitsNack(e) && |e.missingSeqs| <= U16_MAX
    ensures EntryOf(EntryBytes(e) + rest) == Ok((e, rest)) && |EntryBytes(e)| == NACK_HEAD_LEN + 4 * |e.missingSeqs|
  {
    var b, ks := EntryBytes(e) + rest, SeqBytes(e.missingSeqs);
    SeqsRoundTrip(e.missingSeqs);
    Be16Of16(|e.missingSeqs|, [0, 0]);
    assert b[..16] == e.transactionId && b[16..18] == Be16(|e.missingSeqs|);
    assert b[NACK_HEAD_LEN..] == ks + rest;
    assert (ks + rest)[..|ks|] == ks && (ks + rest)[|ks|..] == rest;
  }

  lemma {:induction false} EntryStrict(b: Bytes)
    requires EntryOf(b).Ok?
    ensures var (e, rest) := EntryOf(b).value; FitsNack(e) && |e.missingSeqs| <= U16_MAX && b == EntryBytes(e) + rest
  {
    var n := Of16(b[16..18]);
    var tail := b[NACK_HEAD_LEN..];
    SeqsStrict(tail[..4 * n], n);
    Be16Of16(n, b[16..18]);
    assert b == b[..16] + b[16..18] + tail && tail == tail[..4 * n] + tail[4 * n..];
  }

  /** The unchecked body: every entry's bytes, in order. */
  function Body(es: seq<NackEntry>): Bytes { if es == [] then [] else Body(es[..|es| - 1]) + EntryBytes(es[|es| - 1]) }

  predicate Countable(es: seq<NackEntry>) { forall i :: 0 <= i < |es| ==> |es[i].missingSeqs| <= U16_MAX }

  lemma {:induction false} BodyCons(e: NackEntry, es: seq<NackEntry>)
    ensures Body([e] + es) == EntryBytes(e) + Body(es)
  {
    if es == [] {
      assert ([e] + es)[..0] == [];
    } else {
      var n := |es| - 1;
      assert ([e] + es)[..n + 1] == [e] + es[..n];
      BodyCons(e, es[..n]);
    }
  }

  /** Entries encode exactly when every list fits its count field. */
  lemma {:induction false} EntriesEncode(es: seq<NackEntry>)
    ensures EntriesBytes(es).Ok? <==> Countable(es)
    ensures EntriesBytes(es).Ok? ==> EntriesBytes(es).value == Body(es)
  {
    if es != [] {
      var n := |es| - 1;
      EntriesEncode(es[..n]);
      assert Countable(es) <==> Countable(es[..n]) && |es[n].missingSeqs| <= U16_MAX;
    }
  }

  lemma {:induction false} EntriesDecode(es: seq<NackEntry>)
    requires Countable(es) && forall i :: 0 <= i < |es| ==> FitsNack(es[i])
    ensures EntriesOf(Body(es), |es|) == Ok(es)
  {
    if es != [] {
      assert es == [es[0]] + es[1..];
      BodyCons(es[0], es[1..]);
      EntryRoundTrip(es[0], Body(es[1..]));
      EntriesDecode(es[1..]);
    }
  }

  lemma {:induction false} EntriesStrict(b: Bytes, count: nat)
    requires EntriesOf(b, count).Ok?
    ensures var es := EntriesOf(b, count).value; |es| == count && Countable(es) && Body(es) == b
    decreases count
  {
    if count > 0 {
      var (e, rest) := EntryOf(b).value;
      EntryStrict(b);
      EntriesStrict(rest, count - 1);
      BodyCons(e, EntriesOf(rest, count - 1).value);
    }
  }

  // ---------------------------------------------------------------------------------------------
  // Main results

  /** A NACK encodes exactly within its three bounds, and then decodes to itself. */
  lemma {:induction false} NackRoundTrip(es: seq<NackEntry>)
    requires forall i :: 0 <= i < |es| ==> FitsNack(es[i])
    ensures EncodeNack(es).Ok? <==> 1 <= |es| <= 255 && Countable(es) && 1 + |Body(es)| <= CONTROL_PAYLOAD_CAP
    ensures EncodeNack(es).Ok? ==> DecodeNack(EncodeNack(es).value) == Ok(es)
  {
    EntriesEncode(es);
    if EncodeNack(es).Ok? {
      EntriesDecode(es);
      var b := EncodeNack(es).value;
      assert b[1..] == Body(es);
    }
  }

  /**
   A payload that decodes is the encoding of its entries, exactly when it respects the cap, which decoding
   ignores.
   */
  lemma {:induction false} NackStrict(b: Bytes)
    requires DecodeNack(b).Ok?
    ensures EncodeNack(DecodeNack(b).value) == Ok(b) <==> |b| <= CONTROL_PAYLOAD_CAP
  {
    EntriesStrict(b[1..], b[0]);
    var es := DecodeNack(b).value;
    EntriesEncode(es);
    assert b == [b[0]] + b[1..];
  }

  // ---------------------------------------------------------------------------------------------
  // The loops

  method WriteSeqs(front: Bytes, ks: seq<nat>) returns (out: Bytes)
    ensures out == front + SeqBytes(ks)
  {
    out := front;
    var j := 0;
    while j < |ks|
      invariant 0 <= j <= |ks| && out == front + SeqBytes(ks[..j])
    {
      assert ks[..j + 1][..j] == ks[..j];
      out := out + Be32(ks[j]);
      j := j + 1;
    }
    assert ks[..j] == ks;
  }

  method Encode(es: seq<NackEntry>) returns (r: Result<Bytes, ControlError>)
    ensures r == EncodeNack(es)
  {
    if |es| < 1 || |es| > 255 { return Err(CountOutOfRange(|es|, 1, 255)); }
    var out: Bytes, i := [|es|], 0;
    while i < |es|
      invariant 0 <= i <= |es| && EntriesBytes(es[..i]).Ok? && out == [|es|] + EntriesBytes(es[..i]).value
    {
      if |es[i].missingSeqs| > U16_MAX {
        OverflowStays(es, i);
        return Err(MissingSeqOverflow(|es[i].missingSeqs|));
      }
      EntriesNext(es, i);
      ghost var front := EntriesBytes(es[..i]).value;
      out := WriteEntry(out, es[i]);
      assert out == [|es|] + (front + EntryBytes(es[i]));
      i := i + 1;
    }
    assert es[..i] == es;
    if |out| > CONTROL_PAYLOAD_CAP { return Err(PayloadTooLarge(|out|)); }
    r := Ok(out);
  }

  lemma {:induction false} EntriesNext(es: seq<NackEntry>, i: nat)
    requires i < |es| && EntriesBytes(es[..i]).Ok? && |es[i].missingSeqs| <= U16_MAX
    ensures EntriesBytes(es[..i + 1]) == Ok(EntriesBytes(es[..i]).value + EntryBytes(es[i]))
  {
    assert es[..i + 1][..i] == es[..i];
  }

  method WriteEntry(front: Bytes, e: NackEntry) returns (out: Bytes)
    ensures out == front + EntryBytes(e)
  {
    out := WriteSeqs(front + e.transactionId + Be16(|e.missingSeqs|), e.missingSeqs);
  }

  /** The first overlong list decides the error, whatever follows. */
  lemma {:induction false} OverflowStays(es: seq<NackEntry>, i: nat)
    requires i < |es| && EntriesBytes(es[..i]).Ok? && |es[i].missingSeqs| > U16_MAX
    ensures EntriesBytes(es) == Err(MissingSeqOverflow(|es[i].missingSeqs|))
    decreases |es|
  {
    var n := |es| - 1;
    if i < n {
      assert es[..n][..i] == es[..i];
      OverflowStays(es[..n], i);
    }
  }

  method Decode(b: Bytes) returns (r: Result<seq<NackEntry>, ControlError>)
    ensures r == DecodeNack(b)
  {
    if b == [] { return Err(LengthMismatch(1, 0)); }
    var count: nat := b[0];
    if count < 1 { return Err(CountOutOfRange(count, 1, 255)); }
    var rest, i := b[1..], 0;
    var entries: seq<NackEntry> := [];
    BehindNothing(EntriesOf(rest, count));
    while i < count
      invariant 0 <= i <= count && DecodeNack(b) == Behind(entries, EntriesOf(rest, count - i))
    {
      if |rest| < NACK_HEAD_LEN { return Err(LengthMismatch(NACK_HEAD_LEN, |rest|)); }
      var id, n := rest[..16], 4 * Of16(rest[16..18]);
      ghost var was := rest;
      rest := rest[NACK_HEAD_LEN..];
      if |rest| < n { return Err(LengthMismatch(n, |rest|)); }
      var e := NackEntry(id, SeqsOf(rest[..n]));
      rest := rest[n..];
      assert EntryOf(was) == Ok((e, rest));
      BehindBehind(entries, [e], EntriesOf(rest, count - i - 1));
      entries := entries + [e];
      i := i + 1;
    }
    if rest != [] { return Err(LengthMismatch(0, |rest|)); }
    assert entries + [] == entries;
    r := Ok(entries);
  }

  lemma {:induction false} BehindNothing(r: Result<seq<NackEntry>, ControlError>)
    ensures Behind([], r) == r
  {
    if r.Ok? { assert [] + r.value == r.value; }
  }

  lemma {:induction false} BehindBehind(a: seq<NackEntry>, b: seq<NackEntry>, r: Result<seq<NackEntry>, ControlError>)
    ensures Behind(a, Behind(b, r)) == Behind(a + b, r)
  {
    if r.Ok? { assert a + (b + r.value) == a + b + r.value; }
  }
}
