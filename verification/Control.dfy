/** Control payload codecs with fixed-width entries (src/wire/control.rs): ACK, RESUME and RESUME_RESPONSE. */
module Control {
  import opened Prelude
  import opened BigEndian
  import opened Frames

  // ---------------------------------------------------------------------------------------------
  // Errors and bounds

  const CONTROL_PAYLOAD_CAP: nat := 16 * 1024

  datatype ControlError =
    | CountOutOfRange(count: nat, min: nat, max: nat)
    | LengthMismatch(expected: nat, actual: nat)
    | MissingSeqOverflow(len: nat)
    | PayloadTooLarge(size: nat)
    | UnknownResumeStatus(code: nat)

  function Capped(out: Bytes): Result<Bytes, ControlError>
  {
    if |out| > CONTROL_PAYLOAD_CAP then Err(PayloadTooLarge(|out|)) else Ok(out)
  }

  // ---------------------------------------------------------------------------------------------
  // Lists of fixed-width entries

  const ACK_ENTRY_LEN: nat := 24
  const STATUS_ENTRY_LEN: nat := 17

  predicate FitsAck(e: AckEntry)
  {
    |e.transactionId| == TXID_LEN && e.highestContiguousSeq < U32_LIMIT && e.receivedFrames < U32_LIMIT
  }

  function AckBytes(e: AckEntry): Bytes { e.transactionId + Be32(e.highestContiguousSeq) + Be32(e.receivedFrames) }

  function AckOf(c: Bytes): AckEntry
    requires |c| == ACK_ENTRY_LEN
  {
    AckEntry(c[..16], Of32(c[16..20]), Of32(c[20..24]))
  }

  function AckListBytes(es: seq<AckEntry>): Bytes
  {
    if es == [] then [] else AckListBytes(es[..|es| - 1]) + AckBytes(es[|es| - 1])
  }

  /** `chunks_exact(24)`. */
  function AckListOf(b: Bytes): seq<AckEntry>
  {
    if |b| < ACK_ENTRY_LEN then [] else [AckOf(b[..ACK_ENTRY_LEN])] + AckListOf(b[ACK_ENTRY_LEN..])
  }

  predicate FitsStatus(e: ResumeStatusEntry) { |e.transactionId| == TXID_LEN }

  function StatusCode(s: ResumeStatus): Byte { match s case Resumed => 1 case Rejected => 2 case UnknownTxn => 3 }

  function StatusOf(code: Byte): Result<ResumeStatus, ControlError>
  {
    if code == 1 then Ok(Resumed) else if code == 2 then Ok(Rejected) else if code == 3 then Ok(UnknownTxn)
    else Err(UnknownResumeStatus(code))
  }

  function StatusBytes(e: ResumeStatusEntry): Bytes { e.transactionId + [StatusCode(e.status)] }

  function StatusListBytes(es: seq<ResumeStatusEntry>): Bytes
  {
    if es == [] then [] else StatusListBytes(es[..|es| - 1]) + StatusBytes(es[|es| - 1])
  }

  /** The first unknown status byte fails the payload. */
  function StatusListOf(b: Bytes): Result<seq<ResumeStatusEntry>, ControlError>
  {
    if |b| < STATUS_ENTRY_LEN then Ok([])
    else
      var s := StatusOf(b[16]);
      if s.Err? then Err(s.error)
      else
        var rest := StatusListOf(b[STATUS_ENTRY_LEN..]);
        if rest.Err? then rest else Ok([ResumeStatusEntry(b[..16], s.value)] + rest.value)
  }

  lemma {:induction false} AckOfBytes(e: AckEntry)
    requires FitsAck(e)
    ensures |AckBytes(e)| == ACK_ENTRY_LEN && AckOf(AckBytes(e)) == e
  {
    var c := AckBytes(e);
    assert c[..16] == e.transactionId && c[16..20] == Be32(e.highestContiguousSeq)
        && c[20..24] == Be32(e.receivedFrames);
    Of32Be32(e.highestContiguousSeq);
    Of32Be32(e.receivedFrames);
  }

  lemma {:induction false} AckBytesOf(c: Bytes)
    requires |c| == ACK_ENTRY_LEN
    ensures FitsAck(AckOf(c)) && AckBytes(AckOf(c)) == c
  {
    Be32Of32(c[16..20]);
    Be32Of32(c[20..24]);
    assert c == c[..16] + c[16..20] + c[20..24];
  }

  lemma {:induction false} AckListCons(e: AckEntry, es: seq<AckEntry>)
    ensures AckListBytes([e] + es) == AckBytes(e) + AckListBytes(es)
  {
    if es == [] {
      assert ([e] + es)[..0] == [];
    } else {
      var n := |es| - 1;
      assert ([e] + es)[..n + 1] == [e] + es[..n];
      AckListCons(e, es[..n]);
    }
  }

  lemma {:induction false} AckListRoundTrip(es: seq<AckEntry>)
    requires forall i :: 0 <= i < |es| ==> FitsAck(es[i])
    ensures |AckListBytes(es)| == |es| * ACK_ENTRY_LEN
    ensures AckListOf(AckListBytes(es)) == es
  {
    if es != [] {
      var b := AckListBytes(es);
      assert es == [es[0]] + es[1..];
      AckListCons(es[0], es[1..]);
      AckOfBytes(es[0]);
      AckListRoundTrip(es[1..]);
      assert b[..ACK_ENTRY_LEN] == AckBytes(es[0]) && b[ACK_ENTRY_LEN..] == AckListBytes(es[1..]);
    }
  }

  lemma {:induction false} AckListStrict(b: Bytes, count: nat)
    requires |b| == count * ACK_ENTRY_LEN
    ensures |AckListOf(b)| == count && AckListBytes(AckListOf(b)) == b
    ensures forall i :: 0 <= i < count ==> FitsAck(AckListOf(b)[i])
  {
    if count > 0 {
      AckListStrict(b[ACK_ENTRY_LEN..], count - 1);
      AckBytesOf(b[..ACK_ENTRY_LEN]);
      AckListCons(AckOf(b[..ACK_ENTRY_LEN]), AckListOf(b[ACK_ENTRY_LEN..]));
    }
  }

  lemma {:induction false} StatusListCons(e: ResumeStatusEntry, es: seq<ResumeStatusEntry>)
    ensures StatusListBytes([e] + es) == StatusBytes(e) + StatusListBytes(es)
  {
    if es == [] {
      assert ([e] + es)[..0] == [];
    } else {
      var n := |es| - 1;
      assert ([e] + es)[..n + 1] == [e] + es[..n];
      StatusListCons(e, es[..n]);
    }
  }

  lemma {:induction false} StatusListRoundTrip(es: seq<ResumeStatusEntry>)
    requires forall i :: 0 <= i < |es| ==> FitsStatus(es[i])
    ensures |StatusListBytes(es)| == |es| * STATUS_ENTRY_LEN
    ensures StatusListOf(StatusListBytes(es)) == Ok(es)
  {
    if es != [] {
      var b := StatusListBytes(es);
      assert es == [es[0]] + es[1..];
      StatusListCons(es[0], es[1..]);
      StatusListRoundTrip(es[1..]);
      assert b[..16] == es[0].transactionId && b[STATUS_ENTRY_LEN..] == StatusListBytes(es[1..]);
    }
  }

  lemma {:induction false} StatusListStrict(b: Bytes, count: nat)
    requires |b| == count * STATUS_ENTRY_LEN && StatusListOf(b).Ok?
    ensures |StatusListOf(b).value| == count && StatusListBytes(StatusListOf(b).value) == b
    ensures forall i :: 0 <= i < count ==> FitsStatus(StatusListOf(b).value[i])
  {
    if count > 0 {
      StatusListStrict(b[STATUS_ENTRY_LEN..], count - 1);
      var e := ResumeStatusEntry(b[..16], StatusOf(b[16]).value);
      StatusListCons(e, StatusListOf(b[STATUS_ENTRY_LEN..]).value);
      assert b == b[..16] + [b[16]] + b[STATUS_ENTRY_LEN..];
    }
  }

  // ---------------------------------------------------------------------------------------------
  // ACK (count 1..=255), RESUME and RESUME_RESPONSE (count 0..=255)

  function EncodeAckList(es: seq<AckEntry>, min: nat): Result<Bytes, ControlError>
  {
    if |es| < min || |es| > 255 then Err(CountOutOfRange(|es|, min, 255)) else Capped([|es|] + AckListBytes(es))
  }

  function DecodeAckList(b: Bytes, min: nat): Result<seq<AckEntry>, ControlError>
  {
    if b == [] then Err(LengthMismatch(1, 0))
    else if b[0] < min then Err(CountOutOfRange(b[0], min, 255))
    else if |b| - 1 != b[0] * ACK_ENTRY_LEN then Err(LengthMismatch(b[0] * ACK_ENTRY_LEN, |b| - 1))
    else Ok(AckListOf(b[1..]))
  }

  function EncodeResponse(es: seq<ResumeStatusEntry>): Result<Bytes, ControlError>
  {
    if |es| > 255 then Err(CountOutOfRange(|es|, 0, 255)) else Capped([|es|] + StatusListBytes(es))
  }

  function DecodeResponse(b: Bytes): Result<seq<ResumeStatusEntry>, ControlError>
  {
    if b == [] then Err(LengthMismatch(1, 0))
    else if |b| - 1 != b[0] * STATUS_ENTRY_LEN then Err(LengthMismatch(b[0] * STATUS_ENTRY_LEN, |b| - 1))
    else StatusListOf(b[1..])
  }

  /** A list is encodable exactly up to 255 entries, and then decodes to itself. */
  lemma {:induction false} AckPayloadRoundTrip(es: seq<AckEntry>, min: nat)
    requires forall i :: 0 <= i < |es| ==> FitsAck(es[i])
    ensures EncodeAckList(es, min).Ok? <==> min <= |es| <= 255
    ensures EncodeAckList(es, min).Ok? ==> DecodeAckList(EncodeAckList(es, min).value, min) == Ok(es)
  {
    AckListRoundTrip(es);
    if |es| <= 255 {
      var b := [|es|] + AckListBytes(es);
      assert b[1..] == AckListBytes(es);
    }
  }

  /** Strictness: a payload that decodes is the one encoding of what it decodes to. */
  lemma {:induction false} AckPayloadStrict(b: Bytes, min: nat)
    requires DecodeAckList(b, min).Ok?
    ensures EncodeAckList(DecodeAckList(b, min).value, min) == Ok(b)
  {
    AckListStrict(b[1..], b[0]);
    assert b == [b[0]] + b[1..];
  }

  lemma {:induction false} ResponseRoundTrip(es: seq<ResumeStatusEntry>)
    requires forall i :: 0 <= i < |es| ==> FitsStatus(es[i])
    ensures EncodeResponse(es).Ok? <==> |es| <= 255
    ensures EncodeResponse(es).Ok? ==> DecodeResponse(EncodeResponse(es).value) == Ok(es)
  {
    StatusListRoundTrip(es);
    if |es| <= 255 {
      var b := [|es|] + StatusListBytes(es);
      assert b[1..] == StatusListBytes(es);
    }
  }

  lemma {:induction false} ResponseStrict(b: Bytes)
    requires DecodeResponse(b).Ok?
    ensures EncodeResponse(DecodeResponse(b).value) == Ok(b)
  {
    StatusListStrict(b[1..], b[0]);
    assert b == [b[0]] + b[1..];
  }

  // ---------------------------------------------------------------------------------------------
  // The loops

  method WriteAckList(es: seq<AckEntry>, min: nat) returns (r: Result<Bytes, ControlError>)
    ensures r == EncodeAckList(es, min)
  {
    if |es| < min || |es| > 255 { return Err(CountOutOfRange(|es|, min, 255)); }
    var out: Bytes, i := [|es|], 0;
    while i < |es|
      invariant 0 <= i <= |es| && out == [|es|] + AckListBytes(es[..i])
    {
      assert es[..i + 1][..i] == es[..i];
      out := out + es[i].transactionId + Be32(es[i].highestContiguousSeq) + Be32(es[i].receivedFrames);
      i := i + 1;
    }
    assert es[..i] == es;
    r := Capped(out);
  }

  method WriteResponse(es: seq<ResumeStatusEntry>) returns (r: Result<Bytes, ControlError>)
    ensures r == EncodeResponse(es)
  {
    if |es| > 255 { return Err(CountOutOfRange(|es|, 0, 255)); }
    var out: Bytes, i := [|es|], 0;
    while i < |es|
      invariant 0 <= i <= |es| && out == [|es|] + StatusListBytes(es[..i])
    {
      assert es[..i + 1][..i] == es[..i];
      out := out + es[i].transactionId + [StatusCode(es[i].status)];
      i := i + 1;
    }
    assert es[..i] == es;
    r := Capped(out);
  }

  /** What a decoded front adds to the outcome of the rest. */
  function After(front: seq<ResumeStatusEntry>, r: Result<seq<ResumeStatusEntry>, ControlError>)
    : Result<seq<ResumeStatusEntry>, ControlError>
  {
    if r.Err? then r else Ok(front + r.value)
  }

  lemma {:induction false} AfterNext(front: seq<ResumeStatusEntry>, e: ResumeStatusEntry,
          r: Result<seq<ResumeStatusEntry>, ControlError>)
    ensures After(front, After([e], r)) == After(front + [e], r) && After([], r) == r
  {
    if r.Ok? { assert front + ([e] + r.value) == front + [e] + r.value && [] + r.value == r.value; }
  }

  method ReadResponse(b: Bytes) returns (r: Result<seq<ResumeStatusEntry>, ControlError>)
    ensures r == DecodeResponse(b)
  {
    if b == [] { return Err(LengthMismatch(1, 0)); }
    var expected := b[0] * STATUS_ENTRY_LEN;
    if |b| - 1 != expected { return Err(LengthMismatch(expected, |b| - 1)); }
    var rest := b[1..];
    var entries: seq<ResumeStatusEntry> := [];
    AfterNext([], ResumeStatusEntry([], Resumed), StatusListOf(rest));
    while |rest| >= STATUS_ENTRY_LEN
      invariant StatusListOf(b[1..]) == After(entries, StatusListOf(rest))
    {
      var s := StatusOf(rest[16]);
      if s.Err? { return Err(s.error); }
      var e := ResumeStatusEntry(rest[..16], s.value);
      AfterNext(entries, e, StatusListOf(rest[STATUS_ENTRY_LEN..]));
      entries := entries + [e];
      rest := rest[STATUS_ENTRY_LEN..];
    }
    assert entries + [] == entries;
    r := Ok(entries);
  }
}
