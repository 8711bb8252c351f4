/** The frame codec (src/wire/frame.rs): header, CRC trailer, encoder and the incremental decoder as functions. */
module Wire {
  import opened Prelude
  import opened BigEndian
  import opened Frames

  const MAGIC: Bytes := [0x58, 0x41, 0x43, 0x50]
  const VERSION_MAJOR: Byte := 1
  const VERSION_MINOR: Byte := 2
  const HEADER_LEN: nat := 36
  const CRC_LEN: nat := 4
  const FRAME_OVERHEAD: nat := HEADER_LEN + CRC_LEN
  const MAX_CONTROL_FRAME_LEN: nat := 16 * 1024
  const MAX_DATA_JSON_FRAME_LEN: nat := 1024 * 1024
  const MAX_DATA_BINARY_FRAME_LEN: nat := 16 * 1024 * 1024
  const MAX_DECODE_TOTAL_CAP: nat := 64 * 1024 * 1024

  // ---------------------------------------------------------------------------------------------
  // Frame types

  function ToU16(t: FrameType): nat
  {
    match t
    case Negotiate => 0x0001
    case Ack => 0x0002
    case Nack => 0x0003
    case Resume => 0x0004
    case ResumeResponse => 0x0008
    case Heartbeat => 0x0005
    case Error => 0x0006
    case TransactionPause => 0x0009
    case TransactionAbort => 0x000A
    case TransactionCompleted => 0x000B
    case SecurityUpgrade => 0x0007
    case DataJson => 0x1001
    case DataBinary => 0x1002
    case Unknown(v) => v
  }

  function FromU16(v: nat): FrameType
  {
    if v == 0x0001 then Negotiate
    else if v == 0x0002 then Ack
    else if v == 0x0003 then Nack
    else if v == 0x0004 then Resume
    else if v == 0x0008 then ResumeResponse
    else if v == 0x0005 then Heartbeat
    else if v == 0x0006 then Error
    else if v == 0x0009 then TransactionPause
    else if v == 0x000A then TransactionAbort
    else if v == 0x000B then TransactionCompleted
    else if v == 0x0007 then SecurityUpgrade
    else if v == 0x1001 then DataJson
    else if v == 0x1002 then DataBinary
    else Unknown(v)
  }

  /** Per-type payload limit; unknown types are bounded by the decode cap. */
  function MaxLen(t: FrameType): nat
  {
    match t
    case Unknown(_) => MAX_DECODE_TOTAL_CAP - FRAME_OVERHEAD
    case DataJson => MAX_DATA_JSON_FRAME_LEN
    case DataBinary => MAX_DATA_BINARY_FRAME_LEN
    case _ => MAX_CONTROL_FRAME_LEN
  }

  /** The type survives the trip through its wire code. */
  predicate Canonical(t: FrameType) { FromU16(ToU16(t)) == t }

  // ---------------------------------------------------------------------------------------------
  // CRC-32/ISO-HDLC

  function CrcBit(c: bv32): bv32 { if c & 1 == 1 then (c >> 1) ^ 0xEDB88320 else c >> 1 }

  function CrcByte(c: bv32, b: Byte): bv32
  {
    CrcBit(CrcBit(CrcBit(CrcBit(CrcBit(CrcBit(CrcBit(CrcBit(c ^ (b as bv32)))))))))
  }

  /** Hasher state after more bytes. */
  function CrcUpdate(c: bv32, data: Bytes): bv32
  {
    if data == [] then c else CrcByte(CrcUpdate(c, data[..|data| - 1]), data[|data| - 1])
  }

  function CrcFinal(c: bv32): nat { (c ^ 0xFFFF_FFFF) as nat }

  function Crc32(data: Bytes): nat { CrcFinal(CrcUpdate(0xFFFF_FFFF, data)) }

  /** Hashing header and payload in two updates is hashing their concatenation. */
  lemma {:induction false} CrcConcat(c: bv32, a: Bytes, b: Bytes)
    ensures CrcUpdate(c, a + b) == CrcUpdate(CrcUpdate(c, a), b)
  {
    if b == [] {
      assert a + b == a;
    } else {
      CrcConcat(c, a, b[..|b| - 1]);
      assert (a + b)[..|a + b| - 1] == a + b[..|b| - 1];
    }
  }

  lemma {:induction false} CrcFits(c: bv32)
    ensures CrcFinal(c) < U32_LIMIT
  {
  }

  // ---------------------------------------------------------------------------------------------
  // Encoding

  datatype FrameError =
    | VersionMismatch(got: nat)
    | FrameTooLarge(frameType: FrameType, max: nat, actual: nat)
    | CrcMismatch(expected: nat, actual: nat)

  function Header(f: Frame): Bytes
  {
    MAGIC + [VERSION_MAJOR, VERSION_MINOR] + Be16(ToU16(f.frameType)) + f.transactionId
    + Be32(f.totalLen) + Be32(f.seqNo) + Be32(|f.payload|)
  }

  function Sealed(f: Frame): Bytes { Header(f) + f.payload + Be32(Crc32(Header(f) + f.payload)) }

  function Encode(f: Frame): Result<Bytes, FrameError>
  {
    if |f.payload| > MaxLen(f.frameType) then Err(FrameTooLarge(f.frameType, MaxLen(f.frameType), |f.payload|))
    else Ok(Sealed(f))
  }

  // ---------------------------------------------------------------------------------------------
  // Header validation

  datatype HeaderInfo = HeaderInfo(frameType: FrameType, transactionId: Txid, totalLen: nat, seqNo: nat, frameLen: nat)

  function CheckHeader(h: Bytes): Result<HeaderInfo, FrameError>
    requires |h| == HEADER_LEN
  {
    if h[4] != VERSION_MAJOR then Err(VersionMismatch(h[4]))
    else
      var t := FromU16(Of16(h[6..8]));
      var n := Of32(h[32..36]);
      if n > MaxLen(t) then Err(FrameTooLarge(t, MaxLen(t), n))
      else Ok(HeaderInfo(t, h[8..24], Of32(h[24..28]), Of32(h[28..32]), n))
  }

  // ---------------------------------------------------------------------------------------------
  // The incremental decoder

  datatype State = Sync | Body(header: Bytes, info: HeaderInfo)

  datatype Decoder = Decoder(buf: Bytes, state: State)

  const FRESH := Decoder([], Sync)

  predicate MagicAt(buf: Bytes, i: nat) { i + 4 <= |buf| && buf[i..i + 4] == MAGIC }

  /** Position of the first magic at or after `from`. */
  function FindMagic(buf: Bytes, from: nat): (r: Option<nat>)
    ensures r.Some? ==> from <= r.value && MagicAt(buf, r.value) && forall i :: from <= i < r.value ==> !MagicAt(buf, i)
    ensures r.None? ==> forall i :: from <= i ==> !MagicAt(buf, i)
    decreases |buf| - from
  {
    if from + 4 > |buf| then None else if MagicAt(buf, from) then Some(from) else FindMagic(buf, from + 1)
  }

  /** At most the last three bytes: a possibly split magic. */
  function KeepTail(buf: Bytes): Bytes { buf[|buf| - Min(|buf|, 3)..] }

  /** One `progress` call: it moved on (perhaps with a frame), needs input, or failed. */
  datatype Progress = Moved(next: Decoder, out: seq<Frame>) | Waits(next: Decoder) | Fails(error: FrameError)

  /** The buffer starts with a magic: validate its header once it is complete. */
  function Locked(buf: Bytes): Progress
  {
    if |buf| < HEADER_LEN then Waits(Decoder(buf, Sync))
    else
      var info := CheckHeader(buf[..HEADER_LEN]);
      if info.Err? then Fails(info.error)
      else Moved(Decoder(buf[HEADER_LEN..], Body(buf[..HEADER_LEN], info.value)), [])
  }

  /** CRC over header and payload, hashed in two updates. */
  function BodyCrc(header: Bytes, payload: Bytes): nat { CrcFinal(CrcUpdate(CrcUpdate(0xFFFF_FFFF, header), payload)) }

  /** Header validated: wait for payload and trailer, then check and emit. */
  function InBody(buf: Bytes, header: Bytes, info: HeaderInfo): Progress
  {
    var need := info.frameLen + CRC_LEN;
    if |buf| < need then Waits(Decoder(buf, Body(header, info)))
    else
      var payload := buf[..info.frameLen];
      var actual := BodyCrc(header, payload);
      var expected := Of32(buf[info.frameLen..need]);
      if actual != expected then Fails(CrcMismatch(expected, actual))
      else
        Moved(Decoder(buf[need..], Sync),
              [Frame(info.frameType, info.transactionId, info.totalLen, info.seqNo, payload)])
  }

  function Advance(d: Decoder): (r: Progress)
    ensures r.Moved? ==> |r.next.buf| < |d.buf|
  {
    match d.state
    case Sync =>
      var pos := FindMagic(d.buf, 0);
      if pos.None? then Waits(Decoder(KeepTail(d.buf), Sync)) else Locked(d.buf[pos.value..])
    case Body(header, info) => InBody(d.buf, header, info)
  }

  datatype Outcome = Done(next: Decoder, frames: seq<Frame>) | Failed(error: FrameError)

  /** The `feed` loop on the buffered bytes. */
  function Drain(d: Decoder): Outcome
    decreases |d.buf|
  {
    match Advance(d)
    case Waits(next) => Done(next, [])
    case Fails(e) => Failed(e)
    case Moved(next, out) => Before(out, Drain(next))
  }

  /** Frames of an earlier step come first; an error drops them. */
  function Before(out: seq<Frame>, o: Outcome): Outcome { if o.Failed? then o else Done(o.next, out + o.frames) }

  lemma {:induction false} EmptyBefore(o: Outcome)
    ensures Before([], o) == o
  {
    if o.Done? { assert [] + o.frames == o.frames; }
  }

  function Feed(d: Decoder, chunk: Bytes): Outcome { Drain(d.(buf := d.buf + chunk)) }

  /** Feeding chunk after chunk, up to the first error. */
  function FeedAll(d: Decoder, chunks: seq<Bytes>): Outcome
    decreases |chunks|
  {
    if chunks == [] then Done(d, [])
    else
      var first := Feed(d, chunks[0]);
      if first.Failed? then first else Before(first.frames, FeedAll(first.next, chunks[1..]))
  }
}
