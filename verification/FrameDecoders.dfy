/**
 The incremental frame decoder as the object it is (src/wire/frame.rs:337-480): a buffer that is drained and a
 state that is switched in a loop. Its `Feed` is proved to be the function `Wire.Feed`.
 */
module FrameDecoders {
  import opened Prelude
  import opened Frames
  import opened BigEndian
  import W = Wire
  import opened Wire

  lemma {:induction false} BeforeBefore(a: seq<Frame>, b: seq<Frame>, o: Outcome)
    ensures Before(a, Before(b, o)) == Before(a + b, o)
  {
    if o.Done? { assert a + (b + o.frames) == a + b + o.frames; }
  }

  class FrameDecoder {
    var buf: Bytes
    var state: State

    constructor ()
      ensures Value() == FRESH
    {
      buf, state := [], Sync;
    }

    function Value(): Decoder
      reads this
    {
      Decoder(buf, state)
    }

    /** The first window of four bytes that is the magic. */
    method FindStart() returns (pos: Option<nat>)
      ensures pos == FindMagic(buf, 0)
    {
      var i := 0;
      while i + 4 <= |buf|
        invariant FindMagic(buf, 0) == FindMagic(buf, i)
        decreases |buf| - i
      {
        if buf[i..i + 4] == MAGIC { return Some(i); }
        i := i + 1;
      }
      pos := None;
    }

    /** A step in the sync state; a fatal header drains the decoder. */
    method ProgressSync() returns (r: Result<bool, FrameError>)
      requires state.Sync?
      modifies this
      ensures match Advance(old(Value()))
              case Moved(next, out) => r == Ok(true) && Value() == next && out == []
              case Waits(next) => r == Ok(false) && Value() == next
              case Fails(e) => r == Err(e) && Value() == FRESH
    {
      var pos := FindStart();
      if pos.None? {
        buf := buf[|buf| - Min(|buf|, 3)..];
        return Ok(false);
      }
      buf := buf[pos.value..];
      if |buf| < HEADER_LEN { return Ok(false); }
      var info := CheckHeader(buf[..HEADER_LEN]);
      if info.Err? {
        buf, state := [], Sync;
        return Err(info.error);
      }
      buf, state := buf[HEADER_LEN..], Body(buf[..HEADER_LEN], info.value);
      r := Ok(true);
    }

    /** A step in the body state, with the frame it completed, if any. */
    method ProgressBody() returns (r: Result<bool, FrameError>, out: seq<Frame>)
      requires state.Body?
      modifies this
      ensures match Advance(old(Value()))
              case Moved(next, frames) => r == Ok(true) && Value() == next && out == frames
              case Waits(next) => r == Ok(false) && Value() == next && out == []
              case Fails(e) => r == Err(e) && Value() == FRESH && out == []
    {
      var header, info := state.header, state.info;
      var need := info.frameLen + CRC_LEN;
      out := [];
      if |buf| < need { return Ok(false), []; }
      var actual := BodyCrc(header, buf[..info.frameLen]);
      var expected := Of32(buf[info.frameLen..need]);
      if actual != expected {
        buf, state := [], Sync;
        return Err(CrcMismatch(expected, actual)), [];
      }
      out := [Frame(info.frameType, info.transactionId, info.totalLen, info.seqNo, buf[..info.frameLen])];
      buf, state := buf[need..], Sync;
      r := Ok(true);
    }

    /** All frames this chunk completes; on an error the frames found before it are lost with it. */
    method Feed(chunk: Bytes) returns (r: Result<seq<Frame>, FrameError>)
      modifies this
      ensures match W.Feed(old(Value()), chunk)
              case Done(next, frames) => r == Ok(frames) && Value() == next
              case Failed(e) => r == Err(e) && Value() == FRESH
    {
      ghost var goal := W.Feed(Value(), chunk);
      buf := buf + chunk;
      var frames: seq<Frame> := [];
      EmptyBefore(Drain(Value()));
      while true
        invariant goal == Before(frames, Drain(Value()))
        decreases |buf|
      {
        var more: Result<bool, FrameError>;
        ghost var here := Value();
        if state.Sync? {
          more := ProgressSync();
          if more == Ok(true) { EmptyBefore(Drain(Value())); }
        } else {
          var out;
          more, out := ProgressBody();
          BeforeBefore(frames, out, Drain(Value()));
          frames := frames + out;
        }
        if more.Err? { return Err(more.error); }
        if !more.value {
          assert frames + [] == frames;
          return Ok(frames);
        }
      }
    }
  }
}
