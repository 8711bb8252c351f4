/**
 The reassembler as the object it is (src/reliability/reassemble.rs): a table of slots that every frame updates in
 place. Each method is proved to compute the function of the same name in `Reassembly`.
 */
module Receiver {
  import opened Prelude
  import opened Frames
  import R = Reassembly
  import opened Reassembly

  lemma {:induction false} EmissionNext(frames: Store, lo: nat, hi: nat)
    requires lo <= hi
    ensures Emission(frames, lo, hi + 1) == Emission(frames, lo, hi) + if hi in frames then [(hi, frames[hi])] else []
    decreases hi - lo
  {
    if lo < hi {
      EmissionNext(frames, lo + 1, hi);
    } else {
      assert Emission(frames, hi + 1, hi + 1) == [];
    }
  }

  lemma {:induction false} GapsNext(frames: Store, lo: nat, hi: nat)
    requires lo <= hi
    ensures Gaps(frames, lo, hi + 1) == Gaps(frames, lo, hi) + if hi in frames then [] else [hi]
    decreases hi - lo
  {
    if lo < hi {
      GapsNext(frames, lo + 1, hi);
    } else {
      assert Gaps(frames, hi + 1, hi + 1) == [];
    }
  }

  /** Extending the range only extends the list. */
  lemma {:induction false} GapsGrow(frames: Store, lo: nat, mid: nat, hi: nat)
    requires lo <= mid <= hi
    ensures Gaps(frames, lo, mid) <= Gaps(frames, lo, hi)
    decreases hi - mid
  {
    if mid < hi {
      GapsNext(frames, lo, mid);
      GapsGrow(frames, lo, mid + 1, hi);
    }
  }

  class TransactionReassembler {
    var slots: Slots

    constructor ()
      ensures slots == map[]
    {
      slots := map[];
    }

    /** Advance the contiguous prefix over newly filled holes. */
    method AdvanceContiguous(s: Slot) returns (u: Slot)
      ensures u == Advanced(s)
    {
      var prefix := s.contiguousPrefix;
      var next := if prefix.Some? then prefix.value + 1 else 0;
      while next in s.frames
        invariant FirstGap(s.frames, next) == FirstGap(s.frames, PrefixEnd(s))
        invariant prefix == if next == 0 then None else Some(next - 1)
        decreases From(s.frames, next)
      {
        assert next in From(s.frames, next) && next !in From(s.frames, next + 1);
        prefix := Some(next);
        next := next + 1;
      }
      u := s.(contiguousPrefix := prefix);
    }

    method Emit(frames: Store, lo: nat, hi: nat) returns (out: seq<(nat, Bytes)>)
      ensures out == Emission(frames, lo, hi)
    {
      out := [];
      var k := lo;
      while k < hi
        invariant lo <= k && (if lo <= hi then k <= hi else k == lo) && out == Emission(frames, lo, k)
      {
        EmissionNext(frames, lo, k);
        if k in frames { out := out + [(k, frames[k])]; }
        k := k + 1;
      }
    }

    method ReceiveFrame(id: Txid, seqNo: nat, totalLen: nat, frameLen: nat, payload: Bytes, emit: bool)
      returns (r: Result<ReceiveOutcome, ReassemblyError>)
      modifies this
      ensures (slots, r) == R.Receive(old(slots), id, seqNo, totalLen, frameLen, payload, emit)
    {
      if frameLen != |payload| { return Err(FrameLenMismatch(frameLen, |payload|)); }
      if totalLen == 0 { return Err(EmptyTotalLen); }
      if seqNo > 0 && id !in slots { return Ok(SlotlessDropped); }
      var s := if id in slots then slots[id] else EmptySlot(totalLen);
      slots := slots[id := s];
      if s.totalLen != totalLen { return Err(TotalLenConflict(s.totalLen, totalLen)); }
      if seqNo in s.frames { return Ok(Duplicate); }
      if s.receivedBytes + |payload| > totalLen { return Err(TotalLenExceeded(totalLen)); }
      var before := PrefixEnd(s);
      var u := AdvanceContiguous(s.(frames := s.frames[seqNo := payload],
                                    receivedFrames := s.receivedFrames + 1,
                                    receivedBytes := s.receivedBytes + |payload|));
      slots := slots[id := u];
      assert slots == old(slots)[id := u];
      var emitted := [];
      if emit { emitted := Emit(u.frames, before, PrefixEnd(u)); }
      r := Ok(Accepted(IsComplete(u), emitted));
    }

    /** The frames are walked in `seq` order. */
    method TakeCompleted(id: Txid) returns (payload: Option<Bytes>)
      modifies this
      ensures (slots, payload) == R.TakeCompleted(old(slots), id)
    {
      if id !in slots || !IsComplete(slots[id]) { return None; }
      var frames := slots[id].frames;
      slots := slots - {id};
      var out := [];
      if frames != map[] {
        var end, k := Highest(frames) + 1, 0;
        while k < end
          invariant 0 <= k <= end && out == Stored(frames, k)
        {
          if k in frames { out := out + frames[k]; }
          k := k + 1;
        }
      }
      payload := Some(out);
    }

    method AckEntryFor(id: Txid) returns (e: Option<AckEntry>)
      ensures e == AckFor(slots, id)
    {
      if id !in slots || slots[id].contiguousPrefix.None? { return None; }
      e := Some(AckEntry(id, slots[id].contiguousPrefix.value, slots[id].receivedFrames));
    }

    /** The gap list, cut off at `maxEntries`. */
    method MissingSeqs(id: Txid, maxEntries: nat) returns (out: seq<nat>)
      ensures out == R.MissingSeqs(slots, id, maxEntries)
    {
      out := [];
      if id !in slots || slots[id].frames == map[] { return; }
      var s := slots[id];
      var start, highest := PrefixEnd(s), Highest(s.frames);
      var k := start;
      while k < highest && |out| < maxEntries
        invariant start <= k && (if start <= highest then k <= highest else k == start)
        invariant |out| <= maxEntries && out == Gaps(s.frames, start, k)
      {
        GapsNext(s.frames, start, k);
        if k !in s.frames { out := out + [k]; }
        k := k + 1;
      }
      if k <= highest { GapsGrow(s.frames, start, k, highest); }
    }

    method Discard(id: Txid) returns (existed: bool)
      modifies this
      ensures slots == old(slots) - {id} && existed == (id in old(slots))
    {
      existed := id in slots;
      slots := slots - {id};
    }
  }
}
