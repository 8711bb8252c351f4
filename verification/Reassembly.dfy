/**
 The receiver (src/reliability/reassemble.rs) as functions on values: per-transaction slots, the
 contiguous prefix, streaming emission, ACK/NACK export and delivery.

 `Receiver.TransactionReassembler` is the imperative form; every method there is proved against these functions.
 */
module Reassembly {
  import opened Prelude
  import opened Frames

  type Store = map<nat, Bytes>

  datatype Slot = Slot(totalLen: nat, frames: Store, receivedFrames: nat, receivedBytes: nat,
          contiguousPrefix: Option<nat>)

  type Slots = map<Txid, Slot>

  datatype ReassemblyError =
    | TotalLenConflict(first: nat, got: nat)
    | FrameLenMismatch(declared: nat, actual: nat)
    | EmptyTotalLen
    | TotalLenExceeded(total: nat)

  datatype ReceiveOutcome =
    | Accepted(complete: bool, emitted: seq<(nat, Bytes)>)
    | Duplicate
    | SlotlessDropped

  function PrefixEnd(s: Slot): nat { if s.contiguousPrefix.Some? then s.contiguousPrefix.value + 1 else 0 }

  predicate IsComplete(s: Slot) { s.contiguousPrefix.Some? && s.receivedBytes == s.totalLen }

  /** The first position from `from` on that holds no frame. */
  function FirstGap(frames: Store, from: nat): (g: nat)
    ensures from <= g && g !in frames
    ensures forall k :: from <= k < g ==> k in frames
    decreases From(frames, from)
  {
    if from in frames then
      assert from in From(frames, from) && from !in From(frames, from + 1);
      FirstGap(frames, from + 1)
    else from
  }

  function From(frames: Store, n: nat): set<nat> { set k | k in frames.Keys && n <= k }

  /** Advance the contiguous prefix over newly filled holes. */
  function Advanced(s: Slot): Slot
  {
    var g := FirstGap(s.frames, PrefixEnd(s));
    s.(contiguousPrefix := if g == 0 then None else Some(g - 1))
  }

  /** Frames `lo..hi`, in order, skipping absent ones. */
  function Emission(frames: Store, lo: nat, hi: nat): seq<(nat, Bytes)>
    decreases hi - lo
  {
    if lo >= hi then []
    else (if lo in frames then [(lo, frames[lo])] else []) + Emission(frames, lo + 1, hi)
  }

  function EmptySlot(totalLen: nat): Slot { Slot(totalLen, map[], 0, 0, None) }

  function Stored1(s: Slot, seqNo: nat, payload: Bytes): Slot
  {
    Advanced(s.(frames := s.frames[seqNo := payload],
                receivedFrames := s.receivedFrames + 1,
                receivedBytes := s.receivedBytes + |payload|))
  }

  /** `receive_frame`. A first frame that is rejected as oversized still leaves its empty slot behind. */
  function Receive(slots: Slots, id: Txid, seqNo: nat, totalLen: nat, frameLen: nat, payload: Bytes, emit: bool)
    : (Slots, Result<ReceiveOutcome, ReassemblyError>)
  {
    if frameLen != |payload| then (slots, Err(FrameLenMismatch(frameLen, |payload|)))
    else if totalLen == 0 then (slots, Err(EmptyTotalLen))
    else if seqNo > 0 && id !in slots then (slots, Ok(SlotlessDropped))
    else
      var s := if id in slots then slots[id] else EmptySlot(totalLen);
      if s.totalLen != totalLen then (slots[id := s], Err(TotalLenConflict(s.totalLen, totalLen)))
      else if seqNo in s.frames then (slots[id := s], Ok(Duplicate))
      else if s.receivedBytes + |payload| > totalLen then (slots[id := s], Err(TotalLenExceeded(totalLen)))
      else
        var u := Stored1(s, seqNo, payload);
        (slots[id := u],
         Ok(Accepted(IsComplete(u), if emit then Emission(u.frames, PrefixEnd(s), PrefixEnd(u)) else [])))
  }

  /** Stored payload bytes in `seq` order, from the positions below `n`. */
  function Stored(frames: Store, n: nat): Bytes
  {
    if n == 0 then [] else Stored(frames, n - 1) + (if n - 1 in frames then frames[n - 1] else [])
  }

  predicate Bounded(frames: Store, n: nat) { forall k :: k in frames ==> k < n }

  lemma {:induction false} MaximumExists(s: set<nat>)
    requires s != {}
    ensures exists m :: m in s && forall k :: k in s ==> k <= m
  {
    var m := HasMaximum(s);
  }

  function Highest(frames: Store): (m: nat)
    requires frames != map[]
    ensures m in frames && Bounded(frames, m + 1)
  {
    MaximumExists(frames.Keys);
    var m :| m in frames.Keys && forall k :: k in frames.Keys ==> k <= m;
    m
  }

  function Assembled(frames: Store): Bytes { if frames == map[] then [] else Stored(frames, Highest(frames) + 1) }

  function TakeCompleted(slots: Slots, id: Txid): (Slots, Option<Bytes>)
  {
    if id !in slots || !IsComplete(slots[id]) then (slots, None)
    else (slots - {id}, Some(Assembled(slots[id].frames)))
  }

  function AckFor(slots: Slots, id: Txid): Option<AckEntry>
  {
    if id !in slots || slots[id].contiguousPrefix.None? then None
    else Some(AckEntry(id, slots[id].contiguousPrefix.value, slots[id].receivedFrames))
  }

  /** Missing positions in `lo..hi`, ascending. */
  function Gaps(frames: Store, lo: nat, hi: nat): seq<nat>
    decreases hi - lo
  {
    if lo >= hi then []
    else (if lo in frames then [] else [lo]) + Gaps(frames, lo + 1, hi)
  }

  function AllGaps(s: Slot): seq<nat>
  {
    if s.frames == map[] then [] else Gaps(s.frames, PrefixEnd(s), Highest(s.frames))
  }

  function MissingSeqs(slots: Slots, id: Txid, maxEntries: nat): seq<nat>
  {
    if id !in slots then []
    else AllGaps(slots[id])[..Min(maxEntries, |AllGaps(slots[id])|)]
  }

  // ---------------------------------------------------------------------------------------------
  // What every slot keeps, whatever frames arrive

  ghost predicate SlotOk(s: Slot)
  {
    && 0 < s.totalLen
    && s.receivedFrames == |s.frames|
    && (forall k :: 0 <= k < PrefixEnd(s) ==> k in s.frames)
    && PrefixEnd(s) !in s.frames
    && s.receivedBytes <= s.totalLen
    && (forall n: nat {:trigger Bounded(s.frames, n)} :: Bounded(s.frames, n) ==>
          |Stored(s.frames, n)| == s.receivedBytes)
  }

  ghost predicate SlotsOk(slots: Slots) { forall id :: id in slots ==> SlotOk(slots[id]) }

  lemma {:induction false} StoredInsert(frames: Store, k: nat, payload: Bytes, n: nat)
    requires k !in frames && k < n
    ensures |Stored(frames[k := payload], n)| == |Stored(frames, n)| + |payload|
  {
    if k == n - 1 {
      StoredSame(frames, frames[k := payload], n - 1);
    } else {
      StoredInsert(frames, k, payload, n - 1);
    }
  }

  lemma {:induction false} StoredSame(a: Store, b: Store, n: nat)
    requires forall k :: 0 <= k < n ==> (k in a <==> k in b) && (k in a ==> a[k] == b[k])
    ensures Stored(a, n) == Stored(b, n)
  {
    if n > 0 { StoredSame(a, b, n - 1); }
  }

  lemma {:induction false} StoredBeyond(frames: Store, m: nat, n: nat)
    requires Bounded(frames, m) && m <= n
    ensures Stored(frames, n) == Stored(frames, m)
  {
    if m < n { StoredBeyond(frames, m, n - 1); }
  }

  lemma {:induction false} StoredNothing(n: nat)
    ensures Stored(map[], n) == []
  {
    if n > 0 { StoredNothing(n - 1); }
  }

  lemma {:induction false} EmptySlotOk(totalLen: nat)
    requires 0 < totalLen
    ensures SlotOk(EmptySlot(totalLen))
  {
    forall n: nat | Bounded(map[], n) ensures |Stored(map[], n)| == 0 { StoredNothing(n); }
  }

  lemma {:induction false} StoreOk(s: Slot, seqNo: nat, payload: Bytes)
    requires SlotOk(s) && seqNo !in s.frames && s.receivedBytes + |payload| <= s.totalLen
    ensures SlotOk(Stored1(s, seqNo, payload))
    ensures PrefixEnd(s) <= PrefixEnd(Stored1(s, seqNo, payload))
  {
    var u := Stored1(s, seqNo, payload);
    assert u.frames.Keys == s.frames.Keys + {seqNo};
    assert PrefixEnd(u) == FirstGap(u.frames, PrefixEnd(s));
    forall n: nat | Bounded(u.frames, n) ensures |Stored(u.frames, n)| == u.receivedBytes {
      assert seqNo in u.frames;
      assert forall k :: k in s.frames ==> k in u.frames;
      assert Bounded(s.frames, n);
      StoredInsert(s.frames, seqNo, payload, n);
    }
  }

  lemma {:induction false} ReceiveOk(slots: Slots, id: Txid, seqNo: nat, totalLen: nat, frameLen: nat, payload: Bytes,
          emit: bool)
    requires SlotsOk(slots)
    ensures SlotsOk(Receive(slots, id, seqNo, totalLen, frameLen, payload, emit).0)
    ensures id in slots ==>
              var u := Receive(slots, id, seqNo, totalLen, frameLen, payload, emit).0;
              id in u && PrefixEnd(slots[id]) <= PrefixEnd(u[id]) && slots[id].totalLen == u[id].totalLen
              && (forall k :: k in slots[id].frames ==> k in u[id].frames && u[id].frames[k] == slots[id].frames[k])
  {
    if 0 < totalLen {
      EmptySlotOk(totalLen);
      var s := if id in slots then slots[id] else EmptySlot(totalLen);
      if s.totalLen == totalLen && seqNo !in s.frames && s.receivedBytes + |payload| <= totalLen {
        StoreOk(s, seqNo, payload);
      }
    }
  }

  lemma {:induction false} AssembledAll(frames: Store, n: nat)
    requires Bounded(frames, n)
    ensures Assembled(frames) == Stored(frames, n)
  {
    if frames == map[] { StoredNothing(n); } else { StoredBeyond(frames, Highest(frames) + 1, n); }
  }

  lemma {:induction false} GapsExact(frames: Store, lo: nat, hi: nat, k: nat)
    ensures k in Gaps(frames, lo, hi) <==> lo <= k < hi && k !in frames
    decreases hi - lo
  {
    if lo < hi { GapsExact(frames, lo + 1, hi, k); }
  }

  // ---------------------------------------------------------------------------------------------
  // Slots filled from one sender's pieces

  ghost predicate Agrees(frames: Store, pieces: seq<Bytes>)
  {
    forall k :: k in frames ==> k < |pieces| && frames[k] == pieces[k]
  }

  /** A subset of the pieces weighs no more than all of them, and as much only if it is all of them. */
  lemma {:induction false} StoredAgainst(frames: Store, pieces: seq<Bytes>, n: nat)
    requires Agrees(frames, pieces) && n <= |pieces|
    requires forall i :: 0 <= i < |pieces| ==> pieces[i] != []
    ensures |Stored(frames, n)| <= |Flatten(pieces[..n])|
    ensures |Stored(frames, n)| == |Flatten(pieces[..n])| <==> forall k :: 0 <= k < n ==> k in frames
    ensures (forall k :: 0 <= k < n ==> k in frames) ==> Stored(frames, n) == Flatten(pieces[..n])
  {
    if n > 0 {
      StoredAgainst(frames, pieces, n - 1);
      assert pieces[..n] == pieces[..n - 1] + [pieces[n - 1]];
      FlattenSnoc(pieces[..n - 1], pieces[n - 1]);
    }
  }
}
