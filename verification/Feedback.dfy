/** The receiver's gap report on the wire (src/reliability/reassemble.rs:295-334, src/transfer/clock.rs:166-196). */
module Feedback {
  import opened Prelude
  import opened Reassembly
  import opened Control
  import opened NackCodec

  const MAX_NACK_MISSING_ENTRIES: nat := (CONTROL_PAYLOAD_CAP - 19) / 4

  /** The bound on a gap list is tight: a one-entry NACK encodes exactly up to it. */
  lemma {:induction false} SingleNackExactly(id: Txid, ks: seq<nat>)
    requires FitsNack(NackEntry(id, ks))
    ensures EncodeNack([NackEntry(id, ks)]).Ok? <==> |ks| <= MAX_NACK_MISSING_ENTRIES
  {
    var e := NackEntry(id, ks);
    NackRoundTrip([e]);
    assert [e][..0] == [];
    assert Body([e]) == EntryBytes(e);
    SeqsRoundTrip(ks);
  }

  /**
   What one feedback tick reports survives the wire: the truncated gap list of any slot encodes, and decodes to
   positions that are all missing, above the prefix and below the highest stored frame.
   */
  lemma {:induction false} GapReportArrives(slots: Slots, id: Txid)
    requires |id| == TXID_LEN && id in slots && forall k :: k in slots[id].frames ==> k < U32_LIMIT
    ensures var r := EncodeNack([NackEntry(id, MissingSeqs(slots, id, MAX_NACK_MISSING_ENTRIES))]);
            && r.Ok? && DecodeNack(r.value).Ok? && |DecodeNack(r.value).value| == 1
            && var ks := DecodeNack(r.value).value[0].missingSeqs;
               forall k :: k in ks ==> k !in slots[id].frames && PrefixEnd(slots[id]) <= k < U32_LIMIT
                                       && exists h :: h in slots[id].frames && k < h
  {
    var ks := MissingSeqs(slots, id, MAX_NACK_MISSING_ENTRIES);
    var s := slots[id];
    forall k | k in ks
      ensures k !in s.frames && PrefixEnd(s) <= k < U32_LIMIT && exists h :: h in s.frames && k < h
    {
      assert k in AllGaps(s);
      GapsExact(s.frames, PrefixEnd(s), Highest(s.frames), k);
      assert Highest(s.frames) in s.frames;
    }
    forall i | 0 <= i < |ks| ensures ks[i] < U32_LIMIT { assert ks[i] in ks; }
    SingleNackExactly(id, ks);
    NackRoundTrip([NackEntry(id, ks)]);
  }
}
