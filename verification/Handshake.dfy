/**
 The reconnection handshake, wire bytes included: the holder declares (RESUME), the receiver adjudicates and
 cross-checks (RESUME_RESPONSE), the holder applies the verdicts. What one lossless round leaves in agreement.
 */
module Handshake {
  import opened Prelude
  import opened Frames
  import opened Control
  import opened Sender
  import opened Reassembly
  import opened Inbound

  /** Both ends after a round, and the verdict lists the holder reports. */
  datatype Ends = Ends(pending: Pending, inbox: Inbox, verdicts: ResumeVerdicts)

  const NONE := ResumeVerdicts([], [], [])

  /**
   One round with a declaration `entries` of the already gated `p`. An empty declaration is not sent
   (src/transfer/clock.rs:29-31), and one that does not encode is silently dropped (src/transfer/clock.rs:39-40).
   */
  function Round(p: Pending, ib: Inbox, entries: seq<AckEntry>, now: nat): Ends
    requires SameShape(p)
  {
    if entries == [] || EncodeAckList(entries, 0).Err? then Ends(p, ib, NONE)
    else
      var heard := DecodeAckList(EncodeAckList(entries, 0).value, 0);
      if heard.Err? then Ends(p, ib, NONE)
      else
        var (ib', statuses) := OnResume(ib, heard.value);
        var answer := EncodeResponse(statuses);
        if answer.Err? || DecodeResponse(answer.value).Err? then Ends(p, ib', NONE)
        else
          var (q, v) := ApplyResumeVerdicts(p, DecodeResponse(answer.value).value, now);
          Ends(q, ib', v)
  }

  function Incomplete(slots: Slots): set<Txid> { set id | id in slots && !IsComplete(slots[id]) }

  /** Ids are 16 bytes and frame counts fit u32 — what the Rust types guarantee. */
  ghost predicate Typed(p: Pending) { forall id :: id in p ==> |id| == TXID_LEN && |p[id].frames| < U32_LIMIT }

  /** Both sides agree, nothing is gated, every removal is reported once, complete slots are untouched. */
  ghost predicate Converged(p: Pending, ib: Inbox, e: Ends)
  {
    && e.pending.Keys == Incomplete(e.inbox.slots)
    && (forall id :: id in e.pending ==> !e.pending[id].awaitingResume)
    && Reported(p, e)
    && CompleteUntouched(ib, e.inbox)
  }

  /** Each removed id is reported exactly once, as confirmed if and only if it was fully sent. */
  ghost predicate Reported(p: Pending, e: Ends)
  {
    && (forall id :: id in p && id !in e.pending ==>
          && multiset(e.verdicts.confirmed)[id] == (if IsFullySent(p[id]) then 1 else 0)
          && multiset(e.verdicts.failed)[id] == (if IsFullySent(p[id]) then 0 else 1))
    && (forall id :: !(id in p && id !in e.pending) ==> id !in e.verdicts.confirmed && id !in e.verdicts.failed)
  }

  ghost predicate CompleteUntouched(ib: Inbox, u: Inbox)
  {
    forall id :: id in ib.slots && IsComplete(ib.slots[id]) ==> id in u.slots && u.slots[id] == ib.slots[id]
  }

  // ---------------------------------------------------------------------------------------------
  // Applying verdicts for distinct ids

  ghost predicate Distinct(es: seq<ResumeStatusEntry>)
  {
    forall i, j :: 0 <= i < j < |es| ==> es[i].transactionId != es[j].transactionId
  }

  predicate Answered(es: seq<ResumeStatusEntry>, id: Txid, resumed: bool)
  {
    exists i :: 0 <= i < |es| && es[i].transactionId == id && (es[i].status == Resumed) == resumed
  }

  /** What the verdicts did to one transaction. */
  ghost predicate Outcome(p: Pending, es: seq<ResumeStatusEntry>, id: Txid, q: Pending, v: ResumeVerdicts)
  {
    if id in p && Answered(es, id, false) then
      && id !in q
      && multiset(v.confirmed)[id] == (if IsFullySent(p[id]) then 1 else 0)
      && multiset(v.failed)[id] == (if IsFullySent(p[id]) then 0 else 1)
    else
      && id !in v.confirmed && id !in v.failed
      && (id in q <==> id in p)
      && (id in p ==> IsFullySent(q[id]) == IsFullySent(p[id])
                      && (if Answered(es, id, true) then !q[id].awaitingResume else q[id] == p[id]))
  }

  lemma {:induction false} Outcomes(p: Pending, es: seq<ResumeStatusEntry>, now: nat, id: Txid)
    requires SameShape(p) && Distinct(es)
    ensures var (q, v) := ApplyResumeVerdicts(p, es, now); Outcome(p, es, id, q, v)
  {
    if es != [] {
      var n := |es| - 1;
      var prev := es[..n];
      Outcomes(p, prev, now, id);
      var (q, v) := ApplyResumeVerdicts(p, prev, now);
      OneOutcome(p, es, id, q, v, now);
    }
  }

  lemma {:induction false} AnsweredSnoc(es: seq<ResumeStatusEntry>, id: Txid, b: bool)
    requires es != [] && Distinct(es)
    ensures var n := |es| - 1;
            && (Answered(es, id, b) <==>
                  Answered(es[..n], id, b) || (es[n].transactionId == id && (es[n].status == Resumed) == b))
            && (es[n].transactionId == id ==> !Answered(es[..n], id, b))
  {
  }

  lemma {:induction false} OtherOutcome(p: Pending, es: seq<ResumeStatusEntry>, id: Txid, q: Pending,
          v: ResumeVerdicts, now: nat)
    requires SameShape(q) && es != [] && Distinct(es) && Outcome(p, es[..|es| - 1], id, q, v)
             && es[|es| - 1].transactionId != id
    ensures var (q', v') := ApplyVerdict(q, v, es[|es| - 1], now); Outcome(p, es, id, q', v')
  {
    AnsweredSnoc(es, id, true);
    AnsweredSnoc(es, id, false);
  }

  lemma {:induction false} OneOutcome(p: Pending, es: seq<ResumeStatusEntry>, id: Txid, q: Pending, v: ResumeVerdicts,
          now: nat)
    requires SameShape(q) && es != [] && Distinct(es) && Outcome(p, es[..|es| - 1], id, q, v)
    ensures var (q', v') := ApplyVerdict(q, v, es[|es| - 1], now); Outcome(p, es, id, q', v')
  {
    AnsweredSnoc(es, id, true);
    AnsweredSnoc(es, id, false);
    if es[|es| - 1].transactionId != id { OtherOutcome(p, es, id, q, v, now); }
  }

  // ---------------------------------------------------------------------------------------------
  // A round on the wire

  function IdsOf(entries: seq<AckEntry>): set<Txid> { set e | e in entries :: e.transactionId }

  lemma {:induction false} CountIds(entries: seq<AckEntry>)
    requires forall i, j :: 0 <= i < j < |entries| ==> entries[i].transactionId != entries[j].transactionId
    ensures |IdsOf(entries)| == |entries|
  {
    if entries != [] {
      var n := |entries| - 1;
      CountIds(entries[..n]);
      assert entries == entries[..n] + [entries[n]];
      assert IdsOf(entries) == IdsOf(entries[..n]) + {entries[n].transactionId};
    }
  }

  lemma {:induction false} ListsIds(p: Pending, ids: set<Txid>, entries: seq<AckEntry>)
    requires ids <= p.Keys && Lists(p, ids, entries)
    ensures IdsOf(entries) == ids && |entries| == |ids|
    ensures forall id :: Declared(entries, id) <==> id in ids
    ensures Typed(p) ==> forall i :: 0 <= i < |entries| ==> FitsAck(entries[i])
  {
    CountIds(entries);
    forall id | id in ids ensures id in IdsOf(entries) && Declared(entries, id) {
      var i :| 0 <= i < |entries| && entries[i].transactionId == id;
      assert entries[i] in entries;
    }
  }

  /** Codecs out of the way: a list that fits reaches the receiver, and its answer comes back. */
  lemma {:induction false} RoundDirect(p: Pending, ib: Inbox, entries: seq<AckEntry>, now: nat)
    requires SameShape(p) && 0 < |entries| <= 255 && forall i :: 0 <= i < |entries| ==> FitsAck(entries[i])
    ensures Round(p, ib, entries, now) ==
            var (q, v) := ApplyResumeVerdicts(p, Verdicts(ib.slots, entries), now);
            Ends(q, CancelAll(ib, Abandoned(ib.slots, entries)), v)
  {
    AckPayloadRoundTrip(entries, 0);
    ResponseRoundTrip(Verdicts(ib.slots, entries));
  }

  /** Up to 255 declared ids survive both trips: the round is adjudication, cross-check and verdicts. */
  lemma {:induction false} RoundOnWire(p: Pending, ib: Inbox, ids: set<Txid>, entries: seq<AckEntry>, now: nat)
    requires SameShape(p) && Typed(p) && ids <= p.Keys && Lists(p, ids, entries)
    ensures Round(p, ib, entries, now) ==
            if ids == {} || |ids| > 255 then Ends(p, ib, NONE)
            else
              var (q, v) := ApplyResumeVerdicts(p, Verdicts(ib.slots, entries), now);
              Ends(q, CancelAll(ib, Abandoned(ib.slots, entries)), v)
  {
    ListsIds(p, ids, entries);
    if 0 < |entries| <= 255 { RoundDirect(p, ib, entries, now); }
  }

  lemma {:induction false} VerdictsDistinct(p: Pending, slots: Slots, ids: set<Txid>, entries: seq<AckEntry>, id: Txid)
    requires ids <= p.Keys && Lists(p, ids, entries)
    ensures Distinct(Verdicts(slots, entries))
    ensures Answered(Verdicts(slots, entries), id, true) <==> id in ids && id in Incomplete(slots)
    ensures Answered(Verdicts(slots, entries), id, false) <==> id in ids && id !in Incomplete(slots)
  {
    var vs := Verdicts(slots, entries);
    if id in ids {
      var i :| 0 <= i < |entries| && entries[i].transactionId == id;
      assert vs[i].transactionId == id && vs[i].status == Verdict(slots, id);
    }
  }

  /** The holder's side of a round. */
  ghost predicate HolderEffect(p: Pending, slots: Slots, ids: set<Txid>, e: Ends)
  {
    && e.pending.Keys == (p.Keys - ids) + (ids * Incomplete(slots))
    && (forall id :: id in e.pending && id in ids ==> !e.pending[id].awaitingResume)
    && Reported(p, e)
  }

  /** The receiver's side of a round. */
  ghost predicate ReceiverEffect(ib: Inbox, ids: set<Txid>, u: Inbox)
  {
    Incomplete(u.slots) == Incomplete(ib.slots) * ids && CompleteUntouched(ib, u)
  }

  lemma {:induction false} VerdictsEffect(p: Pending, slots: Slots, ids: set<Txid>, entries: seq<AckEntry>, now: nat,
          u: Inbox)
    requires SameShape(p) && ids <= p.Keys && Lists(p, ids, entries)
    ensures var (q, v) := ApplyResumeVerdicts(p, Verdicts(slots, entries), now);
            HolderEffect(p, slots, ids, Ends(q, u, v))
  {
    var vs := Verdicts(slots, entries);
    var (q, v) := ApplyResumeVerdicts(p, vs, now);
    forall id
      ensures if id in ids && id !in Incomplete(slots) then
                && id !in q
                && multiset(v.confirmed)[id] == (if IsFullySent(p[id]) then 1 else 0)
                && multiset(v.failed)[id] == (if IsFullySent(p[id]) then 0 else 1)
              else
                && id !in v.confirmed && id !in v.failed && (id in q <==> id in p)
                && (id in p && id in ids ==> !q[id].awaitingResume)
    {
      VerdictsDistinct(p, slots, ids, entries, id);
      Outcomes(p, vs, now, id);
    }
  }

  lemma {:induction false} CancelEffect(p: Pending, ib: Inbox, ids: set<Txid>, entries: seq<AckEntry>)
    requires ids <= p.Keys && Lists(p, ids, entries)
    ensures ReceiverEffect(ib, ids, CancelAll(ib, Abandoned(ib.slots, entries)))
  {
    ListsIds(p, ids, entries);
    assert Abandoned(ib.slots, entries) == Incomplete(ib.slots) - ids;
  }

  /** A lossless round of a non-empty declaration of at most 255 ids, transaction by transaction. */
  lemma {:induction false} RoundEffect(p: Pending, ib: Inbox, ids: set<Txid>, entries: seq<AckEntry>, now: nat)
    requires SameShape(p) && Typed(p) && ids <= p.Keys && Lists(p, ids, entries) && 0 < |ids| <= 255
    ensures HolderEffect(p, ib.slots, ids, Round(p, ib, entries, now))
    ensures ReceiverEffect(ib, ids, Round(p, ib, entries, now).inbox)
  {
    RoundOnWire(p, ib, ids, entries, now);
    VerdictsEffect(p, ib.slots, ids, entries, now, CancelAll(ib, Abandoned(ib.slots, entries)));
    CancelEffect(p, ib, ids, entries);
  }

  lemma {:induction false} ListsGated(p: Pending, entries: seq<AckEntry>, now: nat)
    requires Lists(p, p.Keys, entries)
    ensures DeclarePending(p, now).Keys == p.Keys && Lists(DeclarePending(p, now), p.Keys, entries)
  {
  }

  /**
   Handshake convergence, exactly: a lossless `declare_pending` / adjudicate / `apply_resume_verdicts` round
   leaves both ends agreed if and only if the declaration fits one payload and is sent at all whenever the
   receiver has something to cross-check.
   */
  lemma {:induction false} DeclarationConverges(p: Pending, ib: Inbox, entries: seq<AckEntry>, now: nat)
    requires SameShape(p) && Typed(p) && Lists(p, p.Keys, entries)
    ensures Converged(DeclarePending(p, now), ib, Round(DeclarePending(p, now), ib, entries, now))
            <==> |p| <= 255 && (p != map[] || Incomplete(ib.slots) == {})
  {
    var g := DeclarePending(p, now);
    ListsGated(p, entries, now);
    assert |p| == |p.Keys| == |g.Keys|;
    if p != map[] && |p| <= 255 {
      assert g.Keys != {};
      RoundEffect(g, ib, g.Keys, entries, now);
      AllDeclared(g, ib, Round(g, ib, entries, now));
    } else {
      RoundOnWire(g, ib, g.Keys, entries, now);
      NotSent(g, ib);
    }
  }

  lemma {:induction false} AllDeclared(p: Pending, ib: Inbox, e: Ends)
    requires HolderEffect(p, ib.slots, p.Keys, e) && ReceiverEffect(ib, p.Keys, e.inbox)
    ensures Converged(p, ib, e)
  {
    assert p.Keys - p.Keys == {};
  }

  lemma {:induction false} NotSent(g: Pending, ib: Inbox)
    requires forall id :: id in g ==> g[id].awaitingResume
    ensures Converged(g, ib, Ends(g, ib, NONE)) <==> g == map[] && Incomplete(ib.slots) == {}
  {
    if g != map[] { var id :| id in g; assert g[id].awaitingResume; }
  }

  lemma {:induction false} RedeclaredLists(p: Pending, entries: seq<AckEntry>, now: nat, timeout: nat)
    requires SameShape(p) && Typed(p) && Lists(p, Late(p, now, timeout), entries)
    ensures var q := Redeclare(p, now, timeout);
            q.Keys == p.Keys && SameShape(q) && Typed(q) && Lists(q, Late(p, now, timeout), entries)
  {
  }

  /** Disjoint leftovers: the two ends agree exactly when nothing was left undeclared. */
  lemma {:induction false} LeftoversAgree(keys: set<Txid>, ids: set<Txid>, open: set<Txid>)
    requires ids <= keys
    ensures (keys - ids) + (ids * open) == open * ids <==> ids == keys
  {
    if ids == keys {
      assert keys - ids == {};
    } else {
      var id :| id in keys && id !in ids;
      assert id in (keys - ids) + (ids * open) && id !in open * ids;
    }
  }

  /** A partial declaration that is sent. */
  lemma {:induction false} PartialRound(q: Pending, ib: Inbox, ids: set<Txid>, entries: seq<AckEntry>, now: nat)
    requires SameShape(q) && Typed(q) && ids <= q.Keys && Lists(q, ids, entries) && 0 < |ids| <= 255
    ensures var e := Round(q, ib, entries, now); e.pending.Keys == Incomplete(e.inbox.slots) <==> ids == q.Keys
  {
    RoundEffect(q, ib, ids, entries, now);
    EffectAgrees(q, ib, ids, Round(q, ib, entries, now));
  }

  lemma {:induction false} EffectAgrees(q: Pending, ib: Inbox, ids: set<Txid>, e: Ends)
    requires ids <= q.Keys && HolderEffect(q, ib.slots, ids, e) && ReceiverEffect(ib, ids, e.inbox)
    ensures e.pending.Keys == Incomplete(e.inbox.slots) <==> ids == q.Keys
  {
    LeftoversAgree(q.Keys, ids, Incomplete(ib.slots));
  }

  /**
   Re-declaring only the timed-out transactions makes the receiver drop the others: after such a round the
   two ends agree if and only if every pending transaction was re-declared. A list that is empty or too long is
   not sent, so the ends agree only if they did before.
   */
  lemma {:induction false} RedeclarationConverges(p: Pending, ib: Inbox, entries: seq<AckEntry>, now: nat, timeout: nat)
    requires SameShape(p) && Typed(p) && Lists(p, Late(p, now, timeout), entries)
    ensures var q := Redeclare(p, now, timeout);
            SameShape(q) &&
            var e := Round(q, ib, entries, now);
            e.pending.Keys == Incomplete(e.inbox.slots)
            <==> if 0 < |Late(p, now, timeout)| <= 255 then Late(p, now, timeout) == p.Keys
                 else p.Keys == Incomplete(ib.slots)
  {
    var ids, q := Late(p, now, timeout), Redeclare(p, now, timeout);
    RedeclaredLists(p, entries, now, timeout);
    if 0 < |ids| <= 255 { PartialRound(q, ib, ids, entries, now); } else { RoundOnWire(q, ib, ids, entries, now); }
  }

  /** The finding behind it: a live, gated transaction not yet timed out loses its slot to another one's retry. */
  lemma {:induction false} RedeclarationDropsLive(p: Pending, ib: Inbox, entries: seq<AckEntry>, now: nat,
          timeout: nat, id: Txid)
    requires SameShape(p) && Typed(p) && 0 < |Late(p, now, timeout)| <= 255 && Lists(p, Late(p, now, timeout), entries)
    requires id in p && !TimedOut(p[id], now, timeout) && id in Incomplete(ib.slots)
    ensures SameShape(Redeclare(p, now, timeout))
    ensures var e := Round(Redeclare(p, now, timeout), ib, entries, now);
            id in e.pending && id !in e.inbox.slots
  {
    var ids := Late(p, now, timeout);
    var q := Redeclare(p, now, timeout);
    assert q.Keys == p.Keys;
    assert Lists(q, ids, entries);
    RoundEffect(q, ib, ids, entries, now);
    RoundOnWire(q, ib, ids, entries, now);
    ListsIds(q, ids, entries);
    assert id in Abandoned(ib.slots, entries);
  }
}
