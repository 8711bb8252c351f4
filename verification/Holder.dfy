/**
 The copy holder as the object it is (src/reliability/transaction.rs): a table of pending copies that every call
 updates in place. Each method is proved to compute the function of the same name in `Sender`.
 */
module Holder {
  import opened Prelude
  import opened Frames
  import S = Sender
  import F = Framing
  import opened Sender

  // ---------------------------------------------------------------------------------------------
  // Loop steps

  lemma {:induction false} CopiesPush(frames: seq<Option<Frame>>, f: Frame, from: nat)
    requires from <= |frames|
    ensures CopiesFrom(frames + [Some(f)], from) == CopiesFrom(frames, from) + [f]
    decreases |frames| - from
  {
    if from < |frames| {
      CopiesPush(frames, f, from + 1);
    } else {
      assert CopiesFrom(frames + [Some(f)], from + 1) == [];
    }
  }

  lemma {:induction false} HeldNext(frames: seq<Option<Frame>>, i: nat)
    requires i < |frames|
    ensures Held(frames[..i + 1]) == Held(frames[..i]) + HeldBy(frames[i])
  {
    assert frames[..i + 1][..i] == frames[..i];
  }

  /** A hash map is walked in some order: `order` lists its keys, each once. */
  ghost predicate Enumerates(order: seq<Txid>, keys: set<Txid>)
  {
    && (forall i, j :: 0 <= i < j < |order| ==> order[i] != order[j])
    && (forall id :: id in keys <==> id in order)
  }

  ghost function TickedInOrder(cfg: SenderConfig, p: Pending, order: seq<Txid>, now: nat): seq<Frame>
    requires SameShape(p) && forall id :: id in order ==> id in p
  {
    if order == [] then []
    else TickedInOrder(cfg, p, order[..|order| - 1], now) + TickFrames(cfg, p[order[|order| - 1]], now)
  }

  lemma {:induction false} TickedHas(cfg: SenderConfig, p: Pending, order: seq<Txid>, now: nat, f: Frame, i: nat)
    requires SameShape(p) && (forall id :: id in order ==> id in p)
    requires i < |order| && f in TickFrames(cfg, p[order[i]], now)
    ensures f in TickedInOrder(cfg, p, order, now)
  {
    var n := |order| - 1;
    if i < n {
      assert f in TickedInOrder(cfg, p, order[..n], now) by {
        assert order[..n][i] == order[i];
        TickedHas(cfg, p, order[..n], now, f, i);
      }
    }
    InEither(TickedInOrder(cfg, p, order[..n], now), TickFrames(cfg, p[order[n]], now), f);
  }

  lemma {:induction false} InEither(a: seq<Frame>, b: seq<Frame>, f: Frame)
    ensures f in a + b <==> f in a || f in b
  {
  }

  lemma {:induction false} TickedFrom(cfg: SenderConfig, p: Pending, order: seq<Txid>, now: nat, f: Frame)
    requires SameShape(p) && (forall id :: id in order ==> id in p) && f in TickedInOrder(cfg, p, order, now)
    ensures IsDue(cfg, p, now, f)
  {
    var n := |order| - 1;
    if f in TickFrames(cfg, p[order[n]], now) {
      assert order[n] in p;
    } else {
      TickedFrom(cfg, p, order[..n], now, f);
    }
  }

  /** The walk of `due_retransmissions` emits what is due, and nothing else, whatever its order. */
  lemma {:induction false} TickedExactly(cfg: SenderConfig, p: Pending, order: seq<Txid>, now: nat, f: Frame)
    requires SameShape(p) && Enumerates(order, p.Keys)
    ensures f in TickedInOrder(cfg, p, order, now) <==> IsDue(cfg, p, now, f)
  {
    if f in TickedInOrder(cfg, p, order, now) {
      TickedFrom(cfg, p, order, now, f);
    } else if IsDue(cfg, p, now, f) {
      var id :| id in p && f in TickFrames(cfg, p[id], now);
      var i :| 0 <= i < |order| && order[i] == id;
      TickedHas(cfg, p, order, now, f, i);
    }
  }

  class TransactionSender {
    const config: SenderConfig
    var pending: Pending

    ghost predicate Valid()
      reads this
    {
      0 < config.frameSize && SameShape(pending)
    }

    constructor (cfg: SenderConfig)
      ensures Valid() && pending == map[] && config == cfg.(frameSize := Max(cfg.frameSize, 1))
    {
      config := cfg.(frameSize := Max(cfg.frameSize, 1));
      pending := map[];
    }

    method UnackedBytes() returns (n: nat)
      ensures n == Total(pending)
    {
      n := 0;
      var rest := pending;
      while rest != map[]
        invariant n + Total(rest) == Total(pending)
        decreases |rest|
      {
        var id :| id in rest;
        TotalPut(rest, id, rest[id]);
        n := n + rest[id].bytes;
        rest := rest - {id};
      }
      assert BytesOf(rest) == map[];
    }

    method OpenTransaction(id: Txid, totalLen: nat, now: nat) returns (r: Result<(), BeginError>)
      requires Valid()
      modifies this
      ensures Valid() && (pending, r) == S.Open(old(pending), id, totalLen, now)
    {
      if id in pending { return Err(DuplicateTransaction); }
      if totalLen == 0 { return Err(EmptyPayload); }
      pending := pending[id := Opened(totalLen, now)];
      r := Ok(());
    }

    /** Frame off full working frames; `out` collects copies of them. */
    method CutFrames(start: PendingTxn, id: Txid, now: nat) returns (t: PendingTxn, out: seq<Frame>)
      requires 0 < config.frameSize && |start.frames| == |start.states|
      ensures t == Cut(start, id, config.frameSize, now) && out == CopiesFrom(t.frames, |start.frames|)
      ensures |t.frames| == |t.states|
    {
      t, out := start, [];
      while |t.partial| >= config.frameSize
        invariant Cut(t, id, config.frameSize, now) == Cut(start, id, config.frameSize, now)
        invariant |start.frames| <= |t.frames| == |t.states| && out == CopiesFrom(t.frames, |start.frames|)
        decreases |t.partial|
      {
        var f := Frame(DataBinary, id, t.totalLen, |t.frames|, t.partial[..config.frameSize]);
        CopiesPush(t.frames, f, |start.frames|);
        t := t.(frames := t.frames + [Some(f)],
                states := t.states + [FrameState(false, now, 0)],
                partial := t.partial[config.frameSize..]);
        out := out + [f];
      }
    }

    method AppendChunk(id: Txid, chunk: Bytes, now: nat) returns (r: Result<seq<Frame>, BeginError>)
      requires Valid()
      modifies this
      ensures Valid() && (pending, r) == S.Append(config, old(pending), id, chunk, now)
    {
      var unacked := UnackedBytes();
      if id !in pending { return Err(UnknownTransaction); }
      var t := pending[id];
      if unacked + |chunk| > config.capBytes { return Err(Backpressured(unacked, |chunk|, config.capBytes)); }
      if t.written + |chunk| > t.totalLen { return Err(S.TotalLenExceeded(t.totalLen)); }
      t := t.(partial := t.partial + chunk, written := t.written + |chunk|, bytes := t.bytes + |chunk|);
      var u, out := CutFrames(t, id, now);
      pending := pending[id := u];
      r := Ok(out);
    }

    method FinishTransaction(id: Txid, now: nat) returns (r: Result<seq<Frame>, BeginError>)
      requires Valid()
      modifies this
      ensures Valid() && (pending, r) == S.Finish(old(pending), id, now)
    {
      if id !in pending { return Err(UnknownTransaction); }
      var t := pending[id];
      ghost var n := |t.frames|;
      var out := [];
      assert CopiesFrom(t.frames, n) == [];
      if t.partial != [] {
        var f := Frame(DataBinary, id, t.totalLen, |t.frames|, t.partial);
        CopiesPush(t.frames, f, n);
        assert t.partial[..|t.partial|] == t.partial;
        t := t.(frames := t.frames + [Some(f)], states := t.states + [FrameState(false, now, 0)], partial := []);
        out := [f];
        assert t == Flushed(pending[id], id, now) && CopiesFrom(t.frames, n) == out;
      }
      pending := pending[id := t];
      if t.written != t.totalLen { return Err(IncompletePayload(t.written, t.totalLen)); }
      r := Ok(out);
    }

    method SetPaused(id: Txid, paused: bool, now: nat) returns (active: bool)
      requires Valid()
      modifies this
      ensures Valid() && (pending, active) == S.SetPaused(old(pending), id, paused, now)
    {
      if id !in pending { return false; }
      var t := pending[id];
      var states := t.states;
      if !paused {
        var i := 0;
        while i < |states|
          invariant 0 <= i <= |states| == |t.states|
          invariant forall k :: 0 <= k < |states| ==>
                      states[k] == if k < i then Rearmed(t.states[k], now) else t.states[k]
        {
          if !states[i].confirmed { states := states[i := states[i].(lastSentMs := now)]; }
          i := i + 1;
        }
      }
      assert !paused ==> states == S.Paused(t, paused, now).states;
      pending := pending[id := t.(paused := paused, states := states)];
      active := true;
    }

    method AbortTransaction(id: Txid) returns (existed: bool)
      requires Valid()
      modifies this
      ensures Valid() && (pending, existed) == S.Abort(old(pending), id)
    {
      existed := id in pending;
      pending := pending - {id};
    }

    /** Confirm the first `n` frames and drop their copies, one by one. */
    method Confirm(t: PendingTxn, n: nat) returns (states: seq<FrameState>)
      requires n <= |t.states|
      ensures states == Confirmed(t.states, n)
    {
      states := t.states;
      var i := 0;
      while i < n
        invariant 0 <= i <= n && states == Confirmed(t.states, i)
      {
        states := states[i := states[i].(confirmed := true)];
        i := i + 1;
      }
    }

    method Release(t: PendingTxn, n: nat) returns (states: seq<FrameState>, frames: seq<Option<Frame>>, bytes: nat)
      requires n <= |t.states| == |t.frames|
      ensures states == Confirmed(t.states, n) && frames == Released(t.frames, n)
      ensures bytes == SatSub(t.bytes, Held(t.frames[..n]))
    {
      states := Confirm(t, n);
      frames, bytes := t.frames, t.bytes;
      var i := 0;
      while i < n
        invariant 0 <= i <= n && frames == Released(t.frames, i)
        invariant bytes == SatSub(t.bytes, Held(t.frames[..i]))
      {
        HeldNext(t.frames, i);
        if frames[i].Some? {
          bytes := SatSub(bytes, |frames[i].value.payload|);
          frames := frames[i := None];
        }
        i := i + 1;
      }
    }

    method HandleAck(e: AckEntry, now: nat) returns (done: bool)
      requires Valid()
      modifies this
      ensures Valid() && (pending, done) == S.HandleAck(old(pending), e, now)
    {
      if e.transactionId !in pending { return false; }
      var t := pending[e.transactionId];
      var merged := if t.ackedContiguous.Some? then Max(t.ackedContiguous.value, e.highestContiguousSeq)
          else e.highestContiguousSeq;
      var clamped := Min(merged, SatSub(|t.frames|, 1));
      var states, frames, bytes := Release(t, Min(clamped + 1, |t.states|));
      t := t.(ackedContiguous := Some(clamped), ackedReceived := Max(t.ackedReceived, e.receivedFrames),
              lastProgressMs := now, states := states, frames := frames, bytes := bytes);
      if IsFullyAcked(t) {
        pending := pending - {e.transactionId};
        return true;
      }
      pending := pending[e.transactionId := t];
      done := false;
    }

    /** The listed frames that are unconfirmed, with their clocks restarted. */
    method Answer(t: PendingTxn, missing: seq<nat>, now: nat) returns (states: seq<FrameState>, out: seq<Frame>)
      requires |t.frames| == |t.states|
      ensures states == NackedStates(t, missing, now) && out == NackedFrames(t, missing)
    {
      states, out := t.states, [];
      var i := 0;
      while i < |missing|
        invariant 0 <= i <= |missing| && |states| == |t.states| && out == NackedFrames(t, missing[..i])
        invariant forall k :: 0 <= k < |states| ==>
          states[k] == if k in missing[..i] && !t.states[k].confirmed then t.states[k].(lastSentMs := now)
                       else t.states[k]
      {
        var k := missing[i];
        assert missing[..i + 1][..i] == missing[..i] && missing[..i + 1] == missing[..i] + [k];
        if k < |states| && !states[k].confirmed {
          states := states[k := states[k].(lastSentMs := now)];
          if t.frames[k].Some? { out := out + [t.frames[k].value]; }
        }
        i := i + 1;
      }
      assert missing[..i] == missing;
    }

    method HandleNack(id: Txid, missing: seq<nat>, now: nat) returns (out: seq<Frame>)
      requires Valid()
      modifies this
      ensures Valid() && (pending, out) == S.HandleNack(old(pending), id, missing, now)
    {
      out := [];
      if id !in pending { return; }
      var t := pending[id];
      if t.paused {
        pending := pending[id := t.(lastProgressMs := now)];
        return;
      }
      var states;
      states, out := Answer(t, missing, now);
      pending := pending[id := t.(lastProgressMs := now, states := states)];
    }

    /** Resend every frame the rule picks: its clock restarts and its backoff advances. */
    method Resend(rule: Rule, t: PendingTxn, now: nat) returns (states: seq<FrameState>, out: seq<Frame>)
      requires |t.frames| == |t.states|
      ensures states == ResentStates(rule, t.states, now) && out == ResentFrames(rule, t, |t.frames|)
    {
      states, out := t.states, [];
      var i := 0;
      while i < |t.states|
        invariant 0 <= i <= |t.states| == |states| && out == ResentFrames(rule, t, i)
        invariant forall k :: 0 <= k < |states| ==>
                    states[k] == if k < i then Bumped(rule, t.states[k], now) else t.states[k]
      {
        if Picks(rule, states[i]) {
          states := states[i := states[i].(lastSentMs := now, attempts := states[i].attempts + 1)];
          if t.frames[i].Some? { out := out + [t.frames[i].value]; }
        }
        i := i + 1;
      }
    }

    /** The pending ids, in the order of the hash map. */
    method Ids() returns (order: seq<Txid>)
      ensures Enumerates(order, pending.Keys)
    {
      order := [];
      var rest := pending.Keys;
      while rest != {}
        invariant rest <= pending.Keys && Enumerates(order, pending.Keys - rest)
        decreases |rest|
      {
        var id :| id in rest;
        order := order + [id];
        rest := rest - {id};
      }
    }

    /** The clock for one transaction; a paused or gated one is skipped. */
    method TickOne(id: Txid, now: nat) returns (out: seq<Frame>)
      requires Valid() && id in pending
      modifies this
      ensures Valid() && pending == old(pending)[id := Ticked(config, old(pending)[id], now)]
      ensures out == TickFrames(config, old(pending)[id], now)
    {
      var t := pending[id];
      if t.paused || t.awaitingResume {
        assert pending[id := t] == pending;
        return [];
      }
      var states;
      states, out := Resend(Due(config, now), t, now);
      pending := pending[id := t.(states := states)];
    }

    method DueRetransmissions(now: nat) returns (out: seq<Frame>, ghost order: seq<Txid>)
      requires Valid()
      modifies this
      ensures Valid() && pending == S.DueRetransmissions(config, old(pending), now)
      ensures Enumerates(order, old(pending).Keys) && out == TickedInOrder(config, old(pending), order, now)
    {
      var ids := Ids();
      order, out := ids, [];
      ghost var p := pending;
      var i := 0;
      while i < |ids|
        invariant 0 <= i <= |ids| && Valid() && Walked(p, pending, ids, i, Tick(config, now))
        invariant out == TickedInOrder(config, p, ids[..i], now)
      {
        TickedNext(config, p, ids, i, now);
        WalkedNext(p, pending, ids, i, Tick(config, now));
        var frames := TickOne(ids[i], now);
        out := out + frames;
        i := i + 1;
      }
      assert ids[..i] == ids;
    }

    method DeclarePending(now: nat) returns (entries: seq<AckEntry>)
      requires Valid()
      modifies this
      ensures Valid() && pending == S.DeclarePending(old(pending), now)
      ensures Lists(old(pending), old(pending).Keys, entries)
    {
      var ids := Ids();
      entries := [];
      ghost var p := pending;
      var i := 0;
      while i < |ids|
        invariant 0 <= i <= |ids| && Walked(p, pending, ids, i, Gate(now)) && entries == EntriesOf(p, ids[..i])
      {
        var t := pending[ids[i]];
        WalkedNext(p, pending, ids, i, Gate(now));
        pending := pending[ids[i] := t.(awaitingResume := true, declaredMs := Some(now))];
        entries := entries + [AckEntry(ids[i], SatSub(|t.frames|, 1), |t.frames|)];
        i := i + 1;
      }
      assert ids[..i] == ids;
      EnumeratedLists(p, p.Keys, ids);
    }

    /** Re-anchors and declares one transaction if it has timed out. */
    method RearmOne(id: Txid, now: nat, timeout: nat) returns (out: seq<AckEntry>)
      requires Valid() && id in pending
      modifies this
      ensures pending == old(pending)[id := Changed(Rearm(now, timeout), old(pending)[id])]
      ensures out == if TimedOut(old(pending)[id], now, timeout) then [EntryFor(id, old(pending)[id])] else []
    {
      var t := pending[id];
      out := [];
      if t.awaitingResume && t.declaredMs.Some? && !(SatSub(now, t.declaredMs.value) < timeout) {
        pending := pending[id := t.(declaredMs := Some(now))];
        out := [AckEntry(id, SatSub(|t.frames|, 1), |t.frames|)];
      } else {
        assert pending[id := t] == pending;
      }
    }

    method TimedOutDeclarations(now: nat, timeout: nat) returns (entries: seq<AckEntry>)
      requires Valid()
      modifies this
      ensures Valid() && pending == S.Redeclare(old(pending), now, timeout)
      ensures Lists(old(pending), Late(old(pending), now, timeout), entries)
    {
      var ids := Ids();
      entries := [];
      ghost var p := pending;
      DeclaredNone(p, ids, now, timeout);
      var i := 0;
      while i < |ids|
        invariant 0 <= i <= |ids| && Valid() && Walked(p, pending, ids, i, Rearm(now, timeout))
        invariant Declared(p, ids[..i], entries, now, timeout)
      {
        WalkedNext(p, pending, ids, i, Rearm(now, timeout));
        DeclaredNext(p, ids, i, entries, now, timeout);
        var more := RearmOne(ids[i], now, timeout);
        entries := entries + more;
        i := i + 1;
      }
      assert ids[..i] == ids;
      DeclaredLists(p, ids, entries, now, timeout);
    }

    /** The length is cast to u32 when the transaction is opened. */
    method BeginTransaction(id: Txid, payload: Bytes, now: nat) returns (r: Result<seq<Frame>, BeginError>)
      requires Valid()
      modifies this
      ensures Valid() && (pending, r) == F.Begin(config, old(pending), id, payload, now)
    {
      var unacked := UnackedBytes();
      if unacked + |payload| > config.capBytes { return Err(Backpressured(unacked, |payload|, config.capBytes)); }
      ghost var p := pending;
      var begun := OpenTransaction(id, |payload| % U32_LIMIT, now);
      if begun.Err? { return Err(begun.error); }
      ghost var p1 := pending;
      var frames := AppendChunk(id, payload, now);
      OneWrite(config, p1, id, payload, now);
      if frames.Err? { return frames; }
      var tail := FinishTransaction(id, now);
      if tail.Err? { return tail; }
      r := Ok(frames.value + tail.value);
    }

    method ApplyResumeVerdicts(entries: seq<ResumeStatusEntry>, now: nat) returns (out: ResumeVerdicts)
      requires Valid()
      modifies this
      ensures Valid() && (pending, out) == S.ApplyResumeVerdicts(old(pending), entries, now)
    {
      out := ResumeVerdicts([], [], []);
      var i := 0;
      while i < |entries|
        invariant 0 <= i <= |entries| && Valid()
        invariant (pending, out) == S.ApplyResumeVerdicts(old(pending), entries[..i], now)
      {
        assert entries[..i + 1][..i] == entries[..i];
        var id := entries[i].transactionId;
        if id in pending {
          var t := pending[id];
          if entries[i].status == Resumed {
            var u := t.(awaitingResume := false, declaredMs := None, lastProgressMs := now);
            if !t.paused {
              var states, frames := Resend(Unconfirmed, t, now);
              u := u.(states := states);
              out := out.(retransmit := out.retransmit + frames);
            }
            pending := pending[id := u];
          } else {
            pending := pending - {id};
            out := if IsFullySent(t) then out.(confirmed := out.confirmed + [id])
                else out.(failed := out.failed + [id]);
          }
        }
        i := i + 1;
      }
      assert entries[..i] == entries;
    }
  }

  lemma {:induction false} OneWrite(cfg: SenderConfig, p: Pending, id: Txid, chunk: Bytes, now: nat)
    requires 0 < cfg.frameSize
    ensures F.WriteAll(cfg, p, id, [(chunk, now)]) == S.Append(cfg, p, id, chunk, now)
  {
    assert [(chunk, now)][..0] == [];
    var r := S.Append(cfg, p, id, chunk, now).1;
    if r.Ok? { assert [] + r.value == r.value; }
  }

  /** What a walk over the table does to each entry. */
  datatype Change = Tick(cfg: SenderConfig, now: nat) | Gate(now: nat) | Rearm(now: nat, timeout: nat)

  function Changed(c: Change, t: PendingTxn): PendingTxn
  {
    match c
    case Tick(cfg, now) => Ticked(cfg, t, now)
    case Gate(now) => Gated(t, now)
    case Rearm(now, timeout) => if TimedOut(t, now, timeout) then t.(declaredMs := Some(now)) else t
  }

  /** A walk that has changed the first `i` entries. */
  ghost predicate Walked(p: Pending, q: Pending, ids: seq<Txid>, i: nat, c: Change)
  {
    && Enumerates(ids, p.Keys) && i <= |ids| && q.Keys == p.Keys
    && (forall id :: id in p ==> q[id] == if id in ids[..i] then Changed(c, p[id]) else p[id])
  }

  lemma {:induction false} WalkedNext(p: Pending, q: Pending, ids: seq<Txid>, i: nat, c: Change)
    requires Walked(p, q, ids, i, c) && i < |ids|
    ensures ids[i] in p && q[ids[i]] == p[ids[i]]
    ensures Walked(p, q[ids[i] := Changed(c, p[ids[i]])], ids, i + 1, c)
    ensures Changed(c, p[ids[i]]) == p[ids[i]] ==> Walked(p, q, ids, i + 1, c)
  {
    assert ids[..i + 1] == ids[..i] + [ids[i]];
    assert ids[i] in ids && ids[i] !in ids[..i];
  }

  lemma {:induction false} TickedNext(cfg: SenderConfig, p: Pending, ids: seq<Txid>, i: nat, now: nat)
    requires SameShape(p) && (forall id :: id in ids ==> id in p) && i < |ids|
    ensures TickedInOrder(cfg, p, ids[..i + 1], now)
            == TickedInOrder(cfg, p, ids[..i], now) + TickFrames(cfg, p[ids[i]], now)
  {
    assert ids[..i + 1][..i] == ids[..i];
  }

  /** `late` lists the timed-out ids among `ids`, each once. */
  ghost predicate LateAmong(p: Pending, ids: seq<Txid>, late: seq<Txid>, now: nat, timeout: nat)
  {
    && (forall i, j :: 0 <= i < j < |late| ==> late[i] != late[j])
    && (forall id :: id in late <==> id in ids && id in p && TimedOut(p[id], now, timeout))
  }

  lemma {:induction false} LateNext(p: Pending, ids: seq<Txid>, i: nat, late: seq<Txid>, now: nat, timeout: nat)
    requires Enumerates(ids, p.Keys) && i < |ids| && LateAmong(p, ids[..i], late, now, timeout)
    ensures ids[i] in p
    ensures var more := if TimedOut(p[ids[i]], now, timeout) then late + [ids[i]] else late;
            LateAmong(p, ids[..i + 1], more, now, timeout)
    ensures EntriesOf(p, late + [ids[i]]) == EntriesOf(p, late) + [EntryFor(ids[i], p[ids[i]])]
  {
    assert ids[..i + 1] == ids[..i] + [ids[i]];
    assert ids[i] in ids && ids[i] !in ids[..i];
  }

  ghost function EntriesOf(p: Pending, order: seq<Txid>): seq<AckEntry>
    requires forall id :: id in order ==> id in p
  {
    seq(|order|, i requires 0 <= i < |order| => EntryFor(order[i], p[order[i]]))
  }

  /** `entries` declares the timed-out ids among `ids`, each once. */
  ghost predicate Declared(p: Pending, ids: seq<Txid>, entries: seq<AckEntry>, now: nat, timeout: nat)
  {
    exists late :: LateAmong(p, ids, late, now, timeout) && entries == EntriesOf(p, late)
  }

  lemma {:induction false} DeclaredNone(p: Pending, ids: seq<Txid>, now: nat, timeout: nat)
    ensures Declared(p, ids[..0], [], now, timeout)
  {
    assert LateAmong(p, ids[..0], [], now, timeout) && EntriesOf(p, []) == [];
  }

  lemma {:induction false} DeclaredNext(p: Pending, ids: seq<Txid>, i: nat, entries: seq<AckEntry>, now: nat,
          timeout: nat)
    requires Enumerates(ids, p.Keys) && i < |ids| && Declared(p, ids[..i], entries, now, timeout)
    ensures ids[i] in p
    ensures var more := if TimedOut(p[ids[i]], now, timeout) then [EntryFor(ids[i], p[ids[i]])] else [];
            Declared(p, ids[..i + 1], entries + more, now, timeout)
  {
    var late :| LateAmong(p, ids[..i], late, now, timeout) && entries == EntriesOf(p, late);
    LateNext(p, ids, i, late, now, timeout);
    assert entries + [] == entries;
  }

  lemma {:induction false} DeclaredLists(p: Pending, ids: seq<Txid>, entries: seq<AckEntry>, now: nat, timeout: nat)
    requires Enumerates(ids, p.Keys) && Declared(p, ids, entries, now, timeout)
    ensures Lists(p, Late(p, now, timeout), entries)
  {
    var late :| LateAmong(p, ids, late, now, timeout) && entries == EntriesOf(p, late);
    EnumeratedLists(p, Late(p, now, timeout), late);
  }

  lemma {:induction false} EnumeratedLists(p: Pending, ids: set<Txid>, order: seq<Txid>)
    requires ids <= p.Keys && Enumerates(order, ids)
    ensures Lists(p, ids, EntriesOf(p, order))
  {
    var entries := EntriesOf(p, order);
    forall id | id in ids ensures exists i :: 0 <= i < |entries| && entries[i].transactionId == id {
      var i :| 0 <= i < |order| && order[i] == id;
      assert entries[i].transactionId == id;
    }
  }
}
