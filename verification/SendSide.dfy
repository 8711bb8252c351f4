/**
 The send side of a session as an object (src/transfer/core.rs:502-554, src/transfer/inbound.rs:351-377 and 512-558,
 src/transfer/sink.rs:303-334): the copy holder and the table of completion callbacks, proved against `Completions`.
 */
module SendSide {
  import opened Prelude
  import opened Frames
  import opened Sender
  import opened Retention
  import opened SenderRuns
  import opened Holder
  import C = Completions
  import opened Completions
  import opened Framing
  import opened ExactlyOnce

  /** An ACK frame, entry by entry. */
  ghost function AckArrivesAll(cfg: SenderConfig, s: Session, entries: seq<AckEntry>, now: nat): (u: Session)
    requires 0 < cfg.frameSize && Good(s.tx)
    ensures Good(u.tx)
  {
    if entries == [] then s
    else
      var v := AckArrivesAll(cfg, s, entries[..|entries| - 1], now);
      AcknowledgedGood(cfg, v, entries[|entries| - 1], now);
      Acknowledged(cfg, v, entries[|entries| - 1], now)
  }

  function Confirms(fires: seq<nat>): seq<Firing>
  {
    seq(|fires|, i requires 0 <= i < |fires| => Firing(fires[i], true))
  }

  lemma {:induction false} ConfirmsNext(before: seq<Firing>, fires: seq<nat>, callback: Option<nat>)
    ensures before + Confirms(fires) + (if callback.Some? then [Firing(callback.value, true)] else [])
            == before + Confirms(if callback.Some? then fires + [callback.value] else fires)
  {
  }

  lemma {:induction false} AckAllNext(cfg: SenderConfig, s: Session, entries: seq<AckEntry>, i: nat, now: nat)
    requires 0 < cfg.frameSize && Good(s.tx) && i < |entries|
    ensures AckArrivesAll(cfg, s, entries[..i + 1], now)
            == Acknowledged(cfg, AckArrivesAll(cfg, s, entries[..i], now), entries[i], now)
  {
    assert entries[..i + 1][..i] == entries[..i];
  }

  lemma {:induction false} AckChangesPending(cfg: SenderConfig, tx: Tx, e: AckEntry, now: nat)
    requires 0 < cfg.frameSize && Good(tx)
    ensures Step(cfg, tx, Acks(e, now)) == Tx(HandleAck(tx.pending, e, now).0, tx.books)
  {
  }

  /** A failed append changes nothing. */
  lemma {:induction false} AppendKeeps(cfg: SenderConfig, tx: Tx, id: Txid, chunk: Bytes, now: nat)
    requires 0 < cfg.frameSize && Good(tx) && Append(cfg, tx.pending, id, chunk, now).1.Err?
    ensures Step(cfg, tx, Appends(id, chunk, now)) == tx
  {
  }

  /** A payload `send_binary` takes: non-empty, below 2^32 bytes, and within the cap. */
  ghost predicate Accepts(cfg: SenderConfig, p: Pending, payload: Bytes)
  {
    0 < |payload| < U32_LIMIT && Total(p) + |payload| <= cfg.capBytes && Total(p) < cfg.capBytes
  }

  /** The frames of an append and the finish after it. */
  ghost function FillFrames(cfg: SenderConfig, p: Pending, id: Txid, payload: Bytes, now: nat): seq<Frame>
    requires 0 < cfg.frameSize
  {
    var (q, head) := Append(cfg, p, id, payload, now);
    var tail := Finish(q, id, now).1;
    (if head.Ok? then head.value else []) + if tail.Ok? then tail.value else []
  }

  /** A whole-payload stream is an open, an append and a finish. */
  lemma {:induction false} StreamIsFill(cfg: SenderConfig, p: Pending, id: Txid, payload: Bytes, now: nat)
    requires 0 < cfg.frameSize && id !in p && payload != []
    requires Stream(cfg, p, id, |payload|, [(payload, now)], now).1.Ok?
    ensures Stream(cfg, p, id, |payload|, [(payload, now)], now).1.value
            == FillFrames(cfg, p[id := Opened(|payload|, now)], id, payload, now)
  {
    OneWrite(cfg, p[id := Opened(|payload|, now)], id, payload, now);
  }

  /** The frames of a successful send are the split of its payload. */
  lemma {:induction false} SendsSplit(cfg: SenderConfig, tx: Tx, id: Txid, payload: Bytes, now: nat)
    requires 0 < cfg.frameSize && Good(tx) && id !in tx.books && Sends(cfg, tx, id, payload, now).1
    ensures FillFrames(cfg, tx.pending[id := Opened(|payload| % U32_LIMIT, now)], id, payload, now)
            == Numbered(id, |payload|, 0, Split(cfg.frameSize, payload))
  {
    FailedSendResidue(cfg, tx, id, payload, now);
    assert |payload| % U32_LIMIT == |payload|;
    OneChunk(payload, now);
    StreamSplits(cfg, tx.pending, id, payload, [(payload, now)], now);
    StreamIsFill(cfg, tx.pending, id, payload, now);
  }

  /** `books`, `registered`, `fired` and `whole` are history. */
  class SendSession {
    const holder: TransactionSender
    var completions: map<Txid, nat>
    ghost var books: map<Txid, Book>
    ghost var registered: seq<Registration>
    ghost var fired: seq<Firing>
    ghost var whole: set<Txid>

    constructor (cfg: SenderConfig)
      ensures Valid() && Value() == IDLE && fresh(holder)
    {
      holder := new TransactionSender(cfg);
      completions, books, registered, fired, whole := map[], map[], [], [], {};
    }

    ghost function Value(): Session
      reads this, holder
    {
      Session(Tx(holder.pending, books), completions, registered, fired, whole)
    }

    ghost predicate Valid()
      reads this, holder
    {
      0 < holder.config.frameSize && Good(Value().tx)
    }

    /** Take a callback out of the table; firing it is the caller's last act, outside the lock. */
    method TakeCallback(id: Txid, ghost confirmed: bool) returns (callback: Option<nat>)
      modifies this`completions, this`fired
      ensures Value() == Fire(old(Value()), id, confirmed)
      ensures callback == if id in old(completions) then Some(old(completions)[id]) else None
    {
      if id !in completions { return None; }
      callback := Some(completions[id]);
      fired := fired + [Firing(completions[id], confirmed)];
      completions := completions - {id};
    }

    method OnAckEntry(e: AckEntry, now: nat) returns (callback: Option<nat>)
      requires Valid()
      modifies this, holder
      ensures Valid() && Value() == Acknowledged(holder.config, old(Value()), e, now)
      ensures fired == old(fired) + if callback.Some? then [Firing(callback.value, true)] else []
    {
      AcknowledgedGood(holder.config, Value(), e, now);
      AckChangesPending(holder.config, Value().tx, e, now);
      callback := None;
      var done := holder.HandleAck(e, now);
      if done { callback := TakeCallback(e.transactionId, true); }
    }

    /** Every entry of an ACK frame; the callbacks it returns are fired after the lock is released. */
    method OnAck(entries: seq<AckEntry>, now: nat) returns (fires: seq<nat>)
      requires Valid()
      modifies this, holder
      ensures Valid() && Value() == AckArrivesAll(holder.config, old(Value()), entries, now)
      ensures fired == old(fired) + Confirms(fires)
    {
      fires := [];
      ghost var start := Value();
      var i := 0;
      while i < |entries|
        invariant 0 <= i <= |entries| && Valid() && fired == old(fired) + Confirms(fires)
        invariant Value() == AckArrivesAll(holder.config, start, entries[..i], now)
      {
        AckAllNext(holder.config, start, entries, i, now);
        var callback := OnAckEntry(entries[i], now);
        var more := if callback.Some? then fires + [callback.value] else fires;
        ConfirmsNext(old(fired), fires, callback);
        fires := more;
        i := i + 1;
      }
      assert entries[..i] == entries;
    }

    method FireEach(ids: seq<Txid>, confirmed: bool)
      modifies this`completions, this`fired
      ensures Value() == FireAll(old(Value()), ids, confirmed)
    {
      var i := 0;
      while i < |ids|
        invariant 0 <= i <= |ids| && Value() == FireAll(old(Value()), ids[..i], confirmed)
      {
        assert ids[..i + 1][..i] == ids[..i];
        var _ := TakeCallback(ids[i], confirmed);
        i := i + 1;
      }
      assert ids[..i] == ids;
    }

    /** The RESUME_RESPONSE handler: the retransmissions are written first, and a failed write returns at once. */
    method OnVerdicts(entries: seq<ResumeStatusEntry>, failAt: Option<nat>, now: nat) returns (written: seq<Frame>)
      requires Valid()
      modifies this, holder
      ensures Valid() && Value() == Adjudicated(holder.config, old(Value()), entries, failAt, now)
      ensures var resends := ApplyResumeVerdicts(old(holder.pending), entries, now).1.retransmit;
              written == if failAt.Some? && failAt.value < |resends| then resends[..failAt.value] else resends
    {
      ghost var a := VerdictsArrive(entries, failAt, now);
      NextGood(holder.config, Value(), a);
      var v := holder.ApplyResumeVerdicts(entries, now);
      written := [];
      var i := 0;
      while i < |v.retransmit|
        invariant 0 <= i <= |v.retransmit| && written == v.retransmit[..i]
        invariant failAt.Some? ==> i <= failAt.value
      {
        if failAt == Some(i) { return; }
        written := written + [v.retransmit[i]];
        i := i + 1;
      }
      FireEach(v.confirmed, true);
      FireEach(v.failed, false);
    }

    ghost function Tracked(): Tx
      reads this, holder
    {
      Tx(holder.pending, books)
    }

    method Write(id: Txid, chunk: Bytes, now: nat) returns (r: Result<seq<Frame>, BeginError>)
      requires Valid()
      modifies holder, this`books
      ensures Valid() && Tracked() == Step(holder.config, old(Tracked()), Appends(id, chunk, now))
      ensures r == Append(holder.config, old(holder.pending), id, chunk, now).1
    {
      ghost var tx := Tracked();
      StepGood(holder.config, tx, Appends(id, chunk, now));
      r := holder.AppendChunk(id, chunk, now);
      books := BooksAfter(holder.config, tx, Appends(id, chunk, now));
    }

    method Close(id: Txid, now: nat) returns (r: Result<seq<Frame>, BeginError>)
      requires Valid()
      modifies holder, this`books
      ensures Valid() && Tracked() == Step(holder.config, old(Tracked()), Finishes(id, now))
      ensures r == Finish(old(holder.pending), id, now).1
    {
      ghost var tx := Tracked();
      StepGood(holder.config, tx, Finishes(id, now));
      r := holder.FinishTransaction(id, now);
      books := BooksAfter(holder.config, tx, Finishes(id, now));
    }

    /** Append the payload to a slot just opened, and finish it. */
    method Fill(id: Txid, payload: Bytes, now: nat) returns (frames: Option<seq<Frame>>)
      requires Valid()
      modifies holder, this`books
      ensures Tracked() == Fills(holder.config, old(Tracked()), id, payload, now).0
      ensures frames.Some? == Fills(holder.config, old(Tracked()), id, payload, now).1
      ensures frames.Some? ==> frames.value == FillFrames(holder.config, old(holder.pending), id, payload, now)
    {
      ghost var tx := Tracked();
      var head := Write(id, payload, now);
      if head.Err? {
        AppendKeeps(holder.config, tx, id, payload, now);
        return None;
      }
      var tail := Close(id, now);
      if tail.Err? { return None; }
      frames := Some(head.value + tail.value);
    }

    method Begin(id: Txid, payload: Bytes, now: nat) returns (frames: Option<seq<Frame>>)
      requires Valid() && id !in books
      modifies holder, this`books
      ensures Tracked() == Sends(holder.config, old(Tracked()), id, payload, now).0
      ensures frames.Some? == Sends(holder.config, old(Tracked()), id, payload, now).1
      ensures frames.Some? <==>
                0 < |payload| < U32_LIMIT && Total(old(holder.pending)) + |payload| <= holder.config.capBytes
      ensures frames.Some? ==> frames.value == Numbered(id, |payload|, 0, Split(holder.config.frameSize, payload))
    {
      ghost var tx := Tracked();
      FailedSendResidue(holder.config, tx, id, payload, now);
      var total := |payload| % U32_LIMIT;
      StepGood(holder.config, tx, Opens(id, total, now));
      var begun := holder.OpenTransaction(id, total, now);
      if begun.Err? { return None; }
      books := Step(holder.config, tx, Opens(id, total, now)).books;
      frames := Fill(id, payload, now);
      if frames.Some? { SendsSplit(holder.config, tx, id, payload, now); }
    }

    /**
     `send_binary` with a fresh UUID. The callback is the next one to be registered; the frames are for the wire, and
     the COMPLETED follows them.
     */
    method SendBinary(id: Txid, payload: Bytes, callback: Option<nat>, now: nat) returns (frames: Option<seq<Frame>>)
      requires Valid() && id !in books && id !in whole && (callback.Some? ==> callback.value == |registered|)
      modifies this, holder
      ensures Valid() && Value() == Sent(holder.config, old(Value()), id, payload, callback.Some?, now)
      ensures frames.Some? <==> Accepts(holder.config, old(holder.pending), payload)
      ensures frames.Some? ==> frames.value == Numbered(id, |payload|, 0, Split(holder.config.frameSize, payload))
    {
      SendsGood(holder.config, Tracked(), id, payload, now);
      var unacked := holder.UnackedBytes();
      if unacked >= holder.config.capBytes { return None; }
      frames := Begin(id, payload, now);
      whole := whole + {id};
      if frames.Some? && callback.Some? {
        completions := completions[id := callback.value];
        registered := registered + [Registration(id, true)];
      }
    }

    method SinkAbort(id: Txid) returns (existed: bool)
      requires Valid() && id !in whole
      modifies this, holder
      ensures Valid() && Value() == C.Next(holder.config, old(Value()), SinkAborts(id))
              && existed == (id in old(holder.pending))
    {
      NextGood(holder.config, Value(), SinkAborts(id));
      existed := holder.AbortTransaction(id);
      if existed {
        var _ := TakeCallback(id, false);
      } else {
        completions := completions - {id};
        assert holder.pending == old(holder.pending);
      }
    }
  }
}
