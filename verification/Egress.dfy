/**
 Ordered egress (src/session/egress.rs): senders enqueue on a data channel or a control channel; one drain
 task takes control frames first and writes in submission order. Any interleaving of these is a run. What a
 frame holds does not matter here, so it is a type parameter.
 */
module Egress {

  datatype Item<T> = Payload(value: T) | Close

  datatype Channel = DataChannel | ControlChannel

  /**
   `submitted` and `controls` record what was ever enqueued on each channel, `wire` what was written, in order;
   `exited` says the drain task is gone.
   */
  datatype Queues<T> = Queues(
    data: seq<Item<T>>, control: seq<T>, connected: bool, exited: bool,
    submitted: seq<Item<T>>, controls: seq<T>, wire: seq<(Channel, T)>)

  function Start<T>(): Queues<T> { Queues([], [], true, false, [], [], []) }

  datatype Move<T> =
    /** `send_faf`, `send_acked`: `connected` may have been read before a concurrent close. */
    | Send(value: T)
    | SendControl(value: T)
    | Shut
    /** One iteration of the drain loop; `ok` is the write result. */
    | DrainOnce(ok: bool)

  /** A failed write ends the drain task: nothing more is written, queued items are dropped. */
  function Dead<T>(q: Queues<T>): Queues<T> { q.(connected := false, exited := true, data := [], control := []) }

  function Drained<T>(q: Queues<T>, ok: bool): Queues<T>
  {
    if q.exited then q
    else if |q.control| > 0 then
      if ok then q.(control := q.control[1..], wire := q.wire + [(ControlChannel, q.control[0])]) else Dead(q)
    else if |q.data| == 0 then q
    else if q.data[0].Close? then q.(data := q.data[1..], exited := true)
    else if ok then q.(data := q.data[1..], wire := q.wire + [(DataChannel, q.data[0].value)])
    else Dead(q)
  }

  function Apply<T>(q: Queues<T>, m: Move<T>): Queues<T>
  {
    match m
    case Send(b) => if q.exited then q else q.(data := q.data + [Payload(b)], submitted := q.submitted + [Payload(b)])
    case SendControl(b) => if q.exited then q else q.(control := q.control + [b], controls := q.controls + [b])
    case Shut =>
      if q.exited then q.(connected := false)
      else q.(connected := false, data := q.data + [Close], submitted := q.submitted + [Close])
    case DrainOnce(ok) => Drained(q, ok)
  }

  function Run<T>(moves: seq<Move<T>>): Queues<T>
  {
    if |moves| == 0 then Start() else Apply(Run(moves[..|moves| - 1]), moves[|moves| - 1])
  }

  /** What went out on one channel, in wire order. */
  function Written<T>(wire: seq<(Channel, T)>, ch: Channel): seq<T>
  {
    if |wire| == 0 then []
    else
      var rest := Written(wire[..|wire| - 1], ch);
      var (c, b) := wire[|wire| - 1];
      if c == ch then rest + [b] else rest
  }

  function Payloads<T>(bs: seq<T>): seq<Item<T>> { seq(|bs|, i requires 0 <= i < |bs| => Payload(bs[i])) }

  lemma {:induction false} WrittenSnoc<T>(wire: seq<(Channel, T)>, c: Channel, b: T, ch: Channel)
    ensures Written(wire + [(c, b)], ch) == if c == ch then Written(wire, ch) + [b] else Written(wire, ch)
  {
    assert (wire + [(c, b)])[..|wire|] == wire;
  }

  /** Before the drain task exits nothing is lost; afterwards the wire holds a prefix of what was submitted. */
  ghost predicate InOrder<T>(q: Queues<T>)
  {
    var out := Payloads(Written(q.wire, DataChannel));
    && (!q.exited ==> q.submitted == out + q.data && q.controls == Written(q.wire, ControlChannel) + q.control)
    && out <= q.submitted && Written(q.wire, ControlChannel) <= q.controls
  }

  lemma {:induction false} ControlInOrder<T>(q: Queues<T>)
    requires InOrder(q) && !q.exited && |q.control| > 0
    ensures InOrder(Drained(q, true))
  {
    var b := q.control[0];
    WrittenSnoc(q.wire, ControlChannel, b, ControlChannel);
    WrittenSnoc(q.wire, ControlChannel, b, DataChannel);
    assert q.control == [b] + q.control[1..];
    assert q.controls == Written(q.wire, ControlChannel) + [b] + q.control[1..];
  }

  lemma {:induction false} DataInOrder<T>(q: Queues<T>)
    requires InOrder(q) && !q.exited && |q.control| == 0 && |q.data| > 0 && q.data[0].Payload?
    ensures InOrder(Drained(q, true))
  {
    var b := q.data[0].value;
    WrittenSnoc(q.wire, DataChannel, b, ControlChannel);
    WrittenSnoc(q.wire, DataChannel, b, DataChannel);
    assert q.data == [q.data[0]] + q.data[1..];
    assert Payloads(Written(q.wire, DataChannel) + [b]) == Payloads(Written(q.wire, DataChannel)) + [Payload(b)];
    assert q.submitted == Payloads(Written(q.wire, DataChannel)) + [Payload(b)] + q.data[1..];
  }

  lemma {:induction false} DrainInOrder<T>(q: Queues<T>, ok: bool)
    requires InOrder(q)
    ensures InOrder(Drained(q, ok))
  {
    if !q.exited && ok {
      if |q.control| > 0 {
        ControlInOrder(q);
      } else if |q.data| > 0 && q.data[0].Payload? {
        DataInOrder(q);
      }
    }
  }

  /**
   FIFO in every interleaving: the data frames on the wire are, in order and each once, an initial part of the
   data frames submitted, up to the first `Close`; likewise for control frames.
   */
  lemma {:induction false} WireIsFifo<T>(moves: seq<Move<T>>)
    ensures var q := Run(moves);
            && InOrder(q)
            && |Written(q.wire, DataChannel)| <= |q.submitted|
            && (forall i :: 0 <= i < |Written(q.wire, DataChannel)| ==>
                  q.submitted[i] == Payload(Written(q.wire, DataChannel)[i]))
  {
    if moves != [] {
      var before := moves[..|moves| - 1];
      WireIsFifo(before);
      var m := moves[|moves| - 1];
      if m.DrainOnce? { DrainInOrder(Run(before), m.ok); }
    }
    var q := Run(moves);
    assert Payloads(Written(q.wire, DataChannel)) == q.submitted[..|Written(q.wire, DataChannel)|];
  }

  /**
   Control frames take priority, over every run: at the moment a data frame is written, every control frame submitted
   so far is already on the wire.
   */
  lemma {:induction false} ControlFirst<T>(moves: seq<Move<T>>, m: Move<T>, value: T)
    requires Run(moves + [m]).wire == Run(moves).wire + [(DataChannel, value)]
    ensures Written(Run(moves + [m]).wire, ControlChannel) == Run(moves + [m]).controls
  {
    var q := Run(moves);
    assert (moves + [m])[..|moves|] == moves;
    WireIsFifo(moves);
    WrittenSnoc(q.wire, DataChannel, value, ControlChannel);
    DataWriteFoundNone(q, m, value);
  }

  lemma {:induction false} DataWriteFoundNone<T>(q: Queues<T>, m: Move<T>, value: T)
    requires Apply(q, m).wire == q.wire + [(DataChannel, value)]
    ensures m.DrainOnce? && !q.exited && |q.control| == 0 && Apply(q, m).controls == q.controls
  {
    var u := Apply(q, m);
    assert |u.wire| == |q.wire| + 1 && u.wire[|q.wire|].0 == DataChannel;
  }

  /**
   Graceful teardown: if no write fails, once the drain task has exited every data frame submitted before the first
   `Close` is on the wire.
   */
  lemma {:induction false} CloseFlushes<T>(moves: seq<Move<T>>)
    requires forall i :: 0 <= i < |moves| && moves[i].DrainOnce? ==> moves[i].ok
    ensures var q := Run(moves);
            q.exited ==> exists n :: 0 <= n < |q.submitted| && q.submitted[n] == Close
                                     && q.submitted[..n] == Payloads(Written(q.wire, DataChannel))
  {
    if moves != [] {
      var before := moves[..|moves| - 1];
      CloseFlushes(before);
      WireIsFifo(before);
      var p, m := Run(before), moves[|moves| - 1];
      var q := Run(moves);
      if q.exited && !p.exited {
        var n := |Written(p.wire, DataChannel)|;
        assert |Payloads(Written(p.wire, DataChannel))| == n;
        assert q.submitted[n] == p.data[0] == Close;
        assert q.submitted[..n] == Payloads(Written(q.wire, DataChannel));
      }
    }
  }
}
