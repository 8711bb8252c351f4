/** The egress queues as the object they are (src/session/egress.rs:60-222), proved against `Egress.Apply`. */
module EgressQueues {
  import opened Egress

  /** The drain loop on a list of write results, one per iteration. */
  function Drains<T>(q: Queues<T>, oks: seq<bool>): Queues<T>
  {
    if oks == [] then q else Apply(Drains(q, oks[..|oks| - 1]), DrainOnce(oks[|oks| - 1]))
  }

  lemma {:induction false} ExitedStays<T>(q: Queues<T>, oks: seq<bool>, i: nat)
    requires i <= |oks| && Drains(q, oks[..i]).exited
    ensures Drains(q, oks) == Drains(q, oks[..i])
    decreases |oks|
  {
    if i < |oks| {
      var n := |oks| - 1;
      assert oks[..n][..i] == oks[..i];
      ExitedStays(q, oks[..n], i);
    } else {
      assert oks[..i] == oks;
    }
  }

  class EgressQueue<T> {
    var data: seq<Item<T>>
    var control: seq<T>
    var connected: bool
    var exited: bool
    ghost var submitted: seq<Item<T>>
    ghost var controls: seq<T>
    ghost var wire: seq<(Channel, T)>

    constructor ()
      ensures Value() == Start()
    {
      data, control, connected, exited := [], [], true, false;
      submitted, controls, wire := [], [], [];
    }

    ghost function Value(): Queues<T>
      reads this
    {
      Queues(data, control, connected, exited, submitted, controls, wire)
    }

    method SendData(value: T) returns (ok: bool)
      modifies this
      ensures Value() == if old(connected) then Apply(old(Value()), Send(value)) else old(Value())
      ensures ok == (old(connected) && !old(exited))
    {
      if !connected || exited { return false; }
      data := data + [Payload(value)];
      submitted := submitted + [Payload(value)];
      ok := true;
    }

    method SendControl(value: T) returns (ok: bool)
      modifies this
      ensures Value() == if old(connected) then Apply(old(Value()), Egress.SendControl(value)) else old(Value())
      ensures ok == (old(connected) && !old(exited))
    {
      if !connected || exited { return false; }
      control := control + [value];
      controls := controls + [value];
      ok := true;
    }

    method Close()
      modifies this
      ensures Value() == Apply(old(Value()), Shut)
    {
      connected := false;
      if !exited {
        data := data + [Egress.Close];
        submitted := submitted + [Egress.Close];
      }
    }

    /** A failed write ends the drain task and drops what is queued. */
    method Die()
      modifies this
      ensures Value() == Dead(old(Value()))
    {
      connected, exited, data, control := false, true, [], [];
    }

    /** One iteration of the drain loop: a waiting control frame goes first. */
    method DrainStep(ok: bool)
      requires !exited
      modifies this
      ensures Value() == Apply(old(Value()), DrainOnce(ok))
    {
      if |control| > 0 {
        if ok {
          wire := wire + [(ControlChannel, control[0])];
          control := control[1..];
        } else {
          Die();
        }
      } else if |data| > 0 {
        match data[0]
        case Close => data, exited := data[1..], true;
        case Payload(value) =>
          if ok {
            wire := wire + [(DataChannel, value)];
            data := data[1..];
          } else {
            Die();
          }
      }
    }

    method DrainLoop(oks: seq<bool>)
      modifies this
      ensures Value() == Drains(old(Value()), oks)
    {
      var i := 0;
      while i < |oks| && !exited
        invariant 0 <= i <= |oks| && Value() == Drains(old(Value()), oks[..i])
      {
        assert oks[..i + 1][..i] == oks[..i];
        DrainStep(oks[i]);
        i := i + 1;
      }
      if exited { ExitedStays(old(Value()), oks, i); } else { assert oks[..i] == oks; }
    }
  }
}
