/** Receive-side stream objects (src/reliability/stream.rs). */
module Streams {
  import opened Prelude

  datatype StreamState = Active | Paused | Stalled | Complete | Cancelled | Incomplete

  predicate IsTerminal(s: StreamState) { s == Complete || s == Cancelled || s == Incomplete }

  /**
   The observable part of a stream object: `stored` is the state atom (never `Stalled`), `stalled` the
   orthogonal connection-down flag, `chunks` everything pushed into its channel, `gap` the byte counts
   published with an `Incomplete` terminal. `incarnation` names the slot incarnation it was opened for.
   */
  datatype StreamObject = StreamObject(
    txid: Txid, totalLen: nat, stored: StreamState, stalled: bool, chunks: seq<(nat, Bytes)>, gap: (nat, nat),
    incarnation: nat)

  function Fresh(txid: Txid, totalLen: nat, incarnation: nat): StreamObject
  {
    StreamObject(txid, totalLen, Active, false, [], (0, 0), incarnation)
  }

  function Finished(o: StreamObject, s: StreamState): StreamObject { o.(stored := s) }

  function FinishedIncomplete(o: StreamObject, received: nat, expected: nat): StreamObject
  {
    Finished(o.(gap := (received, expected)), Incomplete)
  }

  function SetPaused(o: StreamObject): StreamObject { if o.stored == Active then o.(stored := Paused) else o }

  function ClearPaused(o: StreamObject): StreamObject { if o.stored == Paused then o.(stored := Active) else o }

  function SetStalled(o: StreamObject): StreamObject { if IsTerminal(o.stored) then o else o.(stalled := true) }

  function ClearStalled(o: StreamObject): StreamObject { o.(stalled := false) }

  function Pushed(o: StreamObject, emitted: seq<(nat, Bytes)>): StreamObject { o.(chunks := o.chunks + emitted) }

  /** `BinaryStream::state`: terminal > stalled > paused > active. */
  function Reads(o: StreamObject): StreamState
  {
    if IsTerminal(o.stored) then o.stored else if o.stalled then Stalled else o.stored
  }

  /** Flow changes a consumer can see on a live stream: pauses, resumptions, stalls and re-wirings. */
  datatype Flow = PauseFrame | DataFrame | Disconnect | Rewire

  function Flowed(o: StreamObject, f: Flow): StreamObject
  {
    match f
    case PauseFrame => SetPaused(o)
    case DataFrame => ClearPaused(o)
    case Disconnect => SetStalled(o)
    case Rewire => ClearStalled(o)
  }

  function AllFlowed(o: StreamObject, fs: seq<Flow>): StreamObject
  {
    if fs == [] then o else Flowed(AllFlowed(o, fs[..|fs| - 1]), fs[|fs| - 1])
  }

  /** The last pause or data frame before the end of `fs` was a pause. */
  predicate PauseIntent(start: bool, fs: seq<Flow>)
  {
    if fs == [] then start
    else match fs[|fs| - 1]
      case PauseFrame => true
      case DataFrame => false
      case _ => PauseIntent(start, fs[..|fs| - 1])
  }

  predicate Down(start: bool, fs: seq<Flow>)
  {
    if fs == [] then start
    else match fs[|fs| - 1]
      case Disconnect => true
      case Rewire => false
      case _ => Down(start, fs[..|fs| - 1])
  }

  /**
   Pause intent and link state are independent over any history of flow changes: a live stream reads
   `Stalled` exactly while the link is down, and once it is up again the holder's last pause intent shows.
   A terminal stream never leaves its terminal reading.
   */
  lemma {:induction false} FlowReading(o: StreamObject, fs: seq<Flow>)
    requires o.stored != Stalled
    ensures var r := Reads(AllFlowed(o, fs));
            if IsTerminal(o.stored) then r == o.stored
            else if Down(o.stalled, fs) then r == Stalled
            else r == if PauseIntent(o.stored == Paused, fs) then Paused else Active
    ensures var u := AllFlowed(o, fs);
            && u.chunks == o.chunks
            && (if IsTerminal(o.stored) then u.stored == o.stored
                else u.stalled == Down(o.stalled, fs)
                     && u.stored == if PauseIntent(o.stored == Paused, fs) then Paused else Active)
  {
    if fs != [] { FlowReading(o, fs[..|fs| - 1]); }
  }
}
