/**
 The idempotency tables of the fetch responder (src/ext/fetch.rs:485-600 and 702-912). Every critical section of
 the table lock, every begin-gate flip and every step of a serving task is one step; any interleaving of handler
 activations and serving tasks is a run. A serving is named by its position in `servings`.
 */
module FetchTables {
  import opened Prelude

  type Uri = string

  datatype Entry = Resolving(slot: nat) | Ready(serving: nat)

  datatype Task = NoTask | Running | Ending | Ended

  /** `attempts` counts tries at the terminal operation, `performed` those that got sole ownership of the sink. */
  datatype Serving = Serving(uri: Uri, txid: Txid, begun: bool, task: Task, attempts: nat, performed: nat)

  /** Where one handler activation stands, between its critical sections. */
  datatype Stage =
    | Missed(uri: Uri)
    | Waiting(slot: nat)
    | Resolves(uri: Uri, slot: nat)
    | Publishes(slot: nat, outcome: Option<nat>)
    | Spawns(serving: nat)
    | Evicted(serving: nat)
    | AbortsSink(serving: nat)
    /** About to return, its reference to the serving not yet dropped. */
    | Leaves(serving: nat)

  /** A slot holds the outcome of its resolve once it is published. */
  datatype Service = Service(
    byUri: map<Uri, Entry>, byTxid: map<Txid, nat>, servings: seq<Serving>, slots: seq<Option<Option<nat>>>,
    handlers: map<nat, Stage>)

  const EMPTY := Service(map[], map[], [], [], map[])

  datatype Action =
    | Fetch(h: nat, uri: Uri)
    | Insert(h: nat)
    /** The provider's outcome: a fresh transaction id, or a failure. */
    | Resolved(h: nat, outcome: Option<Txid>)
    | Publish(h: nat)
    | WaitEnds(h: nat)
    | Begin(h: nat, txid: Txid)
    | Spawn(h: nat)
    | Abort(h: nat, txid: Txid)
    | Swap(h: nat)
    | AbortSink(h: nat)
    | Leave(h: nat)
    | TaskEnds(k: nat)
    | TaskTerminal(k: nat)

  function At(s: Service, h: nat, stage: Stage): Service { s.(handlers := s.handlers[h := stage]) }

  function Returned(s: Service, h: nat): Service { s.(handlers := s.handlers - {h}) }

  function With(s: Service, k: nat, v: Serving): Service
    requires k < |s.servings|
  {
    s.(servings := s.servings[k := v])
  }

  /** Look the uri up: answered at once, behind another resolve, or a miss. */
  function Looked(s: Service, h: nat, uri: Uri, miss: Service): Service
  {
    if uri !in s.byUri then miss
    else if s.byUri[uri].Ready? then Returned(s, h) else At(s, h, Waiting(s.byUri[uri].slot))
  }

  /** Remove one serving from both tables; the uri entry only if it still points at this transaction. */
  function Removed(s: Service, txid: Txid): Service
  {
    if txid !in s.byTxid || s.byTxid[txid] >= |s.servings| then s
    else
      var uri := s.servings[s.byTxid[txid]].uri;
      var u := s.(byTxid := s.byTxid - {txid});
      if uri in s.byUri && s.byUri[uri].Ready? && s.byUri[uri].serving < |s.servings|
         && s.servings[s.byUri[uri].serving].txid == txid
      then u.(byUri := u.byUri - {uri}) else u
  }

  predicate FreshTxid(s: Service, t: Txid) { forall k :: 0 <= k < |s.servings| ==> s.servings[k].txid != t }

  /** Does this activation keep the serving alive? A waiter does through the published slot. */
  predicate Keeps(s: Service, stage: Stage, k: nat)
  {
    match stage
    case Publishes(_, outcome) => outcome == Some(k)
    case Waiting(slot) => slot < |s.slots| && s.slots[slot] == Some(Some(k))
    case Spawns(j) => j == k
    case Evicted(j) => j == k
    case Leaves(j) => j == k
    case _ => false
  }

  predicate Listed(s: Service, k: nat)
  {
    (exists t :: t in s.byTxid && s.byTxid[t] == k) || (exists u :: u in s.byUri && s.byUri[u] == Ready(k))
  }

  /** Someone else still refers to the serving, so the sink cannot be unwrapped. */
  predicate Shared(s: Service, k: nat)
  {
    Listed(s, k) || exists h :: h in s.handlers && Keeps(s, s.handlers[h], k)
  }

  function Attempted(s: Service, k: nat): Serving
    requires k < |s.servings|
  {
    var v := s.servings[k];
    v.(attempts := v.attempts + 1, performed := v.performed + if Shared(s, k) then 0 else 1)
  }

  /** A miss, re-checked under the lock: the placeholder goes in. */
  function Inserted(s: Service, h: nat, uri: Uri): Service
  {
    At(s.(byUri := s.byUri[uri := Resolving(|s.slots|)], slots := s.slots + [None]), h, Resolves(uri, |s.slots|))
  }

  /** The placeholder is swapped for the ready entry. */
  function Succeeded(s: Service, h: nat, uri: Uri, slot: nat, t: Txid): Service
  {
    At(s.(byUri := s.byUri[uri := Ready(|s.servings|)], byTxid := s.byTxid[t := |s.servings|],
          servings := s.servings + [Serving(uri, t, false, NoTask, 0, 0)]),
       h, Publishes(slot, Some(|s.servings|)))
  }

  /** Only the handler's own placeholder is evicted. */
  function Failed(s: Service, h: nat, uri: Uri, slot: nat): Service
  {
    At(if uri in s.byUri && s.byUri[uri] == Resolving(slot) then s.(byUri := s.byUri - {uri}) else s,
       h, Publishes(slot, None))
  }

  function Published(s: Service, h: nat, slot: nat, outcome: Option<nat>): Service
  {
    var u := if slot < |s.slots| then s.(slots := s.slots[slot := Some(outcome)]) else s;
    if outcome.Some? then At(u, h, Leaves(outcome.value)) else Returned(u, h)
  }

  function Spawned(s: Service, h: nat, k: nat): Service
    requires k < |s.servings|
  {
    At(With(s, k, s.servings[k].(task := Running)), h, Leaves(k))
  }

  /** The first to flip the begin gate owns the terminal operation. */
  function Swapped(s: Service, h: nat, k: nat): Service
    requires k < |s.servings|
  {
    if s.servings[k].begun then At(s, h, Leaves(k)) else At(With(s, k, s.servings[k].(begun := true)), h, AbortsSink(k))
  }

  function Aborted(s: Service, h: nat, k: nat): Service
    requires k < |s.servings|
  {
    Returned(With(s, k, Attempted(s, k)), h)
  }

  /** What handler `h`, standing at `stage`, does next. */
  function Resume(s: Service, a: Action, stage: Stage): Service
  {
    match (a, stage)
    case (Insert(h), Missed(uri)) => Looked(s, h, uri, Inserted(s, h, uri))
    case (Resolved(h, Some(t)), Resolves(uri, slot)) => if FreshTxid(s, t) then Succeeded(s, h, uri, slot, t) else s
    case (Resolved(h, None), Resolves(uri, slot)) => Failed(s, h, uri, slot)
    case (Publish(h), Publishes(slot, outcome)) => Published(s, h, slot, outcome)
    case (WaitEnds(h), Waiting(slot)) => if slot < |s.slots| && s.slots[slot].Some? then Returned(s, h) else s
    case (Spawn(h), Spawns(k)) => if k < |s.servings| then Spawned(s, h, k) else s
    case (Swap(h), Evicted(k)) => if k < |s.servings| then Swapped(s, h, k) else s
    case (AbortSink(h), AbortsSink(k)) => if k < |s.servings| then Aborted(s, h, k) else s
    case (Leave(h), Leaves(_)) => Returned(s, h)
    case _ => s
  }

  /** The begin gate, flipped under the table lock. */
  function Begun(s: Service, h: nat, k: nat): Service
    requires k < |s.servings|
  {
    At(With(s, k, s.servings[k].(begun := true)), h, Spawns(k))
  }

  /** A new activation enters with its first critical section. */
  function Enter(s: Service, a: Action): Service
  {
    match a
    case Fetch(h, uri) => Looked(s, h, uri, At(s, h, Missed(uri)))
    case Begin(h, t) =>
      if t !in s.byTxid || s.byTxid[t] >= |s.servings| || s.servings[s.byTxid[t]].begun then s
      else Begun(s, h, s.byTxid[t])
    case Abort(h, t) => if t in s.byTxid then At(Removed(s, t), h, Evicted(s.byTxid[t])) else s
    case _ => s
  }

  /** The serving task leaves its loop and evicts the serving. */
  function TaskEnded(s: Service, k: nat): Service
    requires k < |s.servings|
  {
    var u := Removed(s, s.servings[k].txid);
    u.(servings := s.servings[k := s.servings[k].(task := Ending)])
  }

  function TaskStep(s: Service, a: Action): Service
  {
    match a
    case TaskEnds(k) => if k < |s.servings| && s.servings[k].task == Running then TaskEnded(s, k) else s
    case TaskTerminal(k) =>
      if k < |s.servings| && s.servings[k].task == Ending then With(s, k, Attempted(s, k).(task := Ended)) else s
    case _ => s
  }

  predicate Enters(a: Action) { a.Fetch? || a.Begin? || a.Abort? }

  predicate OfTask(a: Action) { a.TaskEnds? || a.TaskTerminal? }

  function Next(s: Service, a: Action): Service
  {
    if OfTask(a) then TaskStep(s, a)
    else if Enters(a) then (if a.h in s.handlers then s else Enter(s, a))
    else if a.h in s.handlers then Resume(s, a, s.handlers[a.h])
    else s
  }

  function Run(actions: seq<Action>): Service
  {
    if actions == [] then EMPTY else Next(Run(actions[..|actions| - 1]), actions[|actions| - 1])
  }
}
