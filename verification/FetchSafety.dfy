/** What every run of the fetch responder keeps: table agreement, single-flight resolves, single terminal ownership. */
module FetchSafety {
  import opened Prelude
  import opened FetchTables

  /** Both tables name the same servings: transaction ids and ready uris are in bijection. */
  ghost predicate Agree(s: Service)
  {
    && (forall t :: t in s.byTxid ==>
          && s.byTxid[t] < |s.servings| && s.servings[s.byTxid[t]].txid == t
          && s.servings[s.byTxid[t]].uri in s.byUri && s.byUri[s.servings[s.byTxid[t]].uri] == Ready(s.byTxid[t]))
    && (forall u :: u in s.byUri && s.byUri[u].Ready? ==>
          && s.byUri[u].serving < |s.servings| && s.servings[s.byUri[u].serving].uri == u
          && s.servings[s.byUri[u].serving].txid in s.byTxid
          && s.byTxid[s.servings[s.byUri[u].serving].txid] == s.byUri[u].serving)
  }

  ghost predicate Distinct(s: Service)
  {
    forall j, k :: 0 <= j < k < |s.servings| ==> s.servings[j].txid != s.servings[k].txid
  }

  /** Every resolve in flight has the placeholder of its uri, and its own slot. */
  ghost predicate Flights(s: Service)
  {
    && (forall h :: h in s.handlers && s.handlers[h].Resolves? ==>
          && s.handlers[h].slot < |s.slots|
          && s.handlers[h].uri in s.byUri && s.byUri[s.handlers[h].uri] == Resolving(s.handlers[h].slot))
    && (forall h, g :: h in s.handlers && g in s.handlers && h != g ==>
          s.handlers[h].Resolves? && s.handlers[g].Resolves? ==> s.handlers[h].slot != s.handlers[g].slot)
    && (forall u :: u in s.byUri && s.byUri[u].Resolving? ==>
          && s.byUri[u].slot < |s.slots|
          && exists h :: h in s.handlers && s.handlers[h] == Resolves(u, s.byUri[u].slot))
  }

  /** Stages that name a serving name one that exists. */
  ghost predicate Named(s: Service, stage: Stage)
  {
    match stage
    case Spawns(k) => k < |s.servings|
    case Evicted(k) => k < |s.servings|
    case AbortsSink(k) => k < |s.servings|
    case _ => true
  }

  ghost predicate AllNamed(s: Service) { forall h :: h in s.handlers ==> Named(s, s.handlers[h]) }

  /** Handler `h` owes serving `k` its terminal operation, itself or by spawning the serving task. */
  predicate Owes(s: Service, h: nat, k: nat)
  {
    h in s.handlers && (s.handlers[h] == Spawns(k) || s.handlers[h] == AbortsSink(k))
  }

  predicate TaskLive(s: Service, k: nat)
    requires k < |s.servings|
  {
    s.servings[k].task == Running || s.servings[k].task == Ending
  }

  predicate Claimed(s: Service, k: nat) { exists h :: h in s.handlers && s.handlers[h] == Evicted(k) }

  predicate Aborting(s: Service, k: nat) { exists h :: h in s.handlers && s.handlers[h] == AbortsSink(k) }

  /**
   One owner: before the begin gate flips nobody owns the terminal operation and nothing was tried, and the serving
   is in the tables or an abort is about to claim it. Afterwards one handler owns it, or the serving task does, or
   it was tried, once.
   */
  ghost predicate OwnerOk(s: Service, k: nat)
    requires k < |s.servings|
  {
    var v := s.servings[k];
    && (forall h, g :: Owes(s, h, k) && Owes(s, g, k) ==> h == g)
    && (if !v.begun then
          (forall h :: !Owes(s, h, k)) && v.task == NoTask && v.attempts == 0
          && ((v.txid in s.byTxid && s.byTxid[v.txid] == k) || Claimed(s, k))
        else if exists h :: Owes(s, h, k) then v.task == NoTask && v.attempts == 0
        else if TaskLive(s, k) then v.attempts == 0
        else v.attempts == 1)
    && (v.task != NoTask ==> v.begun)
  }

  /** Evicted servings stay evicted. */
  ghost predicate GoneOk(s: Service, k: nat)
    requires k < |s.servings|
  {
    (Claimed(s, k) || Aborting(s, k) || s.servings[k].task == Ending || s.servings[k].task == Ended) ==>
      s.servings[k].txid !in s.byTxid
  }

  ghost predicate Owned(s: Service) { forall k :: 0 <= k < |s.servings| ==> OwnerOk(s, k) && GoneOk(s, k) }

  ghost predicate Inv(s: Service) { Agree(s) && Distinct(s) && Flights(s) && AllNamed(s) && Owned(s) }

  // ---------------------------------------------------------------------------------------------
  // Frames

  /** Stages that take no part in the invariants. */
  predicate Idle(stage: Stage) { stage.Missed? || stage.Waiting? || stage.Publishes? || stage.Leaves? }

  predicate IdleAt(s: Service, h: nat) { h in s.handlers ==> Idle(s.handlers[h]) }

  /** Only activation `h` moves. */
  ghost predicate Only(s: Service, u: Service, h: nat)
  {
    forall g :: g != h ==>
      (g in u.handlers <==> g in s.handlers) && (g in s.handlers ==> u.handlers[g] == s.handlers[g])
  }

  /** Serving `k` and everything said about it is untouched. */
  ghost predicate Same(s: Service, u: Service, k: nat)
  {
    && k < |s.servings| <= |u.servings| && u.servings[k] == s.servings[k]
    && (forall g :: Owes(u, g, k) <==> Owes(s, g, k))
    && (Claimed(u, k) <==> Claimed(s, k)) && (Aborting(u, k) <==> Aborting(s, k))
    && var t := s.servings[k].txid;
       (t in u.byTxid <==> t in s.byTxid) && (t in s.byTxid ==> u.byTxid[t] == s.byTxid[t])
  }

  lemma {:induction false} SameOwner(s: Service, u: Service, k: nat)
    requires Same(s, u, k) && OwnerOk(s, k) && GoneOk(s, k)
    ensures OwnerOk(u, k) && GoneOk(u, k)
  {
    if exists h :: Owes(s, h, k) { var h :| Owes(s, h, k); assert Owes(u, h, k); }
    if exists h :: Owes(u, h, k) { var h :| Owes(u, h, k); assert Owes(s, h, k); }
  }

  predicate About(stage: Stage, k: nat) { stage == Spawns(k) || stage == Evicted(k) || stage == AbortsSink(k) }

  /** A move of `h` that concerns another serving leaves `k` alone. */
  lemma {:induction false} OnlySame(s: Service, u: Service, h: nat, k: nat)
    requires Only(s, u, h) && k < |s.servings| <= |u.servings| && u.servings[k] == s.servings[k]
    requires h in s.handlers ==> !About(s.handlers[h], k)
    requires h in u.handlers ==> !About(u.handlers[h], k)
    requires var t := s.servings[k].txid;
             (t in u.byTxid <==> t in s.byTxid) && (t in s.byTxid ==> u.byTxid[t] == s.byTxid[t])
    ensures Same(s, u, k)
  {
    forall g ensures Owes(u, g, k) <==> Owes(s, g, k) { }
  }

  lemma {:induction false} SameTables(s: Service, u: Service)
    requires Agree(s) && Distinct(s)
    requires u.byUri == s.byUri && u.byTxid == s.byTxid && |u.servings| == |s.servings|
    requires forall k :: 0 <= k < |s.servings| ==>
               u.servings[k].txid == s.servings[k].txid && u.servings[k].uri == s.servings[k].uri
    ensures Agree(u) && Distinct(u)
  {
  }

  /** Resolves in flight are as before. */
  lemma {:induction false} SameFlights(s: Service, u: Service, h: nat)
    requires Flights(s) && Only(s, u, h) && |u.slots| == |s.slots|
    requires h in s.handlers ==> !s.handlers[h].Resolves?
    requires h in u.handlers ==> !u.handlers[h].Resolves?
    requires forall x :: x in u.byUri ==> x in s.byUri && u.byUri[x] == s.byUri[x]
    requires forall x :: x in s.byUri && s.byUri[x].Resolving? ==> x in u.byUri
    ensures Flights(u)
  {
    forall x | x in u.byUri && u.byUri[x].Resolving?
      ensures exists g :: g in u.handlers && u.handlers[g] == Resolves(x, u.byUri[x].slot)
    {
      var g :| g in s.handlers && s.handlers[g] == Resolves(x, s.byUri[x].slot);
      assert g != h;
    }
  }

  /** Steps in which an idle activation comes, goes or stays idle. */
  lemma {:induction false} IdleMoves(s: Service, u: Service, h: nat)
    requires Inv(s) && Only(s, u, h) && IdleAt(s, h) && IdleAt(u, h)
    requires u.byUri == s.byUri && u.byTxid == s.byTxid && u.servings == s.servings && |u.slots| == |s.slots|
    ensures Inv(u)
  {
    SameTables(s, u);
    SameFlights(s, u, h);
    forall k | 0 <= k < |u.servings| ensures OwnerOk(u, k) && GoneOk(u, k) {
      OnlySame(s, u, h, k);
      SameOwner(s, u, k);
    }
  }

  // ---------------------------------------------------------------------------------------------
  // Fetch: insert, succeed, fail

  lemma {:induction false} InsertedFlight(s: Service, h: nat, uri: Uri, x: Uri)
    requires Flights(s) && IdleAt(s, h) && uri !in s.byUri && x in s.byUri && s.byUri[x].Resolving?
    ensures exists g :: g in Inserted(s, h, uri).handlers
                        && Inserted(s, h, uri).handlers[g] == Resolves(x, s.byUri[x].slot)
  {
    var g :| g in s.handlers && s.handlers[g] == Resolves(x, s.byUri[x].slot);
    assert g != h && g in Inserted(s, h, uri).handlers;
  }

  lemma {:induction false} InsertedFlights(s: Service, h: nat, uri: Uri)
    requires Flights(s) && IdleAt(s, h) && uri !in s.byUri
    ensures Flights(Inserted(s, h, uri))
  {
    var u := Inserted(s, h, uri);
    forall x | x in u.byUri && u.byUri[x].Resolving?
      ensures exists g :: g in u.handlers && u.handlers[g] == Resolves(x, u.byUri[x].slot)
    {
      if x == uri {
        assert u.handlers[h] == Resolves(x, u.byUri[x].slot);
      } else {
        InsertedFlight(s, h, uri, x);
      }
    }
  }

  lemma {:induction false} InsertedInv(s: Service, h: nat, uri: Uri)
    requires Inv(s) && IdleAt(s, h) && uri !in s.byUri
    ensures Inv(Inserted(s, h, uri))
  {
    var u := Inserted(s, h, uri);
    InsertedFlights(s, h, uri);
    assert Agree(u);
    forall k | 0 <= k < |u.servings| ensures OwnerOk(u, k) && GoneOk(u, k) {
      OnlySame(s, u, h, k);
      SameOwner(s, u, k);
    }
  }

  lemma {:induction false} ResolvedFlights(s: Service, u: Service, h: nat, uri: Uri, slot: nat)
    requires Flights(s) && Only(s, u, h) && |u.slots| == |s.slots|
    requires h in s.handlers && s.handlers[h] == Resolves(uri, slot) && h in u.handlers && !u.handlers[h].Resolves?
    requires uri in u.byUri ==> u.byUri[uri].Ready?
    requires forall x :: x != uri ==> (x in u.byUri <==> x in s.byUri) && (x in s.byUri ==> u.byUri[x] == s.byUri[x])
    ensures Flights(u)
  {
    forall g | g in u.handlers && u.handlers[g].Resolves? ensures u.handlers[g].uri != uri {
      assert s.handlers[g].slot != slot;
    }
    forall x | x in u.byUri && u.byUri[x].Resolving?
      ensures exists g :: g in u.handlers && u.handlers[g] == Resolves(x, u.byUri[x].slot)
    {
      var g :| g in s.handlers && s.handlers[g] == Resolves(x, s.byUri[x].slot);
      assert g != h;
    }
  }

  lemma {:induction false} SucceededAgrees(s: Service, h: nat, uri: Uri, slot: nat, t: Txid)
    requires Agree(s) && Distinct(s) && uri in s.byUri && s.byUri[uri].Resolving? && FreshTxid(s, t)
    ensures Agree(Succeeded(s, h, uri, slot, t)) && Distinct(Succeeded(s, h, uri, slot, t))
  {
    var u := Succeeded(s, h, uri, slot, t);
    forall x | x in u.byTxid
      ensures u.byTxid[x] < |u.servings| && u.servings[u.byTxid[x]].txid == x
      ensures u.servings[u.byTxid[x]].uri in u.byUri && u.byUri[u.servings[u.byTxid[x]].uri] == Ready(u.byTxid[x])
    {
      if x != t { assert s.servings[s.byTxid[x]].uri != uri; }
    }
  }

  lemma {:induction false} SucceededInv(s: Service, h: nat, uri: Uri, slot: nat, t: Txid)
    requires Inv(s) && h in s.handlers && s.handlers[h] == Resolves(uri, slot) && FreshTxid(s, t)
    ensures Inv(Succeeded(s, h, uri, slot, t))
  {
    SucceededAgrees(s, h, uri, slot, t);
    ResolvedFlights(s, Succeeded(s, h, uri, slot, t), h, uri, slot);
    SucceededOwned(s, h, uri, slot, t);
  }

  lemma {:induction false} SucceededOwned(s: Service, h: nat, uri: Uri, slot: nat, t: Txid)
    requires AllNamed(s) && Owned(s) && h in s.handlers && s.handlers[h] == Resolves(uri, slot) && FreshTxid(s, t)
    ensures AllNamed(Succeeded(s, h, uri, slot, t)) && Owned(Succeeded(s, h, uri, slot, t))
  {
    var u := Succeeded(s, h, uri, slot, t);
    forall k | 0 <= k < |s.servings| ensures OwnerOk(u, k) && GoneOk(u, k) {
      OnlySame(s, u, h, k);
      SameOwner(s, u, k);
    }
    NewOwner(s, u, h);
    forall g | g in u.handlers ensures Named(u, u.handlers[g]) {
      if g != h { assert Named(s, s.handlers[g]); }
    }
  }

  /** Nobody refers to a serving that was not there before. */
  lemma {:induction false} NewOwner(s: Service, u: Service, h: nat)
    requires AllNamed(s) && Only(s, u, h) && IdleAt(u, h) && |u.servings| == |s.servings| + 1
    requires var v := u.servings[|s.servings|];
             v == Serving(v.uri, v.txid, false, NoTask, 0, 0) && v.txid in u.byTxid && u.byTxid[v.txid] == |s.servings|
    ensures OwnerOk(u, |s.servings|) && GoneOk(u, |s.servings|)
  {
    var k := |s.servings|;
    forall g | g in u.handlers ensures !About(u.handlers[g], k) {
      if g != h { assert Named(s, s.handlers[g]); }
    }
  }

  lemma {:induction false} FailedInv(s: Service, h: nat, uri: Uri, slot: nat)
    requires Inv(s) && h in s.handlers && s.handlers[h] == Resolves(uri, slot)
    ensures Inv(Failed(s, h, uri, slot))
  {
    var u := Failed(s, h, uri, slot);
    ResolvedFlights(s, u, h, uri, slot);
    assert Agree(u);
    forall k | 0 <= k < |u.servings| ensures OwnerOk(u, k) && GoneOk(u, k) {
      OnlySame(s, u, h, k);
      SameOwner(s, u, k);
    }
  }

  // ---------------------------------------------------------------------------------------------
  // Begin, abort and the serving task

  lemma {:induction false} RemovedAgrees(s: Service, t: Txid)
    requires Agree(s) && Distinct(s)
    ensures var u := Removed(s, t);
            && Agree(u) && u == s.(byUri := u.byUri, byTxid := s.byTxid - {t})
            && (forall x :: x in u.byUri ==> x in s.byUri && u.byUri[x] == s.byUri[x])
            && (forall x :: x in s.byUri && s.byUri[x].Resolving? ==> x in u.byUri)
  {
    if t !in s.byTxid { assert s.byTxid - {t} == s.byTxid; }
  }

  /** Serving `k` is changed by activation `h` or by its own task: the others are not affected. */
  lemma {:induction false} OthersOwned(s: Service, u: Service, h: nat, k: nat)
    requires Inv(s) && Only(s, u, h) && k < |s.servings| == |u.servings|
    requires u.byTxid == s.byTxid || u.byTxid == s.byTxid - {s.servings[k].txid}
    requires forall j :: 0 <= j < |s.servings| && j != k ==> u.servings[j] == s.servings[j]
    requires h in s.handlers ==> Idle(s.handlers[h]) || About(s.handlers[h], k)
    requires h in u.handlers ==> Idle(u.handlers[h]) || About(u.handlers[h], k)
    requires OwnerOk(u, k) && GoneOk(u, k)
    ensures Owned(u) && AllNamed(u)
  {
    forall j | 0 <= j < |u.servings| && j != k ensures OwnerOk(u, j) && GoneOk(u, j) {
      assert s.servings[j].txid != s.servings[k].txid;
      OnlySame(s, u, h, j);
      SameOwner(s, u, j);
    }
    forall g | g in u.handlers ensures Named(u, u.handlers[g]) {
      if g != h { assert Named(s, s.handlers[g]); }
    }
  }

  /** The begin gate makes activation `h` the owner. */
  lemma {:induction false} BegunInv(s: Service, h: nat, t: Txid)
    requires Inv(s) && h !in s.handlers && t in s.byTxid && !s.servings[s.byTxid[t]].begun
    ensures Inv(Begun(s, h, s.byTxid[t]))
  {
    var k := s.byTxid[t];
    var u := Begun(s, h, k);
    SameTables(s, u);
    SameFlights(s, u, h);
    assert OwnerOk(s, k) && GoneOk(s, k);
    forall g ensures Owes(u, g, k) <==> g == h { assert !Owes(s, g, k); }
    assert Owes(u, h, k);
    assert Claimed(u, k) ==> Claimed(s, k);
    assert Aborting(u, k) ==> Aborting(s, k);
    OthersOwned(s, u, h, k);
  }

  lemma {:induction false} SpawnedInv(s: Service, h: nat, k: nat)
    requires Inv(s) && h in s.handlers && s.handlers[h] == Spawns(k)
    ensures k < |s.servings| && Inv(Spawned(s, h, k))
  {
    assert Named(s, s.handlers[h]);
    var u := Spawned(s, h, k);
    SameTables(s, u);
    SameFlights(s, u, h);
    assert OwnerOk(s, k) && GoneOk(s, k) && Owes(s, h, k);
    forall g ensures !Owes(u, g, k) { if g != h { assert Owes(u, g, k) ==> Owes(s, g, k); } }
    assert Claimed(u, k) ==> Claimed(s, k);
    assert Aborting(u, k) ==> Aborting(s, k);
    OthersOwned(s, u, h, k);
  }

  lemma {:induction false} EvictedInv(s: Service, h: nat, t: Txid)
    requires Inv(s) && h !in s.handlers && t in s.byTxid
    ensures Inv(At(Removed(s, t), h, Evicted(s.byTxid[t])))
  {
    var k := s.byTxid[t];
    RemovedAgrees(s, t);
    var u := At(Removed(s, t), h, Evicted(k));
    assert Agree(u) && Distinct(u);
    SameFlights(s, u, h);
    assert OwnerOk(s, k) && GoneOk(s, k);
    forall g ensures Owes(u, g, k) <==> Owes(s, g, k) { }
    assert u.handlers[h] == Evicted(k);
    assert OwnerOk(u, k) by { if exists g :: Owes(s, g, k) { var g :| Owes(s, g, k); assert Owes(u, g, k); } }
    OthersOwned(s, u, h, k);
  }

  lemma {:induction false} SwappedInv(s: Service, h: nat, k: nat)
    requires Inv(s) && h in s.handlers && s.handlers[h] == Evicted(k)
    ensures k < |s.servings| && Inv(Swapped(s, h, k))
  {
    assert Named(s, s.handlers[h]) && Claimed(s, k);
    var u := Swapped(s, h, k);
    SameTables(s, u);
    SameFlights(s, u, h);
    assert OwnerOk(s, k) && GoneOk(s, k);
    if s.servings[k].begun {
      forall g ensures Owes(u, g, k) <==> Owes(s, g, k) { }
      assert OwnerOk(u, k) by { if exists g :: Owes(s, g, k) { var g :| Owes(s, g, k); assert Owes(u, g, k); } }
    } else {
      forall g ensures Owes(u, g, k) <==> g == h { assert !Owes(s, g, k); }
      assert Owes(u, h, k);
    }
    OthersOwned(s, u, h, k);
  }

  lemma {:induction false} AbortedInv(s: Service, h: nat, k: nat)
    requires Inv(s) && h in s.handlers && s.handlers[h] == AbortsSink(k)
    ensures k < |s.servings| && Inv(Aborted(s, h, k))
  {
    assert Named(s, s.handlers[h]) && Aborting(s, k);
    var u := Aborted(s, h, k);
    SameTables(s, u);
    SameFlights(s, u, h);
    assert OwnerOk(s, k) && GoneOk(s, k) && Owes(s, h, k);
    forall g ensures !Owes(u, g, k) { if g != h { assert Owes(u, g, k) ==> Owes(s, g, k); } }
    OthersOwned(s, u, h, k);
  }

  lemma {:induction false} TaskEndedInv(s: Service, k: nat)
    requires Inv(s) && k < |s.servings| && s.servings[k].task == Running
    ensures Inv(TaskEnded(s, k))
  {
    var t := s.servings[k].txid;
    RemovedAgrees(s, t);
    var u := TaskEnded(s, k);
    SameTables(Removed(s, t), u);
    var h := Unused(s);
    SameFlights(s, u, h);
    assert OwnerOk(s, k);
    forall g ensures Owes(u, g, k) <==> Owes(s, g, k) { }
    OthersOwned(s, u, h, k);
  }

  lemma {:induction false} TaskTerminalInv(s: Service, k: nat)
    requires Inv(s) && k < |s.servings| && s.servings[k].task == Ending
    ensures Inv(With(s, k, Attempted(s, k).(task := Ended)))
  {
    var u := With(s, k, Attempted(s, k).(task := Ended));
    SameTables(s, u);
    var h := Unused(s);
    SameFlights(s, u, h);
    assert OwnerOk(s, k) && GoneOk(s, k);
    forall g ensures Owes(u, g, k) <==> Owes(s, g, k) { }
    OthersOwned(s, u, h, k);
  }

  /** A number no activation has. */
  lemma {:induction false} Unused(s: Service) returns (h: nat)
    ensures h !in s.handlers
  {
    if s.handlers.Keys == {} {
      h := 0;
    } else {
      var m := HasMaximum(s.handlers.Keys);
      h := m + 1;
    }
  }

  // ---------------------------------------------------------------------------------------------
  // Every run

  lemma {:induction false} LookedInv(s: Service, h: nat, uri: Uri)
    requires Inv(s) && h !in s.handlers
    ensures Inv(Looked(s, h, uri, At(s, h, Missed(uri))))
  {
    IdleMoves(s, Looked(s, h, uri, At(s, h, Missed(uri))), h);
  }

  lemma {:induction false} EnterInv(s: Service, a: Action)
    requires Inv(s) && Enters(a) && a.h !in s.handlers
    ensures Inv(Enter(s, a))
  {
    match a
    case Fetch(h, uri) => LookedInv(s, h, uri);
    case Begin(h, t) => if t in s.byTxid && !s.servings[s.byTxid[t]].begun { BegunInv(s, h, t); }
    case Abort(h, t) => if t in s.byTxid { EvictedInv(s, h, t); }
  }

  lemma {:induction false} FetchResumeInv(s: Service, a: Action, stage: Stage)
    requires Inv(s) && (a.Insert? || a.Resolved?) && a.h in s.handlers && s.handlers[a.h] == stage
    ensures Inv(Resume(s, a, stage))
  {
    match (a, stage)
    case (Insert(h), Missed(uri)) =>
      if uri in s.byUri { IdleMoves(s, Resume(s, a, stage), h); } else { InsertedInv(s, h, uri); }
    case (Resolved(h, Some(t)), Resolves(uri, slot)) => if FreshTxid(s, t) { SucceededInv(s, h, uri, slot, t); }
    case (Resolved(h, None), Resolves(uri, slot)) => FailedInv(s, h, uri, slot);
    case _ =>
  }

  lemma {:induction false} PublishedInv(s: Service, h: nat, slot: nat, outcome: Option<nat>)
    requires Inv(s) && h in s.handlers && s.handlers[h] == Publishes(slot, outcome)
    ensures Inv(Published(s, h, slot, outcome))
  {
    IdleMoves(s, Published(s, h, slot, outcome), h);
  }

  lemma {:induction false} ReturnedInv(s: Service, h: nat)
    requires Inv(s) && h in s.handlers && Idle(s.handlers[h])
    ensures Inv(Returned(s, h))
  {
    IdleMoves(s, Returned(s, h), h);
  }

  lemma {:induction false} ResumeInv(s: Service, a: Action, stage: Stage)
    requires Inv(s) && !Enters(a) && !OfTask(a) && a.h in s.handlers && s.handlers[a.h] == stage
    ensures Inv(Resume(s, a, stage))
  {
    if a.Insert? || a.Resolved? {
      FetchResumeInv(s, a, stage);
    } else {
      match (a, stage)
      case (Publish(h), Publishes(slot, outcome)) => PublishedInv(s, h, slot, outcome);
      case (WaitEnds(h), Waiting(slot)) => ReturnedInv(s, h);
      case (Spawn(h), Spawns(k)) => SpawnedInv(s, h, k);
      case (Swap(h), Evicted(k)) => SwappedInv(s, h, k);
      case (AbortSink(h), AbortsSink(k)) => AbortedInv(s, h, k);
      case (Leave(h), Leaves(_)) => ReturnedInv(s, h);
      case _ =>
    }
  }

  lemma {:induction false} NextInv(s: Service, a: Action)
    requires Inv(s)
    ensures Inv(Next(s, a))
  {
    if a.TaskEnds? {
      if a.k < |s.servings| && s.servings[a.k].task == Running { TaskEndedInv(s, a.k); }
    } else if a.TaskTerminal? {
      if a.k < |s.servings| && s.servings[a.k].task == Ending { TaskTerminalInv(s, a.k); }
    } else if Enters(a) {
      if a.h !in s.handlers { EnterInv(s, a); }
    } else if a.h in s.handlers {
      ResumeInv(s, a, s.handlers[a.h]);
    }
  }

  lemma {:induction false} RunInv(actions: seq<Action>)
    ensures Inv(Run(actions))
  {
    if actions != [] {
      RunInv(actions[..|actions| - 1]);
      NextInv(Run(actions[..|actions| - 1]), actions[|actions| - 1]);
    }
  }

  /**
   The tables stay in bijection: in every run, transaction `t` maps to serving `k` exactly when `k` carries `t` and
   is the ready entry of its uri.
   */
  lemma {:induction false} TablesInBijection(actions: seq<Action>, t: Txid, k: nat)
    requires k < |Run(actions).servings|
    ensures var s := Run(actions);
            var v := s.servings[k];
            t in s.byTxid && s.byTxid[t] == k <==> v.txid == t && v.uri in s.byUri && s.byUri[v.uri] == Ready(k)
  {
    RunInv(actions);
  }

  /** Single flight: two activations never resolve the same uri at once, nor one while the uri is ready. */
  lemma {:induction false} OneResolvePerUri(actions: seq<Action>, h: nat, g: nat)
    requires var s := Run(actions);
             && h in s.handlers && g in s.handlers && s.handlers[h].Resolves? && s.handlers[g].Resolves?
             && s.handlers[h].uri == s.handlers[g].uri
    ensures var s := Run(actions); h == g && s.handlers[h].uri in s.byUri && s.byUri[s.handlers[h].uri].Resolving?
  {
    RunInv(actions);
  }

  /** The serving task or an activation: who has yet to perform the terminal operation. */
  datatype Owner = Activation(h: nat) | TheTask

  predicate IsOwner(s: Service, o: Owner, k: nat)
    requires k < |s.servings|
  {
    match o
    case Activation(h) => Owes(s, h, k)
    case TheTask => TaskLive(s, k)
  }

  /**
   Exactly one terminal owner, in every run: before the gate flips there is none and nothing was tried; after it
   there is exactly one owner until the terminal operation is tried, which happens once, and none from then on.
   */
  lemma {:induction false} OneTerminalOwner(actions: seq<Action>, k: nat)
    requires k < |Run(actions).servings|
    ensures var s := Run(actions);
            && (forall o, p :: IsOwner(s, o, k) && IsOwner(s, p, k) ==> o == p)
            && ((exists o :: IsOwner(s, o, k)) <==> s.servings[k].begun && s.servings[k].attempts == 0)
            && s.servings[k].attempts <= (if s.servings[k].begun then 1 else 0)
  {
    RunInv(actions);
    var s := Run(actions);
    assert OwnerOk(s, k);
    if h :| Owes(s, h, k) {
      assert IsOwner(s, Activation(h), k);
    } else if TaskLive(s, k) {
      assert IsOwner(s, TheTask, k);
    }
  }

  /**
   When the terminal operation is tried the tables no longer refer to the serving: it is performed exactly when no
   activation still holds a reference.
   */
  lemma {:induction false} TerminalUnlisted(actions: seq<Action>, k: nat)
    requires k < |Run(actions).servings| && (Run(actions).servings[k].task == Ending || Aborting(Run(actions), k))
    ensures var s := Run(actions);
            && !Listed(s, k)
            && (Attempted(s, k).performed == s.servings[k].performed
                <==> exists h :: h in s.handlers && Keeps(s, s.handlers[h], k))
  {
    RunInv(actions);
    var s := Run(actions);
    assert GoneOk(s, k);
  }

  lemma {:induction false} Then(actions: seq<Action>, a: Action, all: seq<Action>)
    requires all == actions + [a]
    ensures Run(all) == Next(Run(actions), a)
  {
    assert all[..|actions|] == actions;
  }

  const FETCHED := [Fetch(0, "u"), Insert(0)]

  /** After the fetch of one resource has been answered. */
  function Answered(t: Txid, begun: bool, task: Task, stage: Stage): Service
  {
    Service(map["u" := Ready(0)], map[t := 0], [Serving("u", t, begun, task, 0, 0)], [Some(Some(0))], map[1 := stage])
  }

  lemma {:induction false} FetchedExample()
    ensures Run(FETCHED) == Service(map["u" := Resolving(0)], map[], [], [None], map[0 := Resolves("u", 0)])
  {
    assert Run([]) == EMPTY;
    Then([], Fetch(0, "u"), [Fetch(0, "u")]);
    assert Run([Fetch(0, "u")]) == EMPTY.(handlers := map[0 := Missed("u")]);
    Then([Fetch(0, "u")], Insert(0), FETCHED);
  }

  lemma {:induction false} ReadyExample(t: Txid)
    ensures Run(FETCHED + [Resolved(0, Some(t))])
            == Service(map["u" := Ready(0)], map[t := 0], [Serving("u", t, false, NoTask, 0, 0)], [None],
                map[0 := Publishes(0, Some(0))])
  {
    FetchedExample();
    Then(FETCHED, Resolved(0, Some(t)), FETCHED + [Resolved(0, Some(t))]);
  }

  lemma {:induction false} PublishedExample(t: Txid, ready: seq<Action>)
    requires ready == FETCHED + [Resolved(0, Some(t))]
    ensures Run(ready + [Publish(0)])
            == Service(map["u" := Ready(0)], map[t := 0], [Serving("u", t, false, NoTask, 0, 0)], [Some(Some(0))],
                map[0 := Leaves(0)])
  {
    ReadyExample(t);
    Then(ready, Publish(0), ready + [Publish(0)]);
  }

  lemma {:induction false} AnsweredExample(t: Txid, ready: seq<Action>)
    requires ready == FETCHED + [Resolved(0, Some(t))]
    ensures Run(ready + [Publish(0), Leave(0)])
            == Service(map["u" := Ready(0)], map[t := 0], [Serving("u", t, false, NoTask, 0, 0)], [Some(Some(0))],
                map[])
  {
    PublishedExample(t, ready);
    Then(ready + [Publish(0)], Leave(0), ready + [Publish(0), Leave(0)]);
  }

  lemma {:induction false} BegunExample(t: Txid, before: seq<Action>)
    requires before == FETCHED + [Resolved(0, Some(t)), Publish(0), Leave(0)]
    ensures Run(before + [Begin(1, t)]) == Answered(t, true, NoTask, Spawns(0))
  {
    AnsweredExample(t, FETCHED + [Resolved(0, Some(t))]);
    assert before == FETCHED + [Resolved(0, Some(t))] + [Publish(0), Leave(0)];
    Then(before, Begin(1, t), before + [Begin(1, t)]);
  }

  lemma {:induction false} SpawnedExample(t: Txid, before: seq<Action>)
    requires before == FETCHED + [Resolved(0, Some(t)), Publish(0), Leave(0)]
    ensures Run(before + [Begin(1, t), Spawn(1)]) == Answered(t, true, Running, Leaves(0))
  {
    BegunExample(t, before);
    Then(before + [Begin(1, t)], Spawn(1), before + [Begin(1, t), Spawn(1)]);
  }

  lemma {:induction false} EndingExample(t: Txid, spawned: seq<Action>)
    requires Run(spawned) == Answered(t, true, Running, Leaves(0))
    ensures var u := Run(spawned + [TaskEnds(0)]);
            u.handlers == map[1 := Leaves(0)] && u.servings == [Serving("u", t, true, Ending, 0, 0)]
  {
    Then(spawned, TaskEnds(0), spawned + [TaskEnds(0)]);
  }

  /**
   The operation can be skipped: a begin activation that has spawned the serving task but not returned still holds the
   serving, and a provider that finishes at once finds its sink shared.
   */
  lemma {:induction false} TerminalSkippedExample(t: Txid)
    ensures var story := [Resolved(0, Some(t)), Publish(0), Leave(0), Begin(1, t), Spawn(1)];
            var s := Run(FETCHED + story + [TaskEnds(0), TaskTerminal(0)]);
            && |s.servings| == 1 && s.servings[0].attempts == 1 && s.servings[0].performed == 0
            && s.servings[0].task == Ended
  {
    var before := FETCHED + [Resolved(0, Some(t)), Publish(0), Leave(0)];
    SpawnedExample(t, before);
    var spawned := before + [Begin(1, t), Spawn(1)];
    EndingExample(t, spawned);
    var u := Run(spawned + [TaskEnds(0)]);
    assert Shared(u, 0) by { assert Keeps(u, u.handlers[1], 0); }
    Then(spawned + [TaskEnds(0)], TaskTerminal(0), spawned + [TaskEnds(0), TaskTerminal(0)]);
    assert spawned == FETCHED + [Resolved(0, Some(t)), Publish(0), Leave(0), Begin(1, t), Spawn(1)];
  }
}
