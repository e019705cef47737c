/** What callers of the workload service rely on, over single calls and over
    whole runs. */
module WorkloadTheorems {
  import opened Common
  import opened Text
  import opened ReleaseChain
  import opened Stores
  import opened WorkloadSpec
  import opened WorkloadInvariants
  import opened WorkloadSafety
  import opened WorkloadCounts
  import opened WorkloadRuns

  // ----- adoption: where the resting invariant needs its hypothesis -----

  /** A successful Scale up to n really owns n replicas exactly when no row
      without an owner sits on one of the slugs it is about to use. */
  lemma ScaleUpExact(db: World, wid: WorkloadId, n: nat, db': World, lo: nat)
    requires Sound(db) && Scaled(db, wid, n, db', true)
    requires n > |Owned(db.fleet, wid)| && IsNext(Indices(db.fleet, wid), lo)
    ensures wid in db.workloads && wid in db'.workloads && db'.workloads[wid].replicas == n
    ensures |Owned(db'.fleet, wid)| == n <==>
      Adopted(db.fleet, db.workloads[wid].slug, lo, lo + (n - |Owned(db.fleet, wid)|)) == {}
  {
    AcceptedScale(db, wid, n, db');
    ScaledCountable(db, wid, n, db', true);
    ScaleReaches(db, wid, n, db', lo);
  }

  lemma ScaleReaches(db: World, wid: WorkloadId, n: nat, db': World, lo: nat)
    requires wid in db.workloads && Scaled(db, wid, n, db', true)
    requires Countable(db.fleet, wid, db.workloads[wid].slug) && Countable(db'.fleet, wid, db.workloads[wid].slug)
    requires n > |Owned(db.fleet, wid)| && IsNext(Indices(db.fleet, wid), lo)
    ensures |Owned(db'.fleet, wid)| == n <==>
      Adopted(db.fleet, db.workloads[wid].slug, lo, lo + (n - |Owned(db.fleet, wid)|)) == {}
  {
    GrowReaches(db.fleet, wid, PlanOf(db.workloads[wid]), n, db'.fleet, lo);
  }

  lemma AcceptedScale(db: World, wid: WorkloadId, n: nat, db': World)
    requires Scaled(db, wid, n, db', true)
    ensures wid in db.workloads && ValidTransition(db.workloads[wid].state, StateScaling)
  {}

  /** A successful Create owns its count exactly when no row without an owner
      sits on one of its replica slugs. */
  lemma CreateExact(db: World, name: string, services: seq<Service>, replicas: int, db': World)
    requires Sound(db) && Created(db, name, services, replicas, db', true)
    ensures var wid, n: nat := db.nextWorkload, if replicas <= 0 then 1 else replicas;
      && wid in db'.workloads && db'.workloads[wid].replicas == n && db'.workloads[wid].state == StateActive
      && (|Owned(db'.fleet, wid)| == n <==> Adopted(db.fleet, WorkloadSlug(name), 0, n) == {})
  {
    var wid, n: nat := db.nextWorkload, if replicas <= 0 then 1 else replicas;
    CreateKeeps(db, name, services, replicas, db', true);
    NobodyOwnsNew(db);
    SoundIsCountable(db, wid, WorkloadSlug(name));
    SoundIsCountable(db', wid, WorkloadSlug(name));
    GrownCount(db.fleet, wid, PlanOf(db'.workloads[wid]), 0, n, db'.fleet);
    EmptySize(Adopted(db.fleet, WorkloadSlug(name), 0, n));
  }

  /** One such row is enough for Create to report success and leave an Active
      workload of one replica that owns none. */
  lemma AdoptionLeavesShort(db: World, name: string, services: seq<Service>) returns (db': World)
    requires Sound(db) && !Blank(name) && Acceptable(services) && !WorkloadSlugTaken(db, WorkloadSlug(name))
    requires UnownedOn(db.fleet, ReplicaName(WorkloadSlug(name), 0))
    ensures Created(db, name, services, 1, db', true)
    ensures db.nextWorkload in db'.workloads && db'.workloads[db.nextWorkload].replicas == 1
    ensures Owned(db'.fleet, db.nextWorkload) == {} && !AtRest(db', db.nextWorkload)
  {
    var w := Workload(WorkloadSlug(name), Normalised(services), 1, 0, StateActive);
    db' := db.(workloads := db.workloads[db.nextWorkload := w], nextWorkload := db.nextWorkload + 1);
    assert Held(db.fleet, db.nextWorkload, ReplicaName(w.slug, 0));
    assert SpawnedUpTo(db.fleet, db.nextWorkload, PlanOf(w), 0, 1, db'.fleet);
    NobodyOwnsNew(db);
  }

  // ----- exact scaling -----

  /** A successful Scale down keeps the n lowest-indexed replicas untouched;
      a successful Scale up keeps every replica untouched. */
  lemma ScaleKeepsReplicas(db: World, wid: WorkloadId, n: nat, db': World)
    requires Sound(db) && Scaled(db, wid, n, db', true)
    ensures wid in db'.workloads && db'.workloads[wid].replicas == n
    ensures n <= |Owned(db.fleet, wid)| ==> |Owned(db'.fleet, wid)| == n
    ensures n > |Owned(db.fleet, wid)| ==> Owned(db.fleet, wid) <= Owned(db'.fleet, wid)
    ensures forall i :: i in Owned(db.fleet, wid) && i in Owned(db'.fleet, wid) ==>
      db'.fleet.instances[i] == db.fleet.instances[i]
    ensures forall a, b :: a in Owned(db.fleet, wid) * Owned(db'.fleet, wid) && b in Owned(db.fleet, wid) - Owned(db'.fleet, wid) ==>
      IndexOf(db.fleet.instances[a]) < IndexOf(db.fleet.instances[b])
  {
    if n <= |Owned(db.fleet, wid)| {
      ShrinkKeepsLowest(db, wid, n, db'.fleet);
    } else {
      var lo := NextExists(db.fleet, wid);
      GrownAt(db.fleet, wid, PlanOf(db.workloads[wid]), n, db'.fleet, lo, true);
    }
  }

  // ----- what is accepted -----

  /** At rest a Deploy is refused exactly for an empty request, an unknown
      workload, one that is not Active, or an unknown service. */
  lemma DeployRefusedExactly(db: World, wid: WorkloadId, request: seq<Item>)
    requires Resting(db)
    ensures DeployRefused(db, wid, request) <==>
      || request == [] || wid !in db.workloads || db.workloads[wid].state != StateActive
      || exists k :: 0 <= k < |request| && forall s :: s in db.workloads[wid].services ==> s.name != request[k].name
  {
    if wid in db.workloads {
      assert AtRest(db, wid);
      var services := db.workloads[wid].services;
      assert forall k :: 0 <= k < |request| ==>
        (request[k].name in ServiceNames(services) <==> exists s :: s in services && s.name == request[k].name);
      if !(Names(request) <= ServiceNames(services)) {
        var n :| n in Names(request) && n !in ServiceNames(services);
        var x :| x in request && x.name == n;
        var k :| 0 <= k < |request| && request[k] == x;
      }
      if k :| 0 <= k < |request| && forall s :: s in services ==> s.name != request[k].name {
        assert request[k].name in Names(request);
      }
    }
  }

  /** A Scale is refused, changing nothing, exactly for a negative count, an
      unknown workload, or one that is provisioning, deploying or going;
      otherwise it ends Failed, or Paused or Active by its count. */
  lemma ScaleAccepts(db: World, wid: WorkloadId, n: int, db': World, ok: bool)
    requires Scaled(db, wid, n, db', ok)
    ensures if n < 0 || wid !in db.workloads || db.workloads[wid].state !in {StateActive, StatePaused, StateFailed, StateScaling}
      then !ok && db' == db
      else wid in db'.workloads && db'.workloads[wid].state == if !ok then StateFailed else if n == 0 then StatePaused else StateActive
  {}

  // ----- what a deploy does to a replica -----

  /** One deployment of the request was appended, run by the strategy asked
      for, or rolling where none was. */
  ghost predicate Appended(c: Chain, request: seq<Item>, strategy: string, c': Chain) {
    && |c'.deployments| == |c.deployments| + 1 && c.deployments == c'.deployments[..|c.deployments|]
    && c'.deployments[|c.deployments|].services == request
    && (strategy != "" ==> c'.deployments[|c.deployments|].strategy == strategy)
    && (strategy == "" ==> c'.deployments[|c.deployments|].strategy == "rolling")
  }

  /** Every chain either took that deployment or is untouched, and after a
      successful Deploy every replica took it. */
  lemma DeployReaches(db: World, wid: WorkloadId, request: seq<Item>, strategy: string, db': World, ok: bool, i: InstanceId)
    requires Redeployed(db, wid, request, strategy, db', ok)
    ensures ChainOf(db'.fleet, i) == ChainOf(db.fleet, i) || Appended(ChainOf(db.fleet, i), request, strategy, ChainOf(db'.fleet, i))
    ensures ok && i in Owned(db.fleet, wid) ==> Appended(ChainOf(db.fleet, i), request, strategy, ChainOf(db'.fleet, i))
  {
    if !DeployRefused(db, wid, request) {
      RolloutReaches(db.fleet, wid, request, strategy, db'.fleet, ok, i);
    }
  }

  lemma RolloutReaches(f: Fleet, wid: WorkloadId, request: seq<Item>, strategy: string, f': Fleet, ok: bool, i: InstanceId)
    requires Updated(f, wid, request, strategy, f', ok)
    ensures ChainOf(f', i) == ChainOf(f, i) || Appended(ChainOf(f, i), request, strategy, ChainOf(f', i))
    ensures ok && i in Owned(f, wid) ==> Appended(ChainOf(f, i), request, strategy, ChainOf(f', i))
  {
    var order: seq<InstanceId>, stop: nat :| ReplicaOrder(f, wid, order) && RolledOut(f, order, stop, request, strategy, f')
      && (order != [] ==> (ok <==> stop == |order|));
    if k :| 0 <= k < |order| && order[k] == i {
      assert i in Elems(order);
      if k < stop || k == stop {
        SteppedAppends(ChainOf(f, i), request, strategy, ChainOf(f', i), k < stop);
      } else {
        NotReached(order, stop, k);
      }
    } else {
      assert i !in Elems(order) && i !in order;
    }
  }

  lemma NotReached(order: seq<InstanceId>, stop: nat, k: nat)
    requires Distinct(order) && stop < k < |order|
    ensures order[k] !in order[..stop + 1]
  {}

  lemma SteppedAppends(c: Chain, request: seq<Item>, strategy: string, c': Chain, ok: bool)
    requires Stepped(c, ChainOp.Deploy(request, strategy), c', ok)
    ensures Appended(c, request, strategy, c')
  {}

  // ----- details of a new workload -----

  /** Accepting a spec changes nothing but roles left open, which become Main. */
  lemma NormalisedOnlyRoles(services: seq<Service>, i: nat)
    requires i < |services|
    ensures var s, t := services[i], Normalised(services)[i];
      && t.name == s.name && t.image == s.image && t.env == s.env && t.dependsOn == s.dependsOn
      && (s.role == Main || s.role == Sidecar || s.role == Init ==> t.role == s.role) && (s.role == Unset ==> t.role == Main)
  {}

  /** What a Resume asks for: what a pause remembered; without one the present
      count; and never less than one. */
  lemma ResumeAsks(w: Workload)
    ensures ResumeTarget(w) >= 1
    ensures w.previous > 0 ==> ResumeTarget(w) == w.previous
    ensures w.previous == 0 && w.replicas > 0 ==> ResumeTarget(w) == w.replicas
    ensures w.previous == 0 && w.replicas == 0 ==> ResumeTarget(w) == 1
  {}

  /** A replica spawned by a call is as old as the call: within the grace age
      no sweep takes it, whatever happens to its workload. */
  lemma SpawnedAreNew(f: Fleet, wid: WorkloadId, w: Plan, lo: nat, hi: nat, f': Fleet, ok: bool, i: InstanceId)
    requires Grown(f, wid, w, lo, hi, f', ok) && i in f'.instances && i !in f.instances
    ensures f'.instances[i].createdAt == f.now
  {
    var stop :| lo <= stop <= hi && SpawnedUpTo(f, wid, w, lo, stop, f');
    assert FreshReplica(f, wid, w, IndexOf(f'.instances[i]), f'.instances[i]);
  }
}
