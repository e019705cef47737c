/** How many replicas a workload owns, and at which indices, after each
    operation. */
module WorkloadCounts {
  import opened Common
  import opened Text
  import opened Stores
  import opened Instances
  import opened WorkloadSpec
  import opened WorkloadInvariants
  import opened WorkloadSafety

  // ----- growing -----

  ghost predicate UnownedOn(f: Fleet, slug: string) {
    exists i :: i in f.instances && f.instances[i].slug == slug && f.instances[i].labels.workload == None
  }

  /** The indices whose slug is held by a row nobody owns: spawnReplica
      adopts such a row without labelling it. */
  ghost function Adopted(f: Fleet, slug: string, lo: nat, hi: nat): set<nat> {
    set k | k in Interval(lo, hi) && UnownedOn(f, ReplicaName(slug, k))
  }

  ghost predicate OwnedPlaced(f: Fleet, wid: WorkloadId, slug: string) {
    forall i :: i in f.instances && OwnedBy(f.instances[i], wid) ==>
      f.instances[i].slug == ReplicaName(slug, IndexOf(f.instances[i]))
  }

  lemma OwnedArePlaced(db: World, wid: WorkloadId, slug: string)
    requires RowsPlaced(db) && (wid in db.workloads ==> db.workloads[wid].slug == slug)
    ensures OwnedPlaced(db.fleet, wid, slug)
  {
    forall i | i in db.fleet.instances && OwnedBy(db.fleet.instances[i], wid)
      ensures db.fleet.instances[i].slug == ReplicaName(slug, IndexOf(db.fleet.instances[i]))
    {
      assert Placed(db.workloads, db.fleet.instances[i]);
    }
  }

  /** A new row's index lies in the spawned range and was not adopted. */
  lemma NewIndexSpawned(f: Fleet, wid: WorkloadId, w: Plan, lo: nat, stop: nat, f': Fleet, i: InstanceId)
    requires SpawnedUpTo(f, wid, w, lo, stop, f') && i in f'.instances && i !in f.instances
    ensures OwnedBy(f'.instances[i], wid)
    ensures var k := IndexOf(f'.instances[i]);
      lo <= k <= stop && !UnownedOn(f, ReplicaName(w.slug, k)) && f'.instances[i].slug == ReplicaName(w.slug, k)
  {
    assert FromSpawn(f, wid, w, lo, stop, i, f'.instances[i], ChainOf(f', i));
    assert !SlugTaken(f, f'.instances[i].slug);
  }

  lemma IndicesHas(f: Fleet, wid: WorkloadId, i: InstanceId)
    requires i in f.instances && OwnedBy(f.instances[i], wid)
    ensures IndexOf(f.instances[i]) in Indices(f, wid)
  {
    assert i in Owned(f, wid);
  }

  /** Each spawned index that was not adopted is now owned. */
  lemma SpawnedIndexOwned(f: Fleet, wid: WorkloadId, w: Plan, lo: nat, stop: nat, f': Fleet, k: nat)
    requires SpawnedUpTo(f, wid, w, lo, stop, f') && lo <= k < stop
    requires OwnedPlaced(f, wid, w.slug) && !UnownedOn(f, ReplicaName(w.slug, k))
    ensures k in Indices(f', wid)
  {
    assert Held(f', wid, ReplicaName(w.slug, k));
    var i :| i in f'.instances && f'.instances[i].slug == ReplicaName(w.slug, k)
      && (f'.instances[i].labels.workload == None || OwnedBy(f'.instances[i], wid));
    if i !in f.instances {
      NewIndexSpawned(f, wid, w, lo, stop, f', i);
    }
    ReplicaNameInjectiveIf(w.slug, IndexOf(f'.instances[i]), k, f'.instances[i].slug);
    IndicesHas(f', wid, i);
  }

  lemma ReplicaNameInjectiveIf(slug: string, j: nat, k: nat, name: string)
    requires name == ReplicaName(slug, k)
    ensures name == ReplicaName(slug, j) ==> j == k
  {
    if name == ReplicaName(slug, j) {
      ReplicaNameInjective(slug, j, slug, k);
    }
  }

  lemma OldIndicesKept(f: Fleet, wid: WorkloadId, f': Fleet)
    requires Kept(f, f')
    ensures Indices(f, wid) <= Indices(f', wid)
  {
    forall k | k in Indices(f, wid) ensures k in Indices(f', wid) {
      var i :| i in Owned(f, wid) && IndexOf(f.instances[i]) == k;
      IndicesHas(f', wid, i);
    }
  }

  ghost function SpawnedSet(f: Fleet, slug: string, lo: nat, stop: nat): set<nat> {
    Interval(lo, stop) - Adopted(f, slug, lo, stop)
  }

  /** The indices after spawning up to `stop`: the old ones, every spawned
      one that was not adopted, and at most the failed one. */
  lemma SpawnedIndices(f: Fleet, wid: WorkloadId, w: Plan, lo: nat, stop: nat, f': Fleet)
    requires SpawnedUpTo(f, wid, w, lo, stop, f') && OwnedPlaced(f, wid, w.slug)
    ensures Indices(f, wid) + SpawnedSet(f, w.slug, lo, stop) <= Indices(f', wid)
    ensures Indices(f', wid) <= Indices(f, wid) + SpawnedSet(f, w.slug, lo, stop) + {stop}
    ensures stop in Indices(f', wid) ==>
      stop in Indices(f, wid) || exists i :: i in f'.instances && i !in f.instances && IndexOf(f'.instances[i]) == stop
  {
    OldIndicesKept(f, wid, f');
    forall k | k in SpawnedSet(f, w.slug, lo, stop) ensures k in Indices(f', wid) {
      SpawnedIndexOwned(f, wid, w, lo, stop, f', k);
    }
    forall k | k in Indices(f', wid)
      ensures k in Indices(f, wid) + SpawnedSet(f, w.slug, lo, stop) + {stop}
      ensures k in Indices(f, wid) || exists i :: i in f'.instances && i !in f.instances && IndexOf(f'.instances[i]) == k
    {
      var i :| i in Owned(f', wid) && IndexOf(f'.instances[i]) == k;
      IndexFrom(f, wid, w, lo, stop, f', i);
    }
  }

  /** Where an owned index comes from. */
  lemma IndexFrom(f: Fleet, wid: WorkloadId, w: Plan, lo: nat, stop: nat, f': Fleet, i: InstanceId)
    requires SpawnedUpTo(f, wid, w, lo, stop, f') && i in Owned(f', wid)
    ensures var k := IndexOf(f'.instances[i]);
      if i in f.instances then k in Indices(f, wid) else k in SpawnedSet(f, w.slug, lo, stop) + {stop}
  {
    if i in f.instances {
      IndicesHas(f, wid, i);
    } else {
      NewIndexSpawned(f, wid, w, lo, stop, f', i);
    }
  }

  /** A successful grow from lo to hi adds exactly the indices in between
      that were not adopted. */
  lemma GrownIndices(f: Fleet, wid: WorkloadId, w: Plan, lo: nat, hi: nat, f': Fleet)
    requires Grown(f, wid, w, lo, hi, f', true) && OwnedPlaced(f, wid, w.slug)
    ensures Indices(f', wid) == Indices(f, wid) + SpawnedSet(f, w.slug, lo, hi)
  {
    SpawnedIndices(f, wid, w, lo, hi, f');
  }

  lemma SpawnedSetSize(f: Fleet, slug: string, lo: nat, hi: nat)
    requires lo <= hi
    ensures |SpawnedSet(f, slug, lo, hi)| == hi - lo - |Adopted(f, slug, lo, hi)|
  {
    IntervalSize(lo, hi);
    SubsetSize(Adopted(f, slug, lo, hi), Interval(lo, hi));
  }

  /** Replicas sit on their own slugs and are as many as their indices. */
  ghost predicate Countable(f: Fleet, wid: WorkloadId, slug: string) {
    OwnedPlaced(f, wid, slug) && |Indices(f, wid)| == |Owned(f, wid)|
  }

  lemma SoundIsCountable(db: World, wid: WorkloadId, slug: string)
    requires Sound(db) && (wid in db.workloads ==> db.workloads[wid].slug == slug)
    ensures Countable(db.fleet, wid, slug)
  {
    OwnedArePlaced(db, wid, slug);
    IndicesSize(db, wid);
  }

  /** Both ends of an accepted Scale. */
  lemma ScaledCountable(db: World, wid: WorkloadId, n: nat, db': World, ok: bool)
    requires Sound(db) && wid in db.workloads && Scaled(db, wid, n, db', ok) && ValidTransition(db.workloads[wid].state, StateScaling)
    ensures wid in db'.workloads && (ok ==> db'.workloads[wid].replicas == n) && db'.workloads.Keys == db.workloads.Keys
    ensures var w := PlanOf(db.workloads[wid]);
      Countable(db.fleet, wid, w.slug) && Countable(db'.fleet, wid, w.slug) && Resized(db.fleet, wid, w, n, db'.fleet, ok)
  {
    ScaleKeeps(db, wid, n, db', ok);
    SoundIsCountable(db, wid, db.workloads[wid].slug);
    SoundIsCountable(db', wid, db.workloads[wid].slug);
  }

  /** A successful grow misses its target by exactly the number of rows it
      adopted. */
  lemma GrownCount(f: Fleet, wid: WorkloadId, w: Plan, lo: nat, hi: nat, f': Fleet)
    requires Countable(f, wid, w.slug) && Countable(f', wid, w.slug)
    requires Grown(f, wid, w, lo, hi, f', true)
    requires forall x :: x in Indices(f, wid) ==> x < lo
    ensures |Owned(f', wid)| + |Adopted(f, w.slug, lo, hi)| == |Owned(f, wid)| + hi - lo
  {
    GrownIndices(f, wid, w, lo, hi, f');
    SpawnedSetSize(f, w.slug, lo, hi);
    var old0, new0 := Indices(f, wid), SpawnedSet(f, w.slug, lo, hi);
    assert old0 !! new0;
    assert |old0 + new0| == |old0| + |new0|;
  }

  lemma CleanAdoptsNothing(db: World, slug: string, lo: nat, hi: nat)
    requires forall i, k: nat :: i in db.fleet.instances && db.fleet.instances[i].labels.workload == None ==>
      db.fleet.instances[i].slug != ReplicaName(slug, k)
    ensures Adopted(db.fleet, slug, lo, hi) == {}
  {}

  // ----- shrinking -----

  /** The rows a successful shrink leaves. */
  lemma ShrunkOwned(f: Fleet, wid: WorkloadId, n: nat, order: seq<InstanceId>, stop: nat, f': Fleet)
    requires ShrunkBy(f, wid, n, order, stop, f', true)
    ensures Owned(f', wid) == Elems(order[..n]) && |Owned(f', wid)| == n
    ensures forall i :: i in f'.instances ==> i in f.instances && f'.instances[i] == f.instances[i]
    ensures Owned(f, wid) - Owned(f', wid) == Elems(order[n..])
  {
    SplitElems(order, n);
    assert order[n..stop] == order[n..];
    assert f'.instances == f.instances - Elems(order[n..]);
    assert Owned(f', wid) == Owned(f, wid) - Elems(order[n..]);
    ElemsSize(order[..n]);
  }

  /** A successful shrink to n keeps precisely the n lowest-indexed replicas,
      untouched. */
  lemma ShrinkKeepsLowest(db: World, wid: WorkloadId, n: nat, f': Fleet)
    requires Sound(db) && Shrunk(db.fleet, wid, n, f', true)
    ensures Owned(f', wid) <= Owned(db.fleet, wid) && |Owned(f', wid)| == n
    ensures forall i :: i in f'.instances ==> i in db.fleet.instances && f'.instances[i] == db.fleet.instances[i]
    ensures forall a, b :: a in Owned(f', wid) && b in Owned(db.fleet, wid) - Owned(f', wid) ==>
      IndexOf(db.fleet.instances[a]) < IndexOf(db.fleet.instances[b])
  {
    var f := db.fleet;
    var order: seq<InstanceId>, stop: nat :| ShrunkBy(f, wid, n, order, stop, f', true);
    ShrunkOwned(f, wid, n, order, stop, f');
    forall a, b | a in Owned(f', wid) && b in Owned(f, wid) - Owned(f', wid)
      ensures IndexOf(f.instances[a]) < IndexOf(f.instances[b])
    {
      OrderStrict(db, wid, order, n, a, b);
    }
  }

  lemma OrderStrict(db: World, wid: WorkloadId, order: seq<InstanceId>, n: nat, a: InstanceId, b: InstanceId)
    requires Sound(db) && ReplicaOrder(db.fleet, wid, order) && n <= |order|
    requires a in Elems(order[..n]) && b in Elems(order[n..])
    ensures a in Owned(db.fleet, wid) && b in Owned(db.fleet, wid)
    ensures IndexOf(db.fleet.instances[a]) < IndexOf(db.fleet.instances[b])
  {
    var i :| 0 <= i < n && order[..n][i] == a;
    var j :| 0 <= j < |order| - n && order[n..][j] == b;
    assert order[i] == a && order[n + j] == b;
    assert a in Elems(order) && b in Elems(order);
    IndicesDistinct(db, wid, a, b);
  }

  lemma SplitElems(order: seq<InstanceId>, n: nat)
    requires Distinct(order) && n <= |order|
    ensures Elems(order[n..]) == Elems(order) - Elems(order[..n])
    ensures Elems(order[..n]) == Elems(order) - Elems(order[n..])
    ensures Distinct(order[..n])
  {
    assert order == order[..n] + order[n..];
  }

  // ----- other workloads -----

  ghost predicate OthersSame(f: Fleet, f': Fleet, wid: WorkloadId) {
    forall v: WorkloadId :: v != wid ==> Owned(f', v) == Owned(f, v) && Indices(f', v) == Indices(f, v)
  }

  lemma SameIndices(f: Fleet, f': Fleet, v: WorkloadId)
    requires Owned(f', v) == Owned(f, v)
    requires forall i :: i in Owned(f, v) ==> IndexOf(f'.instances[i]) == IndexOf(f.instances[i])
    ensures Indices(f', v) == Indices(f, v)
  {}

  lemma GrownOthers(f: Fleet, wid: WorkloadId, w: Plan, lo: nat, hi: nat, f': Fleet, ok: bool)
    requires Grown(f, wid, w, lo, hi, f', ok)
    ensures OthersSame(f, f', wid)
  {
    var stop :| lo <= stop <= hi && SpawnedUpTo(f, wid, w, lo, stop, f');
    forall v: WorkloadId | v != wid ensures Owned(f', v) == Owned(f, v) && Indices(f', v) == Indices(f, v) {
      forall i | i in Owned(f', v) ensures i in Owned(f, v) {
        if i !in f.instances {
          NewIndexSpawned(f, wid, w, lo, stop, f', i);
        }
      }
      SameIndices(f, f', v);
    }
  }

  /** Only rows of wid are lost. */
  lemma LostOthers(f: Fleet, wid: WorkloadId, f': Fleet)
    requires OnlyLost(f, f')
    requires forall i :: i in f.instances && !OwnedBy(f.instances[i], wid) ==> i in f'.instances
    ensures OthersSame(f, f', wid)
  {
    forall v: WorkloadId | v != wid ensures Owned(f', v) == Owned(f, v) && Indices(f', v) == Indices(f, v) {
      assert Owned(f', v) == Owned(f, v);
      SameIndices(f, f', v);
    }
  }

  lemma ShrunkOthers(f: Fleet, wid: WorkloadId, n: nat, f': Fleet, ok: bool)
    requires Shrunk(f, wid, n, f', ok)
    ensures OthersSame(f, f', wid)
  {
    ShrunkOnlyLoses(f, wid, n, f', ok);
    var order: seq<InstanceId>, stop: nat :| ShrunkBy(f, wid, n, order, stop, f', ok);
    forall i | i in f.instances && !OwnedBy(f.instances[i], wid) ensures i in f'.instances {
      assert i !in Elems(order);
      assert i !in Elems(order[n..stop]);
    }
    LostOthers(f, wid, f');
  }

  lemma ResizedOthers(f: Fleet, wid: WorkloadId, w: Plan, n: nat, f': Fleet, ok: bool)
    requires Resized(f, wid, w, n, f', ok)
    ensures OthersSame(f, f', wid)
  {
    var more := n - |Owned(f, wid)|;
    if more > 0 {
      var lo: nat :| GrownFrom(f, wid, w, n, lo, f', ok);
      GrownOthers(f, wid, w, lo, lo + more, f', ok);
    } else {
      ShrunkOthers(f, wid, n, f', ok);
    }
  }
}
