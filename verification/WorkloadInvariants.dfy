/** What every reachable state of the rows satisfies. */
module WorkloadInvariants {
  import opened Common
  import opened Text
  import opened Stores
  import opened Instances
  import opened WorkloadSpec

  /** A labelled row names an existing workload, and its index label and its
      slug agree: slug == "<workload slug>-<index>". */
  ghost predicate Placed(workloads: map<WorkloadId, Workload>, row: Instance) {
    row.labels.workload.Some? ==>
      && row.labels.workload.value in workloads
      && row.labels.replicaIndex == Some(Itoa(IndexOf(row)))
      && row.slug == ReplicaName(workloads[row.labels.workload.value].slug, IndexOf(row))
  }

  ghost predicate WorkloadsSound(db: World) {
    && (forall w :: w in db.workloads ==>
          w < db.nextWorkload && Slugged(db.workloads[w].slug) && WellFormed(db.workloads[w].services))
    && (forall v, w :: v in db.workloads && w in db.workloads && v != w ==> db.workloads[v].slug != db.workloads[w].slug)
  }

  ghost predicate RowsPlaced(db: World) {
    forall i :: i in db.fleet.instances ==> Placed(db.workloads, db.fleet.instances[i])
  }

  /** The invariant of the rows: no orphans, distinct slugs, minted ids,
      well-formed specs. */
  ghost predicate Sound(db: World) {
    WorkloadsSound(db) && RowsPlaced(db) && DistinctSlugs(db.fleet) && Minted(db.fleet)
  }

  /** No row without an owner sits on a slug a replica could ask for. */
  ghost predicate Clean(db: World) {
    forall i, w, k: nat ::
      i in db.fleet.instances && db.fleet.instances[i].labels.workload == None && w in db.workloads ==>
      db.fleet.instances[i].slug != ReplicaName(db.workloads[w].slug, k)
  }

  /** The states a workload rests in between calls. */
  ghost predicate AtRest(db: World, wid: WorkloadId)
    requires wid in db.workloads
  {
    var w, size := db.workloads[wid], |Owned(db.fleet, wid)|;
    || (w.state == StateActive && size == w.replicas >= 1)
    || (w.state == StatePaused && size == w.replicas == 0)
    || w.state == StateFailed
  }

  ghost predicate Resting(db: World) { forall w :: w in db.workloads ==> AtRest(db, w) }

  // ----- indices -----

  /** Owned replicas have pairwise distinct indices. */
  lemma IndicesDistinct(db: World, wid: WorkloadId, i: InstanceId, j: InstanceId)
    requires Sound(db) && i in Owned(db.fleet, wid) && j in Owned(db.fleet, wid)
    ensures i != j ==> IndexOf(db.fleet.instances[i]) != IndexOf(db.fleet.instances[j])
  {
    assert Placed(db.workloads, db.fleet.instances[i]) && Placed(db.workloads, db.fleet.instances[j]);
  }

  lemma {:induction false} ImageSize(rows: map<InstanceId, Instance>, ids: set<InstanceId>)
    requires ids <= rows.Keys
    requires forall i, j :: i in ids && j in ids && i != j ==> IndexOf(rows[i]) != IndexOf(rows[j])
    ensures |set i | i in ids :: IndexOf(rows[i])| == |ids|
  {
    if ids != {} {
      var x :| x in ids;
      ImageSize(rows, ids - {x});
      var rest := set i | i in ids - {x} :: IndexOf(rows[i]);
      assert (set i | i in ids :: IndexOf(rows[i])) == rest + {IndexOf(rows[x])};
    }
  }

  /** So there are as many indices as replicas. */
  lemma IndicesSize(db: World, wid: WorkloadId)
    requires Sound(db)
    ensures |Indices(db.fleet, wid)| == |Owned(db.fleet, wid)|
  {
    forall i, j | i in Owned(db.fleet, wid) && j in Owned(db.fleet, wid) && i != j
      ensures IndexOf(db.fleet.instances[i]) != IndexOf(db.fleet.instances[j])
    {
      IndicesDistinct(db, wid, i, j);
    }
    ImageSize(db.fleet.instances, Owned(db.fleet, wid));
  }

  predicate Between(lo: nat, k: nat, hi: nat) { lo <= k < hi }

  ghost function Interval(lo: nat, hi: nat): (s: set<nat>) { set k: nat | 0 <= k < hi && Between(lo, k, hi) }

  lemma {:induction false} IntervalSize(lo: nat, hi: nat)
    requires lo <= hi
    ensures |Interval(lo, hi)| == hi - lo
    decreases hi
  {
    if lo < hi {
      IntervalSize(lo, hi - 1);
      assert Interval(lo, hi) == Interval(lo, hi - 1) + {hi - 1};
    }
  }
}
