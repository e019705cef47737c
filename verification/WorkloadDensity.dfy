/** When the replica indices of a workload are exactly 0 .. k-1. */
module WorkloadDensity {
  import opened Common
  import opened Text
  import opened Stores
  import opened WorkloadSpec
  import opened WorkloadInvariants
  import opened WorkloadSafety
  import opened WorkloadCounts
  import opened WorkloadRuns

  /** The indices of a workload are exactly 0 .. k-1. */
  ghost predicate Dense(f: Fleet, wid: WorkloadId) {
    Indices(f, wid) == Interval(0, |Owned(f, wid)|)
  }

  ghost predicate AllDense(db: World) { forall w :: w in db.workloads ==> Dense(db.fleet, w) }

  // ----- growing -----

  lemma DenseNext(f: Fleet, wid: WorkloadId)
    requires Dense(f, wid)
    ensures IsNext(Indices(f, wid), |Owned(f, wid)|)
  {}

  lemma IntervalExtend(lo: nat, s: set<nat>)
    requires Interval(0, lo) <= s <= Interval(0, lo) + {lo}
    ensures s == Interval(0, lo) || s == Interval(0, lo + 1)
  {
    assert Interval(0, lo + 1) == Interval(0, lo) + {lo};
  }

  lemma DenseOf(f: Fleet, wid: WorkloadId, k: nat)
    requires Indices(f, wid) == Interval(0, k) && |Indices(f, wid)| == |Owned(f, wid)|
    ensures Dense(f, wid)
  {
    IntervalSize(0, k);
  }

  ghost predicate NoUnowned(f: Fleet, slug: string) {
    forall k: nat :: !UnownedOn(f, ReplicaName(slug, k))
  }

  lemma RoomIsNoUnowned(db: World, slug: string)
    requires SlugRoom(db, slug)
    ensures NoUnowned(db.fleet, slug)
  {}

  lemma SpawnedSetFull(f: Fleet, slug: string, lo: nat, stop: nat)
    requires NoUnowned(f, slug) && lo <= stop
    ensures Interval(0, lo) + SpawnedSet(f, slug, lo, stop) == Interval(0, stop)
  {}

  /** Growing from a dense set stays dense, even when a spawn fails. */
  lemma GrownDense(f: Fleet, wid: WorkloadId, w: Plan, lo: nat, hi: nat, f': Fleet, ok: bool)
    requires Grown(f, wid, w, lo, hi, f', ok) && Indices(f, wid) == Interval(0, lo)
    requires OwnedPlaced(f, wid, w.slug) && NoUnowned(f, w.slug) && |Indices(f', wid)| == |Owned(f', wid)|
    ensures Dense(f', wid)
  {
    var stop :| lo <= stop <= hi && SpawnedUpTo(f, wid, w, lo, stop, f');
    SpawnedIndices(f, wid, w, lo, stop, f');
    SpawnedSetFull(f, w.slug, lo, stop);
    IntervalExtend(stop, Indices(f', wid));
    DenseOf(f', wid, if stop in Indices(f', wid) then stop + 1 else stop);
  }

  /** What a call that only adds rows does to all workloads. */
  lemma GrowthDense(db: World, wid: WorkloadId, w: Plan, lo: nat, hi: nat, db': World, ok: bool)
    requires Countable(db.fleet, wid, w.slug) && Countable(db'.fleet, wid, w.slug) && NoUnowned(db.fleet, w.slug)
    requires Grown(db.fleet, wid, w, lo, hi, db'.fleet, ok) && Indices(db.fleet, wid) == Interval(0, lo)
    requires AllDense(db) && forall v :: v in db'.workloads && v != wid ==> v in db.workloads
    ensures AllDense(db') && RemovesHighest(db, db')
  {
    GrownDense(db.fleet, wid, w, lo, hi, db'.fleet, ok);
    GrownOthers(db.fleet, wid, w, lo, hi, db'.fleet, ok);
    OthersDense(db, wid, db');
    GrownRemovesNothing(db.fleet, wid, w, lo, hi, db'.fleet, ok);
    KeysKept(db, db');
  }

  lemma GrownRemovesNothing(f: Fleet, wid: WorkloadId, w: Plan, lo: nat, hi: nat, f': Fleet, ok: bool)
    requires Grown(f, wid, w, lo, hi, f', ok)
    ensures forall i :: i in f.instances ==> i in f'.instances && f'.instances[i] == f.instances[i]
  {}

  lemma KeysKept(db: World, db': World)
    requires forall i :: i in db.fleet.instances ==> i in db'.fleet.instances && db'.fleet.instances[i] == db.fleet.instances[i]
    ensures RemovesHighest(db, db')
  {}

  lemma OthersDense(db: World, wid: WorkloadId, db': World)
    requires AllDense(db) && OthersSame(db.fleet, db'.fleet, wid)
    requires forall v :: v in db'.workloads && v != wid ==> v in db.workloads
    requires wid in db'.workloads ==> Dense(db'.fleet, wid)
    ensures AllDense(db')
  {
    forall v | v in db'.workloads ensures Dense(db'.fleet, v) {
      if v != wid {
        assert Dense(db.fleet, v);
      }
    }
  }

  // ----- losing -----

  /** The replicas a call removed had higher indices than all it kept. */
  ghost predicate HighestRemoved(f: Fleet, f': Fleet, wid: WorkloadId) {
    forall a, b :: a in Owned(f, wid) && a in Owned(f', wid) && b in Owned(f, wid) && b !in Owned(f', wid) ==>
      IndexOf(f.instances[a]) < IndexOf(f.instances[b])
  }

  ghost predicate RemovesHighest(db: World, db': World) {
    forall w :: w in db'.workloads ==> HighestRemoved(db.fleet, db'.fleet, w)
  }

  lemma DownwardClosed(t: set<nat>, k: nat, m: nat)
    requires t <= Interval(0, k) && IsNext(t, m)
    requires forall x, y :: x in t && y in Interval(0, k) && y !in t ==> x < y
    ensures t == Interval(0, m)
  {
    assert m > 0 ==> m - 1 in t;
  }

  /** A subset of 0 .. k-1 is an initial part of it exactly when all it holds
      is below all it lacks. */
  lemma InitialPart(t: set<nat>, k: nat)
    requires t <= Interval(0, k)
    ensures t == Interval(0, |t|) <==> forall x, y :: x in t && y in Interval(0, k) && y !in t ==> x < y
  {
    if forall x, y :: x in t && y in Interval(0, k) && y !in t ==> x < y {
      var m := MaxNext(t);
      DownwardClosed(t, k, m);
      IntervalSize(0, m);
    }
  }

  lemma LostSubset(f: Fleet, wid: WorkloadId, f': Fleet)
    requires OnlyLost(f, f')
    ensures Owned(f', wid) <= Owned(f, wid)
    ensures forall i :: i in Owned(f', wid) ==> IndexOf(f'.instances[i]) == IndexOf(f.instances[i])
  {
    forall i | i in Owned(f', wid) ensures i in Owned(f, wid) {
      assert OwnedBy(f'.instances[i], wid);
    }
  }

  lemma LostIndices(db: World, wid: WorkloadId, f': Fleet)
    requires Sound(db) && OnlyLost(db.fleet, f')
    ensures Indices(f', wid) <= Indices(db.fleet, wid) && |Indices(f', wid)| == |Owned(f', wid)|
  {
    LostSubset(db.fleet, wid, f');
    forall i, j | i in Owned(f', wid) && j in Owned(f', wid) && i != j
      ensures IndexOf(f'.instances[i]) != IndexOf(f'.instances[j])
    {
      IndicesDistinct(db, wid, i, j);
    }
    ImageSize(f'.instances, Owned(f', wid));
    forall x | x in Indices(f', wid) ensures x in Indices(db.fleet, wid) {
      var i :| i in Owned(f', wid) && IndexOf(f'.instances[i]) == x;
      IndicesHas(db.fleet, wid, i);
    }
  }

  /** The index of a replica is still taken exactly when the replica stayed. */
  lemma IndexStays(db: World, wid: WorkloadId, f': Fleet, b: InstanceId)
    requires Sound(db) && OnlyLost(db.fleet, f') && b in Owned(db.fleet, wid)
    ensures IndexOf(db.fleet.instances[b]) in Indices(f', wid) <==> b in Owned(f', wid)
  {
    LostSubset(db.fleet, wid, f');
    if i :| i in Owned(f', wid) && IndexOf(f'.instances[i]) == IndexOf(db.fleet.instances[b]) {
      IndicesDistinct(db, wid, i, b);
    }
    if b in Owned(f', wid) {
      IndicesHas(f', wid, b);
    }
  }

  lemma RemovedIsOrder(db: World, wid: WorkloadId, f': Fleet)
    requires Sound(db) && OnlyLost(db.fleet, f')
    ensures var s, t := Indices(db.fleet, wid), Indices(f', wid);
      HighestRemoved(db.fleet, f', wid) <==> forall x, y :: x in t && y in s && y !in t ==> x < y
  {
    var f, s, t := db.fleet, Indices(db.fleet, wid), Indices(f', wid);
    LostSubset(f, wid, f');
    if HighestRemoved(f, f', wid) {
      forall x, y | x in t && y in s && y !in t ensures x < y {
        var a :| a in Owned(f', wid) && IndexOf(f'.instances[a]) == x;
        var b :| b in Owned(f, wid) && IndexOf(f.instances[b]) == y;
        IndexStays(db, wid, f', b);
      }
    }
    if forall x, y :: x in t && y in s && y !in t ==> x < y {
      forall a, b | a in Owned(f, wid) && a in Owned(f', wid) && b in Owned(f, wid) && b !in Owned(f', wid)
        ensures IndexOf(f.instances[a]) < IndexOf(f.instances[b])
      {
        IndexStays(db, wid, f', a);
        IndexStays(db, wid, f', b);
        IndicesHas(f, wid, b);
      }
    }
  }

  /** Losing replicas keeps the indices dense exactly when the highest ones
      were lost. */
  lemma LostDense(db: World, wid: WorkloadId, f': Fleet)
    requires Sound(db) && OnlyLost(db.fleet, f') && Dense(db.fleet, wid)
    ensures Dense(f', wid) <==> HighestRemoved(db.fleet, f', wid)
  {
    LostIndices(db, wid, f');
    RemovedIsOrder(db, wid, f');
    InitialPart(Indices(f', wid), |Owned(db.fleet, wid)|);
  }

  lemma LossDense(db: World, db': World)
    requires Sound(db) && AllDense(db) && OnlyLost(db.fleet, db'.fleet) && db'.workloads.Keys <= db.workloads.Keys
    ensures AllDense(db') <==> RemovesHighest(db, db')
  {
    forall v | v in db'.workloads ensures Dense(db'.fleet, v) <==> HighestRemoved(db.fleet, db'.fleet, v) {
      assert v in db.workloads;
      LostDense(db, v, db'.fleet);
    }
  }

  // ----- the operations -----

  lemma ScaleDense(db: World, wid: WorkloadId, n: int, db': World, ok: bool)
    requires Sound(db) && Clean(db) && AllDense(db) && Scaled(db, wid, n, db', ok)
    ensures AllDense(db') <==> RemovesHighest(db, db')
  {
    if n < 0 || wid !in db.workloads || !ValidTransition(db.workloads[wid].state, StateScaling) {
      LossDense(db, db');
    } else if n > |Owned(db.fleet, wid)| {
      ScaleGrows(db, wid, n, db', ok);
    } else {
      ShrunkOnlyLoses(db.fleet, wid, n, db'.fleet, ok);
      LossDense(db, db');
    }
  }

  lemma ScaleGrows(db: World, wid: WorkloadId, n: nat, db': World, ok: bool)
    requires Sound(db) && Clean(db) && AllDense(db) && wid in db.workloads && Scaled(db, wid, n, db', ok)
    requires n > |Owned(db.fleet, wid)| && ValidTransition(db.workloads[wid].state, StateScaling)
    ensures AllDense(db') && RemovesHighest(db, db')
  {
    var w := PlanOf(db.workloads[wid]);
    ScaledCountable(db, wid, n, db', ok);
    CleanRoom(db, wid);
    RoomIsNoUnowned(db, w.slug);
    assert Dense(db.fleet, wid);
    DenseNext(db.fleet, wid);
    GrownAt(db.fleet, wid, w, n, db'.fleet, |Owned(db.fleet, wid)|, ok);
    GrowthDense(db, wid, w, |Owned(db.fleet, wid)|, n, db', ok);
  }

  lemma CreateDense(db: World, name: string, services: seq<Service>, replicas: int, db': World, ok: bool)
    requires Sound(db) && SlugRoom(db, WorkloadSlug(name)) && AllDense(db) && Created(db, name, services, replicas, db', ok)
    ensures AllDense(db') && RemovesHighest(db, db')
  {
    if db' != db {
      var wid, n: nat := db.nextWorkload, if replicas <= 0 then 1 else replicas;
      var w := PlanOf(db'.workloads[wid]);
      CreateKeeps(db, name, services, replicas, db', ok);
      NobodyOwnsNew(db);
      SoundIsCountable(db, wid, w.slug);
      SoundIsCountable(db', wid, w.slug);
      RoomIsNoUnowned(db, w.slug);
      GrowthDense(db, wid, w, 0, n, db', ok);
    }
  }

  lemma StampDense(db: World, wid: WorkloadId)
    requires AllDense(db)
    ensures AllDense(Stamped(db, wid))
  {
    forall v | v in Stamped(db, wid).workloads ensures Dense(db.fleet, v) {
      assert v in db.workloads;
    }
  }

  lemma PauseDense(db: World, wid: WorkloadId, db': World, ok: bool)
    requires Sound(db) && Clean(db) && AllDense(db) && Paused(db, wid, db', ok)
    ensures AllDense(db') <==> RemovesHighest(db, db')
  {
    StampKeeps(db, wid);
    StampClean(db, wid);
    StampDense(db, wid);
    ScaleDense(Stamped(db, wid), wid, 0, db', ok);
  }

  lemma ResumeDense(db: World, wid: WorkloadId, db': World, ok: bool)
    requires Sound(db) && Clean(db) && AllDense(db) && Resumed(db, wid, db', ok)
    ensures AllDense(db') <==> RemovesHighest(db, db')
  {
    ScaleDense(db, wid, if wid in db.workloads then ResumeTarget(db.workloads[wid]) else 0, db', ok);
  }

  /** After any call the indices of all workloads are dense exactly when the
      call removed no replica below one it kept. */
  lemma StepDense(db: World, op: Op, db': World, ok: bool)
    requires Sound(db) && Clean(db) && Room(db, op) && AllDense(db) && Step(db, op, db', ok)
    ensures AllDense(db') <==> RemovesHighest(db, db')
  {
    match op
    case OpCreate(name, services, replicas) => CreateDense(db, name, services, replicas, db', ok);
    case OpScale(wid, n) => ScaleDense(db, wid, n, db', ok);
    case OpPause(wid) => PauseDense(db, wid, db', ok);
    case OpResume(wid) => ResumeDense(db, wid, db', ok);
    case OpDeploy(_, _, _) => LossDense(db, db');
    case OpDelete(_) => LossDense(db, db');
  }

  // ----- successful calls -----

  lemma ScaleSuccess(db: World, wid: WorkloadId, n: int, db': World)
    requires Sound(db) && Scaled(db, wid, n, db', true)
    ensures RemovesHighest(db, db')
  {
    if n > |Owned(db.fleet, wid)| {
      var lo: nat :| GrownFrom(db.fleet, wid, PlanOf(db.workloads[wid]), n, lo, db'.fleet, true);
      GrownRemovesNothing(db.fleet, wid, PlanOf(db.workloads[wid]), lo, lo + (n - |Owned(db.fleet, wid)|), db'.fleet, true);
      KeysKept(db, db');
    } else {
      ShrinkKeepsLowest(db, wid, n, db'.fleet);
      ShrunkOthers(db.fleet, wid, n, db'.fleet, true);
    }
  }

  lemma DeleteSuccess(db: World, wid: WorkloadId, db': World)
    requires Deleted(db, wid, db', true)
    ensures RemovesHighest(db, db')
  {
    LostOthers(db.fleet, wid, db'.fleet);
  }

  /** A successful call removes none below one it keeps. */
  lemma SuccessRemovesHighest(db: World, op: Op, db': World)
    requires Sound(db) && Step(db, op, db', true)
    ensures RemovesHighest(db, db')
  {
    match op
    case OpCreate(name, services, replicas) =>
      var wid, n: nat := db.nextWorkload, if replicas <= 0 then 1 else replicas;
      GrownRemovesNothing(db.fleet, wid, PlanOf(db'.workloads[wid]), 0, n, db'.fleet, true);
      KeysKept(db, db');
    case OpScale(wid, n) => ScaleSuccess(db, wid, n, db');
    case OpPause(wid) =>
      StampKeeps(db, wid);
      ScaleSuccess(Stamped(db, wid), wid, 0, db');
    case OpResume(wid) => ScaleSuccess(db, wid, ResumeTarget(db.workloads[wid]), db');
    case OpDeploy(_, _, _) => KeysKept(db, db');
    case OpDelete(wid) => DeleteSuccess(db, wid, db');
  }

  // ----- runs -----

  /** A call that succeeds, or fails without removing a replica below one it
      keeps. */
  ghost predicate TidyStep(db: World, op: Op, db': World, ok: bool) {
    RoomyStep(db, op, db', ok) && (ok || RemovesHighest(db, db'))
  }

  ghost predicate CalmDense(db: World) { Calm(db) && AllDense(db) }

  lemma TidyStepDense(db: World, op: Op, db': World, ok: bool)
    requires CalmDense(db) && TidyStep(db, op, db', ok)
    ensures CalmDense(db')
  {
    StepKeepsCalm(db, op, db', ok);
    StepDense(db, op, db', ok);
    if ok {
      SuccessRemovesHighest(db, op, db');
    }
  }

  /** While no failed call removes a replica below one it keeps, every workload
      owns exactly the indices 0 .. k-1, other failures and refusals
      notwithstanding. */
  lemma RunDense(dbs: seq<World>, ops: seq<Op>, oks: seq<bool>)
    requires Chained(TidyStep, dbs, ops, oks) && Calm(dbs[0]) && AllDense(dbs[0])
    ensures AllDense(dbs[|ops|])
  {
    forall db, op, db', ok | CalmDense(db) && TidyStep(db, op, db', ok) ensures CalmDense(db') {
      TidyStepDense(db, op, db', ok);
    }
    Inductive(CalmDense, TidyStep, dbs, ops, oks);
  }

  // ----- gaps -----

  lemma ShrinkStops(db: World, wid: WorkloadId, n: nat, order: seq<InstanceId>, stop: nat, f': Fleet)
    requires ShrunkBy(db.fleet, wid, n, order, stop, f', false)
    ensures f'.instances.Keys == db.fleet.instances.Keys - Elems(order[n..stop])
    ensures order[stop] in Owned(db.fleet, wid) && order[stop] in f'.instances && f'.instances[order[stop]].state == InstanceFailed
    ensures f'.instances[order[stop]] == db.fleet.instances[order[stop]].(state := InstanceFailed)
  {
    assert order[stop] in Elems(order);
    assert order[stop] !in Elems(order[n..stop]);
  }

  /** A failed Scale down keeps the indices dense exactly when it removed
      nothing: when the first victim was the one whose deletion failed. */
  lemma FailedShrinkDense(db: World, wid: WorkloadId, n: nat, db': World)
    requires Sound(db) && wid in db.workloads && Dense(db.fleet, wid)
    requires n <= |Owned(db.fleet, wid)| && Scaled(db, wid, n, db', false)
    ensures Dense(db'.fleet, wid) <==> db'.fleet.instances.Keys == db.fleet.instances.Keys
  {
    if ValidTransition(db.workloads[wid].state, StateScaling) {
      var f, f' := db.fleet, db'.fleet;
      var order: seq<InstanceId>, stop: nat :| ShrunkBy(f, wid, n, order, stop, f', false);
      ShrunkOnlyLoses(f, wid, n, f', false);
      LostDense(db, wid, f');
      ShrinkStops(db, wid, n, order, stop, f');
      if stop > n {
        LowestVictimGone(f, wid, n, order, stop, f');
      } else {
        assert f'.instances.Keys == f.instances.Keys;
      }
    }
  }

  lemma LowestVictimGone(f: Fleet, wid: WorkloadId, n: nat, order: seq<InstanceId>, stop: nat, f': Fleet)
    requires ShrunkBy(f, wid, n, order, stop, f', false) && n < stop && f'.instances.Keys == f.instances.Keys - Elems(order[n..stop])
    requires f'.instances[order[stop]] == f.instances[order[stop]].(state := InstanceFailed)
    ensures order[n] in f.instances && order[n] !in f'.instances && !HighestRemoved(f, f', wid)
  {
    assert order[n..stop][0] == order[n];
    assert order[n] in Elems(order) && order[stop] in Elems(order);
    assert order[stop] in Owned(f', wid) && order[n] !in Owned(f', wid);
  }

  /** Such a gap does arise: any Scale down by two or more may remove its
      first victim and fail on the second. */
  lemma ShrinkMayLeaveGap(db: World, wid: WorkloadId, n: nat, order: seq<InstanceId>) returns (db': World)
    requires Sound(db) && wid in db.workloads && ValidTransition(db.workloads[wid].state, StateScaling)
    requires Dense(db.fleet, wid) && ReplicaOrder(db.fleet, wid, order) && n + 1 < |order|
    ensures Scaled(db, wid, n, db', false) && !Dense(db'.fleet, wid)
  {
    var f' := db.fleet.(instances := Without(db.fleet, order, n, n + 1));
    db' := db.(workloads := db.workloads[wid := db.workloads[wid].(state := StateFailed)], fleet := f');
    ElemsSize(order);
    assert ShrunkBy(db.fleet, wid, n, order, n + 1, f', false);
    ShrinkStops(db, wid, n, order, n + 1, f');
    LowestVictimGone(db.fleet, wid, n, order, n + 1, f');
    FailedShrinkDense(db, wid, n, db');
  }

  // ----- reuse of names -----

  lemma SlugIsIndex(db: World, wid: WorkloadId, slug: string, x: nat)
    requires Sound(db) && wid in db.workloads && db.workloads[wid].slug == slug
    ensures (exists i :: i in Owned(db.fleet, wid) && db.fleet.instances[i].slug == ReplicaName(slug, x)) <==> x in Indices(db.fleet, wid)
  {
    forall i | i in Owned(db.fleet, wid) ensures db.fleet.instances[i].slug == ReplicaName(slug, x) <==> IndexOf(db.fleet.instances[i]) == x {
      assert Placed(db.workloads, db.fleet.instances[i]);
      ReplicaNameInjectiveIf(slug, x, IndexOf(db.fleet.instances[i]), db.fleet.instances[i].slug);
    }
    if x in Indices(db.fleet, wid) {
      var i :| i in Owned(db.fleet, wid) && IndexOf(db.fleet.instances[i]) == x;
    }
  }

  lemma SpawnedAllOf(f: Fleet, slug: string, lo: nat, hi: nat)
    requires Adopted(f, slug, lo, hi) == {}
    ensures SpawnedSet(f, slug, lo, hi) == Interval(lo, hi)
  {}

  /** The indices after growing where nothing is adopted. */
  lemma FilledIndices(f: Fleet, wid: WorkloadId, w: Plan, m: nat, lo: nat, f': Fleet)
    requires OwnedPlaced(f, wid, w.slug) && Resized(f, wid, w, m, f', true)
    requires m > |Owned(f, wid)| && IsNext(Indices(f, wid), lo) && Adopted(f, w.slug, lo, lo + (m - |Owned(f, wid)|)) == {}
    ensures Indices(f', wid) == Indices(f, wid) + Interval(lo, lo + (m - |Owned(f, wid)|))
  {
    var hi := lo + (m - |Owned(f, wid)|);
    GrownAt(f, wid, w, m, f', lo, true);
    GrownIndices(f, wid, w, lo, hi, f');
    SpawnedAllOf(f, w.slug, lo, hi);
  }

  lemma ScaledResized(db: World, wid: WorkloadId, m: nat, db': World)
    requires Scaled(db, wid, m, db', true)
    ensures wid in db.workloads && Resized(db.fleet, wid, PlanOf(db.workloads[wid]), m, db'.fleet, true)
  {}

  lemma CleanAdopts(db: World, wid: WorkloadId, lo: nat, hi: nat)
    requires Clean(db) && wid in db.workloads
    ensures Adopted(db.fleet, db.workloads[wid].slug, lo, hi) == {}
  {
    CleanRoom(db, wid);
    CleanAdoptsNothing(db, db.workloads[wid].slug, lo, hi);
  }

  lemma FillScaled(db: World, wid: WorkloadId, m: nat, lo: nat, db': World, hi: nat)
    requires Scaled(db, wid, m, db', true) && m > |Owned(db.fleet, wid)| && IsNext(Indices(db.fleet, wid), lo)
    requires wid in db.workloads && OwnedPlaced(db.fleet, wid, db.workloads[wid].slug)
    requires hi == lo + (m - |Owned(db.fleet, wid)|) && Adopted(db.fleet, db.workloads[wid].slug, lo, hi) == {}
    ensures Indices(db'.fleet, wid) == Indices(db.fleet, wid) + Interval(lo, hi)
  {
    ScaledResized(db, wid, m, db');
    FilledIndices(db.fleet, wid, PlanOf(db.workloads[wid]), m, lo, db'.fleet);
  }

  lemma GrownFill(db: World, wid: WorkloadId, m: nat, lo: nat, db': World)
    requires Sound(db) && Clean(db) && Scaled(db, wid, m, db', true)
    requires m > |Owned(db.fleet, wid)| && IsNext(Indices(db.fleet, wid), lo)
    ensures Indices(db'.fleet, wid) == Indices(db.fleet, wid) + Interval(lo, lo + (m - |Owned(db.fleet, wid)|))
  {
    var hi := lo + (m - |Owned(db.fleet, wid)|);
    OwnedArePlaced(db, wid, db.workloads[wid].slug);
    CleanAdopts(db, wid, lo, hi);
    FillScaled(db, wid, m, lo, db', hi);
  }

  /** A removed replica's index is free, and not below the next one. */
  lemma RemovedAbove(db: World, wid: WorkloadId, f1: Fleet, b: InstanceId, lo: nat)
    requires Sound(db) && OnlyLost(db.fleet, f1) && HighestRemoved(db.fleet, f1, wid) && IsNext(Indices(f1, wid), lo)
    requires b in Owned(db.fleet, wid) && b !in Owned(f1, wid)
    ensures var x := IndexOf(db.fleet.instances[b]); x !in Indices(f1, wid) && x >= lo
  {
    IndexStays(db, wid, f1, b);
    LostSubset(db.fleet, wid, f1);
    if lo > 0 {
      var a :| a in Owned(f1, wid) && IndexOf(f1.instances[a]) == lo - 1;
      assert a in Owned(db.fleet, wid);
    }
  }

  lemma ShrinkKeepsShape(db: World, wid: WorkloadId, n: nat, db1: World)
    requires Sound(db) && Clean(db) && n <= |Owned(db.fleet, wid)| && Scaled(db, wid, n, db1, true)
    ensures wid in db.workloads && wid in db1.workloads && db1.workloads[wid].slug == db.workloads[wid].slug
    ensures Sound(db1) && Clean(db1) && |Owned(db1.fleet, wid)| == n
    ensures OnlyLost(db.fleet, db1.fleet) && HighestRemoved(db.fleet, db1.fleet, wid)
  {
    ScaleKeeps(db, wid, n, db1, true);
    StepKeepsClean(db, OpScale(wid, n), db1, true);
    ShrunkOnlyLoses(db.fleet, wid, n, db1.fleet, true);
    ShrinkKeepsLowest(db, wid, n, db1.fleet);
  }

  lemma ShrinkFrees(db: World, wid: WorkloadId, n: nat, db1: World, b: InstanceId, lo: nat)
    requires Sound(db) && Clean(db) && n <= |Owned(db.fleet, wid)| && Scaled(db, wid, n, db1, true)
    requires b in Owned(db.fleet, wid) && b !in Owned(db1.fleet, wid) && IsNext(Indices(db1.fleet, wid), lo)
    ensures Sound(db1) && Clean(db1) && |Owned(db1.fleet, wid)| == n
    ensures var x := IndexOf(db.fleet.instances[b]); x !in Indices(db1.fleet, wid) && x >= lo
  {
    ShrinkKeepsShape(db, wid, n, db1);
    RemovedAbove(db, wid, db1.fleet, b, lo);
  }

  lemma FilledHas(db1: World, wid: WorkloadId, n: nat, m: nat, lo: nat, db2: World, x: nat)
    requires Sound(db1) && Clean(db1) && |Owned(db1.fleet, wid)| == n < m && Scaled(db1, wid, m, db2, true)
    requires IsNext(Indices(db1.fleet, wid), lo) && x !in Indices(db1.fleet, wid) && x >= lo
    ensures x in Indices(db2.fleet, wid) <==> x < lo + (m - n)
  {
    GrownFill(db1, wid, m, lo, db2);
  }

  lemma OwnedSlug(db: World, wid: WorkloadId, b: InstanceId)
    requires Sound(db) && wid in db.workloads && b in Owned(db.fleet, wid)
    ensures db.fleet.instances[b].slug == ReplicaName(db.workloads[wid].slug, IndexOf(db.fleet.instances[b]))
  {
    assert Placed(db.workloads, db.fleet.instances[b]);
  }

  lemma SameSlug(db: World, wid: WorkloadId, n: nat, db1: World)
    requires WorkloadsSound(db) && Scaled(db, wid, n, db1, true)
    ensures wid in db.workloads && wid in db1.workloads && db1.workloads[wid].slug == db.workloads[wid].slug
  {}

  /** Scale down to n, then up to m > n, both succeeding: the name of a
      replica removed by the first is taken again by the second exactly when
      its index lies among the m - n from the next free one, `lo`, on. */
  lemma NameReused(db: World, wid: WorkloadId, n: nat, db1: World, m: nat, db2: World, b: InstanceId, lo: nat)
    requires Sound(db) && Clean(db) && n < m
    requires Scaled(db, wid, n, db1, true) && Scaled(db1, wid, m, db2, true)
    requires b in Owned(db.fleet, wid) && b !in Owned(db1.fleet, wid) && IsNext(Indices(db1.fleet, wid), lo)
    ensures (exists i :: i in Owned(db2.fleet, wid) && db2.fleet.instances[i].slug == db.fleet.instances[b].slug)
      <==> IndexOf(db.fleet.instances[b]) < lo + (m - n)
  {
    ShrinkFrees(db, wid, n, db1, b, lo);
    FilledHas(db1, wid, n, m, lo, db2, IndexOf(db.fleet.instances[b]));
    SameSlug(db, wid, n, db1);
    ScaleKeeps(db, wid, n, db1, true);
    SameSlug(db1, wid, m, db2);
    ScaleKeeps(db1, wid, m, db2, true);
    OwnedSlug(db, wid, b);
    SlugIsIndex(db2, wid, db.workloads[wid].slug, IndexOf(db.fleet.instances[b]));
  }

  /** From indices 0 .. k-1, scaling down and back up to k takes every removed
      name again: 3 to 1 to 3 reuses both. */
  lemma BackAndForthReuses(db: World, wid: WorkloadId, n: nat, db1: World, db2: World, b: InstanceId)
    requires Sound(db) && Clean(db) && Dense(db.fleet, wid) && n < |Owned(db.fleet, wid)|
    requires Scaled(db, wid, n, db1, true) && Scaled(db1, wid, |Owned(db.fleet, wid)|, db2, true)
    requires b in Owned(db.fleet, wid) && b !in Owned(db1.fleet, wid)
    ensures exists i :: i in Owned(db2.fleet, wid) && db2.fleet.instances[i].slug == db.fleet.instances[b].slug
  {
    var k := |Owned(db.fleet, wid)|;
    ShrinkKeepsShape(db, wid, n, db1);
    LostDense(db, wid, db1.fleet);
    DenseNext(db1.fleet, wid);
    NameReused(db, wid, n, db1, k, db2, b, n);
    IndicesHas(db.fleet, wid, b);
  }

  // ----- when a gap can arise -----

  /** How many replicas of one workload a call sets out to remove. */
  ghost function ToRemove(db: World, op: Op): nat {
    match op
    case OpCreate(_, _, _) => 0
    case OpDeploy(_, _, _) => 0
    case OpScale(wid, n) => ScaleRemoves(db, wid, n)
    case OpPause(wid) => ScaleRemoves(db, wid, 0)
    case OpResume(wid) => if wid in db.workloads then ScaleRemoves(db, wid, ResumeTarget(db.workloads[wid])) else 0
    case OpDelete(wid) => if wid in db.workloads then |Owned(db.fleet, wid)| else 0
  }

  ghost function ScaleRemoves(db: World, wid: WorkloadId, n: int): nat {
    if n < 0 || wid !in db.workloads || !ValidTransition(db.workloads[wid].state, StateScaling) || n >= |Owned(db.fleet, wid)| then 0
    else |Owned(db.fleet, wid)| - n
  }

  lemma OrderExists(f: Fleet, wid: WorkloadId) returns (order: seq<InstanceId>)
    ensures ReplicaOrder(f, wid, order)
  {
    order := OrderOf(f, wid, Owned(f, wid));
  }

  lemma {:induction false} OrderOf(f: Fleet, wid: WorkloadId, ids: set<InstanceId>) returns (order: seq<InstanceId>)
    requires ids <= Owned(f, wid)
    ensures Distinct(order) && Elems(order) == ids && (forall i :: 0 <= i < |order| ==> order[i] in f.instances)
    ensures forall i, j :: 0 <= i < j < |order| ==> IndexOf(f.instances[order[i]]) <= IndexOf(f.instances[order[j]])
  {
    if ids == {} {
      return [];
    }
    var top := HighestOf(f, wid, ids);
    var init := OrderOf(f, wid, ids - {top});
    order := init + [top];
    assert forall i :: 0 <= i < |init| ==> init[i] in Elems(init);
    assert Elems(order) == Elems(init) + {top};
  }

  lemma {:induction false} HighestOf(f: Fleet, wid: WorkloadId, ids: set<InstanceId>) returns (top: InstanceId)
    requires ids <= Owned(f, wid) && ids != {}
    ensures top in ids && forall i :: i in ids ==> IndexOf(f.instances[i]) <= IndexOf(f.instances[top])
  {
    var x :| x in ids;
    top := x;
    if ids != {x} {
      var y := HighestOf(f, wid, ids - {x});
      top := if IndexOf(f.instances[x]) <= IndexOf(f.instances[y]) then y else x;
      forall i | i in ids ensures IndexOf(f.instances[i]) <= IndexOf(f.instances[top]) {
        assert i == x || i in ids - {x};
      }
    }
  }

  lemma ScaleMayLeaveGap(db: World, wid: WorkloadId, n: nat) returns (db': World)
    requires Sound(db) && AllDense(db) && ScaleRemoves(db, wid, n) >= 2
    ensures Scaled(db, wid, n, db', false) && !AllDense(db')
  {
    var order := OrderExists(db.fleet, wid);
    ElemsSize(order);
    assert Dense(db.fleet, wid);
    db' := ShrinkMayLeaveGap(db, wid, n, order);
  }

  /** A deletion that succeeds for one replica and fails for all others. */
  ghost function OnlyGone(f: Fleet, wid: WorkloadId, b: InstanceId): Fleet {
    f.(instances := map i | i in f.instances && i != b ::
         if OwnedBy(f.instances[i], wid) then f.instances[i].(state := InstanceFailed) else f.instances[i])
  }

  lemma OnlyGoneFacts(f: Fleet, wid: WorkloadId, a: InstanceId, b: InstanceId)
    requires a in Owned(f, wid) && b in Owned(f, wid) && a != b
    ensures var f' := OnlyGone(f, wid, b);
      Emptied(f, wid, f', false) && OnlyLost(f, f') && a in Owned(f', wid) && b !in Owned(f', wid)
  {
    assert a in OnlyGone(f, wid, b).instances;
  }

  /** Of two replicas the lower goes and the higher, with all others, stays. */
  lemma DeleteMayLeaveGap(db: World, wid: WorkloadId) returns (db': World)
    requires Sound(db) && AllDense(db) && wid in db.workloads && |Owned(db.fleet, wid)| >= 2
    ensures Deleted(db, wid, db', false) && !AllDense(db')
  {
    var order := OrderExists(db.fleet, wid);
    ElemsSize(order);
    var b, a := order[0], order[1];
    assert a in Elems(order) && b in Elems(order);
    OnlyGoneFacts(db.fleet, wid, a, b);
    db' := db.(workloads := db.workloads[wid := db.workloads[wid].(state := StateFailed)], fleet := OnlyGone(db.fleet, wid, b));
    assert Dense(db.fleet, wid);
    LostDense(db, wid, db'.fleet);
  }

  ghost predicate MayLeaveGap(db: World, op: Op) { exists db', ok :: Step(db, op, db', ok) && !AllDense(db') }

  lemma TwoLeaveGap(db: World, op: Op)
    requires Sound(db) && AllDense(db) && ToRemove(db, op) >= 2
    ensures MayLeaveGap(db, op)
  {
    match op {
      case OpScale(wid, n) =>
        var db' := ScaleMayLeaveGap(db, wid, n);
        assert Step(db, op, db', false);
      case OpPause(wid) =>
        StampKeeps(db, wid);
        StampDense(db, wid);
        var db' := ScaleMayLeaveGap(Stamped(db, wid), wid, 0);
        assert Step(db, op, db', false);
      case OpResume(wid) =>
        var db' := ScaleMayLeaveGap(db, wid, ResumeTarget(db.workloads[wid]));
        assert Step(db, op, db', false);
      case OpDelete(wid) =>
        var db' := DeleteMayLeaveGap(db, wid);
        assert Step(db, op, db', false);
      case _ =>
    }
  }

  lemma FewShrinkTidy(db: World, wid: WorkloadId, n: nat, db': World)
    requires Shrunk(db.fleet, wid, n, db'.fleet, false) && |Owned(db.fleet, wid)| < n + 2
    ensures RemovesHighest(db, db')
  {
    var order: seq<InstanceId>, stop: nat :| ShrunkBy(db.fleet, wid, n, order, stop, db'.fleet, false);
    ElemsSize(order);
    ShrinkStops(db, wid, n, order, stop, db'.fleet);
    assert stop == n && order[n..stop] == [];
    ShrunkOnlyLoses(db.fleet, wid, n, db'.fleet, false);
    SameKeysTidy(db, db');
  }

  lemma FewScaleTidy(db: World, wid: WorkloadId, n: int, db': World)
    requires Sound(db) && Clean(db) && AllDense(db) && Scaled(db, wid, n, db', false) && ScaleRemoves(db, wid, n) < 2
    ensures AllDense(db')
  {
    ScaleDense(db, wid, n, db', false);
    if n < 0 || wid !in db.workloads || !ValidTransition(db.workloads[wid].state, StateScaling) {
      KeysKept(db, db');
    } else if n > |Owned(db.fleet, wid)| {
      ScaleGrows(db, wid, n, db', false);
    } else {
      FewShrinkTidy(db, wid, n, db');
    }
  }

  lemma SameKeysTidy(db: World, db': World)
    requires db'.fleet.instances.Keys == db.fleet.instances.Keys
    requires forall i :: i in db'.fleet.instances ==> db'.fleet.instances[i].labels == db.fleet.instances[i].labels
    ensures RemovesHighest(db, db')
  {}

  lemma LoneHighest(f: Fleet, f': Fleet, wid: WorkloadId)
    requires |Owned(f, wid)| < 2
    ensures HighestRemoved(f, f', wid)
  {
    forall a, b ensures a in Owned(f, wid) && b in Owned(f, wid) ==> a == b {
      TwoMembers(Owned(f, wid), a, b);
    }
  }

  lemma LoneRemoves(db: World, wid: WorkloadId, db': World)
    requires OthersSame(db.fleet, db'.fleet, wid) && |Owned(db.fleet, wid)| < 2
    ensures RemovesHighest(db, db')
  {
    LoneHighest(db.fleet, db'.fleet, wid);
  }

  lemma DeleteOthers(db: World, wid: WorkloadId, db': World, ok: bool)
    requires Deleted(db, wid, db', ok)
    ensures OnlyLost(db.fleet, db'.fleet) && db'.workloads.Keys <= db.workloads.Keys
    ensures OthersSame(db.fleet, db'.fleet, wid) && (wid !in db.workloads ==> db' == db)
  {
    LostOthers(db.fleet, wid, db'.fleet);
  }

  lemma FewDeleteTidy(db: World, wid: WorkloadId, db': World, ok: bool)
    requires Sound(db) && AllDense(db) && Deleted(db, wid, db', ok) && (wid in db.workloads ==> |Owned(db.fleet, wid)| < 2)
    ensures AllDense(db')
  {
    DeleteOthers(db, wid, db', ok);
    LossDense(db, db');
    if wid in db.workloads {
      LoneRemoves(db, wid, db');
    }
  }

  lemma TwoMembers(s: set<InstanceId>, a: InstanceId, b: InstanceId)
    ensures a in s && b in s && a != b ==> |s| >= 2
  {
    if a in s && b in s && a != b {
      SubsetSize({a, b}, s);
    }
  }

  lemma FewLeaveNone(db: World, op: Op, db': World, ok: bool)
    requires Sound(db) && Clean(db) && Room(db, op) && AllDense(db) && Step(db, op, db', ok) && ToRemove(db, op) < 2
    ensures AllDense(db')
  {
    StepDense(db, op, db', ok);
    if ok {
      SuccessRemovesHighest(db, op, db');
    } else {
      match op
      case OpCreate(name, services, replicas) => CreateDense(db, name, services, replicas, db', ok);
      case OpScale(wid, n) => FewScaleTidy(db, wid, n, db');
      case OpPause(wid) =>
        StampKeeps(db, wid);
        StampClean(db, wid);
        StampDense(db, wid);
        FewScaleTidy(Stamped(db, wid), wid, 0, db');
      case OpResume(wid) => FewScaleTidy(db, wid, if wid in db.workloads then ResumeTarget(db.workloads[wid]) else -1, db');
      case OpDeploy(_, _, _) => KeysKept(db, db');
      case OpDelete(wid) => FewDeleteTidy(db, wid, db', ok);
    }
  }

  /** Some pattern of provider failures makes a call leave a gap in a dense
      index set exactly when the call sets out to remove two or more replicas
      of one workload. */
  lemma GapExactly(db: World, op: Op)
    requires Sound(db) && Clean(db) && Room(db, op) && AllDense(db)
    ensures MayLeaveGap(db, op) <==> ToRemove(db, op) >= 2
  {
    if ToRemove(db, op) >= 2 {
      TwoLeaveGap(db, op);
    } else {
      forall db', ok | Step(db, op, db', ok) ensures AllDense(db') {
        FewLeaveNone(db, op, db', ok);
      }
    }
  }
}
