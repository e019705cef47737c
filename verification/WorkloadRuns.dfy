/** Runs of workload operations: what holds after every call of every run,
    with the provider failing whenever it likes. */
module WorkloadRuns {
  import opened Common
  import opened Text
  import opened ReleaseChain
  import opened Stores
  import opened WorkloadSpec
  import opened WorkloadInvariants
  import opened WorkloadSafety
  import opened WorkloadCounts

  datatype Op =
    | OpCreate(name: string, services: seq<Service>, replicas: int)
    | OpScale(wid: WorkloadId, n: int)
    | OpPause(wid: WorkloadId)
    | OpResume(wid: WorkloadId)
    | OpDeploy(wid: WorkloadId, request: seq<Item>, strategy: string)
    | OpDelete(wid: WorkloadId)

  ghost predicate Step(db: World, op: Op, db': World, ok: bool) {
    match op
    case OpCreate(name, services, replicas) => Created(db, name, services, replicas, db', ok)
    case OpScale(wid, n) => Scaled(db, wid, n, db', ok)
    case OpPause(wid) => Paused(db, wid, db', ok)
    case OpResume(wid) => Resumed(db, wid, db', ok)
    case OpDeploy(wid, request, strategy) => Redeployed(db, wid, request, strategy, db', ok)
    case OpDelete(wid) => Deleted(db, wid, db', ok)
  }

  lemma StepKeepsSound(db: World, op: Op, db': World, ok: bool)
    requires Sound(db) && Step(db, op, db', ok)
    ensures Sound(db')
  {
    match op
    case OpCreate(name, services, replicas) => CreateKeeps(db, name, services, replicas, db', ok);
    case OpScale(wid, n) => ScaleKeeps(db, wid, n, db', ok);
    case OpPause(wid) => PauseKeeps(db, wid, db', ok);
    case OpResume(wid) => ResumeKeeps(db, wid, db', ok);
    case OpDeploy(wid, request, strategy) => DeployKeeps(db, wid, request, strategy, db', ok);
    case OpDelete(wid) => DeleteKeeps(db, wid, db', ok);
  }

  // ----- unlabelled rows stay off replica slugs -----

  /** No row without an owner sits on a slug of the workload being created. */
  ghost predicate Room(db: World, op: Op) {
    op.OpCreate? ==> SlugRoom(db, WorkloadSlug(op.name))
  }

  ghost predicate SlugRoom(db: World, slug: string) {
    forall i, k: nat :: i in db.fleet.instances && db.fleet.instances[i].labels.workload == None ==>
      db.fleet.instances[i].slug != ReplicaName(slug, k)
  }

  /** No operation makes a row without an owner, or moves one. */
  ghost predicate UnownedKept(f: Fleet, f': Fleet) {
    forall i :: i in f'.instances && f'.instances[i].labels.workload == None ==>
      i in f.instances && f.instances[i].labels.workload == None && f.instances[i].slug == f'.instances[i].slug
  }

  lemma GrownUnowned(f: Fleet, wid: WorkloadId, w: Plan, lo: nat, hi: nat, f': Fleet, ok: bool)
    requires Grown(f, wid, w, lo, hi, f', ok)
    ensures UnownedKept(f, f')
  {
    var stop :| lo <= stop <= hi && SpawnedUpTo(f, wid, w, lo, stop, f');
    forall i | i in f'.instances && i !in f.instances ensures f'.instances[i].labels.workload != None {
      NewIndexSpawned(f, wid, w, lo, stop, f', i);
    }
  }

  lemma ResizedUnowned(f: Fleet, wid: WorkloadId, w: Plan, n: nat, f': Fleet, ok: bool)
    requires Resized(f, wid, w, n, f', ok)
    ensures UnownedKept(f, f')
  {
    var more := n - |Owned(f, wid)|;
    if more > 0 {
      var lo: nat :| GrownFrom(f, wid, w, n, lo, f', ok);
      GrownUnowned(f, wid, w, lo, lo + more, f', ok);
    } else {
      ShrunkOnlyLoses(f, wid, n, f', ok);
    }
  }

  lemma StepUnowned(db: World, op: Op, db': World, ok: bool)
    requires Step(db, op, db', ok)
    ensures UnownedKept(db.fleet, db'.fleet)
  {
    if db' != db {
      match op
      case OpCreate(name, services, replicas) =>
        var n: nat := if replicas <= 0 then 1 else replicas;
        GrownUnowned(db.fleet, db.nextWorkload, PlanOf(db'.workloads[db.nextWorkload]), 0, n, db'.fleet, ok);
      case OpScale(wid, n) => ResizedUnowned(db.fleet, wid, PlanOf(db.workloads[wid]), n, db'.fleet, ok);
      case OpPause(wid) =>
        if db'.fleet != db.fleet {
          ResizedUnowned(db.fleet, wid, PlanOf(db.workloads[wid]), 0, db'.fleet, ok);
        }
      case OpResume(wid) =>
        ResizedUnowned(db.fleet, wid, PlanOf(db.workloads[wid]), ResumeTarget(db.workloads[wid]), db'.fleet, ok);
      case OpDeploy(_, _, _) =>
      case OpDelete(wid) =>
    }
  }

  ghost predicate SlugsFrom(db: World, op: Op, db': World) {
    forall v :: v in db'.workloads ==>
      if v in db.workloads then db'.workloads[v].slug == db.workloads[v].slug
      else op.OpCreate? && db'.workloads[v].slug == WorkloadSlug(op.name)
  }

  lemma ScaleSlugs(db: World, wid: WorkloadId, n: int, db': World, ok: bool)
    requires Scaled(db, wid, n, db', ok)
    ensures db'.workloads.Keys == db.workloads.Keys
    ensures forall v :: v in db.workloads ==> db'.workloads[v].slug == db.workloads[v].slug
  {}

  lemma CreateSlugs(db: World, name: string, services: seq<Service>, replicas: int, db': World, ok: bool)
    requires WorkloadsSound(db) && Created(db, name, services, replicas, db', ok)
    ensures SlugsFrom(db, OpCreate(name, services, replicas), db')
  {}

  lemma DeploySlugs(db: World, wid: WorkloadId, request: seq<Item>, strategy: string, db': World, ok: bool)
    requires Redeployed(db, wid, request, strategy, db', ok)
    ensures SlugsFrom(db, OpDeploy(wid, request, strategy), db')
  {}

  lemma DeleteSlugs(db: World, wid: WorkloadId, db': World, ok: bool)
    requires Deleted(db, wid, db', ok)
    ensures SlugsFrom(db, OpDelete(wid), db')
  {}

  lemma PauseSlugs(db: World, wid: WorkloadId, db': World, ok: bool)
    requires Paused(db, wid, db', ok)
    ensures SlugsFrom(db, OpPause(wid), db')
  {
    if wid in db.workloads {
      ScaleSlugs(Stamped(db, wid), wid, 0, db', ok);
    }
  }

  lemma ResumeSlugs(db: World, wid: WorkloadId, db': World, ok: bool)
    requires Resumed(db, wid, db', ok)
    ensures SlugsFrom(db, OpResume(wid), db')
  {
    if wid in db.workloads {
      ScaleSlugs(db, wid, ResumeTarget(db.workloads[wid]), db', ok);
    }
  }

  lemma StepSlugs(db: World, op: Op, db': World, ok: bool)
    requires WorkloadsSound(db) && Step(db, op, db', ok)
    ensures SlugsFrom(db, op, db')
  {
    match op
    case OpCreate(name, services, replicas) => CreateSlugs(db, name, services, replicas, db', ok);
    case OpScale(wid, n) => ScaleSlugs(db, wid, n, db', ok);
    case OpPause(wid) => PauseSlugs(db, wid, db', ok);
    case OpResume(wid) => ResumeSlugs(db, wid, db', ok);
    case OpDeploy(wid, request, strategy) => DeploySlugs(db, wid, request, strategy, db', ok);
    case OpDelete(wid) => DeleteSlugs(db, wid, db', ok);
  }

  lemma StepKeepsClean(db: World, op: Op, db': World, ok: bool)
    requires Sound(db) && Clean(db) && Room(db, op) && Step(db, op, db', ok)
    ensures Clean(db')
  {
    StepUnowned(db, op, db', ok);
    StepSlugs(db, op, db', ok);
  }

  // ----- the resting invariant -----

  lemma OthersRest(db: World, wid: WorkloadId, db': World)
    requires Resting(db) && OthersSame(db.fleet, db'.fleet, wid)
    requires forall v :: v in db'.workloads && v != wid ==> v in db.workloads && db'.workloads[v] == db.workloads[v]
    requires wid in db'.workloads ==> AtRest(db', wid)
    ensures Resting(db')
  {
    forall v | v in db'.workloads ensures AtRest(db', v) {
      if v != wid {
        assert AtRest(db, v);
      }
    }
  }

  lemma CleanRoom(db: World, wid: WorkloadId)
    requires Clean(db) && wid in db.workloads
    ensures SlugRoom(db, db.workloads[wid].slug)
  {}

  lemma NextUnique(s: set<nat>, lo: nat, lo': nat)
    requires IsNext(s, lo) && IsNext(s, lo')
    ensures lo == lo'
  {}

  lemma EmptySize(s: set<nat>)
    ensures |s| == 0 <==> s == {}
  {}

  lemma GrownAt(f: Fleet, wid: WorkloadId, w: Plan, n: nat, f': Fleet, lo: nat, ok: bool)
    requires n > |Owned(f, wid)| && Resized(f, wid, w, n, f', ok) && IsNext(Indices(f, wid), lo)
    ensures Grown(f, wid, w, lo, lo + (n - |Owned(f, wid)|), f', ok)
  {
    var lo1: nat :| GrownFrom(f, wid, w, n, lo1, f', ok);
    NextUnique(Indices(f, wid), lo, lo1);
  }

  /** A successful grow reaches its target exactly when it adopts nothing;
      `lo` is the first index it asks for. */
  lemma GrowReaches(f: Fleet, wid: WorkloadId, w: Plan, n: nat, f': Fleet, lo: nat)
    requires Countable(f, wid, w.slug) && Countable(f', wid, w.slug)
    requires n > |Owned(f, wid)| && IsNext(Indices(f, wid), lo)
    requires Resized(f, wid, w, n, f', true)
    ensures |Owned(f', wid)| == n <==> Adopted(f, w.slug, lo, lo + (n - |Owned(f, wid)|)) == {}
  {
    var hi := lo + (n - |Owned(f, wid)|);
    GrownAt(f, wid, w, n, f', lo, true);
    GrownCount(f, wid, w, lo, hi, f');
    EmptySize(Adopted(f, w.slug, lo, hi));
  }

  /** On a clean state a successful resize reaches its target. */
  lemma ResizeReaches(db: World, wid: WorkloadId, n: nat, db': World)
    requires Sound(db) && Clean(db) && Sound(db') && wid in db.workloads && wid in db'.workloads
    requires PlanOf(db'.workloads[wid]) == PlanOf(db.workloads[wid])
    requires Resized(db.fleet, wid, PlanOf(db.workloads[wid]), n, db'.fleet, true)
    ensures |Owned(db'.fleet, wid)| == n
  {
    var w := PlanOf(db.workloads[wid]);
    if n > |Owned(db.fleet, wid)| {
      var lo := NextExists(db.fleet, wid);
      SoundIsCountable(db, wid, w.slug);
      SoundIsCountable(db', wid, w.slug);
      GrowReaches(db.fleet, wid, w, n, db'.fleet, lo);
      CleanRoom(db, wid);
      CleanAdoptsNothing(db, w.slug, lo, lo + (n - |Owned(db.fleet, wid)|));
    } else {
      ShrinkKeepsLowest(db, wid, n, db'.fleet);
    }
  }

  lemma NextExists(f: Fleet, wid: WorkloadId) returns (lo: nat)
    ensures IsNext(Indices(f, wid), lo)
  {
    lo := MaxNext(Indices(f, wid));
  }

  lemma {:induction false} MaxNext(s: set<nat>) returns (lo: nat)
    ensures IsNext(s, lo)
  {
    if s == {} {
      lo := 0;
    } else {
      var x :| x in s;
      var rest := MaxNext(s - {x});
      lo := if rest <= x then x + 1 else rest;
      forall y | y in s ensures y < lo {
        if y != x {
          assert y in s - {x};
        }
      }
    }
  }

  lemma ScaleRestsHere(db: World, wid: WorkloadId, n: nat, db': World, ok: bool)
    requires Sound(db) && Clean(db) && wid in db.workloads && Scaled(db, wid, n, db', ok)
    requires ValidTransition(db.workloads[wid].state, StateScaling)
    ensures wid in db'.workloads && AtRest(db', wid)
  {
    if ok {
      ScaleKeeps(db, wid, n, db', ok);
      ResizeReaches(db, wid, n, db');
    }
  }

  lemma ScaleRests(db: World, wid: WorkloadId, n: int, db': World, ok: bool)
    requires Sound(db) && Clean(db) && Resting(db) && Scaled(db, wid, n, db', ok)
    ensures Resting(db')
  {
    if n < 0 || wid !in db.workloads || !ValidTransition(db.workloads[wid].state, StateScaling) {
    } else {
      ResizedOthers(db.fleet, wid, PlanOf(db.workloads[wid]), n, db'.fleet, ok);
      ScaleRestsHere(db, wid, n, db', ok);
      OthersRest(db, wid, db');
    }
  }

  lemma CreateRests(db: World, name: string, services: seq<Service>, replicas: int, db': World, ok: bool)
    requires Sound(db) && SlugRoom(db, WorkloadSlug(name)) && Resting(db) && Created(db, name, services, replicas, db', ok)
    ensures Resting(db')
  {
    if db' != db {
      var wid, n: nat := db.nextWorkload, if replicas <= 0 then 1 else replicas;
      CreateKeeps(db, name, services, replicas, db', ok);
      GrownOthers(db.fleet, wid, PlanOf(db'.workloads[wid]), 0, n, db'.fleet, ok);
      NobodyOwnsNew(db);
      if ok {
        SoundIsCountable(db, wid, WorkloadSlug(name));
        SoundIsCountable(db', wid, WorkloadSlug(name));
        GrownCount(db.fleet, wid, PlanOf(db'.workloads[wid]), 0, n, db'.fleet);
        CleanAdoptsNothing(db, WorkloadSlug(name), 0, n);
      }
      OthersRest(db, wid, db');
    }
  }

  /** Nothing is labelled with an id that was not minted yet. */
  lemma NobodyOwnsNew(db: World)
    requires Sound(db)
    ensures Owned(db.fleet, db.nextWorkload) == {} && Indices(db.fleet, db.nextWorkload) == {}
  {
    forall i | i in db.fleet.instances ensures !OwnedBy(db.fleet.instances[i], db.nextWorkload) {
      assert Placed(db.workloads, db.fleet.instances[i]);
    }
    assert Owned(db.fleet, db.nextWorkload) == {};
  }

  lemma StampRests(db: World, wid: WorkloadId)
    requires Resting(db)
    ensures Resting(Stamped(db, wid))
  {
    forall v | v in Stamped(db, wid).workloads ensures AtRest(Stamped(db, wid), v) {
      assert AtRest(db, v);
    }
  }

  lemma StampClean(db: World, wid: WorkloadId)
    requires Clean(db)
    ensures Clean(Stamped(db, wid))
  {}

  lemma DeployRests(db: World, wid: WorkloadId, request: seq<Item>, strategy: string, db': World, ok: bool)
    requires Resting(db) && Redeployed(db, wid, request, strategy, db', ok)
    ensures Resting(db')
  {
    if !DeployRefused(db, wid, request) {
      assert AtRest(db, wid);
      DeployRestsHere(db, wid, request, strategy, db', ok);
      assert OthersSame(db.fleet, db'.fleet, wid);
      OthersRest(db, wid, db');
    }
  }

  lemma DeployRestsHere(db: World, wid: WorkloadId, request: seq<Item>, strategy: string, db': World, ok: bool)
    requires !DeployRefused(db, wid, request) && AtRest(db, wid) && Redeployed(db, wid, request, strategy, db', ok)
    ensures wid in db'.workloads && AtRest(db', wid)
  {
    assert Owned(db'.fleet, wid) == Owned(db.fleet, wid);
    EmptyOwned(db.fleet, wid);
  }

  lemma EmptyOwned(f: Fleet, wid: WorkloadId)
    ensures |Owned(f, wid)| == 0 <==> Owned(f, wid) == {}
  {}

  lemma DeleteRests(db: World, wid: WorkloadId, db': World, ok: bool)
    requires Resting(db) && Deleted(db, wid, db', ok)
    ensures Resting(db')
  {
    if wid in db.workloads {
      LostOthers(db.fleet, wid, db'.fleet);
      OthersRest(db, wid, db');
    }
  }

  lemma StepKeepsResting(db: World, op: Op, db': World, ok: bool)
    requires Sound(db) && Clean(db) && Room(db, op) && Resting(db) && Step(db, op, db', ok)
    ensures Resting(db')
  {
    match op
    case OpCreate(name, services, replicas) => CreateRests(db, name, services, replicas, db', ok);
    case OpScale(wid, n) => ScaleRests(db, wid, n, db', ok);
    case OpPause(wid) =>
      if wid in db.workloads {
        StampKeeps(db, wid);
        StampRests(db, wid);
        StampClean(db, wid);
        ScaleRests(Stamped(db, wid), wid, 0, db', ok);
      }
    case OpResume(wid) =>
      if wid in db.workloads {
        ScaleRests(db, wid, ResumeTarget(db.workloads[wid]), db', ok);
      }
    case OpDeploy(wid, request, strategy) => DeployRests(db, wid, request, strategy, db', ok);
    case OpDelete(wid) => DeleteRests(db, wid, db', ok);
  }

  // ----- runs -----

  type Relation = (World, Op, World, bool) -> bool

  /** Each call is related to the state before and after it. */
  ghost predicate Chained(step: Relation, dbs: seq<World>, ops: seq<Op>, oks: seq<bool>) {
    && |dbs| == |ops| + 1 == |oks| + 1
    && forall i :: 0 <= i < |ops| ==> step(dbs[i], ops[i], dbs[i + 1], oks[i])
  }

  ghost predicate Run(dbs: seq<World>, ops: seq<Op>, oks: seq<bool>) { Chained(Step, dbs, ops, oks) }

  /** What every step keeps holds after every run. */
  lemma {:induction false} Inductive(inv: World -> bool, step: Relation, dbs: seq<World>, ops: seq<Op>, oks: seq<bool>)
    requires Chained(step, dbs, ops, oks) && inv(dbs[0])
    requires forall db, op, db', ok :: inv(db) && step(db, op, db', ok) ==> inv(db')
    ensures inv(dbs[|ops|])
  {
    if ops != [] {
      var n := |ops| - 1;
      Inductive(inv, step, dbs[..n + 1], ops[..n], oks[..n]);
      assert step(dbs[n], ops[n], dbs[n + 1], oks[n]);
    }
  }

  /** The row invariant holds after every run from any state that has it: no
      instance is ever labelled with a workload that is gone. */
  lemma RunKeepsSound(dbs: seq<World>, ops: seq<Op>, oks: seq<bool>)
    requires Run(dbs, ops, oks) && Sound(dbs[0])
    ensures Sound(dbs[|ops|])
  {
    forall db, op, db', ok | Sound(db) && Step(db, op, db', ok) ensures Sound(db') {
      StepKeepsSound(db, op, db', ok);
    }
    Inductive(Sound, Step, dbs, ops, oks);
  }

  /** Neither operation is refused for want of a transition or of replicas. */
  ghost predicate Ready(db: World) {
    forall w :: w in db.workloads ==>
      && ValidTransition(db.workloads[w].state, StateScaling)
      && (ValidTransition(db.workloads[w].state, StateDeploying) ==> Owned(db.fleet, w) != {})
  }

  lemma RestingIsReady(db: World)
    requires Resting(db)
    ensures Ready(db)
  {
    forall w | w in db.workloads
      ensures ValidTransition(db.workloads[w].state, StateScaling)
      ensures ValidTransition(db.workloads[w].state, StateDeploying) ==> Owned(db.fleet, w) != {}
    {
      assert AtRest(db, w);
    }
  }

  ghost predicate Calm(db: World) { Sound(db) && Clean(db) && Resting(db) }

  lemma StepKeepsCalm(db: World, op: Op, db': World, ok: bool)
    requires Calm(db) && Room(db, op) && Step(db, op, db', ok)
    ensures Calm(db')
  {
    StepKeepsSound(db, op, db', ok);
    StepKeepsClean(db, op, db', ok);
    StepKeepsResting(db, op, db', ok);
  }

  /** A step that meets no row without an owner. */
  ghost predicate RoomyStep(db: World, op: Op, db': World, ok: bool) { Room(db, op) && Step(db, op, db', ok) }

  lemma RunCalms(dbs: seq<World>, ops: seq<Op>, oks: seq<bool>)
    requires Chained(RoomyStep, dbs, ops, oks) && Calm(dbs[0])
    ensures Calm(dbs[|ops|])
  {
    forall db, op, db', ok | Calm(db) && RoomyStep(db, op, db', ok) ensures Calm(db') {
      StepKeepsCalm(db, op, db', ok);
    }
    Inductive(Calm, RoomyStep, dbs, ops, oks);
  }

  /** After every run each workload is Active with as many replicas as its
      count, at least one; or Paused with none; or Failed. Hence scaling is
      never refused at rest, and deploying never finds no replicas. */
  lemma RunRests(dbs: seq<World>, ops: seq<Op>, oks: seq<bool>)
    requires Chained(RoomyStep, dbs, ops, oks) && Calm(dbs[0])
    ensures Calm(dbs[|ops|]) && Ready(dbs[|ops|])
  {
    RunCalms(dbs, ops, oks);
    RestingIsReady(dbs[|ops|]);
  }
}
