/** Every operation keeps the row invariant, whatever the provider fails. */
module WorkloadSafety {
  import opened Common
  import opened Text
  import opened ReleaseChain
  import opened Stores
  import opened Instances
  import opened WorkloadSpec
  import opened WorkloadInvariants

  // ----- spec shape -----

  lemma NormalisedWellFormed(services: seq<Service>)
    requires WellFormed(services)
    ensures WellFormed(Normalised(services))
  {
    var n := Normalised(services);
    SameShape(services, n);
  }

  ghost predicate ShapePreserved(a: seq<Service>, b: seq<Service>) {
    |a| == |b| && forall i :: 0 <= i < |a| ==>
      a[i].name == b[i].name && a[i].dependsOn == b[i].dependsOn && (IsMain(a[i]) <==> IsMain(b[i]))
  }

  lemma SameNames(a: seq<Service>, b: seq<Service>)
    requires ShapePreserved(a, b)
    ensures ServiceNames(a) <= ServiceNames(b)
  {
    forall s | s in ServiceNames(a) ensures s in ServiceNames(b) {
      var i :| 0 <= i < |a| && a[i].name == s;
      assert b[i] in b;
    }
  }

  lemma SameMain(a: seq<Service>, b: seq<Service>)
    requires OneMain(a) && ShapePreserved(a, b)
    ensures OneMain(b)
  {
    var m :| MainAt(a, m);
    assert MainAt(b, m);
  }

  lemma SameResolved(a: seq<Service>, b: seq<Service>)
    requires Resolved(a) && ShapePreserved(a, b)
    ensures Resolved(b)
  {
    SameNames(a, b);
    forall i, d | 0 <= i < |b| && d in b[i].dependsOn ensures d in ServiceNames(b) {
      assert d in a[i].dependsOn;
    }
  }

  lemma SameShape(a: seq<Service>, b: seq<Service>)
    requires WellFormed(a) && ShapePreserved(a, b)
    ensures WellFormed(b)
  {
    SameMain(a, b);
    SameResolved(a, b);
  }

  lemma {:induction false} PatchedShape(s: Service, request: seq<Item>)
    ensures var p := Patched(s, request); p.name == s.name && p.dependsOn == s.dependsOn && p.role == s.role
    ensures Patched(s, request).image == if s.name in AsMap(request) then AsMap(request)[s.name].image else s.image
  {
    if request != [] {
      PatchedShape(s, request[..|request| - 1]);
      NamesInit(request);
    }
  }

  lemma PatchAllWellFormed(services: seq<Service>, request: seq<Item>)
    requires WellFormed(services)
    ensures WellFormed(PatchAll(services, request))
  {
    var p := PatchAll(services, request);
    forall i | 0 <= i < |services|
      ensures p[i].name == services[i].name && p[i].dependsOn == services[i].dependsOn && p[i].role == services[i].role
    {
      PatchedShape(services[i], request);
    }
    SameShape(services, p);
  }

  // ----- rows -----

  /** The workload rows keep their slugs and none an instance points to goes. */
  ghost predicate SlugsKept(ws: map<WorkloadId, Workload>, ws': map<WorkloadId, Workload>) {
    forall w :: w in ws ==> w in ws' && ws'[w].slug == ws[w].slug
  }

  lemma PlacedKept(ws: map<WorkloadId, Workload>, ws': map<WorkloadId, Workload>, row: Instance)
    requires Placed(ws, row) && SlugsKept(ws, ws')
    ensures Placed(ws', row)
  {}

  lemma SpawnedRowsPlaced(db: World, wid: WorkloadId, lo: nat, stop: nat, db': World)
    requires RowsPlaced(db) && SlugsKept(db.workloads, db'.workloads) && wid in db'.workloads
    requires SpawnedUpTo(db.fleet, wid, PlanOf(db'.workloads[wid]), lo, stop, db'.fleet)
    ensures RowsPlaced(db')
  {
    var f, f' := db.fleet, db'.fleet;
    forall i | i in f'.instances ensures Placed(db'.workloads, f'.instances[i]) {
      if i in f.instances {
        PlacedKept(db.workloads, db'.workloads, f.instances[i]);
      } else {
        assert FromSpawn(f, wid, PlanOf(db'.workloads[wid]), lo, stop, i, f'.instances[i], ChainOf(f', i));
      }
    }
  }

  lemma SpawnedSlugsDistinct(f: Fleet, wid: WorkloadId, w: Plan, lo: nat, stop: nat, f': Fleet)
    requires DistinctSlugs(f) && Minted(f) && SpawnedUpTo(f, wid, w, lo, stop, f')
    ensures DistinctSlugs(f') && Minted(f')
  {
    forall i, j | i in f'.instances && j in f'.instances && i != j
      ensures f'.instances[i].slug != f'.instances[j].slug
    {
      if i !in f.instances && j !in f.instances {
        assert FromSpawn(f, wid, w, lo, stop, i, f'.instances[i], ChainOf(f', i));
        assert FromSpawn(f, wid, w, lo, stop, j, f'.instances[j], ChainOf(f', j));
        var ki, kj := IndexOf(f'.instances[i]), IndexOf(f'.instances[j]);
        if ReplicaName(w.slug, ki) == ReplicaName(w.slug, kj) {
          ReplicaNameInjective(w.slug, ki, w.slug, kj);
        }
      } else if i !in f.instances {
        NewSlugFree(f, wid, w, lo, stop, f', i, j);
      } else if j !in f.instances {
        NewSlugFree(f, wid, w, lo, stop, f', j, i);
      }
    }
  }

  lemma NewSlugFree(f: Fleet, wid: WorkloadId, w: Plan, lo: nat, stop: nat, f': Fleet, i: InstanceId, j: InstanceId)
    requires SpawnedUpTo(f, wid, w, lo, stop, f')
    requires i in f'.instances && i !in f.instances && j in f.instances
    ensures f'.instances[i].slug != f'.instances[j].slug
  {
    assert FromSpawn(f, wid, w, lo, stop, i, f'.instances[i], ChainOf(f', i));
    assert !SlugTaken(f, f'.instances[i].slug);
  }

  lemma GrownSound(db: World, wid: WorkloadId, lo: nat, hi: nat, db': World, ok: bool)
    requires Sound(db) && SlugsKept(db.workloads, db'.workloads) && WorkloadsSound(db') && wid in db'.workloads
    requires Grown(db.fleet, wid, PlanOf(db'.workloads[wid]), lo, hi, db'.fleet, ok)
    ensures Sound(db')
  {
    var w := PlanOf(db'.workloads[wid]);
    var stop :| lo <= stop <= hi && (ok <==> stop == hi) && SpawnedUpTo(db.fleet, wid, w, lo, stop, db'.fleet);
    SpawnedRowsPlaced(db, wid, lo, stop, db');
    SpawnedSlugsDistinct(db.fleet, wid, w, lo, stop, db'.fleet);
  }

  /** Rows only removed, or changed in nothing but their state. */
  ghost predicate OnlyLost(f: Fleet, f': Fleet) {
    && f'.nextInstance == f.nextInstance
    && f'.instances.Keys <= f.instances.Keys
    && forall i :: i in f'.instances ==> f'.instances[i] == f.instances[i].(state := f'.instances[i].state)
  }

  lemma LostSound(db: World, db': World)
    requires Sound(db) && WorkloadsSound(db') && OnlyLost(db.fleet, db'.fleet)
    requires forall i :: i in db'.fleet.instances ==> Placed(db'.workloads, db.fleet.instances[i])
    ensures Sound(db')
  {
    forall i | i in db'.fleet.instances ensures Placed(db'.workloads, db'.fleet.instances[i]) {
      assert Placed(db'.workloads, db.fleet.instances[i]);
    }
  }

  lemma LostKeepsSound(db: World, db': World)
    requires Sound(db) && WorkloadsSound(db') && OnlyLost(db.fleet, db'.fleet)
    requires SlugsKept(db.workloads, db'.workloads)
    ensures Sound(db')
  {
    forall i | i in db'.fleet.instances ensures Placed(db'.workloads, db.fleet.instances[i]) {
      PlacedKept(db.workloads, db'.workloads, db.fleet.instances[i]);
    }
    LostSound(db, db');
  }

  lemma ShrunkOnlyLoses(f: Fleet, wid: WorkloadId, n: nat, f': Fleet, ok: bool)
    requires Shrunk(f, wid, n, f', ok)
    ensures OnlyLost(f, f')
  {
    var order: seq<InstanceId>, stop: nat :| ShrunkBy(f, wid, n, order, stop, f', ok);
  }

  /** A workload's replica slugs are free, its own, or nobody's. */
  lemma OnlyOwnSlugs(db: World, wid: WorkloadId, slug: string, k: nat, i: InstanceId)
    requires Sound(db) && Slugged(slug)
    requires forall v :: v in db.workloads && v != wid ==> db.workloads[v].slug != slug
    requires i in db.fleet.instances && db.fleet.instances[i].slug == ReplicaName(slug, k)
    ensures db.fleet.instances[i].labels.workload == None || OwnedBy(db.fleet.instances[i], wid)
  {
    var row := db.fleet.instances[i];
    assert Placed(db.workloads, row);
    if row.labels.workload.Some? {
      ReplicaNameInjective(slug, k, db.workloads[row.labels.workload.value].slug, IndexOf(row));
    }
  }

  // ----- the operations -----

  lemma CreateKeeps(db: World, name: string, services: seq<Service>, replicas: int, db': World, ok: bool)
    requires Sound(db) && Created(db, name, services, replicas, db', ok)
    ensures Sound(db')
  {
    if db' != db {
      var wid, n: nat := db.nextWorkload, if replicas <= 0 then 1 else replicas;
      SlugIsSlugged(name);
      NormalisedWellFormed(services);
      assert forall v :: v in db.workloads ==> db.workloads[v].slug != WorkloadSlug(name);
      GrownSound(db, wid, 0, n, db', ok);
    }
  }

  /** A rewrite of one workload row that leaves its slug alone. */
  lemma RewriteSound(db: World, wid: WorkloadId, w: Workload, db': World)
    requires Sound(db) && wid in db.workloads && w.slug == db.workloads[wid].slug && WellFormed(w.services)
    requires db'.workloads == db.workloads[wid := w] && db'.nextWorkload == db.nextWorkload
    ensures SlugsKept(db.workloads, db'.workloads) && WorkloadsSound(db')
  {}

  lemma ShrunkSound(db: World, wid: WorkloadId, n: nat, db': World, ok: bool)
    requires Sound(db) && SlugsKept(db.workloads, db'.workloads) && WorkloadsSound(db')
    requires Shrunk(db.fleet, wid, n, db'.fleet, ok)
    ensures Sound(db')
  {
    ShrunkOnlyLoses(db.fleet, wid, n, db'.fleet, ok);
    LostKeepsSound(db, db');
  }

  lemma ResizedSound(db: World, wid: WorkloadId, n: nat, db': World, ok: bool)
    requires Sound(db) && SlugsKept(db.workloads, db'.workloads) && WorkloadsSound(db') && wid in db'.workloads
    requires Resized(db.fleet, wid, PlanOf(db'.workloads[wid]), n, db'.fleet, ok)
    ensures Sound(db')
  {
    var plan, more := PlanOf(db'.workloads[wid]), n - |Owned(db.fleet, wid)|;
    if more > 0 {
      var lo: nat :| GrownFrom(db.fleet, wid, plan, n, lo, db'.fleet, ok);
      GrownSound(db, wid, lo, lo + more, db', ok);
    } else {
      ShrunkSound(db, wid, n, db', ok);
    }
  }

  lemma ScaleKeeps(db: World, wid: WorkloadId, n: int, db': World, ok: bool)
    requires Sound(db) && Scaled(db, wid, n, db', ok)
    ensures Sound(db')
  {
    if n < 0 || wid !in db.workloads || !ValidTransition(db.workloads[wid].state, StateScaling) {
    } else {
      RewriteSound(db, wid, db'.workloads[wid], db');
      ResizedSound(db, wid, n, db', ok);
    }
  }

  lemma StampKeeps(db: World, wid: WorkloadId)
    requires Sound(db)
    ensures Sound(Stamped(db, wid))
  {
    var db' := Stamped(db, wid);
    if db' != db {
      RewriteSound(db, wid, db'.workloads[wid], db');
      LostKeepsSound(db, db');
    }
  }

  lemma PauseKeeps(db: World, wid: WorkloadId, db': World, ok: bool)
    requires Sound(db) && Paused(db, wid, db', ok)
    ensures Sound(db')
  {
    if wid in db.workloads {
      StampKeeps(db, wid);
      ScaleKeeps(Stamped(db, wid), wid, 0, db', ok);
    }
  }

  lemma ResumeKeeps(db: World, wid: WorkloadId, db': World, ok: bool)
    requires Sound(db) && Resumed(db, wid, db', ok)
    ensures Sound(db')
  {
    if wid in db.workloads {
      ScaleKeeps(db, wid, ResumeTarget(db.workloads[wid]), db', ok);
    }
  }

  lemma DeployKeeps(db: World, wid: WorkloadId, request: seq<Item>, strategy: string, db': World, ok: bool)
    requires Sound(db) && Redeployed(db, wid, request, strategy, db', ok)
    ensures Sound(db')
  {
    if !DeployRefused(db, wid, request) {
      PatchAllWellFormed(db.workloads[wid].services, request);
      RewriteSound(db, wid, db'.workloads[wid], db');
      LostKeepsSound(db, db');
    }
  }

  /** No orphans: the workload row goes only once no replica is left. */
  lemma DeleteKeeps(db: World, wid: WorkloadId, db': World, ok: bool)
    requires Sound(db) && Deleted(db, wid, db', ok)
    ensures Sound(db')
  {
    if wid in db.workloads {
      var f, f' := db.fleet, db'.fleet;
      forall i | i in f'.instances
        ensures f'.instances[i] == f.instances[i].(state := f'.instances[i].state)
        ensures Placed(db'.workloads, f.instances[i])
      {
        assert Placed(db.workloads, f.instances[i]);
        if ok {
          assert !OwnedBy(f.instances[i], wid);
        }
      }
      LostSound(db, db');
    }
  }
}
