/** The agreement between a workload's spec and its replicas' newest
    releases, over runs in which other workloads may fail as they like. */
module Agreement {
  import opened Common
  import opened ReleaseChain
  import opened Stores
  import opened WorkloadSpec
  import opened WorkloadInvariants
  import opened WorkloadSafety
  import opened WorkloadCounts
  import opened WorkloadRuns
  import Instances

  /** What of a service is compared: its image, or its environment too. */
  datatype Aspect = Images | Everything

  predicate Alike(a: Aspect, p: Payload, s: Service) { p.image == s.image && (a == Everything ==> p.env == s.env) }

  /** The newest release assigns each service what the spec does. */
  ghost predicate Agrees(a: Aspect, chain: Chain, services: seq<Service>) {
    && chain.releases != [] && Numbered(chain.releases)
    && forall j :: 0 <= j < |services| ==>
         services[j].name in Latest(chain.releases) && Alike(a, Latest(chain.releases)[services[j].name], services[j])
  }

  ghost predicate FleetAgrees(a: Aspect, f: Fleet, wid: WorkloadId, services: seq<Service>) {
    forall i :: i in Owned(f, wid) ==> Agrees(a, ChainOf(f, i), services)
  }

  ghost predicate WorkloadAgrees(a: Aspect, db: World, wid: WorkloadId) {
    wid in db.workloads ==> FleetAgrees(a, db.fleet, wid, db.workloads[wid].services)
  }

  lemma BornAgrees(a: Aspect, row: Instance, chain: Chain)
    requires CameUp(row, chain) && UniqueNames(row.services)
    ensures Agrees(a, chain, row.services)
  {
    var items := Items(row.services);
    IssueFacts([], items);
    forall j | 0 <= j < |row.services|
      ensures row.services[j].name in Latest(chain.releases) && Alike(a, Latest(chain.releases)[row.services[j].name], row.services[j])
    {
      assert items[j].name == row.services[j].name;
      AsMapAt(items, j);
    }
  }

  // ----- one deploy -----

  /** No request entry of a service carries an environment. */
  ghost predicate Envless(request: seq<Item>, name: string) {
    forall k :: 0 <= k < |request| && request[k].name == name ==> request[k].payload.env.None?
  }

  /** Where the deciding entry of a service carries no environment, neither
      does any other entry of it nor the spec. */
  ghost predicate EnvKept(services: seq<Service>, request: seq<Item>) {
    forall j :: 0 <= j < |services| && services[j].name in AsMap(request) && AsMap(request)[services[j].name].env.None? ==>
      services[j].env.None? && Envless(request, services[j].name)
  }

  lemma EnvlessInit(request: seq<Item>, name: string)
    requires request != []
    ensures var n := |request| - 1;
      Envless(request, name) <==> Envless(request[..n], name) && (request[n].name == name ==> request[n].payload.env.None?)
  {
    var n := |request| - 1;
    assert request == request[..n] + [request[n]];
  }

  /** A patched service has no environment exactly when neither it nor any
      entry of it had one; a deciding entry that has one sets it. */
  lemma {:induction false} PatchedEnv(s: Service, request: seq<Item>)
    ensures Patched(s, request).env.None? <==> s.env.None? && Envless(request, s.name)
    ensures s.name !in AsMap(request) ==> Patched(s, request).env == s.env
    ensures s.name in AsMap(request) && AsMap(request)[s.name].env.Some? ==> Patched(s, request).env == AsMap(request)[s.name].env
  {
    if request != [] {
      PatchedEnv(s, request[..|request| - 1]);
      NamesInit(request);
      EnvlessInit(request, s.name);
    }
  }

  /** What decides agreement on one service after a deploy. */
  lemma PatchedAlike(a: Aspect, was: map<string, Payload>, s: Service, request: seq<Item>)
    requires s.name in was && Alike(a, was[s.name], s)
    ensures var now, p := was + AsMap(request), Patched(s, request);
      && p.name == s.name && s.name in now
      && (Alike(a, now[s.name], p) <==>
           (a == Everything && s.name in AsMap(request) && AsMap(request)[s.name].env.None? ==> s.env.None? && Envless(request, s.name)))
  {
    PatchedShape(s, request);
    PatchedEnv(s, request);
  }

  /** After a successful deploy on one replica images agree again, and
      environments exactly when EnvKept held of the request. */
  lemma DeployAgrees(a: Aspect, c: Chain, request: seq<Item>, strategy: string, c': Chain, services: seq<Service>)
    requires Agrees(a, c, services) && Stepped(c, ChainOp.Deploy(request, strategy), c', true)
    ensures Agrees(a, c', PatchAll(services, request)) <==> (a == Everything ==> EnvKept(services, request))
  {
    IssueFacts(c.releases, request);
    var p := PatchAll(services, request);
    forall j | 0 <= j < |services|
      ensures p[j].name == services[j].name && p[j].name in Latest(c'.releases)
      ensures Alike(a, Latest(c'.releases)[p[j].name], p[j]) <==>
        (a == Everything && p[j].name in AsMap(request) && AsMap(request)[p[j].name].env.None? ==>
          services[j].env.None? && Envless(request, services[j].name))
    {
      PatchedAlike(a, Latest(c.releases), services[j], request);
    }
  }

  // ----- the fleet of one workload -----

  /** A successful spawn leaves every replica in agreement. */
  lemma GrownAgrees(a: Aspect, f: Fleet, wid: WorkloadId, w: Plan, lo: nat, hi: nat, f': Fleet)
    requires Instances.Minted(f) && UniqueNames(w.services) && Grown(f, wid, w, lo, hi, f', true)
    requires FleetAgrees(a, f, wid, w.services)
    ensures FleetAgrees(a, f', wid, w.services)
  {
    forall i | i in Owned(f', wid) ensures Agrees(a, ChainOf(f', i), w.services) {
      if i in f.instances {
        assert i in Owned(f, wid);
      } else {
        assert SpawnedUpTo(f, wid, w, lo, hi, f');
        assert FromSpawn(f, wid, w, lo, hi, i, f'.instances[i], ChainOf(f', i));
        BornAgrees(a, f'.instances[i], ChainOf(f', i));
      }
    }
  }

  lemma ResizedAgrees(a: Aspect, f: Fleet, wid: WorkloadId, w: Plan, n: nat, f': Fleet)
    requires Instances.Minted(f) && UniqueNames(w.services) && Resized(f, wid, w, n, f', true)
    requires FleetAgrees(a, f, wid, w.services)
    ensures FleetAgrees(a, f', wid, w.services)
  {
    if n > |Owned(f, wid)| {
      var lo := NextExists(f, wid);
      GrownAt(f, wid, w, n, f', lo, true);
      GrownAgrees(a, f, wid, w, lo, lo + (n - |Owned(f, wid)|), f');
    } else {
      ShrunkOnlyLoses(f, wid, n, f', true);
      forall i | i in Owned(f', wid) ensures Agrees(a, ChainOf(f', i), w.services) {
        assert i in Owned(f, wid);
      }
    }
  }

  lemma UpdatedSteps(f: Fleet, wid: WorkloadId, request: seq<Item>, strategy: string, f': Fleet, i: InstanceId)
    requires Updated(f, wid, request, strategy, f', true) && i in Owned(f, wid)
    ensures Stepped(ChainOf(f, i), ChainOp.Deploy(request, strategy), ChainOf(f', i), true)
  {
    var order: seq<InstanceId>, stop: nat :| ReplicaOrder(f, wid, order) && RolledOut(f, order, stop, request, strategy, f')
      && (order != [] ==> (true <==> stop == |order|));
    assert i in Elems(order);
    var k :| 0 <= k < |order| && order[k] == i;
  }

  lemma UpdatedAgrees(a: Aspect, f: Fleet, wid: WorkloadId, request: seq<Item>, strategy: string, f': Fleet, services: seq<Service>)
    requires Updated(f, wid, request, strategy, f', true) && f'.instances == f.instances && Owned(f, wid) != {}
    requires FleetAgrees(a, f, wid, services)
    ensures FleetAgrees(a, f', wid, PatchAll(services, request)) <==> (a == Everything ==> EnvKept(services, request))
  {
    assert Owned(f', wid) == Owned(f, wid);
    forall i | i in Owned(f, wid)
      ensures Agrees(a, ChainOf(f', i), PatchAll(services, request)) <==> (a == Everything ==> EnvKept(services, request))
    {
      UpdatedSteps(f, wid, request, strategy, f', i);
      DeployAgrees(a, ChainOf(f, i), request, strategy, ChainOf(f', i), services);
    }
    var i :| i in Owned(f, wid);
  }

  // ----- calls on other workloads -----

  /** Chains of rows that were there before the call. */
  ghost predicate ChainsKept(f: Fleet, f': Fleet, v: WorkloadId) {
    Owned(f', v) == Owned(f, v) && forall i :: i in Owned(f, v) ==> ChainOf(f', i) == ChainOf(f, i)
  }

  lemma ResizedChains(f: Fleet, wid: WorkloadId, w: Plan, n: nat, f': Fleet, ok: bool, v: WorkloadId)
    requires Instances.Minted(f) && Resized(f, wid, w, n, f', ok) && v != wid
    ensures ChainsKept(f, f', v)
  {
    ResizedOthers(f, wid, w, n, f', ok);
    if n > |Owned(f, wid)| {
      var lo := NextExists(f, wid);
      GrownAt(f, wid, w, n, f', lo, ok);
    }
  }

  lemma GrownChains(f: Fleet, wid: WorkloadId, w: Plan, lo: nat, hi: nat, f': Fleet, ok: bool, v: WorkloadId)
    requires Instances.Minted(f) && Grown(f, wid, w, lo, hi, f', ok) && v != wid
    ensures ChainsKept(f, f', v)
  {
    GrownOthers(f, wid, w, lo, hi, f', ok);
  }

  /** A deploy leaves the chains of other workloads alone. */
  lemma UpdatedChains(f: Fleet, wid: WorkloadId, request: seq<Item>, strategy: string, f': Fleet, ok: bool, v: WorkloadId)
    requires Updated(f, wid, request, strategy, f', ok) && f'.instances == f.instances && v != wid
    ensures ChainsKept(f, f', v)
  {
    var order: seq<InstanceId>, stop: nat :| ReplicaOrder(f, wid, order) && RolledOut(f, order, stop, request, strategy, f');
    assert Owned(f', v) == Owned(f, v);
    forall i | i in Owned(f, v) ensures ChainOf(f', i) == ChainOf(f, i) {
      assert i !in Owned(f, wid) && i !in Elems(order);
      assert i !in order;
    }
  }

  lemma DeletedChains(db: World, wid: WorkloadId, db': World, ok: bool, v: WorkloadId)
    requires Deleted(db, wid, db', ok) && v != wid
    ensures ChainsKept(db.fleet, db'.fleet, v)
  {
    LostOthers(db.fleet, wid, db'.fleet);
  }

  lemma ScaleChains(db: World, wid: WorkloadId, n: int, db': World, ok: bool, v: WorkloadId)
    requires Sound(db) && Scaled(db, wid, n, db', ok) && v != wid
    ensures ChainsKept(db.fleet, db'.fleet, v)
  {
    if n < 0 || wid !in db.workloads || !ValidTransition(db.workloads[wid].state, StateScaling) {
    } else {
      ResizedChains(db.fleet, wid, PlanOf(db.workloads[wid]), n, db'.fleet, ok, v);
    }
  }

  lemma CreateChains(db: World, name: string, services: seq<Service>, replicas: int, db': World, ok: bool, v: WorkloadId)
    requires Sound(db) && Created(db, name, services, replicas, db', ok) && v != db.nextWorkload
    ensures ChainsKept(db.fleet, db'.fleet, v)
  {
    if db' != db {
      var n: nat := if replicas <= 0 then 1 else replicas;
      GrownChains(db.fleet, db.nextWorkload, PlanOf(db'.workloads[db.nextWorkload]), 0, n, db'.fleet, ok, v);
    }
  }

  /** The call is about this workload. */
  predicate Own(db: World, op: Op, wid: WorkloadId) { if op.OpCreate? then db.nextWorkload == wid else op.wid == wid }

  lemma OtherChains(db: World, op: Op, db': World, ok: bool, v: WorkloadId)
    requires Sound(db) && Step(db, op, db', ok) && !Own(db, op, v)
    ensures ChainsKept(db.fleet, db'.fleet, v)
  {
    match op
    case OpCreate(name, services, replicas) => CreateChains(db, name, services, replicas, db', ok, v);
    case OpScale(wid, n) => ScaleChains(db, wid, n, db', ok, v);
    case OpPause(wid) =>
      if wid in db.workloads {
        StampKeeps(db, wid);
        ScaleChains(Stamped(db, wid), wid, 0, db', ok, v);
      }
    case OpResume(wid) =>
      if wid in db.workloads {
        ScaleChains(db, wid, ResumeTarget(db.workloads[wid]), db', ok, v);
      }
    case OpDeploy(wid, request, strategy) =>
      if !DeployRefused(db, wid, request) {
        UpdatedChains(db.fleet, wid, request, strategy, db'.fleet, ok, v);
      }
    case OpDelete(wid) => DeletedChains(db, wid, db', ok, v);
  }

  /** The row of a workload a call is not about. */
  lemma OtherRow(db: World, op: Op, db': World, ok: bool, v: WorkloadId)
    requires Step(db, op, db', ok) && !Own(db, op, v)
    ensures v in db'.workloads <==> v in db.workloads
    ensures v in db.workloads ==> db'.workloads[v] == db.workloads[v]
  {}

  lemma OtherStepAgrees(a: Aspect, db: World, op: Op, db': World, ok: bool, v: WorkloadId)
    requires Sound(db) && Step(db, op, db', ok) && !Own(db, op, v) && WorkloadAgrees(a, db, v)
    ensures WorkloadAgrees(a, db', v)
  {
    OtherChains(db, op, db', ok, v);
    OtherRow(db, op, db', ok, v);
  }

  // ----- successful calls on the workload -----

  lemma ScaleAgrees(a: Aspect, db: World, wid: WorkloadId, n: nat, db': World)
    requires Sound(db) && WorkloadAgrees(a, db, wid) && Scaled(db, wid, n, db', true)
    ensures WorkloadAgrees(a, db', wid)
  {
    ResizedAgrees(a, db.fleet, wid, PlanOf(db.workloads[wid]), n, db'.fleet);
  }

  lemma CreateAgrees(a: Aspect, db: World, name: string, services: seq<Service>, replicas: int, db': World)
    requires Sound(db) && Created(db, name, services, replicas, db', true)
    ensures WorkloadAgrees(a, db', db.nextWorkload)
  {
    var wid, n: nat := db.nextWorkload, if replicas <= 0 then 1 else replicas;
    NobodyOwnsNew(db);
    NormalisedWellFormed(services);
    GrownAgrees(a, db.fleet, wid, PlanOf(db'.workloads[wid]), 0, n, db'.fleet);
  }

  /** After a successful Deploy the workload agrees on images, and on
      environments exactly when EnvKept held of its spec and the request. */
  lemma DeployExact(a: Aspect, db: World, wid: WorkloadId, request: seq<Item>, strategy: string, db': World)
    requires WorkloadAgrees(a, db, wid) && Redeployed(db, wid, request, strategy, db', true)
    ensures wid in db.workloads
    ensures WorkloadAgrees(a, db', wid) <==> (a == Everything ==> EnvKept(db.workloads[wid].services, request))
  {
    UpdatedAgrees(a, db.fleet, wid, request, strategy, db'.fleet, db.workloads[wid].services);
  }

  /** A call that keeps the workload in agreement: about another one, however
      it ends; or refused; or successful, and if it deploys and environments
      matter, with EnvKept. */
  ghost predicate KeepingStep(a: Aspect, wid: WorkloadId, db: World, op: Op, db': World, ok: bool) {
    && Step(db, op, db', ok)
    && (Own(db, op, wid) && db' != db ==>
          ok && (a == Everything && op.OpDeploy? && wid in db.workloads ==> EnvKept(db.workloads[wid].services, op.request)))
  }

  lemma OwnStepAgrees(a: Aspect, db: World, op: Op, db': World, wid: WorkloadId)
    requires Sound(db) && WorkloadAgrees(a, db, wid) && KeepingStep(a, wid, db, op, db', true) && Own(db, op, wid) && db' != db
    ensures WorkloadAgrees(a, db', wid)
  {
    match op
    case OpCreate(name, services, replicas) => CreateAgrees(a, db, name, services, replicas, db');
    case OpScale(_, n) => ScaleAgrees(a, db, wid, n, db');
    case OpPause(_) =>
      StampKeeps(db, wid);
      ScaleAgrees(a, Stamped(db, wid), wid, 0, db');
    case OpResume(_) => ScaleAgrees(a, db, wid, ResumeTarget(db.workloads[wid]), db');
    case OpDeploy(_, request, strategy) => DeployExact(a, db, wid, request, strategy, db');
    case OpDelete(_) =>
  }

  ghost predicate SoundAgreed(a: Aspect, wid: WorkloadId, db: World) { Sound(db) && WorkloadAgrees(a, db, wid) }

  lemma KeepingStepAgrees(a: Aspect, wid: WorkloadId, db: World, op: Op, db': World, ok: bool)
    requires SoundAgreed(a, wid, db) && KeepingStep(a, wid, db, op, db', ok)
    ensures SoundAgreed(a, wid, db')
  {
    StepKeepsSound(db, op, db', ok);
    if !Own(db, op, wid) {
      OtherStepAgrees(a, db, op, db', ok, wid);
    } else if db' != db {
      OwnStepAgrees(a, db, op, db', wid);
    }
  }

  /** In every run in which the calls about one workload succeed or are
      refused, whatever fails on the others, the newest release of each of its
      replicas agrees with its spec, which stays well formed: on images
      always, on environments as long as each deploy keeps them. */
  lemma RunAgrees(a: Aspect, wid: WorkloadId, dbs: seq<World>, ops: seq<Op>, oks: seq<bool>)
    requires Chained((db, op, db', ok) => KeepingStep(a, wid, db, op, db', ok), dbs, ops, oks)
    requires Sound(dbs[0]) && WorkloadAgrees(a, dbs[0], wid)
    ensures WorkloadAgrees(a, dbs[|ops|], wid)
    ensures wid in dbs[|ops|].workloads ==> WellFormed(dbs[|ops|].workloads[wid].services)
  {
    forall db, op, db', ok | SoundAgreed(a, wid, db) && KeepingStep(a, wid, db, op, db', ok) ensures SoundAgreed(a, wid, db') {
      KeepingStepAgrees(a, wid, db, op, db', ok);
    }
    Inductive(db => SoundAgreed(a, wid, db), (db, op, db', ok) => KeepingStep(a, wid, db, op, db', ok), dbs, ops, oks);
  }
}
