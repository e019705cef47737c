/** What one call of each workload operation may do to the shared rows,
    stated without the loops that do it. */
module WorkloadSpec {
  import opened Common
  import opened Text
  import opened ReleaseChain
  import opened Stores
  import opened Instances

  // ----- the state machine (transitions.go) -----

  function Allowed(from: WorkloadState): set<WorkloadState> {
    match from
    case StateProvisioning => {StateActive, StateFailed, StateDestroying}
    case StateActive => {StateScaling, StateDeploying, StatePaused, StateDestroying, StateFailed}
    case StateScaling => {StateActive, StateFailed}
    case StateDeploying => {StateActive, StateFailed}
    case StatePaused => {StateScaling, StateDestroying, StateActive}
    case StateFailed => {StateDestroying, StateProvisioning, StateScaling, StateActive}
    case StateDestroying => {StateDestroyed}
    case StateDestroyed => {}
  }

  predicate ValidTransition(from: WorkloadState, to: WorkloadState) {
    from == to || to in Allowed(from)
  }

  // ----- services of a spec -----

  function ServiceNames(services: seq<Service>): set<string> { set s | s in services :: s.name }

  predicate IsMain(s: Service) { s.role == Main || s.role == Unset }

  ghost predicate UniqueNames(services: seq<Service>) {
    forall i, j :: 0 <= i < j < |services| ==> services[i].name != services[j].name
  }

  ghost predicate MainAt(services: seq<Service>, m: nat) {
    && m < |services| && IsMain(services[m])
    && forall j :: 0 <= j < |services| && j != m ==> !IsMain(services[j])
  }

  ghost predicate OneMain(services: seq<Service>) { exists m :: MainAt(services, m) }

  function Mains(services: seq<Service>): nat {
    if services == [] then 0
    else Mains(services[..|services| - 1]) + if IsMain(services[|services| - 1]) then 1 else 0
  }

  ghost predicate Resolved(services: seq<Service>) {
    forall i, d :: 0 <= i < |services| && d in services[i].dependsOn ==> d in ServiceNames(services)
  }

  /** The shape every stored spec keeps. */
  ghost predicate WellFormed(services: seq<Service>) {
    services != [] && UniqueNames(services) && OneMain(services) && Resolved(services)
  }

  /** What a request must look like to be accepted. */
  ghost predicate Acceptable(services: seq<Service>) {
    WellFormed(services)
    && forall i :: 0 <= i < |services| ==> !Blank(services[i].name) && !Blank(services[i].image)
  }

  /** An unset role is filled in as Main. */
  function Defaulted(s: Service): Service { if s.role == Unset then s.(role := Main) else s }

  function Normalised(services: seq<Service>): (r: seq<Service>)
    ensures |r| == |services|
    ensures forall i :: 0 <= i < |r| ==> r[i] == Defaulted(services[i])
  {
    seq(|services|, i requires 0 <= i < |services| => Defaulted(services[i]))
  }

  /** A service after the entries of a request that name it, in order. */
  function Patched(s: Service, request: seq<Item>): Service {
    if request == [] then s
    else
      var p, last := Patched(s, request[..|request| - 1]), request[|request| - 1];
      if last.name != s.name then p
      else p.(image := last.payload.image, env := if last.payload.env.Some? then last.payload.env else p.env)
  }

  function PatchAll(services: seq<Service>, request: seq<Item>): (r: seq<Service>)
    ensures |r| == |services|
    ensures forall i :: 0 <= i < |r| ==> r[i] == Patched(services[i], request)
  {
    seq(|services|, i requires 0 <= i < |services| => Patched(services[i], request))
  }

  // ----- replicas -----

  function IndexOf(row: Instance): nat {
    match row.labels.replicaIndex case Some(raw) => ReadNumber(raw) case None => 0
  }

  predicate OwnedBy(row: Instance, wid: WorkloadId) { row.labels.workload == Some(wid) }

  function Owned(f: Fleet, wid: WorkloadId): set<InstanceId> {
    set i | i in f.instances && OwnedBy(f.instances[i], wid)
  }

  ghost function Indices(f: Fleet, wid: WorkloadId): set<nat> {
    set i | i in Owned(f, wid) :: IndexOf(f.instances[i])
  }

  /** One past the highest index. */
  ghost predicate IsNext(indices: set<nat>, n: nat) {
    (forall x :: x in indices ==> x < n) && (n == 0 || n - 1 in indices)
  }

  /** The replicas of a workload in ascending index order. */
  ghost predicate ReplicaOrder(f: Fleet, wid: WorkloadId, order: seq<InstanceId>) {
    && Distinct(order) && Elems(order) == Owned(f, wid)
    && (forall i :: 0 <= i < |order| ==> order[i] in f.instances)
    && forall i, j :: 0 <= i < j < |order| ==>
         IndexOf(f.instances[order[i]]) <= IndexOf(f.instances[order[j]])
  }

  function ReplicaLabels(wid: WorkloadId, k: nat): Labels { Labels(Some(wid), Some(Itoa(k))) }

  /** A slug spawnReplica may reuse: held by a row of this workload or by a
      row nobody owns. */
  ghost predicate Held(f: Fleet, wid: WorkloadId, slug: string) {
    exists i :: i in f.instances && f.instances[i].slug == slug
      && (f.instances[i].labels.workload == None || OwnedBy(f.instances[i], wid))
  }

  ghost predicate FreshReplica(f: Fleet, wid: WorkloadId, w: Plan, k: nat, row: Instance) {
    && row.labels == ReplicaLabels(wid, k) && IndexOf(row) == k
    && row.slug == ReplicaName(w.slug, k) && !SlugTaken(f, row.slug)
    && row.services == w.services && row.createdAt == f.now
  }

  /** A replica that came up: running, with its initial release recorded. */
  ghost predicate CameUp(row: Instance, chain: Chain) {
    && row.state == InstanceRunning
    && chain.releases == Issue([], Items(row.services))
    && chain.running == AsMap(Items(row.services))
  }

  /** Every row and chain that existed is still there unchanged. */
  ghost predicate Kept(f: Fleet, f': Fleet) {
    && f.nextInstance <= f'.nextInstance && f'.now == f.now
    && (forall i :: i in f.instances ==> i in f'.instances && f'.instances[i] == f.instances[i])
    && (forall i: InstanceId :: i < f.nextInstance ==> ChainOf(f', i) == ChainOf(f, i))
  }

  /** A row added by spawning lo..stop: a fresh replica that came up, or the
      failed one at `stop`. */
  ghost predicate FromSpawn(f: Fleet, wid: WorkloadId, w: Plan, lo: nat, stop: nat, i: InstanceId, row: Instance, chain: Chain) {
    && f.nextInstance <= i && lo <= IndexOf(row) <= stop
    && FreshReplica(f, wid, w, IndexOf(row), row)
    && if IndexOf(row) < stop then CameUp(row, chain) else row.state == InstanceFailed
  }

  /** Spawning indices lo, lo+1, ... up to hi stops at `stop`, the first that
      fails. Each index before it is held by a row afterwards. */
  ghost predicate SpawnedUpTo(f: Fleet, wid: WorkloadId, w: Plan, lo: nat, stop: nat, f': Fleet) {
    && Kept(f, f')
    && (forall k :: lo <= k < stop ==> Held(f', wid, ReplicaName(w.slug, k)))
    && (forall i :: i in f'.instances && i !in f.instances ==>
         i < f'.nextInstance && FromSpawn(f, wid, w, lo, stop, i, f'.instances[i], ChainOf(f', i)))
    && NewIndicesDistinct(f, f')
  }

  ghost predicate NewIndicesDistinct(f: Fleet, f': Fleet) {
    forall i, j :: i in f'.instances && j in f'.instances && i !in f.instances && j !in f.instances && i != j ==>
      IndexOf(f'.instances[i]) != IndexOf(f'.instances[j])
  }

  ghost predicate Grown(f: Fleet, wid: WorkloadId, w: Plan, lo: nat, hi: nat, f': Fleet, ok: bool) {
    exists stop :: lo <= stop <= hi && (ok <==> stop == hi) && SpawnedUpTo(f, wid, w, lo, stop, f')
      && (ok ==> forall i :: i in f'.instances && i !in f.instances ==> IndexOf(f'.instances[i]) < hi)
  }

  /** The tail of the order from n on is deleted front to back; the first
      deletion to fail stops it and leaves that row failed. */
  ghost predicate Shrunk(f: Fleet, wid: WorkloadId, n: nat, f': Fleet, ok: bool) {
    && f' == f.(instances := f'.instances)
    && exists order, stop :: ShrunkBy(f, wid, n, order, stop, f', ok)
  }

  ghost predicate ShrunkBy(f: Fleet, wid: WorkloadId, n: nat, order: seq<InstanceId>, stop: nat, f': Fleet, ok: bool) {
    && ReplicaOrder(f, wid, order) && n <= stop <= |order| && (ok <==> stop == |order|)
    && f'.instances == Without(f, order, n, stop)
  }

  ghost function Without(f: Fleet, order: seq<InstanceId>, n: nat, stop: nat): map<InstanceId, Instance>
    requires n <= stop <= |order|
  {
    var rest := f.instances - Elems(order[n..stop]);
    if stop < |order| && order[stop] in f.instances
    then rest[order[stop] := f.instances[order[stop]].(state := InstanceFailed)] else rest
  }

  ghost predicate GrownFrom(f: Fleet, wid: WorkloadId, w: Plan, n: nat, lo: nat, f': Fleet, ok: bool) {
    n > |Owned(f, wid)| && IsNext(Indices(f, wid), lo) && Grown(f, wid, w, lo, lo + (n - |Owned(f, wid)|), f', ok)
  }

  /** Growing spawns the missing replicas from the next index on; otherwise
      the tail of the order goes. */
  ghost predicate Resized(f: Fleet, wid: WorkloadId, w: Plan, n: nat, f': Fleet, ok: bool) {
    var size := |Owned(f, wid)|;
    if n > size then exists lo: nat :: GrownFrom(f, wid, w, n, lo, f', ok)
    else Shrunk(f, wid, n, f', ok)
  }

  // ----- the operations -----

  ghost predicate WorkloadSlugTaken(db: World, slug: string) {
    exists v :: v in db.workloads && db.workloads[v].slug == slug
  }

  ghost predicate Created(db: World, name: string, services: seq<Service>, replicas: int, db': World, ok: bool) {
    if Blank(name) || !Acceptable(services) || WorkloadSlugTaken(db, WorkloadSlug(name)) then !ok && db' == db
    else
      var wid, n: nat := db.nextWorkload, if replicas <= 0 then 1 else replicas;
      var w := Workload(WorkloadSlug(name), Normalised(services), n, 0, if ok then StateActive else StateFailed);
      && db'.workloads == db.workloads[wid := w] && db'.nextWorkload == wid + 1
      && Grown(db.fleet, wid, PlanOf(w), 0, n, db'.fleet, ok)
  }

  ghost predicate Scaled(db: World, wid: WorkloadId, n: int, db': World, ok: bool) {
    if n < 0 || wid !in db.workloads || !ValidTransition(db.workloads[wid].state, StateScaling) then !ok && db' == db
    else
      var w := db.workloads[wid];
      && db'.workloads == db.workloads[wid :=
           if ok then w.(replicas := n, state := if n == 0 then StatePaused else StateActive)
           else w.(state := StateFailed)]
      && db'.nextWorkload == db.nextWorkload
      && Resized(db.fleet, wid, PlanOf(w), n, db'.fleet, ok)
  }

  /** PreviousReplicas stamped before a pause of a workload with replicas. */
  function Stamped(db: World, wid: WorkloadId): World {
    if wid in db.workloads && db.workloads[wid].replicas > 0
    then db.(workloads := db.workloads[wid := db.workloads[wid].(previous := db.workloads[wid].replicas)]) else db
  }

  ghost predicate Paused(db: World, wid: WorkloadId, db': World, ok: bool) {
    if wid !in db.workloads then !ok && db' == db else Scaled(Stamped(db, wid), wid, 0, db', ok)
  }

  function ResumeTarget(w: Workload): nat {
    if w.previous != 0 then w.previous else if w.replicas != 0 then w.replicas else 1
  }

  ghost predicate Resumed(db: World, wid: WorkloadId, db': World, ok: bool) {
    if wid !in db.workloads then !ok && db' == db else Scaled(db, wid, ResumeTarget(db.workloads[wid]), db', ok)
  }

  /** The first `stop` replicas take a successful deploy step, the next one
      (if any) a failed one, and no other chain changes. */
  ghost predicate RolledOut(f: Fleet, order: seq<InstanceId>, stop: nat, request: seq<Item>, strategy: string, f': Fleet) {
    && stop <= |order|
    && (forall k :: 0 <= k < stop ==>
          Stepped(ChainOf(f, order[k]), ChainOp.Deploy(request, strategy), ChainOf(f', order[k]), true))
    && (stop < |order| ==> Stepped(ChainOf(f, order[stop]), ChainOp.Deploy(request, strategy), ChainOf(f', order[stop]), false))
    && forall i: InstanceId :: i !in order[..if stop < |order| then stop + 1 else stop] ==> ChainOf(f', i) == ChainOf(f, i)
  }

  ghost predicate Updated(f: Fleet, wid: WorkloadId, request: seq<Item>, strategy: string, f': Fleet, ok: bool) {
    exists order, stop :: ReplicaOrder(f, wid, order) && RolledOut(f, order, stop, request, strategy, f')
      && (order != [] ==> (ok <==> stop == |order|))
  }

  ghost predicate DeployRefused(db: World, wid: WorkloadId, request: seq<Item>) {
    || request == [] || wid !in db.workloads
    || !ValidTransition(db.workloads[wid].state, StateDeploying)
    || !(Names(request) <= ServiceNames(db.workloads[wid].services))
  }

  ghost predicate Redeployed(db: World, wid: WorkloadId, request: seq<Item>, strategy: string, db': World, ok: bool) {
    if DeployRefused(db, wid, request) then !ok && db' == db
    else
      var w := db.workloads[wid];
      && db'.workloads == db.workloads[wid := w.(services := PatchAll(w.services, request),
           state := if ok || Owned(db.fleet, wid) == {} then StateActive else StateFailed)]
      && db'.nextWorkload == db.nextWorkload
      && db'.fleet == db.fleet.(chains := db'.fleet.chains)
      && (Owned(db.fleet, wid) == {} ==> !ok)
      && Updated(db.fleet, wid, request, strategy, db'.fleet, ok)
  }

  /** Every replica is tried; the ones whose deletion failed stay, marked
      failed. */
  ghost predicate Emptied(f: Fleet, wid: WorkloadId, f': Fleet, ok: bool) {
    && f' == f.(instances := f'.instances)
    && f'.instances.Keys <= f.instances.Keys
    && (forall i :: i in f.instances && !OwnedBy(f.instances[i], wid) ==> i in f'.instances && f'.instances[i] == f.instances[i])
    && (forall i :: i in f'.instances && OwnedBy(f.instances[i], wid) ==>
          f'.instances[i] == f.instances[i].(state := InstanceFailed))
    && (ok <==> forall i :: i in f'.instances ==> !OwnedBy(f.instances[i], wid))
  }

  /** The workload row goes only when no replica is left. */
  ghost predicate Deleted(db: World, wid: WorkloadId, db': World, ok: bool) {
    if wid !in db.workloads then !ok && db' == db
    else
      && Emptied(db.fleet, wid, db'.fleet, ok)
      && db'.nextWorkload == db.nextWorkload
      && db'.workloads == if ok then db.workloads - {wid}
                          else db.workloads[wid := db.workloads[wid].(state := StateFailed)]
  }
}
