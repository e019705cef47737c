/** workload/service_impl.go: the operations themselves. Each is a sequence
    of store writes and calls to the instance and deploy services, any of
    which the provider may fail; each is proved to do what WorkloadSpec
    says. */
module Workloads {
  import opened Common
  import opened Text
  import opened ReleaseChain
  import opened Stores
  import opened WorkloadSpec
  import opened WorkloadInvariants
  import opened Spawning
  import WorkloadSafety
  import Instances
  import Deploys

  /** instance.ListOptions.Limit in ListInstances. */
  const LIST_LIMIT: nat := 1000

  // ----- validation -----

  /** What validation has established after the first i services. */
  ghost predicate Passed(services: seq<Service>, i: nat, names: set<string>, mains: nat)
    requires i <= |services|
  {
    && (forall j :: 0 <= j < i ==> !Blank(services[j].name) && !Blank(services[j].image))
    && (forall j, k :: 0 <= j < k < i ==> services[j].name != services[k].name)
    && names == ServiceNames(services[..i]) && mains == Mains(services[..i])
  }

  lemma PassedStep(services: seq<Service>, i: nat, names: set<string>, mains: nat)
    requires i < |services| && Passed(services, i, names, mains)
    requires !Blank(services[i].name) && !Blank(services[i].image) && services[i].name !in names
    ensures Passed(services, i + 1, names + {services[i].name}, if IsMain(services[i]) then mains + 1 else mains)
  {
    forall j | 0 <= j < i ensures services[j].name != services[i].name {
      assert services[..i][j] in services[..i];
    }
    assert services[..i + 1] == services[..i] + [services[i]];
  }

  lemma NameTwice(services: seq<Service>, i: nat)
    requires i < |services| && services[i].name in ServiceNames(services[..i])
    ensures !UniqueNames(services)
  {
    var j :| 0 <= j < i && services[..i][j].name == services[i].name;
    assert services[j].name == services[i].name;
  }

  lemma AllPassed(services: seq<Service>, names: set<string>, mains: nat)
    requires services != [] && Passed(services, |services|, names, mains)
    ensures names == ServiceNames(services)
    ensures Acceptable(services) <==> mains == 1 && Resolved(services)
  {
    assert services[..|services|] == services;
    MainsCount(services);
  }

  /** The first loop: names, roles and the count of mains. */
  method ScanServices(services: seq<Service>) returns (ok: bool, names: set<string>, mains: nat, out: seq<Service>)
    ensures ok ==> Passed(services, |services|, names, mains) && out == Normalised(services)
    ensures !ok ==> !Acceptable(services)
  {
    names, mains, out := {}, 0, services;
    for i := 0 to |services|
      invariant |out| == |services|
      invariant forall j :: 0 <= j < |out| ==> out[j] == if j < i then Defaulted(services[j]) else services[j]
      invariant Passed(services, i, names, mains)
    {
      if Blank(services[i].name) || Blank(services[i].image) {
        return false, names, mains, out;
      }
      if services[i].name in names {
        NameTwice(services, i);
        return false, names, mains, out;
      }
      PassedStep(services, i, names, mains);
      names := names + {services[i].name};
      out := out[i := Defaulted(services[i])];
      if out[i].role == Main {
        mains := mains + 1;
      }
    }
    assert out == Normalised(services);
    ok := true;
  }

  method ValidateServices(services: seq<Service>) returns (r: Result<seq<Service>>)
    ensures r.Ok? <==> Acceptable(services)
    ensures r.Ok? ==> r.value == Normalised(services)
  {
    if services == [] {
      return Err;
    }
    var ok, names, mains, out := ScanServices(services);
    if !ok {
      return Err;
    }
    AllPassed(services, names, mains);
    if mains != 1 {
      return Err;
    }
    var resolved := DependenciesKnown(services, names);
    if !resolved {
      return Err;
    }
    return Ok(out);
  }

  method DependenciesKnown(services: seq<Service>, names: set<string>) returns (ok: bool)
    ensures ok <==> forall i, d :: 0 <= i < |services| && d in services[i].dependsOn ==> d in names
  {
    for i := 0 to |services|
      invariant forall j, d :: 0 <= j < i && d in services[j].dependsOn ==> d in names
    {
      for k := 0 to |services[i].dependsOn|
        invariant forall l :: 0 <= l < k ==> services[i].dependsOn[l] in names
      {
        if services[i].dependsOn[k] !in names {
          return false;
        }
      }
    }
    return true;
  }

  lemma {:induction false} MainsCount(services: seq<Service>)
    ensures Mains(services) == 0 <==> forall j :: 0 <= j < |services| ==> !IsMain(services[j])
    ensures Mains(services) == 1 <==> OneMain(services)
  {
    if services != [] {
      var n := |services| - 1;
      var init := services[..n];
      MainsCount(init);
      forall m | MainAt(services, m) ensures if m == n then Mains(init) == 0 else MainAt(init, m) {}
      if Mains(init) == 0 && IsMain(services[n]) {
        assert MainAt(services, n);
      }
      if Mains(init) == 1 && !IsMain(services[n]) {
        var m :| MainAt(init, m);
        assert MainAt(services, m);
      }
    }
  }

  /** Only names are checked: two services that wait for each other are
      accepted. */
  lemma CycleAccepted(a: string, b: string, image: string)
    requires !Blank(a) && !Blank(b) && !Blank(image) && a != b
    ensures Acceptable([Service(a, image, Main, [b], None), Service(b, image, Sidecar, [a], None)])
  {
    var services := [Service(a, image, Main, [b], None), Service(b, image, Sidecar, [a], None)];
    assert services[0] in services && services[1] in services;
    assert MainAt(services, 0);
  }

  // ----- listing -----

  method Swap(items: array<InstanceId>, i: nat, j: nat)
    requires i < j < items.Length
    modifies items
    ensures items[..] == Swapped(old(items[..]), i, j)
    ensures multiset(items[..]) == multiset(old(items[..]))
  {
    items[i], items[j] := items[j], items[i];
  }

  ghost predicate InRows(items: seq<InstanceId>, rows: map<InstanceId, Instance>) {
    forall k :: 0 <= k < |items| ==> items[k] in rows
  }

  /** Position h is not above any later position before end. */
  ghost predicate Lowest(items: seq<InstanceId>, rows: map<InstanceId, Instance>, h: nat, end: nat)
    requires InRows(items, rows) && h < end <= |items|
  {
    forall k :: h < k < end ==> IndexOf(rows[items[h]]) <= IndexOf(rows[items[k]])
  }

  /** The first i positions are in their final order. */
  ghost predicate FinalUpTo(items: seq<InstanceId>, rows: map<InstanceId, Instance>, i: nat)
    requires InRows(items, rows) && i <= |items|
  {
    forall h :: 0 <= h < i ==> Lowest(items, rows, h, |items|)
  }

  ghost function Swapped(s: seq<InstanceId>, i: nat, j: nat): seq<InstanceId>
    requires i < j < |s|
  {
    s[i := s[j]][j := s[i]]
  }

  lemma SwapKeeps(s: seq<InstanceId>, rows: map<InstanceId, Instance>, i: nat, j: nat)
    requires i < j < |s| && InRows(s, rows) && FinalUpTo(s, rows, i) && Lowest(s, rows, i, j)
    requires IndexOf(rows[s[i]]) > IndexOf(rows[s[j]])
    ensures InRows(Swapped(s, i, j), rows) && FinalUpTo(Swapped(s, i, j), rows, i)
    ensures Lowest(Swapped(s, i, j), rows, i, j + 1)
  {
    var t := Swapped(s, i, j);
    forall h | 0 <= h < i ensures Lowest(t, rows, h, |t|) {
      assert Lowest(s, rows, h, |s|);
    }
  }

  /** The in-place exchange sort over row pointers. */
  method SortByReplicaIndex(items: array<InstanceId>, rows: map<InstanceId, Instance>)
    requires InRows(items[..], rows)
    modifies items
    ensures multiset(items[..]) == multiset(old(items[..]))
    ensures InRows(items[..], rows) && FinalUpTo(items[..], rows, items.Length)
  {
    for i := 0 to items.Length
      invariant multiset(items[..]) == multiset(old(items[..]))
      invariant InRows(items[..], rows) && FinalUpTo(items[..], rows, i)
    {
      for j := i + 1 to items.Length
        invariant multiset(items[..]) == multiset(old(items[..]))
        invariant InRows(items[..], rows) && FinalUpTo(items[..], rows, i) && Lowest(items[..], rows, i, j)
      {
        if IndexOf(rows[items[i]]) > IndexOf(rows[items[j]]) {
          SwapKeeps(items[..], rows, i, j);
          Swap(items, i, j);
        }
      }
      assert forall h :: 0 <= h < i ==> Lowest(items[..], rows, h, |items[..]|);
    }
  }

  /** store List by label, in no particular order and cut off at the limit. */
  method List(st: Store, wid: WorkloadId, limit: nat) returns (items: seq<InstanceId>)
    ensures Distinct(items) && Elems(items) <= Owned(st.fleet, wid)
    ensures |Owned(st.fleet, wid)| <= limit ==> Elems(items) == Owned(st.fleet, wid)
  {
    items := [];
    var todo := Owned(st.fleet, wid);
    while todo != {} && |items| < limit
      invariant todo <= Owned(st.fleet, wid) && Elems(items) == Owned(st.fleet, wid) - todo
      invariant Distinct(items)
      decreases todo
    {
      var i :| i in todo;
      assert i !in Elems(items);
      assert Elems(items + [i]) == Elems(items) + {i};
      items := items + [i];
      todo := todo - {i};
    }
    ElemsSize(items);
    SubsetSize(Elems(items), Owned(st.fleet, wid));
  }

  lemma PermutationDistinct(a: seq<InstanceId>, b: seq<InstanceId>)
    requires multiset(a) == multiset(b) && Distinct(a)
    ensures Distinct(b) && Elems(a) == Elems(b)
  {
    forall x ensures x in a <==> x in b {
      assert x in a <==> x in multiset(a);
      assert x in b <==> x in multiset(b);
    }
    DistinctOnce(a);
    forall i, j | 0 <= i < j < |b| ensures b[i] != b[j] {
      var rest := b[i + 1..];
      assert b == b[..i] + [b[i]] + rest;
      assert rest[j - i - 1] == b[j];
      assert multiset(b)[b[i]] == multiset(b[..i])[b[i]] + 1 + multiset(rest)[b[i]];
    }
  }

  lemma {:induction false} DistinctOnce(a: seq<InstanceId>)
    requires Distinct(a)
    ensures forall x :: multiset(a)[x] <= 1
  {
    if a != [] {
      var n := |a| - 1;
      DistinctOnce(a[..n]);
      assert a == a[..n] + [a[n]];
      assert a[n] !in a[..n];
      assert a[n] !in multiset(a[..n]);
    }
  }

  /** The label filter runs again on the listed rows, then the sort. */
  method ListInstances(st: Store, wid: WorkloadId) returns (order: seq<InstanceId>)
    requires |Owned(st.fleet, wid)| <= LIST_LIMIT
    ensures ReplicaOrder(st.fleet, wid, order)
  {
    var items := List(st, wid, LIST_LIMIT);
    var rows := st.fleet.instances;
    var kept: seq<InstanceId> := [];
    for k := 0 to |items|
      invariant kept == items[..k]
    {
      assert items[k] in Elems(items);
      if OwnedBy(rows[items[k]], wid) {
        kept := kept + [items[k]];
      }
    }
    assert kept == items;
    var a := new InstanceId[|items|](k requires 0 <= k < |items| => items[k]);
    assert a[..] == items;
    forall k | 0 <= k < |items| ensures items[k] in rows {
      assert items[k] in Elems(items);
    }
    SortByReplicaIndex(a, rows);
    order := a[..];
    PermutationDistinct(items, order);
    forall j, k | 0 <= j < k < |order|
      ensures IndexOf(rows[order[j]]) <= IndexOf(rows[order[k]])
    {
      assert Lowest(order, rows, j, |order|);
    }
  }

  method NextReplicaIndex(st: Store, wid: WorkloadId, replicas: seq<InstanceId>) returns (n: nat)
    requires ReplicaOrder(st.fleet, wid, replicas)
    ensures IsNext(Indices(st.fleet, wid), n)
  {
    var highest: int := -1;
    for k := 0 to |replicas|
      invariant -1 <= highest
      invariant highest >= 0 ==> exists j :: 0 <= j < k && IndexOf(st.fleet.instances[replicas[j]]) == highest
      invariant forall j :: 0 <= j < k ==> IndexOf(st.fleet.instances[replicas[j]]) <= highest
    {
      var index := IndexOf(st.fleet.instances[replicas[k]]);
      if index > highest {
        highest := index;
      }
    }
    n := highest + 1;
    if highest >= 0 {
      var j :| 0 <= j < |replicas| && IndexOf(st.fleet.instances[replicas[j]]) == highest;
      assert replicas[j] in Owned(st.fleet, wid);
    }
    forall x | x in Indices(st.fleet, wid) ensures x < n {
      var i :| i in Owned(st.fleet, wid) && IndexOf(st.fleet.instances[i]) == x;
      assert i in Elems(replicas);
    }
  }

  // ----- spawning -----

  method SpawnReplica(st: Store, wid: WorkloadId, w: Plan, k: nat) returns (ok: bool)
    requires Slugged(w.slug) && w.services != [] && Instances.DistinctSlugs(st.fleet) && Instances.Minted(st.fleet)
    modifies st`fleet
    ensures SpawnEffect(old(st.fleet), wid, w, k, st.fleet, ok)
    ensures Instances.DistinctSlugs(st.fleet)
    ensures st.reliable && NotForeign(old(st.fleet), wid, ReplicaName(w.slug, k)) ==> ok
  {
    var name := ReplicaName(w.slug, k);
    var slug := WorkloadSlug(name);
    LookupSlugIsStoredSlug(w.slug, k);
    if exists i :: i in st.fleet.instances && st.fleet.instances[i].slug == slug {
      var existing :| existing in st.fleet.instances && st.fleet.instances[existing].slug == slug;
      var owner := st.fleet.instances[existing].labels.workload;
      return owner == None || owner == Some(wid);
    }
    var r := Instances.Create(st, name, w.services, ReplicaLabels(wid, k));
    ghost var born := st.fleet;
    if r == Err {
      return false;
    }
    var recorded := Deploys.RecordInitial(st, r.value);
    assert ChainOf(st.fleet, r.value) == BornChain(w.services);
    assert st.fleet.chains == old(st.fleet).chains[r.value := BornChain(w.services)];
    return true;
  }

  /** No other workload sits on a slug of this one. */
  ghost predicate AllOpen(f: Fleet, wid: WorkloadId, slug: string) { forall k: nat :: NotForeign(f, wid, ReplicaName(slug, k)) }

  lemma StillOpen(f: Fleet, wid: WorkloadId, w: Plan, lo: nat, k: nat, f1: Fleet)
    requires SpawnedAll(f, wid, w, lo, k, f1)
    ensures AllOpen(f, wid, w.slug) ==> NotForeign(f1, wid, ReplicaName(w.slug, k))
  {
    if AllOpen(f, wid, w.slug) {
      StillNotForeign(f, wid, w, lo, k, f1, ReplicaName(w.slug, k));
    }
  }

  lemma SoundIsOpen(db: World, wid: WorkloadId, slug: string)
    requires Sound(db) && Slugged(slug)
    requires if wid in db.workloads then db.workloads[wid].slug == slug else !WorkloadSlugTaken(db, slug)
    ensures AllOpen(db.fleet, wid, slug)
  {
    forall k: nat ensures NotForeign(db.fleet, wid, ReplicaName(slug, k)) {
      if i :| i in db.fleet.instances && db.fleet.instances[i].slug == ReplicaName(slug, k) {
        WorkloadSafety.OnlyOwnSlugs(db, wid, slug, k, i);
      }
    }
  }

  /** Spawns lo, lo + 1, ..., stopping at the first failure. */
  method SpawnRange(st: Store, wid: WorkloadId, w: Plan, lo: nat, hi: nat) returns (ok: bool)
    requires lo <= hi && Slugged(w.slug) && w.services != [] && Instances.DistinctSlugs(st.fleet) && Instances.Minted(st.fleet)
    modifies st`fleet
    ensures Grown(old(st.fleet), wid, w, lo, hi, st.fleet, ok)
    ensures Instances.DistinctSlugs(st.fleet) && Instances.Minted(st.fleet)
    ensures st.reliable && AllOpen(old(st.fleet), wid, w.slug) ==> ok
  {
    ghost var before := st.fleet;
    SpawnStart(before, wid, w, lo);
    for k := lo to hi
      invariant SpawnedAll(before, wid, w, lo, k, st.fleet)
      invariant Instances.DistinctSlugs(st.fleet) && Instances.Minted(st.fleet)
    {
      ghost var f1 := st.fleet;
      StillOpen(before, wid, w, lo, k, f1);
      ok := SpawnReplica(st, wid, w, k);
      SpawnStep(before, wid, w, lo, k, f1, st.fleet, ok);
      if !ok {
        return;
      }
    }
    ok := true;
  }

  /** Inserts the workload row, spawns its replicas and records the outcome. */
  method Launch(st: Store, w0: Workload) returns (ok: bool)
    requires Slugged(w0.slug) && w0.services != [] && Instances.DistinctSlugs(st.fleet) && Instances.Minted(st.fleet)
    modifies st
    ensures var wid := old(st.nextWorkload);
      && st.workloads == old(st.workloads)[wid := w0.(state := if ok then StateActive else StateFailed)]
      && st.nextWorkload == wid + 1
      && Grown(old(st.fleet), wid, PlanOf(w0), 0, w0.replicas, st.fleet, ok)
    ensures st.reliable && AllOpen(old(st.fleet), old(st.nextWorkload), w0.slug) ==> ok
  {
    var wid, before := st.nextWorkload, st.workloads;
    st.workloads, st.nextWorkload := before[wid := w0], wid + 1;
    ok := SpawnRange(st, wid, PlanOf(w0), 0, w0.replicas);
    st.workloads := st.workloads[wid := w0.(state := if ok then StateActive else StateFailed)];
    assert st.workloads == before[wid := w0.(state := if ok then StateActive else StateFailed)];
  }

  method Create(st: Store, name: string, services: seq<Service>, replicas: int) returns (ok: bool)
    requires Sound(st.Db())
    modifies st
    ensures Created(old(st.Db()), name, services, replicas, st.Db(), ok)
    ensures st.reliable && !Blank(name) && Acceptable(services) && !WorkloadSlugTaken(old(st.Db()), WorkloadSlug(name)) ==> ok
  {
    if Blank(name) {
      return false;
    }
    var checked := ValidateServices(services);
    if checked == Err {
      return false;
    }
    var n: nat := if replicas <= 0 then 1 else replicas;
    var slug := WorkloadSlug(name);
    if exists v :: v in st.workloads && st.workloads[v].slug == slug {
      return false;
    }
    assert !WorkloadSlugTaken(st.Db(), slug);
    SlugIsSlugged(name);
    SoundIsOpen(st.Db(), st.nextWorkload, slug);
    ok := Launch(st, Workload(slug, checked.value, n, 0, StateProvisioning));
  }

  // ----- scaling -----

  /** Deletes the tail of the listing, lowest victim first. */
  method DeleteVictims(st: Store, wid: WorkloadId, current: seq<InstanceId>, n: nat) returns (ok: bool)
    requires ReplicaOrder(st.fleet, wid, current) && n <= |current|
    modifies st`fleet
    ensures Shrunk(old(st.fleet), wid, n, st.fleet, ok)
    ensures st.reliable ==> ok
  {
    ghost var f := st.fleet;
    var k := n;
    while k < |current|
      invariant n <= k <= |current|
      invariant st.fleet == f.(instances := f.instances - Elems(current[n..k]))
    {
      assert current[k] !in Elems(current[n..k]);
      assert Elems(current[n..k + 1]) == Elems(current[n..k]) + {current[k]} by {
        assert current[n..k + 1] == current[n..k] + [current[k]];
      }
      ok := Instances.Delete(st, current[k]);
      if !ok {
        assert ShrunkBy(f, wid, n, current, k, st.fleet, false);
        return;
      }
      k := k + 1;
    }
    assert ShrunkBy(f, wid, n, current, k, st.fleet, true);
    ok := true;
  }

  /** The grow and shrink branches of Scale. */
  method Resize(st: Store, wid: WorkloadId, w: Plan, n: nat) returns (ok: bool)
    requires Slugged(w.slug) && w.services != [] && Instances.DistinctSlugs(st.fleet) && Instances.Minted(st.fleet)
    requires |Owned(st.fleet, wid)| <= LIST_LIMIT
    modifies st`fleet
    ensures Resized(old(st.fleet), wid, w, n, st.fleet, ok)
    ensures st.reliable && AllOpen(old(st.fleet), wid, w.slug) ==> ok
  {
    var current := ListInstances(st, wid);
    ElemsSize(current);
    if n > |current| {
      var next := NextReplicaIndex(st, wid, current);
      ok := SpawnRange(st, wid, w, next, next + (n - |current|));
      assert GrownFrom(old(st.fleet), wid, w, n, next, st.fleet, ok);
    } else {
      ok := DeleteVictims(st, wid, current, n);
    }
  }

  ghost predicate CanScale(ws: map<WorkloadId, Workload>, wid: WorkloadId) {
    wid in ws && ValidTransition(ws[wid].state, StateScaling)
  }

  method Scale(st: Store, wid: WorkloadId, n: int) returns (ok: bool)
    requires Sound(st.Db()) && |Owned(st.fleet, wid)| <= LIST_LIMIT
    modifies st
    ensures Scaled(old(st.Db()), wid, n, st.Db(), ok)
    ensures st.reliable && n >= 0 && CanScale(old(st.workloads), wid) ==> ok
  {
    if n < 0 || wid !in st.workloads {
      return false;
    }
    var w := st.workloads[wid];
    if !ValidTransition(w.state, StateScaling) {
      return false;
    }
    var before := st.workloads;
    w := w.(state := StateScaling);
    SoundIsOpen(st.Db(), wid, w.slug);
    st.workloads := st.workloads[wid := w];
    ok := Resize(st, wid, PlanOf(w), n);
    w := if ok then w.(replicas := n, state := if n == 0 then StatePaused else StateActive) else w.(state := StateFailed);
    st.workloads := st.workloads[wid := w];
    assert st.workloads == before[wid := w];
  }

  method Pause(st: Store, wid: WorkloadId) returns (ok: bool)
    requires Sound(st.Db()) && |Owned(st.fleet, wid)| <= LIST_LIMIT
    modifies st
    ensures Paused(old(st.Db()), wid, st.Db(), ok)
    ensures st.reliable && CanScale(old(st.workloads), wid) ==> ok
  {
    if wid !in st.workloads {
      return false;
    }
    var w := st.workloads[wid];
    if w.replicas > 0 {
      st.workloads := st.workloads[wid := w.(previous := w.replicas)];
    }
    assert st.Db() == Stamped(old(st.Db()), wid);
    WorkloadSafety.StampKeeps(old(st.Db()), wid);
    ok := Scale(st, wid, 0);
  }

  method Resume(st: Store, wid: WorkloadId) returns (ok: bool)
    requires Sound(st.Db()) && |Owned(st.fleet, wid)| <= LIST_LIMIT
    modifies st
    ensures Resumed(old(st.Db()), wid, st.Db(), ok)
    ensures st.reliable && CanScale(old(st.workloads), wid) ==> ok
  {
    if wid !in st.workloads {
      return false;
    }
    var w := st.workloads[wid];
    var target := w.previous;
    if target == 0 {
      target := w.replicas;
    }
    if target == 0 {
      target := 1;
    }
    ok := Scale(st, wid, target);
  }

  // ----- deploying -----

  /** The name-to-position map. */
  method IndexServices(services: seq<Service>) returns (known: map<string, nat>)
    ensures known.Keys == ServiceNames(services)
    ensures forall s :: s in known ==> known[s] < |services| && services[known[s]].name == s
  {
    known := map[];
    for i := 0 to |services|
      invariant known.Keys == ServiceNames(services[..i])
      invariant forall s :: s in known ==> known[s] < i && services[known[s]].name == s
    {
      assert services[..i + 1] == services[..i] + [services[i]];
      known := known[services[i].name := i];
    }
    assert services[..|services|] == services;
  }

  /** The request applied to the workload's own spec, entry by entry, through
      the name-to-position map. */
  method ApplyRequest(services: seq<Service>, request: seq<Item>) returns (r: Result<seq<Service>>)
    requires UniqueNames(services)
    ensures r.Ok? <==> Names(request) <= ServiceNames(services)
    ensures r.Ok? ==> r.value == PatchAll(services, request)
  {
    var known := IndexServices(services);
    var out := services;
    for k := 0 to |request|
      invariant out == PatchAll(services, request[..k])
      invariant Names(request[..k]) <= ServiceNames(services)
    {
      var sd := request[k];
      NamesInit(request[..k + 1]);
      assert request[..k + 1][..k] == request[..k];
      if sd.name !in known {
        assert sd.name in Names(request);
        return Err;
      }
      var i := known[sd.name];
      PatchOne(services, request[..k], sd, i);
      out := out[i := out[i].(image := sd.payload.image, env := if sd.payload.env.Some? then sd.payload.env else out[i].env)];
      assert request[..k + 1] == request[..k] + [sd];
    }
    assert request[..|request|] == request;
    return Ok(out);
  }

  lemma PatchOne(services: seq<Service>, request: seq<Item>, sd: Item, i: nat)
    requires UniqueNames(services) && i < |services| && services[i].name == sd.name
    ensures var p := PatchAll(services, request);
      PatchAll(services, request + [sd]) ==
      p[i := p[i].(image := sd.payload.image, env := if sd.payload.env.Some? then sd.payload.env else p[i].env)]
  {
    assert (request + [sd])[..|request|] == request;
    forall j | 0 <= j < |services| && j != i ensures services[j].name != sd.name {}
  }

  method Deploy(st: Store, wid: WorkloadId, request: seq<Item>, strategy: string) returns (ok: bool)
    requires WorkloadsSound(st.Db()) && |Owned(st.fleet, wid)| <= LIST_LIMIT
    modifies st
    ensures Redeployed(old(st.Db()), wid, request, strategy, st.Db(), ok)
    ensures st.reliable && !DeployRefused(old(st.Db()), wid, request) && Owned(old(st.fleet), wid) != {} ==>
      (Deploys.StrategyOf(strategy) in st.strategies ==> ok)
  {
    if request == [] || wid !in st.workloads {
      return false;
    }
    var w := st.workloads[wid];
    if !ValidTransition(w.state, StateDeploying) {
      return false;
    }
    var patched := ApplyRequest(w.services, request);
    if patched == Err {
      return false;
    }
    var before := st.workloads;
    w := w.(services := patched.value, state := StateDeploying);
    st.workloads := st.workloads[wid := w];
    var none;
    none, ok := UpdateReplicas(st, wid, request, strategy);
    w := w.(state := if ok || none then StateActive else StateFailed);
    st.workloads := st.workloads[wid := w];
    assert st.workloads == before[wid := w];
  }

  method UpdateReplicas(st: Store, wid: WorkloadId, request: seq<Item>, strategy: string) returns (none: bool, ok: bool)
    requires |Owned(st.fleet, wid)| <= LIST_LIMIT
    modifies st`fleet
    ensures st.fleet == old(st.fleet).(chains := st.fleet.chains)
    ensures none <==> Owned(old(st.fleet), wid) == {}
    ensures none ==> !ok
    ensures Updated(old(st.fleet), wid, request, strategy, st.fleet, ok)
    ensures st.reliable && !none && Deploys.StrategyOf(strategy) in st.strategies ==> ok
  {
    var replicas := ListInstances(st, wid);
    none := replicas == [];
    if none {
      ok := false;
      assert RolledOut(old(st.fleet), replicas, 0, request, strategy, st.fleet);
    } else {
      assert replicas[0] in Owned(st.fleet, wid);
      ok := RollOut(st, wid, replicas, request, strategy);
    }
  }

  /** One deploy per replica, stopping at the first that fails. */
  method RollOut(st: Store, wid: WorkloadId, replicas: seq<InstanceId>, request: seq<Item>, strategy: string) returns (ok: bool)
    requires ReplicaOrder(st.fleet, wid, replicas)
    modifies st`fleet
    ensures st.fleet == old(st.fleet).(chains := st.fleet.chains)
    ensures Updated(old(st.fleet), wid, request, strategy, st.fleet, ok)
    ensures st.reliable && Deploys.StrategyOf(strategy) in st.strategies ==> ok
  {
    ghost var f := st.fleet;
    var k := 0;
    while k < |replicas|
      invariant 0 <= k <= |replicas|
      invariant st.fleet == f.(chains := st.fleet.chains)
      invariant forall j :: 0 <= j < k ==>
        Stepped(ChainOf(f, replicas[j]), ChainOp.Deploy(request, strategy), ChainOf(st.fleet, replicas[j]), true)
      invariant forall i: InstanceId :: i !in replicas[..k] ==> ChainOf(st.fleet, i) == ChainOf(f, i)
    {
      ghost var f1 := st.fleet;
      ok := Deploys.Deploy(st, replicas[k], request, strategy);
      assert replicas[k] !in replicas[..k];
      assert forall i: InstanceId :: i != replicas[k] ==> ChainOf(st.fleet, i) == ChainOf(f1, i);
      assert replicas[..k + 1] == replicas[..k] + [replicas[k]];
      if !ok {
        assert RolledOut(f, replicas, k, request, strategy, st.fleet);
        return;
      }
      k := k + 1;
    }
    assert RolledOut(f, replicas, k, request, strategy, st.fleet);
    ok := true;
  }

  // ----- deleting -----

  method Delete(st: Store, wid: WorkloadId) returns (ok: bool)
    requires |Owned(st.fleet, wid)| <= LIST_LIMIT
    modifies st
    ensures Deleted(old(st.Db()), wid, st.Db(), ok)
    ensures st.reliable && wid in old(st.workloads) ==> ok
  {
    if wid !in st.workloads {
      return false;
    }
    var before := st.workloads;
    var w := st.workloads[wid];
    st.workloads := st.workloads[wid := w.(state := StateDestroying)];
    ok := EmptyOut(st, wid);
    if !ok {
      st.workloads := st.workloads[wid := w.(state := StateFailed)];
      assert st.workloads == before[wid := w.(state := StateFailed)];
      return;
    }
    st.workloads := st.workloads - {wid};
    assert st.workloads == before - {wid};
  }

  /** Tries every replica, remembering whether any deletion failed. */
  method EmptyOut(st: Store, wid: WorkloadId) returns (ok: bool)
    requires |Owned(st.fleet, wid)| <= LIST_LIMIT
    modifies st`fleet
    ensures Emptied(old(st.fleet), wid, st.fleet, ok)
    ensures st.reliable ==> ok
  {
    ghost var f := st.fleet;
    var replicas := ListInstances(st, wid);
    var failed: seq<InstanceId> := [];
    for k := 0 to |replicas|
      invariant st.fleet == f.(instances := st.fleet.instances)
      invariant st.fleet.instances.Keys == f.instances.Keys - (Elems(replicas[..k]) - Elems(failed))
      invariant Elems(failed) <= Elems(replicas[..k])
      invariant st.reliable ==> failed == []
      invariant forall i :: i in st.fleet.instances ==>
        st.fleet.instances[i] == if i in Elems(failed) then f.instances[i].(state := InstanceFailed) else f.instances[i]
    {
      var i := replicas[k];
      assert i !in Elems(replicas[..k]);
      assert Elems(replicas[..k + 1]) == Elems(replicas[..k]) + {i} by {
        assert replicas[..k + 1] == replicas[..k] + [i];
      }
      var deleted := Instances.Delete(st, i);
      if !deleted {
        assert Elems(failed + [i]) == Elems(failed) + {i};
        failed := failed + [i];
      }
    }
    assert replicas[..|replicas|] == replicas;
    ok := failed == [];
    if !ok {
      assert failed[0] in Elems(failed);
      assert failed[0] in st.fleet.instances && OwnedBy(f.instances[failed[0]], wid);
    }
  }
}
