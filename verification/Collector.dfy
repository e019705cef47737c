/** worker/gc.go: the orphan sweep of one tenant. */
module Collector {
  import opened Common
  import opened Stores
  import opened WorkloadInvariants
  import opened WorkloadRuns
  import Instances

  datatype Lookup = Found | NotFound | Unavailable

  /** Old enough, labelled, and the labelled workload is definitely gone. */
  ghost predicate Reapable(ws: map<WorkloadId, Workload>, row: Instance, now: int, grace: int) {
    && row.labels.workload.Some?
    && now - row.createdAt >= grace
    && row.labels.workload.value !in ws
  }

  /** Which workload lookups the store answers; the others time out. */
  type Answers = WorkloadId -> bool

  ghost predicate Eligible(ws: map<WorkloadId, Workload>, row: Instance, now: int, grace: int, answers: Answers) {
    Reapable(ws, row, now, grace) && answers(row.labels.workload.value)
  }

  /** What a sweep is told: the workloads there are, the time, the grace age
      and what the store answers. */
  datatype Sight = Sight(workloads: map<WorkloadId, Workload>, now: int, grace: int, answers: Answers)

  ghost predicate Orphan(v: Sight, row: Instance) { Eligible(v.workloads, row, v.now, v.grace, v.answers) }

  /** Every orphan examined is gone, or failed to go and is kept as failed;
      every other row is untouched. */
  ghost predicate Swept(v: Sight, f: Fleet, examined: set<InstanceId>, f': Fleet, swept: nat) {
    && f' == f.(instances := f'.instances) && f'.instances.Keys <= f.instances.Keys
    && (forall i :: i in f.instances && !(i in examined && Orphan(v, f.instances[i])) ==>
          i in f'.instances && f'.instances[i] == f.instances[i])
    && (forall i :: i in f'.instances && i in examined && Orphan(v, f.instances[i]) ==>
          f'.instances[i] == f.instances[i].(state := InstanceFailed))
    && |f.instances.Keys - f'.instances.Keys| == swept
  }

  /** A store lookup answers truthfully or not at all. */
  method GetWorkload(st: Store, wid: WorkloadId, answers: Answers) returns (r: Lookup)
    ensures r == if !answers(wid) then Unavailable else if wid in st.workloads then Found else NotFound
  {
    return if !answers(wid) then Unavailable else if wid in st.workloads then Found else NotFound;
  }

  method IsOrphan(st: Store, row: Instance, now: int, grace: int, answers: Answers) returns (orphan: bool)
    ensures orphan <==> Eligible(st.workloads, row, now, grace, answers)
  {
    if row.labels.workload == None {
      return false;
    }
    if now - row.createdAt < grace {
      return false;
    }
    var r := GetWorkload(st, row.labels.workload.value, answers);
    return r == NotFound;
  }

  lemma OneMoreGone(was: set<InstanceId>, left: set<InstanceId>, i: InstanceId)
    requires i in left && left <= was
    ensures |was - (left - {i})| == |was - left| + 1
  {
    assert was - (left - {i}) == (was - left) + {i};
  }

  lemma ReapGone(v: Sight, f: Fleet, done: set<InstanceId>, f1: Fleet, swept: nat, i: InstanceId, f2: Fleet)
    requires Swept(v, f, done, f1, swept) && i in f1.instances && Orphan(v, f.instances[i])
    requires f2 == f1.(instances := f1.instances - {i})
    ensures Swept(v, f, done + {i}, f2, swept + 1)
  {
    assert f2.instances.Keys == f1.instances.Keys - {i};
    OneMoreGone(f.instances.Keys, f1.instances.Keys, i);
  }

  lemma ReapFailed(v: Sight, f: Fleet, done: set<InstanceId>, f1: Fleet, swept: nat, i: InstanceId, f2: Fleet)
    requires Swept(v, f, done, f1, swept) && i in f1.instances && Orphan(v, f.instances[i]) && f1.instances[i] == f.instances[i]
    requires f2 == f1.(instances := f1.instances[i := f1.instances[i].(state := InstanceFailed)])
    ensures Swept(v, f, done + {i}, f2, swept)
  {
    assert f2.instances.Keys == f1.instances.Keys;
  }

  /** One more row examined. */
  lemma SweepStep(v: Sight, f: Fleet, done: set<InstanceId>, f1: Fleet, swept: nat, i: InstanceId, f2: Fleet, ok: bool)
    requires Swept(v, f, done, f1, swept) && i in f.instances && i !in done
    requires if Orphan(v, f.instances[i]) then Instances.DeleteEffect(f1, i, f2, ok) else f2 == f1 && !ok
    ensures Swept(v, f, done + {i}, f2, if ok then swept + 1 else swept)
  {
    assert i in f1.instances && f1.instances[i] == f.instances[i];
    if ok {
      ReapGone(v, f, done, f1, swept, i, f2);
    } else if Orphan(v, f.instances[i]) {
      ReapFailed(v, f, done, f1, swept, i, f2);
    }
  }

  /** The tenant's listing, in no particular order and cut off at the limit. */
  method Page(st: Store, limit: nat) returns (page: seq<InstanceId>)
    ensures Distinct(page) && Elems(page) <= st.fleet.instances.Keys && |page| <= limit
    ensures |st.fleet.instances.Keys| <= limit ==> Elems(page) == st.fleet.instances.Keys
  {
    page := [];
    var rest := st.fleet.instances.Keys;
    while rest != {} && |page| < limit
      invariant rest == st.fleet.instances.Keys - Elems(page) && Elems(page) <= st.fleet.instances.Keys
      invariant Distinct(page) && |page| <= limit
      decreases rest
    {
      var i :| i in rest;
      assert i !in Elems(page);
      assert Elems(page + [i]) == Elems(page) + {i};
      page := page + [i];
      rest := rest - {i};
    }
    ElemsSize(page);
    SubsetSize(Elems(page), st.fleet.instances.Keys);
  }

  /** Deletes one listed row if it is an orphan. */
  method Examine(st: Store, i: InstanceId, row: Instance, now: int, grace: int, answers: Answers) returns (ok: bool)
    modifies st`fleet
    ensures if Eligible(st.workloads, row, now, grace, answers) then Instances.DeleteEffect(old(st.fleet), i, st.fleet, ok)
            else st.fleet == old(st.fleet) && !ok
    ensures st.reliable && i in old(st.fleet).instances && Eligible(st.workloads, row, now, grace, answers) ==> ok
  {
    var orphan := IsOrphan(st, row, now, grace, answers);
    if !orphan {
      return false;
    }
    ok := Instances.Delete(st, i);
  }

  ghost predicate OrphansGone(v: Sight, f: Fleet, page: seq<InstanceId>, f': Fleet) {
    forall i :: i in page && i in f.instances && Orphan(v, f.instances[i]) ==> i !in f'.instances
  }

  /** One listed row, seen from the start of the sweep. */
  method SweepOne(st: Store, ghost f: Fleet, ghost done: set<InstanceId>, i: InstanceId, row: Instance, now: int, grace: int,
                  answers: Answers, swept0: nat) returns (swept: nat)
    requires Swept(Sight(st.workloads, now, grace, answers), f, done, st.fleet, swept0)
    requires i in f.instances && i !in done && row == f.instances[i]
    modifies st`fleet
    ensures Swept(Sight(st.workloads, now, grace, answers), f, done + {i}, st.fleet, swept)
    ensures st.fleet.instances.Keys <= old(st.fleet).instances.Keys
    ensures st.reliable && Orphan(Sight(st.workloads, now, grace, answers), row) ==> i !in st.fleet.instances
  {
    ghost var f1 := st.fleet;
    var ok := Examine(st, i, row, now, grace, answers);
    SweepStep(Sight(st.workloads, now, grace, answers), f, done, f1, swept0, i, st.fleet, ok);
    swept := if ok then swept0 + 1 else swept0;
  }

  lemma GoneStep(v: Sight, f: Fleet, page: seq<InstanceId>, k: nat, f1: Fleet, f2: Fleet)
    requires k < |page| && OrphansGone(v, f, page[..k], f1) && f2.instances.Keys <= f1.instances.Keys
    requires page[k] in f.instances && (Orphan(v, f.instances[page[k]]) ==> page[k] !in f2.instances)
    ensures OrphansGone(v, f, page[..k + 1], f2)
  {
    assert page[..k + 1] == page[..k] + [page[k]];
  }

  method SweepTenant(st: Store, now: int, grace: int, limit: nat, answers: Answers) returns (swept: nat, page: seq<InstanceId>)
    modifies st`fleet
    ensures Elems(page) <= old(st.fleet).instances.Keys && |page| <= limit
    ensures |old(st.fleet).instances.Keys| <= limit ==> Elems(page) == old(st.fleet).instances.Keys
    ensures Swept(Sight(st.workloads, now, grace, answers), old(st.fleet), Elems(page), st.fleet, swept)
    ensures st.reliable ==> OrphansGone(Sight(st.workloads, now, grace, answers), old(st.fleet), page, st.fleet)
  {
    page := Page(st, limit);
    swept := SweepPage(st, now, grace, page, answers);
  }

  method SweepPage(st: Store, now: int, grace: int, page: seq<InstanceId>, answers: Answers) returns (swept: nat)
    requires Distinct(page) && Elems(page) <= st.fleet.instances.Keys
    modifies st`fleet
    ensures Swept(Sight(st.workloads, now, grace, answers), old(st.fleet), Elems(page), st.fleet, swept)
    ensures st.reliable ==> OrphansGone(Sight(st.workloads, now, grace, answers), old(st.fleet), page, st.fleet)
  {
    var listed := st.fleet.instances;
    ghost var v, f := Sight(st.workloads, now, grace, answers), st.fleet;
    swept := 0;
    for k := 0 to |page|
      invariant Swept(v, f, Elems(page[..k]), st.fleet, swept)
      invariant st.reliable ==> OrphansGone(v, f, page[..k], st.fleet)
    {
      ghost var f1 := st.fleet;
      ElemsNext(page, k);
      swept := SweepOne(st, f, Elems(page[..k]), page[k], listed[page[k]], now, grace, answers, swept);
      if st.reliable {
        GoneStep(v, f, page, k, f1, st.fleet);
      }
    }
    assert page[..|page|] == page;
  }

  /** After any run of workload operations, whatever failed, a sweep deletes
      nothing. */
  lemma SweepFindsNothing(dbs: seq<World>, ops: seq<Op>, oks: seq<bool>, v: Sight, examined: set<InstanceId>, f': Fleet, swept: nat)
    requires Run(dbs, ops, oks) && Sound(dbs[0]) && v.workloads == dbs[|ops|].workloads
    requires Swept(v, dbs[|ops|].fleet, examined, f', swept)
    ensures f' == dbs[|ops|].fleet && swept == 0
  {
    var db := dbs[|ops|];
    RunKeepsSound(dbs, ops, oks);
    forall i | i in db.fleet.instances ensures !Orphan(v, db.fleet.instances[i]) {
      assert Placed(db.workloads, db.fleet.instances[i]);
    }
    assert f'.instances == db.fleet.instances;
    assert db.fleet.instances.Keys - f'.instances.Keys == {};
  }
}
