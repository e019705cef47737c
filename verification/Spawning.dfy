/** One spawn at a time: how a single spawnReplica call extends what a run
    of them has done so far. */
module Spawning {
  import opened Common
  import opened Text
  import opened ReleaseChain
  import opened Stores
  import opened Instances
  import opened WorkloadSpec

  /** The chain of a replica that came up, after its initial recording. */
  function BornChain(services: seq<Service>): Chain {
    Chain(Issue([], Items(services)), [Deployment(1, Items(services), "initial", DeploySucceeded)], AsMap(Items(services)))
  }

  /** The fleet with one more replica, in the given state and with the given
      chain. */
  function WithReplica(f: Fleet, wid: WorkloadId, w: Plan, k: nat, state: InstanceState, chain: Chain): Fleet {
    f.(instances := f.instances[f.nextInstance := NewRow(f, ReplicaName(w.slug, k), w.services, ReplicaLabels(wid, k), state)],
       chains := f.chains[f.nextInstance := chain],
       nextInstance := f.nextInstance + 1)
  }

  /** Reuse the row already on the slug, or create one; a foreign owner, a
      refusal or a failed Provision is an error. */
  ghost predicate SpawnEffect(f: Fleet, wid: WorkloadId, w: Plan, k: nat, f': Fleet, ok: bool) {
    var slug := ReplicaName(w.slug, k);
    if SlugTaken(f, slug) then f' == f && (ok <==> Held(f, wid, slug))
    else if ok then f' == WithReplica(f, wid, w, k, InstanceRunning, BornChain(w.services))
    else f' == f || f' == WithReplica(f, wid, w, k, InstanceFailed, ChainOf(f', f.nextInstance))
  }

  /** Indices lo..k-1 were all spawned. */
  ghost predicate SpawnedAll(f: Fleet, wid: WorkloadId, w: Plan, lo: nat, k: nat, f': Fleet) {
    SpawnedUpTo(f, wid, w, lo, k, f')
    && forall i :: i in f'.instances && i !in f.instances ==> IndexOf(f'.instances[i]) < k
  }

  /** No row of another workload sits on the slug. */
  ghost predicate NotForeign(f: Fleet, wid: WorkloadId, slug: string) { SlugTaken(f, slug) ==> Held(f, wid, slug) }

  lemma StillNotForeign(f: Fleet, wid: WorkloadId, w: Plan, lo: nat, k: nat, f1: Fleet, slug: string)
    requires SpawnedAll(f, wid, w, lo, k, f1) && NotForeign(f, wid, slug)
    ensures NotForeign(f1, wid, slug)
  {
    if SlugTaken(f1, slug) {
      var i :| i in f1.instances && f1.instances[i].slug == slug;
      if i in f.instances {
        assert SlugTaken(f, slug);
        HeldKept(f, f1, wid, slug);
      } else {
        assert FromSpawn(f, wid, w, lo, k, i, f1.instances[i], ChainOf(f1, i));
      }
    }
  }

  lemma SpawnStart(f: Fleet, wid: WorkloadId, w: Plan, lo: nat)
    ensures SpawnedAll(f, wid, w, lo, lo, f)
  {}

  lemma NewRowFacts(f: Fleet, w: Plan, wid: WorkloadId, k: nat, state: InstanceState)
    requires Slugged(w.slug)
    ensures var row := NewRow(f, ReplicaName(w.slug, k), w.services, ReplicaLabels(wid, k), state);
      row.labels == ReplicaLabels(wid, k) && IndexOf(row) == k && row.slug == ReplicaName(w.slug, k)
      && row.services == w.services && row.state == state
  {
    LookupSlugIsStoredSlug(w.slug, k);
    ReadItoa(k);
  }

  lemma HeldKept(f: Fleet, f': Fleet, wid: WorkloadId, slug: string)
    requires Held(f, wid, slug) && Kept(f, f')
    ensures Held(f', wid, slug)
  {
    var i :| i in f.instances && f.instances[i].slug == slug
      && (f.instances[i].labels.workload == None || OwnedBy(f.instances[i], wid));
    assert i in f'.instances;
  }

  lemma WithReplicaKept(f: Fleet, wid: WorkloadId, w: Plan, k: nat, state: InstanceState, chain: Chain)
    requires Minted(f)
    ensures Kept(f, WithReplica(f, wid, w, k, state, chain)) && Minted(WithReplica(f, wid, w, k, state, chain))
  {}

  lemma KeptTransitive(f: Fleet, f1: Fleet, f2: Fleet)
    requires Kept(f, f1) && Kept(f1, f2)
    ensures Kept(f, f2)
  {}

  /** The new row, seen from the fleet the whole run started from. */
  lemma NewReplicaFresh(f: Fleet, wid: WorkloadId, w: Plan, k: nat, f1: Fleet, state: InstanceState)
    requires Slugged(w.slug) && Kept(f, f1) && !SlugTaken(f1, ReplicaName(w.slug, k))
    ensures FreshReplica(f, wid, w, k, NewRow(f1, ReplicaName(w.slug, k), w.services, ReplicaLabels(wid, k), state))
  {
    NewRowFacts(f1, w, wid, k, state);
    assert forall i :: i in f.instances ==> i in f1.instances && f1.instances[i].slug == f.instances[i].slug;
  }

  lemma HeldStays(f: Fleet, wid: WorkloadId, w: Plan, lo: nat, k: nat, f1: Fleet, state: InstanceState, chain: Chain)
    requires forall j :: lo <= j < k ==> Held(f1, wid, ReplicaName(w.slug, j))
    requires Slugged(w.slug) && Minted(f1)
    ensures var f2 := WithReplica(f1, wid, w, k, state, chain);
      forall j :: lo <= j < k + 1 ==> Held(f2, wid, ReplicaName(w.slug, j))
  {
    var f2 := WithReplica(f1, wid, w, k, state, chain);
    WithReplicaKept(f1, wid, w, k, state, chain);
    NewRowFacts(f1, w, wid, k, state);
    forall j | lo <= j < k + 1 ensures Held(f2, wid, ReplicaName(w.slug, j)) {
      if j < k {
        HeldKept(f1, f2, wid, ReplicaName(w.slug, j));
      } else {
        assert f1.nextInstance in f2.instances;
      }
    }
  }

  lemma RowsStay(f: Fleet, wid: WorkloadId, w: Plan, lo: nat, k: nat, f1: Fleet, state: InstanceState, chain: Chain, stop: nat)
    requires SpawnedAll(f, wid, w, lo, k, f1) && lo <= k && Slugged(w.slug) && Minted(f1)
    requires !SlugTaken(f1, ReplicaName(w.slug, k))
    requires if state == InstanceRunning then stop == k + 1 && chain == BornChain(w.services)
             else stop == k && state == InstanceFailed
    ensures var f2 := WithReplica(f1, wid, w, k, state, chain);
      forall i :: i in f2.instances && i !in f.instances ==>
        i < f2.nextInstance && FromSpawn(f, wid, w, lo, stop, i, f2.instances[i], ChainOf(f2, i))
        && IndexOf(f2.instances[i]) <= k
  {
    var f2 := WithReplica(f1, wid, w, k, state, chain);
    WithReplicaKept(f1, wid, w, k, state, chain);
    forall i | i in f2.instances && i !in f.instances
      ensures i < f2.nextInstance && FromSpawn(f, wid, w, lo, stop, i, f2.instances[i], ChainOf(f2, i))
      ensures IndexOf(f2.instances[i]) <= k
    {
      if i == f1.nextInstance {
        NewRowFacts(f1, w, wid, k, state);
        NewReplicaFresh(f, wid, w, k, f1, state);
      } else {
        OldRowStays(f, wid, w, lo, k, f1, f2, i, stop);
      }
    }
  }

  /** A spawn that adds a row: everything the run had established stays, and
      the new row is a fresh replica of index k. */
  lemma SpawnAdds(f: Fleet, wid: WorkloadId, w: Plan, lo: nat, k: nat, f1: Fleet, state: InstanceState, chain: Chain)
    requires SpawnedAll(f, wid, w, lo, k, f1) && lo <= k && Slugged(w.slug) && Minted(f1)
    requires !SlugTaken(f1, ReplicaName(w.slug, k))
    requires state == InstanceRunning || state == InstanceFailed
    requires state == InstanceRunning ==> chain == BornChain(w.services)
    ensures var f2 := WithReplica(f1, wid, w, k, state, chain);
      if state == InstanceRunning then SpawnedAll(f, wid, w, lo, k + 1, f2) else SpawnedUpTo(f, wid, w, lo, k, f2)
  {
    var f2 := WithReplica(f1, wid, w, k, state, chain);
    var stop := if state == InstanceRunning then k + 1 else k;
    WithReplicaKept(f1, wid, w, k, state, chain);
    KeptTransitive(f, f1, f2);
    HeldStays(f, wid, w, lo, k, f1, state, chain);
    RowsStay(f, wid, w, lo, k, f1, state, chain, stop);
    NewRowFacts(f1, w, wid, k, state);
    NewStayDistinct(f, k, f1, f2, f1.nextInstance);
  }

  lemma NewStayDistinct(f: Fleet, k: nat, f1: Fleet, f2: Fleet, new0: InstanceId)
    requires NewIndicesDistinct(f, f1)
    requires forall i :: i in f1.instances && i !in f.instances ==> IndexOf(f1.instances[i]) < k
    requires forall i :: i in f1.instances ==> i in f2.instances && f2.instances[i] == f1.instances[i]
    requires new0 in f2.instances && f2.instances.Keys == f1.instances.Keys + {new0} && IndexOf(f2.instances[new0]) == k
    ensures NewIndicesDistinct(f, f2)
  {}

  lemma OldRowStays(f: Fleet, wid: WorkloadId, w: Plan, lo: nat, k: nat, f1: Fleet, f2: Fleet, i: InstanceId, stop: nat)
    requires SpawnedAll(f, wid, w, lo, k, f1) && Kept(f1, f2) && Minted(f1)
    requires i in f1.instances && i !in f.instances && k <= stop
    ensures i < f2.nextInstance && FromSpawn(f, wid, w, lo, stop, i, f2.instances[i], ChainOf(f2, i))
    ensures IndexOf(f2.instances[i]) < k
  {
    assert FromSpawn(f, wid, w, lo, k, i, f1.instances[i], ChainOf(f1, i));
  }

  lemma SpawnStep(f: Fleet, wid: WorkloadId, w: Plan, lo: nat, k: nat, f1: Fleet, f2: Fleet, ok: bool)
    requires SpawnedAll(f, wid, w, lo, k, f1) && lo <= k && Slugged(w.slug) && Minted(f1)
    requires SpawnEffect(f1, wid, w, k, f2, ok)
    ensures Minted(f2)
    ensures if ok then SpawnedAll(f, wid, w, lo, k + 1, f2) else SpawnedUpTo(f, wid, w, lo, k, f2)
  {
    if f2 != f1 {
      var state := if ok then InstanceRunning else InstanceFailed;
      var chain := if ok then BornChain(w.services) else ChainOf(f2, f1.nextInstance);
      WithReplicaKept(f1, wid, w, k, state, chain);
      SpawnAdds(f, wid, w, lo, k, f1, state, chain);
    }
  }
}
