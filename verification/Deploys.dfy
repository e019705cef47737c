/** deploy/service_impl.go: RecordInitial, Deploy and Rollback step the
    release chain and the deployment rows of one instance. */
module Deploys {
  import opened ReleaseChain
  import opened Stores

  /** Only the chain of i changes, and it takes one step. */
  ghost predicate ChainEffect(f: Fleet, i: InstanceId, op: ChainOp, f': Fleet, ok: bool) {
    && f' == f.(chains := f.chains[i := ChainOf(f', i)])
    && Stepped(ChainOf(f, i), op, ChainOf(f', i), ok)
  }

  /** The request overrides the newest release; what it leaves out is
      inherited. */
  method BuildReleaseSnapshot(releases: seq<Release>, updates: seq<Item>) returns (out: seq<Item>)
    ensures out == Inherit(NewestOf(releases), updates)
  {
    out := [];
    var covered: set<string> := {};
    for k := 0 to |updates|
      invariant out == updates[..k] && covered == Names(updates[..k])
    {
      out := out + [updates[k]];
      covered := covered + {updates[k].name};
      assert updates[..k + 1][..k] == updates[..k];
      NamesInit(updates[..k + 1]);
    }
    assert updates[..|updates|] == updates;
    var prior := NewestOf(releases);
    if prior.Some? {
      var prev := prior.value.services;
      for k := 0 to |prev|
        invariant out == updates + Unlisted(prev[..k], covered)
      {
        assert prev[..k + 1][..k] == prev[..k];
        if prev[k].name !in covered {
          out := out + [prev[k]];
        }
      }
      assert prev[..|prev|] == prev;
    }
  }

  method RecordInitial(st: Store, i: InstanceId) returns (ok: bool)
    modifies st`fleet
    ensures if i !in old(st.fleet).instances then !ok && st.fleet == old(st.fleet)
            else ok && ChainEffect(old(st.fleet), i, ChainOp.RecordInitial(Items(old(st.fleet).instances[i].services)), st.fleet, true)
  {
    if i !in st.fleet.instances {
      return false;
    }
    var chain := ChainOf(st.fleet, i);
    if chain.releases == [] {
      var snapshots := Items(st.fleet.instances[i].services);
      var version := MaxVersion(chain.releases) + 1;
      assert Inherit(NewestOf(chain.releases), snapshots) == snapshots;
      chain := chain.(releases := chain.releases + [Release(version, snapshots)]);
      chain := chain.(deployments := chain.deployments + [Deployment(version, snapshots, "initial", DeploySucceeded)]);
    }
    st.fleet := st.fleet.(chains := st.fleet.chains[i := chain]);
    return true;
  }

  /** The provider side of a strategy: applies the listed services or fails
      part of the way through them. */
  method Execute(st: Store, running: map<string, Payload>, items: seq<Item>) returns (ok: bool, running': map<string, Payload>)
    ensures Executed(running, items, running', ok)
    ensures st.reliable ==> ok
  {
    var applied: bool := *;
    ok := st.reliable || applied;
    if ok {
      running' := running + AsMap(items);
    } else {
      var touched: map<string, Payload> := *;
      running' := (running - Names(items)) + (touched - (touched.Keys - Names(items)));
    }
  }

  /** The deployment row is inserted pending; an unknown strategy or
      provider leaves it there, otherwise the strategy decides. */
  method Roll(st: Store, i: InstanceId, d: Deployment) returns (ok: bool)
    requires i in st.fleet.chains && d.state == DeployPending
    modifies st`fleet
    ensures i in st.fleet.chains && st.fleet == old(st.fleet).(chains := old(st.fleet).chains[i := st.fleet.chains[i]])
    ensures var c, c' := old(st.fleet).chains[i], st.fleet.chains[i];
      && c'.releases == c.releases
      && |c'.deployments| == |c.deployments| + 1 && c.deployments <= c'.deployments
      && (var d' := c'.deployments[|c.deployments|]; d' == d.(state := d'.state) && Settled(d', ok))
      && Executed(c.running, d.services, c'.running, ok)
      && (c'.deployments[|c.deployments|].state == DeployPending ==> c'.running == c.running)
      && (d.strategy !in st.strategies ==> c'.deployments[|c.deployments|].state == DeployPending)
    ensures d.strategy !in st.strategies ==> !ok
    ensures d.strategy in st.strategies && st.reliable ==> ok
  {
    var chain := st.fleet.chains[i];
    var answers: bool := *;
    var providerKnown := st.reliable || answers;
    if d.strategy !in st.strategies || !providerKnown {
      ok := false;
      st.fleet := st.fleet.(chains := st.fleet.chains[i := chain.(deployments := chain.deployments + [d])]);
      return;
    }
    var dep := d.(state := DeployRunning);
    var running;
    ok, running := Execute(st, chain.running, d.services);
    dep := dep.(state := if ok then DeploySucceeded else DeployFailed);
    st.fleet := st.fleet.(chains := st.fleet.chains[i := chain.(deployments := chain.deployments + [dep], running := running)]);
  }

  /** The strategy run for a request: the one asked for, or rolling. */
  function StrategyOf(requested: string): string { if requested == "" then "rolling" else requested }

  /** The appended deployment runs the requested strategy, or rolling when
      none is requested. */
  method Deploy(st: Store, i: InstanceId, updates: seq<Item>, strategy: string) returns (ok: bool)
    modifies st`fleet
    ensures if i !in old(st.fleet).instances then !ok && st.fleet == old(st.fleet)
            else ChainEffect(old(st.fleet), i, ChainOp.Deploy(updates, strategy), st.fleet, ok)
    ensures i in old(st.fleet).instances && StrategyOf(strategy) in st.strategies && st.reliable ==> ok
    ensures StrategyOf(strategy) !in st.strategies ==> !ok
  {
    if i !in st.fleet.instances {
      return false;
    }
    var chain := ChainOf(st.fleet, i);
    var version := MaxVersion(chain.releases) + 1;
    var services := BuildReleaseSnapshot(chain.releases, updates);
    st.fleet := st.fleet.(chains := st.fleet.chains[i := chain.(releases := chain.releases + [Release(version, services)])]);
    var name := strategy;
    if name == "" {
      name := "rolling";
    }
    ok := Roll(st, i, Deployment(version, updates, name, DeployPending));
  }

  ghost predicate Has(c: Chain, version: nat) { exists r :: r in c.releases && r.version == version }

  method Rollback(st: Store, i: InstanceId, version: nat) returns (ok: bool)
    modifies st`fleet
    ensures if i !in old(st.fleet).instances then !ok && st.fleet == old(st.fleet)
            else ChainEffect(old(st.fleet), i, ChainOp.Rollback(version), st.fleet, ok)
    ensures st.reliable && "recreate" in st.strategies && i in old(st.fleet).instances && Has(ChainOf(old(st.fleet), i), version) ==> ok
  {
    if i !in st.fleet.instances {
      return false;
    }
    var chain := ChainOf(st.fleet, i);
    st.fleet := st.fleet.(chains := st.fleet.chains[i := chain]);
    var k := 0;
    while k < |chain.releases| && chain.releases[k].version != version
      invariant 0 <= k <= |chain.releases|
      invariant forall j :: 0 <= j < k ==> chain.releases[j].version != version
    {
      k := k + 1;
    }
    if k == |chain.releases| {
      return false;
    }
    var r := chain.releases[k];
    assert r in chain.releases;
    ok := Roll(st, i, Deployment(version, r.services, "recreate", DeployPending));
  }
}
