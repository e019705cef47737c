/** The release chain of one instance: immutable, self-contained snapshots
    built by overriding the previous one, beside what the provider runs. */
module ReleaseChain {
  import opened Common

  type Env = map<string, string>

  datatype Payload = Payload(image: string, env: Option<Env>)

  /** One service of a snapshot, and one entry of a deploy request: both
      carry a name, an image and an environment. */
  datatype Item = Item(name: string, payload: Payload)

  datatype Release = Release(version: nat, services: seq<Item>)

  datatype DeployState = DeployPending | DeployRunning | DeploySucceeded | DeployFailed

  datatype Deployment = Deployment(version: nat, services: seq<Item>, strategy: string, state: DeployState)

  /** Release rows in insertion order, deployment rows in insertion order,
      and the service map the provider currently runs. */
  datatype Chain = Chain(releases: seq<Release>, deployments: seq<Deployment>, running: map<string, Payload>)

  const EMPTY := Chain([], [], map[])

  // ----- store queries: newest release first, next version = max + 1 -----

  function MaxVersion(rs: seq<Release>): nat {
    if rs == [] then 0
    else var v, m := rs[|rs| - 1].version, MaxVersion(rs[..|rs| - 1]); if m < v then v else m
  }

  function NewestOf(rs: seq<Release>): Option<Release> {
    if rs == [] then None
    else
      var r, p := rs[|rs| - 1], NewestOf(rs[..|rs| - 1]);
      if p.None? || p.value.version <= r.version then Some(r) else p
  }

  /** Versions count 1, 2, 3, ... in insertion order. */
  ghost predicate Numbered(rs: seq<Release>) {
    forall i :: 0 <= i < |rs| ==> rs[i].version == i + 1
  }

  lemma {:induction false} NumberedNewest(rs: seq<Release>)
    requires Numbered(rs)
    ensures MaxVersion(rs) == |rs|
    ensures NewestOf(rs) == if rs == [] then None else Some(rs[|rs| - 1])
  {
    if rs != [] {
      NumberedNewest(rs[..|rs| - 1]);
    }
  }

  // ----- snapshots -----

  function Names(items: seq<Item>): set<string> { set x | x in items :: x.name }

  ghost predicate DistinctNames(items: seq<Item>) {
    forall i, j :: 0 <= i < j < |items| ==> items[i].name != items[j].name
  }

  /** The items whose name is not covered by an update. */
  function Unlisted(items: seq<Item>, covered: set<string>): seq<Item> {
    if items == [] then []
    else
      var rest, x := Unlisted(items[..|items| - 1], covered), items[|items| - 1];
      if x.name in covered then rest else rest + [x]
  }

  function PriorServices(prior: Option<Release>): seq<Item> {
    match prior case Some(r) => r.services case None => []
  }

  /** The services slice of a new release. */
  function Inherit(prior: Option<Release>, updates: seq<Item>): seq<Item> {
    updates + Unlisted(PriorServices(prior), Names(updates))
  }

  lemma NamesInit(items: seq<Item>)
    requires items != []
    ensures Names(items) == Names(items[..|items| - 1]) + {items[|items| - 1].name}
  {
    assert items == items[..|items| - 1] + [items[|items| - 1]];
  }

  /** A snapshot read as a map from service name to payload. */
  function AsMap(items: seq<Item>): (m: map<string, Payload>)
    ensures m.Keys == Names(items)
  {
    if items == [] then map[]
    else
      NamesInit(items);
      AsMap(items[..|items| - 1])[items[|items| - 1].name := items[|items| - 1].payload]
  }

  lemma {:induction false} AsMapAt(items: seq<Item>, i: nat)
    requires DistinctNames(items) && i < |items|
    ensures items[i].name in AsMap(items) && AsMap(items)[items[i].name] == items[i].payload
  {
    if i < |items| - 1 {
      AsMapAt(items[..|items| - 1], i);
    }
  }

  lemma AsMapSnoc(items: seq<Item>, x: Item)
    ensures AsMap(items + [x]) == AsMap(items)[x.name := x.payload]
  {
    assert (items + [x])[..|items|] == items;
  }

  lemma NoOverlap(a: seq<Item>, init: seq<Item>, last: Item)
    requires Names(a) !! Names(init + [last])
    ensures Names(a) !! Names(init) && last.name !in Names(a)
  {
    NamesInit(init + [last]);
    assert (init + [last])[..|init|] == init;
  }

  lemma {:induction false} AsMapConcat(a: seq<Item>, b: seq<Item>)
    requires Names(a) !! Names(b)
    ensures AsMap(a + b) == AsMap(b) + AsMap(a)
    decreases |b|
  {
    if b == [] {
      assert a + b == a;
    } else {
      var init, last := b[..|b| - 1], b[|b| - 1];
      assert b == init + [last];
      NoOverlap(a, init, last);
      AsMapConcat(a, init);
      AsMapAppend(a, init, last);
    }
  }

  lemma AsMapAppend(a: seq<Item>, init: seq<Item>, last: Item)
    requires AsMap(a + init) == AsMap(init) + AsMap(a) && last.name !in Names(a)
    ensures AsMap(a + (init + [last])) == AsMap(init + [last]) + AsMap(a)
  {
    assert a + (init + [last]) == (a + init) + [last];
    AsMapSnoc(a + init, last);
    AsMapSnoc(init, last);
    PutLeft(AsMap(init), AsMap(a), last.name, last.payload);
  }

  lemma {:induction false} UnlistedMap(items: seq<Item>, covered: set<string>)
    ensures AsMap(Unlisted(items, covered)) == AsMap(items) - covered
    ensures Names(Unlisted(items, covered)) == Names(items) - covered
  {
    if items != [] {
      var n, last := |items| - 1, items[|items| - 1];
      UnlistedMap(items[..n], covered);
      var rest := Unlisted(items[..n], covered);
      DropPut(AsMap(items[..n]), last.name, last.payload, covered);
      if last.name !in covered {
        assert (rest + [last])[..|rest|] == rest;
      }
    }
    assert Names(Unlisted(items, covered)) == AsMap(Unlisted(items, covered)).Keys;
  }

  /** A new release is the previous one overridden by the request, for any
      request and any previous release. */
  lemma InheritOverrides(prior: Option<Release>, updates: seq<Item>)
    ensures AsMap(Inherit(prior, updates)) == AsMap(PriorServices(prior)) + AsMap(updates)
  {
    var rest := Unlisted(PriorServices(prior), Names(updates));
    UnlistedMap(PriorServices(prior), Names(updates));
    AsMapConcat(updates, rest);
    OverrideBare(AsMap(PriorServices(prior)), AsMap(updates));
  }

  lemma {:induction false} UnlistedDistinct(items: seq<Item>, covered: set<string>)
    requires DistinctNames(items)
    ensures DistinctNames(Unlisted(items, covered))
  {
    if items != [] {
      var n := |items| - 1;
      UnlistedDistinct(items[..n], covered);
      UnlistedMap(items[..n], covered);
      forall i | 0 <= i < n ensures items[i].name != items[n].name {}
      assert items[n].name !in Names(items[..n]);
      forall x | x in Unlisted(items[..n], covered) ensures x.name != items[n].name {
        assert x.name in Names(Unlisted(items[..n], covered));
      }
    }
  }

  /** A release lists every service once exactly when the request did. */
  lemma InheritDistinct(prior: Option<Release>, updates: seq<Item>)
    requires DistinctNames(PriorServices(prior))
    ensures DistinctNames(Inherit(prior, updates)) <==> DistinctNames(updates)
  {
    var out, rest := Inherit(prior, updates), Unlisted(PriorServices(prior), Names(updates));
    UnlistedDistinct(PriorServices(prior), Names(updates));
    UnlistedMap(PriorServices(prior), Names(updates));
    if DistinctNames(updates) {
      forall i, j | 0 <= i < j < |out| ensures out[i].name != out[j].name {
        if i < |updates| <= j {
          assert updates[i].name in Names(updates);
          assert rest[j - |updates|] in rest;
          assert rest[j - |updates|].name in Names(rest);
        }
      }
    } else {
      var i, j :| 0 <= i < j < |updates| && updates[i].name == updates[j].name;
      assert out[i].name == out[j].name;
    }
  }

  // ----- issuing releases -----

  function Issue(rs: seq<Release>, updates: seq<Item>): seq<Release> {
    rs + [Release(MaxVersion(rs) + 1, Inherit(NewestOf(rs), updates))]
  }

  function IssueAll(rs: seq<Release>, requests: seq<seq<Item>>): seq<Release> {
    if requests == [] then rs
    else Issue(IssueAll(rs, requests[..|requests| - 1]), requests[|requests| - 1])
  }

  /** Requests applied to a map in order, the last writer winning. */
  function Overridden(base: map<string, Payload>, requests: seq<seq<Item>>): map<string, Payload> {
    if requests == [] then base
    else Overridden(base, requests[..|requests| - 1]) + AsMap(requests[|requests| - 1])
  }

  ghost function Latest(rs: seq<Release>): map<string, Payload> { AsMap(PriorServices(NewestOf(rs))) }

  lemma IssueFacts(rs: seq<Release>, updates: seq<Item>)
    requires Numbered(rs)
    ensures Numbered(Issue(rs, updates))
    ensures Latest(Issue(rs, updates)) == Latest(rs) + AsMap(updates)
    ensures Latest(rs).Keys <= Latest(Issue(rs, updates)).Keys
  {
    NumberedNewest(rs);
    NumberedNewest(Issue(rs, updates));
    InheritOverrides(NewestOf(rs), updates);
  }

  lemma {:induction false} IssueAllFacts(rs: seq<Release>, requests: seq<seq<Item>>)
    requires Numbered(rs)
    ensures Numbered(IssueAll(rs, requests))
    ensures |IssueAll(rs, requests)| == |rs| + |requests|
    ensures Latest(IssueAll(rs, requests)) == Overridden(Latest(rs), requests)
    ensures Latest(rs).Keys <= Latest(IssueAll(rs, requests)).Keys
  {
    if requests != [] {
      var n := |requests| - 1;
      IssueAllFacts(rs, requests[..n]);
      IssueFacts(IssueAll(rs, requests[..n]), requests[n]);
    }
  }

  lemma PrefixAppend(a: seq<Release>, b: seq<Release>, r: Release)
    requires a <= b
    ensures a <= b + [r]
  {}

  lemma {:induction false} IssueAllPrefix(rs: seq<Release>, requests: seq<seq<Item>>, k: nat)
    requires k <= |requests|
    ensures IssueAll(rs, requests[..k]) <= IssueAll(rs, requests)
  {
    if k == |requests| {
      assert requests[..k] == requests;
    } else {
      var n := |requests| - 1;
      IssueAllPrefix(rs, requests[..n], k);
      assert requests[..n][..k] == requests[..k];
      var part := IssueAll(rs, requests[..n]);
      PrefixAppend(IssueAll(rs, requests[..k]), part, Release(MaxVersion(part) + 1, Inherit(NewestOf(part), requests[n])));
    }
  }

  /** The k-th later release is the starting one overridden by requests
      1..k in order; what was already there is never rewritten; no service
      name is ever dropped. */
  lemma ReleaseIsOverride(rs: seq<Release>, requests: seq<seq<Item>>, k: nat)
    requires Numbered(rs) && k <= |requests| && |rs| + k > 0
    ensures var all := IssueAll(rs, requests);
      && |all| == |rs| + |requests| && Numbered(all) && rs <= all
      && AsMap(all[|rs| - 1 + k].services) == Overridden(Latest(rs), requests[..k])
      && Latest(rs).Keys <= AsMap(all[|rs| - 1 + k].services).Keys
  {
    var all, part := IssueAll(rs, requests), IssueAll(rs, requests[..k]);
    IssueAllFacts(rs, requests);
    IssueAllFacts(rs, requests[..k]);
    assert AsMap(part[|part| - 1].services) == Overridden(Latest(rs), requests[..k]) by {
      NumberedNewest(part);
    }
    assert part <= all by { IssueAllPrefix(rs, requests, k); }
    assert rs <= all by { IssueAllPrefix(rs, requests, 0); }
    assert all[|rs| - 1 + k] == part[|part| - 1];
  }

  // ----- one call on a chain -----

  datatype ChainOp =
    | RecordInitial(services: seq<Item>)
    | Deploy(updates: seq<Item>, strategy: string)
    | Rollback(version: nat)

  /** Services not listed keep running as they were. */
  ghost predicate OnlyListed(running: map<string, Payload>, items: seq<Item>, running': map<string, Payload>) {
    running' - Names(items) == running - Names(items)
  }

  /** What a strategy run leaves behind: the listed services applied on
      success; on failure any of the listed ones may have been touched. */
  ghost predicate Executed(running: map<string, Payload>, items: seq<Item>, running': map<string, Payload>, ok: bool) {
    if ok then running' == running + AsMap(items) else OnlyListed(running, items, running')
  }

  /** Succeeded, or else failed or never started. */
  ghost predicate Settled(d: Deployment, ok: bool) {
    if ok then d.state == DeploySucceeded else d.state == DeployFailed || d.state == DeployPending
  }

  ghost predicate Stepped(c: Chain, op: ChainOp, c': Chain, ok: bool) {
    match op
    case RecordInitial(services) =>
      && ok
      && c' == if c.releases != [] then c
               else c.(releases := Issue([], services),
                       deployments := c.deployments + [Deployment(1, services, "initial", DeploySucceeded)])
    case Deploy(updates, strategy) =>
      && c'.releases == Issue(c.releases, updates)
      && |c'.deployments| == |c.deployments| + 1 && c.deployments <= c'.deployments
      && (var d := c'.deployments[|c.deployments|];
          d.version == MaxVersion(c.releases) + 1 && d.services == updates && Settled(d, ok)
          && d.strategy == if strategy == "" then "rolling" else strategy)
      && Executed(c.running, updates, c'.running, ok)
    case Rollback(version) =>
      && c'.releases == c.releases
      && if forall r :: r in c.releases ==> r.version != version then !ok && c' == c
         else exists r ::
           && r in c.releases && r.version == version
           && |c'.deployments| == |c.deployments| + 1 && c.deployments <= c'.deployments
           && (var d := c'.deployments[|c.deployments|];
               d.version == version && d.services == r.services && d.strategy == "recreate" && Settled(d, ok))
           && Executed(c.running, r.services, c'.running, ok)
  }

  ghost predicate ChainRun(cs: seq<Chain>, ops: seq<ChainOp>, oks: seq<bool>) {
    && |cs| == |ops| + 1 == |oks| + 1
    && forall i :: 0 <= i < |ops| ==> Stepped(cs[i], ops[i], cs[i + 1], oks[i])
  }

  /** The requests that issue a release, in order: every deploy, and an
      initial recording where there is no release yet. */
  function Requests(bare: bool, ops: seq<ChainOp>): seq<seq<Item>> {
    if ops == [] then []
    else
      var rest, op := Requests(bare, ops[..|ops| - 1]), ops[|ops| - 1];
      match op
      case Deploy(updates, _) => rest + [updates]
      case RecordInitial(services) => if bare && rest == [] then rest + [services] else rest
      case Rollback(_) => rest
  }

  lemma IssueAllSnoc(rs: seq<Release>, requests: seq<seq<Item>>, request: seq<Item>)
    ensures IssueAll(rs, requests + [request]) == Issue(IssueAll(rs, requests), request)
  {
    assert (requests + [request])[..|requests|] == requests;
  }

  lemma {:induction false} IssueAllSize(rs: seq<Release>, requests: seq<seq<Item>>)
    ensures |IssueAll(rs, requests)| == |rs| + |requests|
  {
    if requests != [] {
      IssueAllSize(rs, requests[..|requests| - 1]);
    }
  }

  /** From any chain, whatever fails or is rolled back, the releases after a
      run are those issued by its requests: rollbacks and repeated initial
      recordings leave the chain alone. */
  lemma {:induction false} RunIssues(cs: seq<Chain>, ops: seq<ChainOp>, oks: seq<bool>)
    requires ChainRun(cs, ops, oks)
    ensures cs[|ops|].releases == IssueAll(cs[0].releases, Requests(cs[0].releases == [], ops))
  {
    if ops != [] {
      var n, bare := |ops| - 1, cs[0].releases == [];
      RunIssues(cs[..n + 1], ops[..n], oks[..n]);
      assert Stepped(cs[n], ops[n], cs[n + 1], oks[n]);
      var rest := Requests(bare, ops[..n]);
      IssueAllSize(cs[0].releases, rest);
      if Requests(bare, ops) != rest {
        IssueAllSnoc(cs[0].releases, rest, if ops[n].Deploy? then ops[n].updates else ops[n].services);
      }
    }
  }

  ghost predicate Current(c: Chain) {
    Numbered(c.releases) && c.running == Latest(c.releases)
  }

  /** As long as every deploy succeeds and nobody rolls back, the provider
      runs exactly the newest release. */
  lemma {:induction false} RunningIsNewest(cs: seq<Chain>, ops: seq<ChainOp>, oks: seq<bool>)
    requires ChainRun(cs, ops, oks) && Current(cs[0]) && cs[0].releases != []
    requires forall i :: 0 <= i < |ops| ==> !ops[i].Rollback? && oks[i]
    ensures Current(cs[|ops|])
  {
    if ops != [] {
      var n := |ops| - 1;
      RunningIsNewest(cs[..n + 1], ops[..n], oks[..n]);
      RunIssues(cs[..n + 1], ops[..n], oks[..n]);
      IssueAllSize(cs[0].releases, Requests(false, ops[..n]));
      assert Stepped(cs[n], ops[n], cs[n + 1], oks[n]);
      if ops[n].Deploy? {
        IssueFacts(cs[n].releases, ops[n].updates);
      }
    }
  }

  /** A successful rollback makes the provider run the target release
      exactly when the provider ran no service the target does not name. */
  lemma RollbackRestores(c: Chain, r: Release, c': Chain)
    requires Numbered(c.releases) && r in c.releases
    requires Stepped(c, Rollback(r.version), c', true)
    ensures c'.running == AsMap(r.services) <==> c.running.Keys <= AsMap(r.services).Keys
    ensures c'.releases == c.releases
  {
    var target := AsMap(r.services);
    assert c'.running == c.running + target;
    if c.running.Keys <= target.Keys {
      assert c.running + target == target;
    } else {
      var k :| k in c.running.Keys && k !in target.Keys;
      assert k in c'.running;
    }
  }

  // ----- a fixed set of services -----

  ghost predicate StaysWithin(ops: seq<ChainOp>, names: set<string>) {
    forall i :: 0 <= i < |ops| ==> (ops[i].Deploy? ==> Names(ops[i].updates) <= names)
  }

  lemma {:induction false} FixedOverridden(base: map<string, Payload>, requests: seq<seq<Item>>)
    requires forall i :: 0 <= i < |requests| ==> Names(requests[i]) <= base.Keys
    ensures Overridden(base, requests).Keys == base.Keys
  {
    if requests != [] {
      FixedOverridden(base, requests[..|requests| - 1]);
    }
  }

  lemma {:induction false} RequestsWithin(ops: seq<ChainOp>, names: set<string>)
    requires StaysWithin(ops, names)
    ensures forall i :: 0 <= i < |Requests(false, ops)| ==> Names(Requests(false, ops)[i]) <= names
  {
    if ops != [] {
      RequestsWithin(ops[..|ops| - 1], names);
    }
  }

  /** Every release of such a run names exactly the initial services. */
  lemma ReleasesKeepSet(cs: seq<Chain>, ops: seq<ChainOp>, oks: seq<bool>, r: Release)
    requires ChainRun(cs, ops, oks)
    requires |cs[0].releases| == 1 && Numbered(cs[0].releases)
    requires StaysWithin(ops, Latest(cs[0].releases).Keys)
    requires r in cs[|ops|].releases
    ensures Numbered(cs[|ops|].releases)
    ensures Names(r.services) == Latest(cs[0].releases).Keys
  {
    var rs, requests := cs[0].releases, Requests(false, ops);
    RunIssues(cs, ops, oks);
    IssueAllFacts(rs, requests);
    var k :| 0 <= k < |cs[|ops|].releases| && cs[|ops|].releases[k] == r;
    ReleaseIsOverride(rs, requests, k);
    RequestsWithin(ops, Latest(rs).Keys);
    FixedOverridden(Latest(rs), requests[..k]);
    assert AsMap(r.services).Keys == Names(r.services);
  }

  /** Nothing outside the initial services is ever run, whatever fails. */
  lemma {:induction false} RunningWithin(cs: seq<Chain>, ops: seq<ChainOp>, oks: seq<bool>)
    requires ChainRun(cs, ops, oks)
    requires |cs[0].releases| == 1 && Numbered(cs[0].releases)
    requires StaysWithin(ops, Latest(cs[0].releases).Keys)
    requires cs[0].running.Keys <= Latest(cs[0].releases).Keys
    ensures cs[|ops|].running.Keys <= Latest(cs[0].releases).Keys
  {
    if ops != [] {
      var n, base := |ops| - 1, Latest(cs[0].releases).Keys;
      RunningWithin(cs[..n + 1], ops[..n], oks[..n]);
      var c, c' := cs[n], cs[n + 1];
      assert Stepped(c, ops[n], c', oks[n]);
      match ops[n] {
        case RecordInitial(_) =>
        case Deploy(updates, _) => ExecutedKeys(c.running, updates, c'.running, oks[n]);
        case Rollback(version) =>
          if c' != c {
            var r :| r in c.releases && r.version == version && Executed(c.running, r.services, c'.running, oks[n]);
            ReleasesKeepSet(cs[..n + 1], ops[..n], oks[..n], r);
            ExecutedKeys(c.running, r.services, c'.running, oks[n]);
          }
      }
    }
  }

  lemma ExecutedKeys(running: map<string, Payload>, items: seq<Item>, running': map<string, Payload>, ok: bool)
    requires Executed(running, items, running', ok)
    ensures running'.Keys <= running.Keys + Names(items)
  {
    assert AsMap(items).Keys == Names(items);
    forall k | k in running'.Keys && k !in Names(items) ensures k in running.Keys {
      if !ok {
        assert k in (running' - Names(items)).Keys;
      }
    }
  }

  /** Over a fixed set of services, after any run with any failures, a
      successful rollback makes the provider run the target release. */
  lemma RollbackAfterRun(cs: seq<Chain>, ops: seq<ChainOp>, oks: seq<bool>, r: Release, c': Chain)
    requires ChainRun(cs, ops, oks)
    requires |cs[0].releases| == 1 && Numbered(cs[0].releases)
    requires StaysWithin(ops, Latest(cs[0].releases).Keys)
    requires cs[0].running.Keys <= Latest(cs[0].releases).Keys
    requires r in cs[|ops|].releases && Stepped(cs[|ops|], Rollback(r.version), c', true)
    ensures c'.running == AsMap(r.services)
  {
    ReleasesKeepSet(cs, ops, oks, r);
    RunningWithin(cs, ops, oks);
    RollbackRestores(cs[|ops|], r, c');
  }

  lemma AfterRollback(c0: Chain, target: Release, c1: Chain)
    requires Numbered(c0.releases) && target in c0.releases && Stepped(c0, Rollback(target.version), c1, true)
    ensures c1.releases == c0.releases && c1.running == c0.running + AsMap(target.services)
  {}

  lemma AfterDeploy(c: Chain, updates: seq<Item>, strategy: string, c': Chain)
    requires Numbered(c.releases) && Stepped(c, Deploy(updates, strategy), c', true)
    ensures Numbered(c'.releases) && Latest(c'.releases) == Latest(c.releases) + AsMap(updates)
    ensures c'.running == c.running + AsMap(updates)
  {
    IssueFacts(c.releases, updates);
  }

  /** After a rollback to `target` and then a successful partial deploy the
      newest release describes what runs exactly when, outside the deployed
      services, the target only names what the formerly newest release names,
      and alike. */
  lemma RollbackThenDeploy(c0: Chain, target: Release, c1: Chain, updates: seq<Item>, strategy: string, c2: Chain)
    requires Current(c0) && target in c0.releases
    requires Stepped(c0, Rollback(target.version), c1, true)
    requires Stepped(c1, Deploy(updates, strategy), c2, true)
    ensures var t := AsMap(target.services);
      Current(c2) <==> forall s :: s in t && s !in Names(updates) ==> s in c0.running && c0.running[s] == t[s]
  {
    AfterRollback(c0, target, c1);
    AfterDeploy(c1, updates, strategy, c2);
    OverrideTwice(c0.running, AsMap(target.services), AsMap(updates));
  }

  // ----- runs from a new instance -----

  /** A new instance runs what it was provisioned with. */
  function Born(services: seq<Item>): Chain { EMPTY.(running := AsMap(services)) }

  /** The chain after an initial recording, after a successful deploy and
      after a successful rollback. */
  function Recorded(services: seq<Item>): Chain {
    Chain([Release(1, services)], [Deployment(1, services, "initial", DeploySucceeded)], AsMap(services))
  }

  lemma FirstRelease(services: seq<Item>)
    ensures Issue([], services) == [Release(1, services)]
    ensures Latest([Release(1, services)]) == AsMap(services)
  {
    assert services + [] == services;
    NumberedNewest([Release(1, services)]);
  }

  lemma RecordedFacts(services: seq<Item>)
    ensures Stepped(Born(services), RecordInitial(services), Recorded(services), true)
    ensures Current(Recorded(services))
  {
    FirstRelease(services);
  }

  ghost function Deployed(c: Chain, updates: seq<Item>): (c': Chain)
    ensures Stepped(c, Deploy(updates, ""), c', true)
    ensures c.releases <= c'.releases && c'.running == c.running + AsMap(updates)
  {
    Chain(Issue(c.releases, updates),
          c.deployments + [Deployment(MaxVersion(c.releases) + 1, updates, "rolling", DeploySucceeded)],
          c.running + AsMap(updates))
  }

  lemma DeployedCurrent(c: Chain, updates: seq<Item>)
    requires Current(c)
    ensures Current(Deployed(c, updates))
  {
    IssueFacts(c.releases, updates);
  }

  ghost function RolledBack(c: Chain, r: Release): (c': Chain)
    requires r in c.releases
    ensures Stepped(c, Rollback(r.version), c', true)
    ensures c'.running == c.running + AsMap(r.services)
  {
    Chain(c.releases, c.deployments + [Deployment(r.version, r.services, "recreate", DeploySucceeded)],
          c.running + AsMap(r.services))
  }

  lemma OneMap(a: Item)
    ensures AsMap([a]) == map[a.name := a.payload]
  {
    assert [a][..0] == [];
  }

  lemma PairMap(a: Item, b: Item)
    ensures AsMap([a, b]) == map[a.name := a.payload][b.name := b.payload]
  {
    assert [a, b] == [a] + [b];
    AsMapSnoc([a], b);
    OneMap(a);
  }

  lemma NewestDiffers(old1: Item, new1: Item, other: Item)
    requires old1.name == new1.name != other.name && old1.payload != new1.payload
    ensures var before, after := AsMap([old1, other]), AsMap([old1, other]) + AsMap([new1]);
      old1.name in before && old1.name !in Names([other]) && after[old1.name] != before[old1.name]
  {
    PairMap(old1, other);
    OneMap(new1);
    OneMap(other);
    assert Names([other]) == AsMap([other]).Keys;
  }

  /** Deploy one service, then roll back to the initial release. */
  ghost function Reverted(init: seq<Item>, updates: seq<Item>): (c': Chain)
    ensures c'.running == AsMap(init) + AsMap(updates) + AsMap(init)
  {
    var c := Deployed(Recorded(init), updates);
    assert Recorded(init).releases[0] in c.releases;
    RolledBack(c, Recorded(init).releases[0])
  }

  lemma RevertedRun(init: seq<Item>, updates: seq<Item>)
    ensures ChainRun([Born(init), Recorded(init), Deployed(Recorded(init), updates), Reverted(init, updates)],
                     [RecordInitial(init), Deploy(updates, ""), Rollback(1)], [true, true, true])
    ensures Current(Deployed(Recorded(init), updates))
  {
    RecordedFacts(init);
    DeployedCurrent(Recorded(init), updates);
    var c := Deployed(Recorded(init), updates);
    assert Recorded(init).releases[0] in c.releases;
    ThreeSteps(Born(init), Recorded(init), c, Reverted(init, updates), RecordInitial(init), Deploy(updates, ""), Rollback(1));
  }

  lemma ThreeSteps(c0: Chain, c1: Chain, c2: Chain, c3: Chain, o0: ChainOp, o1: ChainOp, o2: ChainOp)
    requires Stepped(c0, o0, c1, true) && Stepped(c1, o1, c2, true) && Stepped(c2, o2, c3, true)
    ensures ChainRun([c0, c1, c2, c3], [o0, o1, o2], [true, true, true])
  {}

  lemma OneMore(cs: seq<Chain>, ops: seq<ChainOp>, oks: seq<bool>, op: ChainOp, c': Chain)
    requires ChainRun(cs, ops, oks) && Stepped(cs[|ops|], op, c', true)
    ensures ChainRun(cs + [c'], ops + [op], oks + [true])
  {}

  /** Such runs exist: from a new instance, deploy a new image of one service,
      roll back to the first release, deploy the other service alone. Every
      call succeeds, and the newest release names an image that does not run. */
  lemma NewestMayNotRun(old1: Item, new1: Item, other: Item) returns (cs: seq<Chain>)
    requires old1.name == new1.name != other.name && old1.payload != new1.payload
    ensures ChainRun(cs, [RecordInitial([old1, other]), Deploy([new1], ""), Rollback(1)] + [Deploy([other], "")], [true, true, true] + [true])
    ensures cs[0] == Born([old1, other]) && Current(cs[2]) && !Current(cs[4])
  {
    var init := [old1, other];
    var c2, c3 := Deployed(Recorded(init), [new1]), Reverted(init, [new1]);
    RevertedRun(init, [new1]);
    cs := [Born(init), Recorded(init), c2, c3] + [Deployed(c3, [other])];
    OneMore(cs[..4], [RecordInitial(init), Deploy([new1], ""), Rollback(1)], [true, true, true], Deploy([other], ""), cs[4]);
    NewestDiffers(old1, new1, other);
    assert Stepped(c2, Rollback(1), c3, true);
    RollbackThenDeploy(c2, Recorded(init).releases[0], c3, [other], "", cs[4]);
  }

  /** A successful rollback need not restore its target either: deploy a
      service the initial release lacks, roll back to that release, and the
      service is still there. */
  lemma RollbackMayLeave(a: Item, b: Item) returns (cs: seq<Chain>)
    requires a.name != b.name
    ensures ChainRun(cs, [RecordInitial([a]), Deploy([b], ""), Rollback(1)], [true, true, true])
    ensures cs[0] == Born([a]) && b.name in cs[3].running && cs[3].running != AsMap([a])
  {
    RevertedRun([a], [b]);
    OneMap(a);
    OneMap(b);
    cs := [Born([a]), Recorded([a]), Deployed(Recorded([a]), [b]), Reverted([a], [b])];
  }
}
