/** vars/resolver.go: the loops, proved against the fixpoint, and what Resolve
    promises as a whole. */
module Resolving {
  import opened Common
  import opened Expressions
  import opened Resolver

  // ----- bookkeeping of one evaluation -----

  lemma {:induction false} UnresolvedPut(defs: seq<Definition>, vars: map<string, Value>, name: string, v: Value)
    requires name !in DefNames(defs)
    ensures Unresolved(defs, vars[name := v]) == Unresolved(defs, vars)
  {
    if defs != [] {
      var n := |defs| - 1;
      assert defs == defs[..n] + [defs[n]];
      DefNamesSnoc(defs[..n], defs[n]);
      UnresolvedPut(defs[..n], vars, name, v);
    }
  }

  lemma {:induction false} UnresolvedTwice(defs: seq<Definition>, vars0: map<string, Value>, vars: map<string, Value>)
    requires vars0.Keys <= vars.Keys
    ensures Unresolved(Unresolved(defs, vars0), vars) == Unresolved(defs, vars)
  {
    if defs != [] {
      var n := |defs| - 1;
      UnresolvedTwice(defs[..n], vars0, vars);
      var init := Unresolved(defs[..n], vars0);
      if defs[n].name !in vars0 {
        assert (init + [defs[n]])[..|init|] == init;
      }
    }
  }

  lemma {:induction false} UnresolvedDistinct(defs: seq<Definition>, vars: map<string, Value>)
    requires DistinctDefs(defs)
    ensures DistinctDefs(Unresolved(defs, vars))
  {
    if defs != [] {
      var n := |defs| - 1;
      UnresolvedDistinct(defs[..n], vars);
      UnresolvedMembers(defs[..n], vars);
      forall d | d in Unresolved(defs[..n], vars) ensures d.name != defs[n].name {
        var i :| 0 <= i < n && defs[i] == d;
      }
    }
  }

  lemma {:induction false} UnresolvedAll(defs: seq<Definition>, vars: map<string, Value>)
    requires forall d :: d in defs ==> d.name !in vars
    ensures Unresolved(defs, vars) == defs
  {
    if defs != [] {
      UnresolvedAll(defs[..|defs| - 1], vars);
    }
  }

  /** What has been computed so far: the order followed and its scope. */
  ghost predicate Progress(base: Scope, defs: seq<Definition>, order: seq<Definition>, scope: Scope) {
    && AllComputable(order) && (forall d :: d in order ==> d in defs) && DistinctDefs(order)
    && Follow(base, order) == Ok(scope)
    && (forall d :: d in order ==> Resolver.Resolved(scope, d))
    && Extends(base.vars, scope.vars) && scope.context == base.context
    && scope.vars.Keys == base.vars.Keys + DefNames(order)
  }

  function WithValue(scope: Scope, d: Definition, val: string): Scope { scope.(vars := scope.vars[d.name := Str(val)]) }

  lemma ResolvedStays(scope: Scope, d: Definition, scope': Scope)
    requires Computable(d) && Resolver.Resolved(scope, d)
    requires Extends(scope.vars, scope'.vars) && scope'.context == scope.context
    ensures Resolver.Resolved(scope', d)
  {
    EvalStable(d.expression.value.e, scope, scope');
  }

  lemma ResolvedNow(scope: Scope, d: Definition, val: string)
    requires Computable(d) && d.name !in scope.vars && EvalDef(d, scope) == Ok(val)
    ensures Resolver.Resolved(WithValue(scope, d, val), d)
  {
    EvalStable(d.expression.value.e, scope, WithValue(scope, d, val));
  }

  lemma OrderSnoc(order: seq<Definition>, d: Definition)
    requires DistinctDefs(order) && d.name !in DefNames(order)
    ensures DistinctDefs(order + [d]) && DefNames(order + [d]) == DefNames(order) + {d.name}
    ensures forall e :: e in order + [d] ==> e in order || e == d
  {
    forall i | 0 <= i < |order| ensures order[i].name != d.name {
      assert order[i] in order;
    }
  }

  lemma FollowSnoc(base: Scope, order: seq<Definition>, scope: Scope, d: Definition, val: string)
    requires AllComputable(order) && Computable(d) && Follow(base, order) == Ok(scope) && EvalDef(d, scope) == Ok(val)
    ensures AllComputable(order + [d]) && Follow(base, order + [d]) == Ok(WithValue(scope, d, val))
  {
    assert (order + [d])[..|order|] == order;
  }

  lemma ProgressStep(base: Scope, defs: seq<Definition>, order: seq<Definition>, scope: Scope, d: Definition, val: string)
    requires Progress(base, defs, order, scope) && d in defs && Computable(d) && d.name !in scope.vars
    requires EvalDef(d, scope) == Ok(val)
    ensures Progress(base, defs, order + [d], WithValue(scope, d, val))
  {
    var scope' := WithValue(scope, d, val);
    FollowSnoc(base, order, scope, d, val);
    OrderSnoc(order, d);
    ResolvedNow(scope, d, val);
    forall e | e in order ensures Resolver.Resolved(scope', e) {
      ResolvedStays(scope, e, scope');
    }
  }

  /** A round that resolved nothing has reached the fixpoint. */
  lemma StuckIsFixpoint(base: Scope, defs: seq<Definition>, order: seq<Definition>, scope: Scope, rest: seq<Definition>)
    requires AllComputable(defs) && DistinctDefs(defs) && Progress(base, defs, order, scope)
    requires forall d :: d in defs ==> d.name !in base.vars
    requires rest == Unresolved(defs, scope.vars)
    requires forall d :: d in rest ==> d in defs && EvalDef(d, scope) == Err
    ensures Fixpoint(base, defs, scope, order)
  {
    UnresolvedMembers(defs, scope.vars);
    forall d | d in defs && d !in order ensures d.name !in scope.vars && EvalDef(d, scope) == Err {
      assert d !in rest ==> d.name in DefNames(order);
    }
  }

  function NamesOf(defs: seq<Definition>): (names: seq<string>)
    ensures |names| == |defs| && forall i :: 0 <= i < |defs| ==> names[i] == defs[i].name
  {
    seq(|defs|, i requires 0 <= i < |defs| => defs[i].name)
  }

  /** What resolveComputed returns once the fixpoint is reached. */
  function Outcome(computed: seq<Definition>, final: Scope): Res<Scope> {
    var rest := Unresolved(computed, final.vars);
    if rest == [] then Done(final) else Fail(Cycle(NamesOf(rest)))
  }

  ghost predicate FreshNames(defs: seq<Definition>, scope: Scope) { forall d :: d in defs ==> d.name !in scope.vars }

  /** Where a round stands after the first k of the remaining definitions. */
  ghost predicate InRound(base: Scope, computed: seq<Definition>, order0: seq<Definition>, scope0: Scope, remaining: seq<Definition>, k: nat,
                          scope: Scope, next: seq<Definition>, progressed: bool, order: seq<Definition>)
    requires AllComputable(remaining) && k <= |remaining|
  {
    && Progress(base, computed, order, scope) && scope0.vars.Keys <= scope.vars.Keys
    && next == Unresolved(remaining[..k], scope.vars)
    && FreshNames(remaining[k..], scope)
    && if progressed then |next| < k
       else scope == scope0 && order == order0 && next == remaining[..k] && forall j :: 0 <= j < k ==> EvalDef(remaining[j], scope) == Err
  }

  lemma Kept(remaining: seq<Definition>, k: nat, scope: Scope)
    requires k < |remaining| && FreshNames(remaining[k..], scope)
    ensures Unresolved(remaining[..k + 1], scope.vars) == Unresolved(remaining[..k], scope.vars) + [remaining[k]]
    ensures FreshNames(remaining[k + 1..], scope)
    ensures remaining[k].name !in scope.vars
  {
    assert remaining[..k + 1][..k] == remaining[..k];
    assert remaining[k..] == [remaining[k]] + remaining[k + 1..];
    assert remaining[k] in remaining[k..];
  }

  lemma Dropped(remaining: seq<Definition>, k: nat, scope: Scope, val: string)
    requires k < |remaining| && DistinctDefs(remaining) && FreshNames(remaining[k..], scope)
    ensures var scope' := WithValue(scope, remaining[k], val);
      && Unresolved(remaining[..k + 1], scope'.vars) == Unresolved(remaining[..k], scope.vars)
      && FreshNames(remaining[k + 1..], scope')
  {
    assert remaining[..k + 1][..k] == remaining[..k];
    assert remaining[k..] == [remaining[k]] + remaining[k + 1..];
    assert remaining[k].name !in DefNames(remaining[..k]);
    UnresolvedPut(remaining[..k], scope.vars, remaining[k].name, Str(val));
  }

  lemma {:induction false} UnresolvedShorter(defs: seq<Definition>, vars: map<string, Value>)
    ensures |Unresolved(defs, vars)| <= |defs|
  {
    if defs != [] {
      UnresolvedShorter(defs[..|defs| - 1], vars);
    }
  }

  lemma RoundMiss(base: Scope, computed: seq<Definition>, order0: seq<Definition>, scope0: Scope, remaining: seq<Definition>, k: nat,
                  scope: Scope, next: seq<Definition>, progressed: bool, order: seq<Definition>)
    requires AllComputable(remaining) && k < |remaining| && EvalDef(remaining[k], scope) == Err
    requires InRound(base, computed, order0, scope0, remaining, k, scope, next, progressed, order)
    ensures InRound(base, computed, order0, scope0, remaining, k + 1, scope, next + [remaining[k]], progressed, order)
  {
    Kept(remaining, k, scope);
    assert remaining[..k + 1] == remaining[..k] + [remaining[k]];
  }

  lemma RoundHit(base: Scope, computed: seq<Definition>, order0: seq<Definition>, scope0: Scope, remaining: seq<Definition>, k: nat,
                 scope: Scope, next: seq<Definition>, progressed: bool, order: seq<Definition>, val: string)
    requires AllComputable(remaining) && DistinctDefs(remaining) && k < |remaining| && EvalDef(remaining[k], scope) == Ok(val)
    requires remaining[k] in computed
    requires InRound(base, computed, order0, scope0, remaining, k, scope, next, progressed, order)
    ensures InRound(base, computed, order0, scope0, remaining, k + 1, WithValue(scope, remaining[k], val), next, true, order + [remaining[k]])
  {
    Kept(remaining, k, scope);
    Dropped(remaining, k, scope, val);
    ProgressStep(base, computed, order, scope, remaining[k], val);
    UnresolvedShorter(remaining[..k], scope.vars);
  }

  /** One round: every remaining definition is tried against the scope as it
      then is. */
  method Round(ghost base: Scope, ghost computed: seq<Definition>, ghost order0: seq<Definition>, scope0: Scope, remaining: seq<Definition>)
    returns (scope: Scope, next: seq<Definition>, progressed: bool)
    requires AllComputable(computed) && AllComputable(remaining) && DistinctDefs(remaining) && FreshNames(remaining, scope0)
    requires forall d :: d in remaining ==> d in computed
    requires Progress(base, computed, order0, scope0)
    ensures exists order :: InRound(base, computed, order0, scope0, remaining, |remaining|, scope, next, progressed, order)
  {
    scope, next, progressed := scope0, [], false;
    ghost var order := order0;
    for k := 0 to |remaining|
      invariant InRound(base, computed, order0, scope0, remaining, k, scope, next, progressed, order)
    {
      var d := remaining[k];
      assert d in remaining;
      var val := EvalDef(d, scope);
      if val == Err {
        RoundMiss(base, computed, order0, scope0, remaining, k, scope, next, progressed, order);
        next := next + [d];
        continue;
      }
      RoundHit(base, computed, order0, scope0, remaining, k, scope, next, progressed, order, val.value);
      order := order + [d];
      scope := WithValue(scope, d, val.value);
      progressed := true;
    }
  }

  /** resolveComputed may answer r. */
  ghost predicate Concludes(base: Scope, computed: seq<Definition>, r: Res<Scope>) {
    exists final :: ReachesFixpoint(base, computed, final) && r == Outcome(computed, final)
  }

  /** The rounds, until nothing remains or a round makes no progress: at most
      one per definition. */
  method ResolveComputed(base: Scope, computed: seq<Definition>) returns (r: Res<Scope>, ghost rounds: nat)
    requires AllComputable(computed) && DistinctDefs(computed) && FreshNames(computed, base)
    ensures Concludes(base, computed, r)
    ensures rounds <= |computed|
  {
    var scope, remaining := base, computed;
    ghost var order: seq<Definition> := [];
    rounds := 0;
    UnresolvedAll(computed, base.vars);
    while remaining != []
      invariant Progress(base, computed, order, scope)
      invariant remaining == Unresolved(computed, scope.vars)
      invariant rounds + |remaining| <= |computed|
      decreases |remaining|
    {
      UnresolvedMembers(computed, scope.vars);
      UnresolvedDistinct(computed, scope.vars);
      ghost var order0, scope0 := order, scope;
      var next, progressed;
      scope, next, progressed := Round(base, computed, order, scope, remaining);
      order :| InRound(base, computed, order0, scope0, remaining, |remaining|, scope, next, progressed, order);
      AfterRound(base, computed, order0, scope0, remaining, scope, next, progressed, order);
      rounds := rounds + 1;
      if !progressed {
        StuckIsFixpoint(base, computed, order, scope, next);
        assert ReachesFixpoint(base, computed, scope);
        return Fail(Cycle(NamesOf(next))), rounds;
      }
      remaining := next;
    }
    StuckIsFixpoint(base, computed, order, scope, remaining);
    assert ReachesFixpoint(base, computed, scope);
    r := Done(scope);
  }

  /** What a whole round leaves: fewer definitions, or the same ones with none
      evaluable. */
  lemma AfterRound(base: Scope, computed: seq<Definition>, order0: seq<Definition>, scope0: Scope, remaining: seq<Definition>,
                   scope: Scope, next: seq<Definition>, progressed: bool, order: seq<Definition>)
    requires AllComputable(remaining) && remaining == Unresolved(computed, scope0.vars) && remaining != []
    requires InRound(base, computed, order0, scope0, remaining, |remaining|, scope, next, progressed, order)
    ensures Progress(base, computed, order, scope) && next == Unresolved(computed, scope.vars)
    ensures if progressed then |next| < |remaining| else next == remaining && forall d :: d in next ==> EvalDef(d, scope) == Err
  {
    assert remaining[..|remaining|] == remaining;
    UnresolvedTwice(computed, scope0.vars, scope.vars);
  }

  // ----- Resolve -----

  datatype Resolution = Resolution(scope: Scope, bindings: seq<Binding>)

  function Conclude(g: Gathered, final: Scope): Res<Resolution> {
    match Outcome(g.computed, final)
    case Done(scope) => Done(Resolution(scope, g.bindings))
    case Fail(e) => Fail(e)
  }

  ghost predicate ReachesFixpoint(base: Scope, computed: seq<Definition>, final: Scope)
  {
    && AllComputable(computed) && Extends(base.vars, final.vars) && final.context == base.context
    && exists order :: Fixpoint(base, computed, final, order)
  }

  /** What Resolve may answer: the first loop's error, or the outcome of the
      fixpoint over what it gathered. */
  ghost predicate Resolves(defs: seq<Definition>, values: map<string, Raw>, context: map<Field, string>, re: Regexp, r: Res<Resolution>) {
    match Gather(defs, values, re)
    case Fail(e) => r == Fail(e)
    case Done(g) => exists final :: ReachesFixpoint(Scope(g.vars, context), g.computed, final) && r == Conclude(g, final)
  }

  lemma {:induction false} GatherPrefixFails(defs: seq<Definition>, k: nat, values: map<string, Raw>, re: Regexp)
    requires k <= |defs| && Gather(defs[..k], values, re).Fail?
    ensures Gather(defs, values, re) == Gather(defs[..k], values, re)
  {
    if k < |defs| {
      assert defs[..|defs| - 1][..k] == defs[..k];
      GatherPrefixFails(defs[..|defs| - 1], k, values, re);
    } else {
      assert defs[..k] == defs;
    }
  }

  /** Computed names are fresh: no plain or secret variable has them. */
  lemma ComputedFresh(g: Gathered, defs: seq<Definition>)
    requires Sorted(g, defs)
    ensures forall d :: d in g.computed ==> d.name !in g.vars
  {
    forall d | d in g.computed ensures d.name !in g.vars {
      if d.name in g.vars {
        var e :| e in defs && IsPlain(e) && e.name == d.name;
        SameDefinition(defs, d, e);
      }
    }
  }

  lemma SameDefinition(defs: seq<Definition>, d: Definition, e: Definition)
    requires DistinctDefs(defs) && d in defs && e in defs && d.name == e.name
    ensures d == e
  {
    var i :| 0 <= i < |defs| && defs[i] == d;
    var j :| 0 <= j < |defs| && defs[j] == e;
  }

  method Resolve(defs: seq<Definition>, values: map<string, Raw>, context: map<Field, string>, re: Regexp) returns (r: Res<Resolution>)
    ensures Resolves(defs, values, context, re, r)
  {
    var g := Gathered(map[], [], [], {});
    for k := 0 to |defs|
      invariant Gather(defs[..k], values, re) == Done(g)
    {
      assert defs[..k + 1][..k] == defs[..k];
      match GatherOne(g, defs[k], values, re) {
        case Fail(e) =>
          GatherPrefixFails(defs, k + 1, values, re);
          return Fail(e);
        case Done(next) => g := next;
      }
    }
    assert defs[..|defs|] == defs;
    GatherSorts(defs, values, re);
    ComputedFresh(g, defs);
    var base := Scope(g.vars, context);
    var outcome, _ := ResolveComputed(base, g.computed);
    ghost var final :| ReachesFixpoint(base, g.computed, final) && outcome == Outcome(g.computed, final);
    r := match outcome case Done(scope) => Done(Resolution(scope, g.bindings)) case Fail(e) => Fail(e);
  }

  /** Values of secret and computed variables, and values nobody declared,
      have no influence: two value maps that agree on the plain variables
      resolve alike, errors included. */
  lemma ResolveIgnoresSecrets(defs: seq<Definition>, v1: map<string, Raw>, v2: map<string, Raw>, context: map<Field, string>, re: Regexp,
                              r1: Res<Resolution>, r2: Res<Resolution>)
    requires forall d :: d in defs && IsPlain(d) ==> ValueOf(v1, d.name) == ValueOf(v2, d.name)
    requires Resolves(defs, v1, context, re, r1) && Resolves(defs, v2, context, re, r2)
    ensures r1 == r2
  {
    GatherIgnoresOthers(defs, v1, v2, re);
    if g :| Gather(defs, v1, re) == Done(g) {
      var base := Scope(g.vars, context);
      var f1 :| ReachesFixpoint(base, g.computed, f1) && r1 == Conclude(g, f1);
      var f2 :| ReachesFixpoint(base, g.computed, f2) && r2 == Conclude(g, f2);
      OneFixpoint(base, g.computed, f1, g.computed, f2);
    }
  }

  lemma OneFixpoint(base: Scope, c1: seq<Definition>, f1: Scope, c2: seq<Definition>, f2: Scope)
    requires (forall d :: d in c1 <==> d in c2)
    requires ReachesFixpoint(base, c1, f1) && ReachesFixpoint(base, c2, f2)
    ensures f1 == f2
  {
    var o1: seq<Definition> :| Fixpoint(base, c1, f1, o1);
    var o2: seq<Definition> :| Fixpoint(base, c2, f2, o2);
    FixpointUnique(base, c1, f1, o1, c2, f2, o2);
  }

  /** The order in which computed variables are listed decides nothing: the
      scope is the same, or both fail naming the same variables. */
  lemma ListingOrderIrrelevant(base: Scope, c1: seq<Definition>, f1: Scope, c2: seq<Definition>, f2: Scope)
    requires (forall d :: d in c1 <==> d in c2)
    requires ReachesFixpoint(base, c1, f1) && ReachesFixpoint(base, c2, f2)
    ensures match (Outcome(c1, f1), Outcome(c2, f2))
      case (Done(s1), Done(s2)) => s1 == s2
      case (Fail(Cycle(n1)), Fail(Cycle(n2))) => forall n :: n in n1 <==> n in n2
      case _ => false
  {
    OneFixpoint(base, c1, f1, c2, f2);
    UnresolvedMembers(c1, f1.vars);
    UnresolvedMembers(c2, f2.vars);
    var u1, u2 := Unresolved(c1, f1.vars), Unresolved(c2, f2.vars);
    assert forall d :: d in u1 <==> d in u2;
    if u1 != [] {
      assert u1[0] in u2;
    }
    if u2 != [] {
      assert u2[0] in u1;
    }
    NamesOfMembers(u1, u2);
    NamesOfMembers(u2, u1);
  }

  lemma NamesOfMembers(u1: seq<Definition>, u2: seq<Definition>)
    requires forall d :: d in u1 ==> d in u2
    ensures forall n :: n in NamesOf(u1) ==> n in NamesOf(u2)
  {
    forall n | n in NamesOf(u1) ensures n in NamesOf(u2) {
      var i :| 0 <= i < |u1| && NamesOf(u1)[i] == n;
      assert u1[i] in u2;
      var j :| 0 <= j < |u2| && u2[j] == u1[i];
      assert NamesOf(u2)[j] == n;
    }
  }

  /** A definition no working order contains. */
  ghost predicate Hopeless(base: Scope, computed: seq<Definition>, d: Definition)
    requires AllComputable(computed)
  {
    forall order :: AllComputable(order) && (forall e :: e in order ==> e in computed) && Follow(base, order).Ok? ==> d !in order
  }

  lemma HasMember(u: seq<Definition>)
    ensures u != [] ==> exists d :: d in u
  {
    if u != [] {
      assert u[0] in u;
    }
  }

  /** Resolution succeeds if and only if the computed variables can be
      ordered; otherwise the error names exactly those that no working order
      reaches. */
  lemma CycleNamesHopeless(base: Scope, computed: seq<Definition>, final: Scope)
    requires ReachesFixpoint(base, computed, final)
    ensures Outcome(computed, final).Done? <==> Orderable(base, computed)
    ensures forall d :: d in computed ==> (d in Unresolved(computed, final.vars) <==> Hopeless(base, computed, d))
  {
    var order: seq<Definition> :| Fixpoint(base, computed, final, order);
    UnresolvedMembers(computed, final.vars);
    forall d | d in computed ensures d in Unresolved(computed, final.vars) <==> Hopeless(base, computed, d) {
      assert d in order ==> Resolver.Resolved(final, d);
      if d !in order {
        forall other | AllComputable(other) && (forall e :: e in other ==> e in computed) && Follow(base, other).Ok? ensures d !in other {
          FollowWithin(base, computed, final, order, other);
        }
      }
    }
    CompleteExactly(base, computed, final, order);
    var u := Unresolved(computed, final.vars);
    if forall d :: d in computed ==> d in order {
      assert forall d :: d in u ==> d in order && Resolver.Resolved(final, d);
      HasMember(u);
    } else {
      var d :| d in computed && d !in order;
      assert d in u;
    }
  }

  // ----- secrets -----

  function SecretNames(defs: seq<Definition>): set<string> { set d | d in defs && d.typ == TypeSecret :: d.name }

  /** No secret is ever a key of the scope. */
  lemma ScopeHasNoSecrets(defs: seq<Definition>, values: map<string, Raw>, context: map<Field, string>, re: Regexp, r: Res<Resolution>)
    requires Resolves(defs, values, context, re, r) && r.Done?
    ensures r.value.scope.vars.Keys !! SecretNames(defs)
  {
    GatherSorts(defs, values, re);
    var g := Gather(defs, values, re).value;
    var final :| ReachesFixpoint(Scope(g.vars, context), g.computed, final) && r == Conclude(g, final);
    var order: seq<Definition> :| Fixpoint(Scope(g.vars, context), g.computed, final, order);
    FollowKeys(Scope(g.vars, context), order);
    assert DefNames(order) <= DefNames(g.computed);
    forall n | n in SecretNames(defs) ensures n !in final.vars {
      var d :| d in defs && d.typ == TypeSecret && d.name == n;
      SecretNotGathered(g, defs, d);
    }
  }

  lemma SecretNotGathered(g: Gathered, defs: seq<Definition>, d: Definition)
    requires Sorted(g, defs) && d in defs && d.typ == TypeSecret
    ensures d.name !in g.vars && d.name !in DefNames(g.computed)
  {
    if d.name in g.vars {
      var e :| e in defs && IsPlain(e) && e.name == d.name;
      SameDefinition(defs, d, e);
    }
    if d.name in DefNames(g.computed) {
      var e: Definition :| e in g.computed && e.name == d.name;
      SameDefinition(defs, d, e);
    }
  }

  lemma {:induction false} FollowKeys(base: Scope, order: seq<Definition>)
    requires AllComputable(order) && Follow(base, order).Ok?
    ensures Follow(base, order).value.vars.Keys <= base.vars.Keys + DefNames(order)
  {
    if order != [] {
      var n := |order| - 1;
      FollowKeys(base, order[..n]);
      assert order == order[..n] + [order[n]];
      DefNamesSnoc(order[..n], order[n]);
    }
  }
}
