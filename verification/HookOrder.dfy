/** bootstrap/hook.go hands the hooks out in the order of a Go map: what that
    order can change in the desired set. */
module HookOrder {
  import opened Common
  import opened Bootstrap

  type Hooks = seq<Result<seq<Spec>>>

  // ----- the first spec of a name -----

  function FirstNamed(specs: seq<Spec>, n: string): Option<Spec> {
    if specs == [] then None else if specs[0].name == n then Some(specs[0]) else FirstNamed(specs[1..], n)
  }

  lemma {:induction false} FirstNamedConcat(a: seq<Spec>, b: seq<Spec>, n: string)
    ensures FirstNamed(a + b, n) == if FirstNamed(a, n).Some? then FirstNamed(a, n) else FirstNamed(b, n)
  {
    if a == [] {
      assert a + b == b;
    } else {
      assert (a + b)[1..] == a[1..] + b;
      FirstNamedConcat(a[1..], b, n);
    }
  }

  lemma {:induction false} FirstNamedAt(specs: seq<Spec>, n: string)
    ensures FirstNamed(specs, n).None? <==> forall i :: 0 <= i < |specs| ==> specs[i].name != n
    ensures forall s :: FirstNamed(specs, n) == Some(s) <==>
      exists i :: 0 <= i < |specs| && specs[i] == s && s.name == n && forall j :: 0 <= j < i ==> specs[j].name != n
  {
    if specs != [] {
      var rest := specs[1..];
      FirstNamedAt(rest, n);
      forall s ensures FirstNamed(specs, n) == Some(s) <==>
        exists i :: 0 <= i < |specs| && specs[i] == s && s.name == n && forall j :: 0 <= j < i ==> specs[j].name != n
      {
        if i :| 0 <= i < |rest| && rest[i] == s && s.name == n && forall j :: 0 <= j < i ==> rest[j].name != n {
          if specs[0].name != n {
            assert specs[i + 1] == s;
          }
        }
        if i :| 0 <= i < |specs| && specs[i] == s && s.name == n && forall j :: 0 <= j < i ==> specs[j].name != n {
          if i > 0 {
            assert rest[i - 1] == s;
          }
        }
      }
    }
  }

  /** The desired spec of a name is its first one. */
  lemma DesiredIsFirst(declared: seq<Spec>, hooks: Hooks, s: Spec)
    ensures s in Desired(declared, hooks) <==> s.name != "" && FirstNamed(declared + Contributed(hooks), s.name) == Some(s)
  {
    var all := declared + Contributed(hooks);
    FirstsAreFirst(all, s);
    FirstNamedAt(all, s.name);
    if FirstOfName(all, s) {
      var i: nat :| IsFirst(all, i) && all[i] == s;
    }
    if s.name != "" && FirstNamed(all, s.name) == Some(s) {
      var i :| 0 <= i < |all| && all[i] == s && forall j :: 0 <= j < i ==> all[j].name != s.name;
      assert IsFirst(all, i);
    }
  }

  // ----- one hook among many -----

  /** The first spec a hook offers of a name. */
  function Offer(hook: Result<seq<Spec>>, n: string): Option<Spec> { FirstNamed(Offered(hook), n) }

  /** All succeeding hooks that offer the name agree on their first spec of
      it. */
  ghost predicate Agree(hooks: Hooks, n: string) {
    forall h, g :: h in hooks && g in hooks && Offer(h, n).Some? && Offer(g, n).Some? ==> Offer(h, n) == Offer(g, n)
  }

  lemma {:induction false} SomeHookSupplies(hooks: Hooks, n: string)
    ensures FirstNamed(Contributed(hooks), n).Some? ==> exists h :: h in hooks && Offer(h, n) == FirstNamed(Contributed(hooks), n)
    ensures FirstNamed(Contributed(hooks), n).None? ==> forall h :: h in hooks ==> Offer(h, n).None?
  {
    if hooks != [] {
      var init, last := hooks[..|hooks| - 1], hooks[|hooks| - 1];
      SomeHookSupplies(init, n);
      FirstNamedConcat(Contributed(init), Offered(last), n);
      assert hooks == init + [last] && last in hooks;
      if FirstNamed(Contributed(init), n).Some? {
        var h :| h in init && Offer(h, n) == FirstNamed(Contributed(init), n);
        assert h in hooks;
      }
    }
  }

  lemma {:induction false} LeadingHookWins(h: Result<seq<Spec>>, rest: Hooks, n: string)
    requires Offer(h, n).Some?
    ensures FirstNamed(Contributed([h] + rest), n) == Offer(h, n)
  {
    var hooks := [h] + rest;
    if rest == [] {
      assert hooks[..0] == [] && Contributed(hooks) == [] + Offered(h);
      assert [] + Offered(h) == Offered(h);
    } else {
      var k := |rest| - 1;
      assert hooks[..|hooks| - 1] == [h] + rest[..k];
      LeadingHookWins(h, rest[..k], n);
      FirstNamedConcat(Contributed([h] + rest[..k]), Offered(rest[k]), n);
    }
  }

  ghost predicate SameSpecs(a: seq<Spec>, b: seq<Spec>) { forall s :: s in a <==> s in b }

  // ----- agreement is enough -----

  lemma SameHooks(a: Hooks, b: Hooks)
    requires multiset(a) == multiset(b)
    ensures forall h :: h in a <==> h in b
  {
    forall h ensures h in a <==> h in b {
      assert h in a <==> h in multiset(a);
      assert h in b <==> h in multiset(b);
    }
  }

  lemma AgreedFirst(a: Hooks, b: Hooks, n: string)
    requires (forall h :: h in a <==> h in b) && Agree(a, n)
    ensures FirstNamed(Contributed(a), n) == FirstNamed(Contributed(b), n)
  {
    SomeHookSupplies(a, n);
    SomeHookSupplies(b, n);
  }

  ghost predicate AgreeUndeclared(declared: seq<Spec>, hooks: Hooks) {
    forall n: string :: n != "" && FirstNamed(declared, n).None? ==> Agree(hooks, n)
  }

  lemma AgreementFixesSpecs(declared: seq<Spec>, a: Hooks, b: Hooks)
    requires multiset(a) == multiset(b) && AgreeUndeclared(declared, a)
    ensures SameSpecs(Desired(declared, a), Desired(declared, b))
  {
    SameHooks(a, b);
    forall s ensures s in Desired(declared, a) <==> s in Desired(declared, b) {
      DesiredIsFirst(declared, a, s);
      DesiredIsFirst(declared, b, s);
      FirstNamedConcat(declared, Contributed(a), s.name);
      FirstNamedConcat(declared, Contributed(b), s.name);
      if s.name != "" && FirstNamed(declared, s.name).None? {
        AgreedFirst(a, b, s.name);
      }
    }
  }

  // ----- and necessary -----

  function Leading(hooks: Hooks, i: nat): Hooks
    requires i < |hooks|
  {
    [hooks[i]] + (hooks[..i] + hooks[i + 1..])
  }

  lemma LeadingReorders(hooks: Hooks, i: nat)
    requires i < |hooks|
    ensures multiset(Leading(hooks, i)) == multiset(hooks)
  {
    assert hooks == hooks[..i] + [hooks[i]] + hooks[i + 1..];
  }

  lemma LedSpec(declared: seq<Spec>, hooks: Hooks, i: nat, n: string)
    requires i < |hooks| && n != "" && FirstNamed(declared, n).None? && Offer(hooks[i], n).Some?
    ensures var s := Offer(hooks[i], n).value; s.name == n && s in Desired(declared, Leading(hooks, i))
  {
    var s := Offer(hooks[i], n).value;
    FirstNamedAt(Offered(hooks[i]), n);
    LeadingHookWins(hooks[i], hooks[..i] + hooks[i + 1..], n);
    FirstNamedConcat(declared, Contributed(Leading(hooks, i)), n);
    DesiredIsFirst(declared, Leading(hooks, i), s);
  }

  lemma OneSpecPerName(declared: seq<Spec>, hooks: Hooks, s: Spec, t: Spec)
    requires s in Desired(declared, hooks) && t in Desired(declared, hooks) && s.name == t.name
    ensures s == t
  {
    DesiredIsFirst(declared, hooks, s);
    DesiredIsFirst(declared, hooks, t);
  }

  ghost predicate OrderIndependent(declared: seq<Spec>, hooks: Hooks) {
    forall other: Hooks :: multiset(other) == multiset(hooks) ==> SameSpecs(Desired(declared, hooks), Desired(declared, other))
  }

  lemma MustAgree(declared: seq<Spec>, hooks: Hooks, n: string)
    requires OrderIndependent(declared, hooks) && n != "" && FirstNamed(declared, n).None?
    ensures Agree(hooks, n)
  {
    forall h, g | h in hooks && g in hooks && Offer(h, n).Some? && Offer(g, n).Some? ensures Offer(h, n) == Offer(g, n) {
      var i: nat :| i < |hooks| && hooks[i] == h;
      var j: nat :| j < |hooks| && hooks[j] == g;
      LeadingReorders(hooks, i);
      LeadingReorders(hooks, j);
      LedSpec(declared, hooks, i, n);
      LedSpec(declared, hooks, j, n);
      assert SameSpecs(Desired(declared, hooks), Desired(declared, Leading(hooks, i)));
      assert SameSpecs(Desired(declared, hooks), Desired(declared, Leading(hooks, j)));
      OneSpecPerName(declared, hooks, Offer(h, n).value, Offer(g, n).value);
    }
  }

  /** Every reordering of the hooks gives the same desired specs exactly when,
      for each name that is not declared, the succeeding hooks that offer it
      agree on their first spec of it. */
  lemma OrderMattersExactly(declared: seq<Spec>, hooks: Hooks)
    ensures OrderIndependent(declared, hooks) <==> AgreeUndeclared(declared, hooks)
  {
    if AgreeUndeclared(declared, hooks) {
      forall other: Hooks | multiset(other) == multiset(hooks) ensures SameSpecs(Desired(declared, hooks), Desired(declared, other)) {
        AgreementFixesSpecs(declared, hooks, other);
      }
    }
    if OrderIndependent(declared, hooks) {
      forall n: string | n != "" && FirstNamed(declared, n).None? ensures Agree(hooks, n) {
        MustAgree(declared, hooks, n);
      }
    }
  }

  // ----- names only -----

  lemma {:induction false} ContributedSet(hooks: seq<Result<seq<Spec>>>)
    ensures forall s :: s in Contributed(hooks) <==> exists i :: 0 <= i < |hooks| && hooks[i].Ok? && s in hooks[i].value
  {
    if hooks != [] {
      var n := |hooks| - 1;
      ContributedSet(hooks[..n]);
      forall s ensures s in Contributed(hooks) <==> exists i :: 0 <= i < |hooks| && hooks[i].Ok? && s in hooks[i].value {
        if i :| 0 <= i < |hooks| && hooks[i].Ok? && s in hooks[i].value {
          if i < n {
            assert hooks[..n][i] == hooks[i];
          }
        }
        if i :| 0 <= i < n && hooks[..n][i].Ok? && s in hooks[..n][i].value {
          assert hooks[i] == hooks[..n][i];
        }
      }
    }
  }

  /** Which names are desired does not depend on the order of the hooks. */
  lemma HookOrderKeepsNames(declared: seq<Spec>, hooks1: seq<Result<seq<Spec>>>, hooks2: seq<Result<seq<Spec>>>)
    requires forall h :: h in hooks1 <==> h in hooks2
    ensures SpecNames(Desired(declared, hooks1)) == SpecNames(Desired(declared, hooks2))
  {
    ContributedSet(hooks1);
    ContributedSet(hooks2);
    forall s ensures s in Contributed(hooks1) <==> s in Contributed(hooks2) {
      if i :| 0 <= i < |hooks1| && hooks1[i].Ok? && s in hooks1[i].value {
        assert hooks1[i] in hooks2;
      }
      if i :| 0 <= i < |hooks2| && hooks2[i].Ok? && s in hooks2[i].value {
        assert hooks2[i] in hooks1;
      }
    }
    FirstsNames(declared + Contributed(hooks1));
    FirstsNames(declared + Contributed(hooks2));
  }

  /** The smallest case of disagreement: two hooks, one undeclared name. */
  lemma HookOrderPicksSpec(a: Spec, b: Spec)
    requires a.name == b.name != "" && a != b
    ensures Desired([], [Ok([a]), Ok([b])]) == [a] && Desired([], [Ok([b]), Ok([a])]) == [b]
  {
    PairDesired(a, b);
    PairDesired(b, a);
  }

  lemma PairDesired(a: Spec, b: Spec)
    requires a.name == b.name != ""
    ensures Desired([], [Ok([a]), Ok([b])]) == [a]
  {
    var hooks: seq<Result<seq<Spec>>> := [Ok([a]), Ok([b])];
    assert hooks[..1] == [Ok([a])] && hooks[..1][..0] == [];
    assert Contributed(hooks[..1]) == [a];
    assert Contributed(hooks) == [a, b];
    assert [] + [a, b] == [a, b] && [a, b][..1] == [a] && [a][..0] == [];
    assert Firsts([a]) == [a];
  }
}
