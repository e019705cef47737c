/** vars/resolver.go: what the answer of Resolve means for each definition,
    stated without the functions that compute it. */
module Meaning {
  import opened Common
  import opened Text
  import opened Expressions
  import opened Resolver
  import opened Resolving

  // ----- values -----

  ghost predicate Decimal(s: string) { s != "" && forall i :: 0 <= i < |s| ==> IsDigit(s[i]) }

  /** s is a decimal number, signed or not, and n its value. */
  ghost predicate Reads(s: string, n: int) {
    || (Decimal(s) && n == ReadNumber(s))
    || (s != "" && s[0] == '+' && Decimal(s[1..]) && n == ReadNumber(s[1..]))
    || (s != "" && s[0] == '-' && Decimal(s[1..]) && n == 0 - ReadNumber(s[1..]))
  }

  /** n is f without its fraction. */
  predicate Whole(f: real, n: int) { if f >= 0.0 then n as real <= f < n as real + 1.0 else n as real - 1.0 < f <= n as real }

  /** The definition accepts the caller's value and makes v of it. */
  ghost predicate Means(d: Definition, raw: Raw, v: Value, re: Regexp) {
    match d.typ
    case TypeInt =>
      v.Int? && ((raw.RInt? && v.n == raw.n) || (raw.RFloat? && Whole(raw.f, v.n)) || (raw.RStr? && Reads(raw.s, v.n)))
    case TypeBool =>
      v.Bool? && ((raw.RBool? && v.b == raw.b)
                  || (raw.RStr? && v.b && raw.s in ["1", "t", "T", "true", "TRUE", "True"])
                  || (raw.RStr? && !v.b && raw.s in ["0", "f", "F", "false", "FALSE", "False"]))
    case TypeSecret => false
    case TypeUnknown => false
    case _ =>
      && raw.RStr? && v == Str(raw.s)
      && (d.typ == TypeEnum ==> raw.s in d.members)
      && (d.pattern.Some? ==> re.matches(d.pattern.value, raw.s))
  }

  lemma WholeOnce(f: real, m: int, n: int)
    requires Whole(f, m) && Whole(f, n)
    ensures m == n
  {}

  lemma AtoiReads(s: string, n: int)
    ensures Atoi(s) == Some(n) <==> Reads(s, n)
  {
    if s == "" {
      assert !Decimal(s);
    } else {
      assert !IsDigit(s[0]) ==> !Decimal(s);
      assert !IsDigit('-') && !IsDigit('+');
    }
    var digits := if s != "" && (s[0] == '-' || s[0] == '+') then s[1..] else s;
    assert Decimal(digits) <==> AllDigits(digits);
  }

  lemma IntMeans(d: Definition, raw: Raw, v: Value, re: Regexp)
    requires d.typ == TypeInt
    ensures Typed(d, raw, re) == Done(Some(v)) <==> Means(d, raw, v, re)
  {
    if raw.RStr? && v.Int? {
      AtoiReads(raw.s, v.n);
    }
    if raw.RFloat? && v.Int? && Whole(raw.f, v.n) {
      WholeOnce(raw.f, v.n, Truncate(raw.f));
    }
  }

  lemma BoolMeans(d: Definition, raw: Raw, v: Value, re: Regexp)
    requires d.typ == TypeBool
    ensures Typed(d, raw, re) == Done(Some(v)) <==> Means(d, raw, v, re)
  {}

  lemma TypedMeans(d: Definition, raw: Raw, v: Value, re: Regexp)
    requires d.typ != TypeSecret && d.typ != TypeUnknown
    ensures Typed(d, raw, re) == Done(Some(v)) <==> Means(d, raw, v, re)
  {
    if d.typ == TypeInt {
      IntMeans(d, raw, v, re);
    } else if d.typ == TypeBool {
      BoolMeans(d, raw, v, re);
    }
  }

  lemma TypedAnswers(d: Definition, raw: Raw, re: Regexp)
    ensures match Typed(d, raw, re) case Done(o) => o.Some? case Fail(e) => e == InvalidValue(d.name)
  {}

  /** A printed value reads back as itself. */
  lemma ShownReadsBack(v: Value)
    ensures match v
      case Int(n) => ToInt(RStr(Show(v))) == Some(n)
      case Bool(b) => ToBool(RStr(Show(v))) == Some(b)
      case Str(s) => Show(v) == s
    ensures v.Int? ==> Show(v) != "" && (Show(v)[0] == '-' <==> v.n < 0) && (|Show(v)| > 1 ==> Show(v)[0] != '0')
  {
    if v.Int? {
      ItoaCanonical(if v.n < 0 then -v.n else v.n);
      var digits := Itoa(if v.n < 0 then -v.n else v.n);
      ReadItoa(if v.n < 0 then -v.n else v.n);
      assert IsDigit(digits[0]) && AllDigits(digits);
      if v.n < 0 {
        assert Show(v)[1..] == digits;
      }
      AtoiReads(Show(v), v.n);
    }
  }

  // ----- plain variables -----

  /** A value given decides; without one the default does; with neither the
      variable is absent, and was not required. */
  ghost predicate Settled(d: Definition, values: map<string, Raw>, vars: map<string, Value>, re: Regexp) {
    if d.name in values then d.name in vars && Means(d, values[d.name], vars[d.name], re)
    else if d.default.Some? then d.name in vars && Means(d, d.default.value, vars[d.name], re)
    else d.name !in vars && !d.required
  }

  /** A plain definition that cannot be settled, and the error it gives. */
  ghost predicate Unsettled(d: Definition, values: map<string, Raw>, re: Regexp, e: Error) {
    if d.name in values then e == InvalidValue(d.name) && forall v :: !Means(d, values[d.name], v, re)
    else if d.default.Some? then e == InvalidValue(d.name) && forall v :: !Means(d, d.default.value, v, re)
    else e == MissingRequired(d.name) && d.required
  }

  lemma TypedSplits(d: Definition, raw: Raw, re: Regexp)
    requires d.typ != TypeSecret && d.typ != TypeUnknown
    ensures forall v :: Typed(d, raw, re) == Done(Some(v)) <==> Means(d, raw, v, re)
    ensures Typed(d, raw, re) == Fail(InvalidValue(d.name)) <==> forall v :: !Means(d, raw, v, re)
    ensures Typed(d, raw, re).Done? ==> Typed(d, raw, re).value.Some?
  {
    forall v ensures Typed(d, raw, re) == Done(Some(v)) <==> Means(d, raw, v, re) {
      TypedMeans(d, raw, v, re);
    }
    TypedAnswers(d, raw, re);
    if Typed(d, raw, re).Done? {
      assert Means(d, raw, Typed(d, raw, re).value.value, re);
    }
  }

  lemma PlainSplits(d: Definition, values: map<string, Raw>, re: Regexp, vars: map<string, Value>)
    requires d.typ != TypeSecret && d.typ != TypeUnknown && d.name !in vars
    ensures match ResolvePlain(d, ValueOf(values, d.name), re)
      case Done(v) => Settled(d, values, if v.Some? then vars[d.name := v.value] else vars, re) && forall e :: !Unsettled(d, values, re, e)
      case Fail(e) => Unsettled(d, values, re, e) && forall e' :: Unsettled(d, values, re, e') ==> e' == e
  {
    if d.name in values {
      TypedSplits(d, values[d.name], re);
    } else if d.default.Some? {
      TypedSplits(d, d.default.value, re);
    }
  }

  // ----- definitions -----

  /** The rules for one definition. */
  ghost predicate WellDefined(d: Definition, re: Regexp) {
    && TrimSpace(d.name) != ""
    && (d.expression.Some? ==> d.default.None? && d.expression.value.Good?)
    && d.typ in [TypeString, TypeInt, TypeBool, TypeEnum, TypeSecret]
    && (d.typ == TypeEnum ==> |d.members| > 0)
    && (d.typ == TypeSecret ==> d.expression.None? && d.secret.Some?)
    && (d.pattern.Some? ==> re.compiles(d.pattern.value))
  }

  lemma ValidIsWellDefined(d: Definition, re: Regexp)
    ensures ValidDefinition(d, re) <==> WellDefined(d, re)
  {
    BlankIsTrimmed(d.name);
  }

  ghost predicate NamedBefore(earlier: seq<Definition>, n: string) { exists i :: 0 <= i < |earlier| && earlier[i].name == n }

  lemma NamedIsSeen(earlier: seq<Definition>, n: string)
    ensures n in DefNames(earlier) <==> NamedBefore(earlier, n)
  {
    if NamedBefore(earlier, n) {
      var i :| 0 <= i < |earlier| && earlier[i].name == n;
      assert earlier[i] in earlier;
    }
    if n in DefNames(earlier) {
      var d :| d in earlier && d.name == n;
      var i :| 0 <= i < |earlier| && earlier[i] == d;
    }
  }

  /** A definition that stops the resolution, and how. */
  ghost predicate Faulty(d: Definition, earlier: seq<Definition>, values: map<string, Raw>, re: Regexp, e: Error) {
    if !WellDefined(d, re) || NamedBefore(earlier, d.name) then e == InvalidDefinition
    else IsPlain(d) && Unsettled(d, values, re, e)
  }

  /** What the first loop knows after some definitions. */
  ghost predicate Known(g: Gathered, defs: seq<Definition>, values: map<string, Raw>, re: Regexp) {
    && g.seen == DefNames(defs) && g.vars.Keys <= g.seen
    && (forall i :: 0 <= i < |defs| && IsPlain(defs[i]) ==> Settled(defs[i], values, g.vars, re))
    && g.bindings == SecretsOf(defs)
  }

  /** The secrets in the order of their definitions, each with its own source. */
  function SecretsOf(defs: seq<Definition>): seq<Binding> {
    if defs == [] then []
    else
      var d, rest := defs[0], SecretsOf(defs[1..]);
      if d.typ == TypeSecret && d.secret.Some? then [Binding(d.name, EnvName(d.name), d.secret.value)] + rest else rest
  }

  lemma {:induction false} SecretsSnoc(defs: seq<Definition>, d: Definition)
    ensures SecretsOf(defs + [d]) ==
      SecretsOf(defs) + if d.typ == TypeSecret && d.secret.Some? then [Binding(d.name, EnvName(d.name), d.secret.value)] else []
  {
    if defs == [] {
      assert (defs + [d])[1..] == [];
    } else {
      assert (defs + [d])[1..] == defs[1..] + [d];
      SecretsSnoc(defs[1..], d);
    }
  }

  lemma KnownStart(values: map<string, Raw>, re: Regexp)
    ensures Known(Gathered(map[], [], [], {}), [], values, re)
  {}

  /** Another definition leaves what is settled alone. */
  lemma SettledStays(d: Definition, values: map<string, Raw>, vars: map<string, Value>, re: Regexp, n: string, v: Value)
    requires Settled(d, values, vars, re) && d.name != n
    ensures Settled(d, values, vars[n := v], re)
  {}

  lemma OneDone(g: Gathered, defs: seq<Definition>, d: Definition, values: map<string, Raw>, re: Regexp)
    requires Known(g, defs, values, re) && GatherOne(g, d, values, re).Done?
    ensures Known(GatherOne(g, d, values, re).value, defs + [d], values, re)
    ensures forall e :: !Faulty(d, defs, values, re, e)
  {
    ValidIsWellDefined(d, re);
    NamedIsSeen(defs, d.name);
    SecretsSnoc(defs, d);
    DefNamesSnoc(defs, d);
    var g' := GatherOne(g, d, values, re).value;
    if IsPlain(d) {
      PlainSplits(d, values, re, g.vars);
    }
    forall i | 0 <= i < |defs + [d]| && IsPlain((defs + [d])[i]) ensures Settled((defs + [d])[i], values, g'.vars, re) {
      if i < |defs| {
        assert defs[i].name != d.name;
        if d.name in g'.vars && g'.vars == g.vars[d.name := g'.vars[d.name]] {
          SettledStays(defs[i], values, g.vars, re, d.name, g'.vars[d.name]);
        }
      }
    }
  }

  lemma OneFails(g: Gathered, defs: seq<Definition>, d: Definition, values: map<string, Raw>, re: Regexp)
    requires Known(g, defs, values, re) && GatherOne(g, d, values, re).Fail?
    ensures forall e :: Faulty(d, defs, values, re, e) <==> e == GatherOne(g, d, values, re).error
  {
    ValidIsWellDefined(d, re);
    NamedIsSeen(defs, d.name);
    if IsPlain(d) && d.name !in g.seen && WellDefined(d, re) {
      PlainSplits(d, values, re, g.vars);
    }
  }

  /** e is the error of the first definition that stops the resolution. */
  ghost predicate FirstFault(defs: seq<Definition>, values: map<string, Raw>, re: Regexp, e: Error) {
    exists k :: 0 <= k < |defs| && FaultAt(defs, k, values, re, e) && forall j, e' :: 0 <= j < k ==> !FaultAt(defs, j, values, re, e')
  }

  ghost predicate FaultAt(defs: seq<Definition>, k: nat, values: map<string, Raw>, re: Regexp, e: Error) {
    k < |defs| && Faulty(defs[k], defs[..k], values, re, e)
  }

  lemma FaultInit(defs: seq<Definition>, n: nat, k: nat, values: map<string, Raw>, re: Regexp, e: Error)
    requires k < n <= |defs|
    ensures FaultAt(defs[..n], k, values, re, e) <==> FaultAt(defs, k, values, re, e)
  {
    assert defs[..n][..k] == defs[..k];
  }

  ghost predicate NoFault(defs: seq<Definition>, values: map<string, Raw>, re: Regexp) { forall k, e :: !FaultAt(defs, k, values, re, e) }

  lemma FaultsInit(defs: seq<Definition>, values: map<string, Raw>, re: Regexp)
    requires defs != []
    ensures var n := |defs| - 1; forall k, e :: 0 <= k < n ==> (FaultAt(defs[..n], k, values, re, e) <==> FaultAt(defs, k, values, re, e))
  {
    var n := |defs| - 1;
    forall k, e | 0 <= k < n ensures FaultAt(defs[..n], k, values, re, e) <==> FaultAt(defs, k, values, re, e) {
      FaultInit(defs, n, k, values, re, e);
    }
  }

  lemma FaultCarries(defs: seq<Definition>, values: map<string, Raw>, re: Regexp, e: Error)
    requires defs != [] && FirstFault(defs[..|defs| - 1], values, re, e)
    ensures FirstFault(defs, values, re, e)
  {
    FaultsInit(defs, values, re);
    var init := defs[..|defs| - 1];
    var k :| 0 <= k < |init| && FaultAt(init, k, values, re, e) && forall j, e' :: 0 <= j < k ==> !FaultAt(init, j, values, re, e');
    assert FaultAt(defs, k, values, re, e);
  }

  lemma LastGathered(defs: seq<Definition>, values: map<string, Raw>, re: Regexp, g: Gathered)
    requires defs != [] && Known(g, defs[..|defs| - 1], values, re) && NoFault(defs[..|defs| - 1], values, re)
    ensures match GatherOne(g, defs[|defs| - 1], values, re)
      case Done(g') => Known(g', defs, values, re) && NoFault(defs, values, re)
      case Fail(e) => FirstFault(defs, values, re, e)
  {
    var n := |defs| - 1;
    FaultsInit(defs, values, re);
    assert defs == defs[..n] + [defs[n]];
    if GatherOne(g, defs[n], values, re).Done? {
      OneDone(g, defs[..n], defs[n], values, re);
    } else {
      OneFails(g, defs[..n], defs[n], values, re);
      assert FaultAt(defs, n, values, re, GatherOne(g, defs[n], values, re).error);
    }
  }

  lemma {:induction false} GatherMeans(defs: seq<Definition>, values: map<string, Raw>, re: Regexp)
    ensures match Gather(defs, values, re)
      case Done(g) => Known(g, defs, values, re) && NoFault(defs, values, re)
      case Fail(e) => FirstFault(defs, values, re, e)
  {
    if defs == [] {
      KnownStart(values, re);
    } else {
      var init := defs[..|defs| - 1];
      GatherMeans(init, values, re);
      match Gather(init, values, re)
      case Fail(e) => FaultCarries(defs, values, re, e);
      case Done(g) => LastGathered(defs, values, re, g);
    }
  }

  lemma FirstFaultOnce(defs: seq<Definition>, values: map<string, Raw>, re: Regexp, e: Error, e': Error)
    requires FirstFault(defs, values, re, e) && FirstFault(defs, values, re, e')
    ensures e == e'
  {
    var k :| 0 <= k < |defs| && FaultAt(defs, k, values, re, e) && forall j, x :: 0 <= j < k ==> !FaultAt(defs, j, values, re, x);
    var l :| 0 <= l < |defs| && FaultAt(defs, l, values, re, e') && forall j, x :: 0 <= j < l ==> !FaultAt(defs, j, values, re, x);
    assert k == l;
  }

  // ----- Resolve -----

  /** Resolve fails with an error other than a cycle exactly when that is the
      error of the first definition that is malformed, repeated, required
      without a value, or given a value its type does not accept. */
  lemma FailsExactly(defs: seq<Definition>, values: map<string, Raw>, context: map<Field, string>, re: Regexp, r: Res<Resolution>, e: Error)
    requires Resolves(defs, values, context, re, r) && !e.Cycle?
    ensures r == Fail(e) <==> FirstFault(defs, values, re, e)
  {
    GatherMeans(defs, values, re);
    if FirstFault(defs, values, re, e) && Gather(defs, values, re).Fail? {
      FirstFaultOnce(defs, values, re, e, Gather(defs, values, re).error);
    }
  }

  lemma ScopeOf(defs: seq<Definition>, values: map<string, Raw>, context: map<Field, string>, re: Regexp, r: Res<Resolution>)
      returns (g: Gathered, order: seq<Definition>)
    requires Resolves(defs, values, context, re, r) && r.Done?
    ensures Gather(defs, values, re) == Done(g) && r.value.bindings == g.bindings
    ensures AllComputable(g.computed) && Fixpoint(Scope(g.vars, context), g.computed, r.value.scope, order)
    ensures Extends(g.vars, r.value.scope.vars) && r.value.scope.context == context
    ensures Unresolved(g.computed, r.value.scope.vars) == []
  {
    g := Gather(defs, values, re).value;
    var final :| ReachesFixpoint(Scope(g.vars, context), g.computed, final) && r == Conclude(g, final);
    order :| Fixpoint(Scope(g.vars, context), g.computed, final, order);
  }

  /** After success every plain variable is settled by its value, else its
      default; secrets are bound in order, each to its own source; the context
      is the caller's. */
  lemma PlainValues(defs: seq<Definition>, values: map<string, Raw>, context: map<Field, string>, re: Regexp, r: Res<Resolution>, i: nat)
    requires Resolves(defs, values, context, re, r) && r.Done?
    ensures i < |defs| && IsPlain(defs[i]) ==> Settled(defs[i], values, r.value.scope.vars, re)
    ensures r.value.bindings == SecretsOf(defs) && r.value.scope.context == context
  {
    GatherMeans(defs, values, re);
    GatherSorts(defs, values, re);
    var g, order := ScopeOf(defs, values, context, re, r);
    if i < |defs| && IsPlain(defs[i]) {
      FollowKeys(Scope(g.vars, context), order);
      PlainNotComputed(g, defs, i);
      assert DefNames(order) <= DefNames(g.computed);
    }
  }

  lemma PlainNotComputed(g: Gathered, defs: seq<Definition>, i: nat)
    requires Sorted(g, defs) && i < |defs| && IsPlain(defs[i])
    ensures defs[i].name !in DefNames(g.computed)
  {
    assert defs[i] in defs;
  }

  /** The computed definitions are those with an expression. */
  lemma {:induction false} ComputedGathered(defs: seq<Definition>, values: map<string, Raw>, re: Regexp)
    requires Gather(defs, values, re).Done?
    ensures forall d :: d in defs && d.typ != TypeSecret && d.expression.Some? ==> d in Gather(defs, values, re).value.computed
  {
    if defs != [] {
      var n := |defs| - 1;
      ComputedGathered(defs[..n], values, re);
      assert defs == defs[..n] + [defs[n]];
    }
  }

  /** After success every computed variable holds its expression's value in the
      final scope. */
  lemma ComputedValues(defs: seq<Definition>, values: map<string, Raw>, context: map<Field, string>, re: Regexp, r: Res<Resolution>, d: Definition)
    requires Resolves(defs, values, context, re, r) && r.Done?
    requires d in defs && d.typ != TypeSecret && d.expression.Some?
    ensures d.expression.value.Good? && d.name in r.value.scope.vars
    ensures Eval(d.expression.value.e, r.value.scope).Ok?
    ensures r.value.scope.vars[d.name] == Str(Eval(d.expression.value.e, r.value.scope).value)
  {
    var g, order := ScopeOf(defs, values, context, re, r);
    ComputedGathered(defs, values, re);
    UnresolvedMembers(g.computed, r.value.scope.vars);
    assert d in g.computed && d !in Unresolved(g.computed, r.value.scope.vars);
  }

  /** The scope holds nothing else. */
  lemma OnlyDeclared(defs: seq<Definition>, values: map<string, Raw>, context: map<Field, string>, re: Regexp, r: Res<Resolution>, n: string)
    requires Resolves(defs, values, context, re, r) && r.Done? && n in r.value.scope.vars
    ensures exists d :: d in defs && d.name == n && d.typ != TypeSecret
  {
    GatherSorts(defs, values, re);
    var g, order := ScopeOf(defs, values, context, re, r);
    FollowKeys(Scope(g.vars, context), order);
    if n in g.vars {
      var d :| d in defs && IsPlain(d) && d.name == n;
    } else {
      var d: Definition :| d in order && d.name == n;
      assert d in g.computed;
    }
  }
}
