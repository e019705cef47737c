/** vars/resolver.go: definitions and values to a scope, with computed
    variables evaluated by an iterative fixpoint. */
module Resolver {
  import opened Common
  import opened Text
  import opened Expressions

  datatype VarType = TypeString | TypeInt | TypeBool | TypeEnum | TypeSecret | TypeUnknown

  /** A caller's value: JSON-decoded or native. */
  datatype Raw = RStr(s: string) | RInt(n: int) | RBool(b: bool) | RFloat(f: real) | ROther

  /** An expression text after parsing. */
  datatype Parsed = Good(e: Expr) | Bad

  datatype Definition = Definition(
    name: string, typ: VarType, required: bool, default: Option<Raw>, members: seq<string>,
    secret: Option<string>, expression: Option<Parsed>, pattern: Option<string>)

  /** A secret, the environment name it is exposed under and its source. */
  datatype Binding = Binding(name: string, key: string, ref: string)

  datatype Error = InvalidDefinition | MissingRequired(name: string) | InvalidValue(name: string) | Cycle(names: seq<string>)

  datatype Res<T> = Done(value: T) | Fail(error: Error)

  /** The regular expression library. */
  datatype Regexp = Regexp(compiles: string -> bool, matches: (string, string) -> bool)

  // ----- one definition -----

  predicate ValidDefinition(d: Definition, re: Regexp) {
    && !Blank(d.name)
    && !(d.default.Some? && d.expression.Some?)
    && d.typ != TypeUnknown
    && (d.typ == TypeEnum ==> d.members != [])
    && (d.typ == TypeSecret ==> d.secret.Some? && d.expression.None?)
    && (d.pattern.Some? ==> re.compiles(d.pattern.value))
    && (d.expression.Some? ==> d.expression.value.Good?)
  }

  predicate AllDigits(s: string) { s != "" && forall i :: 0 <= i < |s| ==> IsDigit(s[i]) }

  /** strconv.Atoi: an optional sign and decimal digits. */
  function Atoi(s: string): Option<int> {
    var digits := if s != "" && (s[0] == '-' || s[0] == '+') then s[1..] else s;
    if !AllDigits(digits) then None
    else var n: int := ReadNumber(digits); Some(if s[0] == '-' then -n else n)
  }

  function ToInt(raw: Raw): Option<int> {
    match raw
    case RInt(n) => Some(n)
    case RFloat(f) => Some(Truncate(f))
    case RStr(s) => Atoi(s)
    case _ => None
  }

  function ToBool(raw: Raw): Option<bool> {
    match raw
    case RBool(b) => Some(b)
    case RStr(s) =>
      if s in {"1", "t", "T", "TRUE", "true", "True"} then Some(true)
      else if s in {"0", "f", "F", "FALSE", "false", "False"} then Some(false)
      else None
    case _ => None
  }

  function Typed(d: Definition, raw: Raw, re: Regexp): Res<Option<Value>> {
    match d.typ
    case TypeInt => (match ToInt(raw) case Some(n) => Done(Some(Int(n))) case None => Fail(InvalidValue(d.name)))
    case TypeBool => (match ToBool(raw) case Some(b) => Done(Some(Bool(b))) case None => Fail(InvalidValue(d.name)))
    case _ =>
      if !raw.RStr? then Fail(InvalidValue(d.name))
      else if d.typ == TypeEnum && raw.s !in d.members then Fail(InvalidValue(d.name))
      else if d.pattern.Some? && !re.matches(d.pattern.value, raw.s) then Fail(InvalidValue(d.name))
      else Done(Some(Str(raw.s)))
  }

  /** A value or the default, checked by type; unset and optional is None. */
  function ResolvePlain(d: Definition, raw: Option<Raw>, re: Regexp): Res<Option<Value>> {
    var given := if raw.Some? then raw else d.default;
    if given.None? then (if d.required then Fail(MissingRequired(d.name)) else Done(None))
    else Typed(d, given.value, re)
  }

  function ValueOf(values: map<string, Raw>, name: string): Option<Raw> { if name in values then Some(values[name]) else None }

  // ----- the first loop of Resolve -----

  datatype Gathered = Gathered(vars: map<string, Value>, bindings: seq<Binding>, computed: seq<Definition>, seen: set<string>)

  function GatherOne(g: Gathered, d: Definition, values: map<string, Raw>, re: Regexp): Res<Gathered> {
    if !ValidDefinition(d, re) || d.name in g.seen then Fail(InvalidDefinition)
    else
      var g1 := g.(seen := g.seen + {d.name});
      if d.typ == TypeSecret then Done(g1.(bindings := g.bindings + [Binding(d.name, EnvName(d.name), d.secret.value)]))
      else if d.expression.Some? then Done(g1.(computed := g.computed + [d]))
      else
        match ResolvePlain(d, ValueOf(values, d.name), re)
        case Fail(e) => Fail(e)
        case Done(v) => Done(if v.Some? then g1.(vars := g.vars[d.name := v.value]) else g1)
  }

  function Gather(defs: seq<Definition>, values: map<string, Raw>, re: Regexp): Res<Gathered> {
    if defs == [] then Done(Gathered(map[], [], [], {}))
    else
      match Gather(defs[..|defs| - 1], values, re)
      case Fail(e) => Fail(e)
      case Done(g) => GatherOne(g, defs[|defs| - 1], values, re)
  }

  predicate IsPlain(d: Definition) { d.typ != TypeSecret && d.expression.None? }

  function DefNames(defs: seq<Definition>): set<string> { set d | d in defs :: d.name }

  ghost predicate DistinctDefs(defs: seq<Definition>) {
    forall i, j :: 0 <= i < j < |defs| ==> defs[i].name != defs[j].name
  }

  lemma DefNamesSnoc(defs: seq<Definition>, d: Definition)
    ensures DefNames(defs + [d]) == DefNames(defs) + {d.name}
  {}

  /** Every name is in one place: plain values, computed ones, secrets. */
  ghost predicate Sorted(g: Gathered, defs: seq<Definition>) {
    && g.seen == DefNames(defs) && DistinctDefs(defs)
    && DistinctDefs(g.computed)
    && (forall d :: d in g.computed ==> d in defs && d.typ != TypeSecret && d.expression.Some? && d.expression.value.Good?)
    && PlainVars(g.vars, defs)
  }

  ghost predicate PlainVars(vars: map<string, Value>, defs: seq<Definition>) {
    forall n :: n in vars ==> exists d :: d in defs && IsPlain(d) && d.name == n
  }

  lemma PlainVarsStep(vars: map<string, Value>, defs: seq<Definition>, d: Definition, vars': map<string, Value>)
    requires PlainVars(vars, defs) && vars'.Keys <= vars.Keys + if IsPlain(d) then {d.name} else {}
    ensures PlainVars(vars', defs + [d])
  {
    assert d in defs + [d];
    forall n | n in vars' ensures exists e :: e in defs + [d] && IsPlain(e) && e.name == n {
      if n in vars {
        var e :| e in defs && IsPlain(e) && e.name == n;
        assert e in defs + [d];
      }
    }
  }

  lemma ComputedStep(g: Gathered, defs: seq<Definition>, d: Definition)
    requires Sorted(g, defs) && d.name !in g.seen && d.typ != TypeSecret && d.expression.Some? && d.expression.value.Good?
    ensures DistinctDefs(g.computed + [d])
    ensures forall e :: e in g.computed + [d] ==> e in defs + [d] && e.typ != TypeSecret && e.expression.Some? && e.expression.value.Good?
  {
    forall i | 0 <= i < |g.computed| ensures g.computed[i].name != d.name {
      assert g.computed[i] in defs;
    }
  }

  lemma SortedStep(g: Gathered, defs: seq<Definition>, d: Definition, values: map<string, Raw>, re: Regexp)
    requires Sorted(g, defs) && GatherOne(g, d, values, re).Done?
    ensures Sorted(GatherOne(g, d, values, re).value, defs + [d])
  {
    DefNamesSnoc(defs, d);
    forall i | 0 <= i < |defs| ensures defs[i].name != d.name {
      assert defs[i] in defs;
    }
    PlainVarsStep(g.vars, defs, d, GatherOne(g, d, values, re).value.vars);
    if d.typ != TypeSecret && d.expression.Some? {
      ComputedStep(g, defs, d);
    }
  }

  lemma {:induction false} GatherSorts(defs: seq<Definition>, values: map<string, Raw>, re: Regexp)
    requires Gather(defs, values, re).Done?
    ensures Sorted(Gather(defs, values, re).value, defs)
  {
    if defs != [] {
      var n := |defs| - 1;
      GatherSorts(defs[..n], values, re);
      SortedStep(Gather(defs[..n], values, re).value, defs[..n], defs[n], values, re);
      assert defs == defs[..n] + [defs[n]];
    }
  }

  /** The first loop reads only the values of plain variables. */
  lemma {:induction false} GatherIgnoresOthers(defs: seq<Definition>, v1: map<string, Raw>, v2: map<string, Raw>, re: Regexp)
    requires forall d :: d in defs && IsPlain(d) ==> ValueOf(v1, d.name) == ValueOf(v2, d.name)
    ensures Gather(defs, v1, re) == Gather(defs, v2, re)
  {
    if defs != [] {
      GatherIgnoresOthers(defs[..|defs| - 1], v1, v2, re);
    }
  }

  // ----- the fixpoint of computed variables -----

  predicate Computable(d: Definition) { d.expression.Some? && d.expression.value.Good? }

  function EvalDef(d: Definition, scope: Scope): Result<string>
    requires Computable(d)
  {
    Eval(d.expression.value.e, scope)
  }

  ghost predicate AllComputable(defs: seq<Definition>) { forall d :: d in defs ==> Computable(d) }

  /** Evaluating definitions one after the other, each from what came before:
      the reference notion of an order that works. */
  ghost function Follow(scope: Scope, order: seq<Definition>): Result<Scope>
    requires AllComputable(order)
  {
    if order == [] then Ok(scope)
    else
      var before, d := Follow(scope, order[..|order| - 1]), order[|order| - 1];
      if before == Err || EvalDef(d, before.value) == Err then Err
      else Ok(before.value.(vars := before.value.vars[d.name := Str(EvalDef(d, before.value).value)]))
  }

  /** Every definition outside `rest` holds its value in `final`. */
  ghost predicate Resolved(final: Scope, d: Definition)
    requires Computable(d)
  {
    d.name in final.vars && EvalDef(d, final).Ok? && final.vars[d.name] == Str(EvalDef(d, final).value)
  }

  /** The definitions not yet in the scope, in their order. */
  function Unresolved(defs: seq<Definition>, vars: map<string, Value>): seq<Definition> {
    if defs == [] then []
    else
      var init, last := Unresolved(defs[..|defs| - 1], vars), defs[|defs| - 1];
      if last.name in vars then init else init + [last]
  }

  /** `final` is reached from `base` by evaluating definitions of `defs`, and
      none of those it leaves out can be evaluated in it. */
  ghost predicate Fixpoint(base: Scope, defs: seq<Definition>, final: Scope, order: seq<Definition>)
    requires AllComputable(defs)
  {
    && (forall d :: d in order ==> d in defs)
    && AllComputable(order) && Follow(base, order) == Ok(final)
    && (forall d :: d in order ==> Resolved(final, d))
    && (forall d :: d in defs ==> d in order || (d.name !in final.vars && EvalDef(d, final) == Err))
  }

  /** Whatever any working order computes is in the fixpoint, with the same
      value: the fixpoint is the least one and no order gets further. */
  lemma {:induction false} FollowWithin(base: Scope, defs: seq<Definition>, final: Scope, order: seq<Definition>, other: seq<Definition>)
    requires AllComputable(defs) && Fixpoint(base, defs, final, order) && Extends(base.vars, final.vars) && final.context == base.context
    requires AllComputable(other) && (forall d :: d in other ==> d in defs) && Follow(base, other).Ok?
    ensures Extends(Follow(base, other).value.vars, final.vars) && Follow(base, other).value.context == base.context
    ensures forall d :: d in other ==> d in order
  {
    if other != [] {
      var n := |other| - 1;
      var d := other[n];
      FollowWithin(base, defs, final, order, other[..n]);
      assert other == other[..n] + [d];
      assert d in other;
      EvalStable(d.expression.value.e, Follow(base, other[..n]).value, final);
      assert d in order;
      assert Resolved(final, d);
    }
  }

  /** Two fixpoints over the same definitions, listed in any order, have the
      same scope and leave out the same definitions. */
  lemma FixpointUnique(base: Scope, defs1: seq<Definition>, final1: Scope, order1: seq<Definition>,
                       defs2: seq<Definition>, final2: Scope, order2: seq<Definition>)
    requires AllComputable(defs1) && AllComputable(defs2) && (forall d :: d in defs1 <==> d in defs2)
    requires Fixpoint(base, defs1, final1, order1) && Fixpoint(base, defs2, final2, order2)
    requires Extends(base.vars, final1.vars) && Extends(base.vars, final2.vars)
    requires final1.context == base.context == final2.context
    ensures final1 == final2
    ensures forall d :: d in order1 <==> d in order2
  {
    FollowWithin(base, defs1, final1, order1, order2);
    FollowWithin(base, defs2, final2, order2, order1);
    assert final1.vars == final2.vars;
  }

  /** Resolution succeeds exactly when all definitions can be put in an order
      in which each is evaluable from the earlier ones. */
  ghost predicate Orderable(base: Scope, defs: seq<Definition>)
    requires AllComputable(defs)
  {
    exists order :: AllComputable(order) && (forall d :: d in order <==> d in defs) && Follow(base, order).Ok?
  }

  lemma CompleteExactly(base: Scope, defs: seq<Definition>, final: Scope, order: seq<Definition>)
    requires AllComputable(defs) && Fixpoint(base, defs, final, order)
    requires Extends(base.vars, final.vars) && final.context == base.context
    ensures Orderable(base, defs) <==> forall d :: d in defs ==> d in order
  {
    if Orderable(base, defs) {
      var other :| AllComputable(other) && (forall d :: d in other <==> d in defs) && Follow(base, other).Ok?;
      FollowWithin(base, defs, final, order, other);
    }
  }

  lemma {:induction false} UnresolvedMembers(defs: seq<Definition>, vars: map<string, Value>)
    ensures forall d :: d in Unresolved(defs, vars) <==> d in defs && d.name !in vars
  {
    if defs != [] {
      var n := |defs| - 1;
      UnresolvedMembers(defs[..n], vars);
      assert defs == defs[..n] + [defs[n]];
    }
  }
}
