/** Template expressions over a variable scope. Go's text/template is
    abstracted to the shapes below; a reference to an absent variable is an
    error (missingkey=error). */
module Expressions {
  import opened Common
  import opened Text

  datatype Value = Str(s: string) | Int(n: int) | Bool(b: bool)

  /** The derived context every template sees besides its variables. */
  datatype Field = InstanceId | InstanceName | TenantId | Region

  datatype Scope = Scope(vars: map<string, Value>, context: map<Field, string>)

  datatype Expr =
    | Lit(s: string)
    | Var(name: string)
    | Ctx(field: Field)
    | Concat(left: Expr, right: Expr)
    | If(name: string, thn: Expr, els: Expr)

  function Show(v: Value): string {
    match v
    case Str(s) => s
    case Int(n) => if n < 0 then "-" + Itoa(-n) else Itoa(n)
    case Bool(b) => if b then "true" else "false"
  }

  predicate Truthy(v: Value) {
    match v case Str(s) => s != "" case Int(n) => n != 0 case Bool(b) => b
  }

  function Eval(e: Expr, scope: Scope): Result<string> {
    match e
    case Lit(s) => Ok(s)
    case Var(name) => if name in scope.vars then Ok(Show(scope.vars[name])) else Err
    case Ctx(field) => if field in scope.context then Ok(scope.context[field]) else Err
    case Concat(left, right) =>
      var l, r := Eval(left, scope), Eval(right, scope);
      if l == Err || r == Err then Err else Ok(l.value + r.value)
    case If(name, thn, els) =>
      if name !in scope.vars then Err
      else if Truthy(scope.vars[name]) then Eval(thn, scope) else Eval(els, scope)
  }

  /** What an evaluation prints, piece by piece from left to right; None where
      a piece is missing. */
  function Pieces(e: Expr, scope: Scope): seq<Option<string>> {
    match e
    case Lit(s) => [Some(s)]
    case Var(name) => [if name in scope.vars then Some(Show(scope.vars[name])) else None]
    case Ctx(field) => [if field in scope.context then Some(scope.context[field]) else None]
    case Concat(left, right) => Pieces(left, scope) + Pieces(right, scope)
    case If(name, thn, els) =>
      if name !in scope.vars then [None]
      else if scope.vars[name] in {Str(""), Int(0), Bool(false)} then Pieces(els, scope) else Pieces(thn, scope)
  }

  function Joined(pieces: seq<Option<string>>): Result<string> {
    if pieces == [] then Ok("")
    else if pieces[0].None? || Joined(pieces[1..]) == Err then Err
    else Ok(pieces[0].value + Joined(pieces[1..]).value)
  }

  lemma {:induction false} JoinedConcat(a: seq<Option<string>>, b: seq<Option<string>>)
    ensures Joined(a + b) ==
      if Joined(a) == Err || Joined(b) == Err then Err else Ok(Joined(a).value + Joined(b).value)
  {
    if a == [] {
      assert a + b == b;
      if Joined(b).Ok? {
        assert "" + Joined(b).value == Joined(b).value;
      }
    } else {
      assert (a + b)[1..] == a[1..] + b;
      JoinedConcat(a[1..], b);
      if Joined(a + b).Ok? {
        assert a[0].value + (Joined(a[1..]).value + Joined(b).value) == (a[0].value + Joined(a[1..]).value) + Joined(b).value;
      }
    }
  }

  lemma JoinedOne(p: Option<string>)
    ensures Joined([p]) == if p.None? then Err else Ok(p.value)
  {
    assert [p][1..] == [];
    if p.Some? {
      assert p.value + "" == p.value;
    }
  }

  /** An evaluation prints its pieces in order, and fails exactly when one is
      missing. */
  lemma {:induction false} EvalPrints(e: Expr, scope: Scope)
    ensures Eval(e, scope) == Joined(Pieces(e, scope))
  {
    match e
    case Lit(s) => JoinedOne(Some(s));
    case Var(name) => JoinedOne(if name in scope.vars then Some(Show(scope.vars[name])) else None);
    case Ctx(field) => JoinedOne(if field in scope.context then Some(scope.context[field]) else None);
    case Concat(left, right) =>
      EvalPrints(left, scope);
      EvalPrints(right, scope);
      JoinedConcat(Pieces(left, scope), Pieces(right, scope));
    case If(name, thn, els) =>
      JoinedOne(None);
      EvalPrints(thn, scope);
      EvalPrints(els, scope);
  }

  /** The variables an evaluation looks at. */
  function Touched(e: Expr, scope: Scope): set<string> {
    match e
    case Lit(_) => {}
    case Ctx(_) => {}
    case Var(name) => {name}
    case Concat(left, right) => Touched(left, scope) + Touched(right, scope)
    case If(name, thn, els) =>
      {name} + if name !in scope.vars then {} else if Truthy(scope.vars[name]) then Touched(thn, scope) else Touched(els, scope)
  }

  /** Success is stable under extension of the scope. */
  lemma {:induction false} EvalStable(e: Expr, scope: Scope, scope': Scope)
    requires Extends(scope.vars, scope'.vars) && scope'.context == scope.context
    ensures Eval(e, scope).Ok? ==> Eval(e, scope') == Eval(e, scope)
  {
    match e
    case Lit(_) =>
    case Var(_) =>
    case Ctx(_) =>
    case Concat(left, right) =>
      EvalStable(left, scope, scope');
      EvalStable(right, scope, scope');
    case If(name, thn, els) =>
      EvalStable(thn, scope, scope');
      EvalStable(els, scope, scope');
  }

  const NOTHING: Scope := Scope(map[], map[])

  /** What evaluates without any variable or context is the same in every
      scope. */
  lemma {:induction false} EvalClosed(e: Expr, scope: Scope)
    ensures Eval(e, NOTHING).Ok? ==> Eval(e, scope) == Eval(e, NOTHING)
  {
    match e
    case Lit(_) =>
    case Var(_) =>
    case Ctx(_) =>
    case Concat(left, right) =>
      EvalClosed(left, scope);
      EvalClosed(right, scope);
    case If(_, _, _) =>
  }

  /** An evaluation that looks at an absent variable fails. */
  lemma {:induction false} TouchedPresent(e: Expr, scope: Scope)
    ensures Eval(e, scope).Ok? ==> Touched(e, scope) <= scope.vars.Keys
  {
    match e
    case Lit(_) =>
    case Var(_) =>
    case Ctx(_) =>
    case Concat(left, right) =>
      TouchedPresent(left, scope);
      TouchedPresent(right, scope);
    case If(name, thn, els) =>
      TouchedPresent(thn, scope);
      TouchedPresent(els, scope);
  }
}
