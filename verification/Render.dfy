/** package render: a deployment source rendered against a resolved scope. */
module Render {
  import opened Common
  import opened Expressions
  import opened Resolver
  import opened Resolving

  /** The template parser, of which only the answer is known. */
  type Parser = string -> Parsed

  ghost predicate ActionAt(s: string, i: nat) { i + 1 < |s| && s[i] == '{' && s[i + 1] == '{' }

  /** strings.Contains(s, "{{"). */
  predicate HasAction(s: string) { |s| >= 2 && ((s[0] == '{' && s[1] == '{') || HasAction(s[1..])) }

  lemma {:induction false} ActionSomewhere(s: string)
    ensures HasAction(s) <==> exists i: nat :: ActionAt(s, i)
  {
    if |s| >= 2 {
      ActionSomewhere(s[1..]);
      if i: nat :| ActionAt(s[1..], i) {
        assert ActionAt(s, i + 1);
      }
      if i: nat :| ActionAt(s, i) {
        assert i > 0 ==> ActionAt(s[1..], i - 1);
      }
      assert s[0] == '{' && s[1] == '{' ==> ActionAt(s, 0);
    }
  }

  function TmplString(s: string, scope: Scope, parse: Parser): Result<string> {
    if !HasAction(s) then Ok(s)
    else match parse(s) case Good(e) => Eval(e, scope) case Bad => Err
  }

  /** Everything rendered, or an error if any element fails. */
  function TmplStrings(ts: seq<string>, scope: Scope, parse: Parser): Result<seq<string>> {
    if ts == [] then Ok([])
    else
      var init, last := TmplStrings(ts[..|ts| - 1], scope, parse), TmplString(ts[|ts| - 1], scope, parse);
      if init == Err || last == Err then Err else Ok(init.value + [last.value])
  }

  lemma {:induction false} TmplStringsPrefixFails(ts: seq<string>, k: nat, scope: Scope, parse: Parser)
    requires k < |ts| && TmplString(ts[k], scope, parse) == Err
    ensures TmplStrings(ts, scope, parse) == Err
  {
    if k < |ts| - 1 {
      TmplStringsPrefixFails(ts[..|ts| - 1], k, scope, parse);
    }
  }

  method RenderStrings(ts: seq<string>, scope: Scope, parse: Parser) returns (r: Result<seq<string>>)
    ensures r == TmplStrings(ts, scope, parse)
    ensures r.Ok? <==> forall k :: 0 <= k < |ts| ==> TmplString(ts[k], scope, parse).Ok?
    ensures r.Ok? ==> |r.value| == |ts| && forall k :: 0 <= k < |ts| ==> Ok(r.value[k]) == TmplString(ts[k], scope, parse)
  {
    var out: seq<string> := [];
    for i := 0 to |ts|
      invariant TmplStrings(ts[..i], scope, parse) == Ok(out) && |out| == i
      invariant forall k :: 0 <= k < i ==> Ok(out[k]) == TmplString(ts[k], scope, parse)
    {
      assert ts[..i + 1][..i] == ts[..i];
      var rendered := TmplString(ts[i], scope, parse);
      if rendered == Err {
        TmplStringsPrefixFails(ts, i, scope, parse);
        return Err;
      }
      out := out + [rendered.value];
    }
    assert ts[..|ts|] == ts;
    return Ok(out);
  }

  // ----- values trees -----

  datatype Tree = Leaf(text: string) | Scalar(n: int) | Branch(fields: map<string, Tree>) | Listing(items: seq<Tree>)

  function TemplateValue(v: Tree, scope: Scope, parse: Parser): Result<Tree>
    decreases v
  {
    match v
    case Scalar(_) => Ok(v)
    case Leaf(text) => (match TmplString(text, scope, parse) case Ok(s) => Ok(Leaf(s)) case Err => Err)
    case Branch(fields) =>
      if exists k :: k in fields && TemplateValue(fields[k], scope, parse) == Err then Err
      else Ok(Branch(map k | k in fields :: TemplateValue(fields[k], scope, parse).value))
    case Listing(items) =>
      if exists i :: 0 <= i < |items| && TemplateValue(items[i], scope, parse) == Err then Err
      else Ok(Listing(seq(|items|, i requires 0 <= i < |items| => TemplateValue(items[i], scope, parse).value)))
  }

  /** No leaf contains the opening of a template action. */
  ghost predicate NoActions(v: Tree)
    decreases v
  {
    match v
    case Scalar(_) => true
    case Leaf(text) => !HasAction(text)
    case Branch(fields) => forall k :: k in fields ==> NoActions(fields[k])
    case Listing(items) => forall i :: 0 <= i < |items| ==> NoActions(items[i])
  }

  /** A values tree without template actions renders to itself, whatever the
      scope. */
  lemma {:induction false} PlainTreeUnchanged(v: Tree, scope: Scope, parse: Parser)
    requires NoActions(v)
    ensures TemplateValue(v, scope, parse) == Ok(v)
    decreases v
  {
    match v
    case Scalar(_) =>
    case Leaf(_) =>
    case Branch(fields) =>
      forall k | k in fields ensures TemplateValue(fields[k], scope, parse) == Ok(fields[k]) {
        PlainTreeUnchanged(fields[k], scope, parse);
      }
      assert TemplateValue(v, scope, parse).value.fields == fields;
    case Listing(items) =>
      forall i | 0 <= i < |items| ensures TemplateValue(items[i], scope, parse) == Ok(items[i]) {
        PlainTreeUnchanged(items[i], scope, parse);
      }
      assert TemplateValue(v, scope, parse).value.items == items;
  }

  // ----- rendering what was rendered -----

  /** Every text either opens no action or is a template that prints itself
      without looking at anything. */
  ghost predicate PrintsItself(v: Tree, parse: Parser)
    decreases v
  {
    match v
    case Scalar(_) => true
    case Leaf(text) => HasAction(text) ==> parse(text).Good? && Eval(parse(text).e, NOTHING) == Ok(text)
    case Branch(fields) => forall k :: k in fields ==> PrintsItself(fields[k], parse)
    case Listing(items) => forall i :: 0 <= i < |items| ==> PrintsItself(items[i], parse)
  }

  lemma {:induction false} PrintedStays(v: Tree, scope: Scope, parse: Parser)
    requires PrintsItself(v, parse)
    ensures TemplateValue(v, scope, parse) == Ok(v)
    decreases v
  {
    match v
    case Scalar(_) =>
    case Leaf(text) =>
      if HasAction(text) {
        EvalClosed(parse(text).e, scope);
      }
    case Branch(fields) =>
      forall k | k in fields ensures TemplateValue(fields[k], scope, parse) == Ok(fields[k]) {
        PrintedStays(fields[k], scope, parse);
      }
      assert TemplateValue(v, scope, parse).value.fields == fields;
    case Listing(items) =>
      forall i | 0 <= i < |items| ensures TemplateValue(items[i], scope, parse) == Ok(items[i]) {
        PrintedStays(items[i], scope, parse);
      }
      assert TemplateValue(v, scope, parse).value.items == items;
  }

  lemma {:induction false} StaysPrinted(v: Tree, parse: Parser)
    requires TemplateValue(v, NOTHING, parse) == Ok(v)
    ensures PrintsItself(v, parse)
    decreases v
  {
    match v
    case Scalar(_) =>
    case Leaf(_) =>
    case Branch(fields) =>
      forall k | k in fields ensures PrintsItself(fields[k], parse) {
        assert TemplateValue(v, NOTHING, parse).value.fields[k] == fields[k];
        StaysPrinted(fields[k], parse);
      }
    case Listing(items) =>
      forall i | 0 <= i < |items| ensures PrintsItself(items[i], parse) {
        assert TemplateValue(v, NOTHING, parse).value.items[i] == items[i];
        StaysPrinted(items[i], parse);
      }
  }

  ghost predicate UnchangedBy(v: Tree, parse: Parser) { forall scope :: TemplateValue(v, scope, parse) == Ok(v) }

  /** A tree, rendered before or not, is unchanged by rendering in every scope
      exactly when each of its texts opens no action or prints itself. */
  lemma RenderedAgain(v: Tree, parse: Parser)
    ensures UnchangedBy(v, parse) <==> PrintsItself(v, parse)
  {
    if PrintsItself(v, parse) {
      forall scope ensures TemplateValue(v, scope, parse) == Ok(v) {
        PrintedStays(v, scope, parse);
      }
    }
    if UnchangedBy(v, parse) {
      assert TemplateValue(v, NOTHING, parse) == Ok(v);
      StaysPrinted(v, parse);
    }
  }

  const OUTER: string := "{{ .var.x }}"
  const INNER: string := "{{ .var.y }}"

  lemma LeadingAction(s: string)
    requires ActionAt(s, 0)
    ensures HasAction(s)
  {}

  lemma BothActions()
    ensures HasAction(OUTER) && HasAction(INNER)
  {
    LeadingAction(OUTER);
    LeadingAction(INNER);
  }

  /** It need not: a variable whose value is itself a template. The first
      rendering leaves an action behind, the second evaluates it. */
  lemma SecondRenderDiffers(scope: Scope, parse: Parser)
    requires parse(OUTER) == Good(Var("x")) && parse(INNER) == Good(Var("y"))
    requires "x" in scope.vars && scope.vars["x"] == Str(INNER)
    ensures TemplateValue(Leaf(OUTER), scope, parse) == Ok(Leaf(INNER)) && !NoActions(Leaf(INNER))
    ensures TemplateValue(Leaf(INNER), scope, parse) == if "y" in scope.vars then Ok(Leaf(Show(scope.vars["y"]))) else Err
  {
    BothActions();
  }

  predicate NoBrace(s: string) { '{' !in s }

  lemma NoBraceNoAction(s: string)
    requires NoBrace(s)
    ensures !HasAction(s)
  {
    ActionSomewhere(s);
  }

  ghost predicate BraceFree(e: Expr) {
    match e
    case Lit(s) => NoBrace(s)
    case Concat(left, right) => BraceFree(left) && BraceFree(right)
    case If(_, thn, els) => BraceFree(thn) && BraceFree(els)
    case _ => true
  }

  /** Nothing the evaluation may print holds a brace. */
  ghost predicate Braceless(e: Expr, scope: Scope) {
    && BraceFree(e)
    && (forall n :: n in Touched(e, scope) && n in scope.vars ==> NoBrace(Show(scope.vars[n])))
    && forall f :: f in scope.context ==> NoBrace(scope.context[f])
  }

  lemma {:induction false} EvalBraceless(e: Expr, scope: Scope)
    requires Braceless(e, scope) && Eval(e, scope).Ok?
    ensures NoBrace(Eval(e, scope).value)
  {
    match e
    case Lit(_) =>
    case Var(_) =>
    case Ctx(_) =>
    case Concat(left, right) =>
      EvalBraceless(left, scope);
      EvalBraceless(right, scope);
    case If(name, thn, els) =>
      if Truthy(scope.vars[name]) {
        EvalBraceless(thn, scope);
      } else {
        EvalBraceless(els, scope);
      }
  }

  ghost predicate BracelessTree(v: Tree, scope: Scope, parse: Parser)
    decreases v
  {
    match v
    case Scalar(_) => true
    case Leaf(text) => HasAction(text) && parse(text).Good? ==> Braceless(parse(text).e, scope)
    case Branch(fields) => forall k :: k in fields ==> BracelessTree(fields[k], scope, parse)
    case Listing(items) => forall i :: 0 <= i < |items| ==> BracelessTree(items[i], scope, parse)
  }

  /** When no brace can come out of the expressions, none of the actions
      survives the first rendering, so a second one changes nothing. */
  lemma {:induction false} BracelessRendersPlain(v: Tree, scope: Scope, parse: Parser)
    requires BracelessTree(v, scope, parse) && TemplateValue(v, scope, parse).Ok?
    ensures NoActions(TemplateValue(v, scope, parse).value)
    decreases v
  {
    match v
    case Scalar(_) =>
    case Leaf(text) =>
      if HasAction(text) {
        EvalBraceless(parse(text).e, scope);
        NoBraceNoAction(TmplString(text, scope, parse).value);
      }
    case Branch(fields) =>
      forall k | k in fields ensures NoActions(TemplateValue(v, scope, parse).value.fields[k]) {
        BracelessRendersPlain(fields[k], scope, parse);
      }
    case Listing(items) =>
      forall i | 0 <= i < |items| ensures NoActions(TemplateValue(v, scope, parse).value.items[i]) {
        BracelessRendersPlain(items[i], scope, parse);
      }
  }

  // ----- secrets -----

  /** The variables looked at while rendering a tree. */
  ghost predicate TreeTouches(v: Tree, scope: Scope, parse: Parser, name: string)
    decreases v
  {
    match v
    case Scalar(_) => false
    case Leaf(text) => HasAction(text) && parse(text).Good? && name in Touched(parse(text).e, scope)
    case Branch(fields) => exists k :: k in fields && TreeTouches(fields[k], scope, parse, name)
    case Listing(items) => exists i :: 0 <= i < |items| && TreeTouches(items[i], scope, parse, name)
  }

  lemma {:induction false} AbsentFails(v: Tree, scope: Scope, parse: Parser, name: string)
    requires TreeTouches(v, scope, parse, name) && name !in scope.vars
    ensures TemplateValue(v, scope, parse) == Err
    decreases v
  {
    match v
    case Scalar(_) =>
    case Leaf(text) => TouchedPresent(parse(text).e, scope);
    case Branch(fields) =>
      var k :| k in fields && TreeTouches(fields[k], scope, parse, name);
      AbsentFails(fields[k], scope, parse, name);
    case Listing(items) =>
      var i :| 0 <= i < |items| && TreeTouches(items[i], scope, parse, name);
      AbsentFails(items[i], scope, parse, name);
  }

  /** Any reference to a secret that rendering evaluates makes it fail. */
  lemma SecretFails(defs: seq<Definition>, values: map<string, Raw>, context: map<Field, string>, re: Regexp, r: Res<Resolution>,
                    v: Tree, parse: Parser, name: string)
    requires Resolves(defs, values, context, re, r) && r.Done?
    requires name in SecretNames(defs) && TreeTouches(v, r.value.scope, parse, name)
    ensures TemplateValue(v, r.value.scope, parse) == Err
  {
    ScopeHasNoSecrets(defs, values, context, re, r);
    AbsentFails(v, r.value.scope, parse, name);
  }

  // ----- sources -----

  datatype Service = Service(name: string, image: string, env: map<string, string>, command: seq<string>, args: seq<string>)

  datatype Source =
    | Services(services: seq<Service>)
    | Manifests(inline: string)
    | Helm(chart: string, values: map<string, Tree>)
    | ArgoCD(fields: seq<string>)
    | Unsupported

  datatype Rendered =
    | RServices(services: seq<Service>)
    | RManifests(docs: seq<string>)
    | RHelm(chart: string, values: map<string, Tree>)
    | RArgoCD(fields: seq<string>)

  function RenderService(s: Service, scope: Scope, parse: Parser): Result<Service> {
    var image, command, args := TmplString(s.image, scope, parse), TmplStrings(s.command, scope, parse), TmplStrings(s.args, scope, parse);
    if image == Err || command == Err || args == Err || exists k :: k in s.env && TmplString(s.env[k], scope, parse) == Err then Err
    else Ok(Service(s.name, image.value, map k | k in s.env :: TmplString(s.env[k], scope, parse).value, command.value, args.value))
  }

  function RenderServices(services: seq<Service>, scope: Scope, parse: Parser): Result<seq<Service>> {
    if services == [] then Ok([])
    else
      var init, last := RenderServices(services[..|services| - 1], scope, parse), RenderService(services[|services| - 1], scope, parse);
      if init == Err || last == Err then Err else Ok(init.value + [last.value])
  }

  /** The libraries a source goes through: the template parser and the YAML
      document splitter. */
  datatype Libraries = Libraries(parse: Parser, split: string -> Result<seq<string>>)

  function Render(src: Source, scope: Scope, libs: Libraries): Result<Rendered> {
    match src
    case Services(services) => (match RenderServices(services, scope, libs.parse) case Ok(s) => Ok(RServices(s)) case Err => Err)
    case Manifests(inline) =>
      var text := TmplString(inline, scope, libs.parse);
      if text == Err then Err
      else (match (libs.split)(text.value) case Ok(docs) => Ok(RManifests(docs)) case Err => Err)
    case Helm(chart, values) =>
      (match TemplateValue(Branch(values), scope, libs.parse) case Ok(v) => Ok(RHelm(chart, v.fields)) case Err => Err)
    case ArgoCD(fields) => (match TmplStrings(fields, scope, libs.parse) case Ok(f) => Ok(RArgoCD(f)) case Err => Err)
    case Unsupported => Err
  }

  // ----- what a source renders to -----

  lemma {:induction false} EachString(ts: seq<string>, scope: Scope, parse: Parser)
    ensures TmplStrings(ts, scope, parse).Ok? <==> AllRender(ts, scope, parse)
    ensures TmplStrings(ts, scope, parse).Ok? ==> RenderedTo(ts, TmplStrings(ts, scope, parse).value, scope, parse)
  {
    if ts != [] {
      var n := |ts| - 1;
      EachString(ts[..n], scope, parse);
      assert forall k :: 0 <= k < n ==> ts[..n][k] == ts[k];
    }
  }

  ghost predicate AllRender(ts: seq<string>, scope: Scope, parse: Parser) { forall k :: 0 <= k < |ts| ==> TmplString(ts[k], scope, parse).Ok? }

  /** Each text of out is the text of ts in its place, rendered. */
  ghost predicate RenderedTo(ts: seq<string>, out: seq<string>, scope: Scope, parse: Parser) {
    |out| == |ts| && forall k :: 0 <= k < |ts| ==> TmplString(ts[k], scope, parse) == Ok(out[k])
  }

  ghost predicate ServiceRenders(s: Service, scope: Scope, parse: Parser) {
    && TmplString(s.image, scope, parse).Ok?
    && (forall k :: k in s.env ==> TmplString(s.env[k], scope, parse).Ok?)
    && AllRender(s.command, scope, parse) && AllRender(s.args, scope, parse)
  }

  /** t is s with every text rendered in its own place. */
  ghost predicate ServiceIs(s: Service, t: Service, scope: Scope, parse: Parser) {
    && t.name == s.name && TmplString(s.image, scope, parse) == Ok(t.image)
    && t.env.Keys == s.env.Keys && (forall k :: k in s.env ==> TmplString(s.env[k], scope, parse) == Ok(t.env[k]))
    && RenderedTo(s.command, t.command, scope, parse) && RenderedTo(s.args, t.args, scope, parse)
  }

  lemma OneService(s: Service, scope: Scope, parse: Parser)
    ensures RenderService(s, scope, parse).Ok? <==> ServiceRenders(s, scope, parse)
    ensures RenderService(s, scope, parse).Ok? ==> ServiceIs(s, RenderService(s, scope, parse).value, scope, parse)
  {
    EachString(s.command, scope, parse);
    EachString(s.args, scope, parse);
  }

  lemma {:induction false} EachService(services: seq<Service>, scope: Scope, parse: Parser)
    ensures RenderServices(services, scope, parse).Ok? <==> forall i :: 0 <= i < |services| ==> ServiceRenders(services[i], scope, parse)
    ensures RenderServices(services, scope, parse).Ok? ==>
      && |RenderServices(services, scope, parse).value| == |services|
      && forall i :: 0 <= i < |services| ==> ServiceIs(services[i], RenderServices(services, scope, parse).value[i], scope, parse)
  {
    if services != [] {
      var n := |services| - 1;
      EachService(services[..n], scope, parse);
      OneService(services[n], scope, parse);
      assert forall i :: 0 <= i < n ==> services[..n][i] == services[i];
    }
  }

  /** A source renders exactly when each of its texts does. */
  ghost predicate SourceRenders(src: Source, scope: Scope, libs: Libraries) {
    match src
    case Services(services) => forall i :: 0 <= i < |services| ==> ServiceRenders(services[i], scope, libs.parse)
    case Manifests(inline) => TmplString(inline, scope, libs.parse).Ok? && (libs.split)(TmplString(inline, scope, libs.parse).value).Ok?
    case Helm(_, values) => TemplateValue(Branch(values), scope, libs.parse).Ok?
    case ArgoCD(fields) => AllRender(fields, scope, libs.parse)
    case Unsupported => false
  }

  /** out is src with every text rendered in its own place. */
  ghost predicate SourceIs(src: Source, out: Rendered, scope: Scope, libs: Libraries) {
    match (src, out)
    case (Services(s), RServices(t)) => |t| == |s| && forall i :: 0 <= i < |s| ==> ServiceIs(s[i], t[i], scope, libs.parse)
    case (Manifests(inline), RManifests(docs)) =>
      TmplString(inline, scope, libs.parse).Ok? && (libs.split)(TmplString(inline, scope, libs.parse).value) == Ok(docs)
    case (Helm(chart, values), RHelm(chart', values')) =>
      chart' == chart && TemplateValue(Branch(values), scope, libs.parse) == Ok(Branch(values'))
    case (ArgoCD(fields), RArgoCD(fields')) => RenderedTo(fields, fields', scope, libs.parse)
    case _ => false
  }

  /** Rendering succeeds exactly when every text of the source renders, and then
      puts each rendered text where the source had it. */
  lemma RenderIs(src: Source, scope: Scope, libs: Libraries)
    ensures Render(src, scope, libs).Ok? <==> SourceRenders(src, scope, libs)
    ensures Render(src, scope, libs).Ok? ==> SourceIs(src, Render(src, scope, libs).value, scope, libs)
  {
    match src
    case Services(services) => EachService(services, scope, libs.parse);
    case Manifests(_) =>
    case Helm(_, _) =>
    case ArgoCD(fields) => EachString(fields, scope, libs.parse);
    case Unsupported =>
  }

  /** A values tree keeps its shape: a branch its keys, a list its length, each
      child rendered in its place. */
  lemma TreeIs(v: Tree, scope: Scope, parse: Parser)
    requires TemplateValue(v, scope, parse).Ok?
    ensures var w := TemplateValue(v, scope, parse).value;
      match v
      case Scalar(_) => w == v
      case Leaf(text) => w.Leaf? && TmplString(text, scope, parse) == Ok(w.text)
      case Branch(fields) =>
        && w.Branch? && w.fields.Keys == fields.Keys
        && forall k :: k in fields ==> TemplateValue(fields[k], scope, parse) == Ok(w.fields[k])
      case Listing(items) =>
        && w.Listing? && |w.items| == |items|
        && forall i :: 0 <= i < |items| ==> TemplateValue(items[i], scope, parse) == Ok(w.items[i])
  {}

  ghost predicate PlainTexts(ts: seq<string>) { forall k :: 0 <= k < |ts| ==> !HasAction(ts[k]) }

  ghost predicate PlainSource(src: Source) {
    match src
    case Services(services) => forall i :: 0 <= i < |services| ==>
      && !HasAction(services[i].image) && PlainTexts(services[i].command) && PlainTexts(services[i].args)
      && forall k :: k in services[i].env ==> !HasAction(services[i].env[k])
    case Manifests(inline) => !HasAction(inline)
    case Helm(_, values) => NoActions(Branch(values))
    case ArgoCD(fields) => PlainTexts(fields)
    case Unsupported => false
  }

  lemma PlainServiceIs(s: Service, t: Service, scope: Scope, parse: Parser)
    requires ServiceIs(s, t, scope, parse) && !HasAction(s.image) && PlainTexts(s.command) && PlainTexts(s.args)
    requires forall k :: k in s.env ==> !HasAction(s.env[k])
    ensures t == s
  {
    assert t.env == s.env && t.command == s.command && t.args == s.args;
  }

  /** A source none of whose texts opens a template action renders to itself;
      inline manifests are only split. */
  lemma PlainSourceUnchanged(src: Source, scope: Scope, libs: Libraries)
    requires PlainSource(src)
    ensures match src
      case Services(services) => Render(src, scope, libs) == Ok(RServices(services))
      case Manifests(inline) => (match (libs.split)(inline) case Ok(docs) => Render(src, scope, libs) == Ok(RManifests(docs)) case Err => Render(src, scope, libs) == Err)
      case Helm(chart, values) => Render(src, scope, libs) == Ok(RHelm(chart, values))
      case ArgoCD(fields) => Render(src, scope, libs) == Ok(RArgoCD(fields))
      case Unsupported => true
  {
    RenderIs(src, scope, libs);
    match src
    case Services(services) =>
      var out := Render(src, scope, libs).value.services;
      forall i | 0 <= i < |services| ensures out[i] == services[i] {
        PlainServiceIs(services[i], out[i], scope, libs.parse);
      }
      assert out == services;
    case Manifests(_) =>
    case Helm(_, values) => PlainTreeUnchanged(Branch(values), scope, libs.parse);
    case ArgoCD(fields) => assert Render(src, scope, libs).value.fields == fields;
    case Unsupported =>
  }

  ghost predicate TextTouches(s: string, scope: Scope, parse: Parser, name: string) {
    HasAction(s) && parse(s).Good? && name in Touched(parse(s).e, scope)
  }

  ghost predicate SomeTouches(ts: seq<string>, scope: Scope, parse: Parser, name: string) {
    exists k :: 0 <= k < |ts| && TextTouches(ts[k], scope, parse, name)
  }

  /** Rendering the source looks at the variable, in whatever part of it. */
  ghost predicate SourceTouches(src: Source, scope: Scope, parse: Parser, name: string) {
    match src
    case Services(services) => exists i :: 0 <= i < |services| && ServiceTouches(services[i], scope, parse, name)
    case Manifests(inline) => TextTouches(inline, scope, parse, name)
    case Helm(_, values) => TreeTouches(Branch(values), scope, parse, name)
    case ArgoCD(fields) => SomeTouches(fields, scope, parse, name)
    case Unsupported => false
  }

  ghost predicate ServiceTouches(s: Service, scope: Scope, parse: Parser, name: string) {
    || TextTouches(s.image, scope, parse, name)
    || (exists k :: k in s.env && TextTouches(s.env[k], scope, parse, name))
    || SomeTouches(s.command, scope, parse, name) || SomeTouches(s.args, scope, parse, name)
  }

  lemma AbsentTextFails(s: string, scope: Scope, parse: Parser, name: string)
    requires TextTouches(s, scope, parse, name) && name !in scope.vars
    ensures TmplString(s, scope, parse) == Err
  {
    TouchedPresent(parse(s).e, scope);
  }

  lemma SomeAbsentFails(ts: seq<string>, scope: Scope, parse: Parser, name: string)
    requires name !in scope.vars
    ensures SomeTouches(ts, scope, parse, name) ==> !AllRender(ts, scope, parse)
  {
    if k :| 0 <= k < |ts| && TextTouches(ts[k], scope, parse, name) {
      AbsentTextFails(ts[k], scope, parse, name);
    }
  }

  lemma AbsentServiceFails(s: Service, scope: Scope, parse: Parser, name: string)
    requires ServiceTouches(s, scope, parse, name) && name !in scope.vars
    ensures !ServiceRenders(s, scope, parse)
  {
    SomeAbsentFails(s.command, scope, parse, name);
    SomeAbsentFails(s.args, scope, parse, name);
    if TextTouches(s.image, scope, parse, name) {
      AbsentTextFails(s.image, scope, parse, name);
    }
    if k :| k in s.env && TextTouches(s.env[k], scope, parse, name) {
      AbsentTextFails(s.env[k], scope, parse, name);
    }
  }

  /** Any evaluated reference to a secret, in an image, environment value,
      command, argument, manifest, chart value or field, fails the rendering. */
  lemma SourceSecretFails(defs: seq<Definition>, values: map<string, Raw>, context: map<Field, string>, re: Regexp, r: Res<Resolution>,
                          src: Source, libs: Libraries, name: string)
    requires Resolves(defs, values, context, re, r) && r.Done?
    requires name in SecretNames(defs) && SourceTouches(src, r.value.scope, libs.parse, name)
    ensures Render(src, r.value.scope, libs) == Err
  {
    ScopeHasNoSecrets(defs, values, context, re, r);
    var scope := r.value.scope;
    RenderIs(src, scope, libs);
    match src
    case Services(services) =>
      var i :| 0 <= i < |services| && ServiceTouches(services[i], scope, libs.parse, name);
      AbsentServiceFails(services[i], scope, libs.parse, name);
    case Manifests(inline) => AbsentTextFails(inline, scope, libs.parse, name);
    case Helm(_, values) => AbsentFails(Branch(values), scope, libs.parse, name);
    case ArgoCD(fields) => SomeAbsentFails(fields, scope, libs.parse, name);
  }

  // ----- end to end -----

  /** Resolving and then rendering: nothing when resolving fails. */
  function Deployed(r: Res<Resolution>, src: Source, libs: Libraries): Result<Rendered> {
    match r case Done(v) => Render(src, v.scope, libs) case Fail(_) => Err
  }

  /** End to end, the values of secrets reach no rendered source: two value
      maps that agree on plain variables give the same result, failures
      included. */
  lemma SecretsDoNotInterfere(defs: seq<Definition>, v1: map<string, Raw>, v2: map<string, Raw>, context: map<Field, string>, re: Regexp,
                              r1: Res<Resolution>, r2: Res<Resolution>, src: Source, libs: Libraries)
    requires forall d :: d in defs && IsPlain(d) ==> ValueOf(v1, d.name) == ValueOf(v2, d.name)
    requires Resolves(defs, v1, context, re, r1) && Resolves(defs, v2, context, re, r2)
    ensures r1 == r2 && Deployed(r1, src, libs) == Deployed(r2, src, libs)
  {
    ResolveIgnoresSecrets(defs, v1, v2, context, re, r1, r2);
  }
}
