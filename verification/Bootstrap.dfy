/** bootstrap/service_impl.go: one reconcile tick of a datacenter's shared
    services, over a store and a provider that may fail at any call. */
module Bootstrap {
  import opened Common

  type RowId = nat

  datatype RowState = Pending | Provisioning | Running | Failed | Retiring | Retired

  /** kind may be empty; `services` is the JSON encoding specChanged compares. */
  datatype Spec = Spec(name: string, kind: string, services: string)

  datatype Row = Row(name: string, kind: string, services: string, state: RowState, attempts: nat)

  const KIND_DEPLOYMENT: string := "deployment"

  function KindOf(s: Spec): string { if s.kind == "" then KIND_DEPLOYMENT else s.kind }

  function NewRow(s: Spec): Row { Row(s.name, KindOf(s), s.services, Pending, 0) }

  predicate SpecChanged(row: Row, s: Spec) { row.kind != KindOf(s) || row.services != s.services }

  // ----- the desired set -----

  function SpecNames(specs: seq<Spec>): set<string> { set s | s in specs :: s.name }

  /** Named specs, the first of each name. */
  function Firsts(specs: seq<Spec>): seq<Spec> {
    if specs == [] then []
    else
      var init, last := Firsts(specs[..|specs| - 1]), specs[|specs| - 1];
      if last.name == "" || last.name in SpecNames(init) then init else init + [last]
  }

  ghost predicate IsFirst(specs: seq<Spec>, i: nat) {
    i < |specs| && specs[i].name != "" && forall j :: 0 <= j < i ==> specs[j].name != specs[i].name
  }

  lemma SpecNamesInit(specs: seq<Spec>)
    requires specs != []
    ensures SpecNames(specs) == SpecNames(specs[..|specs| - 1]) + {specs[|specs| - 1].name}
  {
    assert specs == specs[..|specs| - 1] + [specs[|specs| - 1]];
  }

  lemma {:induction false} FirstsNames(specs: seq<Spec>)
    ensures SpecNames(Firsts(specs)) == SpecNames(specs) - {""}
  {
    if specs != [] {
      var n := |specs| - 1;
      FirstsNames(specs[..n]);
      SpecNamesInit(specs);
      var init := Firsts(specs[..n]);
      if !(specs[n].name == "" || specs[n].name in SpecNames(init)) {
        SpecNamesInit(init + [specs[n]]);
        assert (init + [specs[n]])[..|init|] == init;
      }
    }
  }

  /** s is the first spec of its name. */
  ghost predicate FirstOfName(specs: seq<Spec>, s: Spec) {
    exists i: nat :: IsFirst(specs, i) && specs[i] == s
  }

  lemma FirstInit(specs: seq<Spec>, s: Spec)
    requires specs != []
    ensures FirstOfName(specs, s) <==>
      FirstOfName(specs[..|specs| - 1], s) || (s == specs[|specs| - 1] && s.name != "" && s.name !in SpecNames(specs[..|specs| - 1]))
  {
    var n, init := |specs| - 1, specs[..|specs| - 1];
    assert forall i: nat :: i < n ==> (IsFirst(init, i) <==> IsFirst(specs, i));
    assert forall j :: 0 <= j < n ==> init[j].name in SpecNames(init);
    if FirstOfName(init, s) {
      var i: nat :| IsFirst(init, i) && init[i] == s;
      assert IsFirst(specs, i) && specs[i] == s;
    }
    if s == specs[n] && s.name != "" && s.name !in SpecNames(init) {
      assert IsFirst(specs, n);
    }
    if FirstOfName(specs, s) {
      var i: nat :| IsFirst(specs, i) && specs[i] == s;
      if i < n {
        assert IsFirst(init, i) && init[i] == s;
      }
    }
  }

  /** Exactly the first occurrence of each non-empty name survives. */
  lemma {:induction false} FirstsAreFirst(specs: seq<Spec>, s: Spec)
    ensures s in Firsts(specs) <==> FirstOfName(specs, s)
  {
    if specs != [] {
      var init := specs[..|specs| - 1];
      FirstsAreFirst(init, s);
      FirstsNames(init);
      FirstInit(specs, s);
    }
  }

  ghost predicate DistinctSpecs(specs: seq<Spec>) {
    forall i, j :: 0 <= i < j < |specs| ==> specs[i].name != specs[j].name
  }

  lemma {:induction false} FirstsDistinct(specs: seq<Spec>)
    ensures DistinctSpecs(Firsts(specs))
  {
    if specs != [] {
      FirstsDistinct(specs[..|specs| - 1]);
    }
  }

  /** A hook that fails contributes nothing. */
  function Offered(hook: Result<seq<Spec>>): seq<Spec> { match hook case Ok(specs) => specs case Err => [] }

  /** Hook contributions in snapshot order. */
  function Contributed(hooks: seq<Result<seq<Spec>>>): seq<Spec> {
    if hooks == [] then [] else Contributed(hooks[..|hooks| - 1]) + Offered(hooks[|hooks| - 1])
  }

  lemma ContributedNext(declared: seq<Spec>, hooks: seq<Result<seq<Spec>>>, k: nat)
    requires k < |hooks|
    ensures declared + Contributed(hooks[..k + 1]) == declared + Contributed(hooks[..k]) + Offered(hooks[k])
  {
    assert hooks[..k + 1][..k] == hooks[..k];
  }

  function Desired(declared: seq<Spec>, hooks: seq<Result<seq<Spec>>>): seq<Spec> {
    Firsts(declared + Contributed(hooks))
  }

  /** Declared entries win over hooks of the same name, whatever the hooks
      contribute. */
  lemma DeclaredWins(declared: seq<Spec>, hooks: seq<Result<seq<Spec>>>, i: nat)
    requires IsFirst(declared, i)
    ensures declared[i] in Desired(declared, hooks)
    ensures forall s :: s in Desired(declared, hooks) && s.name == declared[i].name ==> s == declared[i]
  {
    var all := declared + Contributed(hooks);
    assert IsFirst(all, i);
    FirstsAreFirst(all, declared[i]);
    forall s | s in Desired(declared, hooks) && s.name == declared[i].name ensures s == declared[i] {
      FirstsAreFirst(all, s);
      var j: nat :| IsFirst(all, j) && all[j] == s;
      assert i == j;
    }
  }

  /** Appends the new names of one contribution list. */
  method Collect(specs: seq<Spec>, ghost before: seq<Spec>, seen0: set<string>, out0: seq<Spec>) returns (seen: set<string>, out: seq<Spec>)
    requires out0 == Firsts(before) && seen0 == SpecNames(out0)
    ensures out == Firsts(before + specs) && seen == SpecNames(out)
  {
    seen, out := seen0, out0;
    assert before + specs[..0] == before;
    for k := 0 to |specs|
      invariant out == Firsts(before + specs[..k]) && seen == SpecNames(out)
    {
      var spec := specs[k];
      assert (before + specs[..k + 1])[..|before| + k] == before + specs[..k];
      if spec.name == "" {
        continue;
      }
      if spec.name in seen {
        continue;
      }
      SpecNamesInit(out + [spec]);
      assert (out + [spec])[..|out|] == out;
      seen := seen + {spec.name};
      out := out + [spec];
    }
    assert specs[..|specs|] == specs;
  }

  /** One hook: an error skips it. */
  method CollectHook(hook: Result<seq<Spec>>, ghost before: seq<Spec>, seen0: set<string>, out0: seq<Spec>) returns (seen: set<string>, out: seq<Spec>)
    requires out0 == Firsts(before) && seen0 == SpecNames(out0)
    ensures out == Firsts(before + Offered(hook)) && seen == SpecNames(out)
  {
    if hook == Err {
      assert before + [] == before;
      return seen0, out0;
    }
    seen, out := Collect(hook.value, before, seen0, out0);
  }

  method BuildDesired(declared: seq<Spec>, hooks: seq<Result<seq<Spec>>>) returns (out: seq<Spec>)
    ensures out == Desired(declared, hooks)
  {
    var seen;
    seen, out := Collect(declared, [], {}, []);
    assert [] + declared == declared;
    assert declared + Contributed(hooks[..0]) == declared;
    for k := 0 to |hooks|
      invariant out == Firsts(declared + Contributed(hooks[..k])) && seen == SpecNames(out)
    {
      ContributedNext(declared, hooks, k);
      seen, out := CollectHook(hooks[k], declared + Contributed(hooks[..k]), seen, out);
    }
    assert hooks[..|hooks|] == hooks;
  }

  // ----- store and provider -----

  ghost predicate NameFree(rows: map<RowId, Row>, name: string) {
    forall id :: id in rows ==> rows[id].name != name
  }

  /** Rows by id, with the unique index on names. A call that reports an
      error may or may not have taken effect; a reliable store fails only
      where its contract says so. */
  class Store {
    var rows: map<RowId, Row>
    var minted: RowId
    var writes: nat
    const reliable: bool

    constructor (reliable: bool)
      ensures rows == map[] && minted == 0 && writes == 0 && this.reliable == reliable
    {
      rows, minted, writes := map[], 0, 0;
      this.reliable := reliable;
    }

    method Mint() returns (id: RowId)
      modifies this`minted
      ensures id == old(minted) && minted == id + 1
    {
      id := minted;
      minted := id + 1;
    }

    method Insert(id: RowId, row: Row) returns (ok: bool)
      modifies this`rows, this`writes
      ensures writes == old(writes) + 1
      ensures ok ==> rows == old(rows)[id := row]
      ensures rows == old(rows) || (rows == old(rows)[id := row] && id !in old(rows) && NameFree(old(rows), row.name))
      ensures reliable ==> (ok <==> id !in old(rows) && NameFree(old(rows), row.name)) && (!ok ==> rows == old(rows))
      ensures ok ==> id !in old(rows) && NameFree(old(rows), row.name)
    {
      writes := writes + 1;
      var free := forall other :: other in rows ==> rows[other].name != row.name;
      var answers: bool := *;
      if id in rows || !free {
        return false;
      }
      if reliable || answers {
        rows := rows[id := row];
        return true;
      }
      var applied: bool := *;
      if applied {
        rows := rows[id := row];
      }
      return false;
    }

    method Update(id: RowId, row: Row) returns (ok: bool)
      modifies this`rows, this`writes
      ensures writes == old(writes) + 1
      ensures ok ==> id in old(rows) && rows == old(rows)[id := row]
      ensures rows == old(rows) || (id in old(rows) && rows == old(rows)[id := row])
      ensures reliable && id in old(rows) ==> ok
    {
      writes := writes + 1;
      var answers: bool := *;
      if id !in rows {
        return false;
      }
      if reliable || answers {
        rows := rows[id := row];
        return true;
      }
      var applied: bool := *;
      if applied {
        rows := rows[id := row];
      }
      return false;
    }

    method Delete(id: RowId) returns (ok: bool)
      modifies this`rows, this`writes
      ensures writes == old(writes) + 1
      ensures rows == old(rows) || rows == old(rows) - {id}
      ensures ok ==> rows == old(rows) - {id}
      ensures reliable ==> ok
    {
      writes := writes + 1;
      var answers: bool := *;
      if reliable || answers {
        rows := rows - {id};
        return true;
      }
      var applied: bool := *;
      if applied {
        rows := rows - {id};
      }
      return false;
    }
  }

  /** `live` is what runs at the provider. Which names it provisions and
      which rows it lets go are arbitrary and may change between ticks; a
      failed call may leave resources behind. */
  class Provider {
    var live: set<RowId>
    var calls: nat
    var accepts: string -> bool
    var releases: RowId -> bool

    method Provision(id: RowId, name: string) returns (ok: bool)
      modifies this`live, this`calls
      ensures calls == old(calls) + 1
      ensures ok == accepts(name)
      ensures live == old(live) + {id} || (!ok && live == old(live))
    {
      calls := calls + 1;
      ok := accepts(name);
      var leaves: bool := *;
      if ok || leaves {
        live := live + {id};
      }
    }

    method Deprovision(id: RowId) returns (ok: bool)
      modifies this`live, this`calls
      ensures calls == old(calls) + 1
      ensures ok == releases(id)
      ensures live == old(live) - {id} || (!ok && live == old(live))
    {
      calls := calls + 1;
      ok := releases(id);
      var stopped: bool := *;
      if ok || stopped {
        live := live - {id};
      }
    }
  }

  // ----- what one tick does to one name -----

  function Provisioned(row: Row, ok: bool): Row {
    if ok then row.(state := Running) else row.(state := Failed, attempts := row.attempts + 1)
  }

  predicate Drifted(row: Row, want: Option<Spec>) { want.None? || SpecChanged(row, want.value) }

  /** The row of one name after a tick on a reliable store, from the row it
      had, the spec wanted for it and the provider's two answers. */
  function Tick(cur: Option<Row>, want: Option<Spec>, accepted: bool, released: bool): Option<Row> {
    if cur.None? then
      (if want.None? then None else Some(Provisioned(NewRow(want.value), accepted)))
    else
      var row := cur.value;
      if Drifted(row, want) then
        if !released then Some(row.(state := Retiring, attempts := row.attempts + 1))
        else if want.None? then None
        else Some(Provisioned(NewRow(want.value), accepted))
      else if row.state == Pending || row.state == Failed then Some(Provisioned(row, accepted))
      else cur
  }

  ghost predicate UniqueRows(rows: map<RowId, Row>) {
    forall i, j :: i in rows && j in rows && i != j ==> rows[i].name != rows[j].name
  }

  /** Row id of a name, and the row. */
  ghost predicate At(rows: map<RowId, Row>, name: string, id: RowId) { id in rows && rows[id].name == name }

  ghost function RowOf(rows: map<RowId, Row>, name: string): Option<Row> {
    if exists id :: At(rows, name, id) then (var id :| At(rows, name, id); Some(rows[id])) else None
  }

  lemma RowOfAt(rows: map<RowId, Row>, name: string, id: RowId)
    requires UniqueRows(rows) && At(rows, name, id)
    ensures RowOf(rows, name) == Some(rows[id])
  {}

  /** desiredByName. */
  function WantMap(specs: seq<Spec>): (m: map<string, Spec>)
    ensures forall n :: n in m ==> m[n].name == n && m[n] in specs
    ensures forall s :: s in specs ==> s.name in m
  {
    if specs == [] then map[]
    else
      var init, last := specs[..|specs| - 1], specs[|specs| - 1];
      assert specs == init + [last];
      WantMap(init)[last.name := last]
  }

  function Want(m: map<string, Spec>, name: string): Option<Spec> { if name in m then Some(m[name]) else None }

  ghost predicate Minted(rows: map<RowId, Row>, minted: RowId) { forall id :: id in rows ==> id < minted }

  /** The other names' rows are what they were. */
  ghost predicate OtherNames(rows: map<RowId, Row>, rows': map<RowId, Row>, name: string) {
    && (forall id :: id in rows && rows[id].name != name ==> id in rows' && rows'[id] == rows[id])
    && (forall id :: id in rows' && rows'[id].name != name ==> id in rows && rows'[id] == rows[id])
  }

  lemma OtherRow(rows: map<RowId, Row>, rows': map<RowId, Row>, name: string, other: string)
    requires UniqueRows(rows) && UniqueRows(rows') && OtherNames(rows, rows', name) && other != name
    ensures RowOf(rows', other) == RowOf(rows, other)
  {
    if id :| At(rows, other, id) {
      assert At(rows', other, id);
      RowOfAt(rows, other, id);
      RowOfAt(rows', other, id);
    } else if id :| At(rows', other, id) {
      assert At(rows, other, id);
    }
  }

  // ----- driving one row -----

  function View(rows: map<RowId, Row>, id: RowId): Option<Row> { if id in rows then Some(rows[id]) else None }

  /** Only row id changed; it may be gone, it is not renamed, none appeared. */
  ghost predicate OnlyRow(rows: map<RowId, Row>, rows': map<RowId, Row>, id: RowId) {
    && rows'.Keys <= rows.Keys
    && (forall i: RowId :: i != id ==> View(rows', i) == View(rows, i))
    && (id in rows' ==> rows'[id].name == rows[id].name)
  }

  lemma OnlyRowFacts(rows: map<RowId, Row>, rows': map<RowId, Row>, id: RowId)
    requires UniqueRows(rows) && id in rows && OnlyRow(rows, rows', id)
    ensures UniqueRows(rows') && OtherNames(rows, rows', rows[id].name)
  {
    forall i | i in rows' && i != id ensures i in rows && rows'[i] == rows[i] {
      assert View(rows', i) == View(rows, i);
    }
    forall i | i in rows && i != id ensures i in rows' && rows'[i] == rows[i] {
      assert View(rows', i) == View(rows, i);
    }
  }

  /** provision: Provisioning, then Running or Failed. */
  method ProvisionRow(st: Store, prov: Provider, id: RowId, row0: Row)
    requires id in st.rows && st.rows[id].name == row0.name
    modifies st`rows, st`writes, prov`live, prov`calls
    ensures OnlyRow(old(st.rows), st.rows, id) && id in st.rows
    ensures prov.live <= old(prov.live) + {id}
    ensures st.reliable ==> st.rows == old(st.rows)[id := Provisioned(row0, prov.accepts(row0.name))]
  {
    var row := row0.(state := Provisioning);
    var stored := st.Update(id, row);
    if !stored {
      return;
    }
    var ok := prov.Provision(id, row.name);
    if !ok {
      row := row.(state := Failed, attempts := row.attempts + 1);
      var _ := st.Update(id, row);
      return;
    }
    row := row.(state := Running);
    var _ := st.Update(id, row);
  }

  /** retire: Retiring, then gone once the provider let go; otherwise it
      stays in Retiring. Returns the row as the caller's copy now reads. */
  method RetireRow(st: Store, prov: Provider, id: RowId, row0: Row) returns (row: Row)
    requires id in st.rows && st.rows[id].name == row0.name
    modifies st`rows, st`writes, prov`live, prov`calls
    ensures OnlyRow(old(st.rows), st.rows, id)
    ensures id !in st.rows ==> id !in prov.live
    ensures prov.live <= old(prov.live)
    ensures row.kind == row0.kind && row.services == row0.services && row.name == row0.name
    ensures row.state == if prov.releases(id) then Retired else Retiring
    ensures st.reliable ==> st.rows == if prov.releases(id) then old(st.rows) - {id}
                                       else old(st.rows)[id := row0.(state := Retiring, attempts := row0.attempts + 1)]
  {
    row := row0.(state := Retiring);
    var _ := st.Update(id, row);
    var ok := prov.Deprovision(id);
    if !ok {
      row := row.(attempts := row.attempts + 1);
      var _ := st.Update(id, row);
      return;
    }
    row := row.(state := Retired);
    var _ := st.Update(id, row);
    var _ := st.Delete(id);
  }
}
