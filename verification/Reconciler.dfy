/** bootstrap/service_impl.go: Reconcile, its two passes over Go maps, and
    what repeated ticks converge to. */
module Reconciler {
  import opened Common
  import opened Bootstrap

  /** currentByName: the listed copy of a row. */
  datatype Entry = Entry(id: RowId, row: Row)

  /** No leak: whatever runs at the provider has a row to clean it up by. */
  ghost predicate NoLeak(st: Store, prov: Provider)
    reads st, prov
  {
    prov.live <= st.rows.Keys
  }

  ghost predicate Safe(st: Store, prov: Provider)
    reads st, prov
  {
    UniqueRows(st.rows) && Minted(st.rows, st.minted) && NoLeak(st, prov)
  }

  ghost predicate Indexed(rows: map<RowId, Row>, current: map<string, Entry>) {
    && (forall n :: n in current ==> At(rows, n, current[n].id) && rows[current[n].id] == current[n].row)
    && (forall id :: id in rows ==> rows[id].name in current && current[rows[id].name].id == id)
  }

  method IndexRows(st: Store) returns (current: map<string, Entry>)
    requires UniqueRows(st.rows)
    ensures Indexed(st.rows, current)
  {
    current := map[];
    var todo := st.rows.Keys;
    while todo != {}
      invariant todo <= st.rows.Keys
      invariant forall n :: n in current ==> At(st.rows, n, current[n].id) && st.rows[current[n].id] == current[n].row
      invariant forall id :: id in st.rows && id !in todo ==> st.rows[id].name in current && current[st.rows[id].name].id == id
      decreases todo
    {
      var id :| id in todo;
      todo := todo - {id};
      current := current[st.rows[id].name := Entry(id, st.rows[id])];
    }
  }

  method IndexSpecs(desired: seq<Spec>) returns (want: map<string, Spec>)
    ensures want == WantMap(desired)
  {
    want := map[];
    for k := 0 to |desired|
      invariant want == WantMap(desired[..k])
    {
      assert desired[..k + 1][..k] == desired[..k];
      want := want[desired[k].name := desired[k]];
    }
    assert desired[..|desired|] == desired;
  }

  // ----- pass 1 -----

  /** The row of a name between the two passes. */
  function Mid(row: Row, want: Option<Spec>, released: bool): Option<Row> {
    if !Drifted(row, want) then Some(row)
    else if released then None
    else Some(row.(state := Retiring, attempts := row.attempts + 1))
  }

  /** What is known of one name during pass 1: untouched while it waits or
      when it did not drift; otherwise retired or stuck in Retiring, in the
      caller's copy always and in the store when the store is reliable. */
  ghost predicate Pass1At(view: Option<Row>, e0: Entry, e: Entry, want: Option<Spec>, released: bool, waits: bool, reliable: bool) {
    && e.id == e0.id
    && if waits || !Drifted(e0.row, want) then view == Some(e0.row) && e.row == e0.row
       else
         && e.row.kind == e0.row.kind && e.row.services == e0.row.services
         && e.row.state == (if released then Retired else Retiring)
         && (reliable ==> view == Mid(e0.row, want, released))
  }

  ghost predicate Pass1(rows: map<RowId, Row>, current0: map<string, Entry>, current: map<string, Entry>, want: map<string, Spec>,
                        releases: RowId -> bool, todo: set<string>, reliable: bool) {
    && current.Keys == current0.Keys
    && forall n :: n in current0 ==>
         Pass1At(View(rows, current0[n].id), current0[n], current[n], Want(want, n), releases(current0[n].id), n in todo, reliable)
  }

  lemma Pass1Start(rows: map<RowId, Row>, current0: map<string, Entry>, want: map<string, Spec>, releases: RowId -> bool, reliable: bool)
    requires Indexed(rows, current0)
    ensures Pass1(rows, current0, current0, want, releases, current0.Keys, reliable)
  {}

  lemma Pass1Skip(rows: map<RowId, Row>, current0: map<string, Entry>, current: map<string, Entry>, want: map<string, Spec>,
                  releases: RowId -> bool, todo: set<string>, reliable: bool, name: string)
    requires Pass1(rows, current0, current, want, releases, todo, reliable) && name in current0
    requires !Drifted(current0[name].row, Want(want, name))
    ensures Pass1(rows, current0, current, want, releases, todo - {name}, reliable)
  {}

  ghost predicate DistinctIds(current: map<string, Entry>) {
    forall m, n :: m in current && n in current && m != n ==> current[m].id != current[n].id
  }

  lemma Pass1Step(rows1: map<RowId, Row>, current0: map<string, Entry>, current: map<string, Entry>, want: map<string, Spec>,
                  releases: RowId -> bool, todo: set<string>, reliable: bool, name: string, rows2: map<RowId, Row>, row: Row)
    requires Pass1(rows1, current0, current, want, releases, todo, reliable) && name in todo && name in current0
    requires DistinctIds(current0) && Drifted(current0[name].row, Want(want, name))
    requires OnlyRow(rows1, rows2, current0[name].id)
    requires Pass1At(View(rows2, current0[name].id), current0[name], Entry(current0[name].id, row), Want(want, name),
                     releases(current0[name].id), false, reliable)
    ensures Pass1(rows2, current0, current[name := Entry(current0[name].id, row)], want, releases, todo - {name}, reliable)
  {}

  ghost predicate NoDrift(current: map<string, Entry>, want: map<string, Spec>) {
    forall n :: n in current ==> !Drifted(current[n].row, Want(want, n))
  }

  ghost predicate NamesKept(rows: map<RowId, Row>, rows': map<RowId, Row>) {
    rows'.Keys <= rows.Keys && forall id :: id in rows' ==> rows'[id].name == rows[id].name
  }

  lemma OnlyRowNames(rows0: map<RowId, Row>, rows: map<RowId, Row>, rows': map<RowId, Row>, id: RowId)
    requires NamesKept(rows0, rows) && OnlyRow(rows, rows', id)
    ensures NamesKept(rows0, rows')
  {
    forall i | i in rows' && i != id ensures rows'[i].name == rows0[i].name {
      assert View(rows', i) == View(rows, i);
    }
  }

  lemma KeepsKeys(rows: map<RowId, Row>, rows': map<RowId, Row>, id: RowId)
    requires OnlyRow(rows, rows', id)
    ensures rows.Keys - {id} <= rows'.Keys
  {
    forall i | i in rows.Keys - {id} ensures i in rows' {
      assert View(rows', i) == View(rows, i);
    }
  }

  /** Retiring a row keeps the store safe and marks the caller's copy. */
  method Retire(st: Store, prov: Provider, e: Entry, ghost want: Option<Spec>) returns (row: Row)
    requires Safe(st, prov) && View(st.rows, e.id) == Some(e.row) && Drifted(e.row, want)
    modifies st`rows, st`writes, prov`live, prov`calls
    ensures Safe(st, prov) && OnlyRow(old(st.rows), st.rows, e.id)
    ensures Pass1At(View(st.rows, e.id), e, Entry(e.id, row), want, prov.releases(e.id), false, st.reliable)
  {
    ghost var rows1 := st.rows;
    row := RetireRow(st, prov, e.id, e.row);
    OnlyRowFacts(rows1, st.rows, e.id);
    KeepsKeys(rows1, st.rows, e.id);
  }

  method RetirePass(st: Store, prov: Provider, want: map<string, Spec>, current0: map<string, Entry>) returns (current: map<string, Entry>)
    requires Safe(st, prov) && Pass1(st.rows, current0, current0, want, prov.releases, current0.Keys, st.reliable)
    requires DistinctIds(current0)
    modifies st`rows, st`writes, prov`live, prov`calls
    ensures Safe(st, prov) && NamesKept(old(st.rows), st.rows)
    ensures Pass1(st.rows, current0, current, want, prov.releases, {}, st.reliable)
    ensures NoDrift(current0, want) ==>
      st.rows == old(st.rows) && st.writes == old(st.writes) && prov.calls == old(prov.calls)
  {
    current := current0;
    var todo := current0.Keys;
    while todo != {}
      invariant todo <= current0.Keys && Safe(st, prov) && NamesKept(old(st.rows), st.rows)
      invariant Pass1(st.rows, current0, current, want, prov.releases, todo, st.reliable)
      invariant NoDrift(current0, want) ==>
        st.rows == old(st.rows) && st.writes == old(st.writes) && prov.calls == old(prov.calls)
      decreases todo
    {
      var name :| name in todo;
      var e := current[name];
      assert e == current0[name] && View(st.rows, e.id) == Some(e.row);
      if name in want && !SpecChanged(e.row, want[name]) {
        Pass1Skip(st.rows, current0, current, want, prov.releases, todo, st.reliable, name);
      } else {
        ghost var rows1 := st.rows;
        var row := Retire(st, prov, e, Want(want, name));
        OnlyRowNames(old(st.rows), rows1, st.rows, e.id);
        Pass1Step(rows1, current0, current, want, prov.releases, todo, st.reliable, name, st.rows, row);
        current := current[name := Entry(e.id, row)];
      }
      todo := todo - {name};
    }
  }

  // ----- pass 2 -----

  /** The unique name index turns an insert down while a row is there. */
  function OrNew(mid: Option<Row>, s: Spec, accepted: bool): Option<Row> {
    if mid.None? then Some(Provisioned(NewRow(s), accepted)) else mid
  }

  /** What installing does to the row a name has after pass 1. */
  function Installed(mid: Option<Row>, entry: Option<Entry>, s: Spec, accepted: bool): Option<Row> {
    if entry.Some? && entry.value.row.state != Retired && !SpecChanged(entry.value.row, s) then
      (if entry.value.row.state == Pending || entry.value.row.state == Failed then Some(Provisioned(entry.value.row, accepted)) else mid)
    else OrNew(mid, s, accepted)
  }

  ghost predicate Skips(entry: Option<Entry>, s: Spec) {
    && entry.Some? && !SpecChanged(entry.value.row, s)
    && entry.value.row.state != Pending && entry.value.row.state != Failed && entry.value.row.state != Retired
  }

  /** The copy still describes the stored row when it may be retried. */
  ghost predicate CopyFresh(rows: map<RowId, Row>, entry: Option<Entry>, s: Spec) {
    entry.Some? && !SpecChanged(entry.value.row, s) ==>
      entry.value.row.name == s.name && View(rows, entry.value.id) == Some(entry.value.row)
  }

  lemma Unnamed(rows: map<RowId, Row>, name: string)
    ensures NameFree(rows, name) <==> RowOf(rows, name).None?
  {
    if !NameFree(rows, name) {
      var id :| id in rows && rows[id].name == name;
      assert At(rows, name, id);
    }
  }

  lemma RowInserted(rows: map<RowId, Row>, id: RowId, row: Row)
    requires UniqueRows(rows) && id !in rows && NameFree(rows, row.name)
    ensures UniqueRows(rows[id := row]) && OtherNames(rows, rows[id := row], row.name)
  {}

  lemma RowChanged(rows: map<RowId, Row>, id: RowId, row: Row)
    requires UniqueRows(rows) && id in rows && rows[id].name == row.name
    ensures UniqueRows(rows[id := row]) && RowOf(rows[id := row], row.name) == Some(row)
  {
    assert At(rows[id := row], row.name, id);
    RowOfAt(rows[id := row], row.name, id);
  }

  /** Driving a row through provision, from the store's side. */
  method Provision(st: Store, prov: Provider, id: RowId, row: Row)
    requires Safe(st, prov) && id in st.rows && st.rows[id].name == row.name
    modifies st`rows, st`writes, prov`live, prov`calls
    ensures Safe(st, prov) && OtherNames(old(st.rows), st.rows, row.name)
    ensures st.reliable ==> RowOf(st.rows, row.name) == Some(Provisioned(row, prov.accepts(row.name)))
  {
    ghost var rows1 := st.rows;
    ProvisionRow(st, prov, id, row);
    OnlyRowFacts(rows1, st.rows, id);
    KeepsKeys(rows1, st.rows, id);
    if st.reliable {
      RowChanged(rows1, id, Provisioned(row, prov.accepts(row.name)));
    }
  }

  lemma OtherNamesTwice(a: map<RowId, Row>, b: map<RowId, Row>, c: map<RowId, Row>, name: string)
    requires OtherNames(a, b, name) && OtherNames(b, c, name)
    ensures OtherNames(a, c, name)
  {}

  method InstallNew(st: Store, prov: Provider, s: Spec)
    requires Safe(st, prov)
    modifies st`rows, st`writes, st`minted, prov`live, prov`calls
    ensures Safe(st, prov) && OtherNames(old(st.rows), st.rows, s.name)
    ensures st.reliable ==> RowOf(st.rows, s.name) == OrNew(RowOf(old(st.rows), s.name), s, prov.accepts(s.name))
  {
    ghost var rows1 := st.rows;
    Unnamed(rows1, s.name);
    var id := st.Mint();
    var row := NewRow(s);
    var ok := st.Insert(id, row);
    if st.rows != rows1 {
      RowInserted(rows1, id, row);
    }
    if !ok {
      return;
    }
    ghost var rows2 := st.rows;
    Provision(st, prov, id, row);
    OtherNamesTwice(rows1, rows2, st.rows, s.name);
  }

  method InstallOne(st: Store, prov: Provider, s: Spec, entry: Option<Entry>)
    requires Safe(st, prov) && CopyFresh(st.rows, entry, s)
    modifies st`rows, st`writes, st`minted, prov`live, prov`calls
    ensures Safe(st, prov) && OtherNames(old(st.rows), st.rows, s.name)
    ensures st.reliable ==> RowOf(st.rows, s.name) == Installed(RowOf(old(st.rows), s.name), entry, s, prov.accepts(s.name))
    ensures Skips(entry, s) ==> st.rows == old(st.rows) && st.writes == old(st.writes) && prov.calls == old(prov.calls)
  {
    if entry.Some? && entry.value.row.state != Retired && !SpecChanged(entry.value.row, s) {
      if entry.value.row.state == Pending || entry.value.row.state == Failed {
        Provision(st, prov, entry.value.id, entry.value.row);
      }
      return;
    }
    InstallNew(st, prov, s);
  }

  function Find(current: map<string, Entry>, name: string): Option<Entry> { if name in current then Some(current[name]) else None }

  ghost predicate CopiesFresh(rows: map<RowId, Row>, current: map<string, Entry>, want: map<string, Spec>, todo: set<string>) {
    forall n :: n in todo ==> n in want && want[n].name == n && CopyFresh(rows, Find(current, n), want[n])
  }

  lemma CopiesStay(rows: map<RowId, Row>, rows': map<RowId, Row>, current: map<string, Entry>, want: map<string, Spec>, todo: set<string>, name: string)
    requires CopiesFresh(rows, current, want, todo) && OtherNames(rows, rows', name)
    ensures CopiesFresh(rows', current, want, todo - {name})
  {
    forall n | n in todo - {name} ensures CopyFresh(rows', Find(current, n), want[n]) {
      assert CopyFresh(rows, Find(current, n), want[n]);
    }
  }

  /** Row of every name once the names outside todo have been installed. */
  ghost predicate Pass2(rows0: map<RowId, Row>, rows: map<RowId, Row>, current: map<string, Entry>, want: map<string, Spec>,
                        accepts: string -> bool, todo: set<string>) {
    forall n: string :: RowOf(rows, n) ==
      if n in want && n !in todo then Installed(RowOf(rows0, n), Find(current, n), want[n], accepts(n)) else RowOf(rows0, n)
  }

  lemma Pass2Step(rows0: map<RowId, Row>, rows: map<RowId, Row>, rows': map<RowId, Row>, current: map<string, Entry>, want: map<string, Spec>,
                  accepts: string -> bool, todo: set<string>, name: string)
    requires Pass2(rows0, rows, current, want, accepts, todo) && name in todo && name in want
    requires UniqueRows(rows) && UniqueRows(rows') && OtherNames(rows, rows', name)
    requires RowOf(rows', name) == Installed(RowOf(rows, name), Find(current, name), want[name], accepts(name))
    ensures Pass2(rows0, rows', current, want, accepts, todo - {name})
  {
    forall n: string | n != name ensures RowOf(rows', n) == RowOf(rows, n) {
      OtherRow(rows, rows', name, n);
    }
  }

  ghost predicate AllSkip(current: map<string, Entry>, want: map<string, Spec>) {
    forall n :: n in want ==> Skips(Find(current, n), want[n])
  }

  method InstallPass(st: Store, prov: Provider, want: map<string, Spec>, current: map<string, Entry>)
    requires Safe(st, prov) && CopiesFresh(st.rows, current, want, want.Keys)
    modifies st`rows, st`writes, st`minted, prov`live, prov`calls
    ensures Safe(st, prov)
    ensures st.reliable ==> Pass2(old(st.rows), st.rows, current, want, prov.accepts, {})
    ensures AllSkip(current, want) ==> st.rows == old(st.rows) && st.writes == old(st.writes) && prov.calls == old(prov.calls)
  {
    ghost var rows0 := st.rows;
    var todo := want.Keys;
    while todo != {}
      invariant todo <= want.Keys && Safe(st, prov)
      invariant CopiesFresh(st.rows, current, want, todo)
      invariant st.reliable ==> Pass2(rows0, st.rows, current, want, prov.accepts, todo)
      invariant AllSkip(current, want) ==> st.rows == rows0 && st.writes == old(st.writes) && prov.calls == old(prov.calls)
      decreases todo
    {
      var name :| name in todo;
      ghost var rows1 := st.rows;
      InstallOne(st, prov, want[name], Find(current, name));
      CopiesStay(rows1, st.rows, current, want, todo, name);
      if st.reliable {
        Pass2Step(rows0, rows1, st.rows, current, want, prov.accepts, todo, name);
      }
      todo := todo - {name};
    }
  }

  // ----- the whole tick -----

  /** The provider lets the row of this name go. */
  ghost predicate Released(rows: map<RowId, Row>, name: string, releases: RowId -> bool) {
    exists id :: At(rows, name, id) && releases(id)
  }

  ghost predicate Ticked(rows: map<RowId, Row>, rows': map<RowId, Row>, want: map<string, Spec>, accepts: string -> bool, releases: RowId -> bool) {
    forall n: string :: RowOf(rows', n) == Tick(RowOf(rows, n), Want(want, n), accepts(n), Released(rows, n, releases))
  }

  /** Every row is wanted as it is and rests in Running, Provisioning or
      Retiring; every wanted name has a row. */
  ghost predicate Quiet(rows: map<RowId, Row>, want: map<string, Spec>) {
    && (forall id :: id in rows ==>
          && !Drifted(rows[id], Want(want, rows[id].name))
          && rows[id].state != Pending && rows[id].state != Failed && rows[id].state != Retired)
    && forall n :: n in want ==> exists id :: At(rows, n, id)
  }

  lemma IndexedIds(rows: map<RowId, Row>, current: map<string, Entry>)
    requires Indexed(rows, current)
    ensures DistinctIds(current)
  {}

  lemma QuietSkips(rows: map<RowId, Row>, current: map<string, Entry>, want: map<string, Spec>)
    requires Indexed(rows, current) && Quiet(rows, want)
    ensures NoDrift(current, want)
    ensures AllSkip(current, want)
  {
    forall n | n in want ensures Skips(Find(current, n), want[n]) {
      var id :| At(rows, n, id);
      assert current[n].id == id;
    }
  }

  /** With no drift the copies come out of pass 1 as they went in. */
  lemma UndriftedCopies(rows: map<RowId, Row>, current0: map<string, Entry>, current: map<string, Entry>, want: map<string, Spec>,
                        releases: RowId -> bool, reliable: bool)
    requires Pass1(rows, current0, current, want, releases, {}, reliable) && NoDrift(current0, want)
    ensures current == current0
  {}

  lemma CopiesAfterPass1(rows: map<RowId, Row>, current0: map<string, Entry>, current: map<string, Entry>, specs: seq<Spec>,
                         releases: RowId -> bool, reliable: bool)
    requires Pass1(rows, current0, current, WantMap(specs), releases, {}, reliable)
    requires forall n :: n in current0 ==> current0[n].row.name == n
    ensures CopiesFresh(rows, current, WantMap(specs), WantMap(specs).Keys)
  {
    var want := WantMap(specs);
    forall n | n in want ensures CopyFresh(rows, Find(current, n), want[n]) {
      if n in current {
        assert Pass1At(View(rows, current0[n].id), current0[n], current[n], Want(want, n), releases(current0[n].id), false, reliable);
      }
    }
  }

  /** The row of an indexed name before and after pass 1. */
  lemma RowAfterPass1(rows0: map<RowId, Row>, rows1: map<RowId, Row>, e: Entry, n: string, mid: Option<Row>, releases: RowId -> bool)
    requires UniqueRows(rows0) && UniqueRows(rows1) && NamesKept(rows0, rows1)
    requires At(rows0, n, e.id) && rows0[e.id] == e.row && View(rows1, e.id) == mid
    ensures RowOf(rows0, n) == Some(e.row) && RowOf(rows1, n) == mid
    ensures Released(rows0, n, releases) <==> releases(e.id)
  {
    RowOfAt(rows0, n, e.id);
    if e.id in rows1 {
      assert At(rows1, n, e.id);
      RowOfAt(rows1, n, e.id);
    } else {
      assert forall id :: At(rows1, n, id) ==> At(rows0, n, id);
    }
  }

  lemma NoRow(rows0: map<RowId, Row>, rows1: map<RowId, Row>, current0: map<string, Entry>, n: string)
    requires Indexed(rows0, current0) && n !in current0 && NamesKept(rows0, rows1)
    ensures RowOf(rows0, n) == None && RowOf(rows1, n) == None
  {}

  /** The two passes compose to the tick of one name. */
  lemma PassesCompose(e0: Entry, e: Entry, want: Option<Spec>, accepted: bool, released: bool, mid: Option<Row>)
    requires Pass1At(mid, e0, e, want, released, false, true)
    ensures (if want.Some? then Installed(mid, Some(e), want.value, accepted) else mid) == Tick(Some(e0.row), want, accepted, released)
  {}

  /** One name through both passes. */
  lemma TickOfName(rows0: map<RowId, Row>, rows1: map<RowId, Row>, rows2: map<RowId, Row>, current0: map<string, Entry>, current: map<string, Entry>,
                   want: map<string, Spec>, accepts: string -> bool, releases: RowId -> bool, n: string)
    requires UniqueRows(rows0) && UniqueRows(rows1) && Indexed(rows0, current0) && NamesKept(rows0, rows1)
    requires Pass1(rows1, current0, current, want, releases, {}, true)
    requires Pass2(rows1, rows2, current, want, accepts, {})
    ensures RowOf(rows2, n) == Tick(RowOf(rows0, n), Want(want, n), accepts(n), Released(rows0, n, releases))
  {
    if n in current0 {
      var e0, mid := current0[n], View(rows1, current0[n].id);
      RowAfterPass1(rows0, rows1, e0, n, mid, releases);
      PassesCompose(e0, current[n], Want(want, n), accepts(n), releases(e0.id), mid);
    } else {
      NoRow(rows0, rows1, current0, n);
    }
  }

  /** One reconcile. Whatever the store and the provider do, names stay
      unique and nothing leaks. With a reliable store the row of every name
      is the Tick of what it was: the order in which the two maps are walked
      shows nowhere. A quiet datacenter is left alone. */
  method Reconcile(st: Store, prov: Provider, providerKnown: bool, declared: seq<Spec>, hooks: seq<Result<seq<Spec>>>) returns (ok: bool)
    requires Safe(st, prov)
    modifies st`rows, st`writes, st`minted, prov`live, prov`calls
    ensures Safe(st, prov)
    ensures st.reliable && providerKnown ==> ok
    ensures !ok ==> st.rows == old(st.rows) && prov.live == old(prov.live) && st.writes == old(st.writes) && prov.calls == old(prov.calls)
    ensures ok && st.reliable ==> Ticked(old(st.rows), st.rows, WantMap(Desired(declared, hooks)), prov.accepts, prov.releases)
    ensures Quiet(old(st.rows), WantMap(Desired(declared, hooks))) ==>
      st.rows == old(st.rows) && st.writes == old(st.writes) && prov.calls == old(prov.calls)
  {
    var desired := BuildDesired(declared, hooks);
    var listed: bool := *;
    if !st.reliable && !listed {
      return false;
    }
    ghost var rows0 := st.rows;
    var current0 := IndexRows(st);
    var want := IndexSpecs(desired);
    if !providerKnown {
      return false;
    }
    IndexedIds(rows0, current0);
    Pass1Start(rows0, current0, want, prov.releases, st.reliable);
    if Quiet(rows0, want) {
      QuietSkips(rows0, current0, want);
    }
    var current := RetirePass(st, prov, want, current0);
    ghost var rows1 := st.rows;
    CopiesAfterPass1(rows1, current0, current, desired, prov.releases, st.reliable);
    if Quiet(rows0, want) {
      UndriftedCopies(rows1, current0, current, want, prov.releases, st.reliable);
    }
    InstallPass(st, prov, want, current);
    if st.reliable {
      forall n: string
        ensures RowOf(st.rows, n) == Tick(RowOf(rows0, n), Want(want, n), prov.accepts(n), Released(rows0, n, prov.releases))
      {
        TickOfName(rows0, rows1, st.rows, current0, current, want, prov.accepts, prov.releases, n);
      }
    }
    ok := true;
  }
}
