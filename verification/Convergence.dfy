/** What repeated reconcile ticks lead to, for a fixed desired set and a
    reliable store. */
module Convergence {
  import opened Common
  import opened Bootstrap
  import opened Reconciler

  /** Installed at the wanted body. */
  predicate Matches(row: Row, s: Spec) { row.name == s.name && !SpecChanged(row, s) }

  /** Exactly one row per wanted name, with the wanted body, Running or
      Failed, and no row besides. */
  ghost predicate Converged(rows: map<RowId, Row>, want: map<string, Spec>) {
    && UniqueRows(rows)
    && (forall id :: id in rows ==>
          && rows[id].name in want && Matches(rows[id], want[rows[id].name])
          && (rows[id].state == Running || rows[id].state == Failed))
    && forall n :: n in want ==> exists id :: At(rows, n, id)
  }

  predicate Drivable(row: Row) { row.state == Pending || row.state == Failed || row.state == Running }

  /** What the operator can check beforehand: rows kept as they are can still
      be driven, and the provider lets every other row go. */
  ghost predicate CanConverge(rows: map<RowId, Row>, want: map<string, Spec>, releases: RowId -> bool) {
    forall id :: id in rows ==>
      if Drifted(rows[id], Want(want, rows[id].name)) then releases(id) else Drivable(rows[id])
  }

  ghost predicate KeyedByName(want: map<string, Spec>) { forall n :: n in want ==> want[n].name == n }

  predicate NameConverged(row: Option<Row>, want: Option<Spec>) {
    if want.None? then row.None?
    else row.Some? && !SpecChanged(row.value, want.value) && (row.value.state == Running || row.value.state == Failed)
  }

  lemma RowOfName(rows: map<RowId, Row>, n: string)
    ensures RowOf(rows, n).Some? ==> RowOf(rows, n).value.name == n && exists id :: At(rows, n, id) && rows[id] == RowOf(rows, n).value
    ensures RowOf(rows, n).None? ==> forall id :: !At(rows, n, id)
  {}

  lemma ConvergedByName(rows: map<RowId, Row>, want: map<string, Spec>)
    requires UniqueRows(rows) && KeyedByName(want)
    ensures Converged(rows, want) <==> forall n: string :: NameConverged(RowOf(rows, n), Want(want, n))
  {
    if Converged(rows, want) {
      forall n: string ensures NameConverged(RowOf(rows, n), Want(want, n)) {
        RowOfName(rows, n);
      }
    }
    if forall n: string :: NameConverged(RowOf(rows, n), Want(want, n)) {
      forall id | id in rows
        ensures rows[id].name in want && Matches(rows[id], want[rows[id].name])
        ensures rows[id].state == Running || rows[id].state == Failed
      {
        RowOfAt(rows, rows[id].name, id);
        assert NameConverged(RowOf(rows, rows[id].name), Want(want, rows[id].name));
      }
      forall n | n in want ensures exists id :: At(rows, n, id) {
        assert NameConverged(RowOf(rows, n), Want(want, n));
        RowOfName(rows, n);
      }
    }
  }

  /** A tick converges a name exactly when its row could be driven or, having
      drifted, was let go; whether Provision succeeds plays no part. */
  lemma NameConverges(cur: Option<Row>, want: Option<Spec>, accepted: bool, released: bool)
    ensures NameConverged(Tick(cur, want, accepted, released), want) <==>
      (cur.Some? ==> if Drifted(cur.value, want) then released else Drivable(cur.value))
  {}

  /** One tick converges the datacenter if and only if CanConverge held. */
  lemma ConvergesExactly(rows: map<RowId, Row>, rows': map<RowId, Row>, want: map<string, Spec>, accepts: string -> bool, releases: RowId -> bool)
    requires UniqueRows(rows) && UniqueRows(rows') && KeyedByName(want)
    requires Ticked(rows, rows', want, accepts, releases)
    ensures Converged(rows', want) <==> CanConverge(rows, want, releases)
  {
    ConvergedByName(rows', want);
    forall n: string
      ensures NameConverged(RowOf(rows', n), Want(want, n)) <==>
        forall id :: At(rows, n, id) ==> if Drifted(rows[id], Want(want, n)) then releases(id) else Drivable(rows[id])
    {
      NameConverges(RowOf(rows, n), Want(want, n), accepts(n), Released(rows, n, releases));
      RowOfName(rows, n);
      if id :| At(rows, n, id) {
        RowOfAt(rows, n, id);
        assert Released(rows, n, releases) <==> releases(id);
      }
    }
    if CanConverge(rows, want, releases) {
      assert forall n: string :: NameConverged(RowOf(rows', n), Want(want, n));
    } else {
      var id :| id in rows && !(if Drifted(rows[id], Want(want, rows[id].name)) then releases(id) else Drivable(rows[id]));
      assert At(rows, rows[id].name, id);
      assert !NameConverged(RowOf(rows', rows[id].name), Want(want, rows[id].name));
    }
  }

  /** If besides every Provision succeeds, all rows run and the next tick
      finds a quiet datacenter: no store write, no provider call. */
  lemma AcceptedBecomesQuiet(rows: map<RowId, Row>, rows': map<RowId, Row>, want: map<string, Spec>, accepts: string -> bool, releases: RowId -> bool)
    requires UniqueRows(rows) && UniqueRows(rows') && KeyedByName(want)
    requires Ticked(rows, rows', want, accepts, releases) && CanConverge(rows, want, releases)
    requires forall n :: n in want ==> accepts(n)
    ensures forall id :: id in rows' ==> rows'[id].state == Running
    ensures Quiet(rows', want)
  {
    ConvergesExactly(rows, rows', want, accepts, releases);
    forall id | id in rows' ensures rows'[id].state == Running {
      var n := rows'[id].name;
      RowOfAt(rows', n, id);
      assert RowOf(rows', n) == Tick(RowOf(rows, n), Want(want, n), accepts(n), Released(rows, n, releases));
      assert NameConverged(RowOf(rows', n), Want(want, n));
      assert accepts(n);
      AcceptedRuns(rows, want, releases, n);
    }
  }

  /** One name of a state that can converge runs after an accepting tick. */
  lemma AcceptedRuns(rows: map<RowId, Row>, want: map<string, Spec>, releases: RowId -> bool, n: string)
    requires UniqueRows(rows) && CanConverge(rows, want, releases)
    ensures var row := Tick(RowOf(rows, n), Want(want, n), true, Released(rows, n, releases)); row.Some? ==> row.value.state == Running
  {
    if id0 :| At(rows, n, id0) {
      RowOfAt(rows, n, id0);
    }
  }

  // ----- field by field -----

  /** A row carries what a spec says: its services, and its kind, which is
      deployment when the spec names none. */
  predicate Carries(row: Row, s: Spec) {
    && row.name == s.name && row.services == s.services
    && (if s.kind == "" then row.kind == "deployment" else row.kind == s.kind)
  }

  /** After a tick that converges, every row carries its name's spec. */
  lemma ConvergedCarries(rows: map<RowId, Row>, rows': map<RowId, Row>, want: map<string, Spec>, accepts: string -> bool, releases: RowId -> bool, id: RowId)
    requires UniqueRows(rows) && UniqueRows(rows') && KeyedByName(want)
    requires Ticked(rows, rows', want, accepts, releases) && CanConverge(rows, want, releases) && id in rows'
    ensures rows'[id].name in want && Carries(rows'[id], want[rows'[id].name])
  {
    ConvergesExactly(rows, rows', want, accepts, releases);
  }

  /** What a tick does to one name, in the fields: a Running row that carries
      the spec is left as it is; one that does not is replaced by a row that
      does, once the provider lets it go; nothing becomes such a row too, with
      no attempt counted unless Provision failed. */
  lemma TickCarries(cur: Option<Row>, s: Spec, accepted: bool, released: bool)
    requires cur.Some? ==> cur.value.name == s.name
    ensures cur.Some? && Carries(cur.value, s) && cur.value.state == Running ==> Tick(cur, Some(s), accepted, released) == cur
    ensures (cur.None? || (!Carries(cur.value, s) && released)) ==>
      var row := Tick(cur, Some(s), accepted, released);
      row.Some? && Carries(row.value, s) && row.value.state == (if accepted then Running else Failed) && row.value.attempts == if accepted then 0 else 1
    ensures cur.Some? && !Carries(cur.value, s) && !released ==>
      Tick(cur, Some(s), accepted, released) == Some(cur.value.(state := Retiring, attempts := cur.value.attempts + 1))
  {}

  /** No write and no call exactly where every row carries its name's spec and
      is neither Pending nor Failed nor Retired, and every name has a row. */
  lemma QuietCarries(rows: map<RowId, Row>, want: map<string, Spec>)
    requires KeyedByName(want)
    ensures Quiet(rows, want) <==>
      && (forall id :: id in rows ==>
            && rows[id].name in want && Carries(rows[id], want[rows[id].name])
            && (rows[id].state == Running || rows[id].state == Provisioning || rows[id].state == Retiring))
      && forall n :: n in want ==> exists id :: At(rows, n, id)
  {}

  // ----- many ticks -----

  ghost predicate TickRun(rss: seq<map<RowId, Row>>, want: map<string, Spec>, accepts: seq<string -> bool>, releases: seq<RowId -> bool>) {
    && |rss| == |accepts| + 1 == |releases| + 1
    && forall i :: 0 <= i < |accepts| ==> Ticked(rss[i], rss[i + 1], want, accepts[i], releases[i])
  }

  /** The same for one name: its row before and after each tick, and the
      provider's two answers in it. */
  ghost predicate NameRun(rows: seq<Option<Row>>, want: Option<Spec>, accepted: seq<bool>, released: seq<bool>) {
    && |rows| == |accepted| + 1 == |released| + 1
    && forall i :: 0 <= i < |accepted| ==> TickAt(rows, want, accepted, released, i)
  }

  ghost predicate TickAt(rows: seq<Option<Row>>, want: Option<Spec>, accepted: seq<bool>, released: seq<bool>, i: nat) {
    i + 1 < |rows| && i < |accepted| && i < |released| && rows[i + 1] == Tick(rows[i], want, accepted[i], released[i])
  }

  lemma NameRunInit(rows: seq<Option<Row>>, want: Option<Spec>, accepted: seq<bool>, released: seq<bool>)
    requires NameRun(rows, want, accepted, released) && accepted != []
    ensures var m := |accepted| - 1;
      NameRun(rows[..m + 1], want, accepted[..m], released[..m]) && rows[m + 1] == Tick(rows[m], want, accepted[m], released[m])
  {
    var m := |accepted| - 1;
    assert TickAt(rows, want, accepted, released, m);
    var rows0, accepted0, released0 := rows[..m + 1], accepted[..m], released[..m];
    forall i | 0 <= i < m ensures TickAt(rows0, want, accepted0, released0, i) {
      assert TickAt(rows, want, accepted, released, i);
    }
  }

  ghost function RowsOf(rss: seq<map<RowId, Row>>, n: string): (rows: seq<Option<Row>>)
    ensures |rows| == |rss| && forall i :: 0 <= i < |rss| ==> rows[i] == RowOf(rss[i], n)
  {
    seq(|rss|, i requires 0 <= i < |rss| => RowOf(rss[i], n))
  }

  function Accepts(accepts: seq<string -> bool>, n: string): seq<bool> { Image(accepts, (a: string -> bool) => a(n)) }

  ghost function Releases(rss: seq<map<RowId, Row>>, releases: seq<RowId -> bool>, n: string): (r: seq<bool>)
    requires |rss| >= |releases|
    ensures |r| == |releases| && forall i :: 0 <= i < |r| ==> r[i] == Released(rss[i], n, releases[i])
  {
    seq(|releases|, i requires 0 <= i < |releases| => Released(rss[i], n, releases[i]))
  }

  lemma RunOfName(rss: seq<map<RowId, Row>>, want: map<string, Spec>, accepts: seq<string -> bool>, releases: seq<RowId -> bool>, n: string)
    requires TickRun(rss, want, accepts, releases)
    ensures NameRun(RowsOf(rss, n), Want(want, n), Accepts(accepts, n), Releases(rss, releases, n))
  {
    forall i | 0 <= i < |accepts|
      ensures TickAt(RowsOf(rss, n), Want(want, n), Accepts(accepts, n), Releases(rss, releases, n), i)
    {
      assert Ticked(rss[i], rss[i + 1], want, accepts[i], releases[i]);
    }
  }

  /** The first yes, or the number of answers. */
  function FirstYes(answers: seq<bool>): (k: nat)
    ensures k <= |answers|
    ensures forall i :: 0 <= i < k ==> !answers[i]
    ensures k < |answers| ==> answers[k]
  {
    if answers == [] || answers[0] then 0 else 1 + FirstYes(answers[1..])
  }

  lemma FirstYesLast(answers: seq<bool>)
    requires answers != []
    ensures var m := |answers| - 1; var k := FirstYes(answers[..m]);
      FirstYes(answers) == if k < m || answers[m] then k else m + 1
  {
    var m := |answers| - 1;
    var k, l := FirstYes(answers[..m]), FirstYes(answers);
    assert forall i :: 0 <= i < m ==> answers[..m][i] == answers[i];
    assert l < m ==> answers[..m][l];
  }

  /** A row after k refusals out of m answers. */
  function Tried(start: Row, k: nat, m: nat): Row { start.(state := if k < m then Running else Failed, attempts := start.attempts + k) }

  lemma TickTried(start: Row, s: Spec, k: nat, m: nat, accepted: bool, released: bool)
    requires !SpecChanged(start, s) && k <= m
    ensures Tick(Some(Tried(start, k, m)), Some(s), accepted, released) ==
      Some(Tried(start, if k < m || accepted then k else m + 1, m + 1))
  {}

  /** Nothing, or a row at the wanted body still to be provisioned. */
  ghost predicate Startable(row: Option<Row>, s: Spec) {
    row.Some? ==> !SpecChanged(row.value, s) && (row.value.state == Pending || row.value.state == Failed)
  }

  function StartOf(row: Option<Row>, s: Spec): Row { if row.Some? then row.value else NewRow(s) }

  lemma TickFirst(cur: Option<Row>, s: Spec, accepted: bool, released: bool)
    requires Startable(cur, s)
    ensures Tick(cur, Some(s), accepted, released) == Some(Tried(StartOf(cur, s), if accepted then 0 else 1, 1))
  {}

  lemma {:induction false} NameRetries(rows: seq<Option<Row>>, s: Spec, accepted: seq<bool>, released: seq<bool>)
    requires NameRun(rows, Some(s), accepted, released) && accepted != [] && Startable(rows[0], s)
    ensures rows[|accepted|] == Some(Tried(StartOf(rows[0], s), FirstYes(accepted), |accepted|))
  {
    var m := |accepted| - 1;
    NameRunInit(rows, Some(s), accepted, released);
    FirstYesLast(accepted);
    if m == 0 {
      TickFirst(rows[0], s, accepted[0], released[0]);
    } else {
      NameRetries(rows[..m + 1], s, accepted[..m], released[..m]);
      TickTried(StartOf(rows[0], s), s, FirstYes(accepted[..m]), m, accepted[m], released[m]);
    }
  }

  /** Retries work: a wanted name that starts without a row, or with one that
      is Pending or Failed at the wanted body, is Running after a run of
      ticks exactly when some tick's Provision succeeded, and its attempts
      count the failures before the first success. */
  lemma RetriesUntilAccepted(rss: seq<map<RowId, Row>>, want: map<string, Spec>, accepts: seq<string -> bool>,
                             releases: seq<RowId -> bool>, n: string)
    requires TickRun(rss, want, accepts, releases) && accepts != [] && n in want && Startable(RowOf(rss[0], n), want[n])
    ensures RowOf(rss[|accepts|], n) == Some(Tried(StartOf(RowOf(rss[0], n), want[n]), FirstYes(Accepts(accepts, n)), |accepts|))
  {
    RunOfName(rss, want, accepts, releases, n);
    NameRetries(RowsOf(rss, n), want[n], Accepts(accepts, n), Releases(rss, releases, n));
  }

  // ----- drifted and unwanted names -----

  /** A drifted row after m ticks that did not release it. */
  function Stuck(row: Row, m: nat): Row { if m == 0 then row else row.(state := Retiring, attempts := row.attempts + m) }

  lemma {:induction false} StuckUntil(rows: seq<Option<Row>>, want: Option<Spec>, accepted: seq<bool>, released: seq<bool>, m: nat)
    requires NameRun(rows, want, accepted, released) && rows[0].Some? && Drifted(rows[0].value, want)
    requires m <= |released| && forall i :: 0 <= i < m ==> !released[i]
    ensures rows[m] == Some(Stuck(rows[0].value, m)) && Drifted(Stuck(rows[0].value, m), want)
  {
    if m > 0 {
      StuckUntil(rows, want, accepted, released, m - 1);
      assert TickAt(rows, want, accepted, released, m - 1);
    }
  }

  lemma {:induction false} NothingStays(rows: seq<Option<Row>>, accepted: seq<bool>, released: seq<bool>)
    requires NameRun(rows, None, accepted, released) && rows[0] == None
    ensures rows[|accepted|] == None
  {
    if accepted != [] {
      var m := |accepted| - 1;
      NameRunInit(rows, None, accepted, released);
      NothingStays(rows[..m + 1], accepted[..m], released[..m]);
    }
  }

  /** A tick that releases a drifted row leaves what it would have left had
      there been no row. */
  lemma ReleasedStartsOver(rows: seq<Option<Row>>, want: Option<Spec>, accepted: seq<bool>, released: seq<bool>, k: nat)
    requires NameRun(rows, want, accepted, released) && k < |released| && released[k]
    requires rows[k].Some? && Drifted(rows[k].value, want)
    ensures NameRun([None] + rows[k + 1..], want, accepted[k..], released[k..])
  {
    var rest: seq<Option<Row>> := [None] + rows[k + 1..];
    var acceptedK, releasedK := accepted[k..], released[k..];
    forall i | 0 <= i < |acceptedK| ensures TickAt(rest, want, acceptedK, releasedK, i) {
      assert TickAt(rows, want, accepted, released, k + i);
    }
  }

  /** Where a drifted row is after some ticks, k being the first that released
      it. */
  function Retired(start: Row, want: Option<Spec>, accepted: seq<bool>, k: nat): Option<Row>
    requires k <= |accepted|
  {
    if k == |accepted| then Some(Stuck(start, k))
    else if want.None? then None
    else Some(Tried(NewRow(want.value), FirstYes(accepted[k..]), |accepted| - k))
  }

  lemma AfterRelease(rows: seq<Option<Row>>, want: Option<Spec>, accepted: seq<bool>, released: seq<bool>, k: nat, start: Row)
    requires NameRun(rows, want, accepted, released) && k < |released| && released[k]
    requires rows[k].Some? && Drifted(rows[k].value, want)
    ensures rows[|accepted|] == Retired(start, want, accepted, k)
  {
    ReleasedStartsOver(rows, want, accepted, released, k);
    var rest: seq<Option<Row>> := [None] + rows[k + 1..];
    assert rest[|released| - k] == rows[|released|];
    if want.None? {
      NothingStays(rest, accepted[k..], released[k..]);
    } else {
      NameRetries(rest, want.value, accepted[k..], released[k..]);
    }
  }

  lemma NameReleases(rows: seq<Option<Row>>, want: Option<Spec>, accepted: seq<bool>, released: seq<bool>, k: nat)
    requires NameRun(rows, want, accepted, released) && rows[0].Some? && Drifted(rows[0].value, want)
    requires k <= |released| && (k < |released| ==> released[k]) && forall i :: 0 <= i < k ==> !released[i]
    ensures rows[|accepted|] == Retired(rows[0].value, want, accepted, k)
  {
    StuckUntil(rows, want, accepted, released, k);
    if k < |released| {
      AfterRelease(rows, want, accepted, released, k, rows[0].value);
    }
  }

  /** Retirement works too: a drifted or unwanted row stays in Retiring,
      counting attempts, until the first tick whose Deprovision succeeds. From
      that tick on the name is gone if unwanted, and otherwise installed anew,
      Running from the first Provision accepted since. */
  lemma DriftedUntilReleased(rss: seq<map<RowId, Row>>, want: map<string, Spec>, accepts: seq<string -> bool>,
                             releases: seq<RowId -> bool>, n: string)
    requires TickRun(rss, want, accepts, releases)
    requires RowOf(rss[0], n).Some? && Drifted(RowOf(rss[0], n).value, Want(want, n))
    ensures RowOf(rss[|accepts|], n) ==
      Retired(RowOf(rss[0], n).value, Want(want, n), Accepts(accepts, n), FirstYes(Releases(rss, releases, n)))
  {
    RunOfName(rss, want, accepts, releases, n);
    NameReleases(RowsOf(rss, n), Want(want, n), Accepts(accepts, n), Releases(rss, releases, n), FirstYes(Releases(rss, releases, n)));
  }
}
