/** Metric samples and their time order. */
module Samples {

  /** `at` is a time in nanoseconds. */
  datatype Sample = Sample(at: int, cpu: real, memUsed: int, memLimit: int, netIn: real, netOut: real, reqRate: real, latP95: real)

  ghost predicate TimeSorted(s: seq<Sample>) { forall i, j :: 0 <= i < j < |s| ==> s[i].at <= s[j].at }

  ghost predicate Ascending(s: seq<Sample>) { forall i, j :: 0 <= i < j < |s| ==> s[i].at < s[j].at }

  /** A time-sorted permutation, which is all sort.Slice promises. */
  ghost predicate SortedCopy(s: seq<Sample>, out: seq<Sample>) { TimeSorted(out) && multiset(out) == multiset(s) }

  lemma InsertSorted(s: seq<Sample>, k: nat, x: Sample)
    requires TimeSorted(s) && k <= |s|
    requires (forall j :: k <= j < |s| ==> s[j].at > x.at) && (k > 0 ==> s[k - 1].at <= x.at)
    ensures TimeSorted(s[..k] + [x] + s[k..])
  {
    assert forall j :: 0 <= j < k ==> s[j].at <= x.at;
  }

  lemma InsertPermutes(s: seq<Sample>, k: nat, x: Sample)
    requires k <= |s|
    ensures multiset(s[..k] + [x] + s[k..]) == multiset(s + [x])
  {
    assert s == s[..k] + s[k..];
  }

  method InsertByTime(s: seq<Sample>, x: Sample) returns (out: seq<Sample>)
    requires TimeSorted(s)
    ensures SortedCopy(s + [x], out)
  {
    var k := |s|;
    while k > 0 && s[k - 1].at > x.at
      invariant 0 <= k <= |s|
      invariant forall j :: k <= j < |s| ==> s[j].at > x.at
    {
      k := k - 1;
    }
    InsertSorted(s, k, x);
    InsertPermutes(s, k, x);
    out := s[..k] + [x] + s[k..];
  }

  method SortByTime(s: seq<Sample>) returns (out: seq<Sample>)
    ensures SortedCopy(s, out)
  {
    out := [];
    for k := 0 to |s|
      invariant SortedCopy(s[..k], out)
    {
      assert s[..k + 1] == s[..k] + [s[k]];
      out := InsertByTime(out, s[k]);
    }
    assert s[..|s|] == s;
  }

  lemma SameMembers(a: seq<Sample>, b: seq<Sample>)
    requires multiset(a) == multiset(b)
    ensures |a| == |b| && forall x :: x in a <==> x in b
  {
    assert |multiset(a)| == |multiset(b)|;
    forall x ensures x in a <==> x in b {
      assert x in a <==> x in multiset(a);
      assert x in b <==> x in multiset(b);
    }
  }

  lemma SameLast(a: seq<Sample>, b: seq<Sample>)
    requires Ascending(a) && TimeSorted(b) && a != [] && |a| == |b| && forall x :: x in a <==> x in b
    ensures a[|a| - 1] == b[|b| - 1]
  {
    var n := |a| - 1;
    assert a[n] in b && b[n] in a;
    var i :| 0 <= i <= n && a[i] == b[n];
    var j :| 0 <= j <= n && b[j] == a[n];
    assert b[j].at <= b[n].at;
  }

  lemma DropLast(a: seq<Sample>, b: seq<Sample>)
    requires multiset(a) == multiset(b) && a != [] && b != [] && a[|a| - 1] == b[|b| - 1]
    ensures multiset(a[..|a| - 1]) == multiset(b[..|b| - 1])
  {
    assert a == a[..|a| - 1] + [a[|a| - 1]];
    assert b == b[..|b| - 1] + [b[|b| - 1]];
    assert multiset(a[..|a| - 1]) == multiset(a) - multiset{a[|a| - 1]};
  }

  /** When times are distinct the sorted copy is unique. */
  lemma {:induction false} AscendingUnique(a: seq<Sample>, b: seq<Sample>)
    requires Ascending(a) && TimeSorted(b) && multiset(a) == multiset(b)
    ensures a == b
  {
    SameMembers(a, b);
    if a != [] {
      SameLast(a, b);
      DropLast(a, b);
      AscendingUnique(a[..|a| - 1], b[..|b| - 1]);
      assert a == a[..|a| - 1] + [a[|a| - 1]];
      assert b == b[..|b| - 1] + [b[|b| - 1]];
    }
  }

  lemma AscendingCopyIsSame(s: seq<Sample>, out: seq<Sample>)
    requires Ascending(s) && SortedCopy(s, out)
    ensures out == s
  {
    AscendingUnique(s, out);
  }
}
