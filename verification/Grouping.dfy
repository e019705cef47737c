/** Summing samples into time-keyed accumulators: the shared core of
    downsampling one replica and aggregating many. */
module Grouping {
  import opened Common
  import opened Samples

  /** Sums of a set of samples; latPositive/latCount cover only samples with
      a positive latency. */
  datatype Acc = Acc(count: nat, cpu: real, memUsed: int, memLimit: int, netIn: real, netOut: real,
                     reqRate: real, latP95: real, latPositive: real, latCount: nat)

  const ZERO := Acc(0, 0.0, 0, 0, 0.0, 0.0, 0.0, 0.0, 0.0, 0)

  function Add(a: Acc, s: Sample): Acc {
    Acc(a.count + 1, a.cpu + s.cpu, a.memUsed + s.memUsed, a.memLimit + s.memLimit, a.netIn + s.netIn, a.netOut + s.netOut,
        a.reqRate + s.reqRate, a.latP95 + s.latP95,
        if s.latP95 > 0.0 then a.latPositive + s.latP95 else a.latPositive,
        if s.latP95 > 0.0 then a.latCount + 1 else a.latCount)
  }

  function Plus(a: Acc, b: Acc): Acc {
    Acc(a.count + b.count, a.cpu + b.cpu, a.memUsed + b.memUsed, a.memLimit + b.memLimit, a.netIn + b.netIn, a.netOut + b.netOut,
        a.reqRate + b.reqRate, a.latP95 + b.latP95, a.latPositive + b.latPositive, a.latCount + b.latCount)
  }

  /** How samples are keyed: the bucket they fall in, if any. */
  type Key = Sample -> Option<int>

  /** The samples of one key, summed. */
  function TotalAt(key: Key, s: seq<Sample>, k: int): Acc {
    if s == [] then ZERO
    else
      var init, last := TotalAt(key, s[..|s| - 1], k), s[|s| - 1];
      if key(last) == Some(k) then Add(init, last) else init
  }

  /** All samples that have a key, summed. */
  function TotalIn(key: Key, s: seq<Sample>): Acc {
    if s == [] then ZERO
    else
      var init, last := TotalIn(key, s[..|s| - 1]), s[|s| - 1];
      if key(last).Some? then Add(init, last) else init
  }

  ghost predicate HasKey(key: Key, s: seq<Sample>, k: int) {
    exists i :: 0 <= i < |s| && key(s[i]) == Some(k)
  }

  lemma HasKeySnoc(key: Key, s: seq<Sample>, x: Sample, k: int)
    ensures HasKey(key, s + [x], k) <==> HasKey(key, s, k) || key(x) == Some(k)
  {
    if HasKey(key, s, k) {
      var i :| 0 <= i < |s| && key(s[i]) == Some(k);
      assert (s + [x])[i] == s[i];
    }
    assert (s + [x])[|s|] == x;
  }

  lemma TotalAtSnoc(key: Key, s: seq<Sample>, x: Sample, k: int)
    ensures TotalAt(key, s + [x], k) == if key(x) == Some(k) then Add(TotalAt(key, s, k), x) else TotalAt(key, s, k)
  {
    assert (s + [x])[..|s|] == s;
  }

  lemma {:induction false} NoKeyIsZero(key: Key, s: seq<Sample>, k: int)
    ensures !HasKey(key, s, k) ==> TotalAt(key, s, k) == ZERO
  {
    if s != [] {
      var n := |s| - 1;
      NoKeyIsZero(key, s[..n], k);
      assert s == s[..n] + [s[n]];
      HasKeySnoc(key, s[..n], s[n], k);
    }
  }

  /** The accumulators are exactly the per-key totals. */
  ghost predicate Summarises(key: Key, s: seq<Sample>, buckets: map<int, Acc>) {
    && (forall k :: k in buckets <==> HasKey(key, s, k))
    && forall k :: k in buckets ==> buckets[k] == TotalAt(key, s, k)
  }

  lemma SummarisesStep(key: Key, s: seq<Sample>, buckets: map<int, Acc>, x: Sample)
    requires Summarises(key, s, buckets)
    ensures key(x) == None ==> Summarises(key, s + [x], buckets)
    ensures key(x).Some? ==>
      Summarises(key, s + [x], buckets[key(x).value := Add(TotalAt(key, s, key(x).value), x)])
  {
    forall k ensures HasKey(key, s + [x], k) <==> HasKey(key, s, k) || key(x) == Some(k) {
      HasKeySnoc(key, s, x, k);
    }
    forall k ensures TotalAt(key, s + [x], k) == if key(x) == Some(k) then Add(TotalAt(key, s, k), x) else TotalAt(key, s, k) {
      TotalAtSnoc(key, s, x, k);
    }
  }

  /** The accumulation loop, started from what earlier samples left. */
  method Accumulate(key: Key, ghost before: seq<Sample>, buckets0: map<int, Acc>, s: seq<Sample>) returns (buckets: map<int, Acc>)
    requires Summarises(key, before, buckets0)
    ensures Summarises(key, before + s, buckets)
  {
    buckets := buckets0;
    assert before + s[..0] == before;
    for i := 0 to |s|
      invariant Summarises(key, before + s[..i], buckets)
    {
      assert before + s[..i + 1] == (before + s[..i]) + [s[i]];
      SummarisesStep(key, before + s[..i], buckets, s[i]);
      var b := key(s[i]);
      if b == None {
        continue;
      }
      var a := if b.value in buckets then buckets[b.value] else ZERO;
      NoKeyIsZero(key, before + s[..i], b.value);
      buckets := buckets[b.value := Add(a, s[i])];
    }
    assert s[..|s|] == s;
  }

  // ----- conservation -----

  /** Per-key totals summed over some keys. */
  function SumTotals(key: Key, s: seq<Sample>, keys: seq<int>): Acc {
    if keys == [] then ZERO
    else Plus(SumTotals(key, s, keys[..|keys| - 1]), TotalAt(key, s, keys[|keys| - 1]))
  }

  lemma {:induction false} SumTotalsSnoc(key: Key, s: seq<Sample>, x: Sample, keys: seq<int>)
    requires Distinct(keys)
    ensures SumTotals(key, s + [x], keys) == AddIf(key(x).Some? && key(x).value in keys, SumTotals(key, s, keys), x)
  {
    if keys != [] {
      var n := |keys| - 1;
      SumTotalsSnoc(key, s, x, keys[..n]);
      TotalAtSnoc(key, s, x, keys[n]);
      assert keys == keys[..n] + [keys[n]];
      assert keys[n] !in keys[..n];
      PlusAdd(SumTotals(key, s, keys[..n]), TotalAt(key, s, keys[n]), x);
    }
  }

  lemma SumTotalsAppend(key: Key, all: seq<Sample>, ks: seq<int>, k: int)
    ensures SumTotals(key, all, ks + [k]) == Plus(SumTotals(key, all, ks), TotalAt(key, all, k))
  {
    assert (ks + [k])[..|ks|] == ks;
  }

  lemma PlusZero(a: Acc)
    ensures Plus(a, ZERO) == a && Plus(ZERO, a) == a
  {}

  lemma PlusAdd(a: Acc, b: Acc, x: Sample)
    ensures Plus(a, Add(b, x)) == Add(Plus(a, b), x) == Plus(Add(a, x), b)
  {}

  lemma NothingAt(key: Key, k: int)
    ensures TotalAt(key, [], k) == ZERO
  {}

  lemma {:induction false} SumOfNothing(key: Key, keys: seq<int>)
    ensures SumTotals(key, [], keys) == ZERO
  {
    if keys != [] {
      var n := |keys| - 1;
      SumOfNothing(key, keys[..n]);
      NothingAt(key, keys[n]);
      PlusZero(ZERO);
    }
  }

  /** Conservation: over any distinct keys that cover the samples, the
      per-key totals add up to the total of all keyed samples. Each sample is
      counted under one key and none is lost. */
  lemma {:induction false} Conserved(key: Key, s: seq<Sample>, keys: seq<int>)
    requires Distinct(keys) && forall k :: HasKey(key, s, k) ==> k in keys
    ensures SumTotals(key, s, keys) == TotalIn(key, s)
  {
    if s == [] {
      SumOfNothing(key, keys);
    } else {
      var n := |s| - 1;
      assert s == s[..n] + [s[n]];
      forall k | HasKey(key, s[..n], k) ensures k in keys {
        HasKeySnoc(key, s[..n], s[n], k);
      }
      Conserved(key, s[..n], keys);
      SumTotalsSnoc(key, s[..n], s[n], keys);
      if key(s[n]).Some? {
        HasKeySnoc(key, s[..n], s[n], key(s[n]).value);
      }
    }
  }

  // ----- totals do not depend on order -----

  lemma ConcatSnoc(a: seq<Sample>, b: seq<Sample>)
    requires b != []
    ensures a + b == (a + b[..|b| - 1]) + [b[|b| - 1]] && b == b[..|b| - 1] + [b[|b| - 1]]
  {}

  function AddIf(keyed: bool, a: Acc, x: Sample): Acc { if keyed then Add(a, x) else a }

  lemma PlusAddIf(keyed: bool, a: Acc, b: Acc, x: Sample)
    ensures Plus(a, AddIf(keyed, b, x)) == AddIf(keyed, Plus(a, b), x)
  {
    PlusAdd(a, b, x);
  }

  lemma {:induction false} TotalInConcat(key: Key, a: seq<Sample>, b: seq<Sample>)
    ensures TotalIn(key, a + b) == Plus(TotalIn(key, a), TotalIn(key, b))
  {
    if b == [] {
      assert a + b == a;
      PlusZero(TotalIn(key, a));
    } else {
      var init, x := b[..|b| - 1], b[|b| - 1];
      TotalInConcat(key, a, init);
      ConcatSnoc(a, b);
      calc {
        TotalIn(key, a + b);
        TotalIn(key, (a + init) + [x]);
        { TotalInSnoc(key, a + init, x); }
        AddIf(key(x).Some?, TotalIn(key, a + init), x);
        AddIf(key(x).Some?, Plus(TotalIn(key, a), TotalIn(key, init)), x);
        { PlusAddIf(key(x).Some?, TotalIn(key, a), TotalIn(key, init), x); }
        Plus(TotalIn(key, a), AddIf(key(x).Some?, TotalIn(key, init), x));
        { TotalInSnoc(key, init, x); }
        Plus(TotalIn(key, a), TotalIn(key, b));
      }
    }
  }

  lemma TotalInSnoc(key: Key, s: seq<Sample>, x: Sample)
    ensures TotalIn(key, s + [x]) == AddIf(key(x).Some?, TotalIn(key, s), x)
  {
    assert (s + [x])[..|s|] == s;
  }

  lemma TotalInMiddle(key: Key, b1: seq<Sample>, x: Sample, b2: seq<Sample>)
    ensures TotalIn(key, b1 + [x] + b2) == TotalIn(key, b1 + b2 + [x])
  {
    TotalInConcat(key, b1 + [x], b2);
    TotalInConcat(key, b1, b2);
    TotalInSnoc(key, b1, x);
    TotalInSnoc(key, b1 + b2, x);
    PlusAdd(TotalIn(key, b1), TotalIn(key, b2), x);
  }

  lemma {:induction false} TotalInPermuted(key: Key, a: seq<Sample>, b: seq<Sample>)
    requires multiset(a) == multiset(b)
    ensures TotalIn(key, a) == TotalIn(key, b)
  {
    SameMembers(a, b);
    if a != [] {
      var n, x := |a| - 1, a[|a| - 1];
      assert x in a;
      var i :| 0 <= i < |b| && b[i] == x;
      var b1, b2 := b[..i], b[i + 1..];
      assert a == a[..n] + [x] && b == b1 + [x] + b2;
      RemoveOne(a, b, i);
      TotalInPermuted(key, a[..n], b1 + b2);
      TotalInMiddle(key, b1, x, b2);
      TotalInSnoc(key, a[..n], x);
      TotalInSnoc(key, b1 + b2, x);
    }
  }

  lemma RemoveAt(b: seq<Sample>, i: nat)
    requires i < |b|
    ensures multiset(b[..i] + b[i + 1..]) == multiset(b) - multiset{b[i]}
  {
    assert b == b[..i] + [b[i]] + b[i + 1..];
  }

  lemma RemoveOne(a: seq<Sample>, b: seq<Sample>, i: nat)
    requires multiset(a) == multiset(b) && a != [] && i < |b| && b[i] == a[|a| - 1]
    ensures multiset(a[..|a| - 1]) == multiset(b[..i] + b[i + 1..])
  {
    RemoveAt(a, |a| - 1);
    RemoveAt(b, i);
    assert a[..|a| - 1] + a[|a|..] == a[..|a| - 1];
  }

  // ----- per-key totals do not depend on order either -----

  function Only(key: Key, k: int): Key { (s: Sample) => if key(s) == Some(k) then Some(k) else None }

  lemma {:induction false} TotalAtIsTotalIn(key: Key, s: seq<Sample>, k: int)
    ensures TotalAt(key, s, k) == TotalIn(Only(key, k), s)
  {
    if s != [] {
      TotalAtIsTotalIn(key, s[..|s| - 1], k);
    }
  }

  lemma TotalAtPermuted(key: Key, a: seq<Sample>, b: seq<Sample>, k: int)
    requires multiset(a) == multiset(b)
    ensures TotalAt(key, a, k) == TotalAt(key, b, k)
    ensures HasKey(key, a, k) <==> HasKey(key, b, k)
  {
    TotalAtIsTotalIn(key, a, k);
    TotalAtIsTotalIn(key, b, k);
    TotalInPermuted(Only(key, k), a, b);
    KeyMember(key, a, b, k);
    KeyMember(key, b, a, k);
  }

  lemma KeyMember(key: Key, a: seq<Sample>, b: seq<Sample>, k: int)
    requires multiset(a) == multiset(b)
    ensures HasKey(key, a, k) ==> HasKey(key, b, k)
  {
    SameMembers(a, b);
    if HasKey(key, a, k) {
      var i :| 0 <= i < |a| && key(a[i]) == Some(k);
      assert a[i] in b;
      var j :| 0 <= j < |b| && b[j] == a[i];
      assert key(b[j]) == Some(k);
    }
  }

  // ----- keys in order -----

  ghost predicate AscendingKeys(ks: seq<int>) { forall i, j :: 0 <= i < j < |ks| ==> ks[i] < ks[j] }

  /** The keys in ascending order: collecting the map and sorting the result
      by time comes to this, keys being distinct. */
  method SortedKeys(buckets: map<int, Acc>) returns (ks: seq<int>)
    ensures AscendingKeys(ks) && forall k :: k in ks <==> k in buckets
  {
    ks := [];
    var rest := buckets.Keys;
    while rest != {}
      invariant rest <= buckets.Keys && AscendingKeys(ks)
      invariant forall k :: k in buckets <==> k in rest || k in ks
      invariant forall i, j :: 0 <= i < |ks| && j in rest ==> ks[i] < j
      decreases rest
    {
      ghost var least := Least(rest);
      var k :| k in rest && forall j :: j in rest ==> k <= j;
      ks := ks + [k];
      rest := rest - {k};
    }
  }

  lemma Inhabited(s: set<int>)
    ensures s == {} || exists x :: x in s
  {
    if forall x :: x !in s {
      assert s == {};
    }
  }

  lemma {:induction false} Least(s: set<int>) returns (k: int)
    requires s != {}
    ensures k in s && forall j :: j in s ==> k <= j
  {
    Inhabited(s);
    k :| k in s;
    if s != {k} {
      var l := Least(s - {k});
      forall j | j in s ensures (if l < k then l else k) <= j {
        if j != k {
          assert j in s - {k};
        }
      }
      k := if l < k then l else k;
    }
  }
}
