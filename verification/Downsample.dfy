/** metrics/ring.go and metrics/service_impl.go: bucket means over a window,
    and the automatic bucket size. */
module Downsample {
  import opened Common
  import opened Samples
  import opened Grouping
  import opened Ring

  const SECOND: int := 1_000_000_000
  const FLOOR: int := 10 * SECOND
  const TARGET: int := 120
  const HOUR: int := 3600 * SECOND

  /** Start of the bucket a time falls in. */
  function BucketOf(since: int, res: int, t: int): int
    requires res > 0
  {
    if t < since then since else since + (t - since) / res * res
  }

  function Window(since: int, until: int, res: int): Key
    requires res > 0
  {
    (s: Sample) => if s.at < since || s.at >= until then None else Some(BucketOf(since, res, s.at))
  }

  function Mean(at: int, a: Acc): Sample
    requires a.count > 0
  {
    var c := a.count as real;
    Sample(at, a.cpu / c, Truncate(a.memUsed as real / c), Truncate(a.memLimit as real / c),
           a.netIn / c, a.netOut / c, a.reqRate / c, a.latP95 / c)
  }

  lemma {:induction false} KeyCounted(key: Key, s: seq<Sample>, k: int)
    ensures HasKey(key, s, k) <==> TotalAt(key, s, k).count > 0
  {
    if s != [] {
      var n := |s| - 1;
      KeyCounted(key, s[..n], k);
      assert s == s[..n] + [s[n]];
      HasKeySnoc(key, s[..n], s[n], k);
    }
  }

  /** One mean per non-empty bucket, in ascending order. */
  ghost predicate Reported(key: Key, all: seq<Sample>, out: seq<Sample>) {
    && Ascending(out)
    && (forall k :: HasKey(key, all, k) ==> exists i :: 0 <= i < |out| && out[i].at == k)
    && (forall i :: 0 <= i < |out| ==> TotalAt(key, all, out[i].at).count > 0 && out[i] == Mean(out[i].at, TotalAt(key, all, out[i].at)))
  }

  method Emit(key: Key, ghost all: seq<Sample>, buckets: map<int, Acc>) returns (out: seq<Sample>)
    requires Summarises(key, all, buckets)
    ensures Reported(key, all, out)
  {
    var ks := SortedKeys(buckets);
    out := [];
    for i := 0 to |ks|
      invariant |out| == i
      invariant forall j :: 0 <= j < i ==> TotalAt(key, all, ks[j]).count > 0 && out[j] == Mean(ks[j], TotalAt(key, all, ks[j]))
    {
      KeyCounted(key, all, ks[i]);
      out := out + [Mean(ks[i], buckets[ks[i]])];
    }
    forall k | HasKey(key, all, k) ensures exists i :: 0 <= i < |out| && out[i].at == k {
      assert k in ks;
      var i :| 0 <= i < |ks| && ks[i] == k;
      assert out[i].at == k;
    }
  }

  lemma ReportedPermuted(key: Key, a: seq<Sample>, b: seq<Sample>, out: seq<Sample>)
    requires multiset(a) == multiset(b) && Reported(key, a, out)
    ensures Reported(key, b, out)
  {
    forall k ensures TotalAt(key, a, k) == TotalAt(key, b, k) && (HasKey(key, a, k) <==> HasKey(key, b, k)) {
      TotalAtPermuted(key, a, b, k);
    }
  }

  /** Bucket means of everything the ring retains. */
  method DownsampleRing(r: RingBuffer, since: int, until: int, res: int) returns (out: seq<Sample>)
    requires r.Valid()
    ensures res <= 0 ==> out == []
    ensures res > 0 ==> Reported(Window(since, until, res), Newest(r.log, r.cap), out)
  {
    if res <= 0 {
      return [];
    }
    var all := r.Snapshot();
    var key := Window(since, until, res);
    var buckets := Accumulate(key, [], map[], all);
    assert [] + all == all;
    out := Emit(key, all, buckets);
    ReportedPermuted(key, all, Newest(r.log, r.cap), out);
  }

  function AutoResolution(window: int, targetPoints: int): int {
    var target := if targetPoints <= 0 then TARGET else targetPoints;
    var r := if window >= 0 then window / target else -((-window) / target);
    if r < FLOOR then FLOOR else r
  }

  /** No ring gives no samples. Zero times default to now and to one hour
      back; no resolution means automatic. */
  method Range(r: RingBuffer?, since0: Option<int>, until0: Option<int>, res0: int, now: int) returns (out: seq<Sample>)
    requires r != null ==> r.Valid()
    ensures r == null ==> out == []
    ensures r != null ==>
      var until := if until0.Some? then until0.value else now;
      var since := if since0.Some? then since0.value else until - 3600 * SECOND;
      var res := if res0 <= 0 then AutoResolution(until - since, 120) else res0;
      Reported(Window(since, until, res), Newest(r.log, r.cap), out)
  {
    if r == null {
      return [];
    }
    var until := if until0.Some? then until0.value else now;
    var since := if since0.Some? then since0.value else until - HOUR;
    var res := if res0 <= 0 then AutoResolution(until - since, TARGET) else res0;
    out := DownsampleRing(r, since, until, res);
  }

  // ----- conservation -----

  function Times(out: seq<Sample>): seq<int> { Image(out, (x: Sample) => x.at) }

  /** The buckets' totals add up to the total of the samples in the window:
      every one of them lies in exactly one bucket. */
  lemma BucketsConserve(key: Key, all: seq<Sample>, out: seq<Sample>)
    requires Reported(key, all, out)
    ensures SumTotals(key, all, Times(out)) == TotalIn(key, all)
  {
    forall k | HasKey(key, all, k) ensures k in Times(out) {
      var i :| 0 <= i < |out| && out[i].at == k;
      assert Times(out)[i] == k;
    }
    Conserved(key, all, Times(out));
  }

  lemma MeanTimesCount(total: real, count: nat)
    requires count > 0
    ensures total / (count as real) * (count as real) == total
  {}

  /** A mean weighed with a count; the truncated memory means are left out. */
  function Weighed(x: Sample, count: nat): Acc {
    var c := count as real;
    Acc(count, x.cpu * c, 0, 0, x.netIn * c, x.netOut * c, x.reqRate * c, x.latP95 * c, 0.0, 0)
  }

  function WithoutMemory(a: Acc): Acc { a.(memUsed := 0, memLimit := 0, latPositive := 0.0, latCount := 0) }

  function SumWeighed(key: Key, all: seq<Sample>, out: seq<Sample>): Acc {
    if out == [] then ZERO
    else
      var last := out[|out| - 1];
      Plus(SumWeighed(key, all, out[..|out| - 1]), Weighed(last, TotalAt(key, all, last.at).count))
  }

  /** Weighing a mean with its bucket's count gives the bucket's total. */
  lemma WeighedMean(at: int, a: Acc)
    requires a.count > 0
    ensures Weighed(Mean(at, a), a.count) == WithoutMemory(a)
  {
    MeanTimesCount(a.cpu, a.count);
    MeanTimesCount(a.netIn, a.count);
    MeanTimesCount(a.netOut, a.count);
    MeanTimesCount(a.reqRate, a.count);
    MeanTimesCount(a.latP95, a.count);
  }

  lemma MemoryApart(a: Acc, b: Acc)
    ensures Plus(WithoutMemory(a), WithoutMemory(b)) == WithoutMemory(Plus(a, b))
  {}

  lemma {:induction false} WeighedIsTotal(key: Key, all: seq<Sample>, out: seq<Sample>)
    requires forall i :: 0 <= i < |out| ==> TotalAt(key, all, out[i].at).count > 0 && out[i] == Mean(out[i].at, TotalAt(key, all, out[i].at))
    ensures SumWeighed(key, all, out) == WithoutMemory(SumTotals(key, all, Times(out)))
  {
    if out != [] {
      var n := |out| - 1;
      WeighedIsTotal(key, all, out[..n]);
      assert Times(out) == Times(out[..n]) + [out[n].at];
      SumTotalsAppend(key, all, Times(out[..n]), out[n].at);
      var t := TotalAt(key, all, out[n].at);
      WeighedMean(out[n].at, t);
      MemoryApart(SumTotals(key, all, Times(out[..n])), t);
    }
  }

  /** count * mean sums back to the total of the window, for the number of
      samples and every averaged field but the truncated memory. */
  lemma MeansConserved(key: Key, all: seq<Sample>, out: seq<Sample>)
    requires Reported(key, all, out)
    ensures SumWeighed(key, all, out) == WithoutMemory(TotalIn(key, all))
  {
    WeighedIsTotal(key, all, out);
    BucketsConserve(key, all, out);
  }

  // ----- memory means -----

  datatype Memory = Used | Limit

  function MemoryOf(f: Memory, x: Sample): int { if f.Used? then x.memUsed else x.memLimit }

  function MemorySum(f: Memory, a: Acc): int { if f.Used? then a.memUsed else a.memLimit }

  lemma {:induction false} MemoryBetween(f: Memory, key: Key, all: seq<Sample>, k: int, lo: int, hi: int)
    requires forall i :: 0 <= i < |all| && key(all[i]) == Some(k) ==> lo <= MemoryOf(f, all[i]) <= hi
    ensures var t := TotalAt(key, all, k); lo * t.count <= MemorySum(f, t) <= hi * t.count
  {
    if all != [] {
      MemoryBetween(f, key, all[..|all| - 1], k, lo, hi);
    }
  }

  lemma RealMean(sum: int, c: real, m: real, lo: int, hi: int)
    requires c > 0.0 && m * c == sum as real && lo as real * c <= sum as real <= hi as real * c
    ensures lo as real <= m <= hi as real
  {
    if m < lo as real {
      LessScaled(m, lo as real, c);
      assert false;
    }
    if m > hi as real {
      LessScaled(hi as real, m, c);
      assert false;
    }
  }

  lemma LessScaled(a: real, b: real, c: real)
    requires c > 0.0 && a < b
    ensures a * c < b * c
  {
    assert (b - a) * c > 0.0;
  }

  lemma TruncateBetween(m: real, lo: int, hi: int)
    requires lo as real <= m <= hi as real
    ensures lo <= Truncate(m) <= hi
  {}

  lemma CastProduct(a: int, count: nat)
    ensures (a * count) as real == a as real * count as real
  {}

  lemma TruncatedMean(sum: int, count: nat, lo: int, hi: int)
    requires count > 0 && lo * count <= sum <= hi * count
    ensures lo <= Truncate(sum as real / count as real) <= hi
  {
    var m := sum as real / count as real;
    MeanTimesCount(sum as real, count);
    CastProduct(lo, count);
    CastProduct(hi, count);
    RealMean(sum, count as real, m, lo, hi);
    TruncateBetween(m, lo, hi);
  }

  /** The truncated mean of memory used, and of the memory limit, stays
      between the bucket's samples. */
  lemma MemoryMeanInRange(f: Memory, key: Key, all: seq<Sample>, out: seq<Sample>, i: nat, lo: int, hi: int)
    requires Reported(key, all, out) && i < |out|
    requires forall j :: 0 <= j < |all| && key(all[j]) == Some(out[i].at) ==> lo <= MemoryOf(f, all[j]) <= hi
    ensures lo <= MemoryOf(f, out[i]) <= hi
  {
    MemoryBetween(f, key, all, out[i].at, lo, hi);
    var t := TotalAt(key, all, out[i].at);
    TruncatedMean(MemorySum(f, t), t.count, lo, hi);
  }

  // ----- where the buckets are, and how many -----

  lemma BucketBounds(since: int, until: int, res: int, t: int)
    requires res > 0 && since <= t < until
    ensures var n := (t - since) / res; BucketOf(since, res, t) == since + n * res && n >= 0 && since + n * res <= t < since + n * res + res
  {}

  /** Every bucket time is since + n * res for some n, and lies in the window. */
  lemma BucketPlace(since: int, until: int, res: int, all: seq<Sample>, out: seq<Sample>, i: nat) returns (n: nat)
    requires res > 0 && Reported(Window(since, until, res), all, out) && i < |out|
    ensures out[i].at == since + n * res && since <= out[i].at < until
  {
    var key := Window(since, until, res);
    KeyCounted(key, all, out[i].at);
    var j :| 0 <= j < |all| && key(all[j]) == Some(out[i].at);
    BucketBounds(since, until, res, all[j].at);
    n := (all[j].at - since) / res;
  }

  lemma MulKeeps(a: int, b: int, res: int)
    requires res > 0
    ensures a >= b ==> a * res >= b * res
  {
    if a >= b {
      assert (a - b) * res >= 0;
    }
  }

  lemma LessFactor(a: int, b: int, res: int)
    requires res > 0 && a * res < b * res
    ensures a < b
  {
    MulKeeps(a, b, res);
  }

  function GridTime(since: int, res: int, n: nat): int { since + n * res }

  /** A whole number of resolutions after since, inside the window. */
  ghost predicate OnGrid(since: int, until: int, res: int, t: int) { since <= t < until && exists n: nat :: t == GridTime(since, res, n) }

  ghost predicate AllOnGrid(since: int, until: int, res: int, ks: seq<int>) {
    forall i :: 0 <= i < |ks| ==> OnGrid(since, until, res, ks[i])
  }

  /** The i-th of some ascending grid times is at least i resolutions into the
      window. */
  lemma {:induction false} GridSpacing(since: int, until: int, res: int, ks: seq<int>, i: nat) returns (n: nat)
    requires res > 0 && AscendingKeys(ks) && AllOnGrid(since, until, res, ks) && i < |ks|
    ensures ks[i] == GridTime(since, res, n) < until && n >= i
  {
    var at: nat :| ks[i] == GridTime(since, res, at);
    n := at;
    if i > 0 {
      var m := GridSpacing(since, until, res, ks, i - 1);
      LessFactor(m, n, res);
    }
  }

  lemma GridBound(since: int, until: int, res: int, ks: seq<int>)
    requires res > 0 && AscendingKeys(ks) && AllOnGrid(since, until, res, ks) && ks != []
    ensures (|ks| - 1) * res < until - since
  {
    var n := GridSpacing(since, until, res, ks, |ks| - 1);
    MulKeeps(n, |ks| - 1, res);
  }

  /** Automatic resolution leaves room for at most 121 points on one grid. */
  lemma GridAutoBound(since: int, until: int, ks: seq<int>)
    requires AscendingKeys(ks) && AllOnGrid(since, until, AutoResolution(until - since, TARGET), ks)
    ensures |ks| <= TARGET + 1
  {
    var window, res := until - since, AutoResolution(until - since, TARGET);
    if ks != [] {
      GridBound(since, until, res, ks);
      if window >= 0 {
        assert window < 120 * (window / 120) + 120;
        assert window < 121 * res;
      }
      LessFactor(|ks| - 1, 121, res);
    }
  }

  lemma BucketsOnGrid(since: int, until: int, res: int, all: seq<Sample>, out: seq<Sample>)
    requires res > 0 && Reported(Window(since, until, res), all, out)
    ensures AscendingKeys(Times(out)) && AllOnGrid(since, until, res, Times(out))
  {
    forall i | 0 <= i < |out| ensures OnGrid(since, until, res, Times(out)[i]) {
      var n := BucketPlace(since, until, res, all, out, i);
      assert out[i].at == GridTime(since, res, n);
    }
  }

  /** Automatic resolution never yields more than 121 points, whatever was
      pushed. */
  lemma AutoBound(since: int, until: int, all: seq<Sample>, out: seq<Sample>)
    requires Reported(Window(since, until, AutoResolution(until - since, TARGET)), all, out)
    ensures |out| <= 121
  {
    BucketsOnGrid(since, until, AutoResolution(until - since, TARGET), all, out);
    GridAutoBound(since, until, Times(out));
  }

  /** The bucket size: never below 10 seconds; above, the largest that still
      fits the target number of times into the window. No target means 120. */
  lemma AutoResolutionExact(window: int, targetPoints: int)
    ensures var res, target := AutoResolution(window, targetPoints), if targetPoints <= 0 then 120 else targetPoints;
      && res >= 10 * SECOND
      && (window >= target * (10 * SECOND) ==> target * res <= window < target * (res + 1))
      && (window < target * (10 * SECOND) ==> res == 10 * SECOND)
  {
    var target := if targetPoints <= 0 then 120 else targetPoints;
    if window >= 0 {
      QuotientBounds(window, target);
      if window >= target * FLOOR {
        LessQuotient(window, target, FLOOR);
      } else {
        QuotientLess(window, target, FLOOR);
      }
    } else {
      QuotientBounds(-window, target);
      NegativeWindow(window, target);
    }
  }

  lemma QuotientBounds(w: int, t: int)
    requires w >= 0 && t > 0
    ensures t * (w / t) <= w < t * (w / t + 1) && w / t >= 0
  {}

  lemma LessQuotient(w: int, t: int, f: int)
    requires w >= 0 && t > 0 && w >= t * f
    ensures w / t >= f
  {
    QuotientBounds(w, t);
    if w / t < f {
      MulKeeps(f, w / t + 1, t);
      assert false;
    }
  }

  lemma QuotientLess(w: int, t: int, f: int)
    requires w >= 0 && t > 0 && w < t * f
    ensures w / t < f
  {
    QuotientBounds(w, t);
    if w / t >= f {
      MulKeeps(w / t, f, t);
      assert false;
    }
  }

  lemma NegativeWindow(w: int, t: int)
    requires w < 0 && t > 0
    ensures -((-w) / t) <= 0 && w < t * FLOOR
  {
    MulKeeps(t, 1, FLOOR);
  }

  /** Which samples count, and where: exactly those from since on and before
      until, each in the bucket that starts at most one resolution before it,
      a whole number of resolutions after since. */
  lemma WindowPlaces(since: int, until: int, res: int, s: Sample)
    requires res > 0
    ensures var b := Window(since, until, res)(s);
      && (b.Some? <==> since <= s.at < until)
      && (b.Some? ==> b.value <= s.at < b.value + res && OnGrid(since, until, res, b.value))
  {
    if since <= s.at < until {
      BucketBounds(since, until, res, s.at);
      assert BucketOf(since, res, s.at) == GridTime(since, res, (s.at - since) / res);
    }
  }

  /** Each sample in the window is counted in exactly one reported bucket, the
      one whose time span holds it. */
  lemma InOneBucket(since: int, until: int, res: int, all: seq<Sample>, out: seq<Sample>, j: nat) returns (i: nat)
    requires res > 0 && Reported(Window(since, until, res), all, out) && j < |all| && since <= all[j].at < until
    ensures i < |out| && out[i].at <= all[j].at < out[i].at + res
    ensures forall k :: 0 <= k < |out| && out[k].at <= all[j].at < out[k].at + res ==> k == i
  {
    var key := Window(since, until, res);
    WindowPlaces(since, until, res, all[j]);
    var b := key(all[j]).value;
    assert HasKey(key, all, b);
    i :| 0 <= i < |out| && out[i].at == b;
    forall k | 0 <= k < |out| && out[k].at <= all[j].at < out[k].at + res ensures k == i {
      var m := BucketPlace(since, until, res, all, out, k);
      var n := BucketPlace(since, until, res, all, out, i);
      SameBucket(since, res, m, n, all[j].at);
    }
  }

  lemma SameBucket(since: int, res: int, m: nat, n: nat, t: int)
    requires res > 0 && since + m * res <= t < since + m * res + res && since + n * res <= t < since + n * res + res
    ensures m == n
  {
    LessFactor(m, n + 1, res);
    LessFactor(n, m + 1, res);
  }

  /** The reported memory is the mean without its fraction. */
  lemma MemoryMeanExact(f: Memory, key: Key, all: seq<Sample>, out: seq<Sample>, i: nat)
    requires Reported(key, all, out) && i < |out|
    ensures var t := TotalAt(key, all, out[i].at);
      MemorySum(f, t) >= 0 ==> MemoryOf(f, out[i]) * t.count <= MemorySum(f, t) < (MemoryOf(f, out[i]) + 1) * t.count
  {
    var t := TotalAt(key, all, out[i].at);
    if MemorySum(f, t) >= 0 {
      WholeMean(MemorySum(f, t), t.count);
    }
  }

  lemma WholeMean(sum: nat, count: nat)
    requires count > 0
    ensures var n := Truncate(sum as real / count as real); n * count <= sum < (n + 1) * count
  {
    MeanTimesCount(sum as real, count);
    NonNegativeMean(sum as real, count as real);
    WholePart(sum, count, sum as real / count as real, Truncate(sum as real / count as real));
  }

  lemma WholePart(sum: nat, count: nat, m: real, n: int)
    requires count > 0 && m * count as real == sum as real && n as real <= m < n as real + 1.0
    ensures n * count <= sum < (n + 1) * count
  {
    ScaleBounds(n, m, count as real);
    CastProduct(n, count);
    CastProduct(n + 1, count);
  }

  lemma NonNegativeMean(s: real, c: real)
    requires s >= 0.0 && c > 0.0
    ensures s / c >= 0.0
  {
    var m := s / c;
    assert m * c == s;
    if m < 0.0 {
      LessScaled(m, 0.0, c);
      assert false;
    }
  }

  lemma ScaleBounds(n: int, m: real, c: real)
    requires c > 0.0 && n as real <= m < n as real + 1.0
    ensures n as real * c <= m * c < (n + 1) as real * c
  {
    LessScaled(m, n as real + 1.0, c);
    if n as real < m {
      LessScaled(n as real, m, c);
    }
  }

  /** The bound is reached: over a window one nanosecond longer than 120
      resolutions, samples one resolution apart give 121 points. */
  lemma BoundIsReached(since: int, res: int, all: seq<Sample>, out: seq<Sample>)
    requires res >= FLOOR && |all| == TARGET + 1 && forall i :: 0 <= i < |all| ==> all[i].at == since + i * res
    requires var window := TARGET * res + 1; Reported(Window(since, since + window, AutoResolution(window, TARGET)), all, out)
    ensures |out| == TARGET + 1
  {
    var window := TARGET * res + 1;
    var until := since + window;
    assert AutoResolution(window, TARGET) == res;
    AutoBound(since, until, all, out);
    forall i | 0 <= i < |all| ensures all[i].at in Times(out) {
      OnBucket(since, until, res, i);
      assert HasKey(Window(since, until, res), all, all[i].at);
      var j :| 0 <= j < |out| && out[j].at == all[i].at;
      assert Times(out)[j] == all[i].at;
    }
    ManyTimes(since, res, all, out);
  }

  lemma OnBucket(since: int, until: int, res: int, i: int)
    requires res > 0 && 0 <= i <= TARGET && until == since + TARGET * res + 1
    ensures since <= since + i * res < until && BucketOf(since, res, since + i * res) == since + i * res
  {
    MulKeeps(TARGET, i, res);
    MulKeeps(i, 0, res);
    WholeQuotient(i, res);
  }

  lemma WholeQuotient(i: int, res: int)
    requires res > 0
    ensures i * res / res == i
  {
    var q, r := i * res / res, i * res % res;
    assert (i - q) * res == r;
    SmallMultiple(i - q, res);
  }

  lemma SmallMultiple(d: int, res: int)
    requires res > 0 && 0 <= d * res < res
    ensures d == 0
  {
    LessFactor(d, 1, res);
    LessFactor(-1, d, res);
  }

  lemma ManyTimes(since: int, res: int, all: seq<Sample>, out: seq<Sample>)
    requires res > 0 && forall i :: 0 <= i < |all| ==> all[i].at == since + i * res
    requires Ascending(out) && forall i :: 0 <= i < |all| ==> all[i].at in Times(out)
    ensures |out| >= |all|
  {
    forall i, j | 0 <= i < j < |all| ensures Times(all)[i] != Times(all)[j] {
      MulKeeps(j, i + 1, res);
    }
    assert Distinct(Times(out));
    ElemsSize(Times(all));
    ElemsSize(Times(out));
    SubsetSize(Elems(Times(all)), Elems(Times(out)));
  }
}
