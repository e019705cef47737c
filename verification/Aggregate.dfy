/** workload/metrics_streaming.go: RangeMetrics, adding the replicas' series
    bucket by bucket. */
module Aggregate {
  import opened Common
  import opened Samples
  import opened Grouping

  datatype Aggregated = Aggregated(at: int, replicaCount: nat, cpu: real, memUsed: int, memLimit: int, netIn: real,
                                   netOut: real, reqRate: real, latP95: real)

  /** One series per replica; None where its query failed. */
  type Replies = seq<Option<seq<Sample>>>

  function ByTime(): Key { (s: Sample) => Some(s.at) }

  function SeriesOf(reply: Option<seq<Sample>>): seq<Sample> { if reply.Some? then reply.value else [] }

  function Flat(replies: Replies): seq<Sample> {
    if replies == [] then [] else Flat(replies[..|replies| - 1]) + SeriesOf(replies[|replies| - 1])
  }

  function Combine(at: int, a: Acc): Aggregated {
    Aggregated(at, a.count, a.cpu, a.memUsed, a.memLimit, a.netIn, a.netOut, a.reqRate,
               if a.latCount > 0 then a.latPositive / a.latCount as real else 0.0)
  }

  ghost predicate AscendingTimes(out: seq<Aggregated>) { forall i, j :: 0 <= i < j < |out| ==> out[i].at < out[j].at }

  function Times(out: seq<Aggregated>): seq<int> { Image(out, (x: Aggregated) => x.at) }

  ghost predicate Combined(all: seq<Sample>, out: seq<Aggregated>) {
    && AscendingTimes(out)
    && (forall k :: HasKey(ByTime(), all, k) <==> k in Times(out))
    && forall i :: 0 <= i < |out| ==> out[i] == Combine(out[i].at, TotalAt(ByTime(), all, out[i].at))
  }

  method RangeMetrics(replies: Replies) returns (out: seq<Aggregated>)
    ensures Combined(Flat(replies), out)
  {
    if |replies| == 0 {
      return [];
    }
    var key := ByTime();
    var buckets: map<int, Acc> := map[];
    for i := 0 to |replies|
      invariant Summarises(key, Flat(replies[..i]), buckets)
    {
      assert replies[..i + 1][..i] == replies[..i];
      if replies[i].None? {
        assert Flat(replies[..i]) + [] == Flat(replies[..i]);
        continue;
      }
      buckets := Accumulate(key, Flat(replies[..i]), buckets, replies[i].value);
    }
    assert replies[..|replies|] == replies;
    var ks := SortedKeys(buckets);
    out := [];
    for i := 0 to |ks|
      invariant |out| == i && forall j :: 0 <= j < i ==> out[j] == Combine(ks[j], TotalAt(key, Flat(replies), ks[j]))
    {
      out := out + [Combine(ks[i], buckets[ks[i]])];
    }
    assert Times(out) == ks;
  }

  // ----- conservation -----

  /** An aggregated sample as the sums it carries; latency is a mean, not a sum. */
  function Carried(x: Aggregated): Acc {
    Acc(x.replicaCount, x.cpu, x.memUsed, x.memLimit, x.netIn, x.netOut, x.reqRate, 0.0, 0.0, 0)
  }

  function WithoutLatency(a: Acc): Acc { a.(latP95 := 0.0, latPositive := 0.0, latCount := 0) }

  function SumCarried(out: seq<Aggregated>): Acc {
    if out == [] then ZERO else Plus(SumCarried(out[..|out| - 1]), Carried(out[|out| - 1]))
  }

  lemma {:induction false} CarriedIsTotals(all: seq<Sample>, out: seq<Aggregated>)
    requires forall i :: 0 <= i < |out| ==> out[i] == Combine(out[i].at, TotalAt(ByTime(), all, out[i].at))
    ensures SumCarried(out) == WithoutLatency(SumTotals(ByTime(), all, Times(out)))
  {
    if out != [] {
      var n := |out| - 1;
      CarriedIsTotals(all, out[..n]);
      assert Times(out) == Times(out[..n]) + [out[n].at];
      SumTotalsAppend(ByTime(), all, Times(out[..n]), out[n].at);
      var t := TotalAt(ByTime(), all, out[n].at);
      CarriedPart(out[n].at, t);
      LatencyApart(SumTotals(ByTime(), all, Times(out[..n])), t);
    }
  }

  lemma CarriedPart(at: int, a: Acc)
    ensures Carried(Combine(at, a)) == WithoutLatency(a)
  {}

  lemma LatencyApart(a: Acc, b: Acc)
    ensures Plus(WithoutLatency(a), WithoutLatency(b)) == WithoutLatency(Plus(a, b))
  {}

  /** The replicas' totals, added up. */
  function SumReplicas(replies: Replies): Acc {
    if replies == [] then ZERO
    else Plus(SumReplicas(replies[..|replies| - 1]), TotalIn(ByTime(), SeriesOf(replies[|replies| - 1])))
  }

  lemma {:induction false} FlatTotals(replies: Replies)
    ensures TotalIn(ByTime(), Flat(replies)) == SumReplicas(replies)
  {
    if replies != [] {
      var n := |replies| - 1;
      FlatTotals(replies[..n]);
      TotalInConcat(ByTime(), Flat(replies[..n]), SeriesOf(replies[n]));
    }
  }

  /** CPU, memory, network and request sums over the aggregated points equal
      the sums over every answering replica's own points, and the replica
      counts add up to the number of points. */
  lemma AggregateConserves(replies: Replies, out: seq<Aggregated>)
    requires Combined(Flat(replies), out)
    ensures SumCarried(out) == WithoutLatency(SumReplicas(replies))
  {
    CarriedIsTotals(Flat(replies), out);
    assert Distinct(Times(out));
    Conserved(ByTime(), Flat(replies), Times(out));
    FlatTotals(replies);
  }

  // ----- how many replicas a point speaks for -----

  ghost function Reporting(replies: Replies, k: int): nat {
    if replies == [] then 0
    else Reporting(replies[..|replies| - 1], k) + if HasKey(ByTime(), SeriesOf(replies[|replies| - 1]), k) then 1 else 0
  }

  lemma {:induction false} ReportingBound(replies: Replies, k: int)
    ensures Reporting(replies, k) <= |replies|
  {
    if replies != [] {
      ReportingBound(replies[..|replies| - 1], k);
    }
  }

  lemma {:induction false} OncePerSeries(s: seq<Sample>, k: int)
    requires Ascending(s)
    ensures TotalAt(ByTime(), s, k).count == if HasKey(ByTime(), s, k) then 1 else 0
  {
    if s != [] {
      var n := |s| - 1;
      OncePerSeries(s[..n], k);
      assert s == s[..n] + [s[n]];
      HasKeySnoc(ByTime(), s[..n], s[n], k);
    }
  }

  lemma TotalAtConcat(a: seq<Sample>, b: seq<Sample>, k: int)
    ensures TotalAt(ByTime(), a + b, k) == Plus(TotalAt(ByTime(), a, k), TotalAt(ByTime(), b, k))
  {
    TotalAtIsTotalIn(ByTime(), a + b, k);
    TotalAtIsTotalIn(ByTime(), a, k);
    TotalAtIsTotalIn(ByTime(), b, k);
    TotalInConcat(Only(ByTime(), k), a, b);
  }

  lemma {:induction false} CountIsReporting(replies: Replies, k: int)
    requires forall i :: 0 <= i < |replies| ==> Ascending(SeriesOf(replies[i]))
    ensures TotalAt(ByTime(), Flat(replies), k).count == Reporting(replies, k)
  {
    if replies != [] {
      var n := |replies| - 1;
      CountIsReporting(replies[..n], k);
      TotalAtConcat(Flat(replies[..n]), SeriesOf(replies[n]), k);
      OncePerSeries(SeriesOf(replies[n]), k);
    }
  }

  /** When every series is ascending, as Range returns it, a point's replica
      count is the number of replicas with a sample at that time. */
  lemma ReplicaCountExact(replies: Replies, out: seq<Aggregated>, i: nat)
    requires Combined(Flat(replies), out) && i < |out|
    requires forall j :: 0 <= j < |replies| ==> Ascending(SeriesOf(replies[j]))
    ensures out[i].replicaCount == Reporting(replies, out[i].at) <= |replies|
  {
    CountIsReporting(replies, out[i].at);
    ReportingBound(replies, out[i].at);
  }

  // ----- latency -----

  /** The latencies at one time, restricted to the positive ones. */
  lemma {:induction false} PositiveBetween(all: seq<Sample>, k: int, lo: real, hi: real)
    requires forall i :: 0 <= i < |all| && all[i].at == k && all[i].latP95 > 0.0 ==> lo <= all[i].latP95 <= hi
    ensures var t := TotalAt(ByTime(), all, k); var c := t.latCount as real; lo * c <= t.latPositive <= hi * c
  {
    if all != [] {
      PositiveBetween(all[..|all| - 1], k, lo, hi);
    }
  }

  lemma QuotientBetween(sum: real, c: real, lo: real, hi: real)
    requires c > 0.0 && lo * c <= sum <= hi * c
    ensures lo <= sum / c <= hi
  {
    var m := sum / c;
    assert m * c == sum;
    NotBelow(m, lo, c);
    NotBelow(hi, m, c);
  }

  lemma NotBelow(a: real, b: real, c: real)
    requires c > 0.0 && a * c >= b * c
    ensures a >= b
  {
    assert (b - a) * c <= 0.0;
  }

  lemma {:induction false} PositiveCounted(all: seq<Sample>, k: int)
    ensures TotalAt(ByTime(), all, k).latCount > 0 <==> exists i :: 0 <= i < |all| && all[i].at == k && all[i].latP95 > 0.0
  {
    if all != [] {
      var n := |all| - 1;
      PositiveCounted(all[..n], k);
      assert forall i :: 0 <= i < n ==> all[..n][i] == all[i];
    }
  }

  /** Latency is zero when no replica reports a positive one, and otherwise
      lies between the positive ones reported: idle replicas do not pull it
      down. */
  lemma LatencyIgnoresIdle(all: seq<Sample>, out: seq<Aggregated>, i: nat, lo: real, hi: real)
    requires Combined(all, out) && i < |out|
    requires forall j :: 0 <= j < |all| && all[j].at == out[i].at && all[j].latP95 > 0.0 ==> lo <= all[j].latP95 <= hi
    ensures if exists j :: 0 <= j < |all| && all[j].at == out[i].at && all[j].latP95 > 0.0
      then lo <= out[i].latP95 <= hi else out[i].latP95 == 0.0
  {
    PositiveCounted(all, out[i].at);
    PositiveBetween(all, out[i].at, lo, hi);
    var t := TotalAt(ByTime(), all, out[i].at);
    if t.latCount > 0 {
      QuotientBetween(t.latPositive, t.latCount as real, lo, hi);
    }
  }
}
