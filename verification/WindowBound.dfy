/** workload/metrics_streaming.go: how many points RangeMetrics may return. The
    replicas share a grid when since and until are given; where they default,
    each query has its own. */
module WindowBound {
  import opened Common
  import opened Samples
  import opened Grouping
  import opened Aggregate
  import D = Downsample

  /** Each answer is what Range reports of some retained samples over the
      window. */
  ghost predicate Answered(since: int, until: int, res: int, retained: seq<seq<Sample>>, replies: Replies)
    requires res > 0
  {
    |retained| == |replies| && forall i :: 0 <= i < |replies| && replies[i].Some? ==>
      D.Reported(D.Window(since, until, res), retained[i], replies[i].value)
  }

  /** A time of the flattened answers is a time of one of them. */
  lemma {:induction false} FlatTime(replies: Replies, k: int)
    requires HasKey(ByTime(), Flat(replies), k)
    ensures exists i :: 0 <= i < |replies| && replies[i].Some? && k in D.Times(replies[i].value)
  {
    assert replies == [] ==> Flat(replies) == [];
    if replies != [] {
      var init, last := replies[..|replies| - 1], replies[|replies| - 1];
      var j :| 0 <= j < |Flat(replies)| && Flat(replies)[j].at == k;
      if j < |Flat(init)| {
        assert Flat(init)[j].at == k;
        assert HasKey(ByTime(), Flat(init), k);
        FlatTime(init, k);
        var i :| 0 <= i < |init| && init[i].Some? && k in D.Times(init[i].value);
        assert replies[i] == init[i];
      } else {
        assert SeriesOf(last)[j - |Flat(init)|].at == k;
        assert D.Times(last.value)[j - |Flat(init)|] == k;
      }
    }
  }

  /** Over one window the aggregated points lie on one grid. */
  lemma AggregateOnGrid(since: int, until: int, res: int, retained: seq<seq<Sample>>, replies: Replies, out: seq<Aggregated>)
    requires res > 0 && Answered(since, until, res, retained, replies) && Combined(Flat(replies), out)
    ensures AscendingKeys(Times(out)) && D.AllOnGrid(since, until, res, Times(out))
  {
    forall p | 0 <= p < |out| ensures D.OnGrid(since, until, res, Times(out)[p]) {
      var k := Times(out)[p];
      assert k in Times(out);
      FlatTime(replies, k);
      var i :| 0 <= i < |replies| && replies[i].Some? && k in D.Times(replies[i].value);
      D.BucketsOnGrid(since, until, res, retained[i], replies[i].value);
      var j :| 0 <= j < |D.Times(replies[i].value)| && D.Times(replies[i].value)[j] == k;
    }
  }

  /** With since and until given and automatic resolution, a workload's series
      has at most 121 points, however many replicas answer. */
  lemma AggregateBound(since: int, until: int, retained: seq<seq<Sample>>, replies: Replies, out: seq<Aggregated>)
    requires Answered(since, until, D.AutoResolution(until - since, D.TARGET), retained, replies) && Combined(Flat(replies), out)
    ensures |out| <= 121
  {
    AggregateOnGrid(since, until, D.AutoResolution(until - since, D.TARGET), retained, replies, out);
    D.GridAutoBound(since, until, Times(out));
  }

  // ----- defaulted windows -----

  const STEP: int := 30 * D.SECOND

  /** One sample every 30 seconds of an hour. */
  ghost predicate Regular(since: int, s: seq<Sample>) { |s| == 120 && forall i :: 0 <= i < |s| ==> s[i].at == since + i * STEP }

  lemma {:induction false} OnlyOne(key: Key, s: seq<Sample>, i: nat)
    requires i < |s| && key(s[i]).Some? && forall j :: 0 <= j < |s| && j != i ==> key(s[j]) != key(s[i])
    ensures TotalAt(key, s, key(s[i]).value) == Add(ZERO, s[i])
  {
    var n, k := |s| - 1, key(s[i]).value;
    assert s == s[..n] + [s[n]];
    TotalAtSnoc(key, s[..n], s[n], k);
    if i < n {
      OnlyOne(key, s[..n], i);
    } else {
      NoKeyIsZero(key, s[..n], k);
    }
  }

  lemma MeanOfOne(x: Sample)
    ensures Add(ZERO, x).count == 1 && D.Mean(x.at, Add(ZERO, x)) == x
  {
    assert (x.memUsed as real) / 1.0 == x.memUsed as real && (x.memLimit as real) / 1.0 == x.memLimit as real;
  }

  lemma RegularKey(since: int, s: seq<Sample>, i: nat)
    requires Regular(since, s) && i < 120
    ensures D.Window(since, since + D.HOUR, STEP)(s[i]) == Some(s[i].at)
  {
    D.WholeQuotient(i, STEP);
  }

  /** Such samples report as themselves over that hour. */
  lemma RegularReports(since: int, s: seq<Sample>)
    requires Regular(since, s)
    ensures D.Reported(D.Window(since, since + D.HOUR, STEP), s, s)
  {
    var key := D.Window(since, since + D.HOUR, STEP);
    forall i | 0 <= i < |s| ensures key(s[i]) == Some(s[i].at) {
      RegularKey(since, s, i);
    }
    forall i | 0 <= i < |s| ensures TotalAt(key, s, s[i].at).count > 0 && s[i] == D.Mean(s[i].at, TotalAt(key, s, s[i].at)) {
      OnlyOne(key, s, i);
      MeanOfOne(s[i]);
    }
    forall k | HasKey(key, s, k) ensures exists i :: 0 <= i < |s| && s[i].at == k {
      var i :| 0 <= i < |s| && key(s[i]) == Some(k);
      assert s[i].at == k;
    }
  }

  lemma FlatPair(a: seq<Sample>, b: seq<Sample>)
    ensures Flat([Some(a), Some(b)]) == a + b
  {
    var two: Replies := [Some(a), Some(b)];
    assert two[..1] == [Some(a)] && two[..1][..0] == [];
    assert Flat(two[..1]) == [] + a;
  }

  lemma BothTimes(a: seq<Sample>, b: seq<Sample>, out: seq<Aggregated>)
    requires Combined(a + b, out)
    ensures Elems(D.Times(a)) + Elems(D.Times(b)) <= Elems(Times(out))
  {
    forall t | t in D.Times(a) || t in D.Times(b) ensures t in Times(out) {
      if t in D.Times(a) {
        var i :| 0 <= i < |a| && D.Times(a)[i] == t;
        assert (a + b)[i].at == t;
      } else {
        var i :| 0 <= i < |b| && D.Times(b)[i] == t;
        assert (a + b)[|a| + i].at == t;
      }
      assert HasKey(ByTime(), a + b, t);
    }
  }

  /** Two grids one nanosecond apart have no time in common. */
  lemma GridsApart(since: int, a: seq<Sample>, b: seq<Sample>)
    requires Regular(since, a) && Regular(since + 1, b)
    ensures Distinct(D.Times(a)) && Distinct(D.Times(b)) && Elems(D.Times(a)) !! Elems(D.Times(b))
  {}

  /** Where since and until default, replicas asked a nanosecond apart answer
      over different hours: two replicas with a sample every 30 seconds each
      give 120 points, and together at least 240. */
  lemma DefaultsExceedBound(since: int, a: seq<Sample>, b: seq<Sample>, out: seq<Aggregated>)
    requires Regular(since, a) && Regular(since + 1, b) && Combined(Flat([Some(a), Some(b)]), out)
    ensures D.AutoResolution(D.HOUR, D.TARGET) == STEP
    ensures D.Reported(D.Window(since, since + D.HOUR, STEP), a, a)
    ensures D.Reported(D.Window(since + 1, since + 1 + D.HOUR, STEP), b, b)
    ensures |out| >= 240
  {
    RegularReports(since, a);
    RegularReports(since + 1, b);
    FlatPair(a, b);
    BothTimes(a, b, out);
    GridsApart(since, a, b);
    var ta, tb := Elems(D.Times(a)), Elems(D.Times(b));
    ElemsSize(D.Times(a));
    ElemsSize(D.Times(b));
    assert |ta + tb| == |ta| + |tb|;
    assert Distinct(Times(out));
    ElemsSize(Times(out));
    SubsetSize(ta + tb, Elems(Times(out)));
  }
}
