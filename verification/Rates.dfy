/** metrics/service_impl.go: runPoller, turning cumulative network counters
    into per-second rates. */
module Rates {
  import opened Common
  import opened Samples
  import opened Ring

  const NANOS: real := 1_000_000_000.0

  /** A sampler's answer; a missing time is replaced by the clock's. The
      network fields of `raw` are cumulative totals. */
  datatype Reading = Failed | Read(at: Option<int>, clock: int, raw: Sample)

  /** What the poller keeps between ticks. */
  datatype Memory = Memory(prevAt: Option<int>, prevIn: real, prevOut: real)

  function Stamped(r: Reading): (s: Sample)
    requires r.Read?
    ensures r.at.Some? ==> s.at == r.at.value
    ensures r.at.None? ==> s.at == r.clock
    ensures s.cpu == r.raw.cpu && s.memUsed == r.raw.memUsed && s.memLimit == r.raw.memLimit && s.reqRate == r.raw.reqRate
    ensures s.latP95 == r.raw.latP95 && s.netIn == r.raw.netIn && s.netOut == r.raw.netOut
  {
    r.raw.(at := if r.at.Some? then r.at.value else r.clock)
  }

  /** The samples that arrived, times filled in. */
  function Arrived(rs: seq<Reading>): seq<Sample> {
    if rs == [] then []
    else
      var init, last := Arrived(rs[..|rs| - 1]), rs[|rs| - 1];
      if last.Read? then init + [Stamped(last)] else init
  }

  /** Seconds since the previous sample. */
  function Elapsed(m: Memory, x: Sample): real
    requires m.prevAt.Some?
  {
    (x.at - m.prevAt.value) as real / NANOS
  }

  predicate Advances(m: Memory, x: Sample) { m.prevAt.Some? && x.at > m.prevAt.value }

  function Positive(d: real): real { if d < 0.0 then 0.0 else d }

  /** The first sample and every sample with a later time set the baseline
      counters; a sample with an earlier or equal time moves only the time. */
  function Remember(m: Memory, x: Sample): Memory {
    if m.prevAt.None? || Advances(m, x) then Memory(Some(x.at), x.netIn, x.netOut) else m.(prevAt := Some(x.at))
  }

  function Rated(m: Memory, x: Sample): Sample {
    if m.prevAt.None? then x.(netIn := 0.0, netOut := 0.0)
    else if Advances(m, x) then
      x.(netIn := Positive(x.netIn - m.prevIn) / Elapsed(m, x), netOut := Positive(x.netOut - m.prevOut) / Elapsed(m, x))
    else x
  }

  function After(xs: seq<Sample>): Memory {
    if xs == [] then Memory(None, 0.0, 0.0) else Remember(After(xs[..|xs| - 1]), xs[|xs| - 1])
  }

  function RatedAll(xs: seq<Sample>): (out: seq<Sample>)
    ensures |out| == |xs|
  {
    if xs == [] then [] else RatedAll(xs[..|xs| - 1]) + [Rated(After(xs[..|xs| - 1]), xs[|xs| - 1])]
  }

  lemma ElapsedSign(m: Memory, x: Sample)
    requires m.prevAt.Some?
    ensures Elapsed(m, x) > 0.0 <==> Advances(m, x)
  {}

  lemma AfterSnoc(xs: seq<Sample>, x: Sample)
    ensures After(xs + [x]) == Remember(After(xs), x)
    ensures RatedAll(xs + [x]) == RatedAll(xs) + [Rated(After(xs), x)]
  {
    assert (xs + [x])[..|xs|] == xs;
  }

  lemma ArrivedNext(before: seq<Sample>, rs: seq<Reading>, i: nat)
    requires i < |rs|
    ensures before + Arrived(rs[..i]) + Arrived([rs[i]]) == before + Arrived(rs[..i + 1])
  {
    assert rs[..i + 1][..i] == rs[..i] && [rs[i]][..0] == [];
  }

  class Poller {
    const ring: RingBuffer
    var prevAt: Option<int>
    var prevIn: real
    var prevOut: real
    ghost var arrived: seq<Sample>

    ghost predicate Valid()
      reads this, ring
    {
      ring.Valid() && Memory(prevAt, prevIn, prevOut) == After(arrived) && ring.log == RatedAll(arrived)
    }

    constructor (ring: RingBuffer)
      requires ring.Valid() && ring.log == []
      ensures Valid() && arrived == [] && this.ring == ring
    {
      this.ring := ring;
      prevAt, prevIn, prevOut := None, 0.0, 0.0;
      arrived := [];
    }

    /** Derives the rates and moves the baseline. */
    method Derive(raw: Sample) returns (rated: Sample)
      modifies this`prevAt, this`prevIn, this`prevOut
      ensures var m := Memory(old(prevAt), old(prevIn), old(prevOut));
        rated == Rated(m, raw) && Memory(prevAt, prevIn, prevOut) == Remember(m, raw)
    {
      rated := raw;
      if prevAt.Some? {
        var dt := (raw.at - prevAt.value) as real / NANOS;
        ElapsedSign(Memory(prevAt, prevIn, prevOut), raw);
        if dt > 0.0 {
          var inDelta, outDelta := raw.netIn - prevIn, raw.netOut - prevOut;
          if inDelta < 0.0 {
            inDelta := 0.0;
          }
          if outDelta < 0.0 {
            outDelta := 0.0;
          }
          prevIn, prevOut := raw.netIn, raw.netOut;
          rated := rated.(netIn := inDelta / dt, netOut := outDelta / dt);
        }
      } else {
        prevIn, prevOut := raw.netIn, raw.netOut;
        rated := rated.(netIn := 0.0, netOut := 0.0);
      }
      prevAt := Some(raw.at);
    }

    method Tick(r: Reading)
      requires Valid()
      modifies this, ring
      ensures Valid() && arrived == old(arrived) + Arrived([r])
    {
      if r == Failed {
        return;
      }
      var raw := Stamped(r);
      AfterSnoc(arrived, raw);
      var rated := Derive(raw);
      ring.Push(rated);
      arrived := arrived + [raw];
    }

    /** The ticks up to cancellation. */
    method Poll(rs: seq<Reading>)
      requires Valid()
      modifies this, ring
      ensures Valid() && arrived == old(arrived) + Arrived(rs)
    {
      for i := 0 to |rs|
        invariant Valid() && arrived == old(arrived) + Arrived(rs[..i])
      {
        ArrivedNext(old(arrived), rs, i);
        Tick(rs[i]);
      }
      assert rs[..|rs|] == rs;
    }
  }

  // ----- telescoping -----

  lemma RateTimesElapsed(delta: real, dt: real)
    requires dt > 0.0
    ensures delta / dt * dt == delta
    ensures delta >= 0.0 ==> delta / dt >= 0.0
  {
    NegativeProduct(delta / dt, dt);
  }

  lemma NegativeProduct(a: real, b: real)
    requires b > 0.0
    ensures a < 0.0 ==> a * b < 0.0
  {}

  datatype Counter = Inbound | Outbound

  function Net(c: Counter, x: Sample): real { if c.Inbound? then x.netIn else x.netOut }

  function Prev(c: Counter, m: Memory): real { if c.Inbound? then m.prevIn else m.prevOut }

  /** Bytes the stored rates account for: rate times elapsed time, over the
      samples that advanced the clock. */
  function Accounted(c: Counter, xs: seq<Sample>): real {
    if xs == [] then 0.0
    else
      var init, x := xs[..|xs| - 1], xs[|xs| - 1];
      Accounted(c, init) + if Advances(After(init), x) then Net(c, Rated(After(init), x)) * Elapsed(After(init), x) else 0.0
  }

  /** Positive increments of the counter over the same samples, each against
      the baseline it replaces. */
  function Increments(c: Counter, xs: seq<Sample>): real {
    if xs == [] then 0.0
    else
      var init, x := xs[..|xs| - 1], xs[|xs| - 1];
      Increments(c, init) + if Advances(After(init), x) then Positive(Net(c, x) - Prev(c, After(init))) else 0.0
  }

  /** In every run, whatever the times: the stored rates account for exactly
      the positive increments. */
  lemma {:induction false} RatesTelescope(c: Counter, xs: seq<Sample>)
    ensures Accounted(c, xs) == Increments(c, xs)
  {
    if xs != [] {
      var init, x := xs[..|xs| - 1], xs[|xs| - 1];
      RatesTelescope(c, init);
      if Advances(After(init), x) {
        RateTimesElapsed(Positive(Net(c, x) - Prev(c, After(init))), Elapsed(After(init), x));
      }
    }
  }

  ghost predicate NoReset(c: Counter, xs: seq<Sample>) { forall i, j :: 0 <= i < j < |xs| ==> Net(c, xs[i]) <= Net(c, xs[j]) }

  /** The baseline is always a counter that was read. */
  lemma {:induction false} BaselineWasRead(xs: seq<Sample>)
    requires xs != []
    ensures After(xs).prevAt == Some(xs[|xs| - 1].at)
    ensures exists i :: 0 <= i < |xs| && xs[i].netIn == After(xs).prevIn && xs[i].netOut == After(xs).prevOut
  {
    var n := |xs| - 1;
    if n > 0 {
      BaselineWasRead(xs[..n]);
      var i :| 0 <= i < n && xs[..n][i].netIn == After(xs[..n]).prevIn && xs[..n][i].netOut == After(xs[..n]).prevOut;
      assert xs[i] == xs[..n][i];
    }
    assert xs[n] == xs[|xs| - 1];
  }

  /** With strictly increasing times the baseline is the previous sample. */
  lemma {:induction false} AscendingBaseline(xs: seq<Sample>)
    requires Ascending(xs) && xs != []
    ensures var x := xs[|xs| - 1]; After(xs) == Memory(Some(x.at), x.netIn, x.netOut)
  {
    var n := |xs| - 1;
    if n > 0 {
      AscendingBaseline(xs[..n]);
      assert xs[n - 1].at < xs[n].at;
    } else {
      assert xs[..n] == [];
    }
  }

  /** All but the network fields is stored as it was read. */
  lemma {:induction false} OthersStored(xs: seq<Sample>, i: nat)
    requires i < |xs|
    ensures var s, x := RatedAll(xs)[i], xs[i];
      s.at == x.at && s.cpu == x.cpu && s.memUsed == x.memUsed && s.memLimit == x.memLimit && s.reqRate == x.reqRate && s.latP95 == x.latP95
  {
    var n := |xs| - 1;
    if i < n {
      OthersStored(xs[..n], i);
    }
  }

  /** With strictly increasing times every stored rate is non-negative and the
      first is zero. */
  lemma {:induction false} AscendingRates(xs: seq<Sample>)
    requires Ascending(xs) && xs != []
    ensures forall i :: 0 <= i < |xs| ==> RatedAll(xs)[i].netIn >= 0.0 && RatedAll(xs)[i].netOut >= 0.0
    ensures RatedAll(xs)[0].netIn == 0.0 == RatedAll(xs)[0].netOut
    ensures forall i :: 0 <= i < |xs| ==> RatedAll(xs)[i].at == xs[i].at
  {
    var n := |xs| - 1;
    var init, x := xs[..n], xs[n];
    AfterSnoc(init, x);
    assert xs == init + [x];
    if n > 0 {
      AscendingRates(init);
      AscendingBaseline(init);
      assert init[n - 1].at < x.at;
    }
    RatedSign(After(init), x);
  }

  /** A rate is never negative where it is one. */
  lemma RatedSign(m: Memory, x: Sample)
    ensures m.prevAt.None? || Advances(m, x) ==> Rated(m, x).netIn >= 0.0 && Rated(m, x).netOut >= 0.0
    ensures Rated(m, x).at == x.at
  {
    if Advances(m, x) {
      RateTimesElapsed(Positive(x.netIn - m.prevIn), Elapsed(m, x));
      RateTimesElapsed(Positive(x.netOut - m.prevOut), Elapsed(m, x));
    }
  }

  lemma NoResetSnoc(c: Counter, xs: seq<Sample>)
    requires |xs| > 1
    ensures var n := |xs| - 1; NoReset(c, xs) <==> NoReset(c, xs[..n]) && Net(c, xs[n - 1]) <= Net(c, xs[n])
  {
    var n := |xs| - 1;
    if NoReset(c, xs[..n]) && Net(c, xs[n - 1]) <= Net(c, xs[n]) {
      forall i, j | 0 <= i < j < |xs| ensures Net(c, xs[i]) <= Net(c, xs[j]) {
        assert xs[..n][i] == xs[i];
        if j == n {
          assert Net(c, xs[..n][i]) <= Net(c, xs[..n][n - 1]);
        } else {
          assert Net(c, xs[..n][i]) <= Net(c, xs[..n][j]);
        }
      }
    }
    if NoReset(c, xs) {
      assert forall i, j :: 0 <= i < j < n ==> Net(c, xs[..n][i]) <= Net(c, xs[..n][j]);
    }
  }

  lemma {:induction false} IncrementsSpan(c: Counter, xs: seq<Sample>)
    requires xs != [] && Ascending(xs)
    ensures Increments(c, xs) >= Net(c, xs[|xs| - 1]) - Net(c, xs[0])
    ensures Increments(c, xs) == Net(c, xs[|xs| - 1]) - Net(c, xs[0]) <==> NoReset(c, xs)
  {
    var n := |xs| - 1;
    if n > 0 {
      var init := xs[..n];
      IncrementsSpan(c, init);
      AscendingBaseline(init);
      NoResetSnoc(c, xs);
      assert init[n - 1].at < xs[n].at;
    } else {
      assert xs[..n] == [];
    }
  }

  /** Increasing times: rate times elapsed time adds up to the last counter
      minus the first exactly when the counter was never reset, and to more
      otherwise. */
  lemma TrafficRecovered(c: Counter, xs: seq<Sample>)
    requires xs != [] && Ascending(xs)
    ensures Accounted(c, xs) == Net(c, xs[|xs| - 1]) - Net(c, xs[0]) <==> NoReset(c, xs)
    ensures Accounted(c, xs) >= Net(c, xs[|xs| - 1]) - Net(c, xs[0])
  {
    RatesTelescope(c, xs);
    IncrementsSpan(c, xs);
  }

  /** The limit of the above: a sample whose time does not increase is stored
      with its cumulative counters in the rate fields, so every stored rate
      equals the counter there; a later sample's rate is measured against the
      older baseline. */
  lemma StaleTimeStoresTotals(xs: seq<Sample>, x: Sample)
    requires xs != [] && x.at <= xs[|xs| - 1].at
    ensures RatedAll(xs + [x])[|xs|] == x
    ensures After(xs + [x]) == After(xs).(prevAt := Some(x.at))
  {
    BaselineWasRead(xs);
    assert (xs + [x])[..|xs|] == xs;
  }
}
