/** latencyStats and diffSampler: exact extremes beside a reservoir of bounded
    size. Samples are integers (microseconds of latency, units of difference). */
module Samplers {
  import opened Counting
  import opened Ranks
  import opened Reservoir
  import opened Sorting

  const CAP: nat := 1048576

  // ----- what a sampler of a stream holds

  ghost predicate InRange(at: seq<nat>, n: nat) {
    forall i :: 0 <= i < |at| ==> at[i] < n
  }

  /** The values of the stream at some positions. */
  ghost function Gather(stream: seq<int>, at: seq<nat>): (s: seq<int>)
    requires InRange(at, |stream|)
    ensures |s| == |at|
    ensures forall i :: 0 <= i < |at| ==> s[i] == stream[at[i]]
  {
    seq(|at|, i requires 0 <= i < |at| => stream[at[i]])
  }

  /** One draw below t + 1 for each item t beyond the first CAP. */
  ghost predicate Drawn(draws: seq<nat>, n: nat) {
    |draws| == (if n <= CAP then 0 else n - CAP) &&
    forall i :: 0 <= i < |draws| ==> draws[i] <= CAP + i
  }

  ghost function Sample(stream: seq<int>, draws: seq<nat>): (s: seq<int>)
    ensures |s| == if |stream| <= CAP then |stream| else CAP
  {
    KeptDistinct(CAP, |stream|, draws);
    Gather(stream, Kept(CAP, |stream|, draws))
  }

  ghost predicate Extremes(stream: seq<int>, lo: int, hi: int) {
    stream != [] ==> lo in stream && hi in stream && forall x :: x in stream ==> lo <= x <= hi
  }

  // ----- one more sample

  lemma ExtremesStep(stream: seq<int>, lo: int, hi: int, v: int)
    requires Extremes(stream, lo, hi)
    ensures Extremes(stream + [v], if stream == [] || v < lo then v else lo, if stream == [] || v > hi then v else hi)
  {
    assert v == (stream + [v])[|stream|];
    forall x | x in stream + [v] ensures x in stream || x == v {}
    forall x | x in stream ensures x in stream + [v] {}
  }

  lemma SumStep(stream: seq<int>, v: int)
    ensures Sum(stream + [v]) == Sum(stream) + v
  {
    assert (stream + [v])[..|stream|] == stream;
  }

  /** While there is room the sample is the stream so far. */
  lemma SampleAppend(stream: seq<int>, draws: seq<nat>, v: int)
    requires |stream| < CAP
    ensures Sample(stream + [v], draws) == Sample(stream, draws) + [v]
    ensures Drawn(draws, |stream|) ==> Drawn(draws, |stream| + 1)
  {
    KeptDistinct(CAP, |stream|, draws);
    var at := Kept(CAP, |stream|, draws);
    assert Kept(CAP, |stream + [v]|, draws) == at + [|stream|];
  }

  /** Afterwards the item goes to the drawn slot, if there is one. */
  lemma SampleReplace(stream: seq<int>, draws: seq<nat>, v: int, draw: nat)
    requires |stream| >= CAP && Drawn(draws, |stream|) && draw <= |stream|
    ensures Drawn(draws + [draw], |stream| + 1)
    ensures Sample(stream + [v], draws + [draw]) ==
      if draw < CAP then Sample(stream, draws)[draw := v] else Sample(stream, draws)
  {
    var n := |stream|;
    KeptDistinct(CAP, n, draws);
    KeptPrefix(CAP, n, draws, [draw]);
    assert (draws + [draw])[n - CAP] == draw;
    var at := Kept(CAP, n, draws);
    assert Kept(CAP, n + 1, draws + [draw]) == if draw < CAP then at[draw := n] else at;
  }

  /** A stream that fits is kept whole. */
  lemma {:induction false} SampleWhole(stream: seq<int>, draws: seq<nat>)
    requires |stream| <= CAP
    ensures Sample(stream, draws) == stream
  {
    if stream != [] {
      var s := stream[..|stream| - 1];
      SampleWhole(s, draws);
      SampleAppend(s, draws, stream[|stream| - 1]);
      assert stream == s + [stream[|stream| - 1]];
    }
  }

  /** The sample shows values from as many distinct stream positions as it has slots filled. */
  lemma SampleIsDistinct(stream: seq<int>, draws: seq<nat>)
    ensures |Sample(stream, draws)| == |Kept(CAP, |stream|, draws)|
    ensures forall i :: 0 <= i < |Sample(stream, draws)| ==>
      Kept(CAP, |stream|, draws)[i] < |stream| && Sample(stream, draws)[i] == stream[Kept(CAP, |stream|, draws)[i]]
    ensures forall i, j :: 0 <= i < j < |Sample(stream, draws)| ==>
      Kept(CAP, |stream|, draws)[i] != Kept(CAP, |stream|, draws)[j]
  {
    KeptDistinct(CAP, |stream|, draws);
  }

  /** A run's draws are one of the vectors counted in Reservoir. */
  lemma {:induction false} DrawnIsVector(draws: seq<nat>, n: nat)
    requires Drawn(draws, n)
    ensures draws in Vectors(CAP, n)
    decreases n
  {
    if n > CAP {
      DrawnIsVector(draws[..|draws| - 1], n - 1);
      VectorIn(CAP, n, draws);
    }
  }

  // ----- reading it

  /** The index of the quantile at per cent of a sorted sample of n. */
  function QuantileAt(n: nat, percent: nat): (i: nat)
    requires n > 0 && percent < 100
    ensures i < n && i * 100 <= percent * n < (i + 1) * 100
  {
    Clamp(percent * n / 100, n)
  }

  lemma OneMoreTimes(n: nat, x: int)
    ensures (n + 1) * x == n * x + x
  {
  }

  lemma {:induction false} SumBounds(s: seq<int>, lo: int, hi: int)
    requires forall i :: 0 <= i < |s| ==> lo <= s[i] <= hi
    ensures |s| * lo <= Sum(s) <= |s| * hi
  {
    if s != [] {
      SumBounds(s[..|s| - 1], lo, hi);
      OneMoreTimes(|s| - 1, lo);
      OneMoreTimes(|s| - 1, hi);
    }
  }

  // ----- the two samplers

  datatype LatencySummary = LatencySummary(lo: int, avg: real, p50: int, p90: int, p99: int, hi: int, n: nat)

  class LatencyStats {
    var count: nat
    var sum: int
    var min: int
    var max: int
    var reservoir: seq<int>
    ghost var stream: seq<int>
    ghost var draws: seq<nat>

    ghost predicate Valid()
      reads this
    {
      count == |stream| && sum == Sum(stream) && Extremes(stream, min, max) &&
      Drawn(draws, |stream|) && reservoir == Sample(stream, draws)
    }

    constructor ()
      ensures Valid() && stream == []
    {
      count, sum, min, max, reservoir := 0, 0, 0, 0, [];
      stream, draws := [], [];
    }

    /** One sample; draw is what the generator would return below the new
        count, and is used only when the reservoir is full. */
    method Add(v: int, draw: nat)
      requires Valid() && draw <= count
      modifies this
      ensures Valid() && stream == old(stream) + [v]
      ensures draws == if |old(stream)| < CAP then old(draws) else old(draws) + [draw]
    {
      hide Extremes, Sample, Drawn, Sum;
      ExtremesStep(stream, min, max, v);
      SumStep(stream, v);
      if count == 0 || v < min { min := v; }
      if count == 0 || v > max { max := v; }
      count := count + 1;
      sum := sum + v;
      ghost var before := stream;
      stream := stream + [v];
      if |reservoir| < CAP {
        SampleAppend(before, draws, v);
        reservoir := reservoir + [v];
        return;
      }
      SampleReplace(before, draws, v, draw);
      draws := draws + [draw];
      if draw < |reservoir| { reservoir := reservoir[draw := v]; }
    }

    /** Exact extremes, mean and count; percentiles of the sample, which is the
        whole stream while that fits. */
    method Summary() returns (r: LatencySummary)
      requires Valid()
      ensures r.n == |stream|
      ensures stream == [] ==> r == LatencySummary(0, 0.0, 0, 0, 0, 0, 0)
      ensures stream != [] ==> r.lo in stream && r.hi in stream && forall x :: x in stream ==> r.lo <= x <= r.hi
      ensures stream != [] ==> r.avg == Sum(stream) as real / |stream| as real
      ensures stream != [] ==> Ranked(reservoir, r.p50, QuantileAt(|reservoir|, 50))
      ensures stream != [] ==> Ranked(reservoir, r.p90, QuantileAt(|reservoir|, 90))
      ensures stream != [] ==> Ranked(reservoir, r.p99, QuantileAt(|reservoir|, 99))
    {
      var n := count;
      if n == 0 { return LatencySummary(0, 0.0, 0, 0, 0, 0, 0); }
      var avg := sum as real / n as real;
      var s := Sort(Id, reservoir);
      var i, j, k := QuantileAt(|s|, 50), QuantileAt(|s|, 90), QuantileAt(|s|, 99);
      SortRanks(reservoir, i);
      SortRanks(reservoir, j);
      SortRanks(reservoir, k);
      return LatencySummary(min, avg, s[i], s[j], s[k], max, n);
    }
  }

  class DiffSampler {
    var count: nat
    var min: int
    var max: int
    var reservoir: seq<int>
    ghost var stream: seq<int>
    ghost var draws: seq<nat>

    ghost predicate Valid()
      reads this
    {
      count == |stream| && Extremes(stream, min, max) &&
      Drawn(draws, |stream|) && reservoir == Sample(stream, draws)
    }

    constructor ()
      ensures Valid() && stream == []
    {
      count, min, max, reservoir := 0, 0, 0, [];
      stream, draws := [], [];
    }

    method Add(v: int, draw: nat)
      requires Valid() && draw <= count
      modifies this
      ensures Valid() && stream == old(stream) + [v]
      ensures draws == if |old(stream)| < CAP then old(draws) else old(draws) + [draw]
    {
      hide Extremes, Sample, Drawn, Sum;
      ExtremesStep(stream, min, max, v);
      if count == 0 || v < min { min := v; }
      if count == 0 || v > max { max := v; }
      count := count + 1;
      ghost var before := stream;
      stream := stream + [v];
      if |reservoir| < CAP {
        SampleAppend(before, draws, v);
        reservoir := reservoir + [v];
        return;
      }
      SampleReplace(before, draws, v, draw);
      draws := draws + [draw];
      if draw < |reservoir| { reservoir := reservoir[draw := v]; }
    }
  }

  /** Fed the same values under the same draws, the two keep the same reservoir
      and the same extremes. */
  lemma SamplersAgree(l: LatencyStats, d: DiffSampler)
    requires l.Valid() && d.Valid() && l.stream == d.stream && l.draws == d.draws
    ensures l.reservoir == d.reservoir && l.count == d.count
    ensures l.count > 0 ==> l.min == d.min && l.max == d.max
  {
  }

  /** The slots hold values from min(n, CAP) distinct positions, those that the
      run's draws leave: one of the equally likely outcomes of Reservoir. */
  lemma ReservoirIsDistinct(l: LatencyStats) returns (at: seq<nat>)
    requires l.Valid()
    ensures at == Kept(CAP, l.count, l.draws) && l.draws in Vectors(CAP, l.count)
    ensures |at| == |l.reservoir| == if l.count <= CAP then l.count else CAP
    ensures forall i :: 0 <= i < |at| ==> at[i] < l.count && l.reservoir[i] == l.stream[at[i]]
    ensures forall i, j :: 0 <= i < j < |at| ==> at[i] != at[j]
  {
    at := Kept(CAP, l.count, l.draws);
    SampleIsDistinct(l.stream, l.draws);
    DrawnIsVector(l.draws, l.count);
  }

  lemma SampleValues(stream: seq<int>, draws: seq<nat>, x: int)
    requires x in Sample(stream, draws)
    ensures x in stream
  {
    KeptDistinct(CAP, |stream|, draws);
  }

  /** What Summary reports is in order. */
  lemma SummaryIsOrdered(stream: seq<int>, draws: seq<nat>, lo: int, p50: int, p90: int, p99: int, hi: int)
    requires stream != [] && Extremes(stream, lo, hi)
    requires Ranked(Sample(stream, draws), p50, QuantileAt(|Sample(stream, draws)|, 50))
    requires Ranked(Sample(stream, draws), p90, QuantileAt(|Sample(stream, draws)|, 90))
    requires Ranked(Sample(stream, draws), p99, QuantileAt(|Sample(stream, draws)|, 99))
    ensures lo <= p50 <= p90 <= p99 <= hi
    ensures |stream| * lo <= Sum(stream) <= |stream| * hi
    ensures |stream| <= CAP ==> Ranked(stream, p50, QuantileAt(|stream|, 50))
    ensures |stream| <= CAP ==> Ranked(stream, p90, QuantileAt(|stream|, 90))
    ensures |stream| <= CAP ==> Ranked(stream, p99, QuantileAt(|stream|, 99))
  {
    var s := Sample(stream, draws);
    SampleValues(stream, draws, p50);
    SampleValues(stream, draws, p99);
    RanksAreOrdered(s, p50, QuantileAt(|s|, 50), p90, QuantileAt(|s|, 90));
    RanksAreOrdered(s, p90, QuantileAt(|s|, 90), p99, QuantileAt(|s|, 99));
    SumBounds(stream, lo, hi) by {
      forall i | 0 <= i < |stream| ensures lo <= stream[i] <= hi { assert stream[i] in stream; }
    }
    if |stream| <= CAP { SampleWhole(stream, draws); }
  }
}
