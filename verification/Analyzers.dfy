/** The sender's WindowAnalyzer and the target's stats with analyzeWindows: two
    programs for the counts of Histogram. */
module Analyzers {
  import opened Arithmetic
  import opened Counting
  import opened Histogram
  import opened Ranks
  import opened Sorting

  const SAMPLE_CAP: nat := 5000000

  /** What a bounded recorder keeps of the events it saw. */
  function Captured(events: seq<int>): seq<int> {
    if |events| <= SAMPLE_CAP then events else events[..SAMPLE_CAP]
  }

  lemma CapturedStep(events: seq<int>, t: int)
    ensures Captured(events + [t]) ==
      if |Captured(events)| < SAMPLE_CAP then Captured(events) + [t] else Captured(events)
  {
  }

  // ----- the summary as a function of the events

  datatype ThresholdHit = ThresholdHit(threshold: int, bins: nat)

  datatype Ratio = NaN | Ratio(value: real)

  datatype WindowSummary = WindowSummary(
    window: int, numBins: nat, numEvents: nat, durationSec: real, observedQps: real,
    mean: real, variance: real, fano: Ratio, max: int, p50: int, p90: int, p99: int,
    hits: seq<ThresholdHit>)

  const SECOND: real := 1000000000.0

  function Hits(h: seq<int>, thresholds: seq<int>): (r: seq<ThresholdHit>)
    ensures |r| == |thresholds|
  {
    seq(|thresholds|, i requires 0 <= i < |thresholds| => ThresholdHit(thresholds[i], Crossing(h, thresholds[i])))
  }

  function QuantileIndex(n: nat, percent: nat): (i: nat)
    requires n > 0 && percent < 100
    ensures i < n && i * 100 <= percent * (n - 1) < (i + 1) * 100
  {
    Clamp(percent * (n - 1) / 100, n)
  }

  function Mean(h: seq<int>): real
    requires h != []
  {
    Sum(h) as real / |h| as real
  }

  function Variance(h: seq<int>): real
    requires h != []
  {
    SumSq(h) as real / |h| as real - Mean(h) * Mean(h)
  }

  function Report(ts: seq<int>, window: int, thresholds: seq<int>): WindowSummary {
    if window <= 0 || ts == [] then
      WindowSummary(window, 0, 0, 0.0, 0.0, 0.0, 0.0, Ratio(0.0), 0, 0, 0, 0, [])
    else
      var h := Counts(ts, window);
      var n := |h|;
      var duration := (Last(ts) - First(ts)) as real / SECOND;
      WindowSummary(
        window, n, |ts|, duration,
        if duration > 0.0 then |ts| as real / duration else 0.0,
        Mean(h), Variance(h), if Mean(h) > 0.0 then Ratio(Variance(h) / Mean(h)) else NaN,
        Largest(h),
        Sort(Id, h)[QuantileIndex(n, 50)], Sort(Id, h)[QuantileIndex(n, 90)], Sort(Id, h)[QuantileIndex(n, 99)],
        Hits(h, thresholds))
  }

  lemma InReals(n: int, s: int, q: int)
    requires n * q >= s * s
    ensures n as real * q as real >= s as real * s as real
  {
    assert (n * q) as real == n as real * q as real && (s * s) as real == s as real * s as real;
  }

  lemma Regroup(x: real, y: real, z: real)
    ensures (x * y) * z == (x * z) * y
  {
  }

  lemma TimesMean(mean: real, a: real, b: real, m: real)
    requires mean * m == a
    ensures (b - mean * a) * m == m * b - a * a
  {
    Regroup(mean, a, m);
    assert (b - mean * a) * m == b * m - (mean * a) * m;
    assert (mean * m) * a == a * a;
  }

  lemma TimesVariance(mean: real, square: real, a: real, b: real, m: real)
    requires mean * m == a && square * m == b
    ensures (square - mean * mean) * m == b - mean * a
  {
    Regroup(mean, mean, m);
    assert (square - mean * mean) * m == square * m - (mean * mean) * m;
    assert (mean * m) * mean == a * mean;
  }

  lemma NonNegative(v: real, y: real)
    requires y > 0.0 && v * y >= 0.0
    ensures v >= 0.0
  {
    var x := v * y;
    assert v == x / y;
  }

  lemma RealVariance(m: real, a: real, b: real)
    requires m > 0.0 && m * b >= a * a
    ensures b / m - (a / m) * (a / m) >= 0.0
  {
    var mean, square := a / m, b / m;
    TimesMean(mean, a, b, m);
    NonNegative(b - mean * a, m);
    TimesVariance(mean, square, a, b, m);
    NonNegative(square - mean * mean, m);
  }

  /** In exact arithmetic the variance is never clamped. */
  lemma VarianceIsNonNegative(h: seq<int>)
    requires h != []
    ensures Variance(h) >= 0.0
  {
    CauchySchwarz(h);
    InReals(|h|, Sum(h), SumSq(h));
    RealVariance(|h| as real, Sum(h) as real, SumSq(h) as real);
  }

  // ----- filling bins

  lemma BinStep(ts: seq<int>, i: nat, first: int, window: int, n: nat, b: nat)
    requires i < |ts| && window > 0 && n > 0
    ensures BinCount(ts[..i + 1], first, window, n, b) ==
      BinCount(ts[..i], first, window, n, b) + One(b == BinOf(first, window, n, ts[i]))
  {
    assert ts[..i + 1] == ts[..i] + [ts[i]];
    NumSnoc(ts[..i], ts[i], t => InBin(first, window, n, b, t));
  }

  /** counts has the events of done in their bins. */
  ghost predicate Filled(counts: seq<int>, done: seq<int>, first: int, window: int) {
    forall b :: 0 <= b < |counts| ==> counts[b] == BinCount(done, first, window, |counts|, b)
  }

  lemma FilledStep(counts: seq<int>, ts: seq<int>, i: nat, first: int, window: int, idx: nat)
    requires i < |ts| && window > 0 && |counts| > 0
    requires Filled(counts, ts[..i], first, window) && idx == BinOf(first, window, |counts|, ts[i])
    ensures Filled(counts[idx := counts[idx] + 1], ts[..i + 1], first, window)
  {
    var after := counts[idx := counts[idx] + 1];
    forall b | 0 <= b < |after| ensures after[b] == BinCount(ts[..i + 1], first, window, |after|, b) {
      BinStep(ts, i, first, window, |counts|, b);
    }
  }

  lemma FilledStart(counts: seq<int>, first: int, window: int)
    requires forall b :: 0 <= b < |counts| ==> counts[b] == 0
    ensures Filled(counts, [], first, window)
  {
  }

  lemma CountsAt(ts: seq<int>, window: int, b: nat)
    requires ts != [] && window > 0 && b < |Counts(ts, window)|
    ensures Counts(ts, window)[b] == BinCount(ts, First(ts), window, |Counts(ts, window)|, b)
  {
  }

  /** The extent of the sorted events gives the number of bins. */
  lemma CountsLength(ts: seq<int>, sorted: seq<int>, window: int)
    requires ts != [] && window > 0 && sorted == Sort(Id, ts)
    ensures multiset(sorted) == multiset(ts) && Sorted(sorted)
    ensures sorted[0] == First(ts) && sorted[|sorted| - 1] == Last(ts) && First(ts) <= Last(ts)
    ensures |Counts(ts, window)| == Bins(Last(ts) - First(ts), window)
  {
    SortedInts(ts);
    Extent(ts);
  }

  lemma SameBin(ts: seq<int>, sorted: seq<int>, first: int, window: int, n: nat, b: nat)
    requires multiset(sorted) == multiset(ts)
    ensures BinCount(ts, first, window, n, b) == BinCount(sorted, first, window, n, b)
  {
    NumOfPermutation(ts, sorted, t => InBin(first, window, n, b, t));
  }

  /** Bins filled from the sorted events are the counts of the events. */
  lemma FilledIsCounts(counts: seq<int>, ts: seq<int>, sorted: seq<int>, window: int)
    requires ts != [] && window > 0 && multiset(sorted) == multiset(ts)
    requires |counts| == |Counts(ts, window)| && Filled(counts, sorted, First(ts), window)
    ensures counts == Counts(ts, window)
  {
    var h, first := Counts(ts, window), First(ts);
    forall b | 0 <= b < |counts| ensures counts[b] == h[b] {
      CountsAt(ts, window, b);
      SameBin(ts, sorted, first, window, |counts|, b);
    }
  }

  /** The histogram loop of Summary. */
  method FillBins(ts: seq<int>, first: int, window: int, numBins: nat) returns (counts: seq<int>)
    requires window > 0 && numBins > 0 && forall i :: 0 <= i < |ts| ==> first <= ts[i]
    ensures |counts| == numBins && Filled(counts, ts, first, window)
  {
    hide Filled;
    var bins := new int[numBins](_ => 0);
    FilledStart(bins[..], first, window);
    assert ts[..0] == [];
    for i := 0 to |ts|
      invariant Filled(bins[..], ts[..i], first, window)
    {
      var idx := (ts[i] - first) / window;
      if idx >= numBins { idx := numBins - 1; }
      FilledStep(bins[..], ts, i, first, window, idx);
      ghost var before := bins[..];
      bins[idx] := bins[idx] + 1;
      assert bins[..] == before[idx := before[idx] + 1];
    }
    assert ts[..|ts|] == ts;
    counts := bins[..];
  }

  /** The loop over the bins: sum, sum of squares and maximum. */
  method Moments(counts: seq<int>) returns (sum: int, sumSq: int, maxCnt: int)
    ensures sum == Sum(counts) && sumSq == SumSq(counts) && maxCnt == Largest(counts)
  {
    sum, sumSq, maxCnt := 0, 0, 0;
    for i := 0 to |counts|
      invariant sum == Sum(counts[..i]) && sumSq == SumSq(counts[..i]) && maxCnt == Largest(counts[..i])
    {
      assert counts[..i + 1][..i] == counts[..i];
      var c := counts[i];
      sum := sum + c;
      sumSq := sumSq + c * c;
      if c > maxCnt { maxCnt := c; }
    }
    assert counts[..|counts|] == counts;
  }

  /** The loop over the bins for one threshold. */
  method BinsOver(counts: seq<int>, threshold: int) returns (bins: nat)
    ensures bins == Crossing(counts, threshold)
  {
    bins := 0;
    for i := 0 to |counts|
      invariant bins == Crossing(counts[..i], threshold)
    {
      assert counts[..i + 1][..i] == counts[..i];
      if counts[i] >= threshold { bins := bins + 1; }
    }
    assert counts[..|counts|] == counts;
  }

  /** The loop over the thresholds. */
  method Crossings(counts: seq<int>, thresholds: seq<int>) returns (hits: seq<ThresholdHit>)
    ensures hits == Hits(counts, thresholds)
  {
    hits := [];
    for i := 0 to |thresholds|
      invariant hits == Hits(counts, thresholds[..i])
    {
      var bins := BinsOver(counts, thresholds[i]);
      hits := hits + [ThresholdHit(thresholds[i], bins)];
    }
    assert thresholds[..|thresholds|] == thresholds;
  }

  /** n windows from the first event reach its last, or are as many as there may
      be, and the last of them starts no later than that event. */
  predicate Covering(span: nat, window: int, n: int) {
    1 <= n <= 5_000_000 && (n - 1) * window <= span && (n < 5_000_000 ==> span < n * window)
  }

  /** The last bin starts within the span; unless they are as many as there may
      be, the bins cover it. */
  method SummaryBins(span: nat, window: int) returns (numBins: nat)
    requires window > 0
    ensures numBins == Bins(span, window)
    ensures Covering(span, window, numBins)
  {
    BinsMeaning(span, window);
    numBins := span / window + 1;
    if numBins < 1 { numBins := 1; }
    if numBins > MAX_BINS { numBins := MAX_BINS; }
  }

  /** The bins of the sorted snapshot. */
  method WindowCounts(ghost snapshot: seq<int>, ts: seq<int>, window: int) returns (counts: seq<int>)
    requires snapshot != [] && window > 0 && ts == Sort(Id, snapshot)
    ensures counts == Counts(snapshot, window)
  {
    CountsLength(snapshot, ts, window);
    var first, last := ts[0], ts[|ts| - 1];
    var numBins := SummaryBins(last - first, window);
    counts := FillBins(ts, first, window, numBins);
    FilledIsCounts(counts, snapshot, ts, window);
  }

  /** Mean, variance, Fano factor and maximum of the bins. */
  method Shape(counts: seq<int>) returns (mean: real, variance: real, fano: Ratio, maxCnt: int)
    requires counts != []
    ensures mean == Mean(counts) && variance == Variance(counts) && maxCnt == Largest(counts)
    ensures fano == if Mean(counts) > 0.0 then Ratio(Variance(counts) / Mean(counts)) else NaN
  {
    var sum, sumSq;
    sum, sumSq, maxCnt := Moments(counts);
    var n := |counts| as real;
    mean := sum as real / n;
    variance := sumSq as real / n - mean * mean;
    VarianceIsNonNegative(counts);
    if variance < 0.0 { variance := 0.0; }
    fano := NaN;
    if mean > 0.0 { fano := Ratio(variance / mean); }
  }

  /** Duration and observed rate. */
  method Rate(first: int, last: int, events: nat) returns (durSec: real, observedQps: real)
    ensures durSec == (last - first) as real / SECOND
    ensures observedQps == if durSec > 0.0 then events as real / durSec else 0.0
  {
    durSec := (last - first) as real / SECOND;
    observedQps := 0.0;
    if durSec > 0.0 { observedQps := events as real / durSec; }
  }

  /** Summary after the snapshot. */
  method Summarise(snapshot: seq<int>, window: int, thresholds: seq<int>) returns (r: WindowSummary)
    ensures r == Report(snapshot, window, thresholds)
  {
    if window <= 0 || |snapshot| == 0 {
      return WindowSummary(window, 0, 0, 0.0, 0.0, 0.0, 0.0, Ratio(0.0), 0, 0, 0, 0, []);
    }
    var ts := Sort(Id, snapshot);
    CountsLength(snapshot, ts, window);
    var first, last := ts[0], ts[|ts| - 1];
    var counts := WindowCounts(snapshot, ts, window);
    var numBins := |counts|;
    var mean, variance, fano, maxCnt := Shape(counts);
    var sorted := Sort(Id, counts);
    var hits := Crossings(counts, thresholds);
    var durSec, observedQps := Rate(first, last, |ts|);
    r := WindowSummary(
      window, numBins, |ts|, durSec, observedQps, mean, variance, fano, maxCnt,
      sorted[QuantileIndex(numBins, 50)], sorted[QuantileIndex(numBins, 90)], sorted[QuantileIndex(numBins, 99)], hits);
  }

  class WindowAnalyzer {
    var tsNanos: seq<int>
    var dropped: nat
    ghost var events: seq<int>

    /** It holds the first SAMPLE_CAP events and counts the rest. */
    ghost predicate Valid()
      reads this
    {
      tsNanos == Captured(events) && dropped == |events| - |tsNanos|
    }

    constructor ()
      ensures Valid() && events == []
    {
      tsNanos, dropped, events := [], 0, [];
    }

    method Record(t: int)
      requires Valid()
      modifies this
      ensures Valid() && events == old(events) + [t]
    {
      CapturedStep(events, t);
      if |tsNanos| < SAMPLE_CAP { tsNanos := tsNanos + [t]; } else { dropped := dropped + 1; }
      events := events + [t];
    }

    method Snapshot() returns (out: seq<int>)
      requires Valid()
      ensures out == Captured(events) == if |events| <= 5_000_000 then events else events[..5_000_000]
    {
      out := tsNanos;
    }

    method Summary(window: int, thresholds: seq<int>) returns (r: WindowSummary)
      requires Valid()
      ensures r == Report(Captured(events), window, thresholds)
    {
      var snapshot := Snapshot();
      r := Summarise(snapshot, window, thresholds);
    }
  }

  // ----- the target's side

  class Stats {
    var arrivalsNs: seq<int>
    var dropped: nat
    ghost var events: seq<int>

    ghost predicate Valid()
      reads this
    {
      arrivalsNs == Captured(events) && dropped == |events| - |arrivalsNs|
    }

    constructor ()
      ensures Valid() && events == []
    {
      arrivalsNs, dropped, events := [], 0, [];
    }

    method RecordArrival(t: int)
      requires Valid()
      modifies this
      ensures Valid() && events == old(events) + [t]
    {
      CapturedStep(events, t);
      if |arrivalsNs| < SAMPLE_CAP { arrivalsNs := arrivalsNs + [t]; } else { dropped := dropped + 1; }
      events := events + [t];
    }

    method Snapshot() returns (cp: seq<int>)
      requires Valid()
      ensures cp == Captured(events) == if |events| <= 5_000_000 then events else events[..5_000_000]
    {
      cp := arrivalsNs;
    }
  }

  /** Go's division of integers truncates toward zero. */
  function Truncated(x: int, y: int): int
    requires y > 0
  {
    if x < 0 then -(-x / y) else x / y
  }

  lemma DivByMore(z: nat, y: nat)
    requires y > 0
    ensures z / y >= 1 <==> z >= y
  {
    if z >= y { DivGrows(y, z, y); }
  }

  lemma TruncatedSign(x: int, y: int)
    requires y > 0
    ensures Truncated(x, y) <= -1 <==> x <= -y
    ensures x < 0 ==> Truncated(x, y) <= 0
  {
    var z := if x < 0 then -x else x;
    if x < 0 {
      DivByMore(z, y);
    } else {
      DivGrows(0, x, y);
    }
  }

  /** The bins of analyzeWindows, which may come out below 1 when the last
      arrival is before the first. */
  method TargetBins(span: int, windowNs: int) returns (numWindows: int)
    requires windowNs > 0
    ensures numWindows < 1 <==> span <= -windowNs
    ensures span > -windowNs ==> numWindows == Bins(if span < 0 then 0 else span, windowNs)
    ensures span > -windowNs ==> Covering(if span < 0 then 0 else span, windowNs, numWindows)
  {
    TruncatedSign(span, windowNs);
    BinsMeaning(if span < 0 then 0 else span, windowNs);
    numWindows := Truncated(span, windowNs) + 1;
    if numWindows > MAX_BINS { numWindows := MAX_BINS; }
  }

  /** The histogram loop of analyzeWindows. */
  method FillWindows(arrivals: seq<int>, first: int, windowNs: int, numWindows: nat) returns (counts: seq<int>)
    requires windowNs > 0 && numWindows > 0
    ensures |counts| == numWindows && Filled(counts, arrivals, first, windowNs)
  {
    var bins := new int[numWindows](_ => 0);
    FilledStart(bins[..], first, windowNs);
    assert arrivals[..0] == [];
    for i := 0 to |arrivals|
      invariant Filled(bins[..], arrivals[..i], first, windowNs)
    {
      TruncatedSign(arrivals[i] - first, windowNs);
      var idx := Truncated(arrivals[i] - first, windowNs);
      if idx < 0 { idx := 0; }
      if idx >= bins.Length { idx := bins.Length - 1; }
      FilledStep(bins[..], arrivals, i, first, windowNs, idx);
      ghost var before := bins[..];
      bins[idx] := bins[idx] + 1;
      assert bins[..] == before[idx := before[idx] + 1];
    }
    assert arrivals[..|arrivals|] == arrivals;
    counts := bins[..];
  }

  /** Its loop over the windows. */
  method ScanWindows(counts: seq<int>, threshold: int) returns (over: nat, most: int)
    ensures over == Crossing(counts, threshold) && most == Largest(counts)
  {
    over, most := 0, 0;
    for i := 0 to |counts|
      invariant over == Crossing(counts[..i], threshold) && most == Largest(counts[..i])
    {
      assert counts[..i + 1][..i] == counts[..i];
      if counts[i] >= threshold { over := over + 1; }
      if counts[i] > most { most := counts[i]; }
    }
    assert counts[..|counts|] == counts;
  }

  /** The counts of analyzeWindows for arrivals in any order: those before the
      first one fold into its bin. */
  function FoldedCounts(arrivals: seq<int>, window: int): (h: seq<int>)
    ensures arrivals != [] && window > 0 ==> |h| > 0
  {
    if arrivals == [] || window <= 0 then [] else
      var first, last := arrivals[0], arrivals[|arrivals| - 1];
      var n := Bins(if last < first then 0 else last - first, window);
      seq(n, b requires 0 <= b < n => BinCount(arrivals, first, window, n, b))
  }

  /** Allocating or indexing the bins fails at run time. */
  predicate Fails(arrivals: seq<int>, window: int) {
    arrivals != [] && window > 0 && arrivals[|arrivals| - 1] + window <= arrivals[0]
  }

  datatype Analysis = Failure | Windows(numWindows: nat, observedBurstWindows: nat, maxInWindow: int)

  method AnalyzeWindows(arrivals: seq<int>, window: int, threshold: int) returns (r: Analysis)
    ensures r.Failure? <==> Fails(arrivals, window)
    ensures var h := FoldedCounts(arrivals, window);
      r.Windows? ==> r == Windows(|h|, Crossing(h, threshold), Largest(h))
    ensures r.Windows? && arrivals != [] && window > 0 ==>
      var span := arrivals[|arrivals| - 1] - arrivals[0];
      Covering(if span < 0 then 0 else span, window, r.numWindows)
  {
    if |arrivals| == 0 || window <= 0 { return Windows(0, 0, 0); }
    var first, last := arrivals[0], arrivals[|arrivals| - 1];
    var numWindows := TargetBins(last - first, window);
    if numWindows < 1 { return Failure; }
    var counts := FillWindows(arrivals, first, window, numWindows);
    assert counts == FoldedCounts(arrivals, window);
    var over, most := ScanWindows(counts, threshold);
    return Windows(numWindows, over, most);
  }

  /** No arrival is lost, whatever the order. */
  lemma FoldedCountsSum(arrivals: seq<int>, window: int)
    requires arrivals != [] && window > 0
    ensures Sum(FoldedCounts(arrivals, window)) == |arrivals|
  {
    var h := FoldedCounts(arrivals, window);
    SumIsBelow(arrivals, arrivals[0], window, |h|, h);
    BelowAll(arrivals, arrivals[0], window, |h|);
  }

  lemma FoldedAt(arrivals: seq<int>, window: int, b: nat)
    requires arrivals != [] && window > 0 && b < |FoldedCounts(arrivals, window)|
    ensures FoldedCounts(arrivals, window)[b] ==
      BinCount(arrivals, arrivals[0], window, |FoldedCounts(arrivals, window)|, b)
  {
  }

  lemma FoldedBin(first: int, window: int, n: nat, b: nat, t: int)
    requires window > 0 && b < n
    ensures InBin(first, window, n, b, t) <==>
      (b == 0 || first + b * window <= t) && (b + 1 == n || t < first + (b + 1) * window)
  {
    Wider(b + 1, b + 1, window);
    if first <= t {
      BinIsInterval(first, window, n, b, t);
      MulGrows(window, 0, b);
    } else {
      MulGrows(window, 0, b);
      MulGrows(window, 1, b + 1);
    }
  }

  /** Window b counts its own interval, the first window also all before it and
      the last all after it. */
  lemma FoldedMeaning(arrivals: seq<int>, window: int, b: nat)
    requires arrivals != [] && window > 0 && b < |FoldedCounts(arrivals, window)|
    ensures var first, n := arrivals[0], |FoldedCounts(arrivals, window)|;
      FoldedCounts(arrivals, window)[b] == Num(arrivals, t =>
        (b == 0 || first + b * window <= t) && (b + 1 == n || t < first + (b + 1) * window))
  {
    var first, n := arrivals[0], |FoldedCounts(arrivals, window)|;
    FoldedAt(arrivals, window, b);
    forall i | 0 <= i < |arrivals|
      ensures InBin(first, window, n, b, arrivals[i]) <==>
        (b == 0 || first + b * window <= arrivals[i]) && (b + 1 == n || arrivals[i] < first + (b + 1) * window)
    {
      FoldedBin(first, window, n, b, arrivals[i]);
    }
    NumAgree(arrivals, t => InBin(first, window, n, b, t), t =>
      (b == 0 || first + b * window <= t) && (b + 1 == n || t < first + (b + 1) * window));
  }

  lemma SameCounts(arrivals: seq<int>, window: int, f: seq<int>, h: seq<int>)
    requires arrivals != [] && window > 0 && arrivals[0] == First(arrivals) && |f| == |h|
    requires f == FoldedCounts(arrivals, window) && h == Counts(arrivals, window)
    ensures f == h
  {
    forall b | 0 <= b < |h| ensures f[b] == h[b] {
      FoldedAt(arrivals, window, b);
      CountsAt(arrivals, window, b);
    }
  }

  /** Sorted arrivals never fail and are counted as the events are. */
  lemma FoldedOfSorted(arrivals: seq<int>, window: int)
    requires Sorted(arrivals)
    ensures !Fails(arrivals, window) && FoldedCounts(arrivals, window) == Counts(arrivals, window)
  {
    if arrivals != [] && window > 0 {
      SortedIntsUnique(arrivals, arrivals);
      CountsLength(arrivals, arrivals, window);
      SameCounts(arrivals, window, FoldedCounts(arrivals, window), Counts(arrivals, window));
    }
  }

  // ----- the two agree, and what they report

  /** printSummary sorts its snapshot and then analyzes it. */
  method AnalyzeSnapshot(snapshot: seq<int>, window: int, threshold: int) returns (r: Analysis)
    ensures var h := Counts(snapshot, window); r == Windows(|h|, Crossing(h, threshold), Largest(h))
  {
    var arrivals := Sort(Id, snapshot);
    SortedInts(snapshot);
    CountsOfPermutation(arrivals, snapshot, window);
    FoldedOfSorted(arrivals, window);
    r := AnalyzeWindows(arrivals, window, threshold);
  }

  /** The summary has, of the same events in any order, what analyzeWindows
      finds: the bins, the largest, and the bins over each threshold. */
  lemma TwoHistograms(sent: seq<int>, received: seq<int>, window: int, thresholds: seq<int>)
    requires multiset(sent) == multiset(received)
    ensures var r, h := Report(sent, window, thresholds), Counts(received, window);
      r.numBins == |h| && r.max == Largest(h) && (h != [] ==> |r.hits| == |thresholds|)
    ensures var r, h := Report(sent, window, thresholds), Counts(received, window);
      forall k :: 0 <= k < |r.hits| ==> r.hits[k] == ThresholdHit(thresholds[k], Crossing(h, thresholds[k]))
  {
    CountsOfPermutation(sent, received, window);
  }

  /** The order in which events were recorded does not matter. */
  lemma ReportOfPermutation(a: seq<int>, b: seq<int>, window: int, thresholds: seq<int>)
    requires multiset(a) == multiset(b)
    ensures Report(a, window, thresholds) == Report(b, window, thresholds)
  {
    SameBagSameLength(a, b);
    SortOfPermutation(a, b);
    CountsOfPermutation(a, b, window);
  }

  /** What holds of every summary of some events. */
  ghost predicate Consistent(r: WindowSummary, h: seq<int>, events: nat) {
    Sum(h) == events == r.numEvents && |h| == r.numBins &&
    r.p50 <= r.p90 <= r.p99 <= r.max && r.variance >= 0.0 && r.fano.Ratio? && r.max > 0
  }

  lemma {:induction false} AllZero(h: seq<int>)
    ensures Largest(h) == 0 ==> Sum(h) <= 0
  {
    if h != [] { AllZero(h[..|h| - 1]); }
  }

  lemma SomeEvent(h: seq<int>)
    requires Sum(h) > 0 && h != []
    ensures Mean(h) > 0.0 && Largest(h) > 0
  {
    AllZero(h);
  }

  lemma InOrder(s: seq<int>, i: nat, j: nat)
    requires Sorted(s) && i <= j < |s|
    ensures s[i] <= s[j]
  {
  }

  lemma WithinLargest(h: seq<int>, s: seq<int>, i: nat)
    requires multiset(s) == multiset(h) && i < |s| && forall b :: 0 <= b < |h| ==> h[b] >= 0
    ensures s[i] <= Largest(h)
  {
    LargestMeaning(h);
    SameElements(s, h, s[i]);
  }

  lemma QuantilesAscend(n: nat)
    requires n > 0
    ensures QuantileIndex(n, 50) <= QuantileIndex(n, 90) <= QuantileIndex(n, 99)
  {
  }

  lemma QuantilesInOrder(h: seq<int>)
    requires h != [] && forall b :: 0 <= b < |h| ==> h[b] >= 0
    ensures var s, n := Sort(Id, h), |h|;
      s[QuantileIndex(n, 50)] <= s[QuantileIndex(n, 90)] <= s[QuantileIndex(n, 99)] <= Largest(h)
  {
    var s, n := Sort(Id, h), |h|;
    SortedInts(h);
    QuantilesAscend(n);
    InOrder(s, QuantileIndex(n, 50), QuantileIndex(n, 90));
    InOrder(s, QuantileIndex(n, 90), QuantileIndex(n, 99));
    WithinLargest(h, s, QuantileIndex(n, 99));
  }

  lemma ReportIsConsistent(ts: seq<int>, window: int, thresholds: seq<int>)
    requires ts != [] && window > 0
    ensures Consistent(Report(ts, window, thresholds), Counts(ts, window), |ts|)
    ensures forall k :: 0 <= k < |thresholds| ==>
      thresholds[k] * Report(ts, window, thresholds).hits[k].bins <= |ts|
  {
    var h := Counts(ts, window);
    CountsSumToEvents(ts, window);
    QuantilesInOrder(h);
    VarianceIsNonNegative(h);
    SomeEvent(h);
    forall k | 0 <= k < |thresholds| ensures thresholds[k] * Crossing(h, thresholds[k]) <= |ts| {
      ThresholdBound(h, thresholds[k]);
    }
  }

  /** Each reported quantile has its rank among the bin counts. */
  lemma QuantileMeaning(ts: seq<int>, window: int, thresholds: seq<int>)
    requires ts != [] && window > 0
    ensures var r, h := Report(ts, window, thresholds), Counts(ts, window);
      Ranked(h, r.p50, QuantileIndex(|h|, 50)) && Ranked(h, r.p90, QuantileIndex(|h|, 90)) &&
      Ranked(h, r.p99, QuantileIndex(|h|, 99))
  {
    var h := Counts(ts, window);
    SortRanks(h, QuantileIndex(|h|, 50));
    SortRanks(h, QuantileIndex(|h|, 90));
    SortRanks(h, QuantileIndex(|h|, 99));
  }

  // ----- the figures of the report

  /** The sum of the squared distances of the counts from x. */
  function Scatter(h: seq<int>, x: real): real {
    if h == [] then 0.0
    else Scatter(h[..|h| - 1], x) + (h[|h| - 1] as real - x) * (h[|h| - 1] as real - x)
  }

  lemma Square(c: int, x: real)
    ensures (c as real - x) * (c as real - x) == (c * c) as real - 2.0 * x * c as real + x * x
  {
    assert (c * c) as real == c as real * c as real;
  }

  lemma ScatterStep(q: real, s: real, n: real, c: real, cc: real, x: real)
    ensures (q - 2.0 * x * s + n * x * x) + (cc - 2.0 * x * c + x * x) ==
      (q + cc) - 2.0 * x * (s + c) + (n + 1.0) * x * x
  {
    assert 2.0 * x * (s + c) == 2.0 * x * s + 2.0 * x * c;
    assert (n + 1.0) * x * x == n * x * x + x * x;
  }

  lemma {:induction false} ScatterIs(h: seq<int>, x: real)
    ensures Scatter(h, x) == SumSq(h) as real - 2.0 * x * Sum(h) as real + |h| as real * x * x
  {
    if h != [] {
      var t, c := h[..|h| - 1], h[|h| - 1];
      ScatterIs(t, x);
      Square(c, x);
      ScatterStep(SumSq(t) as real, Sum(t) as real, |t| as real, c as real, (c * c) as real, x);
    }
  }

  lemma Centred(n: real, s: real, q: real, m: real, v: real)
    requires n > 0.0 && m == s / n && v == q / n - m * m
    ensures n * m == s && n * v == q - 2.0 * m * s + n * m * m
  {
    assert n * m == s;
    assert n * (q / n) == q;
    assert n * v == n * (q / n) - n * (m * m);
    assert m * s == m * (n * m) == n * m * m;
  }

  lemma MeanAndVarianceAre(h: seq<int>)
    requires h != []
    ensures Mean(h) == Sum(h) as real / |h| as real
    ensures Variance(h) == SumSq(h) as real / |h| as real - Mean(h) * Mean(h)
  {
  }

  /** The counts sum to bins times the mean, and their squared distances from it
      to bins times the variance. */
  lemma MeanAndVariance(h: seq<int>)
    requires h != []
    ensures |h| as real * Mean(h) == Sum(h) as real
    ensures |h| as real * Variance(h) == Scatter(h, Mean(h))
  {
    hide Mean, Variance, Sum, SumSq, Scatter;
    MeanAndVarianceAre(h);
    Centred(|h| as real, Sum(h) as real, SumSq(h) as real, Mean(h), Variance(h));
    ScatterIs(h, Mean(h));
  }

  lemma DivideBack(n: real, d: real)
    requires d > 0.0
    ensures (n / d) * d == n
  {
  }

  lemma ReportParts(ts: seq<int>, window: int, thresholds: seq<int>)
    requires window > 0 && ts != []
    ensures var r, h := Report(ts, window, thresholds), Counts(ts, window);
      r.numBins == |h| && r.numEvents == |ts| && r.mean == Mean(h) && r.variance == Variance(h) &&
      r.fano == (if Mean(h) > 0.0 then Ratio(Variance(h) / Mean(h)) else NaN)
  {
    hide Mean, Variance, Largest, Hits, Counts, First, Last;
  }

  /** The report of events from first to last has bins that cover them and all
      of the events. */
  lemma ReportExtent(ts: seq<int>, window: int, thresholds: seq<int>, first: int, last: int)
    requires window > 0
    requires first in ts && last in ts && forall t :: t in ts ==> first <= t <= last
    ensures var r := Report(ts, window, thresholds);
      Covering(last - first, window, r.numBins) && r.numBins == |Counts(ts, window)| &&
      r.numEvents == |ts| == Sum(Counts(ts, window))
  {
    hide Report, Sum, Bins, First, Last;
    ReportParts(ts, window, thresholds);
    OnlyExtent(ts, first, last);
    BinsMeaning(last - first, window);
    CountsSumToEvents(ts, window);
  }

  /** It gives the duration in seconds and the number of events over it. */
  lemma ReportRate(ts: seq<int>, window: int, thresholds: seq<int>, first: int, last: int)
    requires window > 0
    requires first in ts && last in ts && forall t :: t in ts ==> first <= t <= last
    ensures Report(ts, window, thresholds).durationSec * 1000000000.0 == (last - first) as real
    ensures last > first ==>
      Report(ts, window, thresholds).observedQps * Report(ts, window, thresholds).durationSec == |ts| as real
    ensures last == first ==> Report(ts, window, thresholds).observedQps == 0.0
  {
    hide Mean, Variance, Largest, Hits, Sum, Counts, First, Last;
    OnlyExtent(ts, first, last);
    var duration := (last - first) as real / SECOND;
    assert duration * SECOND == (last - first) as real;
    if last > first { DivideBack(|ts| as real, duration); }
  }

  /** Bins times the mean is the number of events, bins times the variance the
      scatter about the mean, and the Fano factor times the mean the variance. */
  lemma ReportFigures(ts: seq<int>, window: int, thresholds: seq<int>)
    requires window > 0 && ts != []
    ensures var r, h := Report(ts, window, thresholds), Counts(ts, window);
      |h| as real * r.mean == |ts| as real && |h| as real * r.variance == Scatter(h, r.mean) &&
      r.fano.Ratio? && r.fano.value * r.mean == r.variance
  {
    hide Report, Mean, Variance, Sum, Scatter, Counts;
    ReportParts(ts, window, thresholds);
    var h := Counts(ts, window);
    CountsSumToEvents(ts, window);
    SomeEvent(h);
    MeanAndVariance(h);
    DivideBack(Variance(h), Mean(h));
  }

  /** For each threshold it has the number of bins that reach it. */
  lemma ReportHits(ts: seq<int>, window: int, thresholds: seq<int>)
    requires window > 0 && ts != []
    ensures var r, h := Report(ts, window, thresholds), Counts(ts, window);
      |r.hits| == |thresholds| && forall k :: 0 <= k < |thresholds| ==>
        r.hits[k].threshold == thresholds[k] &&
        r.hits[k].bins == |set b | 0 <= b < |h| && h[b] >= thresholds[k]|
  {
    hide Mean, Variance, Largest, Crossing, Counts;
    forall k | 0 <= k < |thresholds| {
      CrossingIsSize(Counts(ts, window), thresholds[k]);
    }
  }
}
