/** Counting events in windows of fixed width: what both analyzers compute. */
module Histogram {
  import opened Counting
  import opened Ranks
  import opened Sorting

  const MAX_BINS: nat := 5000000

  function First(ts: seq<int>): int
    requires ts != []
  {
    Sort(Id, ts)[0]
  }

  function Last(ts: seq<int>): int
    requires ts != []
  {
    Sort(Id, ts)[|ts| - 1]
  }

  /** First and Last are the extent of the events. */
  lemma Extent(ts: seq<int>)
    requires ts != []
    ensures First(ts) in ts && Last(ts) in ts
    ensures forall t :: t in ts ==> First(ts) <= t <= Last(ts)
  {
    var r := Sort(Id, ts);
    SortedInts(ts);
    SameElements(r, ts, r[0]);
    SameElements(r, ts, r[|ts| - 1]);
    forall t | t in ts ensures r[0] <= t <= r[|ts| - 1] {
      SameElements(ts, r, t);
    }
  }

  function Bins(span: nat, window: int): (n: nat)
    requires window > 0
    ensures 1 <= n <= MAX_BINS
  {
    var n := span / window + 1;
    if n > MAX_BINS then MAX_BINS else n
  }

  /** Past the last bin, events fold into it, and into the first those that
      come before first. */
  function BinOf(first: int, window: int, n: nat, t: int): (b: nat)
    requires window > 0 && n > 0
    ensures b < n
  {
    if t < first then 0 else Clamp((t - first) / window, n)
  }

  predicate InBin(first: int, window: int, n: nat, b: nat, t: int) {
    window > 0 && n > 0 && BinOf(first, window, n, t) == b
  }

  function BinCount(ts: seq<int>, first: int, window: int, n: nat, b: nat): (c: nat) {
    Num(ts, t => InBin(first, window, n, b, t))
  }

  /** The counts of all bins; none for no events or no window. */
  function Counts(ts: seq<int>, window: int): (h: seq<int>)
    ensures ts != [] && window > 0 ==> |h| > 0
    ensures forall b :: 0 <= b < |h| ==> h[b] >= 0
  {
    if ts == [] || window <= 0 then [] else
      Extent(ts);
      var n := Bins(Last(ts) - First(ts), window);
      seq(n, b requires 0 <= b < n => BinCount(ts, First(ts), window, n, b))
  }

  // ----- what the counts mean

  lemma Wider(a: nat, b: nat, w: nat)
    requires a <= b
    ensures a * w <= b * w
    ensures a > 0 ==> (a - 1) * w + w == a * w
  {
  }

  lemma Quotient(x: nat, w: nat, b: nat)
    requires w > 0
    ensures x / w == b <==> b * w <= x < b * w + w
    ensures x / w >= b <==> b * w <= x
  {
    var q, r := x / w, x % w;
    assert x == q * w + r;
    if q < b { Wider(q + 1, b, w); }
    if q > b { Wider(b + 1, q, w); }
    if q == b { assert q * w == b * w; }
  }

  /** The interval of bin b, which for the last bin is open. */
  predicate InInterval(first: int, window: int, n: nat, b: nat, t: int) {
    first + b * window <= t && (b + 1 < n ==> t < first + b * window + window)
  }

  lemma BinIsInterval(first: int, window: int, n: nat, b: nat, t: int)
    requires window > 0 && b < n && first <= t
    ensures InBin(first, window, n, b, t) <==> InInterval(first, window, n, b, t)
  {
    var x: nat := t - first;
    Quotient(x, window, b);
    if x / window >= n {
      Quotient(x, window, n);
      Wider(b + 1, n, window);
    }
  }

  /** Bin b holds the events of [first + b * window, first + (b + 1) * window),
      the last bin all from its start on. */
  lemma CountMeaning(ts: seq<int>, window: int, b: nat)
    requires ts != [] && window > 0 && b < |Counts(ts, window)|
    ensures Counts(ts, window)[b] == Num(ts, t => InInterval(First(ts), window, |Counts(ts, window)|, b, t))
  {
    var n, first := |Counts(ts, window)|, First(ts);
    Extent(ts);
    forall i | 0 <= i < |ts|
      ensures InBin(first, window, n, b, ts[i]) <==> InInterval(first, window, n, b, ts[i])
    {
      assert ts[i] in ts;
      BinIsInterval(first, window, n, b, ts[i]);
    }
    NumAgree(ts, t => InBin(first, window, n, b, t), t => InInterval(first, window, n, b, t));
  }

  /** The last bin starts within the span, and unless there are as many bins as
      there may be, the bins cover it. */
  lemma BinsMeaning(span: nat, window: int)
    requires window > 0
    ensures 1 <= Bins(span, window) <= 5_000_000
    ensures (Bins(span, window) - 1) * window <= span
    ensures Bins(span, window) < 5_000_000 ==> span < Bins(span, window) * window
  {
    var q := span / window;
    Quotient(span, window, q);
    Wider(q + 1, q + 1, window);
    Wider(Bins(span, window) - 1, q, window);
  }

  lemma OnlyExtent(ts: seq<int>, first: int, last: int)
    requires first in ts && last in ts && forall t :: t in ts ==> first <= t <= last
    ensures First(ts) == first && Last(ts) == last
  {
    Extent(ts);
  }

  /** Where the bins cover the events the last bin is a window like the others. */
  lemma OwnWindow(first: int, last: int, window: int, n: nat, b: nat, t: int)
    requires window > 0 && b < n && last - first < n * window && t <= last
    ensures InInterval(first, window, n, b, t) <==> first + b * window <= t < first + (b + 1) * window
  {
    Wider(b + 1, n, window);
  }

  /** The bins of events from first to last: how many, and, unless there are as
      many as there may be, that each counts exactly its own window. */
  lemma CountsOfExtent(ts: seq<int>, window: int, first: int, last: int)
    requires window > 0
    requires first in ts && last in ts && forall t :: t in ts ==> first <= t <= last
    ensures var n := |Counts(ts, window)|;
      1 <= n <= 5_000_000 && (n - 1) * window <= last - first && (n < 5_000_000 ==> last - first < n * window)
    ensures |Counts(ts, window)| < 5_000_000 ==> forall b :: 0 <= b < |Counts(ts, window)| ==>
      Counts(ts, window)[b] == Num(ts, t => first + b * window <= t < first + (b + 1) * window)
  {
    OnlyExtent(ts, first, last);
    BinsMeaning(last - first, window);
    var n := |Counts(ts, window)|;
    if n < 5_000_000 {
      forall b | 0 <= b < n
        ensures Counts(ts, window)[b] == Num(ts, t => first + b * window <= t < first + (b + 1) * window)
      {
        CountMeaning(ts, window, b);
        forall i | 0 <= i < |ts|
          ensures InInterval(first, window, n, b, ts[i]) <==>
            first + b * window <= ts[i] < first + (b + 1) * window
        {
          assert ts[i] in ts;
          OwnWindow(first, last, window, n, b, ts[i]);
        }
        NumAgree(ts, t => InInterval(first, window, n, b, t),
                 t => first + b * window <= t < first + (b + 1) * window);
      }
    }
  }

  lemma SortOfPermutation(a: seq<int>, b: seq<int>)
    requires multiset(a) == multiset(b)
    ensures Sort(Id, a) == Sort(Id, b)
  {
    SortedInts(a);
    SortedIntsUnique(Sort(Id, a), b);
  }

  /** The order of the events does not matter. */
  lemma CountsOfPermutation(a: seq<int>, b: seq<int>, window: int)
    requires multiset(a) == multiset(b)
    ensures Counts(a, window) == Counts(b, window)
  {
    SameBagSameLength(a, b);
    if a != [] && window > 0 {
      SortOfPermutation(a, b);
      var n, first := |Counts(a, window)|, First(a);
      forall i | 0 <= i < n ensures Counts(a, window)[i] == Counts(b, window)[i] {
        NumOfPermutation(a, b, t => InBin(first, window, n, i, t));
      }
    }
  }

  // ----- statistics of the counts

  function SumSq(h: seq<int>): int {
    if h == [] then 0 else SumSq(h[..|h| - 1]) + h[|h| - 1] * h[|h| - 1]
  }

  function Largest(h: seq<int>): (m: int)
    ensures m >= 0
  {
    if h == [] then 0 else
      var m := Largest(h[..|h| - 1]);
      if h[|h| - 1] > m then h[|h| - 1] else m
  }

  function Crossing(h: seq<int>, threshold: int): nat {
    Num(h, c => c >= threshold)
  }

  /** The bins that reach a threshold, each counted once. */
  lemma CrossingIsSize(h: seq<int>, threshold: int)
    ensures Crossing(h, threshold) == |set i | 0 <= i < |h| && h[i] >= threshold|
  {
    NumIsSize(h, c => c >= threshold);
    assert Where(h, c => c >= threshold) == set i | 0 <= i < |h| && h[i] >= threshold;
  }

  lemma {:induction false} LargestMeaning(h: seq<int>)
    requires forall i :: 0 <= i < |h| ==> h[i] >= 0
    ensures forall i :: 0 <= i < |h| ==> h[i] <= Largest(h)
    ensures h != [] ==> Largest(h) in h
  {
    if h != [] {
      var t := h[..|h| - 1];
      LargestMeaning(t);
      if t != [] && Largest(h) == Largest(t) {
        var i :| 0 <= i < |t| && t[i] == Largest(t);
        assert h[i] == Largest(h);
      }
    }
  }

  /** How many of the first n bins' counts sum to: the events in them. */
  function Below(ts: seq<int>, first: int, window: int, n: nat, m: nat): nat {
    if m == 0 then 0 else Below(ts, first, window, n, m - 1) + BinCount(ts, first, window, n, m - 1)
  }

  lemma {:induction false} BelowSnoc(ts: seq<int>, t: int, first: int, window: int, n: nat, m: nat)
    requires window > 0 && n > 0
    ensures Below(ts + [t], first, window, n, m) == Below(ts, first, window, n, m) + One(BinOf(first, window, n, t) < m)
  {
    if m > 0 {
      BelowSnoc(ts, t, first, window, n, m - 1);
      NumSnoc(ts, t, x => InBin(first, window, n, m - 1, x));
    }
  }

  lemma {:induction false} BelowNone(first: int, window: int, n: nat, m: nat)
    ensures Below([], first, window, n, m) == 0
  {
    if m > 0 { BelowNone(first, window, n, m - 1); }
  }

  lemma {:induction false} BelowAll(ts: seq<int>, first: int, window: int, n: nat)
    requires window > 0 && n > 0
    ensures Below(ts, first, window, n, n) == |ts|
  {
    if ts == [] {
      BelowNone(first, window, n, n);
    } else {
      var s, t := ts[..|ts| - 1], ts[|ts| - 1];
      BelowAll(s, first, window, n);
      BelowSnoc(s, t, first, window, n, n);
      assert ts == s + [t];
    }
  }

  lemma {:induction false} SumIsBelow(ts: seq<int>, first: int, window: int, n: nat, h: seq<int>)
    requires forall b :: 0 <= b < |h| ==> h[b] == BinCount(ts, first, window, n, b)
    ensures Sum(h) == Below(ts, first, window, n, |h|)
  {
    if h != [] { SumIsBelow(ts, first, window, n, h[..|h| - 1]); }
  }

  /** Every event is in exactly one bin, clamped or not. */
  lemma CountsSumToEvents(ts: seq<int>, window: int)
    requires ts != [] && window > 0
    ensures Sum(Counts(ts, window)) == |ts|
  {
    var h, first := Counts(ts, window), First(ts);
    SumIsBelow(ts, first, window, |h|, h);
    BelowAll(ts, first, window, |h|);
  }

  /** Bins over a threshold hold at least that many events each. */
  lemma {:induction false} ThresholdBound(h: seq<int>, threshold: int)
    requires forall i :: 0 <= i < |h| ==> h[i] >= 0
    ensures threshold * Crossing(h, threshold) <= Sum(h)
  {
    if h != [] {
      var t := h[..|h| - 1];
      ThresholdBound(t, threshold);
      var k := Crossing(t, threshold);
      assert threshold * (k + 1) == threshold * k + threshold;
    }
  }

  /** Some bin crosses a threshold exactly if the largest does. */
  lemma CrossingMeaning(h: seq<int>, threshold: int)
    requires h != [] && forall i :: 0 <= i < |h| ==> h[i] >= 0
    ensures Crossing(h, threshold) > 0 <==> Largest(h) >= threshold
  {
    LargestMeaning(h);
    if Largest(h) >= threshold {
      var i :| 0 <= i < |h| && h[i] == Largest(h);
      NumSome(h, c => c >= threshold, i);
    } else {
      NumNone(h, c => c >= threshold);
    }
  }

  /** The sum of the squared distances from c. */
  function Spread(h: seq<int>, c: int): (d: int) {
    if h == [] then 0 else Spread(h[..|h| - 1], c) + (h[|h| - 1] - c) * (h[|h| - 1] - c)
  }

  lemma SquareOfDifference(x: int, c: int)
    ensures (x - c) * (x - c) == x * x - 2 * c * x + c * c >= 0
  {
  }

  lemma Distribute(c: int, s: int, x: int, n: nat)
    ensures 2 * c * (s + x) == 2 * c * s + 2 * c * x
    ensures (n + 1) * c * c == n * c * c + c * c
  {
  }

  lemma {:induction false} SpreadIs(h: seq<int>, c: int)
    ensures Spread(h, c) >= 0
    ensures Spread(h, c) == SumSq(h) - 2 * c * Sum(h) + |h| * c * c
  {
    if h != [] {
      var t, x := h[..|h| - 1], h[|h| - 1];
      SpreadIs(t, c);
      SquareOfDifference(x, c);
      Distribute(c, Sum(t), x, |t|);
    }
  }

  lemma OneMoreTerm(n: nat, q: int, s: int, x: int)
    requires n * q >= s * s && q - 2 * x * s + n * x * x >= 0
    ensures (n + 1) * (q + x * x) >= (s + x) * (s + x)
  {
    assert (n + 1) * (q + x * x) == n * q + q + n * x * x + x * x;
    assert (s + x) * (s + x) == s * s + 2 * x * s + x * x;
  }

  /** The variance is never negative: bins * sumSq >= sum * sum. */
  lemma {:induction false} CauchySchwarz(h: seq<int>)
    ensures |h| * SumSq(h) >= Sum(h) * Sum(h)
  {
    if h != [] {
      var t, x := h[..|h| - 1], h[|h| - 1];
      CauchySchwarz(t);
      SpreadIs(t, x);
      OneMoreTerm(|t|, SumSq(t), Sum(t), x);
    }
  }
}
