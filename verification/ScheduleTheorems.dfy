/** What the scheduler's schedule looks like, for every configuration and all draws. */
module ScheduleTheorems {
  import opened Arithmetic
  import opened Sorting
  import opened Schedule
  import opened Merge
  import opened MergeInvariant
  import opened MergeTheorems
  import opened BurstTheorems

  // ----- the sources are in time order

  lemma {:induction false} StreamGrows(c: Setup, d: Draws, i: nat, k: nat, m: nat)
    requires k <= m
    ensures StreamTime(c, d, i, k) <= StreamTime(c, d, i, m)
  {
    if k < m { StreamGrows(c, d, i, k, m - 1); }
  }

  lemma {:induction false} OnsetGrows(c: Setup, d: Draws, b: nat, e: nat)
    requires b <= e
    ensures Onset(c, d, b) <= Onset(c, d, e)
  {
    if b < e { OnsetGrows(c, d, b, e - 1); }
  }

  lemma OffsetGrows(c: Setup, d: Draws, b: nat, i: nat, j: nat)
    requires c.burst.shape != RandomShape && i <= j && c.burst.size > 0
    ensures Offset(c, d, b, i) <= Offset(c, d, b, j)
  {
    if c.burst.shape == UniformShape {
      MulGrows(c.burst.window, i, j);
      DivGrows(c.burst.window * i, c.burst.window * j, c.burst.size);
    }
  }

  lemma SpikesSorted(c: Setup, d: Draws, b: nat)
    ensures Sorted(Spikes(c, d, b))
  {
    var raw := RawSpikes(c, d, b);
    if c.burst.shape == RandomShape {
      SortedInts(raw);
    } else {
      forall i, j | 0 <= i < j < |raw| ensures raw[i] <= raw[j] { OffsetGrows(c, d, b, i, j); }
    }
  }

  /** Each spike of a burst is some offset after its onset. */
  lemma SpikeHasOffset(c: Setup, d: Draws, b: nat, k: nat) returns (i: nat)
    requires k < c.burst.size
    ensures i < c.burst.size && Spikes(c, d, b)[k] == Onset(c, d, b) + Offset(c, d, b, i)
    ensures c.burst.shape != RandomShape ==> i == k
  {
    var raw := RawSpikes(c, d, b);
    if c.burst.shape == RandomShape {
      SortBag(Id, raw);
      SameElements(Spikes(c, d, b), raw, Spikes(c, d, b)[k]);
      i :| 0 <= i < |raw| && raw[i] == Spikes(c, d, b)[k];
    } else {
      i := k;
    }
  }

  /** Where the spikes of a burst are: spread evenly over the window, or a
      microsecond apart. */
  lemma SpikePlaces(c: Setup, d: Draws, b: nat, i: nat)
    requires c.burst.shape != RandomShape && i < c.burst.size
    ensures c.burst.shape == UniformShape ==>
      Spikes(c, d, b)[i] == Onset(c, d, b) + c.burst.window * i / c.burst.size
    ensures c.burst.shape == SpikeShape ==> Spikes(c, d, b)[i] == Onset(c, d, b) + 1000 * i
  {
    assert Spikes(c, d, b)[i] == Onset(c, d, b) + Offset(c, d, b, i);
  }

  /** Random spikes are at the drawn offsets, sorted. */
  lemma RandomPlaces(c: Setup, d: Draws, b: nat)
    requires c.burst.shape == RandomShape
    ensures Sorted(Spikes(c, d, b)) && multiset(Spikes(c, d, b)) == multiset(RawSpikes(c, d, b))
    ensures forall i :: 0 <= i < c.burst.size ==> RawSpikes(c, d, b)[i] == Onset(c, d, b) + d.offset(b, i)
  {
    SortedInts(RawSpikes(c, d, b));
  }

  lemma SourcesAreTimely(c: Setup, d: Draws)
    ensures Timely(SourcesOf(c, d))
  {
    var q := SourcesOf(c, d);
    forall i: nat, k: nat, m: nat | k <= m ensures q.arrival(i, k) <= q.arrival(i, m) { StreamGrows(c, d, i, k, m); }
    forall b: nat, e: nat | b <= e ensures q.onset(b) <= q.onset(e) { OnsetGrows(c, d, b, e); }
    forall b: nat ensures Sorted(q.spikes(b)) && |q.spikes(b)| == q.size { SpikesSorted(c, d, b); }
    forall b: nat, k: nat | k < |q.spikes(b)| ensures q.onset(b) <= q.spikes(b)[k] {
      var i := SpikeHasOffset(c, d, b, k);
    }
  }

  // ----- the merge

  /** Draining the scheduler emits exactly the sorted reference. */
  lemma ScheduleIsSort(c: Setup, d: Draws, es: seq<Event>, k: nat)
    requires var q := SourcesOf(c, d); Legal(q, es) && Covers(q, k) && Exhausted(q, Exec(q, es))
    ensures var q := SourcesOf(c, d); Exec(q, es).log == Sort(Rank, Before(Reference(q, k), c.deadline))
  {
    SourcesAreTimely(c, d);
    MergeIsSort(SourcesOf(c, d), es, k);
  }

  lemma {:induction false} StreamLowerBound(c: Setup, d: Draws, i: nat, k: nat)
    requires forall i: nat, k: nat :: d.gap(i, k) >= 1
    ensures c.start + k < StreamTime(c, d, i, k)
  {
    assert d.gap(i, k) >= 1;
    if k > 0 { StreamLowerBound(c, d, i, k - 1); }
  }

  lemma {:induction false} FixedOnset(c: Setup, d: Draws, b: nat)
    requires c.burst.jitter == FixedJitter
    ensures Onset(c, d, b) == c.start + (1 + b) * c.burst.period
  {
    if b > 0 {
      FixedOnset(c, d, b - 1);
      assert (1 + b) * c.burst.period == b * c.burst.period + c.burst.period;
    }
  }

  /** Under fixed jitter with every Poisson gap at least a nanosecond, each
      source reaches the deadline within D arrivals, so the drain is finite. */
  lemma FixedJitterCovers(c: Setup, d: Draws)
    requires c.burst.jitter == FixedJitter
    requires forall i: nat, k: nat :: d.gap(i, k) >= 1
    ensures Covers(SourcesOf(c, d), if c.deadline > c.start then c.deadline - c.start else 0)
  {
    var k: nat := if c.deadline > c.start then c.deadline - c.start else 0;
    var q := SourcesOf(c, d);
    forall i | 0 <= i < q.streams ensures c.deadline <= q.arrival(i, k) { StreamLowerBound(c, d, i, k); }
    if c.Bursting() {
      FixedOnset(c, d, k);
      MulGrows(1 + k, 1, c.burst.period);
      assert (1 + k) * c.burst.period == c.burst.period * (1 + k);
    }
  }

  // ----- bursts under fixed jitter

  lemma FixedJitterIsPeriodic(c: Setup, d: Draws)
    requires c.Bursting() && c.burst.jitter == FixedJitter
    ensures Periodic(SourcesOf(c, d), c.start + c.burst.period, c.burst.period)
  {
    var q := SourcesOf(c, d);
    forall b: nat ensures q.onset(b) == (c.start + c.burst.period) + b * c.burst.period {
      FixedOnset(c, d, b);
      assert (1 + b) * c.burst.period == c.burst.period + b * c.burst.period;
    }
  }

  lemma UniformOffset(c: Setup, d: Draws, b: nat, i: nat)
    requires c.burst.shape == UniformShape && i < c.burst.size
    ensures Offset(c, d, b, i) <= LastOffset(c.burst.window)
  {
    var w, n := c.burst.window, c.burst.size;
    var o := w * i / n;
    MulGrows(w, i, n - 1);
    assert w * i <= w * n - w;
    if o >= w && w > 0 {
      MulGrows(n, w, o);
      assert n * w == w * n;
    }
  }

  lemma SpikesWithinWindow(c: Setup, d: Draws)
    requires c.burst.shape != SpikeShape && Fits(c, d)
    ensures Within(SourcesOf(c, d), LastOffset(c.burst.window))
  {
    var q := SourcesOf(c, d);
    forall b: nat, k: nat | k < |q.spikes(b)| ensures q.spikes(b)[k] <= q.onset(b) + LastOffset(c.burst.window) {
      var i := SpikeHasOffset(c, d, b, k);
      if c.burst.shape == UniformShape { UniformOffset(c, d, b, i); }
    }
  }

  /** How many bursts can have spikes pending at once under fixed jitter: the
      onsets before the last nanosecond of the first one's window. */
  function Overlap(burst: BurstConfig): nat
    requires burst.Enabled()
  {
    MaxOverlap(LastOffset(burst.window), burst.period)
  }

  /** The buffer bound, within what the source reserves. */
  lemma PendingBound(c: Setup, d: Draws, es: seq<Event>)
    requires c.Bursting() && c.burst.jitter == FixedJitter && c.burst.shape != SpikeShape && Fits(c, d)
    requires Legal(SourcesOf(c, d), es)
    ensures var pending := Exec(SourcesOf(c, d), es).pending;
            |pending| <= Overlap(c.burst) * c.burst.size &&
            |pending| <= (c.burst.window / c.burst.period + 2) * c.burst.size
  {
    var w, p := c.burst.window, c.burst.period;
    SourcesAreTimely(c, d);
    FixedJitterIsPeriodic(c, d);
    SpikesWithinWindow(c, d);
    BufferBound(SourcesOf(c, d), es, c.start + p, p, LastOffset(w));
    MaxOverlapBound(LastOffset(w), w, p);
    MulGrows(c.burst.size, Overlap(c.burst), w / p + 2);
  }

  /** Draws with every spike as late in its window as can be, and no stream
      before the last of so many onsets. */
  function LateDraws(c: Setup): Draws {
    Draws((i: nat, k: nat) => 1 + (1 + c.burst.window) * c.burst.period,
          (b: nat, i: nat) => LastOffset(c.burst.window), (b: nat) => 0)
  }

  lemma LateSpikes(c: Setup, b: nat)
    requires c.Bursting() && c.burst.jitter == FixedJitter && c.burst.shape == RandomShape
    ensures AllFrom(Spikes(c, LateDraws(c), b), c.start + c.burst.period + LastOffset(c.burst.window))
  {
    var d := LateDraws(c);
    var s := Spikes(c, d, b);
    OnsetGrows(c, d, 0, b);
    forall t | t in s ensures c.start + c.burst.period + LastOffset(c.burst.window) <= t {
      var k :| 0 <= k < |s| && s[k] == t;
      var i := SpikeHasOffset(c, d, b, k);
    }
  }

  lemma DivAtMost(w: nat, p: nat)
    requires p > 0
    ensures w / p <= w
  {
    if w / p > w { MulGrows(w / p, 1, p); }
  }

  lemma LateOnset(c: Setup, b: nat)
    requires c.Bursting() && c.burst.jitter == FixedJitter && b < Overlap(c.burst)
    requires c.start + Overlap(c.burst) * c.burst.period < c.deadline
    ensures var o := Onset(c, LateDraws(c), b);
      (b > 0 ==> o < c.start + c.burst.period + LastOffset(c.burst.window)) && o < c.deadline &&
      o <= c.start + (1 + c.burst.window) * c.burst.period
  {
    var p, w, m := c.burst.period, c.burst.window, Overlap(c.burst);
    FixedOnset(c, LateDraws(c), b);
    MulGrows(p, 1 + b, m);
    MulGrows(p, b, m - 1);
    assert (1 + b) * p == p + b * p;
    MaxOverlapBound(LastOffset(w), w, p);
    DivAtMost(w, p);
    MulGrows(p, 1 + b, 1 + w);
  }

  /** The bound is attained, and by a single call, in every random-shape
      configuration whose deadline leaves room for the onsets. */
  lemma PendingBoundAttained(c: Setup) returns (es: seq<Event>)
    requires c.Bursting() && c.burst.jitter == FixedJitter && c.burst.shape == RandomShape
    requires c.start + Overlap(c.burst) * c.burst.period < c.deadline
    ensures Fits(c, LateDraws(c)) && Legal(SourcesOf(c, LateDraws(c)), es)
    ensures |Exec(SourcesOf(c, LateDraws(c)), es).pending| == Overlap(c.burst) * c.burst.size
    ensures MaySpawn(SourcesOf(c, LateDraws(c)), Init(SourcesOf(c, LateDraws(c))), Overlap(c.burst))
  {
    var d, p, m := LateDraws(c), c.burst.period, Overlap(c.burst);
    var q, time := SourcesOf(c, d), c.start + p + LastOffset(c.burst.window);
    SourcesAreTimely(c, d);
    forall b: nat ensures AllFrom(q.spikes(b), time) { LateSpikes(c, b); }
    forall b: nat | b < m ensures q.onset(b) < q.deadline && (b > 0 ==> q.onset(b) < time) { LateOnset(c, b); }
    forall b: nat, i: nat | b < m && i < q.streams ensures q.onset(b) < q.arrival(i, 0) { LateOnset(c, b); }
    SpawnsTogether(q, m, time);
    SpawnsExtend(q, [], Init(q), m);
    es := [] + Spawns(m);
  }

  lemma OnsetsBefore(len: nat, p: nat, b: nat)
    requires p > 0 && len < (1 + b) * p && (b > 0 ==> b * p <= len)
    ensures b == len / p
  {
    assert (1 + b) * p == b * p + p;
    ModUnique(len, p, b, len - b * p);
  }

  /** Exactly the onsets strictly before the deadline are spawned. */
  lemma BurstsAtExhaustion(c: Setup, d: Draws, es: seq<Event>)
    requires c.Bursting() && c.burst.jitter == FixedJitter && c.deadline > c.start
    requires var q := SourcesOf(c, d); Legal(q, es) && Exhausted(q, Exec(q, es))
    ensures Exec(SourcesOf(c, d), es).bursts == (c.deadline - c.start - 1) / c.burst.period
  {
    var q, p := SourcesOf(c, d), c.burst.period;
    var b := Exec(q, es).bursts;
    SourcesAreTimely(c, d);
    RunTallied(q, es);
    FixedOnset(c, d, b);
    if b > 0 { FixedOnset(c, d, b - 1); }
    OnsetsBefore(c.deadline - c.start - 1, p, b);
  }

  // ----- bursts alone: the closed form

  lemma UniformIsSeparate(c: Setup, d: Draws)
    requires c.Bursting() && c.burst.jitter == FixedJitter && c.burst.shape == UniformShape
    requires c.burst.window <= c.burst.period
    ensures Separate(SourcesOf(c, d))
  {
    var q := SourcesOf(c, d);
    forall b: nat, e: nat, k: nat | b < e && k < |q.spikes(b)| ensures q.spikes(b)[k] < q.onset(e) {
      var i := SpikeHasOffset(c, d, b, k);
      UniformOffset(c, d, b, k);
      OnsetGrows(c, d, b + 1, e);
    }
  }

  lemma DivNat(k: nat, n: nat)
    requires n > 0
    ensures 0 <= k / n
  {
    DivGrows(0, k, n);
  }

  lemma UniformSpikeAt(c: Setup, d: Draws, b: nat, i: nat)
    requires c.burst.jitter == FixedJitter && c.burst.shape == UniformShape && i < c.burst.size
    ensures Spikes(c, d, b)[i] == c.start + (1 + b) * c.burst.period + c.burst.window * i / c.burst.size
  {
    FixedOnset(c, d, b);
  }

  /** With no base arrivals, fixed jitter, uniform shape and a window no longer
      than the period, emission k is determined to the nanosecond. */
  lemma ClosedForm(c: Setup, d: Draws, es: seq<Event>, k: nat)
    requires c.Bursting() && c.burst.jitter == FixedJitter && c.burst.shape == UniformShape
    requires c.burst.window <= c.burst.period && c.streams == 0
    requires Legal(SourcesOf(c, d), es) && k < |Exec(SourcesOf(c, d), es).log|
    ensures var n := c.burst.size;
            Exec(SourcesOf(c, d), es).log[k] ==
            Arrival(c.start + (1 + k / n) * c.burst.period + c.burst.window * (k % n) / n, Spike)
  {
    SourcesAreTimely(c, d);
    UniformIsSeparate(c, d);
    SeparateLogAt(SourcesOf(c, d), es, k);
    DivNat(k, c.burst.size);
    UniformSpikeAt(c, d, k / c.burst.size, k % c.burst.size);
  }

  // ----- does Next return?

  /** The one configuration in which Next may spawn bursts for ever. */
  predicate MayStall(c: Setup) {
    && c.Bursting()
    && c.burst.shape == RandomShape && c.burst.jitter == PoissonJitter && c.burst.window > 1
    && c.start + c.burst.period < c.deadline
  }

  lemma OnsetSpikes(c: Setup, d: Draws)
    requires c.Bursting()
    requires c.burst.shape == RandomShape ==> c.burst.window <= 1 && Fits(c, d)
    ensures Prompt(SourcesOf(c, d))
  {
    var q := SourcesOf(c, d);
    forall b: nat ensures q.onset(b) in q.spikes(b) {
      var i := SpikeHasOffset(c, d, b, 0);
      if c.burst.shape == RandomShape { assert d.offset(b, i) <= LastOffset(c.burst.window); }
      assert q.spikes(b)[0] == q.onset(b);
    }
  }

  /** Everywhere else the number of bursts a call spawns is bounded: by one if
      every burst has a spike at its onset, by MaxOverlap under fixed jitter. */
  lemma SpawnLimit(c: Setup, d: Draws) returns (limit: nat)
    requires Fits(c, d) && !MayStall(c)
    ensures SpawnsAtMost(SourcesOf(c, d), limit)
    ensures c.Bursting() && (c.burst.shape != RandomShape || c.burst.window <= 1) ==> limit == 1
    ensures c.Bursting() && c.burst.shape == RandomShape && c.burst.jitter == FixedJitter && c.burst.window > 1 ==>
              limit == Overlap(c.burst)
  {
    var q := SourcesOf(c, d);
    SourcesAreTimely(c, d);
    if !c.Bursting() {
      limit := 0;
      HorizonLimits(q, 0);
    } else if c.burst.shape != RandomShape || c.burst.window <= 1 {
      limit := 1;
      OnsetSpikes(c, d);
      PromptSpawnsOnce(q);
    } else if c.burst.jitter == FixedJitter {
      limit := Overlap(c.burst);
      FixedJitterIsPeriodic(c, d);
      SpikesWithinWindow(c, d);
      PeriodicSpawns(q, c.start + c.burst.period, c.burst.period, LastOffset(c.burst.window));
    } else {
      limit := 0;
      HorizonLimits(q, 0);
    }
  }

  /** The draws that stall: no gap between onsets, every spike a nanosecond
      after its onset, every stream later still. */
  function StallingDraws(c: Setup): Draws {
    Draws((i: nat, k: nat) => c.burst.period + 1, (b: nat, i: nat) => 1, (b: nat) => 0)
  }

  lemma {:induction false} StalledOnset(c: Setup, b: nat)
    requires c.burst.jitter == PoissonJitter
    ensures Onset(c, StallingDraws(c), b) == c.start + c.burst.period
  {
    if b > 0 { StalledOnset(c, b - 1); }
  }

  lemma StalledSpikes(c: Setup, b: nat)
    requires MayStall(c)
    ensures AllFrom(Spikes(c, StallingDraws(c), b), c.start + c.burst.period + 1)
  {
    var s := Spikes(c, StallingDraws(c), b);
    forall t | t in s ensures c.start + c.burst.period + 1 <= t {
      var k :| 0 <= k < |s| && s[k] == t;
      var i := SpikeHasOffset(c, StallingDraws(c), b, k);
      StalledOnset(c, b);
    }
  }

  lemma StallsForever(c: Setup, m: nat)
    requires MayStall(c)
    ensures var q := SourcesOf(c, StallingDraws(c)); Fits(c, StallingDraws(c)) && MaySpawn(q, Init(q), m)
  {
    var d := StallingDraws(c);
    var q := SourcesOf(c, d);
    SourcesAreTimely(c, d);
    forall b: nat ensures AllFrom(q.spikes(b), c.start + c.burst.period + 1) { StalledSpikes(c, b); }
    forall b: nat ensures q.onset(b) == c.start + c.burst.period { StalledOnset(c, b); }
    SpawnsTogether(q, m, c.start + c.burst.period + 1);
  }

  /** Next returns from every state, whatever is drawn, exactly in the
      configurations outside MayStall. */
  lemma NextReturnsIff(c: Setup)
    ensures !MayStall(c) <==>
      forall d :: Fits(c, d) ==> exists limit :: SpawnsAtMost(SourcesOf(c, d), limit)
  {
    if MayStall(c) {
      var d := StallingDraws(c);
      var q := SourcesOf(c, d);
      assert Fits(c, d);
      forall limit: nat ensures !SpawnsAtMost(q, limit) {
        StallsForever(c, limit + 1);
        InitInv(q);
      }
    } else {
      forall d | Fits(c, d) ensures exists limit :: SpawnsAtMost(SourcesOf(c, d), limit) {
        var limit := SpawnLimit(c, d);
      }
    }
  }

  // ----- the base rate

  /** Absorbing mode keeps the long-run mean at the target exactly when the
      bursts alone do not exceed it; when they reach it there is no base at all. */
  lemma AbsorbingKeepsMean(qps: int, replicas: int, burst: BurstConfig)
    requires burst.Enabled() && burst.mode == Absorbing
    ensures BaseRate(qps, burst) >= 0.0
    ensures BaseRate(qps, burst) + burst.AvgQps() == qps as real <==> burst.AvgQps() <= qps as real
    ensures StreamsFor(qps, replicas, burst) == 0 <==> qps as real <= burst.AvgQps()
  {
  }
}
