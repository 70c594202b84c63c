/** What a drained schedule contains, said of the configuration and the draws
    alone: every arrival with its time as a sum of draws, and nothing else. */
module ScheduleContents {
  import opened Counting
  import opened Sorting
  import opened Schedule
  import opened Merge
  import opened MergeInvariant
  import opened MergeTheorems
  import opened ScheduleTheorems

  // ----- when every arrival is

  /** The first n gaps of replica i. */
  function Gaps(d: Draws, i: nat, n: nat): seq<int> {
    seq(n, (m: nat) => d.gap(i, m))
  }

  /** The first n gaps between onsets. */
  function BurstGaps(d: Draws, n: nat): seq<int> {
    seq(n, (m: nat) => d.burstGap(m))
  }

  /** Arrival k of replica i: the start and its own first k + 1 gaps. */
  lemma {:induction false} ArrivalAt(c: Setup, d: Draws, i: nat, k: nat)
    ensures SourcesOf(c, d).arrival(i, k) == c.start + Sum(Gaps(d, i, k + 1))
  {
    assert Gaps(d, i, k + 1)[..k] == Gaps(d, i, k);
    if k > 0 { ArrivalAt(c, d, i, k - 1); }
  }

  /** Under Poisson jitter onset b is the first onset and b drawn gaps. */
  lemma {:induction false} PoissonOnset(c: Setup, d: Draws, b: nat)
    requires c.burst.jitter == PoissonJitter
    ensures SourcesOf(c, d).onset(b) == c.start + c.burst.period + Sum(BurstGaps(d, b))
  {
    if b > 0 {
      PoissonOnset(c, d, b - 1);
      assert BurstGaps(d, b)[..b - 1] == BurstGaps(d, b - 1);
    }
  }

  function OnsetTime(c: Setup, d: Draws, b: nat): int {
    if c.burst.jitter == PoissonJitter then c.start + c.burst.period + Sum(BurstGaps(d, b))
    else c.start + (1 + b) * c.burst.period
  }

  /** Spike i of burst b, before a random burst is sorted. */
  function SpikeTime(c: Setup, d: Draws, b: nat, i: nat): int
    requires i < c.burst.size
  {
    OnsetTime(c, d, b) +
    match c.burst.shape
    case UniformShape => c.burst.window * i / c.burst.size
    case SpikeShape => 1000 * i
    case RandomShape => d.offset(b, i)
  }

  lemma RawSpikeAt(c: Setup, d: Draws, b: nat, i: nat)
    requires i < c.burst.size
    ensures RawSpikes(c, d, b)[i] == SpikeTime(c, d, b, i)
  {
    if c.burst.jitter == PoissonJitter { PoissonOnset(c, d, b); } else { FixedOnset(c, d, b); }
  }

  // ----- counting in pairs

  /** The places of row i, among the first n, where p holds. */
  ghost function Row(p: (nat, nat) -> bool, i: nat, n: nat): set<(nat, nat)> {
    set k | 0 <= k < n && p(i, k) :: (i, k)
  }

  /** Those of the first m rows. */
  ghost function Places(p: (nat, nat) -> bool, m: nat, n: nat): set<(nat, nat)> {
    set i, k | 0 <= i < m && 0 <= k < n && p(i, k) :: (i, k)
  }

  lemma NothingInNone(p: (nat, nat) -> bool, i: nat, n: nat)
    ensures Row(p, i, 0) == {} && Places(p, 0, n) == {}
  {
  }

  lemma RowStep(p: (nat, nat) -> bool, i: nat, n: nat)
    ensures |Row(p, i, n + 1)| == |Row(p, i, n)| + One(p(i, n))
  {
    if p(i, n) {
      assert Row(p, i, n + 1) == Row(p, i, n) + {(i, n)};
    } else {
      assert Row(p, i, n + 1) == Row(p, i, n);
    }
  }

  lemma PlacesStep(p: (nat, nat) -> bool, m: nat, n: nat)
    ensures |Places(p, m + 1, n)| == |Places(p, m, n)| + |Row(p, m, n)|
  {
    assert Places(p, m + 1, n) == Places(p, m, n) + Row(p, m, n);
    assert Places(p, m, n) !! Row(p, m, n);
  }

  lemma {:induction false} NumIsRow<T>(s: seq<T>, q: T -> bool, p: (nat, nat) -> bool, i: nat)
    requires forall k: nat :: k < |s| ==> q(s[k]) == p(i, k)
    ensures Num(s, q) == |Row(p, i, |s|)|
  {
    if s != [] {
      NumIsRow(s[..|s| - 1], q, p, i);
      RowStep(p, i, |s| - 1);
    }
  }

  // ----- the contents

  /** The replicas' arrivals at time t, among the first k of each. */
  ghost function ArrivalsAt(c: Setup, d: Draws, k: nat, t: int): set<(nat, nat)> {
    set i, m | 0 <= i < c.streams && 0 <= m < k && c.start + Sum(Gaps(d, i, m + 1)) == t :: (i, m)
  }

  /** The spikes at time t, among those of the first k bursts. */
  ghost function SpikesAt(c: Setup, d: Draws, k: nat, t: int): set<(nat, nat)> {
    set b, i | 0 <= b < k && 0 <= i < c.burst.size && SpikeTime(c, d, b, i) == t :: (b, i)
  }

  lemma {:induction false} PrefixIsRow(c: Setup, d: Draws, i: nat, k: nat, t: int, p: (nat, nat) -> bool)
    requires forall i: nat, m: nat :: p(i, m) == (c.start + Sum(Gaps(d, i, m + 1)) == t)
    ensures PrefixCount(SourcesOf(c, d), i, k, t) == |Row(p, i, k)|
  {
    hide Row, StreamTime, Gaps, Sum;
    if k > 0 {
      PrefixIsRow(c, d, i, k - 1, t, p);
      RowStep(p, i, k - 1);
      ArrivalAt(c, d, i, k - 1);
    } else {
      NothingInNone(p, i, 0);
    }
  }

  lemma {:induction false} StreamsArePlaces(c: Setup, d: Draws, ks: seq<nat>, n: nat, k: nat, t: int,
                                            p: (nat, nat) -> bool)
    requires forall i: nat, m: nat :: p(i, m) == (c.start + Sum(Gaps(d, i, m + 1)) == t)
    requires n <= |ks| && forall i :: 0 <= i < n ==> ks[i] == k
    ensures StreamCount(SourcesOf(c, d), ks, n, t) == |Places(p, n, k)|
  {
    hide Row, Places, StreamTime, Gaps, Sum;
    if n > 0 {
      StreamsArePlaces(c, d, ks, n - 1, k, t, p);
      PrefixIsRow(c, d, n - 1, k, t, p);
      PlacesStep(p, n - 1, k);
    } else {
      NothingInNone(p, 0, k);
    }
  }

  lemma BurstIsRow(c: Setup, d: Draws, b: nat, t: int, p: (nat, nat) -> bool)
    requires forall b: nat, i: nat :: i < c.burst.size ==> p(b, i) == (SpikeTime(c, d, b, i) == t)
    ensures Count(Spikes(c, d, b), t) == |Row(p, b, c.burst.size)|
  {
    var raw := RawSpikes(c, d, b);
    SortBag(Id, raw);
    NumIsCount(raw, t);
    forall i: nat | i < |raw| ensures Is(t)(raw[i]) == p(b, i) { RawSpikeAt(c, d, b, i); }
    NumIsRow(raw, Is(t), p, b);
  }

  lemma {:induction false} BurstsArePlaces(c: Setup, d: Draws, k: nat, t: int, p: (nat, nat) -> bool)
    requires forall b: nat, i: nat :: i < c.burst.size ==> p(b, i) == (SpikeTime(c, d, b, i) == t)
    ensures SpikeCount(SourcesOf(c, d), k, t) == |Places(p, k, c.burst.size)|
  {
    hide Row, Places, Spikes, SpikeTime;
    if k > 0 {
      BurstsArePlaces(c, d, k - 1, t, p);
      BurstIsRow(c, d, k - 1, t, p);
      PlacesStep(p, k - 1, c.burst.size);
    } else {
      NothingInNone(p, 0, c.burst.size);
    }
  }

  lemma BaseHits(c: Setup, d: Draws, k: nat, t: int)
    ensures Hits(Reference(SourcesOf(c, d), k), Arrival(t, Base)) == |ArrivalsAt(c, d, k, t)|
  {
    var q, p := SourcesOf(c, d), (i: nat, m: nat) => c.start + Sum(Gaps(d, i, m + 1)) == t;
    ReferenceHits(q, k, Arrival(t, Base));
    StreamsArePlaces(c, d, seq(q.streams, _ => k), q.streams, k, t, p);
    assert Places(p, c.streams, k) == ArrivalsAt(c, d, k, t);
  }

  lemma SpikeHits(c: Setup, d: Draws, k: nat, t: int)
    ensures Hits(Reference(SourcesOf(c, d), k), Arrival(t, Spike)) ==
      if c.burst.size > 0 && c.burst.period > 0 then |SpikesAt(c, d, k, t)| else 0
  {
    var q, p := SourcesOf(c, d), (b: nat, i: nat) => i < c.burst.size && SpikeTime(c, d, b, i) == t;
    ReferenceHits(q, k, Arrival(t, Spike));
    BurstsArePlaces(c, d, k, t, p);
    assert Places(p, k, c.burst.size) == SpikesAt(c, d, k, t);
  }

  /** The log has a base arrival at t as often as, over all replicas, the start
      and the first gaps of a replica come to t; a spike at t as often as a spike
      of a burst is at t; and nothing from the deadline on. */
  ghost predicate Contains(c: Setup, d: Draws, k: nat, log: seq<Arrival>, t: int) {
    && Hits(log, Arrival(t, Base)) == (if t < c.deadline then |ArrivalsAt(c, d, k, t)| else 0)
    && Hits(log, Arrival(t, Spike)) ==
         (if t < c.deadline && c.burst.size > 0 && c.burst.period > 0 then |SpikesAt(c, d, k, t)| else 0)
  }

  /** That is what a drained schedule has emitted; its order does the rest. */
  lemma ContentsOfDrain(c: Setup, d: Draws, es: seq<Event>, k: nat, t: int)
    requires var q := SourcesOf(c, d); Legal(q, es) && Covers(q, k) && Exhausted(q, Exec(q, es))
    ensures Contains(c, d, k, Exec(SourcesOf(c, d), es).log, t)
  {
    hide Legal, Exec, Reference, Covers, Exhausted, ArrivalsAt, SpikesAt;
    ScheduleIsSort(c, d, es, k);
    var before := Before(Reference(SourcesOf(c, d), k), c.deadline);
    SortBag(Rank, before);
    BeforeHits(Reference(SourcesOf(c, d), k), c.deadline, Arrival(t, Base));
    BeforeHits(Reference(SourcesOf(c, d), k), c.deadline, Arrival(t, Spike));
    BaseHits(c, d, k, t);
    SpikeHits(c, d, k, t);
  }

  // ----- how many replicas

  lemma Share(x: int, y: nat, p: nat)
    requires p > 0
    ensures x as real - y as real / p as real > 0.0 <==> x * p > y
  {
    var rate := y as real / p as real;
    assert rate * p as real == y as real;
    assert (x * p) as real == x as real * p as real;
    assert (x as real - rate) * p as real == (x * p) as real - y as real;
  }

  /** There are as many streams as replicas, at least one, if the target leaves
      something for them after the bursts, and otherwise none. */
  lemma StreamsMean(qps: int, replicas: int, burst: BurstConfig)
    ensures var absorbed := burst.mode == Absorbing && burst.size > 0 && burst.period > 0;
      var some := if absorbed then qps * burst.period > burst.size * 1_000_000_000 else qps > 0;
      StreamsFor(qps, replicas, burst) == if !some then 0 else if replicas < 1 then 1 else replicas
  {
    if burst.Enabled() && burst.mode == Absorbing {
      Share(qps, burst.size * SECOND, burst.period);
      assert burst.AvgQps() == (burst.size * SECOND) as real / burst.period as real;
    }
  }
}
