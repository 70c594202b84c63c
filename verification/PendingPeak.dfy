/** Exactly how long the buffer of pending spikes gets: right after a burst is
    spawned it holds that burst and what of the earlier ones is still open. */
module PendingPeak {
  import opened Arithmetic
  import opened Counting
  import opened Sorting
  import opened Schedule
  import opened Merge
  import opened MergeInvariant
  import opened MergeTheorems
  import opened BurstTheorems
  import opened ScheduleTheorems

  // ----- for any sources

  function After(o: int): int -> bool { t => t > o }

  /** The elements of s after o. */
  function Later(s: seq<int>, o: int): seq<int> {
    if s == [] then []
    else
      var n := |s| - 1;
      if s[n] > o then Later(s[..n], o) + [s[n]] else Later(s[..n], o)
  }

  lemma {:induction false} LaterCount(s: seq<int>, o: int, t: int)
    ensures Count(Later(s, o), t) == if t > o then Count(s, t) else 0
  {
    if s != [] {
      var n := |s| - 1;
      LaterCount(s[..n], o, t);
      assert s == s[..n] + [s[n]];
      CountSnoc(s[..n], s[n], t);
      CountSnoc(Later(s[..n], o), s[n], t);
    }
  }

  lemma {:induction false} LaterSize(s: seq<int>, o: int)
    ensures |Later(s, o)| == Num(s, After(o))
  {
    if s != [] { LaterSize(s[..|s| - 1], o); }
  }

  /** How many spikes are open once burst b is spawned: its own and, of each of
      the m bursts before it, those after its onset. */
  function Open(q: Sources, b: nat, m: nat): nat
    requires m <= b
  {
    if m == 0 then q.size else Open(q, b, m - 1) + Num(q.spikes(b - m), After(q.onset(b)))
  }

  /** These spikes. */
  ghost function OpenSpikes(q: Sources, b: nat, m: nat): seq<int>
    requires m <= b
  {
    if m == 0 then q.spikes(b) else OpenSpikes(q, b, m - 1) + Later(q.spikes(b - m), q.onset(b))
  }

  lemma {:induction false} OpenSize(q: Sources, b: nat, m: nat)
    requires Timely(q) && m <= b
    ensures |OpenSpikes(q, b, m)| == Open(q, b, m)
  {
    if m > 0 {
      OpenSize(q, b, m - 1);
      LaterSize(q.spikes(b - m), q.onset(b));
    }
  }

  lemma OneMoreBurst(q: Sources, b: nat, t: int)
    ensures SpikeCount(q, b + 1, t) == SpikeCount(q, b, t) + Count(q.spikes(b), t)
  {
  }

  lemma {:induction false} OpenCount(q: Sources, b: nat, m: nat, t: int)
    requires m <= b
    ensures Count(OpenSpikes(q, b, m), t) + (if t > q.onset(b) then SpikeCount(q, b - m, t) else 0) ==
            Count(q.spikes(b), t) + (if t > q.onset(b) then SpikeCount(q, b, t) else 0)
  {
    hide Count, Later;
    if m > 0 {
      OpenCount(q, b, m - 1, t);
      LaterCount(q.spikes(b - m), q.onset(b), t);
      CountConcat(OpenSpikes(q, b, m - 1), Later(q.spikes(b - m), q.onset(b)), t);
      OneMoreBurst(q, b - m, t);
    }
  }

  /** Nothing emitted is after the next onset. */
  lemma EmittedByOnset(q: Sources, s: State, k: nat)
    requires Ordered(q, s) && q.bursting && k < |s.log|
    ensures s.log[k].time <= q.onset(s.bursts)
  {
    assert Rank(s.log[k]) <= Rank(s.log[|s.log| - 1]);
  }

  lemma NotYetEmitted(q: Sources, s: State, t: int)
    requires Ordered(q, s) && q.bursting && t > q.onset(s.bursts)
    ensures Hits(s.log, Arrival(t, Spike)) == 0
  {
    hide Ordered;
    forall k | 0 <= k < |s.log| ensures s.log[k] != Arrival(t, Spike) { EmittedByOnset(q, s, k); }
  }

  lemma PendingIsLater(q: Sources, s: State, t: int)
    requires Sorted(s.pending) && OnsetTurn(q, s) && t in s.pending
    ensures t > q.onset(s.bursts)
  {
    assert s.pending[0] <= t;
  }

  /** When a burst is due, pending are exactly the spikes after its onset of the
      bursts before it. */
  lemma PendingWhenDue(q: Sources, s: State, t: int)
    requires Inv(q, s) && OnsetTurn(q, s)
    ensures Count(s.pending, t) == if t > q.onset(s.bursts) then SpikeCount(q, s.bursts, t) else 0
  {
    hide Ordered, SpikeCount, StreamsFrom;
    if t > q.onset(s.bursts) {
      NotYetEmitted(q, s, t);
    } else {
      forall u | u in s.pending ensures u != t { PendingIsLater(q, s, u); }
    }
  }

  /** So right after it is spawned the buffer holds exactly what is open. */
  lemma PendingAfterSpawn(q: Sources, s: State)
    requires Timely(q) && Inv(q, s) && OnsetTurn(q, s)
    ensures |AfterOnset(q, s).pending| == Open(q, s.bursts, s.bursts)
  {
    var b := s.bursts;
    var pending, open := AfterOnset(q, s).pending, OpenSpikes(q, b, b);
    forall t ensures Count(pending, t) == Count(open, t) {
      PendingWhenDue(q, s, t);
      AfterOnsetCount(q, s, t);
      OpenCount(q, b, b, t);
    }
    FewerIsShorter(pending, open);
    FewerIsShorter(open, pending);
    OpenSize(q, b, b);
  }

  /** What is open once the last of so many bursts is spawned. */
  function OpenAfter(q: Sources, bursts: nat): nat {
    if bursts == 0 then 0 else Open(q, bursts - 1, bursts - 1)
  }

  lemma StepWithinOpen(q: Sources, s: State, e: Event)
    requires Timely(q) && Inv(q, s) && Enabled(q, s, e) && |s.pending| <= OpenAfter(q, s.bursts)
    ensures |Apply(q, s, e).pending| <= OpenAfter(q, Apply(q, s, e).bursts)
  {
    hide Timely, Inv, OnsetTurn, StreamsFrom, Open;
    if e.SpawnBurst? { PendingAfterSpawn(q, s); }
  }

  /** Between spawns the buffer only gets shorter. */
  lemma {:induction false} PendingWithinOpen(q: Sources, es: seq<Event>)
    requires Timely(q) && Legal(q, es)
    ensures |Exec(q, es).pending| <= OpenAfter(q, Exec(q, es).bursts)
  {
    if es != [] {
      var n := |es| - 1;
      PendingWithinOpen(q, es[..n]);
      RunInv(q, es[..n]);
      StepWithinOpen(q, Exec(q, es[..n]), es[n]);
    }
  }

  lemma SpawnReachesOpen(q: Sources, s: State, e: Event)
    requires Timely(q) && Inv(q, s) && Enabled(q, s, e) && s.bursts < Apply(q, s, e).bursts
    ensures Apply(q, s, e).bursts == s.bursts + 1
    ensures |Apply(q, s, e).pending| == OpenAfter(q, s.bursts + 1)
  {
    hide Timely, Inv, StreamTurn, SpikeTurn, OnsetTurn, Merged, Open;
    PendingAfterSpawn(q, s);
  }

  lemma LastStep(q: Sources, es: seq<Event>)
    requires Legal(q, es) && es != []
    ensures var n := |es| - 1;
      Legal(q, es[..n]) && Enabled(q, Exec(q, es[..n]), es[n]) && Exec(q, es) == Apply(q, Exec(q, es[..n]), es[n])
  {
  }

  lemma FirstState(q: Sources)
    ensures Legal(q, []) && Exec(q, []) == Init(q)
  {
  }

  /** A run that has spawned b bursts held, at some moment, exactly what is open
      after the last of them. */
  lemma {:induction false} OpenIsReached(q: Sources, es: seq<Event>, b: nat) returns (k: nat)
    requires Timely(q) && Legal(q, es) && b <= Exec(q, es).bursts
    ensures k <= |es| && Legal(q, es[..k]) && |Exec(q, es[..k]).pending| == OpenAfter(q, b)
  {
    hide Legal, Exec, Inv, Timely, Enabled, Apply, Open;
    if es == [] {
      FirstState(q);
      k := 0;
    } else {
      LastStep(q, es);
      var n := |es| - 1;
      if b <= Exec(q, es[..n]).bursts {
        k := OpenIsReached(q, es[..n], b);
        assert es[..n][..k] == es[..k];
      } else {
        RunInv(q, es[..n]);
        SpawnReachesOpen(q, Exec(q, es[..n]), es[n]);
        k := |es|;
        assert es[..k] == es;
      }
    }
  }

  // ----- under fixed jitter, with uniform or spike shape

  /** Where spike i of any burst lies after its onset. */
  function Place(burst: BurstConfig, i: nat): nat
    requires burst.size > 0
  {
    if burst.shape == SpikeShape then i * MICROSECOND else burst.window * i / burst.size
  }

  function Places(burst: BurstConfig): seq<int>
    requires burst.size > 0
  {
    seq(burst.size, i requires 0 <= i < burst.size => Place(burst, i))
  }

  /** How many spikes of a burst are still to come at the m-th onset after it. */
  function StillOpen(burst: BurstConfig, m: nat): nat
    requires burst.size > 0
  {
    Num(Places(burst), After(m * burst.period))
  }

  /** A burst and what is still open of the m before it. */
  function Peak(burst: BurstConfig, m: nat): nat
    requires burst.size > 0
  {
    if m == 0 then burst.size else Peak(burst, m - 1) + StillOpen(burst, m)
  }

  /** How many bursts there are before the deadline. */
  function MostBursts(c: Setup): nat
    requires c.Bursting()
  {
    if c.deadline > c.start then (c.deadline - c.start - 1) / c.burst.period else 0
  }

  /** The longest the buffer gets in a run. */
  function RunPeak(c: Setup): nat
    requires c.Bursting()
  {
    if MostBursts(c) == 0 then 0 else Peak(c.burst, MostBursts(c) - 1)
  }

  lemma OpenPlace(c: Setup, d: Draws, b: nat, m: nat, i: nat)
    requires c.Bursting() && c.burst.jitter == FixedJitter && c.burst.shape != RandomShape
    requires m <= b && i < c.burst.size
    ensures Spikes(c, d, b - m)[i] > Onset(c, d, b) <==> Place(c.burst, i) > m * c.burst.period
  {
    hide Onset, Spikes;
    FixedOnset(c, d, b);
    FixedOnset(c, d, b - m);
    var j := SpikeHasOffset(c, d, b - m, i);
    assert (1 + b) * c.burst.period == (1 + b - m) * c.burst.period + m * c.burst.period;
  }

  lemma OpenIsStillOpen(c: Setup, d: Draws, b: nat, m: nat)
    requires c.Bursting() && c.burst.jitter == FixedJitter && c.burst.shape != RandomShape && m <= b
    ensures var q := SourcesOf(c, d); Num(q.spikes(b - m), After(q.onset(b))) == StillOpen(c.burst, m)
  {
    var s, places := Spikes(c, d, b - m), Places(c.burst);
    forall i | 0 <= i < |s|
      ensures After(Onset(c, d, b))(s[i]) == After(m * c.burst.period)(places[i])
    {
      OpenPlace(c, d, b, m, i);
    }
    NumMatch(s, places, After(Onset(c, d, b)), After(m * c.burst.period));
  }

  lemma {:induction false} OpenIsPeak(c: Setup, d: Draws, b: nat, m: nat)
    requires c.Bursting() && c.burst.jitter == FixedJitter && c.burst.shape != RandomShape && m <= b
    ensures Open(SourcesOf(c, d), b, m) == Peak(c.burst, m)
  {
    hide StillOpen, Spikes, Onset, Num;
    if m > 0 {
      OpenIsPeak(c, d, b, m - 1);
      OpenIsStillOpen(c, d, b, m);
    }
  }

  lemma {:induction false} PeakGrows(burst: BurstConfig, m: nat, n: nat)
    requires burst.size > 0 && m <= n
    ensures Peak(burst, m) <= Peak(burst, n)
  {
    if m < n { PeakGrows(burst, m, n - 1); }
  }

  lemma BelowQuotient(b: nat, x: nat, p: nat)
    requires p > 0 && b * p <= x
    ensures b <= x / p
  {
    DivGrows(b * p, x, p);
    ModUnique(b * p, p, b, 0);
  }

  lemma AtMostMostBursts(c: Setup, d: Draws, bursts: nat)
    requires c.Bursting() && c.burst.jitter == FixedJitter
    requires bursts > 0 ==> Onset(c, d, bursts - 1) < c.deadline
    ensures bursts <= MostBursts(c)
  {
    var p := c.burst.period;
    if bursts > 0 {
      FixedOnset(c, d, bursts - 1);
      MulGrows(p, 0, bursts);
      BelowQuotient(bursts, c.deadline - c.start - 1, p);
    }
  }

  lemma BurstsInRun(c: Setup, d: Draws, es: seq<Event>)
    requires c.Bursting() && c.burst.jitter == FixedJitter && Legal(SourcesOf(c, d), es)
    ensures Exec(SourcesOf(c, d), es).bursts <= MostBursts(c)
  {
    hide Legal, Exec, Timely, MostBursts, Onset;
    SourcesAreTimely(c, d);
    RunTallied(SourcesOf(c, d), es);
    AtMostMostBursts(c, d, Exec(SourcesOf(c, d), es).bursts);
  }

  lemma WithinPeak(c: Setup, d: Draws, b: nat)
    requires c.Bursting() && c.burst.jitter == FixedJitter && c.burst.shape != RandomShape && b <= MostBursts(c)
    ensures OpenAfter(SourcesOf(c, d), b) <= RunPeak(c)
    ensures b == MostBursts(c) ==> OpenAfter(SourcesOf(c, d), b) == RunPeak(c)
  {
    hide MostBursts, Open, Peak, SourcesOf;
    if b > 0 {
      OpenIsPeak(c, d, b - 1, b - 1);
      PeakGrows(c.burst, b - 1, MostBursts(c) - 1);
    }
  }

  /** At every moment of every run the buffer is within the peak. */
  lemma PeakBound(c: Setup, d: Draws, es: seq<Event>)
    requires c.Bursting() && c.burst.jitter == FixedJitter && c.burst.shape != RandomShape
    requires Legal(SourcesOf(c, d), es)
    ensures |Exec(SourcesOf(c, d), es).pending| <= RunPeak(c)
  {
    hide Legal, Exec, Timely, SourcesOf, MostBursts, OpenAfter, RunPeak;
    SourcesAreTimely(c, d);
    PendingWithinOpen(SourcesOf(c, d), es);
    BurstsInRun(c, d, es);
    WithinPeak(c, d, Exec(SourcesOf(c, d), es).bursts);
  }

  /** And every run that drains the schedule reaches it, whatever is drawn. */
  lemma PeakIsReached(c: Setup, d: Draws, es: seq<Event>) returns (k: nat)
    requires c.Bursting() && c.burst.jitter == FixedJitter && c.burst.shape != RandomShape && c.deadline > c.start
    requires Legal(SourcesOf(c, d), es) && Exhausted(SourcesOf(c, d), Exec(SourcesOf(c, d), es))
    ensures k <= |es| && Legal(SourcesOf(c, d), es[..k])
    ensures |Exec(SourcesOf(c, d), es[..k]).pending| == RunPeak(c)
  {
    hide Legal, Exec, Timely, SourcesOf, Exhausted, OpenAfter, RunPeak;
    SourcesAreTimely(c, d);
    BurstsAtExhaustion(c, d, es);
    k := OpenIsReached(SourcesOf(c, d), es, MostBursts(c));
    WithinPeak(c, d, MostBursts(c));
  }

  // ----- is the room that is reserved enough?

  /** How many spikes the source makes room for in advance. */
  function Reserved(burst: BurstConfig): nat
    requires burst.Enabled()
  {
    burst.size * (burst.window / burst.period + 2)
  }

  /** The buffer stays within that room throughout a run. */
  ghost predicate StaysWithin(q: Sources, es: seq<Event>, room: nat) {
    forall k: nat :: k <= |es| && Legal(q, es[..k]) ==> |Exec(q, es[..k]).pending| <= room
  }

  /** A run that drains the schedule stays within what is reserved, whatever is
      drawn, exactly if the peak does. */
  lemma ReserveSufficesIff(c: Setup, d: Draws, es: seq<Event>)
    requires c.Bursting() && c.burst.jitter == FixedJitter && c.burst.shape != RandomShape && c.deadline > c.start
    requires Legal(SourcesOf(c, d), es) && Exhausted(SourcesOf(c, d), Exec(SourcesOf(c, d), es))
    ensures StaysWithin(SourcesOf(c, d), es, Reserved(c.burst)) <==> RunPeak(c) <= Reserved(c.burst)
  {
    hide Legal, Exec, SourcesOf, Exhausted, RunPeak, Reserved;
    forall k: nat | k <= |es| && Legal(SourcesOf(c, d), es[..k])
      ensures |Exec(SourcesOf(c, d), es[..k]).pending| <= RunPeak(c)
    {
      PeakBound(c, d, es[..k]);
    }
    var k := PeakIsReached(c, d, es);
  }

  /** Four spikes a microsecond apart, every nanosecond: more than is reserved. */
  const OUTGROWING: BurstConfig := BurstConfig(4, 1, 1, SpikeShape, FixedJitter, Additive)

  lemma ThreeStillOpen(m: nat)
    requires 0 < m < 1000
    ensures StillOpen(OUTGROWING, m) == 3
  {
    var open := After(m * OUTGROWING.period);
    assert Places(OUTGROWING) == [] + [0] + [1000] + [2000] + [3000];
    NumSnoc([], 0, open);
    NumSnoc([0], 1000, open);
    NumSnoc([0, 1000], 2000, open);
    NumSnoc([0, 1000, 2000], 3000, open);
    assert Places(OUTGROWING) == [0, 1000, 2000] + [3000];
    assert [0, 1000] + [2000] == [0, 1000, 2000];
    assert [0] + [1000] == [0, 1000];
    assert [] + [0] == [0];
  }

  /** So under the spike shape the reserve can be too small. */
  lemma SpikesOutgrowReserve()
    ensures RunPeak(Setup(0, OUTGROWING, 0, 5)) == 13 && Reserved(OUTGROWING) == 12
  {
    hide StillOpen;
    ThreeStillOpen(1);
    ThreeStillOpen(2);
    ThreeStillOpen(3);
    assert Peak(OUTGROWING, 1) == 7;
    assert Peak(OUTGROWING, 2) == 10;
    assert Peak(OUTGROWING, 3) == 13;
  }
}
