/** Bursts over whole runs: how long the buffer gets, how many bursts one call
    can spawn, and what a run of bursts alone looks like. */
module BurstTheorems {
  import opened Arithmetic
  import opened Sorting
  import opened Merge
  import opened MergeInvariant
  import opened MergeTheorems

  ghost predicate Periodic(q: Sources, first: int, period: nat) {
    period > 0 && forall b: nat :: q.onset(b) == first + b * period
  }

  /** No spike is more than window after its onset. */
  ghost predicate Within(q: Sources, window: nat) {
    forall b: nat, i: nat :: i < |q.spikes(b)| ==> q.spikes(b)[i] <= q.onset(b) + window
  }

  /** Every burst has a spike at its onset. */
  ghost predicate Prompt(q: Sources) {
    forall b: nat :: q.onset(b) in q.spikes(b)
  }

  /** How many periods a window reaches into: the number of bursts that can
      have spikes pending at once. */
  function MaxOverlap(window: nat, period: nat): (m: nat)
    requires period > 0
    ensures m >= 1
    ensures window <= m * period
    ensures m > 1 ==> (m - 1) * period < window
  {
    if window == 0 then 1 else (window - 1) / period + 1
  }

  /** The source reserves room for one burst more than window / period + 1. */
  lemma MaxOverlapBound(reach: nat, window: nat, period: nat)
    requires period > 0 && reach <= window
    ensures MaxOverlap(reach, period) <= window / period + 1
  {
    if reach > 0 { DivGrows(reach - 1, window, period); }
  }

  // ----- the buffer bound

  ghost function Oldest(bursts: nat, m: nat): nat { if bursts <= m then 0 else bursts - m }

  /** Of the spikes at t, only those of the latest m bursts can be pending. */
  ghost predicate RecentAt(q: Sources, s: State, m: nat, t: int) {
    Count(s.pending, t) + SpikeCount(q, Oldest(s.bursts, m), t) <= SpikeCount(q, s.bursts, t)
  }

  ghost predicate OnlyRecent(q: Sources, s: State, m: nat) {
    forall t :: RecentAt(q, s, m, t)
  }

  /** A window is over m onsets later. */
  ghost predicate Clears(q: Sources, window: nat, m: nat) {
    forall b: nat, e: nat :: b + m <= e ==> q.onset(b) + window <= q.onset(e)
  }

  lemma PeriodicClears(q: Sources, first: int, period: nat, window: nat)
    requires Periodic(q, first, period)
    ensures Clears(q, window, MaxOverlap(window, period))
  {
    var m := MaxOverlap(window, period);
    forall b: nat, e: nat | b + m <= e ensures q.onset(b) + window <= q.onset(e) {
      MulGrows(period, b + m, e);
      assert (b + m) * period == b * period + m * period;
    }
  }

  ghost predicate PendingAfter(s: State, t: int) {
    forall x :: x in s.pending ==> t < x
  }

  /** When burst b is spawned, burst b - m has nothing left in the buffer. */
  lemma OldestIsGone(q: Sources, s: State, window: nat, m: nat, t: int)
    requires Within(q, window) && Clears(q, window, m)
    requires PendingAfter(s, q.onset(s.bursts))
    ensures m <= s.bursts && Count(s.pending, t) > 0 ==> Count(q.spikes(s.bursts - m), t) == 0
  {
    if m <= s.bursts && t in s.pending {
      assert q.onset(s.bursts - m) + window <= q.onset(s.bursts);
      assert t !in q.spikes(s.bursts - m);
    }
  }

  lemma {:induction false} SpikeCountGrows(q: Sources, a: nat, b: nat, t: int)
    requires a <= b
    ensures SpikeCount(q, a, t) <= SpikeCount(q, b, t)
  {
    if a < b { SpikeCountGrows(q, a, b - 1, t); }
  }

  lemma RecencyArithmetic(q: Sources, b: nat, m: nat, t: int, p: nat)
    requires m >= 1 && p + SpikeCount(q, Oldest(b, m), t) <= SpikeCount(q, b, t)
    requires m <= b && p > 0 ==> Count(q.spikes(b - m), t) == 0
    ensures p + Count(q.spikes(b), t) + SpikeCount(q, Oldest(b + 1, m), t) <= SpikeCount(q, b + 1, t)
  {
    SpikeCountGrows(q, Oldest(b + 1, m), b, t);
  }

  lemma AfterOnsetCount(q: Sources, s: State, t: int)
    ensures Count(AfterOnset(q, s).pending, t) == Count(s.pending, t) + Count(q.spikes(s.bursts), t)
    ensures AfterOnset(q, s).bursts == s.bursts + 1
  {
    MergedCount(s.pending, q.spikes(s.bursts), t);
  }

  lemma OnsetKeepsRecent(q: Sources, s: State, m: nat, t: int)
    requires m >= 1 && RecentAt(q, s, m, t)
    requires m <= s.bursts && Count(s.pending, t) > 0 ==> Count(q.spikes(s.bursts - m), t) == 0
    ensures RecentAt(q, AfterOnset(q, s), m, t)
  {
    RecencyArithmetic(q, s.bursts, m, t, Count(s.pending, t));
    AfterOnsetCount(q, s, t);
  }

  lemma StepRecent(q: Sources, s: State, e: Event, window: nat, m: nat, t: int)
    requires Within(q, window) && Clears(q, window, m) && m >= 1
    requires Sorted(s.pending) && Enabled(q, s, e) && RecentAt(q, s, m, t)
    ensures RecentAt(q, Apply(q, s, e), m, t)
  {
    match e
    case FromStream(i) =>
    case FromPending => CountCons(s.pending, t);
    case SpawnBurst =>
      OldestIsGone(q, s, window, m, t);
      OnsetKeepsRecent(q, s, m, t);
  }

  lemma {:induction false} RunRecent(q: Sources, es: seq<Event>, window: nat, m: nat)
    requires Timely(q) && Legal(q, es) && Within(q, window) && Clears(q, window, m) && m >= 1
    ensures OnlyRecent(q, Exec(q, es), m)
  {
    if es != [] {
      var n := |es| - 1;
      RunRecent(q, es[..n], window, m);
      RunInv(q, es[..n]);
      var s := Exec(q, es[..n]);
      forall t ensures RecentAt(q, Exec(q, es), m, t) {
        StepRecent(q, s, es[n], window, m, t);
      }
    }
  }

  /** The spikes of bursts lo .. hi-1. */
  ghost function SpikeRange(q: Sources, lo: nat, hi: nat): seq<int>
    requires lo <= hi
  {
    if lo == hi then [] else SpikeRange(q, lo, hi - 1) + q.spikes(hi - 1)
  }

  lemma {:induction false} SpikeRangeCount(q: Sources, lo: nat, hi: nat, t: int)
    requires lo <= hi
    ensures SpikeCount(q, lo, t) + Count(SpikeRange(q, lo, hi), t) == SpikeCount(q, hi, t)
  {
    if lo < hi {
      SpikeRangeCount(q, lo, hi - 1, t);
      CountConcat(SpikeRange(q, lo, hi - 1), q.spikes(hi - 1), t);
    }
  }

  lemma {:induction false} SpikeRangeLength(q: Sources, lo: nat, hi: nat)
    requires Timely(q) && lo <= hi
    ensures |SpikeRange(q, lo, hi)| == (hi - lo) * q.size
  {
    if lo < hi {
      SpikeRangeLength(q, lo, hi - 1);
      assert (hi - lo) * q.size == (hi - 1 - lo) * q.size + q.size;
    }
  }

  lemma FewerIsShorter(a: seq<int>, b: seq<int>)
    requires forall t :: Count(a, t) <= Count(b, t)
    ensures |a| <= |b|
  {
    forall t ensures multiset(a)[t] <= multiset(b)[t] { assert Count(a, t) <= Count(b, t); }
    var rest := multiset(b) - multiset(a);
    assert multiset(b) == multiset(a) + rest;
    assert |multiset(b)| == |multiset(a)| + |rest|;
    assert |multiset(a)| == |a| && |multiset(b)| == |b|;
  }

  /** If only the latest m bursts have spikes pending, the buffer is short. */
  lemma RecentIsShort(q: Sources, s: State, m: nat)
    requires Timely(q) && OnlyRecent(q, s, m)
    ensures |s.pending| <= m * q.size
  {
    var lo := Oldest(s.bursts, m);
    forall t ensures Count(s.pending, t) <= Count(SpikeRange(q, lo, s.bursts), t) {
      assert RecentAt(q, s, m, t);
      SpikeRangeCount(q, lo, s.bursts, t);
    }
    FewerIsShorter(s.pending, SpikeRange(q, lo, s.bursts));
    SpikeRangeLength(q, lo, s.bursts);
    MulGrows(q.size, s.bursts - lo, m);
  }

  /** With periodic onsets and spikes confined to a window, the buffer never
      holds more than MaxOverlap * size spikes. */
  lemma BufferBound(q: Sources, es: seq<Event>, first: int, period: nat, window: nat)
    requires Timely(q) && Legal(q, es) && Periodic(q, first, period) && Within(q, window)
    ensures |Exec(q, es).pending| <= MaxOverlap(window, period) * q.size
  {
    var m := MaxOverlap(window, period);
    PeriodicClears(q, first, period, window);
    RunRecent(q, es, window, m);
    RecentIsShort(q, Exec(q, es), m);
  }

  // ----- bursts spawned in one call of Next

  /** The state after spawning m bursts. */
  ghost function Spawned(q: Sources, s: State, m: nat): (r: State)
    ensures r.bursts == s.bursts + m && r.emitted == s.emitted && r.log == s.log
  {
    if m == 0 then s else AfterOnset(q, Spawned(q, s, m - 1))
  }

  /** m bursts in a row may be spawned from s. */
  ghost predicate MaySpawn(q: Sources, s: State, m: nat) {
    forall j: nat :: j < m ==> OnsetTurn(q, Spawned(q, s, j))
  }

  /** No call of Next spawns more than limit bursts before it returns. */
  ghost predicate SpawnsAtMost(q: Sources, limit: nat) {
    forall s, m: nat :: Inv(q, s) && MaySpawn(q, s, m) ==> m <= limit
  }

  lemma {:induction false} SpawnedInv(q: Sources, s: State, m: nat)
    requires Timely(q) && Inv(q, s) && MaySpawn(q, s, m)
    ensures Inv(q, Spawned(q, s, m))
  {
    hide Inv, OnsetTurn, Timely;
    if m > 0 {
      SpawnedInv(q, s, m - 1);
      StepInv(q, Spawned(q, s, m - 1), SpawnBurst);
    }
  }

  ghost predicate IsRun(q: Sources, es: seq<Event>, s: State) {
    Legal(q, es) && Exec(q, es) == s
  }

  /** A run may be extended by any enabled event. */
  lemma Extended(q: Sources, es: seq<Event>, s: State, e: Event)
    requires IsRun(q, es, s) && Enabled(q, s, e)
    ensures IsRun(q, es + [e], Apply(q, s, e))
  {
    assert (es + [e])[..|es|] == es;
  }

  function Spawns(m: nat): seq<Event> {
    if m == 0 then [] else Spawns(m - 1) + [SpawnBurst]
  }

  lemma {:induction false} SpawnsExtend(q: Sources, es: seq<Event>, s: State, m: nat)
    requires IsRun(q, es, s) && MaySpawn(q, s, m)
    ensures IsRun(q, es + Spawns(m), Spawned(q, s, m))
  {
    if m == 0 {
      assert es + [] == es;
    } else {
      SpawnsExtend(q, es, s, m - 1);
      assert OnsetTurn(q, Spawned(q, s, m - 1));
      Extended(q, es + Spawns(m - 1), Spawned(q, s, m - 1), SpawnBurst);
      assert (es + Spawns(m - 1)) + [SpawnBurst] == es + Spawns(m);
    }
  }

  lemma StaysInBuffer(q: Sources, s: State, t: int)
    requires t in s.pending || t in q.spikes(s.bursts)
    ensures t in AfterOnset(q, s).pending
  {
    MergedElement(s.pending, q.spikes(s.bursts), t);
  }

  /** While bursts are spawned in a row, the first one's spikes stay pending. */
  lemma {:induction false} FirstStaysPending(q: Sources, s: State, m: nat, t: int)
    requires m >= 1 && t in q.spikes(s.bursts)
    ensures t in Spawned(q, s, m).pending
  {
    if m > 1 { FirstStaysPending(q, s, m - 1, t); }
    StaysInBuffer(q, Spawned(q, s, m - 1), t);
  }

  /** So a later one is spawned before any of them. */
  lemma LaterSpawn(q: Sources, s: State, m: nat, t: int)
    requires Timely(q) && Inv(q, s) && MaySpawn(q, s, m + 1)
    requires m >= 1 && t in q.spikes(s.bursts)
    ensures q.onset(s.bursts + m) < t
  {
    FirstStaysPending(q, s, m, t);
    SpawnedInv(q, s, m);
  }

  /** After a spawn with a spike at its onset, that spike is next. */
  lemma SpikeIsNext(q: Sources, s: State)
    requires Timely(q) && Prompt(q) && Inv(q, s) && OnsetTurn(q, s)
    ensures SpikeTurn(q, AfterOnset(q, s))
    ensures AfterOnset(q, s).pending[0] == q.onset(s.bursts)
  {
    var s', o := AfterOnset(q, s), q.onset(s.bursts);
    StaysInBuffer(q, s, o);
    MergedFromOnset(q, s);
    assert s'.pending[0] in s'.pending;
    forall i | 0 <= i < |s'.emitted| ensures o + 1 <= NextOf(q, s', i) {
      assert NextOf(q, s', i) == NextOf(q, s, i);
    }
  }

  lemma PromptSpawnsOnce(q: Sources)
    requires Timely(q) && Prompt(q)
    ensures SpawnsAtMost(q, 1)
  {
    forall s, m: nat | Inv(q, s) && MaySpawn(q, s, m) ensures m <= 1 {
      if m >= 2 { LaterSpawn(q, s, m - 1, q.onset(s.bursts)); }
    }
  }

  /** No onset m places after the first is before the end of its window. */
  lemma ClearsStopsSpawning(q: Sources, s: State, window: nat, m: nat)
    requires Timely(q) && Within(q, window) && Clears(q, window, m) && q.size > 0
    requires Inv(q, s) && m >= 1
    ensures !MaySpawn(q, s, m + 1)
  {
    if MaySpawn(q, s, m + 1) { LaterSpawn(q, s, m, q.spikes(s.bursts)[0]); }
  }

  lemma FewerSpawns(q: Sources, s: State, n: nat, m: nat)
    requires n <= m && MaySpawn(q, s, m)
    ensures MaySpawn(q, s, n)
  {
  }

  lemma PeriodicSpawns(q: Sources, first: int, period: nat, window: nat)
    requires Timely(q) && Periodic(q, first, period) && Within(q, window) && q.size > 0
    ensures SpawnsAtMost(q, MaxOverlap(window, period))
  {
    var limit := MaxOverlap(window, period);
    PeriodicClears(q, first, period, window);
    forall s, m: nat | Inv(q, s) && MaySpawn(q, s, m) ensures m <= limit {
      if m > limit {
        FewerSpawns(q, s, limit + 1, m);
        ClearsStopsSpawning(q, s, window, limit);
      }
    }
  }

  ghost predicate AllFrom(s: seq<int>, time: int) {
    forall t :: t in s ==> time <= t
  }

  lemma MergedAllFrom(pending: seq<int>, spikes: seq<int>, time: int)
    requires AllFrom(pending, time) && AllFrom(spikes, time)
    ensures AllFrom(Merged(pending, spikes), time)
  {
    forall t | t in Merged(pending, spikes) ensures time <= t {
      MergedElement(pending, spikes, t);
    }
  }

  /** If no spike is before some time, nothing pending is; and m bursts bring
      m times size spikes. */
  lemma {:induction false} AllSpikesFrom(q: Sources, s: State, m: nat, time: int)
    requires Timely(q) && forall b: nat :: AllFrom(q.spikes(b), time)
    requires s.pending == []
    ensures AllFrom(Spawned(q, s, m).pending, time) && |Spawned(q, s, m).pending| == m * q.size
  {
    if m > 0 {
      AllSpikesFrom(q, s, m - 1, time);
      var before := Spawned(q, s, m - 1);
      MergedAllFrom(before.pending, q.spikes(before.bursts), time);
      MulSnoc(m - 1, q.size);
    }
  }

  /** If moreover m onsets come before that time (the first may be at it), the
      deadline and every stream, the first call spawns all m at once. */
  lemma SpawnsTogether(q: Sources, m: nat, time: int)
    requires Timely(q) && q.bursting && forall b: nat :: AllFrom(q.spikes(b), time)
    requires forall b: nat :: b < m ==> q.onset(b) < q.deadline && (b > 0 ==> q.onset(b) < time)
    requires forall b: nat, i: nat :: b < m && i < q.streams ==> q.onset(b) < q.arrival(i, 0)
    ensures MaySpawn(q, Init(q), m) && |Spawned(q, Init(q), m).pending| == m * q.size
  {
    AllSpikesFrom(q, Init(q), m, time);
    forall j: nat | j < m ensures OnsetTurn(q, Spawned(q, Init(q), j)) {
      var s := Spawned(q, Init(q), j);
      AllSpikesFrom(q, Init(q), j, time);
      assert s.pending != [] ==> s.pending[0] in s.pending;
      forall i | 0 <= i < |s.emitted| ensures q.onset(j) + 1 <= NextOf(q, s, i) {
        assert s.emitted[i] == 0;
      }
    }
  }

  /** If the onsets reach the deadline, a call cannot spawn past that. */
  lemma HorizonLimits(q: Sources, horizon: nat)
    requires Timely(q) && (q.bursting ==> q.deadline <= q.onset(horizon))
    ensures SpawnsAtMost(q, horizon)
  {
    forall s, m: nat | Inv(q, s) && MaySpawn(q, s, m) ensures m <= horizon {
      if m > 0 {
        assert OnsetTurn(q, Spawned(q, s, m - 1));
        EarlierOnset(q, s.bursts + m - 1, horizon);
      }
    }
  }

  // ----- bursts alone

  /** Each burst is over before the next onset. */
  ghost predicate Separate(q: Sources) {
    forall b: nat, e: nat, i: nat :: b < e && i < |q.spikes(b)| ==> q.spikes(b)[i] < q.onset(e)
  }

  function EmissionTimes(log: seq<Arrival>): (ts: seq<int>)
    ensures |ts| == |log|
  {
    seq(|log|, i requires 0 <= i < |log| => log[i].time)
  }

  lemma {:induction false} SpikeTimesBeforeOnset(q: Sources, b: nat, e: nat)
    requires Separate(q) && b <= e
    ensures forall t :: t in SpikeTimes(q, b) ==> t < q.onset(e)
  {
    if b > 0 { SpikeTimesBeforeOnset(q, b - 1, e); }
  }

  /** What has come out and what is pending are all the spikes, in order. */
  ghost predicate InOrder(q: Sources, s: State) {
    && s.emitted == []
    && EmissionTimes(s.log) + s.pending == SpikeTimes(q, s.bursts)
    && forall a :: a in s.log ==> a.kind == Spike
  }

  lemma SpikeInOrder(q: Sources, s: State)
    requires InOrder(q, s) && s.pending != []
    ensures InOrder(q, AfterSpike(s))
  {
    assert EmissionTimes(AfterSpike(s).log) == EmissionTimes(s.log) + [s.pending[0]];
    assert EmissionTimes(s.log) + s.pending == (EmissionTimes(s.log) + [s.pending[0]]) + s.pending[1..];
  }

  lemma PendingWasSpawned(q: Sources, s: State)
    requires InOrder(q, s) && s.pending != []
    ensures s.pending[0] in SpikeTimes(q, s.bursts)
  {
    assert s.pending[0] == (EmissionTimes(s.log) + s.pending)[|s.log|];
  }

  /** A burst is only spawned once its predecessors have come out entirely. */
  lemma OnsetInOrder(q: Sources, s: State)
    requires InOrder(q, s) && Separate(q) && OnsetTurn(q, s)
    ensures InOrder(q, AfterOnset(q, s))
  {
    if s.pending != [] {
      PendingWasSpawned(q, s);
      SpikeTimesBeforeOnset(q, s.bursts, s.bursts);
      assert false;
    }
    assert SpikeTimes(q, s.bursts + 1) == SpikeTimes(q, s.bursts) + q.spikes(s.bursts);
  }

  /** Without base arrivals, separate bursts come out one after the other. */
  lemma {:induction false} BurstsInOrder(q: Sources, es: seq<Event>)
    requires Legal(q, es) && Separate(q) && q.streams == 0
    ensures InOrder(q, Exec(q, es))
  {
    if es != [] {
      var n := |es| - 1;
      BurstsInOrder(q, es[..n]);
      var s := Exec(q, es[..n]);
      match es[n]
      case FromStream(i) =>
      case FromPending => SpikeInOrder(q, s);
      case SpawnBurst => OnsetInOrder(q, s);
    }
  }

  lemma {:induction false} SpikeTimesLength(q: Sources, b: nat)
    requires Timely(q)
    ensures |SpikeTimes(q, b)| == b * q.size
  {
    if b > 0 {
      SpikeTimesLength(q, b - 1);
      assert b * q.size == (b - 1) * q.size + q.size;
    }
  }

  lemma {:induction false} SpikeTimesAt(q: Sources, b: nat, k: nat)
    requires Timely(q) && q.size > 0 && k < |SpikeTimes(q, b)|
    ensures k / q.size < b && SpikeTimes(q, b)[k] == q.spikes(k / q.size)[k % q.size]
    ensures |SpikeTimes(q, b)| == b * q.size
  {
    SpikeTimesLength(q, b - 1);
    SpikeTimesLength(q, b);
    if k < |SpikeTimes(q, b - 1)| {
      SpikeTimesAt(q, b - 1, k);
    } else {
      var r := k - (b - 1) * q.size;
      assert b * q.size == (b - 1) * q.size + q.size;
      ModUnique(k, q.size, b - 1, r);
    }
  }

  /** Emission k is spike k mod size of burst k / size. */
  lemma SeparateLogAt(q: Sources, es: seq<Event>, k: nat)
    requires Timely(q) && Separate(q) && q.streams == 0 && q.size > 0
    requires Legal(q, es) && k < |Exec(q, es).log|
    ensures Exec(q, es).log[k] == Arrival(q.spikes(k / q.size)[k % q.size], Spike)
  {
    var s := Exec(q, es);
    BurstsInOrder(q, es);
    assert (EmissionTimes(s.log) + s.pending)[k] == s.log[k].time;
    SpikeTimesAt(q, s.bursts, k);
    assert s.log[k] in s.log;
  }
}
