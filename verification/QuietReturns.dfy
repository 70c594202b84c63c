/** When a call of Next that returns false has nevertheless spawned bursts. */
module QuietReturns {
  import opened Arithmetic
  import opened Sorting
  import opened Schedule
  import opened Merge
  import opened MergeInvariant
  import opened MergeTheorems
  import opened BurstTheorems
  import opened ScheduleTheorems

  /** From s a call spawns m bursts and then finds nothing left. */
  ghost predicate InVain(q: Sources, s: State, m: nat) {
    MaySpawn(q, s, m) && Exhausted(q, Spawned(q, s, m))
  }

  /** No call that returns false has spawned anything. */
  ghost predicate Quiet(q: Sources) {
    forall es, m: nat :: Legal(q, es) && InVain(q, Exec(q, es), m) ==> m == 0
  }

  /** A burst with a spike before the deadline is not spawned in vain. */
  lemma SpikeKeepsGoing(q: Sources, s: State, m: nat, t: int)
    requires Timely(q) && Inv(q, s) && m > 0 && MaySpawn(q, s, m)
    requires t in q.spikes(s.bursts) && t < q.deadline
    ensures !Exhausted(q, Spawned(q, s, m))
  {
    FirstStaysPending(q, s, m, t);
    SpawnedInv(q, s, m);
  }

  lemma {:induction false} SpikeOfSomeBurst(q: Sources, n: nat, t: int) returns (b: nat)
    requires SpikeCount(q, n, t) > 0
    ensures b < n && t in q.spikes(b)
  {
    if Count(q.spikes(n - 1), t) > 0 {
      b := n - 1;
    } else {
      b := SpikeOfSomeBurst(q, n - 1, t);
    }
  }

  /** Of n bursts before the deadline the last has all its spikes from the
      deadline on, the others all of theirs before its onset, and no stream
      has anything before the deadline. */
  ghost predicate LastIsLate(q: Sources, n: nat) {
    && q.bursting && n > 0 && q.onset(n - 1) < q.deadline <= q.onset(n)
    && AllFrom(q.spikes(n - 1), q.deadline)
    && (forall b: nat, t :: b < n - 1 && t in q.spikes(b) ==> t < q.onset(n - 1))
    && (forall i: nat :: i < q.streams ==> q.deadline <= q.arrival(i, 0))
  }

  lemma NoStreamTurn(q: Sources, n: nat, s: State, i: nat)
    requires Timely(q) && Inv(q, s) && LastIsLate(q, n)
    ensures !StreamTurn(q, s, i)
  {
    if i < |s.emitted| { assert q.arrival(i, 0) <= NextOf(q, s, i); }
  }

  lemma NoSpikeTurn(q: Sources, n: nat, s: State)
    requires Timely(q) && Inv(q, s) && LastIsLate(q, n) && s.bursts == n
    ensures !SpikeTurn(q, s)
  {
    if s.pending != [] {
      var t := s.pending[0];
      assert Count(s.pending, t) > 0;
      var b := SpikeOfSomeBurst(q, n, t);
      assert q.onset(n - 1) <= t;
      assert b == n - 1;
    }
  }

  /** Only its spawn can end a run of such sources. */
  lemma LastStepSpawns(q: Sources, n: nat, s: State, e: Event)
    requires Timely(q) && Inv(q, s) && LastIsLate(q, n) && Enabled(q, s, e)
    requires Apply(q, s, e).bursts == n
    ensures e == SpawnBurst
  {
    if e.FromStream? { NoStreamTurn(q, n, s, e.i); }
    if s.bursts == n { NoSpikeTurn(q, n, s); }
  }

  lemma BurstsSpawned(q: Sources, n: nat, es: seq<Event>)
    requires Timely(q) && LastIsLate(q, n) && Legal(q, es) && Exhausted(q, Exec(q, es))
    ensures Exec(q, es).bursts == n && es != []
  {
    var b := Exec(q, es).bursts;
    RunTallied(q, es);
    EarlierOnset(q, n - 1, b);
    if b > 0 { EarlierOnset(q, b - 1, n); }
  }

  /** So some call spawns it in vain. */
  lemma NotQuiet(q: Sources, n: nat)
    requires Timely(q) && LastIsLate(q, n)
    ensures !Quiet(q)
  {
    forall i | 0 <= i < q.streams ensures q.deadline <= q.arrival(i, n) {
      assert q.arrival(i, 0) <= q.arrival(i, n);
    }
    var es := Continue(q, [], n);
    BurstsSpawned(q, n, es);
    var k := |es| - 1;
    var s := Exec(q, es[..k]);
    RunInv(q, es[..k]);
    LastStepSpawns(q, n, s, es[k]);
    assert Spawned(q, s, 1) == AfterOnset(q, Spawned(q, s, 0)) == Exec(q, es);
    assert InVain(q, s, 1);
  }

  // ----- for which configurations

  /** A burst before the deadline can have all its spikes from the deadline on. */
  predicate MaySpawnInVain(c: Setup) {
    && c.Bursting() && c.burst.shape == RandomShape && c.burst.window > 1
    && c.start + c.burst.period < c.deadline
    && (c.burst.jitter == FixedJitter ==>
          (c.deadline - c.start - 1) % c.burst.period + 2 <= c.burst.window)
  }

  /** How far a multiple of p is below x. */
  lemma MultipleBelow(x: nat, p: nat, k: nat)
    requires p > 0 && k * p <= x
    ensures x - k * p >= x % p
    ensures k == x / p ==> x - k * p == x % p
  {
    assert x == (x / p) * p + x % p;
    if k <= x / p {
      MulGrows(p, k, x / p);
    } else {
      MulGrows(p, x / p + 1, k);
      MulSnoc(x / p, p);
    }
  }

  /** Under fixed jitter, how far the deadline is from an onset before it. */
  lemma OnsetToDeadline(c: Setup, d: Draws, b: nat)
    requires c.Bursting() && c.burst.jitter == FixedJitter && Onset(c, d, b) < c.deadline
    ensures c.deadline > c.start
    ensures c.deadline - Onset(c, d, b) >= (c.deadline - c.start - 1) % c.burst.period + 1
    ensures 1 + b == (c.deadline - c.start - 1) / c.burst.period ==>
      c.deadline - Onset(c, d, b) == (c.deadline - c.start - 1) % c.burst.period + 1
  {
    FixedOnset(c, d, b);
    MulGrows(c.burst.period, 0, 1 + b);
    MultipleBelow(c.deadline - c.start - 1, c.burst.period, 1 + b);
  }

  /** Outside them some spike of every burst is before the deadline. */
  lemma SomeSpikeInTime(c: Setup, d: Draws, b: nat) returns (t: int)
    requires Fits(c, d) && c.Bursting() && !MaySpawnInVain(c) && Onset(c, d, b) < c.deadline
    ensures t in Spikes(c, d, b) && t < c.deadline
  {
    if c.burst.shape != RandomShape || c.burst.window <= 1 {
      t := Onset(c, d, b);
      OnsetSpikes(c, d);
      assert SourcesOf(c, d).onset(b) in SourcesOf(c, d).spikes(b);
    } else {
      t := Spikes(c, d, b)[0];
      var i := SpikeHasOffset(c, d, b, 0);
      assert d.offset(b, i) <= LastOffset(c.burst.window);
      OnsetGrows(c, d, 0, b);
      if c.burst.jitter == FixedJitter { OnsetToDeadline(c, d, b); }
    }
  }

  lemma QuietOutside(c: Setup, d: Draws)
    requires Fits(c, d) && !MaySpawnInVain(c)
    ensures Quiet(SourcesOf(c, d))
  {
    var q := SourcesOf(c, d);
    SourcesAreTimely(c, d);
    forall es, m: nat | Legal(q, es) && InVain(q, Exec(q, es), m) ensures m == 0 {
      var s := Exec(q, es);
      RunInv(q, es);
      if m > 0 {
        assert OnsetTurn(q, Spawned(q, s, 0));
        var t := SomeSpikeInTime(c, d, s.bursts);
        SpikeKeepsGoing(q, s, m, t);
      }
    }
  }

  /** How many bursts the witness spawns: under Poisson jitter one if its window
      reaches the deadline, else a second one just before it. */
  function Bursts(c: Setup): nat
    requires MaySpawnInVain(c)
  {
    if c.burst.jitter == FixedJitter then (c.deadline - c.start - 1) / c.burst.period
    else if c.start + c.burst.period + c.burst.window > c.deadline then 1
    else 2
  }

  /** The last burst as late in its window as can be, the others at their
      onsets, no stream before the deadline. */
  function LastLate(c: Setup): Draws
    requires MaySpawnInVain(c)
  {
    var n, len := Bursts(c), c.deadline - c.start;
    Draws((i: nat, k: nat) => len,
          (b: nat, i: nat) => if b + 1 == n then c.burst.window - 1 else 0,
          (b: nat) => if b + 1 == n then len else len - 1 - c.burst.period)
  }

  lemma LastMultiple(x: nat, p: nat)
    requires 0 < p <= x
    ensures var n := x / p; n > 0 && n * p == x - x % p && (n - 1) * p + p == n * p && (1 + n) * p == n * p + p
  {
    var n := x / p;
    DivGrows(p, x, p);
    assert x == n * p + x % p;
    MulSnoc(n - 1, p);
    MulSnoc(n, p);
  }

  lemma FixedLastOnsets(c: Setup, d: Draws, n: nat)
    requires MaySpawnInVain(c) && c.burst.jitter == FixedJitter && n == (c.deadline - c.start - 1) / c.burst.period
    ensures n > 0 && Onset(c, d, n - 1) < c.deadline <= Onset(c, d, n)
    ensures c.deadline <= Onset(c, d, n - 1) + c.burst.window - 1
    ensures n > 1 ==> Onset(c, d, n - 2) < Onset(c, d, n - 1)
  {
    hide Onset;
    LastMultiple(c.deadline - c.start - 1, c.burst.period);
    FixedOnset(c, d, n - 1);
    FixedOnset(c, d, n);
    if n > 1 { FixedOnset(c, d, n - 2); }
  }

  lemma LastLateOnsets(c: Setup)
    requires MaySpawnInVain(c)
    ensures var n, d := Bursts(c), LastLate(c);
      n > 0 && Onset(c, d, n - 1) < c.deadline <= Onset(c, d, n) &&
      c.deadline <= Onset(c, d, n - 1) + c.burst.window - 1 &&
      (n > 1 ==> Onset(c, d, n - 2) < Onset(c, d, n - 1))
  {
    if c.burst.jitter == FixedJitter { FixedLastOnsets(c, LastLate(c), Bursts(c)); }
  }

  lemma LastSpikes(c: Setup)
    requires MaySpawnInVain(c)
    ensures Bursts(c) > 0 && AllFrom(Spikes(c, LastLate(c), Bursts(c) - 1), c.deadline)
  {
    var n, d := Bursts(c), LastLate(c);
    LastLateOnsets(c);
    var s := Spikes(c, d, n - 1);
    forall t | t in s ensures c.deadline <= t {
      var k :| 0 <= k < |s| && s[k] == t;
      var i := SpikeHasOffset(c, d, n - 1, k);
    }
  }

  lemma EarlierSpikes(c: Setup, b: nat, t: int)
    requires MaySpawnInVain(c) && b + 1 < Bursts(c) && t in Spikes(c, LastLate(c), b)
    ensures t < Onset(c, LastLate(c), Bursts(c) - 1)
  {
    var d := LastLate(c);
    LastLateOnsets(c);
    var s := Spikes(c, d, b);
    var k :| 0 <= k < |s| && s[k] == t;
    var i := SpikeHasOffset(c, d, b, k);
    OnsetGrows(c, d, b, Bursts(c) - 2);
  }

  lemma LastLateIsLate(c: Setup)
    requires MaySpawnInVain(c)
    ensures Fits(c, LastLate(c)) && LastIsLate(SourcesOf(c, LastLate(c)), Bursts(c))
  {
    var n, d := Bursts(c), LastLate(c);
    var q := SourcesOf(c, d);
    LastLateOnsets(c);
    LastSpikes(c);
    forall b: nat, t | b < n - 1 && t in q.spikes(b) ensures t < q.onset(n - 1) { EarlierSpikes(c, b, t); }
    forall i: nat | i < q.streams ensures q.deadline <= q.arrival(i, 0) {
      assert StreamTime(c, d, i, 0) == c.start + d.gap(i, 0);
    }
  }

  /** A call that returns false has changed nothing, whatever is drawn, exactly
      in the configurations outside MaySpawnInVain. */
  lemma FalseIsQuietIff(c: Setup)
    ensures !MaySpawnInVain(c) <==> forall d :: Fits(c, d) ==> Quiet(SourcesOf(c, d))
  {
    if MaySpawnInVain(c) {
      LastLateIsLate(c);
      SourcesAreTimely(c, LastLate(c));
      NotQuiet(SourcesOf(c, LastLate(c)), Bursts(c));
    } else {
      forall d | Fits(c, d) ensures Quiet(SourcesOf(c, d)) { QuietOutside(c, d); }
    }
  }
}
