/** What whole runs of the merging machine emit. */
module MergeTheorems {
  import opened Arithmetic
  import opened Counting
  import opened Sorting
  import opened Merge
  import opened MergeInvariant

  // ----- ordered emission

  /** Over every run: emissions never go back in time, are before the deadline,
      and at equal times base arrivals precede spikes. */
  lemma OrderedEmission(q: Sources, es: seq<Event>, i: nat, j: nat)
    requires Timely(q) && Legal(q, es)
    requires i < j < |Exec(q, es).log|
    ensures var log := Exec(q, es).log;
            log[i].time <= log[j].time < q.deadline &&
            (log[i].time == log[j].time && log[i].kind == Spike ==> log[j].kind == Spike)
  {
    RunInv(q, es);
    var log := Exec(q, es).log;
    assert Rank(log[i]) <= Rank(log[j]);
  }

  // ----- when the machine stops

  lemma {:induction false} EarliestStream(q: Sources, s: State, n: nat) returns (i: nat)
    requires 0 < n <= |s.emitted|
    ensures i < n
    ensures forall j :: 0 <= j < n ==> NextOf(q, s, i) <= NextOf(q, s, j)
  {
    if n == 1 {
      i := 0;
    } else {
      i := EarliestStream(q, s, n - 1);
      if NextOf(q, s, n - 1) < NextOf(q, s, i) { i := n - 1; }
    }
  }

  /** Something is enabled unless the schedule is exhausted. */
  lemma SomeEvent(q: Sources, s: State) returns (e: Event)
    requires !Exhausted(q, s)
    ensures Enabled(q, s, e)
  {
    if q.bursting && OnsetTurn(q, s) { return SpawnBurst; }
    if s.pending != [] && SpikeTurn(q, s) { return FromPending; }
    if |s.emitted| > 0 {
      var i := EarliestStream(q, s, |s.emitted|);
      assert StreamsFrom(q, s, NextOf(q, s, i));
      if StreamTurn(q, s, i) { return FromStream(i); }
      var t := NextOf(q, s, i);
      assert forall u :: u <= t ==> StreamsFrom(q, s, u);
    }
    assert false;
  }

  /** The machine is stuck exactly when nothing is left before the deadline. */
  lemma StuckIffExhausted(q: Sources, s: State)
    ensures Exhausted(q, s) <==> forall e :: !Enabled(q, s, e)
  {
    if Exhausted(q, s) {
      forall e ensures !Enabled(q, s, e) {
        match e
        case FromStream(i) => if i < |s.emitted| { assert q.deadline <= NextOf(q, s, i); }
        case FromPending =>
        case SpawnBurst =>
      }
    } else {
      var e := SomeEvent(q, s);
    }
  }

  // ----- the emitted log is the sorted reference

  lemma {:induction false} TagHits(ts: seq<int>, kind: Kind, x: Arrival)
    ensures Hits(Tag(ts, kind), x) == if kind == x.kind then Count(ts, x.time) else 0
  {
    if ts != [] {
      var n := |ts| - 1;
      TagHits(ts[..n], kind, x);
      assert Tag(ts, kind) == Tag(ts[..n], kind) + [Arrival(ts[n], kind)];
      HitsSnoc(Tag(ts[..n], kind), Arrival(ts[n], kind), x);
      assert ts == ts[..n] + [ts[n]];
      CountSnoc(ts[..n], ts[n], x.time);
    }
  }

  function Is(t: int): int -> bool { x => x == t }

  lemma {:induction false} NumIsCount(s: seq<int>, t: int)
    ensures Num(s, Is(t)) == Count(s, t)
  {
    if s != [] {
      var n := |s| - 1;
      NumIsCount(s[..n], t);
      assert s == s[..n] + [s[n]];
      CountSnoc(s[..n], s[n], t);
    }
  }

  lemma {:induction false} PrefixTimes(q: Sources, i: nat, k: nat, t: int)
    ensures Num(StreamPrefix(q, i, k), Is(t)) == PrefixCount(q, i, k, t)
  {
    if k > 0 {
      PrefixTimes(q, i, k - 1, t);
      NumSnoc(StreamPrefix(q, i, k - 1), q.arrival(i, k - 1), Is(t));
    }
  }

  lemma {:induction false} EvenCounts(q: Sources, ks: seq<nat>, k: nat, n: nat, t: int)
    requires n <= |ks| && forall i :: 0 <= i < n ==> ks[i] == k
    ensures StreamCount(q, ks, n, t) == TotalCount((i: nat) => PrefixCount(q, i, k, t), n)
  {
    if n > 0 { EvenCounts(q, ks, k, n - 1, t); }
  }

  lemma AllStreamTimes(q: Sources, ks: seq<nat>, k: nat, n: nat, t: int)
    requires n <= |ks| && forall i :: 0 <= i < n ==> ks[i] == k
    ensures Count(StreamTimes(q, k, n), t) == StreamCount(q, ks, n, t)
  {
    var piece, count := (i: nat) => StreamPrefix(q, i, k), (i: nat) => PrefixCount(q, i, k, t);
    forall i: nat | i < n ensures Num(piece(i), Is(t)) == count(i) { PrefixTimes(q, i, k, t); }
    NumOfPieces(piece, count, n, Is(t));
    NumIsCount(Concat(piece, n), t);
    EvenCounts(q, ks, k, n, t);
  }

  lemma {:induction false} AllSpikeTimes(q: Sources, b: nat, t: int)
    ensures Count(SpikeTimes(q, b), t) == SpikeCount(q, b, t)
  {
    if b > 0 {
      AllSpikeTimes(q, b - 1, t);
      CountConcat(SpikeTimes(q, b - 1), q.spikes(b - 1), t);
    }
  }

  lemma HitsConcat(a: seq<Arrival>, b: seq<Arrival>, x: Arrival)
    ensures Hits(a + b, x) == Hits(a, x) + Hits(b, x)
  {
  }

  /** How often an arrival occurs in the reference. */
  lemma ReferenceHits(q: Sources, k: nat, x: Arrival)
    ensures Hits(Reference(q, k), x) ==
      if x.kind == Base then StreamCount(q, seq(q.streams, _ => k), q.streams, x.time)
      else SpikeCount(q, if q.bursting then k else 0, x.time)
  {
    var ks, nb := seq(q.streams, _ => k), if q.bursting then k else 0;
    var base, spikes := StreamTimes(q, k, q.streams), SpikeTimes(q, nb);
    TagHits(base, Base, x);
    TagHits(spikes, Spike, x);
    AllStreamTimes(q, ks, k, q.streams, x.time);
    AllSpikeTimes(q, nb, x.time);
    HitsConcat(Tag(base, Base), Tag(spikes, Spike), x);
  }

  lemma {:induction false} BeforeHits(s: seq<Arrival>, deadline: int, x: Arrival)
    ensures Hits(Before(s, deadline), x) == if x.time < deadline then Hits(s, x) else 0
  {
    if s != [] {
      assert s == [s[0]] + s[1..];
      BeforeHits(s[1..], deadline, x);
    }
  }

  /** Two prefixes of a stream that both reach the deadline hold the same
      arrivals before it. */
  /** Arrivals from h on do not count at an earlier time. */
  lemma {:induction false} PrefixesAgree(q: Sources, i: nat, a: nat, b: nat, t: int, h: int)
    requires Timely(q) && a <= b && t < h <= q.arrival(i, a)
    ensures PrefixCount(q, i, a, t) == PrefixCount(q, i, b, t)
  {
    if a < b {
      PrefixesAgree(q, i, a, b - 1, t, h);
      assert q.arrival(i, a) <= q.arrival(i, b - 1);
    }
  }

  lemma {:induction false} StreamCountsAgree(q: Sources, u: seq<nat>, v: seq<nat>, n: nat, t: int, h: int)
    requires Timely(q) && n <= |u| == |v| && t < h
    requires forall i :: 0 <= i < n ==> h <= q.arrival(i, u[i])
    requires forall i :: 0 <= i < n ==> h <= q.arrival(i, v[i])
    ensures StreamCount(q, u, n, t) == StreamCount(q, v, n, t)
  {
    if n > 0 {
      var m := n - 1;
      StreamCountsAgree(q, u, v, m, t, h);
      if u[m] <= v[m] { PrefixesAgree(q, m, u[m], v[m], t, h); } else { PrefixesAgree(q, m, v[m], u[m], t, h); }
    }
  }

  /** Bursts from an onset at the deadline on bring nothing before it. */
  lemma {:induction false} SpikeCountsAgree(q: Sources, a: nat, b: nat, t: int)
    requires Timely(q) && a <= b && t < q.deadline <= q.onset(a)
    ensures SpikeCount(q, a, t) == SpikeCount(q, b, t)
  {
    if a < b {
      SpikeCountsAgree(q, a, b - 1, t);
      assert q.onset(a) <= q.onset(b - 1);
      assert t !in q.spikes(b - 1);
    }
  }

  lemma BaseAgrees(q: Sources, s: State, k: nat, t: int)
    requires Timely(q) && Inv(q, s) && Exhausted(q, s) && Covers(q, k) && t < q.deadline
    ensures Hits(s.log, Arrival(t, Base)) == StreamCount(q, seq(q.streams, _ => k), q.streams, t)
  {
    forall i | 0 <= i < |s.emitted| ensures q.deadline <= q.arrival(i, s.emitted[i]) {
      assert q.deadline <= NextOf(q, s, i);
    }
    StreamCountsAgree(q, s.emitted, seq(q.streams, _ => k), q.streams, t, q.deadline);
  }

  lemma SpikesAgree(q: Sources, s: State, k: nat, t: int)
    requires Timely(q) && Inv(q, s) && Exhausted(q, s) && Covers(q, k) && t < q.deadline
    ensures Hits(s.log, Arrival(t, Spike)) == SpikeCount(q, if q.bursting then k else 0, t)
  {
    assert t !in s.pending;
    if q.bursting {
      if s.bursts <= k { SpikeCountsAgree(q, s.bursts, k, t); } else { SpikeCountsAgree(q, k, s.bursts, t); }
    }
  }

  /** At exhaustion the log and the reference hold the same arrivals before the deadline. */
  lemma LogAgrees(q: Sources, s: State, k: nat, x: Arrival)
    requires Timely(q) && Inv(q, s) && Exhausted(q, s) && Covers(q, k)
    ensures Hits(s.log, x) == if x.time < q.deadline then Hits(Reference(q, k), x) else 0
  {
    if x.time < q.deadline {
      ReferenceHits(q, k, x);
      if x.kind == Base { BaseAgrees(q, s, k, x.time); } else { SpikesAgree(q, s, k, x.time); }
    } else {
      assert x !in s.log;
    }
  }

  lemma SameHits(a: seq<Arrival>, b: seq<Arrival>)
    requires forall x :: Hits(a, x) == Hits(b, x)
    ensures multiset(a) == multiset(b)
  {
    forall x ensures multiset(a)[x] == multiset(b)[x] { assert Hits(a, x) == Hits(b, x); }
  }

  lemma RankInjective()
    ensures Injective(Rank)
  {
  }

  /** The merge refines "sort everything before the deadline": once the schedule
      is exhausted the log IS the sorted reference, times and kinds, whatever the
      draws and whichever of several equally early streams the heap chose. */
  lemma MergeIsSort(q: Sources, es: seq<Event>, k: nat)
    requires Timely(q) && Legal(q, es) && Covers(q, k)
    requires Exhausted(q, Exec(q, es))
    ensures Exec(q, es).log == Sort(Rank, Before(Reference(q, k), q.deadline))
  {
    RunInv(q, es);
    var s := Exec(q, es);
    var before := Before(Reference(q, k), q.deadline);
    forall x ensures Hits(s.log, x) == Hits(before, x) {
      LogAgrees(q, s, k, x);
      BeforeHits(Reference(q, k), q.deadline, x);
    }
    SameHits(s.log, before);
    RankInjective();
    SortedPermutation(Rank, s.log, before);
  }

  // ----- ties with an onset

  /** When a burst is due, all base arrivals up to its onset have been emitted,
      those at the onset included. */
  lemma BaseBeforeOnset(q: Sources, s: State, k: nat, t: int)
    requires Timely(q) && Inv(q, s) && OnsetTurn(q, s) && Covers(q, k) && t <= q.onset(s.bursts)
    ensures Hits(s.log, Arrival(t, Base)) == Hits(Reference(q, k), Arrival(t, Base))
  {
    var o := q.onset(s.bursts);
    ReferenceHits(q, k, Arrival(t, Base));
    forall i | 0 <= i < |s.emitted| ensures o + 1 <= q.arrival(i, s.emitted[i]) { assert o + 1 <= NextOf(q, s, i); }
    StreamCountsAgree(q, s.emitted, seq(q.streams, _ => k), q.streams, t, o + 1);
  }

  /** And so have all spikes up to then of the bursts before it. */
  lemma SpikesBeforeOnset(q: Sources, s: State, t: int)
    requires Inv(q, s) && OnsetTurn(q, s) && t <= q.onset(s.bursts)
    ensures Hits(s.log, Arrival(t, Spike)) == Count(SpikeTimes(q, s.bursts), t)
  {
    AllSpikeTimes(q, s.bursts, t);
    assert t !in s.pending;
  }

  /** In every run an onset loses ties: a burst is spawned only after every base
      arrival and every spike of an earlier burst that is not later than it. */
  lemma OnsetLosesTies(q: Sources, es: seq<Event>, k: nat, t: int)
    requires Timely(q) && Legal(q, es) && Covers(q, k) && OnsetTurn(q, Exec(q, es))
    requires t <= q.onset(Exec(q, es).bursts)
    ensures Hits(Exec(q, es).log, Arrival(t, Base)) == Hits(Reference(q, k), Arrival(t, Base))
    ensures Hits(Exec(q, es).log, Arrival(t, Spike)) == Count(SpikeTimes(q, Exec(q, es).bursts), t)
  {
    RunInv(q, es);
    BaseBeforeOnset(q, Exec(q, es), k, t);
    SpikesBeforeOnset(q, Exec(q, es), t);
  }

  // ----- conservation and the length of a run

  /** The counters a state stands for, and what a stream or an onset that has
      been used must have satisfied. */
  ghost predicate Tallied(q: Sources, s: State) {
    && |s.emitted| == q.streams
    && (forall i :: 0 <= i < |s.emitted| && s.emitted[i] > 0 ==> q.arrival(i, s.emitted[i] - 1) < q.deadline)
    && (s.bursts > 0 ==> q.bursting && q.onset(s.bursts - 1) < q.deadline)
    && CountKind(s.log, Base) == Sum(s.emitted)
    && s.bursts * q.size == CountKind(s.log, Spike) + |s.pending|
  }

  lemma {:induction false} SumStep(s: seq<nat>, i: nat)
    requires i < |s|
    ensures Sum(s[i := s[i] + 1]) == Sum(s) + 1
  {
    var n := |s| - 1;
    var up := s[i := s[i] + 1];
    if i < n {
      assert up[..n] == s[..n][i := s[..n][i] + 1];
      SumStep(s[..n], i);
    } else {
      assert up[..n] == s[..n];
    }
  }

  lemma {:induction false} SumZeros(s: seq<nat>)
    requires forall i :: 0 <= i < |s| ==> s[i] == 0
    ensures Sum(s) == 0
  {
    if s != [] { SumZeros(s[..|s| - 1]); }
  }

  lemma {:induction false} SumBound(s: seq<nat>, k: nat)
    requires forall i :: 0 <= i < |s| ==> s[i] <= k
    ensures Sum(s) <= |s| * k
  {
    if s != [] {
      SumBound(s[..|s| - 1], k);
      assert |s| * k == (|s| - 1) * k + k;
    }
  }

  lemma CountKindSnoc(log: seq<Arrival>, a: Arrival, kind: Kind)
    ensures CountKind(log + [a], kind) == CountKind(log, kind) + if a.kind == kind then 1 else 0
  {
    assert (log + [a])[..|log|] == log;
  }

  lemma StreamTallied(q: Sources, s: State, i: nat)
    requires Tallied(q, s) && StreamTurn(q, s, i)
    ensures Tallied(q, AfterStream(q, s, i))
  {
    var a := Arrival(NextOf(q, s, i), Base);
    SumStep(s.emitted, i);
    CountKindSnoc(s.log, a, Base);
    CountKindSnoc(s.log, a, Spike);
  }

  lemma SpikeTallied(q: Sources, s: State)
    requires Tallied(q, s) && SpikeTurn(q, s)
    ensures Tallied(q, AfterSpike(s))
  {
    var a := Arrival(s.pending[0], Spike);
    CountKindSnoc(s.log, a, Base);
    CountKindSnoc(s.log, a, Spike);
  }

  lemma OnsetTallied(q: Sources, s: State)
    requires Timely(q) && Tallied(q, s) && OnsetTurn(q, s)
    ensures Tallied(q, AfterOnset(q, s))
  {
    MulSnoc(s.bursts, q.size);
  }

  lemma StepTallied(q: Sources, s: State, e: Event)
    requires Timely(q) && Tallied(q, s) && Enabled(q, s, e)
    ensures Tallied(q, Apply(q, s, e))
    ensures |Apply(q, s, e).log| + Apply(q, s, e).bursts == |s.log| + s.bursts + 1
  {
    match e
    case FromStream(i) => StreamTallied(q, s, i);
    case FromPending => SpikeTallied(q, s);
    case SpawnBurst => OnsetTallied(q, s);
  }

  lemma {:induction false} RunTallied(q: Sources, es: seq<Event>)
    requires Timely(q) && Legal(q, es)
    ensures Tallied(q, Exec(q, es))
    ensures |es| == |Exec(q, es).log| + Exec(q, es).bursts
  {
    if es == [] {
      SumZeros(Init(q).emitted);
    } else {
      var n := |es| - 1;
      RunTallied(q, es[..n]);
      StepTallied(q, Exec(q, es[..n]), es[n]);
    }
  }

  lemma {:induction false} LogSplits(log: seq<Arrival>)
    ensures |log| == CountKind(log, Base) + CountKind(log, Spike)
  {
    if log != [] { LogSplits(log[..|log| - 1]); }
  }

  /** Every spike of every burst spawned has been emitted or is pending, and
      every event is an emission or a burst. */
  lemma SpikeConservation(q: Sources, es: seq<Event>)
    requires Timely(q) && Legal(q, es)
    ensures var s := Exec(q, es);
            s.bursts * q.size == CountKind(s.log, Spike) + |s.pending| &&
            |es| == CountKind(s.log, Base) + CountKind(s.log, Spike) + s.bursts
  {
    RunTallied(q, es);
    LogSplits(Exec(q, es).log);
  }

  lemma EarlierArrival(q: Sources, i: nat, m: nat, k: nat)
    requires Timely(q) && q.arrival(i, m) < q.arrival(i, k)
    ensures m < k
  {
  }

  lemma EarlierOnset(q: Sources, b: nat, e: nat)
    requires Timely(q) && q.onset(b) < q.onset(e)
    ensures b < e
  {
  }

  /** A run cannot outlast its sources: the drain is finite once they all reach
      the deadline within k arrivals and k onsets. */
  lemma RunIsBounded(q: Sources, es: seq<Event>, k: nat)
    requires Timely(q) && Legal(q, es) && Covers(q, k)
    ensures |es| <= q.streams * k + k * q.size + k
  {
    RunTallied(q, es);
    var s := Exec(q, es);
    LogSplits(s.log);
    forall i | 0 <= i < |s.emitted| ensures s.emitted[i] <= k {
      if s.emitted[i] > 0 { EarlierArrival(q, i, s.emitted[i] - 1, k); }
    }
    if s.bursts > 0 { EarlierOnset(q, s.bursts - 1, k); }
    SumBound(s.emitted, k);
    MulGrows(q.size, s.bursts, k);
  }

  lemma {:induction false} Continue(q: Sources, es: seq<Event>, k: nat) returns (full: seq<Event>)
    requires Timely(q) && Legal(q, es) && Covers(q, k)
    ensures Legal(q, full) && Exhausted(q, Exec(q, full))
    decreases q.streams * k + k * q.size + k - |es|
  {
    RunIsBounded(q, es, k);
    if Exhausted(q, Exec(q, es)) {
      full := es;
    } else {
      var e := SomeEvent(q, Exec(q, es));
      assert (es + [e])[..|es|] == es;
      RunIsBounded(q, es + [e], k);
      full := Continue(q, es + [e], k);
    }
  }

  ghost function MaxOf(s: seq<nat>): (m: nat)
    ensures forall i :: 0 <= i < |s| ==> s[i] <= m
  {
    if s == [] then 0
    else
      var m := MaxOf(s[..|s| - 1]);
      if m < s[|s| - 1] then s[|s| - 1] else m
  }

  /** Some run drains the schedule if and only if every source reaches the
      deadline; and then no run is longer than RunIsBounded says. */
  lemma DrainsIffCovered(q: Sources)
    requires Timely(q)
    ensures (exists es :: Legal(q, es) && Exhausted(q, Exec(q, es))) <==> (exists k :: Covers(q, k))
  {
    if k :| Covers(q, k) {
      var es := Continue(q, [], k);
    }
    if es :| Legal(q, es) && Exhausted(q, Exec(q, es)) {
      var s := Exec(q, es);
      RunTallied(q, es);
      var m := MaxOf(s.emitted);
      var k := if m < s.bursts then s.bursts else m;
      forall i | 0 <= i < q.streams ensures q.deadline <= q.arrival(i, k) {
        assert q.deadline <= NextOf(q, s, i);
        assert q.arrival(i, s.emitted[i]) <= q.arrival(i, k);
      }
      assert Covers(q, k);
    }
  }
}
