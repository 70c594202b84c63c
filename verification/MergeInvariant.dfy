/** What every event of the merging machine keeps. */
module MergeInvariant {
  import opened Sorting
  import opened Merge

  ghost predicate Shaped(q: Sources, s: State) {
    && |s.emitted| == q.streams
    && (!q.bursting ==> s.bursts == 0)
    && (s.bursts == 0 ==> s.pending == [])
  }

  /** The latest emission does not come after anything still to come, in the
      order of Rank; an onset can only bring spikes. */
  ghost predicate Behind(q: Sources, s: State, a: Arrival) {
    && (forall i :: 0 <= i < |s.emitted| ==> Rank(a) <= Rank(Arrival(NextOf(q, s, i), Base)))
    && (s.pending != [] ==> a.time <= s.pending[0])
    && (q.bursting ==> a.time <= q.onset(s.bursts))
  }

  ghost predicate Ordered(q: Sources, s: State) {
    && SortedBy(Rank, s.log)
    && (forall k :: 0 <= k < |s.log| ==> s.log[k].time < q.deadline)
    && (s.log != [] ==> Behind(q, s, s.log[|s.log| - 1]))
  }

  /** The buffer is sorted and starts no earlier than the latest onset, which
      was before the deadline. */
  ghost predicate Buffered(q: Sources, s: State) {
    && Sorted(s.pending)
    && (s.bursts > 0 ==> q.onset(s.bursts - 1) < q.deadline)
    && (s.bursts > 0 && s.pending != [] ==> q.onset(s.bursts - 1) <= s.pending[0])
  }

  /** Nothing lost, duplicated or invented. */
  ghost predicate Accounted(q: Sources, s: State) {
    && (forall t :: Hits(s.log, Arrival(t, Base)) == StreamCount(q, s.emitted, |s.emitted|, t))
    && (forall t :: Hits(s.log, Arrival(t, Spike)) + Count(s.pending, t) == SpikeCount(q, s.bursts, t))
  }

  ghost predicate Inv(q: Sources, s: State) {
    Shaped(q, s) && Ordered(q, s) && Buffered(q, s) && Accounted(q, s)
  }

  // ----- counting

  lemma {:induction false} NothingYet(q: Sources, zeros: seq<nat>, n: nat, t: int)
    requires n <= |zeros| && forall i :: 0 <= i < n ==> zeros[i] == 0
    ensures StreamCount(q, zeros, n, t) == 0
  {
    if n > 0 { NothingYet(q, zeros, n - 1, t); }
  }

  lemma {:induction false} StreamCountSame(q: Sources, u: seq<nat>, v: seq<nat>, n: nat, t: int)
    requires n <= |u| && n <= |v| && forall i :: 0 <= i < n ==> u[i] == v[i]
    ensures StreamCount(q, u, n, t) == StreamCount(q, v, n, t)
  {
    if n > 0 { StreamCountSame(q, u, v, n - 1, t); }
  }

  /** One more arrival of stream i is one more occurrence of its time. */
  lemma {:induction false} StreamCountStep(q: Sources, counts: seq<nat>, i: nat, n: nat, t: int)
    requires i < n <= |counts|
    ensures StreamCount(q, counts[i := counts[i] + 1], n, t)
         == StreamCount(q, counts, n, t) + if t == q.arrival(i, counts[i]) then 1 else 0
  {
    if i < n - 1 {
      StreamCountStep(q, counts, i, n - 1, t);
    } else {
      StreamCountSame(q, counts[i := counts[i] + 1], counts, n - 1, t);
    }
  }

  lemma HitsSnoc(log: seq<Arrival>, a: Arrival, x: Arrival)
    ensures Hits(log + [a], x) == Hits(log, x) + if a == x then 1 else 0
  {
  }

  // ----- preservation, one event at a time

  lemma InitInv(q: Sources)
    ensures Inv(q, Init(q))
  {
    forall t ensures StreamCount(q, Init(q).emitted, q.streams, t) == 0 {
      NothingYet(q, Init(q).emitted, q.streams, t);
    }
  }

  lemma StreamAccounted(q: Sources, s: State, i: nat)
    requires Accounted(q, s) && i < |s.emitted|
    ensures Accounted(q, AfterStream(q, s, i))
  {
    var s', a := AfterStream(q, s, i), Arrival(NextOf(q, s, i), Base);
    forall t ensures Hits(s'.log, Arrival(t, Base)) == StreamCount(q, s'.emitted, |s'.emitted|, t) {
      StreamCountStep(q, s.emitted, i, |s.emitted|, t);
      HitsSnoc(s.log, a, Arrival(t, Base));
    }
    forall t ensures Hits(s'.log, Arrival(t, Spike)) == Hits(s.log, Arrival(t, Spike)) {
      HitsSnoc(s.log, a, Arrival(t, Spike));
    }
  }

  lemma StreamOrdered(q: Sources, s: State, i: nat)
    requires Timely(q) && Ordered(q, s) && StreamTurn(q, s, i)
    ensures Ordered(q, AfterStream(q, s, i))
  {
    var a := Arrival(NextOf(q, s, i), Base);
    var s' := AfterStream(q, s, i);
    SortedPrefix(Rank, s.log, a);
    forall j | 0 <= j < |s'.emitted| ensures a.time <= NextOf(q, s', j) {
      if j != i { assert NextOf(q, s', j) == NextOf(q, s, j); }
    }
    assert Behind(q, s', a);
  }

  lemma SpikeAccounted(q: Sources, s: State)
    requires Accounted(q, s) && s.pending != []
    ensures Accounted(q, AfterSpike(s))
  {
    var s', a := AfterSpike(s), Arrival(s.pending[0], Spike);
    forall t ensures Hits(s'.log, Arrival(t, Spike)) + Count(s'.pending, t) == SpikeCount(q, s.bursts, t) {
      CountCons(s.pending, t);
      HitsSnoc(s.log, a, Arrival(t, Spike));
    }
    forall t ensures Hits(s'.log, Arrival(t, Base)) == Hits(s.log, Arrival(t, Base)) {
      HitsSnoc(s.log, a, Arrival(t, Base));
    }
  }

  lemma SpikeOrdered(q: Sources, s: State)
    requires Timely(q) && Ordered(q, s) && Sorted(s.pending) && SpikeTurn(q, s)
    ensures Ordered(q, AfterSpike(s))
  {
    var a := Arrival(s.pending[0], Spike);
    var s' := AfterSpike(s);
    SortedPrefix(Rank, s.log, a);
    forall j | 0 <= j < |s'.emitted| ensures a.time + 1 <= NextOf(q, s', j) {
      assert NextOf(q, s', j) == NextOf(q, s, j);
    }
    assert Behind(q, s', a);
  }

  /** Merging a burst whose onset precedes the buffer keeps it sorted from that onset on. */
  lemma MergedFromOnset(q: Sources, s: State)
    requires Timely(q) && Sorted(s.pending)
    requires s.pending != [] ==> q.onset(s.bursts) < s.pending[0]
    ensures var m := Merged(s.pending, q.spikes(s.bursts));
            Sorted(m) && forall t :: t in m ==> q.onset(s.bursts) <= t
  {
    var spikes := q.spikes(s.bursts);
    var m := Merged(s.pending, spikes);
    assert forall t :: t in spikes ==> q.onset(s.bursts) <= t;
    if s.pending != [] {
      SortedInts(s.pending + spikes);
      forall t | t in m ensures q.onset(s.bursts) <= t {
        SameElements(m, s.pending + spikes, t);
        assert t in s.pending || t in spikes;
      }
    }
  }

  lemma MergedCount(pending: seq<int>, spikes: seq<int>, t: int)
    ensures Count(Merged(pending, spikes), t) == Count(pending, t) + Count(spikes, t)
  {
    SortBag(Id, pending + spikes);
    CountConcat(pending, spikes, t);
  }

  lemma OnsetAccounted(q: Sources, s: State)
    requires Accounted(q, s)
    ensures Accounted(q, AfterOnset(q, s))
  {
    var s' := AfterOnset(q, s);
    forall t ensures Hits(s'.log, Arrival(t, Spike)) + Count(s'.pending, t) == SpikeCount(q, s'.bursts, t) {
      MergedCount(s.pending, q.spikes(s.bursts), t);
    }
  }

  lemma MergedElement(pending: seq<int>, spikes: seq<int>, t: int)
    ensures t in Merged(pending, spikes) <==> t in pending || t in spikes
  {
    MergedCount(pending, spikes, t);
  }

  lemma OnsetOrdered(q: Sources, s: State)
    requires Timely(q) && Ordered(q, s) && Sorted(s.pending) && OnsetTurn(q, s)
    ensures Ordered(q, AfterOnset(q, s))
  {
    var s' := AfterOnset(q, s);
    MergedFromOnset(q, s);
    if s.log != [] {
      var last := s.log[|s.log| - 1];
      forall j | 0 <= j < |s'.emitted| ensures Rank(last) <= Rank(Arrival(NextOf(q, s', j), Base)) {
        assert NextOf(q, s', j) == NextOf(q, s, j);
      }
      assert s'.pending != [] ==> s'.pending[0] in s'.pending;
      assert Behind(q, s', last);
    }
  }

  lemma OnsetBuffered(q: Sources, s: State)
    requires Timely(q) && Buffered(q, s) && OnsetTurn(q, s)
    ensures Buffered(q, AfterOnset(q, s))
  {
    MergedFromOnset(q, s);
    var s' := AfterOnset(q, s);
    assert s'.pending != [] ==> s'.pending[0] in s'.pending;
  }

  lemma SpikeBuffered(q: Sources, s: State)
    requires Buffered(q, s) && SpikeTurn(q, s)
    ensures Buffered(q, AfterSpike(s))
  {
    assert s.pending[1..] != [] ==> s.pending[0] <= s.pending[1];
  }

  lemma StepInv(q: Sources, s: State, e: Event)
    requires Timely(q) && Inv(q, s) && Enabled(q, s, e)
    ensures Inv(q, Apply(q, s, e))
  {
    match e
    case FromStream(i) =>
      StreamAccounted(q, s, i);
      StreamOrdered(q, s, i);
    case FromPending =>
      SpikeAccounted(q, s);
      SpikeOrdered(q, s);
      SpikeBuffered(q, s);
    case SpawnBurst =>
      OnsetAccounted(q, s);
      OnsetOrdered(q, s);
      OnsetBuffered(q, s);
  }

  /** Every reachable state satisfies the invariant. */
  lemma {:induction false} RunInv(q: Sources, es: seq<Event>)
    requires Timely(q) && Legal(q, es)
    ensures Inv(q, Exec(q, es))
  {
    if es == [] {
      InitInv(q);
    } else {
      var n := |es| - 1;
      RunInv(q, es[..n]);
      StepInv(q, Exec(q, es[..n]), es[n]);
    }
  }
}
