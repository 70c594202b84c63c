/** The scheduler object: heap of Poisson streams, burst generator and buffer of
    pending spikes, and Next, which merges them. Every method is tied to the
    merging machine, so what is proved of its runs holds of the object. */
module SchedulerObject {
  import Latches
  import opened Counting
  import opened Sorting
  import opened Schedule
  import opened Merge
  import opened MergeInvariant
  import opened MergeTheorems
  import opened BurstTheorems
  import opened ScheduleContents
  import opened ScheduleTheorems
  import opened PoissonHeap

  datatype SchedulerEvent = EvNone | EvPoisson | EvSpike | EvBurstOnset

  type Counters = Latches.Counters

  /** The stream records that belong to the given numbers of emitted arrivals. */
  ghost function Records(q: Sources, emitted: seq<nat>): (r: seq<Stream>)
    ensures |r| == |emitted|
    ensures forall i :: 0 <= i < |emitted| ==> r[i] == Stream(i, emitted[i], q.arrival(i, emitted[i]))
  {
    seq(|emitted|, i requires 0 <= i < |emitted| => Stream(i, emitted[i], q.arrival(i, emitted[i])))
  }

  /** The heap holds one record per stream, up to date. */
  ghost predicate HeapFor(q: Sources, emitted: seq<nat>, items: seq<Stream>) {
    IsHeap(items) && multiset(items) == multiset(Records(q, emitted))
  }

  lemma RecordOf(q: Sources, emitted: seq<nat>, items: seq<Stream>, x: Stream)
    requires HeapFor(q, emitted, items) && x in items
    ensures x.id < |emitted| && x == Records(q, emitted)[x.id]
  {
    assert x in multiset(items);
    assert x in Records(q, emitted);
  }

  /** The root of the heap is the true earliest arrival of all streams. */
  lemma RootIsEarliest(q: Sources, s: State, items: seq<Stream>)
    requires HeapFor(q, s.emitted, items) && items != []
    ensures items[0].id < |s.emitted| && items[0].next == NextOf(q, s, items[0].id)
    ensures StreamsFrom(q, s, items[0].next)
  {
    RecordOf(q, s.emitted, items, items[0]);
    forall i | 0 <= i < |s.emitted| ensures items[0].next <= NextOf(q, s, i) {
      var r := Records(q, s.emitted)[i];
      assert r in multiset(items);
      var k :| 0 <= k < |items| && items[k] == r;
      RootIsMinimum(items, k);
    }
  }

  /** The first b onsets, in the order they are reported. */
  ghost function Onsets(q: Sources, b: nat): seq<int> {
    if b == 0 then [] else Onsets(q, b - 1) + [q.onset(b - 1)]
  }

  lemma EmptyHeap(q: Sources, s: State, items: seq<Stream>)
    requires HeapFor(q, s.emitted, items) && items == []
    ensures s.emitted == []
  {
    assert |multiset(Records(q, s.emitted))| == |multiset(items)| == 0;
  }

  /** Replacing the root's record by its successor. */
  lemma RootAdvanced(q: Sources, emitted: seq<nat>, i: nat, before: seq<Stream>, next: Stream, after: seq<Stream>)
    requires HeapFor(q, emitted, before) && IsHeap(after) && before != [] && i == before[0].id
    requires next == Stream(i, before[0].emitted + 1, q.arrival(i, before[0].emitted + 1))
    requires multiset(after) == multiset(before) - multiset{before[0]} + multiset{next}
    ensures i < |emitted| && HeapFor(q, emitted[i := emitted[i] + 1], after)
  {
    RecordOf(q, emitted, before, before[0]);
    assert Records(q, emitted[i := emitted[i] + 1]) == Records(q, emitted)[i := next];
  }

  lemma RootCycled(c: Setup, d: Draws, q: Sources, emitted: seq<nat>, i: nat,
                   before: seq<Stream>, next: Stream, after: seq<Stream>)
    returns (counts: seq<nat>)
    requires q == SourcesOf(c, d)
    requires HeapFor(q, emitted, before) && IsHeap(after) && before != [] && i == before[0].id
    requires next == Stream(i, before[0].emitted + 1, before[0].next + d.gap(i, before[0].emitted + 1))
    requires multiset(after) == multiset(before) - multiset{before[0]} + multiset{next}
    ensures i < |emitted| && counts == emitted[i := emitted[i] + 1] && HeapFor(q, counts, after)
  {
    RecordOf(q, emitted, before, before[0]);
    counts := emitted[i := emitted[i] + 1];
    assert next.next == q.arrival(i, before[0].emitted + 1);
    RootAdvanced(q, emitted, i, before, next, after);
  }

  /** The next onset is scheduled and every earlier one has been reported. */
  ghost predicate OnsetIs(q: Sources, sched: bool, next: int, notified: seq<int>, fired: nat) {
    && sched == q.bursting
    && (sched ==> next == q.onset(fired))
    && notified == Onsets(q, fired)
  }

  /** The cumulative counters are the numbers of emissions of each kind. */
  ghost predicate CountsAre(log: seq<Arrival>, spikes: nat, base: nat) {
    spikes == CountKind(log, Spike) && base == CountKind(log, Base)
  }

  /** What was drained and what is latched is what fired. */
  ghost predicate LatchesAre(drained: Counters, bursts: nat, spikes: nat, base: nat,
                             burstsFired: nat, spikesFired: nat, baseFired: nat) {
    && drained.burstsFired + bursts == burstsFired
    && drained.spikesFired + spikes == spikesFired
    && drained.baseFired + base == baseFired
  }

  /** A call that starts in s spawns at most limit bursts; and if every burst
      has a spike at its onset, that spike is next after the first one. */
  ghost predicate Limited(q: Sources, s: State, limit: nat, prompt: bool) {
    && (forall m: nat :: MaySpawn(q, s, m) ==> m <= limit)
    && (prompt && OnsetTurn(q, s) ==>
          SpikeTurn(q, AfterOnset(q, s)) && AfterOnset(q, s).pending[0] == q.onset(s.bursts))
  }

  /** The call has spawned m bursts and nothing else yet. */
  ghost predicate Partway(q: Sources, start: State, s: State, m: nat, limit: nat, prompt: bool) {
    && Limited(q, start, limit, prompt)
    && MaySpawn(q, start, m) && s == Spawned(q, start, m)
    && m <= limit
    && (m > 0 ==> OnsetTurn(q, start))
    && (m > 0 && prompt ==> m == 1)
  }

  /** If the call spawned a burst, it spawned one and returned its first spike. */
  ghost predicate SpikeFollows(q: Sources, start: State, end: State, t: int, kind: Kind, ok: bool) {
    end.bursts > start.bursts ==>
      ok && end.bursts == start.bursts + 1 && kind == Spike && t == q.onset(start.bursts)
  }

  /** Nothing was emitted: end is start after some bursts in a row. */
  ghost predicate SpawnedOnly(q: Sources, start: State, end: State) {
    end.bursts >= start.bursts && MaySpawn(q, start, end.bursts - start.bursts) &&
    end == Spawned(q, start, end.bursts - start.bursts)
  }

  /** A call emits what it returns, and returns nothing only when nothing is
      left; an exhausted schedule stays as it is. */
  ghost predicate Outcome(q: Sources, start: State, end: State, t: int, kind: Kind, ok: bool) {
    && (ok ==> end.log == start.log + [Arrival(t, kind)])
    && (!ok ==> SpawnedOnly(q, start, end) && Exhausted(q, end))
    && (Exhausted(q, start) ==> !ok && end == start)
  }

  /** The event that ended a call, before and after it. */
  ghost predicate Taken(q: Sources, before: State, end: State, event: SchedulerEvent, at: int, i: nat) {
    match event
    case EvNone => Exhausted(q, before) && end == before
    case EvPoisson => StreamTurn(q, before, i) && at == NextOf(q, before, i) && end == AfterStream(q, before, i)
    case EvSpike => SpikeTurn(q, before) && at == before.pending[0] && end == AfterSpike(before)
    case EvBurstOnset => false
  }

  /** After a spawn with a spike at its onset, a call can only return that spike. */
  lemma PromptSpike(q: Sources, start: State, s: State, m: nat, limit: nat, prompt: bool)
    requires Partway(q, start, s, m, limit, prompt)
    ensures prompt && m > 0 ==> m == 1 && SpikeTurn(q, s) && s.pending[0] == q.onset(start.bursts)
  {
    if prompt && m > 0 { assert Spawned(q, start, 1) == AfterOnset(q, start); }
  }

  /** The turns exclude each other. */
  lemma OneTurn(q: Sources, s: State)
    ensures !(SpikeTurn(q, s) && OnsetTurn(q, s))
    ensures forall i: nat :: StreamTurn(q, s, i) ==> !SpikeTurn(q, s) && !OnsetTurn(q, s) && !Exhausted(q, s)
    ensures Exhausted(q, s) ==> !SpikeTurn(q, s) && !OnsetTurn(q, s)
  {
    forall i: nat | StreamTurn(q, s, i) ensures !SpikeTurn(q, s) && !OnsetTurn(q, s) && !Exhausted(q, s) {
      assert NextOf(q, s, i) <= NextOf(q, s, i);
    }
  }

  /** The run a call adds. */
  lemma CallRun(q: Sources, start: State, before: State, end: State, es: seq<Event>,
                m: nat, limit: nat, prompt: bool, event: SchedulerEvent, at: int, i: nat)
    returns (es': seq<Event>)
    requires IsRun(q, es, start) && Partway(q, start, before, m, limit, prompt)
    requires Taken(q, before, end, event, at, i)
    ensures IsRun(q, es', end)
    ensures |es| <= |es'| && es'[..|es|] == es
    ensures Exhausted(q, start) ==> es' == es
  {
    hide IsRun, MaySpawn, StreamTurn, SpikeTurn, OnsetTurn, Exhausted;
    SpawnsExtend(q, es, start, m);
    OneTurn(q, start);
    es' := es + Spawns(m);
    match event
    case EvNone =>
    case EvSpike =>
      Extended(q, es', before, FromPending);
      es' := es' + [FromPending];
    case EvPoisson =>
      Extended(q, es', before, FromStream(i));
      es' := es' + [FromStream(i)];
  }

  /** What a call returns, in terms of the states before and after it. */
  lemma CallOutcome(q: Sources, start: State, before: State, end: State,
                    m: nat, limit: nat, prompt: bool, event: SchedulerEvent, at: int, i: nat)
    requires Partway(q, start, before, m, limit, prompt) && Taken(q, before, end, event, at, i)
    ensures start.bursts <= end.bursts <= start.bursts + limit
    ensures var t, kind := if event == EvNone then 0 else at, if event == EvSpike then Spike else Base;
            var ok := event != EvNone;
            Outcome(q, start, end, t, kind, ok) && (prompt ==> SpikeFollows(q, start, end, t, kind, ok))
  {
    hide MaySpawn, StreamTurn, SpikeTurn, OnsetTurn, Exhausted;
    PromptSpike(q, start, before, m, limit, prompt);
    OneTurn(q, start);
    OneTurn(q, before);
  }

  lemma Underway(q: Sources, s: State, limit: nat, prompt: bool)
    requires Limited(q, s, limit, prompt)
    ensures Partway(q, s, s, 0, limit, prompt)
  {
  }

  lemma OneMoreSpawn(q: Sources, start: State, s: State, m: nat, limit: nat, prompt: bool)
    requires Partway(q, start, s, m, limit, prompt) && OnsetTurn(q, s)
    ensures Partway(q, start, AfterOnset(q, s), m + 1, limit, prompt) && m < limit
  {
    hide OnsetTurn, SpikeTurn, AfterOnset;
    PromptSpike(q, start, s, m, limit, prompt);
    OneTurn(q, s);
    assert MaySpawn(q, start, m + 1);
    assert MaySpawn(q, start, 1);
  }

  lemma OneMoreSpike(c: Setup, d: Draws, b: nat, i: nat)
    requires i < c.burst.size
    ensures RawSpikes(c, d, b)[..i + 1] == RawSpikes(c, d, b)[..i] + [Onset(c, d, b) + Offset(c, d, b, i)]
  {
  }

  /** The streams of a new scheduler, drawn in order and heapified. */
  method BuildStreams(c: Setup, d: Draws) returns (h: StreamHeap)
    ensures fresh(h) && fresh(h.data) && h.Valid()
    ensures HeapFor(SourcesOf(c, d), Init(SourcesOf(c, d)).emitted, h.Items())
    ensures h.len == c.streams
    ensures forall i :: 0 <= i < c.streams ==> Stream(i, 0, c.start + d.gap(i, 0)) in h.Items()
  {
    ghost var q := SourcesOf(c, d);
    var streams := new Stream[c.streams](_ => Stream(0, 0, 0));
    for i := 0 to c.streams
      invariant streams[..i] == Records(q, Init(q).emitted)[..i]
    {
      streams[i] := Stream(i, 0, c.start + d.gap(i, 0));
    }
    h := new StreamHeap(streams);
    ghost var records := h.Items();
    assert records == Records(q, Init(q).emitted);
    h.Init();
    forall i | 0 <= i < c.streams ensures Stream(i, 0, c.start + d.gap(i, 0)) in h.Items() {
      SameElements(records, h.Items(), records[i]);
    }
  }

  class Scheduler {
    const setup: Setup
    const draws: Draws
    const poissonStreams: StreamHeap
    var nextBurstOnset: int
    var burstSched: bool
    var pendingSpikes: seq<int>

    var burstsFired: nat
    var spikesFired: nat
    var baseFired: nat
    var burstsLatch: nat
    var spikesLatch: nat
    var baseLatch: nat

    /** The onsets the OnBurstSpawned callback has been given. */
    var notified: seq<int>

    /** What has been emitted, in all and per stream, and the run of the merging
        machine that led there; limit bounds the bursts one call may spawn. */
    ghost var log: seq<Arrival>
    ghost var emitted: seq<nat>
    ghost var trace: seq<Event>

    /** What the latches have given up to drains. */
    ghost var drained: Counters

    ghost const limit: nat
    ghost const q: Sources

    /** The state of the merging machine this object stands for. */
    ghost function View(): State
      reads this`emitted, this`burstsFired, this`pendingSpikes, this`log
    {
      State(emitted, burstsFired, pendingSpikes, log)
    }

    /** The sources are what the configuration and the draws say. */
    ghost predicate Wired() {
      q == SourcesOf(setup, draws)
    }

    ghost predicate Bounded() {
      Timely(q) && SpawnsAtMost(q, limit)
    }

    ghost predicate Heaped()
      reads this`emitted, poissonStreams, poissonStreams.data
    {
      poissonStreams.Valid() && HeapFor(q, emitted, poissonStreams.Items())
    }

    ghost predicate Coherent()
      reads this`emitted, this`log, this`nextBurstOnset, this`burstSched, this`notified,
            this`burstsFired, this`spikesFired, this`baseFired, this`burstsLatch, this`spikesLatch, this`baseLatch,
            this`drained, poissonStreams, poissonStreams.data
    {
      && Heaped()
      && OnsetIs(q, burstSched, nextBurstOnset, notified, burstsFired)
      && CountsAre(log, spikesFired, baseFired)
      && LatchesAre(drained, burstsLatch, spikesLatch, baseLatch, burstsFired, spikesFired, baseFired)
    }

    /** The object is in state View() of the machine, and trace is how it got there. */
    ghost predicate Valid()
      reads this, poissonStreams, poissonStreams.data
    {
      Wired() && Coherent() && Bounded() && IsRun(q, trace, View())
    }

    /** NewSchedulerWithReplicas. limit: how many bursts one call of Next may
        spawn; ScheduleTheorems.SpawnLimit gives it outside MayStall. */
    constructor (qps: int, replicas: int, burst: BurstConfig, start: int, deadline: int, draws: Draws, ghost limit: nat)
      requires SpawnsAtMost(SourcesOf(Setup(StreamsFor(qps, replicas, burst), burst, start, deadline), draws), limit)
      ensures Valid() && fresh(poissonStreams) && fresh(poissonStreams.data)
      ensures setup == Setup(StreamsFor(qps, replicas, burst), burst, start, deadline)
      ensures this.draws == draws && this.limit == limit
      ensures View() == Init(q) && trace == []
      ensures drained == Latches.ZERO
    {
      var c := Setup(StreamsFor(qps, replicas, burst), burst, start, deadline);
      setup, this.draws, this.limit := c, draws, limit;
      var heap := BuildStreams(c, draws);
      poissonStreams := heap;
      burstSched := burst.Enabled();
      nextBurstOnset := if burst.Enabled() then start + burst.period else 0;
      pendingSpikes, notified := [], [];
      burstsFired, spikesFired, baseFired := 0, 0, 0;
      burstsLatch, spikesLatch, baseLatch := 0, 0, 0;
      q := SourcesOf(c, draws);
      log, emitted, trace := [], Init(SourcesOf(c, draws)).emitted, [];
      drained := Latches.ZERO;
      SourcesAreTimely(c, draws);
    }

    /** peekEarliest: a stream is taken unless a spike is strictly earlier, and
        an onset only if it is strictly earlier than both. */
    method PeekEarliest() returns (kind: SchedulerEvent, t: int)
      requires poissonStreams.Valid()
      ensures kind == EvNone ==> poissonStreams.len == 0 && pendingSpikes == [] && !burstSched
      ensures kind == EvPoisson ==>
                poissonStreams.len > 0 && t == poissonStreams.data[0].next &&
                (pendingSpikes != [] ==> t <= pendingSpikes[0]) && (burstSched ==> t <= nextBurstOnset)
      ensures kind == EvSpike ==>
                pendingSpikes != [] && t == pendingSpikes[0] &&
                (poissonStreams.len > 0 ==> t < poissonStreams.data[0].next) && (burstSched ==> t <= nextBurstOnset)
      ensures kind == EvBurstOnset ==>
                burstSched && t == nextBurstOnset &&
                (poissonStreams.len > 0 ==> t < poissonStreams.data[0].next) &&
                (pendingSpikes != [] ==> t < pendingSpikes[0])
    {
      kind, t := EvNone, 0;
      if poissonStreams.len > 0 {
        kind, t := EvPoisson, poissonStreams.data[0].next;
      }
      if pendingSpikes != [] {
        var s := pendingSpikes[0];
        if kind == EvNone || s < t {
          kind, t := EvSpike, s;
        }
      }
      if burstSched {
        var o := nextBurstOnset;
        if kind == EvNone || o < t {
          kind, t := EvBurstOnset, o;
        }
      }
    }

    /** The offsets of a burst, drawn or computed one by one. */
    method FreshSpikes(at: int, b: nat) returns (spikes: seq<int>)
      requires at == Onset(setup, draws, b)
      ensures spikes == Spikes(setup, draws, b)
    {
      var n, w := setup.burst.size, setup.burst.window;
      ghost var raw := RawSpikes(setup, draws, b);
      hide RawSpikes, Onset, Sort;
      spikes := [];
      match setup.burst.shape {
        case SpikeShape =>
          for i := 0 to n
            invariant spikes == raw[..i]
          {
            OneMoreSpike(setup, draws, b, i);
            spikes := spikes + [at + i * MICROSECOND];
          }
        case RandomShape =>
          for i := 0 to n
            invariant spikes == raw[..i]
          {
            OneMoreSpike(setup, draws, b, i);
            spikes := spikes + [at + draws.offset(b, i)];
          }
          assert spikes == raw;
          spikes := Sort(Id, spikes);
        case UniformShape =>
          for i := 0 to n
            invariant spikes == raw[..i]
          {
            OneMoreSpike(setup, draws, b, i);
            spikes := spikes + [at + w * i / n];
          }
      }
    }

    /** spawnBurst. */
    method SpawnBurst(at: int)
      requires Wired() && at == q.onset(burstsFired)
      modifies this`pendingSpikes, this`burstsFired, this`burstsLatch, this`notified
      ensures pendingSpikes == Merged(old(pendingSpikes), q.spikes(old(burstsFired)))
      ensures burstsFired == old(burstsFired) + 1 && burstsLatch == old(burstsLatch) + 1
      ensures notified == old(notified) + [at]
    {
      var spikes := FreshSpikes(at, burstsFired);
      if pendingSpikes == [] {
        pendingSpikes := spikes;
      } else {
        pendingSpikes := pendingSpikes + spikes;
        pendingSpikes := Sort(Id, pendingSpikes);
      }
      burstsFired := burstsFired + 1;
      burstsLatch := burstsLatch + 1;
      notified := notified + [at];
    }

    /** advanceBurstOnset, after burst burstsFired - 1. */
    method AdvanceBurstOnset()
      requires Wired() && burstsFired > 0 && nextBurstOnset == q.onset(burstsFired - 1)
      modifies this`nextBurstOnset
      ensures nextBurstOnset == q.onset(burstsFired)
    {
      var delta := if setup.burst.jitter == PoissonJitter then draws.burstGap(burstsFired - 1) else setup.burst.period;
      nextBurstOnset := nextBurstOnset + delta;
    }

    /** The onset branch of Next. */
    method TakeOnset(at: int)
      requires Wired() && OnsetIs(q, burstSched, nextBurstOnset, notified, burstsFired)
      requires q.bursting && at == q.onset(burstsFired)
      modifies this`pendingSpikes, this`burstsFired, this`burstsLatch, this`notified, this`nextBurstOnset
      ensures OnsetIs(q, burstSched, nextBurstOnset, notified, burstsFired) && View() == AfterOnset(q, old(View()))
      ensures burstsLatch == old(burstsLatch) + 1
    {
      SpawnBurst(at);
      AdvanceBurstOnset();
    }

    /** Counts one emission. */
    method CountSpike(ghost t: int)
      requires CountsAre(log, spikesFired, baseFired)
      modifies this`spikesFired, this`spikesLatch, this`log
      ensures CountsAre(log, spikesFired, baseFired) && log == old(log) + [Arrival(t, Spike)]
      ensures spikesFired == old(spikesFired) + 1 && spikesLatch == old(spikesLatch) + 1
    {
      CountKindSnoc(log, Arrival(t, Spike), Spike);
      CountKindSnoc(log, Arrival(t, Spike), Base);
      spikesFired := spikesFired + 1;
      spikesLatch := spikesLatch + 1;
      log := log + [Arrival(t, Spike)];
    }

    method CountBase(ghost t: int)
      requires CountsAre(log, spikesFired, baseFired)
      modifies this`baseFired, this`baseLatch, this`log
      ensures CountsAre(log, spikesFired, baseFired) && log == old(log) + [Arrival(t, Base)]
      ensures baseFired == old(baseFired) + 1 && baseLatch == old(baseLatch) + 1
    {
      CountKindSnoc(log, Arrival(t, Base), Spike);
      CountKindSnoc(log, Arrival(t, Base), Base);
      baseFired := baseFired + 1;
      baseLatch := baseLatch + 1;
      log := log + [Arrival(t, Base)];
    }

    /** The spike branch of Next. */
    method TakeSpike()
      requires CountsAre(log, spikesFired, baseFired) && pendingSpikes != []
      modifies this`pendingSpikes, this`spikesFired, this`spikesLatch, this`log
      ensures CountsAre(log, spikesFired, baseFired) && View() == AfterSpike(old(View()))
      ensures spikesFired == old(spikesFired) + 1 && spikesLatch == old(spikesLatch) + 1
    {
      CountSpike(pendingSpikes[0]);
      pendingSpikes := pendingSpikes[1..];
    }

    /** heap.Pop, advance the stream by its next gap, heap.Push. */
    method CycleRoot() returns (ghost root: Stream, ghost next: Stream)
      requires poissonStreams.Valid() && IsHeap(poissonStreams.Items()) && poissonStreams.len > 0
      modifies poissonStreams, poissonStreams.data
      ensures poissonStreams.Valid() && IsHeap(poissonStreams.Items())
      ensures poissonStreams.data == old(poissonStreams.data)
      ensures root == old(poissonStreams.Items())[0]
      ensures next == Stream(root.id, root.emitted + 1, root.next + draws.gap(root.id, root.emitted + 1))
      ensures multiset(poissonStreams.Items()) ==
              multiset(old(poissonStreams.Items())) - multiset{root} + multiset{next}
    {
      var stream := poissonStreams.Pop();
      root := stream;
      stream := Stream(stream.id, stream.emitted + 1, stream.next + draws.gap(stream.id, stream.emitted + 1));
      next := stream;
      poissonStreams.Push(stream);
    }

    ghost method CountArrivals(counts: seq<nat>)
      requires poissonStreams.Valid() && HeapFor(q, counts, poissonStreams.Items())
      modifies this`emitted
      ensures Heaped() && emitted == counts
    {
      emitted := counts;
    }

    /** The heap's root emits: the heap is again up to date. */
    method AdvanceRoot(ghost i: nat)
      requires Wired() && Heaped() && poissonStreams.len > 0 && i == poissonStreams.data[0].id
      modifies this`emitted, poissonStreams, poissonStreams.data
      ensures Heaped() && poissonStreams.data == old(poissonStreams.data)
      ensures i < |old(emitted)| && emitted == old(emitted)[i := old(emitted)[i] + 1]
    {
      hide SourcesOf, Records, IsHeap;
      ghost var was, before := emitted, poissonStreams.Items();
      ghost var root, next := CycleRoot();
      ghost var counts := RootCycled(setup, draws, q, was, i, before, next, poissonStreams.Items());
      CountArrivals(counts);
    }

    /** The stream branch of Next. */
    method TakeStream(ghost i: nat)
      requires Wired() && Heaped() && CountsAre(log, spikesFired, baseFired)
      requires poissonStreams.len > 0 && i == poissonStreams.data[0].id
      modifies this`baseFired, this`baseLatch, this`log, this`emitted, poissonStreams, poissonStreams.data
      ensures Heaped() && CountsAre(log, spikesFired, baseFired) && poissonStreams.data == old(poissonStreams.data)
      ensures i < |old(emitted)| && emitted == old(emitted)[i := old(emitted)[i] + 1]
      ensures log == old(log) + [Arrival(q.arrival(i, old(emitted)[i]), Base)]
      ensures baseFired == old(baseFired) + 1 && baseLatch == old(baseLatch) + 1
    {
      AdvanceRoot(i);
      CountBase(q.arrival(i, old(emitted)[i]));
    }

    /** What peekEarliest saw, in terms of the machine. */
    lemma Peeked(kind: SchedulerEvent, t: int)
      requires Coherent()
      requires kind == EvNone ==> poissonStreams.len == 0 && pendingSpikes == [] && !burstSched
      requires kind == EvPoisson ==>
                 poissonStreams.len > 0 && t == poissonStreams.data[0].next &&
                 (pendingSpikes != [] ==> t <= pendingSpikes[0]) && (burstSched ==> t <= nextBurstOnset)
      requires kind == EvSpike ==>
                 pendingSpikes != [] && t == pendingSpikes[0] &&
                 (poissonStreams.len > 0 ==> t < poissonStreams.data[0].next) && (burstSched ==> t <= nextBurstOnset)
      requires kind == EvBurstOnset ==>
                 burstSched && t == nextBurstOnset &&
                 (poissonStreams.len > 0 ==> t < poissonStreams.data[0].next) &&
                 (pendingSpikes != [] ==> t < pendingSpikes[0])
      ensures kind == EvNone || t >= q.deadline ==> Exhausted(q, View())
      ensures kind != EvNone && t < q.deadline ==> !Exhausted(q, View())
      ensures kind == EvPoisson && t < q.deadline ==>
                var i := poissonStreams.data[0].id; StreamTurn(q, View(), i) && t == NextOf(q, View(), i)
      ensures kind == EvSpike && t < q.deadline ==> SpikeTurn(q, View()) && t == View().pending[0]
      ensures kind == EvBurstOnset && t < q.deadline ==> OnsetTurn(q, View()) && t == q.onset(View().bursts)
    {
      var items := poissonStreams.Items();
      if items == [] { EmptyHeap(q, View(), items); } else { RootIsEarliest(q, View(), items); }
    }

    /** The event to take next, or EvNone when nothing is left before the deadline. */
    method Due() returns (kind: SchedulerEvent, t: int, ghost i: nat)
      requires Coherent() && q.deadline == setup.deadline
      ensures kind == EvNone <==> Exhausted(q, View())
      ensures kind == EvSpike <==> SpikeTurn(q, View())
      ensures kind == EvBurstOnset <==> OnsetTurn(q, View())
      ensures kind == EvPoisson ==>
                poissonStreams.len > 0 && i == poissonStreams.data[0].id &&
                StreamTurn(q, View(), i) && t == NextOf(q, View(), i)
      ensures kind == EvSpike ==> t == pendingSpikes[0]
      ensures kind == EvBurstOnset ==> t == q.onset(burstsFired)
    {
      kind, t := PeekEarliest();
      i := if poissonStreams.len > 0 then poissonStreams.data[0].id else 0;
      Peeked(kind, t);
      OneTurn(q, View());
      if kind == EvNone || t >= setup.deadline {
        return EvNone, 0, i;
      }
    }

    /** The three branches, which leave the object coherent. */
    method OnsetBranch(at: int)
      requires Wired() && Coherent() && q.bursting && at == q.onset(burstsFired)
      modifies this`pendingSpikes, this`burstsFired, this`burstsLatch, this`notified, this`nextBurstOnset
      ensures Coherent() && View() == AfterOnset(q, old(View()))
    {
      TakeOnset(at);
    }

    method SpikeBranch()
      requires Coherent() && pendingSpikes != []
      modifies this`pendingSpikes, this`spikesFired, this`spikesLatch, this`log
      ensures Coherent() && View() == AfterSpike(old(View()))
    {
      hide HeapFor, OnsetIs, CountsAre;
      TakeSpike();
    }

    method StreamBranch(ghost i: nat)
      requires Wired() && Coherent() && poissonStreams.len > 0 && i == poissonStreams.data[0].id
      modifies this`baseFired, this`baseLatch, this`log, this`emitted, poissonStreams, poissonStreams.data
      ensures Coherent() && poissonStreams.data == old(poissonStreams.data)
      ensures i < |old(emitted)| && emitted == old(emitted)[i := old(emitted)[i] + 1]
      ensures log == old(log) + [Arrival(q.arrival(i, old(emitted)[i]), Base)]
    {
      TakeStream(i);
    }

    /** The same, as the machine's step. */
    method StreamStep(ghost i: nat)
      requires Wired() && Coherent() && poissonStreams.len > 0 && i == poissonStreams.data[0].id
      modifies this`baseFired, this`baseLatch, this`log, this`emitted, poissonStreams, poissonStreams.data
      ensures Coherent() && poissonStreams.data == old(poissonStreams.data)
      ensures i < |old(emitted)| && View() == AfterStream(q, old(View()), i)
    {
      StreamBranch(i);
    }

    /** The switch of Next's loop. */
    method Take(kind: SchedulerEvent, t: int, ghost i: nat)
      requires Wired() && Coherent()
      requires kind == EvSpike ==> pendingSpikes != []
      requires kind == EvPoisson ==> poissonStreams.len > 0 && i == poissonStreams.data[0].id
      requires kind == EvBurstOnset ==> q.bursting && t == q.onset(burstsFired)
      modifies this`emitted, this`log, this`pendingSpikes, this`nextBurstOnset, this`notified,
               this`burstsFired, this`spikesFired, this`baseFired, this`burstsLatch, this`spikesLatch, this`baseLatch,
               poissonStreams, poissonStreams.data
      ensures Coherent() && poissonStreams.data == old(poissonStreams.data)
      ensures kind == EvNone ==> View() == old(View())
      ensures kind == EvPoisson ==> i < |old(emitted)| && View() == AfterStream(q, old(View()), i)
      ensures kind == EvSpike ==> View() == AfterSpike(old(View()))
      ensures kind == EvBurstOnset ==> View() == AfterOnset(q, old(View()))
    {
      match kind {
        case EvNone =>
        case EvBurstOnset => OnsetBranch(t);
        case EvSpike => SpikeBranch();
        case EvPoisson => StreamStep(i);
      }
    }

    /** One round of Next's loop. */
    method TakeNext() returns (kind: SchedulerEvent, t: int, ghost i: nat)
      requires Wired() && Coherent()
      modifies this`emitted, this`log, this`pendingSpikes, this`nextBurstOnset, this`notified,
               this`burstsFired, this`spikesFired, this`baseFired, this`burstsLatch, this`spikesLatch, this`baseLatch,
               poissonStreams, poissonStreams.data
      ensures Coherent() && poissonStreams.data == old(poissonStreams.data)
      ensures if kind == EvBurstOnset then OnsetTurn(q, old(View())) && View() == AfterOnset(q, old(View()))
              else Taken(q, old(View()), View(), kind, t, i)
    {
      kind, t, i := Due();
      Take(kind, t, i);
    }

    /** Next's loop: spawns bursts until an arrival has been taken or nothing is left. */
    method Loop(ghost prompt: bool)
        returns (kind: SchedulerEvent, t: int, ghost i: nat, ghost m: nat, ghost before: State)
      requires Wired() && Coherent() && Limited(q, View(), limit, prompt)
      modifies this`emitted, this`log, this`pendingSpikes, this`nextBurstOnset, this`notified,
               this`burstsFired, this`spikesFired, this`baseFired, this`burstsLatch, this`spikesLatch, this`baseLatch,
               poissonStreams, poissonStreams.data
      ensures Coherent() && poissonStreams.data == old(poissonStreams.data)
      ensures Partway(q, old(View()), before, m, limit, prompt)
      ensures Taken(q, before, View(), kind, t, i)
    {
      hide Coherent, Limited, Partway, Taken, OnsetTurn, AfterOnset;
      m, before := 0, View();
      Underway(q, View(), limit, prompt);
      kind, t, i := TakeNext();
      while kind == EvBurstOnset
        invariant Coherent() && poissonStreams.data == old(poissonStreams.data)
        invariant Partway(q, old(View()), before, m, limit, prompt)
        invariant if kind == EvBurstOnset then OnsetTurn(q, before) && View() == AfterOnset(q, before)
                  else Taken(q, before, View(), kind, t, i)
        decreases limit - m, kind == EvBurstOnset
      {
        OneMoreSpawn(q, old(View()), before, m, limit, prompt);
        m, before := m + 1, View();
        kind, t, i := TakeNext();
      }
    }

    /** Records how the object got where it is. */
    ghost method Record(es: seq<Event>)
      requires Wired() && Coherent() && Bounded() && IsRun(q, es, View())
      modifies this`trace
      ensures Valid() && trace == es
    {
      trace := es;
    }

    /** What the run so far says about the bursts this call may spawn. */
    lemma LimitHere()
      requires Valid()
      ensures Limited(q, View(), limit, setup.burst.shape != RandomShape)
    {
      RunInv(q, trace);
      forall m: nat | MaySpawn(q, View(), m) ensures m <= limit { assert Inv(q, View()); }
      if setup.burst.shape != RandomShape && OnsetTurn(q, View()) {
        OnsetSpikes(setup, draws);
        SpikeIsNext(q, View());
      }
    }

    /** Next. */
    method Next() returns (t: int, kind: Kind, ok: bool)
      requires Valid()
      modifies this, poissonStreams, poissonStreams.data
      ensures Valid() && poissonStreams.data == old(poissonStreams.data)
      ensures Outcome(q, old(View()), View(), t, kind, ok) && drained == old(drained)
      ensures old(View()).bursts <= View().bursts <= old(View()).bursts + limit
      ensures setup.burst.shape != RandomShape ==> SpikeFollows(q, old(View()), View(), t, kind, ok)
      ensures !ok && setup.burst.shape != RandomShape ==> View() == old(View())
      ensures Exhausted(q, old(View())) ==> trace == old(trace)
      ensures |old(trace)| <= |trace| && trace[..|old(trace)|] == old(trace)
    {
      LimitHere();
      var event, at, i, m, before := Loop(setup.burst.shape != RandomShape);
      t, kind, ok := if event == EvNone then 0 else at, if event == EvSpike then Spike else Base, event != EvNone;
      CallOutcome(q, old(View()), before, View(), m, limit, setup.burst.shape != RandomShape, event, at, i);
      ghost var es := CallRun(q, old(View()), before, View(), trace, m, limit,
                              setup.burst.shape != RandomShape, event, at, i);
      Record(es);
    }

    /** SnapshotCounters: the cumulative counters are the machine's own tallies. */
    method SnapshotCounters() returns (c: Counters)
      requires Valid()
      ensures c.burstsFired == View().bursts
      ensures c.spikesFired + |pendingSpikes| == c.burstsFired * setup.burst.size
      ensures c.baseFired == Sum(View().emitted)
      ensures c.baseFired + c.spikesFired == |View().log|
    {
      RunTallied(q, trace);
      LogSplits(log);
      c := Latches.Counters(burstsFired, spikesFired, baseFired);
    }

    /** The three swaps. */
    method SwapLatches() returns (c: Counters)
      requires Coherent()
      modifies this`burstsLatch, this`spikesLatch, this`baseLatch, this`drained
      ensures Coherent()
      ensures drained == Latches.Counters(burstsFired, spikesFired, baseFired)
      ensures c == Latches.Counters(old(burstsLatch), old(spikesLatch), old(baseLatch))
    {
      c := Latches.Counters(burstsLatch, spikesLatch, baseLatch);
      burstsLatch, spikesLatch, baseLatch := 0, 0, 0;
      drained := Latches.Counters(burstsFired, spikesFired, baseFired);
    }

    /** DrainCounters: reports exactly what fired since the previous drain, so
        that all drains together have reported all that fired. */
    method DrainCounters() returns (c: Counters)
      requires Valid()
      modifies this`burstsLatch, this`spikesLatch, this`baseLatch, this`drained
      ensures Valid()
      ensures drained == Latches.Counters(burstsFired, spikesFired, baseFired)
      ensures c.burstsFired == burstsFired - old(drained).burstsFired
      ensures c.spikesFired == spikesFired - old(drained).spikesFired
      ensures c.baseFired == baseFired - old(drained).baseFired
    {
      c := SwapLatches();
    }
  }

  lemma Contents(s: Scheduler, k: nat)
    requires s.Valid() && Covers(s.q, k) && Exhausted(s.q, s.View())
    ensures forall t :: Contains(s.setup, s.draws, k, s.View().log, t)
  {
    hide Contains, Covers, Exhausted, Legal, Exec, SourcesOf;
    forall t ensures Contains(s.setup, s.draws, k, s.View().log, t) {
      ContentsOfDrain(s.setup, s.draws, s.trace, k, t);
    }
  }

  /** Calling Next until it returns false, as the replayer's producer does: it
      comes to an end once every source reaches the deadline, and what it was
      given is the sorted reference. */
  method Drain(s: Scheduler, ghost k: nat) returns (log: seq<Arrival>)
    requires s.Valid() && s.View().log == [] && Covers(s.q, k)
    modifies s, s.poissonStreams, s.poissonStreams.data
    ensures s.Valid() && Exhausted(s.q, s.View())
    ensures log == Sort(Rank, Before(Reference(s.q, k), s.q.deadline))
    ensures forall t :: Contains(s.setup, s.draws, k, log, t)
  {
    log := [];
    ghost var bound := s.q.streams * k + k * s.q.size + k;
    while true
      invariant s.Valid() && s.poissonStreams.data == old(s.poissonStreams.data)
      invariant log == s.View().log
      decreases bound - |log|
    {
      var t, kind, ok := s.Next();
      RunIsBounded(s.q, s.trace, k);
      RunTallied(s.q, s.trace);
      if !ok { break; }
      log := log + [Arrival(t, kind)];
    }
    MergeIsSort(s.q, s.trace, k);
    Contents(s, k);
  }
}
