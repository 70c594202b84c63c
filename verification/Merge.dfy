/** Merging the sources of arrivals: what the sources are, the reference
    result, and the machine that merges them one event at a time. Times are
    integer nanoseconds. */
module Merge {
  import opened Counting
  import opened Sorting

  /** arrival(i, k): time of arrival k of stream i; onset(b) and spikes(b): when
      burst b is spawned and the size spikes it brings, in time order. */
  datatype Sources = Sources(
    streams: nat, arrival: (nat, nat) -> int,
    bursting: bool, onset: nat -> int, size: nat, spikes: nat -> seq<int>,
    deadline: int)

  /** Every source is in time order and a burst brings nothing before its onset. */
  ghost predicate Timely(q: Sources) {
    && (forall i: nat, k: nat, m: nat :: k <= m ==> q.arrival(i, k) <= q.arrival(i, m))
    && (forall b: nat, e: nat :: b <= e ==> q.onset(b) <= q.onset(e))
    && (forall b: nat :: Sorted(q.spikes(b)) && |q.spikes(b)| == q.size)
    && (forall b: nat, i: nat :: i < |q.spikes(b)| ==> q.onset(b) <= q.spikes(b)[i])
  }

  // ----- the reference: all arrivals of a prefix of every source

  datatype Kind = Base | Spike
  datatype Arrival = Arrival(time: int, kind: Kind)

  /** Time first, then base before spike. */
  function Rank(a: Arrival): int { 2 * a.time + if a.kind == Spike then 1 else 0 }

  /** The first k arrivals of replica i. */
  function StreamPrefix(q: Sources, i: nat, k: nat): seq<int> {
    if k == 0 then [] else StreamPrefix(q, i, k - 1) + [q.arrival(i, k - 1)]
  }

  /** The first k arrivals of each of the first n streams. */
  function StreamTimes(q: Sources, k: nat, n: nat): seq<int> {
    Concat((i: nat) => StreamPrefix(q, i, k), n)
  }

  /** The spikes of the first b bursts, burst by burst. */
  function SpikeTimes(q: Sources, b: nat): seq<int> {
    if b == 0 then [] else SpikeTimes(q, b - 1) + q.spikes(b - 1)
  }

  function Tag(ts: seq<int>, kind: Kind): (r: seq<Arrival>)
    ensures |r| == |ts| && forall i :: 0 <= i < |ts| ==> r[i] == Arrival(ts[i], kind)
  {
    seq(|ts|, i requires 0 <= i < |ts| => Arrival(ts[i], kind))
  }

  /** Every arrival among the first k of each source, in no particular order. */
  function Reference(q: Sources, k: nat): seq<Arrival> {
    Tag(StreamTimes(q, k, q.streams), Base) +
    Tag(SpikeTimes(q, if q.bursting then k else 0), Spike)
  }

  /** k reaches past the deadline in every source. */
  ghost predicate Covers(q: Sources, k: nat) {
    && (forall i :: 0 <= i < q.streams ==> q.deadline <= q.arrival(i, k))
    && (q.bursting ==> q.deadline <= q.onset(k))
  }

  function Before(s: seq<Arrival>, deadline: int): seq<Arrival> {
    if s == [] then []
    else if s[0].time < deadline then [s[0]] + Before(s[1..], deadline)
    else Before(s[1..], deadline)
  }

  // ----- the merging machine

  /** emitted[i]: arrivals replica i has produced; bursts: bursts spawned;
      pending: spikes spawned and not yet emitted; log: what was emitted. */
  datatype State = State(emitted: seq<nat>, bursts: nat, pending: seq<int>, log: seq<Arrival>)

  datatype Event = FromStream(i: nat) | FromPending | SpawnBurst

  function Init(q: Sources): State {
    State(seq(q.streams, _ => 0), 0, [], [])
  }

  function NextOf(q: Sources, s: State, i: nat): int
    requires i < |s.emitted|
  {
    q.arrival(i, s.emitted[i])
  }

  /** No stream's next arrival is before t. */
  ghost predicate StreamsFrom(q: Sources, s: State, t: int) {
    forall i :: 0 <= i < |s.emitted| ==> t <= NextOf(q, s, i)
  }

  /** Stream i may emit: it is earliest, it wins ties with a spike or an onset. */
  ghost predicate StreamTurn(q: Sources, s: State, i: nat) {
    i < |s.emitted| &&
    var t := NextOf(q, s, i);
    t < q.deadline &&
    StreamsFrom(q, s, t) &&
    (s.pending != [] ==> t <= s.pending[0]) &&
    (q.bursting ==> t <= q.onset(s.bursts))
  }

  /** The first pending spike may be emitted: it wins ties with an onset only. */
  ghost predicate SpikeTurn(q: Sources, s: State) {
    s.pending != [] &&
    var t := s.pending[0];
    t < q.deadline &&
    StreamsFrom(q, s, t + 1) &&
    (q.bursting ==> t <= q.onset(s.bursts))
  }

  /** The next burst may be spawned: its onset is before everything pending. */
  ghost predicate OnsetTurn(q: Sources, s: State) {
    q.bursting &&
    var t := q.onset(s.bursts);
    t < q.deadline &&
    StreamsFrom(q, s, t + 1) &&
    (s.pending != [] ==> t < s.pending[0])
  }

  ghost predicate Enabled(q: Sources, s: State, e: Event) {
    match e
    case FromStream(i) => StreamTurn(q, s, i)
    case FromPending => SpikeTurn(q, s)
    case SpawnBurst => OnsetTurn(q, s)
  }

  /** pendingSpikes after merging a freshly spawned burst into it. */
  function Merged(pending: seq<int>, spawned: seq<int>): (r: seq<int>)
    ensures |r| == |pending| + |spawned|
  {
    if pending == [] then spawned else Sort(Id, pending + spawned)
  }

  ghost function AfterStream(q: Sources, s: State, i: nat): State
    requires i < |s.emitted|
  {
    State(s.emitted[i := s.emitted[i] + 1], s.bursts, s.pending, s.log + [Arrival(NextOf(q, s, i), Base)])
  }

  ghost function AfterSpike(s: State): State
    requires s.pending != []
  {
    State(s.emitted, s.bursts, s.pending[1..], s.log + [Arrival(s.pending[0], Spike)])
  }

  ghost function AfterOnset(q: Sources, s: State): State {
    State(s.emitted, s.bursts + 1, Merged(s.pending, q.spikes(s.bursts)), s.log)
  }

  ghost function Apply(q: Sources, s: State, e: Event): State
    requires Enabled(q, s, e)
  {
    match e
    case FromStream(i) => AfterStream(q, s, i)
    case FromPending => AfterSpike(s)
    case SpawnBurst => AfterOnset(q, s)
  }

  /** es is a run from the initial state: each event is enabled where it happens. */
  ghost predicate Legal(q: Sources, es: seq<Event>)
    decreases |es|, 0
  {
    es == [] ||
    var n := |es| - 1;
    Legal(q, es[..n]) && Enabled(q, Exec(q, es[..n]), es[n])
  }

  /** The state a run ends in. */
  ghost function Exec(q: Sources, es: seq<Event>): State
    requires Legal(q, es)
    decreases |es|, 1
  {
    if es == [] then Init(q)
    else Apply(q, Exec(q, es[..|es| - 1]), es[|es| - 1])
  }

  /** Nothing is left before the deadline. */
  ghost predicate Exhausted(q: Sources, s: State) {
    && StreamsFrom(q, s, q.deadline)
    && (s.pending != [] ==> q.deadline <= s.pending[0])
    && (q.bursting ==> q.deadline <= q.onset(s.bursts))
  }

  // ----- counting

  /** How often x was emitted. */
  ghost function Hits(log: seq<Arrival>, x: Arrival): nat { multiset(log)[x] }

  function CountKind(log: seq<Arrival>, kind: Kind): nat {
    Num(log, (a: Arrival) => a.kind == kind)
  }

  /** How many of the first k arrivals of stream i are at time t. */
  ghost function PrefixCount(q: Sources, i: nat, k: nat, t: int): nat {
    if k == 0 then 0 else PrefixCount(q, i, k - 1, t) + if q.arrival(i, k - 1) == t then 1 else 0
  }

  /** How many of the first counts[i] arrivals of each stream are at time t. */
  ghost function StreamCount(q: Sources, counts: seq<nat>, n: nat, t: int): nat
    requires n <= |counts|
  {
    if n == 0 then 0 else StreamCount(q, counts, n - 1, t) + PrefixCount(q, n - 1, counts[n - 1], t)
  }

  /** How many spikes of the first b bursts are at time t. */
  ghost function SpikeCount(q: Sources, b: nat, t: int): nat {
    if b == 0 then 0 else SpikeCount(q, b - 1, t) + Count(q.spikes(b - 1), t)
  }
}
