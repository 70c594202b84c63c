/** The cumulative and per-interval counters when the reporter drains them while
    the producer fires: every atomic add and swap is one step. */
module Latches {
  import opened Arithmetic

  /** Which counter. */
  datatype Which = Burst | Spike | Base

  datatype Counters = Counters(burstsFired: nat, spikesFired: nat, baseFired: nat) {
    function Get(k: Which): nat {
      match k
      case Burst => burstsFired
      case Spike => spikesFired
      case Base => baseFired
    }

    function Set(k: Which, n: nat): Counters {
      match k
      case Burst => this.(burstsFired := n)
      case Spike => this.(spikesFired := n)
      case Base => this.(baseFired := n)
    }
  }

  const ZERO := Counters(0, 0, 0)

  /** Where the producer is: between its two adds, or not. */
  datatype Producer = Idle | Between(which: Which)

  /** turn is the counter the drain swaps next; part is the report it is
      building and reports those it has returned. */
  datatype State = State(
    fired: Counters, latch: Counters, producer: Producer,
    turn: Which, part: Counters, reports: seq<Counters>)

  const START := State(ZERO, ZERO, Idle, Burst, ZERO, [])

  datatype Action = AddFired(which: Which) | AddLatch(which: Which) | Swap

  /** A spike fires only out of a burst spawned before; so many bursts have so
      many times size spikes. */
  predicate Enabled(size: nat, s: State, a: Action) {
    match a
    case AddFired(k) => s.producer == Idle && (k == Spike ==> s.fired.spikesFired < Times(s.fired.burstsFired, size))
    case AddLatch(k) => s.producer == Between(k)
    case Swap => true
  }

  function After(s: State, a: Action): State {
    match a
    case AddFired(k) => s.(fired := s.fired.Set(k, s.fired.Get(k) + 1), producer := Between(k))
    case AddLatch(k) => s.(latch := s.latch.Set(k, s.latch.Get(k) + 1), producer := Idle)
    case Swap =>
      var part := s.part.Set(s.turn, s.latch.Get(s.turn));
      var swapped := s.(latch := s.latch.Set(s.turn, 0));
      match s.turn
      case Burst => swapped.(turn := Spike, part := part)
      case Spike => swapped.(turn := Base, part := part)
      case Base => swapped.(turn := Burst, part := ZERO, reports := s.reports + [part])
  }

  function Exec(s: State, acts: seq<Action>): State
    decreases |acts|
  {
    if acts == [] then s else Exec(After(s, acts[0]), acts[1..])
  }

  predicate Legal(size: nat, s: State, acts: seq<Action>)
    decreases |acts|
  {
    acts != [] ==> Enabled(size, s, acts[0]) && Legal(size, After(s, acts[0]), acts[1..])
  }

  function Reported(reports: seq<Counters>, k: Which): nat {
    if reports == [] then 0 else Reported(reports[..|reports| - 1], k) + reports[|reports| - 1].Get(k)
  }

  /** All that was ever swapped out of the latch of k. */
  function Drained(s: State, k: Which): nat {
    Reported(s.reports, k) + s.part.Get(k)
  }

  /** How often the latch of k was incremented. */
  function Added(acts: seq<Action>, k: Which): nat {
    if acts == [] then 0 else (if acts[0] == AddLatch(k) then 1 else 0) + Added(acts[1..], k)
  }

  ghost predicate PartFits(s: State) {
    (s.turn == Burst ==> s.part.burstsFired == 0) &&
    (s.turn != Base ==> s.part.spikesFired == 0) &&
    s.part.baseFired == 0
  }

  /** What was fired of kind k, less an add still to come, is drained or latched. */
  ghost predicate Accounts(s: State, k: Which) {
    Drained(s, k) + s.latch.Get(k) + (if s.producer == Between(k) then 1 else 0) == s.fired.Get(k)
  }

  /** Bursts whose latch has been incremented. */
  function Latched(s: State): nat
    requires s.producer == Between(Burst) ==> s.fired.burstsFired > 0
  {
    if s.producer == Between(Burst) then s.fired.burstsFired - 1 else s.fired.burstsFired
  }

  /** Every spike fired is of such a burst. */
  ghost predicate BurstsFirst(size: nat, s: State) {
    (s.producer == Between(Burst) ==> s.fired.burstsFired > 0) && s.fired.spikesFired <= Times(Latched(s), size)
  }

  ghost predicate Inv(size: nat, s: State) {
    PartFits(s) && BurstsFirst(size, s) && Accounts(s, Burst) && Accounts(s, Spike) && Accounts(s, Base)
  }

  lemma ReportedSnoc(reports: seq<Counters>, t: Counters, k: Which)
    ensures Reported(reports + [t], k) == Reported(reports, k) + t.Get(k)
  {
    assert (reports + [t])[..|reports|] == reports;
  }

  lemma StepDrained(s: State, a: Action, k: Which)
    requires PartFits(s)
    ensures Drained(After(s, a), k) + After(s, a).latch.Get(k) == Drained(s, k) + s.latch.Get(k) + Added([a], k)
  {
    if a.Swap? && s.turn == Base {
      ReportedSnoc(s.reports, s.part.Set(Base, s.latch.baseFired), k);
    }
  }

  lemma StepAccounts(size: nat, s: State, a: Action, k: Which)
    requires PartFits(s) && Accounts(s, k) && Enabled(size, s, a)
    ensures Accounts(After(s, a), k)
  {
    StepDrained(s, a, k);
  }

  lemma MoreBursts(size: nat, bursts: nat)
    requires bursts > 0
    ensures Times(bursts - 1, size) <= Times(bursts, size)
  {
  }

  lemma StepBurstsFirst(size: nat, s: State, a: Action)
    requires BurstsFirst(size, s) && Enabled(size, s, a)
    ensures BurstsFirst(size, After(s, a))
  {
    match a
    case AddFired(k) =>
    case AddLatch(k) => if k == Burst { MoreBursts(size, s.fired.burstsFired); }
    case Swap =>
  }

  lemma StepInv(size: nat, s: State, a: Action)
    requires Inv(size, s) && Enabled(size, s, a)
    ensures Inv(size, After(s, a))
  {
    StepBurstsFirst(size, s, a);
    StepAccounts(size, s, a, Burst);
    StepAccounts(size, s, a, Spike);
    StepAccounts(size, s, a, Base);
  }

  lemma {:induction false} RunInv(size: nat, s: State, acts: seq<Action>)
    requires Inv(size, s) && Legal(size, s, acts)
    ensures Inv(size, Exec(s, acts))
    decreases |acts|
  {
    if acts != [] {
      StepInv(size, s, acts[0]);
      RunInv(size, After(s, acts[0]), acts[1..]);
    }
  }

  /** What was drained and what is latched make up the cumulative counter, short
      of one exactly while the producer is between its two adds. */
  ghost predicate Balanced(s: State, k: Which) {
    Drained(s, k) + s.latch.Get(k) == s.fired.Get(k) - if s.producer == Between(k) then 1 else 0
  }

  lemma Balance(size: nat, s: State, k: Which)
    requires Inv(size, s)
    ensures Balanced(s, k)
  {
    assert Accounts(s, k);
  }

  /** Whatever the interleaving. */
  lemma Accounting(size: nat, acts: seq<Action>, k: Which)
    requires Legal(size, START, acts)
    ensures Balanced(Exec(START, acts), k)
  {
    RunInv(size, START, acts);
    Balance(size, Exec(START, acts), k);
  }

  /** Over any stretch of a run, the drains and the latch grow by exactly what
      was latched in that stretch: no fire is lost, none is counted twice. */
  lemma {:induction false} Stretch(size: nat, s: State, acts: seq<Action>, k: Which)
    requires PartFits(s) && Legal(size, s, acts)
    ensures Drained(Exec(s, acts), k) + Exec(s, acts).latch.Get(k) == Drained(s, k) + s.latch.Get(k) + Added(acts, k)
    decreases |acts|
  {
    if acts != [] {
      StepDrained(s, acts[0], k);
      Stretch(size, After(s, acts[0]), acts[1..], k);
    }
  }

  /** One call of the drain, when nothing else happens. */
  const DRAIN: seq<Action> := [Swap, Swap, Swap]

  /** How often the latch of k was incremented since it was last swapped, when
      acts follow a state with n such increments. */
  function SinceSwap(s: State, acts: seq<Action>, k: Which, n: nat): nat
    decreases |acts|
  {
    if acts == [] then n
    else SinceSwap(After(s, acts[0]), acts[1..], k,
                   if acts[0] == AddLatch(k) then n + 1 else if acts[0] == Swap && s.turn == k then 0 else n)
  }

  lemma LatchStep(s: State, a: Action, k: Which)
    ensures After(s, a).latch.Get(k) ==
      if a == AddLatch(k) then s.latch.Get(k) + 1 else if a == Swap && s.turn == k then 0 else s.latch.Get(k)
  {
  }

  lemma {:induction false} LatchIsSinceSwap(s: State, acts: seq<Action>, k: Which)
    ensures Exec(s, acts).latch.Get(k) == SinceSwap(s, acts, k, s.latch.Get(k))
    decreases |acts|
  {
    if acts != [] {
      LatchStep(s, acts[0], k);
      LatchIsSinceSwap(After(s, acts[0]), acts[1..], k);
    }
  }

  lemma AtRest(size: nat, s: State, k: Which)
    requires Inv(size, s) && s.producer == Idle && s.turn == Burst
    ensures Reported(s.reports, k) + s.latch.Get(k) == s.fired.Get(k)
  {
    assert Accounts(s, k) && s.part == ZERO;
  }

  /** When the producer has stopped, what was not reported is what was latched
      after the last swap of that counter: the reports add up to the cumulative
      counter exactly if that is nothing. */
  lemma Unreported(size: nat, acts: seq<Action>, k: Which)
    requires Legal(size, START, acts)
    requires Exec(START, acts).producer == Idle && Exec(START, acts).turn == Burst
    ensures Reported(Exec(START, acts).reports, k) + SinceSwap(START, acts, k, 0) == Exec(START, acts).fired.Get(k)
  {
    hide Exec, Legal, SinceSwap;
    RunInv(size, START, acts);
    LatchIsSinceSwap(START, acts, k);
    AtRest(size, Exec(START, acts), k);
  }

  lemma ThreeSwaps(s: State)
    requires s.turn == Burst
    ensures Exec(s, DRAIN) ==
      State(s.fired, ZERO, s.producer, Burst, ZERO, s.reports + [s.latch])
  {
    var s1 := After(s, Swap);
    var s2 := After(s1, Swap);
    assert Exec(s, DRAIN) == Exec(s1, [Swap, Swap]);
    assert Exec(s1, [Swap, Swap]) == Exec(s2, [Swap]);
    assert Exec(s2, [Swap]) == After(s2, Swap);
  }

  lemma DrainAtRest(size: nat, s: State, k: Which)
    requires Inv(size, s) && s.producer == Idle && s.turn == Burst
    ensures var t := Exec(s, DRAIN);
      t.fired == s.fired && Reported(t.reports, k) == s.fired.Get(k) && t.latch == ZERO
  {
    ThreeSwaps(s);
    ReportedSnoc(s.reports, s.latch, k);
    assert Accounts(s, k);
  }

  /** One more drain would leave nothing behind. */
  lemma LastDrain(size: nat, acts: seq<Action>, k: Which)
    requires Legal(size, START, acts)
    requires Exec(START, acts).producer == Idle && Exec(START, acts).turn == Burst
    ensures var s, t := Exec(START, acts), Exec(Exec(START, acts), DRAIN);
      t.fired == s.fired && Reported(t.reports, k) == s.fired.Get(k) && t.latch == ZERO
  {
    RunInv(size, START, acts);
    DrainAtRest(size, Exec(START, acts), k);
  }

  // ----- when reports are in step

  /** No more spikes than so many bursts bring. */
  predicate Brought(size: nat, spikes: nat, bursts: nat) {
    spikes <= Times(bursts, size)
  }

  lemma BroughtMeans(size: nat, spikes: nat, bursts: nat)
    ensures Brought(size, spikes, bursts) <==> spikes <= size * bursts
  {
    TimesIsProduct(bursts, size);
  }

  /** The drained spikes are within the bursts drained or latched: no spike is
      drained before its burst was latched. */
  ghost predicate Covered(size: nat, s: State) {
    Brought(size, Drained(s, Spike), Drained(s, Burst) + s.latch.burstsFired)
  }

  lemma InvCovers(size: nat, s: State)
    requires Inv(size, s)
    ensures Covered(size, s)
  {
    assert Accounts(s, Burst) && Accounts(s, Spike);
  }

  /** At every moment of every run. */
  lemma SpikesWithinBursts(size: nat, acts: seq<Action>)
    requires Legal(size, START, acts)
    ensures Covered(size, Exec(START, acts))
  {
    RunInv(size, START, acts);
    InvCovers(size, Exec(START, acts));
  }

  ghost predicate NoSwap(acts: seq<Action>) {
    forall i :: 0 <= i < |acts| ==> !acts[i].Swap?
  }

  lemma {:induction false} NoSwapKeeps(s: State, acts: seq<Action>)
    requires NoSwap(acts)
    ensures var t := Exec(s, acts); t.turn == s.turn && t.part == s.part && t.reports == s.reports
    decreases |acts|
  {
    if acts != [] { NoSwapKeeps(After(s, acts[0]), acts[1..]); }
  }

  /** A drain whose three swaps have other steps between them: the state after
      its first two swaps, and after all three. */
  function TwoSwaps(s: State, between: seq<Action>): State {
    After(Exec(After(s, Swap), between), Swap)
  }

  function WholeDrain(s: State, between: seq<Action>, after: seq<Action>): State {
    After(Exec(TwoSwaps(s, between), after), Swap)
  }

  ghost predicate DrainFrom(size: nat, s: State, between: seq<Action>, after: seq<Action>) {
    s.turn == Burst && NoSwap(between) && NoSwap(after) &&
    Legal(size, After(s, Swap), between) && Legal(size, TwoSwaps(s, between), after)
  }

  /** The reports show no more spikes than the bursts they show, and so many
      besides, bring. */
  ghost predicate Ahead(size: nat, reports: seq<Counters>, bursts: nat) {
    Brought(size, Reported(reports, Spike), Reported(reports, Burst) + bursts)
  }

  ghost predicate InStep(size: nat, reports: seq<Counters>) {
    Ahead(size, reports, 0)
  }

  lemma DrainTwo(size: nat, s: State, between: seq<Action>) returns (u: State)
    requires Inv(size, s) && s.turn == Burst && NoSwap(between) && Legal(size, After(s, Swap), between)
    ensures u == TwoSwaps(s, between)
    ensures Inv(size, u) && u.turn == Base && u.latch.burstsFired == Added(between, Burst)
  {
    var s1 := After(s, Swap);
    var s2 := Exec(s1, between);
    StepInv(size, s, Swap);
    RunInv(size, s1, between);
    NoSwapKeeps(s1, between);
    Stretch(size, s1, between, Burst);
    StepInv(size, s2, Swap);
    u := After(s2, Swap);
  }

  lemma DrainThree(u: State, after: seq<Action>) returns (t: State)
    requires u.turn == Base && NoSwap(after)
    ensures t == After(Exec(u, after), Swap)
    ensures Reported(t.reports, Burst) == Drained(u, Burst) && Reported(t.reports, Spike) == Drained(u, Spike)
  {
    NoSwapKeeps(u, after);
    var v := Exec(u, after);
    t := After(v, Swap);
    ReportedSnoc(v.reports, v.part.Set(Base, v.latch.baseFired), Burst);
    ReportedSnoc(v.reports, v.part.Set(Base, v.latch.baseFired), Spike);
  }

  /** A drain that is part of a run. */
  ghost predicate DrainRun(size: nat, acts: seq<Action>, between: seq<Action>, after: seq<Action>) {
    Legal(size, START, acts) && DrainFrom(size, Exec(START, acts), between, after)
  }

  lemma CoveredReports(size: nat, u: State, reports: seq<Counters>, k: nat)
    requires Covered(size, u) && u.latch.burstsFired == k
    requires Reported(reports, Burst) == Drained(u, Burst) && Reported(reports, Spike) == Drained(u, Spike)
    ensures Ahead(size, reports, k)
  {
  }

  lemma DrainSkew(size: nat, s: State, between: seq<Action>, after: seq<Action>)
    requires Inv(size, s) && DrainFrom(size, s, between, after)
    ensures Ahead(size, WholeDrain(s, between, after).reports, Added(between, Burst))
  {
    var u := DrainTwo(size, s, between);
    InvCovers(size, u);
    var t := DrainThree(u, after);
    CoveredReports(size, u, t.reports, Added(between, Burst));
  }

  /** The reports are ahead by at most the bursts latched between the first and
      second swap of the last drain. */
  lemma SkewBound(size: nat, acts: seq<Action>, between: seq<Action>, after: seq<Action>)
    requires DrainRun(size, acts, between, after)
    ensures Ahead(size, WholeDrain(Exec(START, acts), between, after).reports, Added(between, Burst))
  {
    RunInv(size, START, acts);
    DrainSkew(size, Exec(START, acts), between, after);
  }

  /** After the first swap, with b bursts and sp spikes fired since the start. */
  function Halfway(b: nat, sp: nat): State {
    State(Counters(b, sp, 0), Counters(b, sp, 0), Idle, Spike, ZERO, [])
  }

  function Fire(k: Which): seq<Action> { [AddFired(k), AddLatch(k)] }

  ghost predicate Leads(size: nat, s: State, acts: seq<Action>, t: State, bursts: nat) {
    Legal(size, s, acts) && Exec(s, acts) == t && NoSwap(acts) && Added(acts, Burst) == bursts
  }

  lemma FireFirst(size: nat, s: State, k: Which, rest: seq<Action>, t: State, bursts: nat)
    requires Enabled(size, s, AddFired(k))
    requires Leads(size, After(After(s, AddFired(k)), AddLatch(k)), rest, t, bursts)
    ensures Leads(size, s, Fire(k) + rest, t, bursts + if k == Burst then 1 else 0)
  {
    var acts := Fire(k) + rest;
    assert acts[1..] == [AddLatch(k)] + rest && acts[1..][1..] == rest;
    assert Added(acts[1..], Burst) == (if k == Burst then 1 else 0) + bursts;
    assert Legal(size, After(s, AddFired(k)), acts[1..]);
    assert Exec(After(s, AddFired(k)), acts[1..]) == t;
  }

  lemma {:induction false} FireSpikes(size: nat, b: nat, sp: nat) returns (acts: seq<Action>)
    requires sp <= Times(b, size)
    ensures Leads(size, Halfway(b, sp), acts, Halfway(b, Times(b, size)), 0)
    decreases Times(b, size) - sp
  {
    acts := [];
    if sp < Times(b, size) {
      var rest := FireSpikes(size, b, sp + 1);
      FireFirst(size, Halfway(b, sp), Spike, rest, Halfway(b, Times(b, size)), 0);
      acts := Fire(Spike) + rest;
    }
  }

  lemma {:induction false} FireAll(size: nat, b: nat, k: nat) returns (acts: seq<Action>)
    requires b <= k
    ensures Leads(size, Halfway(b, 0), acts, Halfway(k, Times(k, size)), k - b)
    decreases k - b
  {
    if b == k {
      acts := FireSpikes(size, k, 0);
    } else {
      var rest := FireAll(size, b + 1, k);
      FireFirst(size, Halfway(b, 0), Burst, rest, Halfway(k, Times(k, size)), k - b - 1);
      acts := Fire(Burst) + rest;
    }
  }

  /** And it can be ahead by all of them: a first report of size * k spikes and
      not one of the k bursts they came from. */
  lemma ReportCanSkew(size: nat, k: nat) returns (between: seq<Action>)
    ensures DrainFrom(size, START, between, []) && Added(between, Burst) == k
    ensures WholeDrain(START, between, []).reports == [Counters(0, size * k, 0)]
  {
    assert After(START, Swap) == Halfway(0, 0);
    between := FireAll(size, 0, k);
    TimesIsProduct(k, size);
    assert TwoSwaps(START, between) == After(Halfway(k, size * k), Swap);
  }

  ghost predicate AlwaysInStep(size: nat, k: nat) {
    forall acts, between, after :: DrainRun(size, acts, between, after) && Added(between, Burst) == k ==>
      InStep(size, WholeDrain(Exec(START, acts), between, after).reports)
  }

  lemma Skewed(size: nat, k: nat)
    requires size > 0 && k > 0
    ensures !InStep(size, [Counters(0, size * k, 0)])
  {
    var t := Counters(0, size * k, 0);
    ReportedSnoc([], t, Spike);
    ReportedSnoc([], t, Burst);
    assert [] + [t] == [t];
    MulGrows(k, 1, size);
  }

  lemma OutOfStep(size: nat, k: nat)
    requires size > 0 && k > 0
    ensures !AlwaysInStep(size, k)
  {
    var between := ReportCanSkew(size, k);
    var acts: seq<Action> := [];
    assert DrainRun(size, acts, between, []);
    Skewed(size, k);
    assert !InStep(size, WholeDrain(Exec(START, acts), between, []).reports);
  }

  /** The reports are in step after every drain with k bursts latched between
      its first and second swap, if and only if k is 0. */
  lemma InStepIff(size: nat, k: nat)
    requires size > 0
    ensures AlwaysInStep(size, k) <==> k == 0
  {
    if k == 0 {
      forall acts, between, after | DrainRun(size, acts, between, after) && Added(between, Burst) == k
        ensures InStep(size, WholeDrain(Exec(START, acts), between, after).reports)
      {
        SkewBound(size, acts, between, after);
      }
    } else {
      OutOfStep(size, k);
    }
  }
}
