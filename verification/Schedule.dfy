/** The scheduler's sources of arrivals, as its configuration and the random
    generator define them. Times are integer nanoseconds. */
module Schedule {
  import opened Sorting
  import Merge

  datatype Shape = UniformShape | SpikeShape | RandomShape
  datatype Jitter = FixedJitter | PoissonJitter
  datatype Mode = Additive | Absorbing

  const MICROSECOND: nat := 1000
  const SECOND: nat := 1_000_000_000

  datatype BurstConfig = BurstConfig(size: nat, window: nat, period: nat, shape: Shape, jitter: Jitter, mode: Mode)
  {
    predicate Enabled() { size > 0 && period > 0 }

    /** Expected long-run arrivals per second contributed by bursts. */
    function AvgQps(): real {
      if Enabled() then size as real * SECOND as real / period as real else 0.0
    }
  }

  /** The aggregate base rate for a target of qps arrivals per second: in
      absorbing mode what the bursts leave over, but never negative. */
  function BaseRate(qps: int, burst: BurstConfig): real {
    if burst.Enabled() && burst.mode == Absorbing then
      if qps as real - burst.AvgQps() < 0.0 then 0.0 else qps as real - burst.AvgQps()
    else qps as real
  }

  /** How many Poisson streams exist: none at all unless the base rate is positive. */
  function StreamsFor(qps: int, replicas: int, burst: BurstConfig): nat {
    if BaseRate(qps, burst) > 0.0 then (if replicas < 1 then 1 else replicas) else 0
  }

  datatype Setup = Setup(streams: nat, burst: BurstConfig, start: int, deadline: int)
  {
    predicate Bursting() { burst.Enabled() }
  }

  /** Everything the random generator decides: the gap before arrival k of
      replica i, the offset of spike i of burst b under the random shape, and
      the gap after onset b under Poisson jitter. Each is drawn at most once in
      a run, so every run of a shared generator is a run for some Draws. */
  datatype Draws = Draws(gap: (nat, nat) -> nat, offset: (nat, nat) -> nat, burstGap: nat -> nat)

  /** The latest nanosecond of a window. */
  function LastOffset(window: nat): nat { if window == 0 then 0 else window - 1 }

  /** A random offset is the window times a number from 0 up to but not
      including 1, in whole nanoseconds. */
  ghost predicate Fits(c: Setup, d: Draws) {
    forall b: nat, i: nat :: d.offset(b, i) <= LastOffset(c.burst.window)
  }

  // ----- the sources, each on its own

  /** Arrival k of replica i. */
  function StreamTime(c: Setup, d: Draws, i: nat, k: nat): int {
    (if k == 0 then c.start else StreamTime(c, d, i, k - 1)) + d.gap(i, k)
  }

  function OnsetGap(c: Setup, d: Draws, b: nat): nat {
    if c.burst.jitter == PoissonJitter then d.burstGap(b) else c.burst.period
  }

  /** Onset of burst b. */
  function Onset(c: Setup, d: Draws, b: nat): int {
    if b == 0 then c.start + c.burst.period else Onset(c, d, b - 1) + OnsetGap(c, d, b - 1)
  }

  /** Where spike i of burst b lies after the onset. */
  function Offset(c: Setup, d: Draws, b: nat, i: nat): nat
    requires c.burst.size > 0
  {
    match c.burst.shape
    case SpikeShape => i * MICROSECOND
    case RandomShape => d.offset(b, i)
    case UniformShape => c.burst.window * i / c.burst.size
  }

  function RawSpikes(c: Setup, d: Draws, b: nat): (s: seq<int>)
    ensures |s| == c.burst.size
  {
    seq(c.burst.size, i requires 0 <= i < c.burst.size => Onset(c, d, b) + Offset(c, d, b, i))
  }

  /** The spikes of burst b in time order. */
  function Spikes(c: Setup, d: Draws, b: nat): (s: seq<int>)
    ensures |s| == c.burst.size
  {
    var raw := RawSpikes(c, d, b);
    if c.burst.shape == RandomShape then Sort(Id, raw) else raw
  }

  /** What there is to merge. */
  function SourcesOf(c: Setup, d: Draws): Merge.Sources {
    Merge.Sources(
      c.streams, (i: nat, k: nat) => StreamTime(c, d, i, k),
      c.Bursting(), (b: nat) => Onset(c, d, b), c.burst.size, (b: nat) => Spikes(c, d, b),
      c.deadline)
  }
}
