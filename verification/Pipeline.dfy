/** The dispatch pipeline: one producer, a bounded queue, the workers and the
    reporter, in any interleaving of their atomic steps. */
module Pipeline {
  import opened Counting
  import opened ErrorLog

  datatype Request = Request(name: string, payload: seq<int>)
  datatype Job = Job(name: string, payload: seq<int>)

  datatype Config = Config(reqs: seq<Request>, fallback: string, capacity: nat, workers: nat)

  function RoundRobin(reqs: seq<Request>, idx: nat): Request
    requires reqs != []
  {
    reqs[idx % |reqs|]
  }

  function MakeJob(r: Request, fallback: string): Job {
    Job(if r.name != "" then r.name else fallback, r.payload)
  }

  datatype Outcome = Success | Failure(text: string)

  /** A worker by what it does next: receive, finish its call, add to the
      per-second counter, add to the total, enter the mutex; job is the number
      of the job it received. */
  datatype Worker =
    | Idle
    | Calling(job: nat)
    | Replied(job: nat, outcome: Outcome)
    | Half(job: nat, outcome: Outcome)
    | Counted(job: nat, outcome: Outcome)
    | Gone

  datatype Producer = Fetching | Holding(job: Job) | Queued | HalfSent | Closed | Finished

  /** sec is what the reporter has not swapped out yet, reported what it has. */
  datatype Counter = Counter(total: nat, sec: nat, reported: nat)

  /** taken counts the jobs received; done lists the numbers of the finished ones, log the texts filed, unfiled
      the failures with an empty text. */
  datatype State = State(
    producer: Producer, base: nat, spikes: nat,
    accepted: seq<Job>, queue: seq<Job>, taken: nat,
    workers: seq<Worker>, done: seq<nat>,
    sent: Counter, ok: Counter, err: Counter,
    log: seq<string>, unfiled: nat, okLat: nat)

  datatype Action =
    | Fetch(spike: bool)
    | Enqueue
    | AddSent
    | AddSecSent
    | Close
    | Wait
    | Receive(i: nat)
    | Quit(i: nat)
    | Reply(i: nat, reply: Outcome)
    | AddSec(i: nat)
    | AddTotal(i: nat)
    | Lock(i: nat)
    | SwapSent
    | SwapOK
    | SwapErr

  function Start(c: Config): State {
    var zero := Counter(0, 0, 0);
    State(Fetching, 0, 0, [], [], 0, seq(c.workers, i => Idle), [], zero, zero, zero, [], 0, 0)
  }

  predicate Enabled(c: Config, s: State, a: Action) {
    match a
    case Fetch(_) => s.producer == Fetching
    case Enqueue => s.producer.Holding? && |s.queue| < c.capacity
    case AddSent => s.producer == Queued
    case AddSecSent => s.producer == HalfSent
    case Close => s.producer == Fetching
    case Wait => s.producer == Closed && forall i :: 0 <= i < |s.workers| ==> s.workers[i].Gone?
    case Receive(i) => i < |s.workers| && s.workers[i].Idle? && s.queue != []
    case Quit(i) => i < |s.workers| && s.workers[i].Idle? && s.queue == [] && s.producer == Closed
    case Reply(i, _) => i < |s.workers| && s.workers[i].Calling?
    case AddSec(i) => i < |s.workers| && s.workers[i].Replied?
    case AddTotal(i) => i < |s.workers| && s.workers[i].Half?
    case Lock(i) => i < |s.workers| && s.workers[i].Counted?
    case SwapSent => true
    case SwapOK => true
    case SwapErr => true
  }

  function InSec(n: Counter): Counter { n.(sec := n.sec + 1) }
  function InTotal(n: Counter): Counter { n.(total := n.total + 1) }
  function Swapped(n: Counter): Counter { Counter(n.total, 0, n.reported + n.sec) }

  /** The k-th job: the producer walks the requests in a ring. */
  function JobNumber(c: Config, k: nat): Job
    requires c.reqs != []
  {
    MakeJob(RoundRobin(c.reqs, k), c.fallback)
  }

  /** A worker's report under the mutex. */
  function Locked(s: State, i: nat): State
    requires i < |s.workers| && s.workers[i].Counted?
  {
    var w := s.workers[i];
    var t := s.(workers := s.workers[i := Idle], done := s.done + [w.job]);
    match w.outcome
    case Success => t.(okLat := s.okLat + 1)
    case Failure(text) =>
      if Shortened(text) != "" then t.(log := s.log + [Shortened(text)])
      else t.(okLat := s.okLat + 1, unfiled := s.unfiled + 1)
  }

  function After(c: Config, s: State, a: Action): State
    requires c.reqs != [] && Enabled(c, s, a)
  {
    match a
    case Fetch(spike) =>
      var t := s.(producer := Holding(JobNumber(c, s.base + s.spikes)));
      if spike then t.(spikes := s.spikes + 1) else t.(base := s.base + 1)
    case Enqueue =>
      s.(producer := Queued, accepted := s.accepted + [s.producer.job], queue := s.queue + [s.producer.job])
    case AddSent => s.(producer := HalfSent, sent := InTotal(s.sent))
    case AddSecSent => s.(producer := Fetching, sent := InSec(s.sent))
    case Close => s.(producer := Closed)
    case Wait => s.(producer := Finished)
    case Receive(i) => s.(workers := s.workers[i := Calling(s.taken)], taken := s.taken + 1, queue := s.queue[1..])
    case Quit(i) => s.(workers := s.workers[i := Gone])
    case Reply(i, o) => s.(workers := s.workers[i := Replied(s.workers[i].job, o)])
    case AddSec(i) =>
      var w := s.workers[i];
      var t := s.(workers := s.workers[i := Half(w.job, w.outcome)]);
      if w.outcome.Success? then t.(ok := InSec(s.ok)) else t.(err := InSec(s.err))
    case AddTotal(i) =>
      var w := s.workers[i];
      var t := s.(workers := s.workers[i := Counted(w.job, w.outcome)]);
      if w.outcome.Success? then t.(ok := InTotal(s.ok)) else t.(err := InTotal(s.err))
    case Lock(i) => Locked(s, i)
    case SwapSent => s.(sent := Swapped(s.sent))
    case SwapOK => s.(ok := Swapped(s.ok))
    case SwapErr => s.(err := Swapped(s.err))
  }

  predicate Legal(c: Config, acts: seq<Action>)
    requires c.reqs != []
    decreases |acts|, 0
  {
    acts == [] ||
    var n := |acts| - 1;
    Legal(c, acts[..n]) && Enabled(c, Exec(c, acts[..n]), acts[n])
  }

  /** The state after the steps acts, in that order. */
  function Exec(c: Config, acts: seq<Action>): State
    requires c.reqs != [] && Legal(c, acts)
    decreases |acts|, 1
  {
    if acts == [] then Start(c) else After(c, Exec(c, acts[..|acts| - 1]), acts[|acts| - 1])
  }

  // ----- what the workers are doing

  predicate Holds(w: Worker) { !w.Idle? && !w.Gone? }
  predicate Uncounted(w: Worker) { w.Calling? || w.Replied? || w.Half? }
  predicate HalfOk(w: Worker) { w.Half? && w.outcome.Success? }
  predicate HalfErr(w: Worker) { w.Half? && !w.outcome.Success? }
  predicate CountedOk(w: Worker) { w.Counted? && w.outcome.Success? }
  predicate CountedErr(w: Worker) { w.Counted? && !w.outcome.Success? }

  function HoldsJob(j: nat): Worker -> bool {
    w => Holds(w) && w.job == j
  }

  /** How many workers hold job j. */
  function Holders(ws: seq<Worker>, j: nat): nat {
    Num(ws, HoldsJob(j))
  }

  /** How often job j was finished. */
  function TimesDone(done: seq<nat>, j: nat): nat {
    Num(done, k => k == j)
  }
}
