/** The pipeline's promises over whole runs. */
module PipelineTheorems {
  import opened Counting
  import opened ErrorLog
  import opened Pipeline
  import opened PipelineInvariant

  /** A job has its request's payload, and its method unless that is empty. */
  predicate Carries(j: Job, r: Request, fallback: string) {
    j.payload == r.payload && j.name == if r.name == "" then fallback else r.name
  }

  /** The accepted jobs are those queued, those held by workers and those
      finished; the queue keeps its bound and its order; the k-th accepted job
      is request k mod n. */
  ghost predicate Conserved(c: Config, s: State)
    requires c.reqs != []
  {
    |s.accepted| == |s.queue| + Num(s.workers, Holds) + |s.done| &&
    |s.queue| <= c.capacity &&
    s.queue == s.accepted[|s.accepted| - |s.queue|..] &&
    forall k :: 0 <= k < |s.accepted| ==> Carries(s.accepted[k], c.reqs[k % |c.reqs|], c.fallback)
  }

  lemma InvConserves(c: Config, s: State)
    requires c.reqs != [] && Inv(c, s)
    ensures Conserved(c, s)
  {
    forall k | 0 <= k < |s.accepted| ensures Carries(s.accepted[k], c.reqs[k % |c.reqs|], c.fallback) {
      assert s.accepted[k] == JobNumber(c, k);
    }
  }

  /** At every moment of every run. */
  lemma JobsConserved(c: Config, acts: seq<Action>)
    requires c.reqs != [] && Legal(c, acts)
    ensures Conserved(c, Exec(c, acts))
  {
    RunInv(c, acts);
    InvConserves(c, Exec(c, acts));
  }

  /** At every moment no job was finished twice, or while some worker holds it. */
  lemma NeverTwice(c: Config, acts: seq<Action>, j: nat)
    requires c.reqs != [] && Legal(c, acts)
    ensures var s := Exec(c, acts); TimesDone(s.done, j) + Holders(s.workers, j) <= One(j < |s.accepted|)
  {
    RunInv(c, acts);
    assert Once(Exec(c, acts), j);
  }

  lemma AllGone(c: Config, s: State)
    requires c.reqs != [] && c.workers > 0 && Inv(c, s) && s.producer == Finished
    ensures s.queue == [] && s.taken == |s.accepted| == |s.done|
    ensures Num(s.workers, Uncounted) == 0 && Num(s.workers, HalfOk) == 0 && Num(s.workers, HalfErr) == 0
    ensures Num(s.workers, CountedOk) == 0 && Num(s.workers, CountedErr) == 0
    ensures forall j: nat :: TimesDone(s.done, j) == One(j < |s.accepted|)
  {
    assert s.workers[0].Gone?;
    NumNone(s.workers, Holds);
    NumNone(s.workers, Uncounted);
    NumNone(s.workers, HalfOk);
    NumNone(s.workers, HalfErr);
    NumNone(s.workers, CountedOk);
    NumNone(s.workers, CountedErr);
    forall j: nat ensures TimesDone(s.done, j) == One(j < |s.accepted|) {
      NumNone(s.workers, HoldsJob(j));
      assert Once(s, j);
    }
  }

  /** After close and wait: every arrival was sent, every send was answered and
      counted once, every job was called exactly once. */
  lemma AtTheEnd(c: Config, acts: seq<Action>)
    requires c.reqs != [] && c.workers > 0 && Legal(c, acts) && Exec(c, acts).producer == Finished
    ensures var s := Exec(c, acts);
      s.sent.total == s.base + s.spikes == s.ok.total + s.err.total
    ensures forall j: nat :: TimesDone(Exec(c, acts).done, j) == One(j < Exec(c, acts).sent.total)
    ensures var s := Exec(c, acts);
      s.sent.sec + s.sent.reported == s.sent.total && s.ok.sec + s.ok.reported == s.ok.total &&
      s.err.sec + s.err.reported == s.err.total
  {
    RunInv(c, acts);
    AllGone(c, Exec(c, acts));
  }

  /** The reporter never reports more than was counted, at any moment. */
  lemma ReportsBehind(c: Config, acts: seq<Action>)
    requires c.reqs != [] && Legal(c, acts)
    ensures var s := Exec(c, acts);
      s.sent.reported <= s.sent.total &&
      s.ok.total <= s.ok.sec + s.ok.reported && s.err.total <= s.err.sec + s.err.reported
  {
    RunInv(c, acts);
  }

  // ----- errors with an empty text

  predicate EmptyReply(a: Action) { a.Reply? && a.reply == Failure("") }

  predicate HoldsEmpty(w: Worker) { (w.Replied? || w.Half? || w.Counted?) && w.outcome == Failure("") }

  lemma EmptyStep(c: Config, s: State, a: Action)
    requires c.reqs != [] && Enabled(c, s, a)
    ensures var t := After(c, s, a);
      t.unfiled + (if OfWorker(a) then One(HoldsEmpty(t.workers[a.i])) else 0) ==
      s.unfiled + (if OfWorker(a) then One(HoldsEmpty(s.workers[a.i])) else 0) + One(EmptyReply(a))
  {
  }

  lemma {:induction false} EmptyReplies(c: Config, acts: seq<Action>)
    requires c.reqs != [] && Legal(c, acts)
    ensures Num(acts, EmptyReply) == Exec(c, acts).unfiled + Num(Exec(c, acts).workers, HoldsEmpty)
  {
    if acts == [] {
      NumNone(Start(c).workers, HoldsEmpty);
    } else {
      var n := |acts| - 1;
      EmptyReplies(c, acts[..n]);
      Count(c, Exec(c, acts[..n]), acts[n], HoldsEmpty);
      EmptyStep(c, Exec(c, acts[..n]), acts[n]);
    }
  }

  /** The error map and its spill hold every error but those with an empty
      text, which are timed as successes: the number of timed successes is the
      number of successes exactly if no error had an empty text. */
  lemma ErrorsAtTheEnd(c: Config, acts: seq<Action>)
    requires c.reqs != [] && c.workers > 0 && Legal(c, acts) && Exec(c, acts).producer == Finished
    ensures var s := Exec(c, acts); var e := FiledAll(s.log);
      Total(e.counts) + e.other + Num(acts, EmptyReply) == s.err.total &&
      s.okLat == s.ok.total + Num(acts, EmptyReply) && |e.counts| <= MAX_DISTINCT
    ensures var s := Exec(c, acts);
      s.okLat == s.ok.total <==> forall k :: 0 <= k < |acts| ==> !EmptyReply(acts[k])
  {
    RunInv(c, acts);
    var s := Exec(c, acts);
    AllGone(c, s);
    AllFiled(s.log);
    BoundedTexts(s.log);
    EmptyReplies(c, acts);
    NumNone(s.workers, HoldsEmpty);
    if k :| 0 <= k < |acts| && EmptyReply(acts[k]) {
      NumSome(acts, EmptyReply, k);
    } else {
      NumNone(acts, EmptyReply);
    }
  }

  // ----- which arrivals were fetched

  /** The arrivals of each kind are counted as such. */
  lemma {:induction false} ArrivalsFetched(c: Config, acts: seq<Action>)
    requires c.reqs != [] && Legal(c, acts)
    ensures Exec(c, acts).base == Num(acts, (a: Action) => a.Fetch? && !a.spike)
    ensures Exec(c, acts).spikes == Num(acts, (a: Action) => a.Fetch? && a.spike)
  {
    if acts != [] { ArrivalsFetched(c, acts[..|acts| - 1]); }
  }

  // ----- what the workers' calls returned

  predicate Succeeded(a: Action) { a.Reply? && a.reply.Success? }

  predicate Failed(a: Action) { a.Reply? && a.reply.Failure? }

  /** Calls that failed with a text filed as x. */
  predicate FailedWith(a: Action, x: string) { a.Reply? && a.reply.Failure? && Shortened(a.reply.text) == x }

  predicate OwesOk(w: Worker) { (w.Replied? || w.Half?) && w.outcome.Success? }

  predicate OwesErr(w: Worker) { (w.Replied? || w.Half?) && w.outcome.Failure? }

  predicate OwesText(w: Worker, x: string) {
    (w.Replied? || w.Half? || w.Counted?) && w.outcome.Failure? && Shortened(w.outcome.text) == x
  }

  lemma RepliesStep(c: Config, s: State, a: Action)
    requires c.reqs != [] && Enabled(c, s, a)
    ensures var t := After(c, s, a);
      t.ok.total + (if OfWorker(a) then One(OwesOk(t.workers[a.i])) else 0) ==
      s.ok.total + (if OfWorker(a) then One(OwesOk(s.workers[a.i])) else 0) + One(Succeeded(a)) &&
      t.err.total + (if OfWorker(a) then One(OwesErr(t.workers[a.i])) else 0) ==
      s.err.total + (if OfWorker(a) then One(OwesErr(s.workers[a.i])) else 0) + One(Failed(a))
  {
  }

  /** Totals are behind the replies by what the workers have still to add. */
  lemma {:induction false} RepliesCounted(c: Config, acts: seq<Action>)
    requires c.reqs != [] && Legal(c, acts)
    ensures Num(acts, Succeeded) == Exec(c, acts).ok.total + Num(Exec(c, acts).workers, OwesOk)
    ensures Num(acts, Failed) == Exec(c, acts).err.total + Num(Exec(c, acts).workers, OwesErr)
  {
    if acts == [] {
      NumNone(Start(c).workers, OwesOk);
      NumNone(Start(c).workers, OwesErr);
    } else {
      var n := |acts| - 1;
      RepliesCounted(c, acts[..n]);
      Count(c, Exec(c, acts[..n]), acts[n], OwesOk);
      Count(c, Exec(c, acts[..n]), acts[n], OwesErr);
      RepliesStep(c, Exec(c, acts[..n]), acts[n]);
    }
  }

  lemma TextStep(c: Config, s: State, a: Action, x: string)
    requires c.reqs != [] && Enabled(c, s, a) && x != ""
    ensures var t := After(c, s, a);
      Occurrences(t.log, x) + (if OfWorker(a) then One(OwesText(t.workers[a.i], x)) else 0) ==
      Occurrences(s.log, x) + (if OfWorker(a) then One(OwesText(s.workers[a.i], x)) else 0) + One(FailedWith(a, x))
  {
    if a.Lock? && s.workers[a.i].outcome.Failure? {
      NumSnoc(s.log, Shortened(s.workers[a.i].outcome.text), t => t == x);
    }
  }

  lemma {:induction false} TextsFiled(c: Config, acts: seq<Action>, x: string)
    requires c.reqs != [] && Legal(c, acts) && x != ""
    ensures Num(acts, a => FailedWith(a, x)) ==
      Occurrences(Exec(c, acts).log, x) + Num(Exec(c, acts).workers, w => OwesText(w, x))
  {
    if acts == [] {
      NumNone(Start(c).workers, w => OwesText(w, x));
    } else {
      var n := |acts| - 1;
      TextsFiled(c, acts[..n], x);
      Count(c, Exec(c, acts[..n]), acts[n], w => OwesText(w, x));
      TextStep(c, Exec(c, acts[..n]), acts[n], x);
    }
  }

  lemma NothingOwed(c: Config, s: State, x: string)
    requires c.reqs != [] && Inv(c, s) && s.producer == Finished
    ensures Num(s.workers, OwesOk) == 0 && Num(s.workers, OwesErr) == 0 && Num(s.workers, w => OwesText(w, x)) == 0
  {
    NumNone(s.workers, OwesOk);
    NumNone(s.workers, OwesErr);
    NumNone(s.workers, w => OwesText(w, x));
  }

  /** At the end the totals are the numbers of calls that succeeded and failed,
      and each text in the error map has the number of calls that failed with it. */
  lemma RepliesAtTheEnd(c: Config, acts: seq<Action>, x: string)
    requires c.reqs != [] && Legal(c, acts) && Exec(c, acts).producer == Finished && x != ""
    ensures Exec(c, acts).ok.total == Num(acts, (a: Action) => a.Reply? && a.reply.Success?)
    ensures Exec(c, acts).err.total == Num(acts, (a: Action) => a.Reply? && a.reply.Failure?)
    ensures Occurrences(Exec(c, acts).log, x) == Num(acts, a => FailedWith(a, x))
    ensures var e := FiledAll(Exec(c, acts).log); x in e.counts ==> e.counts[x] == Num(acts, a => FailedWith(a, x))
  {
    hide Legal, Exec, Inv;
    RunInv(c, acts);
    NothingOwed(c, Exec(c, acts), x);
    RepliesCounted(c, acts);
    NumAgree(acts, Succeeded, (a: Action) => a.Reply? && a.reply.Success?);
    NumAgree(acts, Failed, (a: Action) => a.Reply? && a.reply.Failure?);
    TextsFiled(c, acts, x);
    ExactCounts(Exec(c, acts).log, x);
  }

  // ----- the pipeline finishes

  predicate Reporting(a: Action) { a.SwapSent? || a.SwapOK? || a.SwapErr? }

  predicate Working(a: Action) { !Reporting(a) }

  /** A worker with a job, or with something to receive, can move. */
  predicate CanMove(s: State, w: Worker) {
    Holds(w) || (w.Idle? && (s.queue != [] || s.producer == Closed))
  }

  lemma WorkerMoves(c: Config, s: State, i: nat) returns (a: Action)
    requires i < |s.workers| && CanMove(s, s.workers[i])
    ensures Working(a) && Enabled(c, s, a)
  {
    match s.workers[i]
    case Calling(_) => a := Reply(i, Success);
    case Replied(_, _) => a := AddSec(i);
    case Half(_, _) => a := AddTotal(i);
    case Counted(_, _) => a := Lock(i);
    case Idle => a := if s.queue != [] then Receive(i) else Quit(i);
  }

  lemma ProducerMoves(c: Config, s: State) returns (a: Action)
    requires Leaving(c, s) && c.workers > 0 && c.capacity > 0 && s.producer != Finished
    requires forall i :: 0 <= i < |s.workers| ==> !CanMove(s, s.workers[i])
    ensures Working(a) && Enabled(c, s, a)
  {
    assert !CanMove(s, s.workers[0]);
    match s.producer
    case Fetching => a := Close;
    case Queued => a := AddSent;
    case HalfSent => a := AddSecSent;
    case Holding(_) =>
      a := Enqueue;
      assert s.workers[0].Idle?;
    case Closed =>
      a := Wait;
      forall i | 0 <= i < |s.workers| ensures s.workers[i].Gone? { assert !CanMove(s, s.workers[i]); }
  }

  lemma SomethingMoves(c: Config, s: State) returns (a: Action)
    requires Leaving(c, s) && c.workers > 0 && c.capacity > 0 && s.producer != Finished
    ensures Working(a) && Enabled(c, s, a)
  {
    if i :| 0 <= i < |s.workers| && CanMove(s, s.workers[i]) {
      a := WorkerMoves(c, s, i);
    } else {
      a := ProducerMoves(c, s);
    }
  }

  /** There is always something to do until the producer has waited for all. */
  lemma NoDeadlock(c: Config, acts: seq<Action>) returns (a: Action)
    requires c.reqs != [] && c.workers > 0 && c.capacity > 0 && Legal(c, acts) && Exec(c, acts).producer != Finished
    ensures Working(a) && Enabled(c, Exec(c, acts), a)
  {
    RunInv(c, acts);
    a := SomethingMoves(c, Exec(c, acts));
  }

  predicate Early(w: Worker) { w.Calling? || w.Replied? }
  predicate Called(w: Worker) { w.Calling? }
  predicate Left(w: Worker) { w.Gone? }

  function Ranks(ws: seq<Worker>): nat {
    Num(ws, Holds) + Num(ws, Uncounted) + Num(ws, Early) + Num(ws, Called)
  }

  /** Steps still owed to the arrivals fetched so far. */
  function Owed(s: State): nat {
    (match s.producer
     case Holding(_) => 8
     case Queued => 2
     case HalfSent => 1
     case Fetching => 0
     case Closed => 0
     case Finished => 0) +
    5 * |s.queue| + Ranks(s.workers)
  }

  /** Steps made that no arrival asked for: closing, quitting, waiting. */
  function Closing(s: State): nat {
    Num(s.workers, Left) + (if s.producer == Closed then 1 else if s.producer == Finished then 2 else 0)
  }

  /** A worker with its position in the steps of a job. */
  function Rank(w: Worker): nat {
    One(Holds(w)) + One(Uncounted(w)) + One(Early(w)) + One(Called(w))
  }

  /** One worker changes its rank, or leaves. */
  ghost predicate RankMoves(s: State, t: State, i: nat)
    requires i < |s.workers| == |t.workers|
  {
    Ranks(t.workers) + Rank(s.workers[i]) == Ranks(s.workers) + Rank(t.workers[i]) &&
    Num(t.workers, Left) + One(Left(s.workers[i])) == Num(s.workers, Left) + One(Left(t.workers[i]))
  }

  lemma RanksStep(c: Config, s: State, a: Action)
    requires c.reqs != [] && Enabled(c, s, a) && OfWorker(a)
    ensures |After(c, s, a).workers| == |s.workers| && RankMoves(s, After(c, s, a), a.i)
  {
    Count(c, s, a, Holds);
    Count(c, s, a, Uncounted);
    Count(c, s, a, Early);
    Count(c, s, a, Called);
    Count(c, s, a, Left);
  }

  /** A step pays what it was owed. */
  ghost predicate Pays(s: State, t: State, a: Action) {
    Owed(t) + One(Working(a)) + 9 * (s.base + s.spikes) + Closing(s) == Owed(s) + 9 * (t.base + t.spikes) + Closing(t)
  }

  lemma RankDrops(c: Config, s: State, a: Action, t: State)
    requires c.reqs != [] && Enabled(c, s, a) && OfWorker(a) && !a.Receive? && t == After(c, s, a)
    ensures |t.workers| == |s.workers| && t.queue == s.queue && t.producer == s.producer
    ensures t.base == s.base && t.spikes == s.spikes
    ensures !Left(s.workers[a.i]) && (Left(t.workers[a.i]) <==> a.Quit?)
    ensures Rank(s.workers[a.i]) == Rank(t.workers[a.i]) + if a.Quit? then 0 else 1
  {
  }

  lemma OwedByWorker(c: Config, s: State, a: Action, t: State)
    requires c.reqs != [] && Enabled(c, s, a) && OfWorker(a) && t == After(c, s, a)
    requires |t.workers| == |s.workers| && RankMoves(s, t, a.i)
    ensures Pays(s, t, a)
  {
    if a.Receive? {
      assert |t.queue| == |s.queue| - 1 && Rank(s.workers[a.i]) == 0 && Rank(t.workers[a.i]) == 4;
    } else {
      RankDrops(c, s, a, t);
    }
  }

  lemma OwedByOthers(c: Config, s: State, a: Action, t: State)
    requires c.reqs != [] && Enabled(c, s, a) && !OfWorker(a) && t == After(c, s, a)
    ensures Pays(s, t, a)
  {
    assert t.workers == s.workers;
  }

  lemma OwedStep(c: Config, s: State, a: Action)
    requires c.reqs != [] && Enabled(c, s, a)
    ensures Pays(s, After(c, s, a), a)
  {
    if OfWorker(a) {
      RanksStep(c, s, a);
      OwedByWorker(c, s, a, After(c, s, a));
    } else {
      OwedByOthers(c, s, a, After(c, s, a));
    }
  }

  lemma {:induction false} StepsOwed(c: Config, acts: seq<Action>)
    requires c.reqs != [] && Legal(c, acts)
    ensures var s := Exec(c, acts);
      Num(acts, Working) + Owed(s) == 9 * (s.base + s.spikes) + Closing(s)
  {
    if acts == [] {
      var ws := Start(c).workers;
      NumNone(ws, Holds);
      NumNone(ws, Uncounted);
      NumNone(ws, Early);
      NumNone(ws, Called);
      NumNone(ws, Left);
    } else {
      var n := |acts| - 1;
      StepsOwed(c, acts[..n]);
      OwedStep(c, Exec(c, acts[..n]), acts[n]);
    }
  }

  /** A run over n arrivals makes at most nine steps for each, one for each
      worker and two more, besides the reporter's. With NoDeadlock: once the
      schedule ends, the pipeline does. */
  lemma RunIsShort(c: Config, acts: seq<Action>)
    requires c.reqs != [] && Legal(c, acts)
    ensures Num(acts, Working) <= 9 * (Exec(c, acts).base + Exec(c, acts).spikes) + c.workers + 2
  {
    RunInv(c, acts);
    StepsOwed(c, acts);
    NumAtMost(Exec(c, acts).workers, Left);
  }
}
