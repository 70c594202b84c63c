/** What every step of the pipeline keeps. */
module PipelineInvariant {
  import opened Counting
  import opened ErrorLog
  import opened Pipeline

  /** The queue is bounded and first-in first-out: it is the accepted jobs not yet taken. */
  ghost predicate Queueing(c: Config, s: State) {
    |s.queue| <= c.capacity && s.taken + |s.queue| == |s.accepted| && s.queue == s.accepted[s.taken..]
  }

  /** The k-th accepted job is the k-th of the ring, one per arrival. */
  ghost predicate Ring(c: Config, s: State)
    requires c.reqs != []
  {
    s.base + s.spikes == |s.accepted| + One(s.producer.Holding?) &&
    (s.producer.Holding? ==> s.producer.job == JobNumber(c, |s.accepted|)) &&
    forall k :: 0 <= k < |s.accepted| ==> s.accepted[k] == JobNumber(c, k)
  }

  ghost predicate Sending(s: State) {
    |s.accepted| == s.sent.total + One(s.producer == Queued) &&
    s.sent.total == s.sent.sec + s.sent.reported + One(s.producer == HalfSent)
  }

  /** Each job taken is held by one worker or was finished once. */
  ghost predicate Once(s: State, j: nat) {
    Holders(s.workers, j) + TimesDone(s.done, j) == One(j < s.taken)
  }

  ghost predicate Held(s: State) {
    Num(s.workers, Holds) + |s.done| == s.taken
  }

  ghost predicate Totals(s: State) {
    s.ok.total + s.err.total + Num(s.workers, Uncounted) == s.taken
  }

  ghost predicate Seconds(s: State) {
    s.ok.sec + s.ok.reported == s.ok.total + Num(s.workers, HalfOk) &&
    s.err.sec + s.err.reported == s.err.total + Num(s.workers, HalfErr)
  }

  /** An error with an empty text is counted as an error and timed as a success. */
  ghost predicate Filing(s: State) {
    s.err.total == |s.log| + s.unfiled + Num(s.workers, CountedErr) &&
    s.ok.total + s.unfiled == s.okLat + Num(s.workers, CountedOk)
  }

  ghost predicate Leaving(c: Config, s: State) {
    |s.workers| == c.workers &&
    (forall i :: 0 <= i < |s.workers| && s.workers[i].Gone? ==>
       s.queue == [] && (s.producer == Closed || s.producer == Finished)) &&
    (s.producer == Finished ==> forall i :: 0 <= i < |s.workers| ==> s.workers[i].Gone?)
  }

  ghost predicate Inv(c: Config, s: State)
    requires c.reqs != []
  {
    Queueing(c, s) && Ring(c, s) && Sending(s) && Held(s) && Totals(s) && Seconds(s) && Filing(s) && Leaving(c, s) &&
    forall j :: Once(s, j)
  }

  predicate OfWorker(a: Action) {
    a.Receive? || a.Quit? || a.Reply? || a.AddSec? || a.AddTotal? || a.Lock?
  }

  /** A step changes at most the state of the worker that makes it. */
  lemma Count(c: Config, s: State, a: Action, p: Worker -> bool)
    requires c.reqs != [] && Enabled(c, s, a)
    ensures |After(c, s, a).workers| == |s.workers|
    ensures OfWorker(a) ==>
      Num(After(c, s, a).workers, p) + One(p(s.workers[a.i])) == Num(s.workers, p) + One(p(After(c, s, a).workers[a.i]))
    ensures !OfWorker(a) ==> After(c, s, a).workers == s.workers
  {
    if OfWorker(a) {
      var t := After(c, s, a);
      assert t.workers == s.workers[a.i := t.workers[a.i]];
      NumUpdate(s.workers, a.i, t.workers[a.i], p);
    }
  }

  lemma StepQueueing(c: Config, s: State, a: Action)
    requires c.reqs != [] && Enabled(c, s, a) && Queueing(c, s)
    ensures Queueing(c, After(c, s, a))
  {
  }

  lemma StepRing(c: Config, s: State, a: Action)
    requires c.reqs != [] && Enabled(c, s, a) && Ring(c, s)
    ensures Ring(c, After(c, s, a))
  {
  }

  lemma StepSending(c: Config, s: State, a: Action)
    requires c.reqs != [] && Enabled(c, s, a) && Sending(s)
    ensures Sending(After(c, s, a))
  {
  }

  /** Job j passes from the queue to a worker and from the worker to done. */
  lemma JobMoves(c: Config, s: State, a: Action, j: nat)
    requires c.reqs != [] && Enabled(c, s, a) && OfWorker(a)
    ensures |After(c, s, a).workers| == |s.workers|
    ensures var t := After(c, s, a);
      One(HoldsJob(j)(t.workers[a.i])) + One(a.Lock? && s.workers[a.i].job == j) + One(j < s.taken) ==
      One(HoldsJob(j)(s.workers[a.i])) + One(j < t.taken)
  {
  }

  lemma DoneMoves(c: Config, s: State, a: Action, j: nat)
    requires c.reqs != [] && Enabled(c, s, a)
    ensures TimesDone(After(c, s, a).done, j) == TimesDone(s.done, j) + One(a.Lock? && s.workers[a.i].job == j)
  {
    if a.Lock? { NumSnoc(s.done, s.workers[a.i].job, k => k == j); }
  }

  lemma StepOnce(c: Config, s: State, a: Action, j: nat)
    requires c.reqs != [] && Enabled(c, s, a) && Once(s, j)
    ensures Once(After(c, s, a), j)
  {
    Count(c, s, a, HoldsJob(j));
    DoneMoves(c, s, a, j);
    if OfWorker(a) { JobMoves(c, s, a, j); } else { assert After(c, s, a).taken == s.taken; }
  }

  lemma StepHeld(c: Config, s: State, a: Action)
    requires c.reqs != [] && Enabled(c, s, a) && Held(s)
    ensures Held(After(c, s, a))
  {
    Count(c, s, a, Holds);
  }

  lemma StepTotals(c: Config, s: State, a: Action)
    requires c.reqs != [] && Enabled(c, s, a) && Totals(s)
    ensures Totals(After(c, s, a))
  {
    Count(c, s, a, Uncounted);
  }

  lemma StepSeconds(c: Config, s: State, a: Action)
    requires c.reqs != [] && Enabled(c, s, a) && Seconds(s)
    ensures Seconds(After(c, s, a))
  {
    Count(c, s, a, HalfOk);
    Count(c, s, a, HalfErr);
  }

  lemma StepFiling(c: Config, s: State, a: Action)
    requires c.reqs != [] && Enabled(c, s, a) && Filing(s)
    ensures Filing(After(c, s, a))
  {
    Count(c, s, a, CountedErr);
    Count(c, s, a, CountedOk);
  }

  lemma StepLeaving(c: Config, s: State, a: Action)
    requires c.reqs != [] && Enabled(c, s, a) && Leaving(c, s)
    ensures Leaving(c, After(c, s, a))
  {
  }

  lemma StepInv(c: Config, s: State, a: Action)
    requires c.reqs != [] && Enabled(c, s, a) && Inv(c, s)
    ensures Inv(c, After(c, s, a))
  {
    StepQueueing(c, s, a);
    StepRing(c, s, a);
    StepSending(c, s, a);
    StepHeld(c, s, a);
    StepTotals(c, s, a);
    StepSeconds(c, s, a);
    StepFiling(c, s, a);
    StepLeaving(c, s, a);
    forall j: nat ensures Once(After(c, s, a), j) { StepOnce(c, s, a, j); }
  }

  lemma StartInv(c: Config)
    requires c.reqs != []
    ensures Inv(c, Start(c))
  {
    var ws := Start(c).workers;
    NumNone(ws, Holds);
    NumNone(ws, Uncounted);
    NumNone(ws, HalfOk);
    NumNone(ws, HalfErr);
    NumNone(ws, CountedOk);
    NumNone(ws, CountedErr);
    forall j: nat ensures Once(Start(c), j) { NumNone(ws, HoldsJob(j)); }
  }

  lemma {:induction false} RunInv(c: Config, acts: seq<Action>)
    requires c.reqs != [] && Legal(c, acts)
    ensures Inv(c, Exec(c, acts))
  {
    if acts == [] {
      StartInv(c);
    } else {
      var n := |acts| - 1;
      RunInv(c, acts[..n]);
      StepInv(c, Exec(c, acts[..n]), acts[n]);
    }
  }
}
