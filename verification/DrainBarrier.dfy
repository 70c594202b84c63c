/** The parity checker's request loop: at most LIMIT requests in flight under a
    semaphore, tallies added one atomic step at a time, and main taking every
    token before it reads them. */
module DrainBarrier {
  import opened Counting
  import opened ParityCheck
  import opened Wire

  const LIMIT: nat := 32

  datatype Reply = Reply(failedA: bool, failedB: bool, respA: seq<Byte>, respB: seq<Byte>)

  datatype Class = BothErr | ErrA | ErrB | Identical | FloatMatch | Mismatch

  /** The switch on a pair of replies; matches compares responses that differ. */
  function Classify(matches: (seq<Byte>, seq<Byte>) -> bool, r: Reply): Class {
    if r.failedA && r.failedB then BothErr
    else if r.failedA then ErrA
    else if r.failedB then ErrB
    else if r.respA == r.respB then Identical
    else if matches(r.respA, r.respB) then FloatMatch
    else Mismatch
  }

  /** A request by how many of its adds it has made after counting itself sent;
      Tallied has made all and holds its token, Over has given it back. */
  datatype Request =
    | Calling
    | Sent(class_: Class)
    | First(class_: Class)
    | Second(class_: Class)
    | Tallied(class_: Class)
    | Over(class_: Class)

  /** main is between requests, has a token for the next one, has drained some, or is past the drain. */
  datatype Main = Looping | Launching | Draining(taken: nat) | Reading

  datatype Tallies = Tallies(
    sent: nat, matched: nat, mismatch: nat, errA: nat, errB: nat, bothErr: nat,
    byteDiff: nat, identical: nat, diffs: nat)

  datatype State = State(main: Main, sem: nat, requests: seq<Request>, t: Tallies)

  const START := State(Looping, 0, [], Tallies(0, 0, 0, 0, 0, 0, 0, 0, 0))

  datatype Action =
    | Acquire | Launch | StopLooping | DrainOne | Read
    | Answer(i: nat, reply: Reply) | Add(i: nat) | Release(i: nat)

  predicate Enabled(s: State, a: Action) {
    match a
    case Acquire => s.main == Looping && s.sem < LIMIT
    case Launch => s.main == Launching
    case StopLooping => s.main == Looping
    case DrainOne => s.main.Draining? && s.main.taken < LIMIT && s.sem < LIMIT
    case Read => s.main == Draining(LIMIT)
    case Answer(i, _) => i < |s.requests| && s.requests[i].Calling?
    case Add(i) => i < |s.requests| && (s.requests[i].Sent? || s.requests[i].First? || s.requests[i].Second?)
    case Release(i) => i < |s.requests| && s.requests[i].Tallied? && s.sem > 0
  }

  /** The next atomic add of a request. */
  function Added(t: Tallies, r: Request): (Tallies, Request)
    requires r.Sent? || r.First? || r.Second?
  {
    match r
    case Sent(BothErr) => (t.(bothErr := t.bothErr + 1), Tallied(BothErr))
    case Sent(ErrA) => (t.(errA := t.errA + 1), Tallied(ErrA))
    case Sent(ErrB) => (t.(errB := t.errB + 1), Tallied(ErrB))
    case Sent(Identical) => (t.(matched := t.matched + 1), First(Identical))
    case Sent(c) => (t.(byteDiff := t.byteDiff + 1), First(c))
    case First(FloatMatch) => (t.(matched := t.matched + 1), Second(FloatMatch))
    case First(Mismatch) => (t.(mismatch := t.mismatch + 1), Second(Mismatch))
    case First(c) => (t.(identical := t.identical + 1), Tallied(c))
    case Second(c) => (t.(diffs := t.diffs + 1), Tallied(c))
  }

  function After(matches: (seq<Byte>, seq<Byte>) -> bool, s: State, a: Action): State
    requires Enabled(s, a)
  {
    match a
    case Acquire => s.(main := Launching, sem := s.sem + 1)
    case Launch => s.(main := Looping, requests := s.requests + [Calling])
    case StopLooping => s.(main := Draining(0))
    case DrainOne => s.(main := Draining(s.main.taken + 1), sem := s.sem + 1)
    case Read => s.(main := Reading)
    case Answer(i, r) =>
      s.(requests := s.requests[i := Sent(Classify(matches, r))], t := s.t.(sent := s.t.sent + 1))
    case Add(i) =>
      var (t, r) := Added(s.t, s.requests[i]);
      s.(requests := s.requests[i := r], t := t)
    case Release(i) => s.(requests := s.requests[i := Over(s.requests[i].class_)], sem := s.sem - 1)
  }

  ghost predicate Legal(matches: (seq<Byte>, seq<Byte>) -> bool, acts: seq<Action>)
    decreases |acts|, 0
  {
    acts == [] ||
    var n := |acts| - 1;
    Legal(matches, acts[..n]) && Enabled(Exec(matches, acts[..n]), acts[n])
  }

  ghost function Exec(matches: (seq<Byte>, seq<Byte>) -> bool, acts: seq<Action>): State
    requires Legal(matches, acts)
    decreases |acts|, 1
  {
    if acts == [] then START else After(matches, Exec(matches, acts[..|acts| - 1]), acts[|acts| - 1])
  }

  // ----- which adds a request has made

  predicate Finishing(r: Request) { r.Tallied? || r.Over? }
  predicate Live(r: Request) { !r.Over? }
  predicate IsSent(r: Request) { !r.Calling? }
  predicate IsBoth(r: Request) { Finishing(r) && r.class_ == BothErr }
  predicate IsErrA(r: Request) { Finishing(r) && r.class_ == ErrA }
  predicate IsErrB(r: Request) { Finishing(r) && r.class_ == ErrB }
  predicate IsIdentical(r: Request) { Finishing(r) && r.class_ == Identical }
  predicate IsMismatch(r: Request) { (r.Second? || Finishing(r)) && r.class_ == Mismatch }
  predicate IsMatch(r: Request) {
    ((r.First? || Finishing(r)) && r.class_ == Identical) || ((r.Second? || Finishing(r)) && r.class_ == FloatMatch)
  }
  predicate IsDiffering(r: Request) { !r.Calling? && (r.class_ == FloatMatch || r.class_ == Mismatch) }
  predicate IsByteDiff(r: Request) { IsDiffering(r) && !r.Sent? }
  predicate IsSampled(r: Request) { IsDiffering(r) && Finishing(r) }

  /** A First or Second request is of a class that gets there. */
  predicate Plausible(r: Request) {
    (r.First? ==> r.class_ == Identical || IsDiffering(r)) && (r.Second? ==> IsDiffering(r))
  }

  /** Each tally is the number of requests that have added to it. */
  ghost predicate Tallying(rs: seq<Request>, t: Tallies) {
    t.sent == Num(rs, IsSent) && t.matched == Num(rs, IsMatch) && t.mismatch == Num(rs, IsMismatch) &&
    t.errA == Num(rs, IsErrA) && t.errB == Num(rs, IsErrB) && t.bothErr == Num(rs, IsBoth) &&
    t.byteDiff == Num(rs, IsByteDiff) && t.identical == Num(rs, IsIdentical) && t.diffs == Num(rs, IsSampled)
  }

  /** The tokens main has taken, for a launch or for the drain. */
  function OfMain(m: Main): nat {
    match m
    case Looping => 0
    case Launching => 1
    case Draining(n) => n
    case Reading => LIMIT
  }

  /** The semaphore holds one token for each request in flight and main's. */
  ghost predicate Tokens(s: State) {
    s.sem == Num(s.requests, Live) + OfMain(s.main) && s.sem <= LIMIT
  }

  ghost predicate Inv(s: State) {
    Tokens(s) && Tallying(s.requests, s.t) && forall i :: 0 <= i < |s.requests| ==> Plausible(s.requests[i])
  }

  /** A request's move counts where it changes the predicate. */
  ghost predicate Moves(rs: seq<Request>, i: nat, r: Request, p: Request -> bool)
    requires i < |rs|
  {
    Num(rs[i := r], p) + One(p(rs[i])) == Num(rs, p) + One(p(r))
  }

  lemma MovesAll(rs: seq<Request>, i: nat, r: Request)
    requires i < |rs|
    ensures Moves(rs, i, r, IsSent) && Moves(rs, i, r, IsMatch) && Moves(rs, i, r, IsMismatch)
    ensures Moves(rs, i, r, IsErrA) && Moves(rs, i, r, IsErrB) && Moves(rs, i, r, IsBoth)
    ensures Moves(rs, i, r, IsByteDiff) && Moves(rs, i, r, IsIdentical) && Moves(rs, i, r, IsSampled)
  {
    NumUpdate(rs, i, r, IsSent);
    NumUpdate(rs, i, r, IsMatch);
    NumUpdate(rs, i, r, IsMismatch);
    NumUpdate(rs, i, r, IsErrA);
    NumUpdate(rs, i, r, IsErrB);
    NumUpdate(rs, i, r, IsBoth);
    NumUpdate(rs, i, r, IsByteDiff);
    NumUpdate(rs, i, r, IsIdentical);
    NumUpdate(rs, i, r, IsSampled);
  }

  lemma LaunchTallies(rs: seq<Request>, t: Tallies)
    requires Tallying(rs, t)
    ensures Tallying(rs + [Calling], t)
  {
    NumSnoc(rs, Calling, IsSent);
    NumSnoc(rs, Calling, IsMatch);
    NumSnoc(rs, Calling, IsMismatch);
    NumSnoc(rs, Calling, IsErrA);
    NumSnoc(rs, Calling, IsErrB);
    NumSnoc(rs, Calling, IsBoth);
    NumSnoc(rs, Calling, IsByteDiff);
    NumSnoc(rs, Calling, IsIdentical);
    NumSnoc(rs, Calling, IsSampled);
  }

  lemma AnswerTallies(rs: seq<Request>, t: Tallies, i: nat, c: Class)
    requires i < |rs| && rs[i].Calling? && Tallying(rs, t)
    ensures Tallying(rs[i := Sent(c)], t.(sent := t.sent + 1))
  {
    MovesAll(rs, i, Sent(c));
  }

  lemma AddTallies(rs: seq<Request>, t: Tallies, i: nat)
    requires i < |rs| && (rs[i].Sent? || rs[i].First? || rs[i].Second?) && Plausible(rs[i]) && Tallying(rs, t)
    ensures Tallying(rs[i := Added(t, rs[i]).1], Added(t, rs[i]).0) && Plausible(Added(t, rs[i]).1)
  {
    MovesAll(rs, i, Added(t, rs[i]).1);
  }

  lemma ReleaseTallies(rs: seq<Request>, t: Tallies, i: nat)
    requires i < |rs| && rs[i].Tallied? && Tallying(rs, t)
    ensures Tallying(rs[i := Over(rs[i].class_)], t)
  {
    MovesAll(rs, i, Over(rs[i].class_));
  }

  lemma StepTallies(matches: (seq<Byte>, seq<Byte>) -> bool, s: State, a: Action)
    requires Inv(s) && Enabled(s, a)
    ensures var u := After(matches, s, a);
      Tallying(u.requests, u.t) && forall i :: 0 <= i < |u.requests| ==> Plausible(u.requests[i])
  {
    match a
    case Launch => LaunchTallies(s.requests, s.t);
    case Answer(i, r) => AnswerTallies(s.requests, s.t, i, Classify(matches, r));
    case Add(i) => AddTallies(s.requests, s.t, i);
    case Release(i) => ReleaseTallies(s.requests, s.t, i);
    case _ =>
  }

  lemma StepTokens(matches: (seq<Byte>, seq<Byte>) -> bool, s: State, a: Action)
    requires Tokens(s) && Enabled(s, a)
    ensures Tokens(After(matches, s, a))
  {
    var u := After(matches, s, a);
    match a
    case Launch => NumSnoc(s.requests, Calling, Live);
    case Answer(i, _) => NumUpdate(s.requests, i, u.requests[i], Live);
    case Add(i) => NumUpdate(s.requests, i, u.requests[i], Live);
    case Release(i) => NumUpdate(s.requests, i, u.requests[i], Live);
    case _ =>
  }

  lemma {:induction false} RunInv(matches: (seq<Byte>, seq<Byte>) -> bool, acts: seq<Action>)
    requires Legal(matches, acts)
    ensures Inv(Exec(matches, acts))
  {
    if acts != [] {
      var n := |acts| - 1;
      RunInv(matches, acts[..n]);
      StepTallies(matches, Exec(matches, acts[..n]), acts[n]);
      StepTokens(matches, Exec(matches, acts[..n]), acts[n]);
    }
  }

  // ----- what the tallies say

  /** Never more than LIMIT requests in flight, and exactly as many as there
      are tokens that main does not hold. */
  lemma Throttled(matches: (seq<Byte>, seq<Byte>) -> bool, acts: seq<Action>)
    requires Legal(matches, acts)
    ensures var s := Exec(matches, acts);
      Num(s.requests, Live) == s.sem - OfMain(s.main) && Num(s.requests, Live) <= LIMIT
  {
    RunInv(matches, acts);
  }

  /** After the drain no request is in flight. */
  lemma NoneInFlight(s: State)
    requires Inv(s) && s.main == Reading
    ensures forall i :: 0 <= i < |s.requests| ==> s.requests[i].Over?
  {
    forall i | 0 <= i < |s.requests| ensures s.requests[i].Over? {
      if Live(s.requests[i]) { NumSome(s.requests, Live, i); }
    }
  }

  /** How many requests got replies of a class. */
  function Of(rs: seq<Request>, c: Class): nat {
    Num(rs, (r: Request) => !r.Calling? && r.class_ == c)
  }

  lemma {:induction false} EachHasOneClass(rs: seq<Request>)
    requires forall i :: 0 <= i < |rs| ==> !rs[i].Calling?
    ensures Of(rs, BothErr) + Of(rs, ErrA) + Of(rs, ErrB) +
            Of(rs, Identical) + Of(rs, FloatMatch) + Of(rs, Mismatch) == |rs|
  {
    if rs != [] { EachHasOneClass(rs[..|rs| - 1]); }
  }

  lemma {:induction false} MatchesAreTwoClasses(rs: seq<Request>)
    requires forall i :: 0 <= i < |rs| ==> rs[i].Over?
    ensures Num(rs, IsMatch) == Of(rs, Identical) + Of(rs, FloatMatch)
    ensures Num(rs, IsByteDiff) == Of(rs, FloatMatch) + Of(rs, Mismatch) == Num(rs, IsSampled)
  {
    if rs != [] { MatchesAreTwoClasses(rs[..|rs| - 1]); }
  }

  lemma OverCounts(rs: seq<Request>)
    requires forall i :: 0 <= i < |rs| ==> rs[i].Over?
    ensures Num(rs, IsBoth) == Of(rs, BothErr) && Num(rs, IsErrA) == Of(rs, ErrA) && Num(rs, IsErrB) == Of(rs, ErrB)
    ensures Num(rs, IsMismatch) == Of(rs, Mismatch) && Num(rs, IsIdentical) == Of(rs, Identical)
    ensures Num(rs, IsSent) == |rs|
  {
    NumAgree(rs, IsBoth, (r: Request) => !r.Calling? && r.class_ == BothErr);
    NumAgree(rs, IsErrA, (r: Request) => !r.Calling? && r.class_ == ErrA);
    NumAgree(rs, IsErrB, (r: Request) => !r.Calling? && r.class_ == ErrB);
    NumAgree(rs, IsMismatch, (r: Request) => !r.Calling? && r.class_ == Mismatch);
    NumAgree(rs, IsIdentical, (r: Request) => !r.Calling? && r.class_ == Identical);
    NumAll(rs, IsSent);
  }

  ghost predicate Exact(rs: seq<Request>, t: Tallies) {
    t.sent == |rs| && t.bothErr == Of(rs, BothErr) && t.errA == Of(rs, ErrA) && t.errB == Of(rs, ErrB) &&
    t.mismatch == Of(rs, Mismatch) && t.identical == Of(rs, Identical) &&
    t.byteDiff - t.mismatch == Of(rs, FloatMatch)
  }

  ghost predicate AddUp(t: Tallies) {
    t.sent == t.matched + t.mismatch + t.errA + t.errB + t.bothErr &&
    t.identical + t.byteDiff == t.matched + t.mismatch &&
    t.diffs == t.byteDiff && t.byteDiff >= t.mismatch
  }

  lemma TalliesOfOver(rs: seq<Request>, t: Tallies)
    requires Tallying(rs, t) && forall i :: 0 <= i < |rs| ==> rs[i].Over?
    ensures Exact(rs, t) && AddUp(t)
  {
    OverCounts(rs);
    EachHasOneClass(rs);
    MatchesAreTwoClasses(rs);
  }

  /** When main reads the tallies they are exact and add up: each is the number
      of requests of its classes, whatever the interleaving was. */
  lemma TalliesWhenRead(matches: (seq<Byte>, seq<Byte>) -> bool, acts: seq<Action>)
    requires Legal(matches, acts) && Exec(matches, acts).main == Reading
    ensures Exact(Exec(matches, acts).requests, Exec(matches, acts).t) && AddUp(Exec(matches, acts).t)
  {
    RunInv(matches, acts);
    var s := Exec(matches, acts);
    NoneInFlight(s);
    TalliesOfOver(s.requests, s.t);
  }

  /** Even before the drain no tally runs ahead of the one it is taken from. */
  lemma TalliesTrail(matches: (seq<Byte>, seq<Byte>) -> bool, acts: seq<Action>)
    requires Legal(matches, acts)
    ensures var t := Exec(matches, acts).t;
      t.mismatch <= t.byteDiff && t.diffs <= t.byteDiff && t.identical <= t.matched && t.matched <= t.sent
  {
    RunInv(matches, acts);
    var rs := Exec(matches, acts).requests;
    NumWithin(rs, IsMismatch, IsByteDiff);
    NumWithin(rs, IsSampled, IsByteDiff);
    NumWithin(rs, IsIdentical, IsMatch);
    NumWithin(rs, IsMatch, IsSent);
  }

  /** What main exits with. */
  function Passed(t: Tallies, allowErrors: bool): bool {
    t.mismatch == 0 && (t.errA + t.errB + t.bothErr == 0 || allowErrors)
  }

  predicate Failed(c: Class) { c.BothErr? || c.ErrA? || c.ErrB? }

  lemma NoneOf(rs: seq<Request>, c: Class)
    requires forall i :: 0 <= i < |rs| ==> rs[i].Over?
    ensures Of(rs, c) == 0 <==> forall i :: 0 <= i < |rs| ==> rs[i].class_ != c
  {
    if i :| 0 <= i < |rs| && rs[i].class_ == c {
      NumSome(rs, (r: Request) => !r.Calling? && r.class_ == c, i);
    } else {
      NumNone(rs, (r: Request) => !r.Calling? && r.class_ == c);
    }
  }

  /** Every request is over, none mismatched, and errors are absent or allowed. */
  ghost predicate AllFine(rs: seq<Request>, allowErrors: bool) {
    forall i :: 0 <= i < |rs| ==> rs[i].Over? && rs[i].class_ != Mismatch && (Failed(rs[i].class_) ==> allowErrors)
  }

  lemma PassedOver(rs: seq<Request>, t: Tallies, allowErrors: bool)
    requires Exact(rs, t) && forall i :: 0 <= i < |rs| ==> rs[i].Over?
    ensures Passed(t, allowErrors) <==> AllFine(rs, allowErrors)
  {
    NoneOf(rs, Mismatch);
    NoneOf(rs, BothErr);
    NoneOf(rs, ErrA);
    NoneOf(rs, ErrB);
  }

  /** The run passes exactly if no pair of replies mismatched and, unless they
      are allowed, none had an error. */
  lemma PassedMeans(matches: (seq<Byte>, seq<Byte>) -> bool, acts: seq<Action>, allowErrors: bool)
    requires Legal(matches, acts) && Exec(matches, acts).main == Reading
    ensures Passed(Exec(matches, acts).t, allowErrors) <==> AllFine(Exec(matches, acts).requests, allowErrors)
  {
    RunInv(matches, acts);
    var s := Exec(matches, acts);
    NoneInFlight(s);
    TalliesOfOver(s.requests, s.t);
    PassedOver(s.requests, s.t, allowErrors);
  }

  lemma SomethingMoves(s: State, r: Reply) returns (a: Action)
    requires Tokens(s) && s.main != Reading
    ensures Enabled(s, a)
  {
    if i :| 0 <= i < |s.requests| && Live(s.requests[i]) {
      NumSome(s.requests, Live, i);
      var q := s.requests[i];
      a := if q.Calling? then Answer(i, r) else if q.Tallied? then Release(i) else Add(i);
    } else {
      NumNone(s.requests, Live);
      match s.main
      case Looping => a := StopLooping;
      case Launching => a := Launch;
      case Draining(n) => a := if n < LIMIT then DrainOne else Read;
    }
  }

  /** Until main has read the tallies something can always move: a drain that
      waits, waits for a request that is in flight. */
  lemma NoDeadlock(matches: (seq<Byte>, seq<Byte>) -> bool, acts: seq<Action>, r: Reply) returns (a: Action)
    requires Legal(matches, acts) && Exec(matches, acts).main != Reading
    ensures Enabled(Exec(matches, acts), a)
  {
    RunInv(matches, acts);
    a := SomethingMoves(Exec(matches, acts), r);
  }

  // ----- the drain finishes

  /** Steps a request has made since it was launched. */
  function Steps(r: Request): nat {
    match r
    case Calling => 0
    case Sent(_) => 1
    case First(_) => 2
    case Second(_) => 3
    case Tallied(_) => 4
    case Over(_) => 5
  }

  function AllSteps(rs: seq<Request>): nat {
    if rs == [] then 0 else AllSteps(rs[..|rs| - 1]) + Steps(rs[|rs| - 1])
  }

  /** Steps main has made besides an acquire and a launch for each request. */
  function MainSteps(m: Main): nat {
    match m
    case Looping => 0
    case Launching => 1
    case Draining(n) => 1 + n
    case Reading => 2 + LIMIT
  }

  function Progress(s: State): nat {
    2 * |s.requests| + AllSteps(s.requests) + MainSteps(s.main)
  }

  lemma {:induction false} StepsUpdate(rs: seq<Request>, i: nat, r: Request)
    requires i < |rs|
    ensures AllSteps(rs[i := r]) + Steps(rs[i]) == AllSteps(rs) + Steps(r)
  {
    var n := |rs| - 1;
    if i < n {
      StepsUpdate(rs[..n], i, r);
      assert rs[i := r][..n] == rs[..n][i := r];
    } else {
      assert rs[i := r][..n] == rs[..n];
    }
  }

  lemma {:induction false} StepsBound(rs: seq<Request>)
    ensures AllSteps(rs) <= 5 * |rs|
  {
    if rs != [] { StepsBound(rs[..|rs| - 1]); }
  }

  /** Every step makes progress. */
  lemma StepProgresses(matches: (seq<Byte>, seq<Byte>) -> bool, s: State, a: Action)
    requires Enabled(s, a)
    ensures Progress(After(matches, s, a)) > Progress(s)
  {
    var u := After(matches, s, a);
    match a
    case Launch => assert u.requests[..|s.requests|] == s.requests;
    case Answer(i, _) => StepsUpdate(s.requests, i, u.requests[i]);
    case Add(i) => StepsUpdate(s.requests, i, u.requests[i]);
    case Release(i) => StepsUpdate(s.requests, i, u.requests[i]);
    case _ =>
  }

  lemma {:induction false} ProgressOfRun(matches: (seq<Byte>, seq<Byte>) -> bool, acts: seq<Action>)
    requires Legal(matches, acts)
    ensures |acts| <= Progress(Exec(matches, acts))
  {
    if acts != [] {
      var n := |acts| - 1;
      ProgressOfRun(matches, acts[..n]);
      StepProgresses(matches, Exec(matches, acts[..n]), acts[n]);
    }
  }

  /** A run with n requests makes at most seven steps for each and 34 more. With
      NoDeadlock: once main stops launching, the drain ends. */
  lemma RunIsShort(matches: (seq<Byte>, seq<Byte>) -> bool, acts: seq<Action>)
    requires Legal(matches, acts)
    ensures |acts| <= 7 * |Exec(matches, acts).requests| + LIMIT + 2
  {
    RunInv(matches, acts);
    ProgressOfRun(matches, acts);
    StepsBound(Exec(matches, acts).requests);
  }

  // ----- with the comparison of ParityCheck

  /** The comparison that the parity checker uses. */
  function FloatsAgree(tolerance: real): (seq<Byte>, seq<Byte>) -> bool {
    (a, b) => Judge(TopFloats(ParseFields(a)), TopFloats(ParseFields(b)), tolerance).matched
  }

  /** A pair without errors counts as a match exactly if its bytes are equal or
      its floats are as many (and some) and within tolerance. */
  lemma MatchMeans(tolerance: real, r: Reply)
    requires !r.failedA && !r.failedB
    ensures var a, b := TopFloats(ParseFields(r.respA)), TopFloats(ParseFields(r.respB));
      Classify(FloatsAgree(tolerance), r) != Mismatch <==>
        r.respA == r.respB || (|a| == |b| > 0 && Judge(a, b, tolerance).maxDiff <= tolerance)
  {
    VerdictMeaning(TopFloats(ParseFields(r.respA)), TopFloats(ParseFields(r.respB)), tolerance);
  }

  /** Swapping the targets swaps the one-sided errors and nothing else. */
  lemma ClassifySymmetric(tolerance: real, r: Reply)
    ensures var c := Classify(FloatsAgree(tolerance), r);
      Classify(FloatsAgree(tolerance), Reply(r.failedB, r.failedA, r.respB, r.respA)) ==
        if c == ErrA then ErrB else if c == ErrB then ErrA else c
  {
    VerdictSymmetric(TopFloats(ParseFields(r.respA)), TopFloats(ParseFields(r.respB)), tolerance);
  }
}
