/** The parity checker's tallies and exit verdict in terms of the replies its
    requests got, whatever the interleaving. */
module DrainAnswers {
  import opened Counting
  import opened DrainBarrier
  import opened ParityCheck
  import opened Wire

  // ----- the class of a pair of replies

  /** Each class has its condition on the replies. */
  lemma ClassMeans(matches: (seq<Byte>, seq<Byte>) -> bool, r: Reply)
    ensures Classify(matches, r) == BothErr <==> r.failedA && r.failedB
    ensures Classify(matches, r) == ErrA <==> r.failedA && !r.failedB
    ensures Classify(matches, r) == ErrB <==> !r.failedA && r.failedB
    ensures Classify(matches, r) == Identical <==> !r.failedA && !r.failedB && r.respA == r.respB
    ensures Classify(matches, r) == FloatMatch <==>
      !r.failedA && !r.failedB && r.respA != r.respB && matches(r.respA, r.respB)
    ensures Classify(matches, r) == Mismatch <==>
      !r.failedA && !r.failedB && r.respA != r.respB && !matches(r.respA, r.respB)
  {
  }

  // ----- requests and answers correspond

  predicate HasClass(r: Request, c: Class) { !r.Calling? && r.class_ == c }

  predicate AnswersAs(matches: (seq<Byte>, seq<Byte>) -> bool, a: Action, c: Class) {
    a.Answer? && Classify(matches, a.reply) == c
  }

  lemma StepAnswers(matches: (seq<Byte>, seq<Byte>) -> bool, s: State, a: Action, c: Class)
    requires Enabled(s, a)
    ensures Of(After(matches, s, a).requests, c) == Of(s.requests, c) + One(AnswersAs(matches, a, c))
  {
    var u, p := After(matches, s, a), (r: Request) => !r.Calling? && r.class_ == c;
    match a
    case Launch => NumSnoc(s.requests, Calling, p);
    case Answer(i, _) => NumUpdate(s.requests, i, u.requests[i], p);
    case Add(i) => NumUpdate(s.requests, i, u.requests[i], p);
    case Release(i) => NumUpdate(s.requests, i, u.requests[i], p);
    case _ =>
  }

  /** At every moment as many requests have a class as answers had it. */
  lemma {:induction false} AnswersOfClass(matches: (seq<Byte>, seq<Byte>) -> bool, acts: seq<Action>, c: Class)
    requires Legal(matches, acts)
    ensures Of(Exec(matches, acts).requests, c) == Num(acts, a => AnswersAs(matches, a, c))
  {
    if acts != [] {
      var n := |acts| - 1;
      AnswersOfClass(matches, acts[..n], c);
      StepAnswers(matches, Exec(matches, acts[..n]), acts[n], c);
    }
  }

  lemma {:induction false} AllLaunched(matches: (seq<Byte>, seq<Byte>) -> bool, acts: seq<Action>)
    requires Legal(matches, acts)
    ensures |Exec(matches, acts).requests| == Num(acts, (a: Action) => a.Launch?)
  {
    if acts != [] { AllLaunched(matches, acts[..|acts| - 1]); }
  }

  /** The answers that satisfy a condition are those of a class. */
  lemma AnswersWith(matches: (seq<Byte>, seq<Byte>) -> bool, acts: seq<Action>, c: Class, p: Action -> bool)
    requires Legal(matches, acts) && forall a :: p(a) == AnswersAs(matches, a, c)
    ensures Of(Exec(matches, acts).requests, c) == Num(acts, p)
  {
    AnswersOfClass(matches, acts, c);
    NumAgree(acts, a => AnswersAs(matches, a, c), p);
  }

  // ----- what main prints

  lemma ExactTallies(rs: seq<Request>, t: Tallies)
    requires Exact(rs, t) && AddUp(t)
    ensures t.sent == |rs| && t.bothErr == Of(rs, BothErr) && t.errA == Of(rs, ErrA) && t.errB == Of(rs, ErrB)
    ensures t.identical == Of(rs, Identical) && t.matched - t.identical == Of(rs, FloatMatch)
    ensures t.mismatch == Of(rs, Mismatch) && t.byteDiff == t.diffs == t.matched - t.identical + t.mismatch
  {
  }

  lemma ErrorAnswers(matches: (seq<Byte>, seq<Byte>) -> bool, acts: seq<Action>)
    requires Legal(matches, acts)
    ensures Of(Exec(matches, acts).requests, BothErr) ==
      Num(acts, (a: Action) => a.Answer? && a.reply.failedA && a.reply.failedB)
    ensures Of(Exec(matches, acts).requests, ErrA) ==
      Num(acts, (a: Action) => a.Answer? && a.reply.failedA && !a.reply.failedB)
    ensures Of(Exec(matches, acts).requests, ErrB) ==
      Num(acts, (a: Action) => a.Answer? && !a.reply.failedA && a.reply.failedB)
  {
    hide Legal, Exec, Of, Num;
    AnswersWith(matches, acts, BothErr, (a: Action) => a.Answer? && a.reply.failedA && a.reply.failedB);
    AnswersWith(matches, acts, ErrA, (a: Action) => a.Answer? && a.reply.failedA && !a.reply.failedB);
    AnswersWith(matches, acts, ErrB, (a: Action) => a.Answer? && !a.reply.failedA && a.reply.failedB);
  }

  lemma ComparedAnswers(matches: (seq<Byte>, seq<Byte>) -> bool, acts: seq<Action>)
    requires Legal(matches, acts)
    ensures Of(Exec(matches, acts).requests, Identical) == Num(acts, (a: Action) =>
      a.Answer? && !a.reply.failedA && !a.reply.failedB && a.reply.respA == a.reply.respB)
    ensures Of(Exec(matches, acts).requests, FloatMatch) == Num(acts, (a: Action) =>
      a.Answer? && !a.reply.failedA && !a.reply.failedB && a.reply.respA != a.reply.respB &&
      matches(a.reply.respA, a.reply.respB))
    ensures Of(Exec(matches, acts).requests, Mismatch) == Num(acts, (a: Action) =>
      a.Answer? && !a.reply.failedA && !a.reply.failedB && a.reply.respA != a.reply.respB &&
      !matches(a.reply.respA, a.reply.respB))
  {
    hide Legal, Exec, Of, Num;
    AnswersWith(matches, acts, Identical, (a: Action) =>
      a.Answer? && !a.reply.failedA && !a.reply.failedB && a.reply.respA == a.reply.respB);
    AnswersWith(matches, acts, FloatMatch, (a: Action) =>
      a.Answer? && !a.reply.failedA && !a.reply.failedB && a.reply.respA != a.reply.respB &&
      matches(a.reply.respA, a.reply.respB));
    AnswersWith(matches, acts, Mismatch, (a: Action) =>
      a.Answer? && !a.reply.failedA && !a.reply.failedB && a.reply.respA != a.reply.respB &&
      !matches(a.reply.respA, a.reply.respB));
  }

  /** Each printed tally is the number of answers whose replies it stands for. */
  lemma TalliesOfReplies(matches: (seq<Byte>, seq<Byte>) -> bool, acts: seq<Action>)
    requires Legal(matches, acts) && Exec(matches, acts).main == Reading
    ensures var t := Exec(matches, acts).t;
      t.sent == Num(acts, (a: Action) => a.Launch?) &&
      t.bothErr == Num(acts, (a: Action) => a.Answer? && a.reply.failedA && a.reply.failedB) &&
      t.errA == Num(acts, (a: Action) => a.Answer? && a.reply.failedA && !a.reply.failedB) &&
      t.errB == Num(acts, (a: Action) => a.Answer? && !a.reply.failedA && a.reply.failedB)
    ensures var t := Exec(matches, acts).t;
      t.identical == Num(acts, (a: Action) =>
        a.Answer? && !a.reply.failedA && !a.reply.failedB && a.reply.respA == a.reply.respB) &&
      t.matched - t.identical == Num(acts, (a: Action) =>
        a.Answer? && !a.reply.failedA && !a.reply.failedB && a.reply.respA != a.reply.respB &&
        matches(a.reply.respA, a.reply.respB)) &&
      t.mismatch == Num(acts, (a: Action) =>
        a.Answer? && !a.reply.failedA && !a.reply.failedB && a.reply.respA != a.reply.respB &&
        !matches(a.reply.respA, a.reply.respB)) &&
      t.byteDiff == t.diffs == t.matched - t.identical + t.mismatch
  {
    hide Legal, Exec, Exact, AddUp;
    TalliesWhenRead(matches, acts);
    ExactTallies(Exec(matches, acts).requests, Exec(matches, acts).t);
    AllLaunched(matches, acts);
    ErrorAnswers(matches, acts);
    ComparedAnswers(matches, acts);
  }

  // ----- how main exits

  /** No failure unless that is allowed, and without one equal or matching replies. */
  predicate FineReply(matches: (seq<Byte>, seq<Byte>) -> bool, r: Reply, allowErrors: bool) {
    if r.failedA || r.failedB then allowErrors else r.respA == r.respB || matches(r.respA, r.respB)
  }

  lemma {:induction false} NumZero<T>(s: seq<T>, p: T -> bool)
    ensures Num(s, p) == 0 <==> forall i :: 0 <= i < |s| ==> !p(s[i])
  {
    if s != [] { NumZero(s[..|s| - 1], p); }
  }

  lemma NoneOfClass(matches: (seq<Byte>, seq<Byte>) -> bool, acts: seq<Action>, c: Class)
    requires Legal(matches, acts)
    ensures Of(Exec(matches, acts).requests, c) == 0 <==>
      forall k :: 0 <= k < |acts| && acts[k].Answer? ==> Classify(matches, acts[k].reply) != c
  {
    hide Legal, Exec, Of, Classify;
    AnswersOfClass(matches, acts, c);
    NumZero(acts, a => AnswersAs(matches, a, c));
  }

  lemma FineIsNoClass(matches: (seq<Byte>, seq<Byte>) -> bool, r: Reply, allowErrors: bool)
    ensures FineReply(matches, r, allowErrors) <==>
      Classify(matches, r) != Mismatch && (Failed(Classify(matches, r)) ==> allowErrors)
  {
  }

  /** The run passes exactly if every answer is fine. */
  lemma PassedOfReplies(matches: (seq<Byte>, seq<Byte>) -> bool, acts: seq<Action>, allowErrors: bool)
    requires Legal(matches, acts) && Exec(matches, acts).main == Reading
    ensures Passed(Exec(matches, acts).t, allowErrors) <==>
      forall k :: 0 <= k < |acts| && acts[k].Answer? ==> FineReply(matches, acts[k].reply, allowErrors)
  {
    hide Legal, Exec, Exact, AddUp, Classify, FineReply;
    TalliesWhenRead(matches, acts);
    ExactTallies(Exec(matches, acts).requests, Exec(matches, acts).t);
    NoneOfClass(matches, acts, Mismatch);
    NoneOfClass(matches, acts, BothErr);
    NoneOfClass(matches, acts, ErrA);
    NoneOfClass(matches, acts, ErrB);
    forall k | 0 <= k < |acts| && acts[k].Answer?
      ensures FineReply(matches, acts[k].reply, allowErrors) <==>
        Classify(matches, acts[k].reply) != Mismatch && (Failed(Classify(matches, acts[k].reply)) ==> allowErrors)
    {
      FineIsNoClass(matches, acts[k].reply, allowErrors);
    }
  }

  /** As many floats on both sides, some, and each within the tolerance. */
  ghost predicate Close(respA: seq<Byte>, respB: seq<Byte>, tolerance: real) {
    var a, b := TopFloats(ParseFields(respA)), TopFloats(ParseFields(respB));
    |a| == |b| > 0 && forall i :: 0 <= i < |a| ==> -tolerance <= a[i] - b[i] <= tolerance
  }

  lemma AgreeIsClose(respA: seq<Byte>, respB: seq<Byte>, tolerance: real)
    ensures FloatsAgree(tolerance)(respA, respB) <==> Close(respA, respB, tolerance)
  {
    hide Judge, TopFloats, ParseFields;
    JudgeIsVerdict(TopFloats(ParseFields(respA)), TopFloats(ParseFields(respB)), tolerance);
  }

  /** With the checker's own comparison: the run passes exactly if errors are
      absent or allowed and all other pairs are equal bytes or close floats. */
  lemma ParityPasses(tolerance: real, acts: seq<Action>, allowErrors: bool)
    requires Legal(FloatsAgree(tolerance), acts) && Exec(FloatsAgree(tolerance), acts).main == Reading
    ensures Passed(Exec(FloatsAgree(tolerance), acts).t, allowErrors) <==>
      forall k :: 0 <= k < |acts| && acts[k].Answer? ==>
        var r := acts[k].reply;
        if r.failedA || r.failedB then allowErrors else r.respA == r.respB || Close(r.respA, r.respB, tolerance)
  {
    hide Legal, Exec, Close, Passed, FloatsAgree;
    PassedOfReplies(FloatsAgree(tolerance), acts, allowErrors);
    forall k | 0 <= k < |acts| && acts[k].Answer?
      ensures FloatsAgree(tolerance)(acts[k].reply.respA, acts[k].reply.respB) <==>
        Close(acts[k].reply.respA, acts[k].reply.respB, tolerance)
    {
      AgreeIsClose(acts[k].reply.respA, acts[k].reply.respB, tolerance);
    }
  }
}
