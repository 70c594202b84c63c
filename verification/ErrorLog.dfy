/** The bounded map of error texts that the workers fill under the mutex. */
module ErrorLog {
  import opened Counting

  const MAX_DISTINCT: nat := 1024
  const MAX_TEXT: nat := 120

  /** The text an error is filed under. */
  function Shortened(text: string): (s: string)
    ensures s <= text && |s| == if |text| < 120 then |text| else 120
    ensures s == "" <==> text == ""
  {
    if |text| > MAX_TEXT then text[..MAX_TEXT] else text
  }

  datatype Errors = Errors(counts: map<string, nat>, other: nat)

  const NONE := Errors(map[], 0)

  function Filed(e: Errors, text: string): Errors {
    if text in e.counts then e.(counts := e.counts[text := e.counts[text] + 1])
    else if |e.counts| < MAX_DISTINCT then e.(counts := e.counts[text := 1])
    else e.(other := e.other + 1)
  }

  function FiledAll(log: seq<string>): Errors {
    if log == [] then NONE else Filed(FiledAll(log[..|log| - 1]), log[|log| - 1])
  }

  function Occurrences(log: seq<string>, text: string): nat {
    Num(log, t => t == text)
  }

  ghost function Total(counts: map<string, nat>): nat {
    if counts == map[] then 0 else
      var k :| k in counts;
      counts[k] + Total(counts - {k})
  }

  lemma {:induction false} TotalWithout(counts: map<string, nat>, k: string)
    requires k in counts
    ensures Total(counts) == counts[k] + Total(counts - {k})
    decreases |counts|
  {
    var j :| j in counts && Total(counts) == counts[j] + Total(counts - {j});
    if j != k {
      var rest := counts - {j};
      TotalWithout(rest, k);
      TotalWithout(counts - {k}, j);
      assert rest - {k} == (counts - {k}) - {j};
    }
  }

  lemma TotalUpdate(counts: map<string, nat>, k: string, n: nat)
    ensures Total(counts[k := n]) == n + Total(counts - {k})
  {
    TotalWithout(counts[k := n], k);
    assert counts[k := n] - {k} == counts - {k};
  }

  lemma FiledTotal(e: Errors, text: string)
    ensures Total(Filed(e, text).counts) + Filed(e, text).other == Total(e.counts) + e.other + 1
  {
    if text in e.counts {
      TotalWithout(e.counts, text);
      TotalUpdate(e.counts, text, e.counts[text] + 1);
    } else if |e.counts| < MAX_DISTINCT {
      TotalUpdate(e.counts, text, 1);
      assert e.counts - {text} == e.counts;
    }
  }

  /** Every error is filed once. */
  lemma {:induction false} AllFiled(log: seq<string>)
    ensures Total(FiledAll(log).counts) + FiledAll(log).other == |log|
  {
    if log != [] {
      AllFiled(log[..|log| - 1]);
      FiledTotal(FiledAll(log[..|log| - 1]), log[|log| - 1]);
    }
  }

  /** The map never has more than MAX_DISTINCT texts, and spills only when it has that many. */
  lemma {:induction false} BoundedTexts(log: seq<string>)
    ensures |FiledAll(log).counts| <= MAX_DISTINCT
    ensures FiledAll(log).other > 0 ==> |FiledAll(log).counts| == MAX_DISTINCT
  {
    if log != [] { BoundedTexts(log[..|log| - 1]); }
  }

  /** The count of a text in the map is exact: all its occurrences, not only
      those since some point; and a text outside the map has them all in other. */
  lemma {:induction false} ExactCounts(log: seq<string>, text: string)
    ensures text in FiledAll(log).counts ==> FiledAll(log).counts[text] == Occurrences(log, text) > 0
    ensures text !in FiledAll(log).counts && Occurrences(log, text) > 0 ==> |FiledAll(log).counts| == MAX_DISTINCT
  {
    if log != [] {
      ExactCounts(log[..|log| - 1], text);
      BoundedTexts(log[..|log| - 1]);
    }
  }

  function Outside(log: seq<string>, texts: set<string>): nat {
    Num(log, t => t !in texts)
  }

  lemma OneMoreText(log: seq<string>, texts: set<string>, text: string)
    requires Occurrences(log, text) == 0
    ensures Outside(log, texts + {text}) == Outside(log, texts)
  {
    forall i | 0 <= i < |log| ensures log[i] != text {
      if log[i] == text { NumSome(log, t => t == text, i); }
    }
    NumAgree(log, t => t !in texts + {text}, t => t !in texts);
  }

  /** The spilled errors are exactly those whose text is not in the map. */
  lemma {:induction false} SpilledAreOutside(log: seq<string>)
    ensures FiledAll(log).other == Outside(log, FiledAll(log).counts.Keys)
  {
    if log != [] {
      var init, text := log[..|log| - 1], log[|log| - 1];
      var e := FiledAll(init);
      SpilledAreOutside(init);
      if text !in e.counts && |e.counts| < MAX_DISTINCT {
        ExactCounts(init, text);
        OneMoreText(init, e.counts.Keys, text);
        assert FiledAll(log).counts.Keys == e.counts.Keys + {text};
      } else {
        assert FiledAll(log).counts.Keys == e.counts.Keys;
      }
    }
  }

  /** errorCounts and otherErrors; the log is what was filed, in lock order. */
  class ErrorTally {
    var errorCounts: map<string, nat>
    var otherErrors: nat
    ghost var log: seq<string>

    ghost predicate Valid()
      reads this
    {
      Errors(errorCounts, otherErrors) == FiledAll(log)
    }

    constructor ()
      ensures Valid() && log == []
    {
      errorCounts, otherErrors, log := map[], 0, [];
    }

    method File(errSummary: string)
      requires Valid()
      modifies this
      ensures Valid() && log == old(log) + [errSummary]
    {
      if errSummary in errorCounts {
        errorCounts := errorCounts[errSummary := errorCounts[errSummary] + 1];
      } else if |errorCounts| < MAX_DISTINCT {
        errorCounts := errorCounts[errSummary := 1];
      } else {
        otherErrors := otherErrors + 1;
      }
      log := log + [errSummary];
      assert log[..|log| - 1] == old(log);
    }
  }
}
