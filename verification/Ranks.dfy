/** Order statistics: what the value at an index of a sorted sequence says of
    the sequence before sorting. */
module Ranks {
  import opened Counting
  import opened Sorting

  /** An index into n slots, the last one for all beyond. */
  function Clamp(i: nat, n: nat): (k: nat)
    requires n > 0
    ensures k < n && (i < n ==> k == i)
  {
    if i >= n then n - 1 else i
  }

  /** How many elements of s are at most x. */
  function AtMost(s: seq<int>, x: int): nat {
    Num(s, v => v <= x)
  }

  /** x can stand at index i of s sorted. */
  ghost predicate Ranked(s: seq<int>, x: int, i: nat) {
    x in s && AtMost(s, x - 1) <= i < AtMost(s, x)
  }

  lemma {:induction false} AtMostOfSorted(s: seq<int>, x: int, i: nat)
    requires Sorted(s) && i < |s|
    ensures s[i] <= x ==> AtMost(s, x) > i
    ensures s[i] > x ==> AtMost(s, x) <= i
  {
    var rest := s[..|s| - 1];
    if i < |rest| {
      AtMostOfSorted(rest, x, i);
    } else if s[i] <= x {
      NumAll(rest, v => v <= x);
    } else {
      NumAtMost(rest, v => v <= x);
    }
  }

  lemma RankOfSorted(s: seq<int>, r: seq<int>, i: nat)
    requires Sorted(r) && multiset(r) == multiset(s) && i < |r|
    ensures Ranked(s, r[i], i)
  {
    var x := r[i];
    AtMostOfSorted(r, x, i);
    AtMostOfSorted(r, x - 1, i);
    NumOfPermutation(r, s, v => v <= x);
    NumOfPermutation(r, s, v => v <= x - 1);
    SameElements(r, s, x);
  }

  /** Sorting really ranks. */
  lemma SortRanks(s: seq<int>, i: nat)
    requires i < |s|
    ensures Ranked(s, Sort(Id, s)[i], i)
  {
    SortedInts(s);
    RankOfSorted(s, Sort(Id, s), i);
  }

  lemma {:induction false} AtMostMonotone(s: seq<int>, x: int, y: int)
    requires x <= y
    ensures AtMost(s, x) <= AtMost(s, y)
  {
    if s != [] { AtMostMonotone(s[..|s| - 1], x, y); }
  }

  /** The rank determines the value. */
  lemma RankedIsUnique(s: seq<int>, x: int, y: int, i: nat)
    requires Ranked(s, x, i) && Ranked(s, y, i)
    ensures x == y
  {
    if x < y { AtMostMonotone(s, x, y - 1); }
    if y < x { AtMostMonotone(s, y, x - 1); }
  }

  lemma RanksAreOrdered(s: seq<int>, x: int, i: nat, y: int, j: nat)
    requires i <= j && Ranked(s, x, i) && Ranked(s, y, j)
    ensures x <= y
  {
    if y < x { AtMostMonotone(s, y, x - 1); }
  }
}
