/** How many elements of a sequence have some property, and their sum. */
module Counting {
  import opened Sorting

  function One(b: bool): nat { if b then 1 else 0 }

  function Num<T>(s: seq<T>, p: T -> bool): nat {
    if s == [] then 0 else Num(s[..|s| - 1], p) + One(p(s[|s| - 1]))
  }

  /** The places where p holds. */
  ghost function Where<T>(s: seq<T>, p: T -> bool): set<nat> {
    set i: nat | i < |s| && p(s[i])
  }

  /** Num is their number. */
  lemma {:induction false} NumIsSize<T>(s: seq<T>, p: T -> bool)
    ensures Num(s, p) == |Where(s, p)|
  {
    if s != [] {
      var n := |s| - 1;
      NumIsSize(s[..n], p);
      if p(s[n]) {
        assert Where(s, p) == Where(s[..n], p) + {n};
      } else {
        assert Where(s, p) == Where(s[..n], p);
      }
    }
  }

  function Sum(s: seq<int>): int {
    if s == [] then 0 else Sum(s[..|s| - 1]) + s[|s| - 1]
  }

  /** Changing one element changes the count by that element's share. */
  lemma {:induction false} NumUpdate<T>(s: seq<T>, i: nat, t: T, p: T -> bool)
    requires i < |s|
    ensures Num(s[i := t], p) + One(p(s[i])) == Num(s, p) + One(p(t))
  {
    var n := |s| - 1;
    if i < n {
      NumUpdate(s[..n], i, t, p);
      assert s[i := t][..n] == s[..n][i := t];
    } else {
      assert s[i := t][..n] == s[..n];
    }
  }

  lemma {:induction false} NumNone<T>(s: seq<T>, p: T -> bool)
    requires forall i :: 0 <= i < |s| ==> !p(s[i])
    ensures Num(s, p) == 0
  {
    if s != [] { NumNone(s[..|s| - 1], p); }
  }

  lemma {:induction false} NumSome<T>(s: seq<T>, p: T -> bool, i: nat)
    requires i < |s| && p(s[i])
    ensures Num(s, p) > 0
  {
    if i < |s| - 1 { NumSome(s[..|s| - 1], p, i); }
  }

  lemma {:induction false} NumAgree<T>(s: seq<T>, p: T -> bool, q: T -> bool)
    requires forall i :: 0 <= i < |s| ==> p(s[i]) == q(s[i])
    ensures Num(s, p) == Num(s, q)
  {
    if s != [] { NumAgree(s[..|s| - 1], p, q); }
  }

  /** Two sequences whose places correspond. */
  lemma {:induction false} NumMatch<T, U>(s: seq<T>, u: seq<U>, p: T -> bool, q: U -> bool)
    requires |s| == |u| && forall i :: 0 <= i < |s| ==> p(s[i]) == q(u[i])
    ensures Num(s, p) == Num(u, q)
  {
    if s != [] { NumMatch(s[..|s| - 1], u[..|u| - 1], p, q); }
  }

  lemma {:induction false} NumAll<T>(s: seq<T>, p: T -> bool)
    requires forall i :: 0 <= i < |s| ==> p(s[i])
    ensures Num(s, p) == |s|
  {
    if s != [] { NumAll(s[..|s| - 1], p); }
  }

  lemma {:induction false} NumWithin<T>(s: seq<T>, p: T -> bool, q: T -> bool)
    requires forall i :: 0 <= i < |s| && p(s[i]) ==> q(s[i])
    ensures Num(s, p) <= Num(s, q)
  {
    if s != [] { NumWithin(s[..|s| - 1], p, q); }
  }

  lemma {:induction false} NumAtMost<T>(s: seq<T>, p: T -> bool)
    ensures Num(s, p) <= |s|
  {
    if s != [] { NumAtMost(s[..|s| - 1], p); }
  }

  lemma NumSnoc<T>(s: seq<T>, t: T, p: T -> bool)
    ensures Num(s + [t], p) == Num(s, p) + One(p(t))
  {
    assert (s + [t])[..|s|] == s;
  }

  lemma {:induction false} NumConcat<T>(a: seq<T>, b: seq<T>, p: T -> bool)
    ensures Num(a + b, p) == Num(a, p) + Num(b, p)
  {
    if b == [] {
      assert a + b == a;
    } else {
      var n := |b| - 1;
      NumConcat(a, b[..n], p);
      assert a + b == (a + b[..n]) + [b[n]];
      NumSnoc(a + b[..n], b[n], p);
    }
  }

  /** The first n pieces in a row. */
  function Concat<T>(piece: nat -> seq<T>, n: nat): seq<T> {
    if n == 0 then [] else Concat(piece, n - 1) + piece(n - 1)
  }

  /** What the first n counts come to. */
  function TotalCount(count: nat -> nat, n: nat): nat {
    if n == 0 then 0 else TotalCount(count, n - 1) + count(n - 1)
  }

  lemma {:induction false} NumOfPieces<T>(piece: nat -> seq<T>, count: nat -> nat, n: nat, p: T -> bool)
    requires forall i: nat :: i < n ==> Num(piece(i), p) == count(i)
    ensures Num(Concat(piece, n), p) == TotalCount(count, n)
  {
    if n > 0 {
      NumOfPieces(piece, count, n - 1, p);
      NumConcat(Concat(piece, n - 1), piece(n - 1), p);
    }
  }

  lemma PullOut<T>(s: seq<T>, x: T) returns (l: seq<T>, r: seq<T>)
    requires x in s
    ensures s == l + [x] + r
    ensures multiset(l + r) == multiset(s) - multiset{x}
  {
    var i :| 0 <= i < |s| && s[i] == x;
    l, r := s[..i], s[i + 1..];
    assert s == l + [x] + r;
    assert multiset(s) == multiset(l + r) + multiset{x};
  }

  lemma DropLast<T>(s: seq<T>) returns (init: seq<T>)
    requires s != []
    ensures init == s[..|s| - 1]
    ensures multiset(init) == multiset(s) - multiset{s[|s| - 1]}
  {
    init := s[..|s| - 1];
    assert s == init + [s[|s| - 1]];
  }

  lemma {:induction false} NumMiddle<T>(a: seq<T>, b: seq<T>, c: T, p: T -> bool)
    ensures Num(a + [c] + b, p) == Num(a + b, p) + One(p(c))
  {
    if b == [] {
      assert a + [c] + b == a + [c] && a + b == a;
      NumSnoc(a, c, p);
    } else {
      var t, x := b[..|b| - 1], b[|b| - 1];
      NumMiddle(a, t, c, p);
      assert a + [c] + b == (a + [c] + t) + [x];
      assert a + b == (a + t) + [x];
      NumSnoc(a + [c] + t, x, p);
      NumSnoc(a + t, x, p);
    }
  }

  /** Rearranging does not change how many there are. */
  lemma {:induction false} NumOfPermutation<T>(a: seq<T>, b: seq<T>, p: T -> bool)
    requires multiset(a) == multiset(b)
    ensures Num(a, p) == Num(b, p)
  {
    SameBagSameLength(a, b);
    if a != [] {
      var last := a[|a| - 1];
      SameElements(a, b, last);
      var init := DropLast(a);
      var l, r := PullOut(b, last);
      NumOfPermutation(init, l + r, p);
      NumMiddle(l, r, last, p);
    }
  }
}
