/** Sorting by an integer key: the contract of Go's sort.Slice, and why it
    determines its result when the key tells any two elements apart. */
module Sorting {

  ghost predicate SortedBy<T>(key: T -> int, s: seq<T>) {
    forall i, j :: 0 <= i < j < |s| ==> key(s[i]) <= key(s[j])
  }

  ghost predicate Injective<T(!new)>(key: T -> int) {
    forall x, y :: key(x) == key(y) ==> x == y
  }

  function Insert<T>(key: T -> int, x: T, s: seq<T>): (r: seq<T>)
    ensures |r| == |s| + 1
  {
    if s == [] then [x]
    else if key(x) <= key(s[0]) then [x] + s
    else [s[0]] + Insert(key, x, s[1..])
  }

  function Sort<T>(key: T -> int, s: seq<T>): (r: seq<T>)
    ensures |r| == |s|
  {
    if s == [] then [] else Insert(key, s[0], Sort(key, s[1..]))
  }

  lemma {:induction false} InsertBag<T>(key: T -> int, x: T, s: seq<T>)
    ensures multiset(Insert(key, x, s)) == multiset{x} + multiset(s)
  {
    if s != [] {
      assert s == [s[0]] + s[1..];
      InsertBag(key, x, s[1..]);
    }
  }

  /** Sorting rearranges. */
  lemma {:induction false} SortBag<T>(key: T -> int, s: seq<T>)
    ensures multiset(Sort(key, s)) == multiset(s)
  {
    if s != [] {
      assert s == [s[0]] + s[1..];
      SortBag(key, s[1..]);
      InsertBag(key, s[0], Sort(key, s[1..]));
    }
  }

  lemma {:induction false} InsertIsSorted<T>(key: T -> int, x: T, s: seq<T>)
    requires SortedBy(key, s)
    ensures SortedBy(key, Insert(key, x, s))
  {
    if s != [] && key(x) > key(s[0]) {
      var rest := Insert(key, x, s[1..]);
      InsertIsSorted(key, x, s[1..]);
      InsertBag(key, x, s[1..]);
      forall y | y in rest ensures key(s[0]) <= key(y) {
        assert y in multiset(rest);
        assert y == x || y in s[1..];
      }
    }
  }

  lemma {:induction false} SortIsSorted<T>(key: T -> int, s: seq<T>)
    ensures SortedBy(key, Sort(key, s))
  {
    if s != [] {
      SortIsSorted(key, s[1..]);
      InsertIsSorted(key, s[0], Sort(key, s[1..]));
    }
  }

  lemma SameElements<T>(a: seq<T>, b: seq<T>, x: T)
    requires multiset(a) == multiset(b)
    requires x in a
    ensures x in b
  {
    assert x in multiset(a);
  }

  lemma SortedTail<T>(key: T -> int, s: seq<T>)
    requires s != [] && SortedBy(key, s)
    ensures SortedBy(key, s[1..])
    ensures multiset(s[1..]) == multiset(s) - multiset{s[0]}
  {
    assert s == [s[0]] + s[1..];
  }

  lemma HeadsAgree<T(!new)>(key: T -> int, a: seq<T>, b: seq<T>)
    requires Injective(key) && SortedBy(key, a) && SortedBy(key, b)
    requires multiset(a) == multiset(b) && a != [] && b != []
    ensures a[0] == b[0]
  {
    SameElements(a, b, a[0]);
    SameElements(b, a, b[0]);
    assert key(a[0]) == key(b[0]);
  }

  lemma SameHeadAndTail<T>(a: seq<T>, b: seq<T>)
    requires a != [] && b != [] && a[0] == b[0] && a[1..] == b[1..]
    ensures a == b
  {
    assert a == [a[0]] + a[1..] && b == [b[0]] + b[1..];
  }

  lemma SameBagSameLength<T>(a: seq<T>, b: seq<T>)
    requires multiset(a) == multiset(b)
    ensures |a| == |b|
  {
    assert |a| == |multiset(a)| == |multiset(b)| == |b|;
  }

  /** A sorted arrangement is unique when the key is injective. */
  lemma {:induction false} SortedIsUnique<T(!new)>(key: T -> int, a: seq<T>, b: seq<T>)
    requires Injective(key) && SortedBy(key, a) && SortedBy(key, b)
    requires multiset(a) == multiset(b)
    ensures a == b
  {
    SameBagSameLength(a, b);
    if a != [] {
      HeadsAgree(key, a, b);
      SortedTail(key, a);
      SortedTail(key, b);
      SortedIsUnique(key, a[1..], b[1..]);
      SameHeadAndTail(a, b);
    }
  }

  /** Hence any sorted permutation of s is Sort(s). */
  lemma SortedPermutation<T(!new)>(key: T -> int, a: seq<T>, s: seq<T>)
    requires Injective(key)
    requires SortedBy(key, a)
    requires multiset(a) == multiset(s)
    ensures a == Sort(key, s)
  {
    SortIsSorted(key, s);
    SortBag(key, s);
    SortedIsUnique(key, a, Sort(key, s));
  }

  lemma SortedPrefix<T>(key: T -> int, s: seq<T>, x: T)
    requires SortedBy(key, s)
    requires s != [] ==> key(s[|s| - 1]) <= key(x)
    ensures SortedBy(key, s + [x])
  {
  }

  /** How often t occurs in s. */
  ghost function Count(s: seq<int>, t: int): nat { multiset(s)[t] }

  lemma CountConcat(a: seq<int>, b: seq<int>, t: int)
    ensures Count(a + b, t) == Count(a, t) + Count(b, t)
  {
  }

  lemma CountSnoc(a: seq<int>, x: int, t: int)
    ensures Count(a + [x], t) == Count(a, t) + if x == t then 1 else 0
  {
  }

  lemma CountCons(s: seq<int>, t: int)
    requires s != []
    ensures Count(s, t) == Count(s[1..], t) + if s[0] == t then 1 else 0
  {
    assert s == [s[0]] + s[1..];
  }

  /** The key for plain integers. */
  function Id(x: int): int { x }

  ghost predicate Sorted(s: seq<int>) {
    forall i, j :: 0 <= i < j < |s| ==> s[i] <= s[j]
  }

  lemma SortedInts(s: seq<int>)
    ensures Sorted(Sort(Id, s)) && multiset(Sort(Id, s)) == multiset(s)
  {
    SortIsSorted(Id, s);
    SortBag(Id, s);
    var r := Sort(Id, s);
    forall i, j | 0 <= i < j < |r| ensures r[i] <= r[j] {
      assert Id(r[i]) <= Id(r[j]);
    }
  }

  lemma SortedIntsUnique(a: seq<int>, s: seq<int>)
    requires Sorted(a)
    requires multiset(a) == multiset(s)
    ensures a == Sort(Id, s)
  {
    SortedPermutation(Id, a, s);
  }
}
