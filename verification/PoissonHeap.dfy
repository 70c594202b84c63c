/** The scheduler's heap of Poisson streams: Go's container/heap algorithms over
    the poissonStream slice, driven by its Less, Swap, Push and Pop. */
module PoissonHeap {

  /** One replica's stream: which replica it is, how many of its arrivals have
      been emitted, and the time of the next one. */
  datatype Stream = Stream(id: nat, emitted: nat, next: int)

  ghost function Parent(j: int): int { (j - 1) / 2 }

  /** The heap order at every parent from index lo on. */
  ghost predicate HeapFrom(s: seq<Stream>, lo: int) {
    forall j :: 1 <= j < |s| && lo <= Parent(j) ==> s[Parent(j)].next <= s[j].next
  }

  ghost predicate IsHeap(s: seq<Stream>) { HeapFrom(s, 0) }

  /** Order everywhere from lo on except between i and its children, with
      i's children still above i's parent: the state of a sift-down. */
  ghost predicate HoleBelow(s: seq<Stream>, lo: int, i: int) {
    && (forall j :: 1 <= j < |s| && lo <= Parent(j) && Parent(j) != i ==>
          s[Parent(j)].next <= s[j].next)
    && (forall j :: 1 <= j < |s| && Parent(j) == i && 1 <= i && lo <= Parent(i) ==>
          s[Parent(i)].next <= s[j].next)
  }

  /** Order everywhere except between i and its parent: the state of a sift-up. */
  ghost predicate HoleAbove(s: seq<Stream>, i: int) {
    && (forall j :: 1 <= j < |s| && j != i ==> s[Parent(j)].next <= s[j].next)
    && (forall j :: 1 <= j < |s| && Parent(j) == i && 1 <= i ==> s[Parent(i)].next <= s[j].next)
  }

  function Swapped(s: seq<Stream>, i: nat, j: nat): (r: seq<Stream>)
    requires i < |s| && j < |s|
    ensures |r| == |s| && multiset(r) == multiset(s)
  {
    s[i := s[j]][j := s[i]]
  }

  /** All but the last once the root has been swapped to the end. */
  function Front(s: seq<Stream>): (r: seq<Stream>)
    requires |s| > 0
  {
    Swapped(s, 0, |s| - 1)[..|s| - 1]
  }

  /** The minimum of a heap is at its root. */
  lemma {:induction false} RootIsMinimum(s: seq<Stream>, k: nat)
    requires IsHeap(s) && k < |s|
    ensures s[0].next <= s[k].next
  {
    if k > 0 {
      assert 0 <= Parent(k) < k;
      RootIsMinimum(s, Parent(k));
    }
  }

  lemma SliceOfSlice(a: array<Stream>, n: nat, m: nat)
    requires n < m <= a.Length
    ensures a[..n] == a[..m][..n] && a[n] == a[..m][n]
  {
  }

  lemma HeapWithNewRoot(s: seq<Stream>)
    requires IsHeap(s) && |s| > 0
    ensures HoleBelow(Swapped(s, 0, |s| - 1)[..|s| - 1], 0, 0)
  {
    var r := Swapped(s, 0, |s| - 1)[..|s| - 1];
    forall j | 1 <= j < |r| && 0 <= Parent(j) && Parent(j) != 0 ensures r[Parent(j)].next <= r[j].next {
      assert 0 < Parent(j) < j;
    }
  }

  /** Swapping the root to the end leaves a heap but for its root in front. */
  lemma PoppedFront(s: seq<Stream>)
    requires IsHeap(s) && |s| > 0
    ensures HoleBelow(Front(s), 0, 0)
    ensures multiset(Front(s)) == multiset(s) - multiset{s[0]}
    ensures forall x :: x in s ==> s[0].next <= x.next
  {
    HeapWithNewRoot(s);
    var w := Swapped(s, 0, |s| - 1);
    assert w == w[..|s| - 1] + [s[0]];
    forall k | 0 <= k < |s| ensures s[0].next <= s[k].next { RootIsMinimum(s, k); }
  }

  lemma HoleAtLeaf(s: seq<Stream>, lo: nat, i: nat)
    requires HoleBelow(s, lo, i) && 2 * i + 1 >= |s|
    ensures HeapFrom(s, lo)
  {
    forall j | 1 <= j < |s| && lo <= Parent(j) ensures s[Parent(j)].next <= s[j].next {
      assert Parent(j) != i;
    }
  }

  lemma HoleFilled(s: seq<Stream>, lo: nat, i: nat, c: nat)
    requires HoleBelow(s, lo, i) && i < c < |s|
    requires s[i].next <= s[c].next
    requires c == 2 * i + 1 || c == 2 * i + 2
    requires 2 * i + 1 < |s| ==> s[c].next <= s[2 * i + 1].next
    requires 2 * i + 2 < |s| ==> s[c].next <= s[2 * i + 2].next
    ensures HeapFrom(s, lo)
  {
    forall j | 1 <= j < |s| && lo <= Parent(j) ensures s[Parent(j)].next <= s[j].next {
      if Parent(j) == i { assert j == 2 * i + 1 || j == 2 * i + 2; }
    }
  }

  lemma SiftDownStep(s: seq<Stream>, lo: nat, i: nat, c: nat)
    requires HoleBelow(s, lo, i) && lo <= i < c < |s|
    requires i == lo || lo <= Parent(i)
    requires c == 2 * i + 1 || c == 2 * i + 2
    requires s[c].next <= s[2 * i + 1].next
    requires 2 * i + 2 < |s| ==> s[c].next <= s[2 * i + 2].next
    requires s[c].next < s[i].next
    ensures HoleBelow(Swapped(s, i, c), lo, c)
    ensures Parent(c) == i
  {
    var r := Swapped(s, i, c);
    forall j | 1 <= j < |s| && lo <= Parent(j) && Parent(j) != c ensures r[Parent(j)].next <= r[j].next {
      if Parent(j) == i {
        assert j == 2 * i + 1 || j == 2 * i + 2;
      } else if j == i {
        assert Parent(c) == i;
      }
    }
    forall j | 1 <= j < |s| && Parent(j) == c ensures r[Parent(c)].next <= r[j].next {
      assert j != i && j != c;
      assert s[Parent(j)].next <= s[j].next;
    }
  }

  lemma SiftUpStep(s: seq<Stream>, j: nat)
    requires HoleAbove(s, j) && 1 <= j < |s|
    requires s[j].next < s[Parent(j)].next
    ensures HoleAbove(Swapped(s, Parent(j), j), Parent(j))
  {
    var i := Parent(j);
    assert 0 <= i < j;
    var r := Swapped(s, i, j);
    forall k | 1 <= k < |s| && k != i ensures r[Parent(k)].next <= r[k].next {
      if Parent(k) == j {
        assert k != i && k != j;
      } else if Parent(k) == i && k != j {
        assert k != i;
        assert s[i].next <= s[k].next;
      }
    }
    forall k | 1 <= k < |s| && Parent(k) == i && 1 <= i ensures r[Parent(i)].next <= r[k].next {
      assert s[Parent(i)].next <= s[i].next;
      assert Parent(i) < i;
    }
  }

  lemma HeapPlusLast(s: seq<Stream>, x: Stream)
    requires IsHeap(s)
    ensures HoleAbove(s + [x], |s|)
  {
    var r := s + [x];
    forall j | 1 <= j < |r| && j != |s| ensures r[Parent(j)].next <= r[j].next {
      assert 0 <= Parent(j) < j;
    }
  }

  lemma SwappedEnds(s: seq<Stream>)
    requires |s| > 0
    ensures Swapped(s, 0, |s| - 1)[|s| - 1] == s[0]
  {
  }

  class StreamHeap {
    var data: array<Stream>
    var len: nat

    ghost predicate Valid()
      reads this
    {
      len <= data.Length
    }

    /** The slice's elements, in heap layout. */
    ghost function Items(): (s: seq<Stream>)
      reads this, data
      requires Valid()
      ensures |s| == len
    {
      data[..len]
    }

    constructor (streams: array<Stream>)
      ensures Valid() && data == streams && len == streams.Length
    {
      data := streams;
      len := streams.Length;
    }

    method Less(i: nat, j: nat) returns (b: bool)
      requires Valid() && i < len && j < len
      ensures b <==> data[i].next < data[j].next
    {
      b := data[i].next < data[j].next;
    }

    /** Stated of any prefix the two indices lie in; the rest stays as it was. */
    method Swap(i: nat, j: nat, ghost n: nat)
      requires Valid() && i < n && j < n && n <= len
      modifies data
      ensures data[..n] == Swapped(old(data[..n]), i, j)
      ensures data[n..] == old(data[n..])
    {
      data[i], data[j] := data[j], data[i];
    }

    /** container/heap's down, over the first n elements. */
    method Down(i0: nat, n: nat)
      requires Valid() && i0 <= n <= len
      requires HoleBelow(data[..n], i0, i0)
      modifies data
      ensures HeapFrom(data[..n], i0)
      ensures multiset(data[..n]) == multiset(old(data[..n]))
      ensures data[n..] == old(data[n..])
    {
      hide HoleBelow, HeapFrom, Swapped;
      var i := i0;
      while true
        invariant i0 <= i <= n
        invariant i == i0 || i0 <= Parent(i)
        invariant HoleBelow(data[..n], i0, i)
        invariant multiset(data[..n]) == multiset(old(data[..n]))
        invariant data[n..] == old(data[n..])
        decreases n - i
      {
        var j1 := 2 * i + 1;
        if j1 >= n {
          HoleAtLeaf(data[..n], i0, i);
          return;
        }
        var j := j1;
        var j2 := j1 + 1;
        if j2 < n {
          var rightSmaller := Less(j2, j1);
          if rightSmaller { j := j2; }
        }
        var smaller := Less(j, i);
        if !smaller {
          HoleFilled(data[..n], i0, i, j);
          return;
        }
        SiftDownStep(data[..n], i0, i, j);
        Swap(i, j, n);
        i := j;
      }
    }

    /** container/heap's up. */
    method Up(j0: nat)
      requires Valid() && j0 < len
      requires HoleAbove(data[..len], j0)
      modifies data
      ensures IsHeap(Items())
      ensures multiset(Items()) == multiset(old(Items()))
      ensures data[len..] == old(data[len..])
    {
      var j := j0;
      while true
        invariant 0 <= j < len
        invariant HoleAbove(data[..len], j)
        invariant multiset(data[..len]) == multiset(old(data[..len]))
        invariant data[len..] == old(data[len..])
        decreases j
      {
        // Go's (j-1)/2 truncates toward zero, so the root is its own parent.
        var i := if j == 0 then 0 else (j - 1) / 2;
        if i == j { return; }
        var smaller := Less(j, i);
        if !smaller { return; }
        SiftUpStep(data[..len], j);
        Swap(i, j, len);
        j := i;
      }
    }

    /** heap.Init. */
    method Init()
      requires Valid()
      modifies data
      ensures IsHeap(Items())
      ensures multiset(Items()) == multiset(old(Items()))
    {
      var i := len / 2 - 1;
      while i >= 0
        invariant -1 <= i < len
        invariant HeapFrom(data[..len], i + 1)
        invariant multiset(data[..len]) == multiset(old(data[..len]))
        decreases i
      {
        Down(i, len);
        i := i - 1;
      }
    }

    /** The slice's own Push: append, growing the backing array when it is full. */
    method Append(x: Stream)
      requires Valid()
      modifies this, data
      ensures Valid() && (data == old(data) || fresh(data))
      ensures old(len) < old(data).Length ==> data == old(data)
      ensures Items() == old(Items()) + [x]
    {
      ghost var before := Items();
      if len == data.Length {
        var grown := new Stream[2 * len + 1](_ => x);
        for k := 0 to len
          invariant unchanged(this) && unchanged(data)
          invariant grown[..k] == before[..k]
        {
          grown[k] := data[k];
        }
        data := grown;
      }
      data[len] := x;
      len := len + 1;
    }

    /** The slice's own Pop: drop and return the last element. */
    method RemoveLast() returns (x: Stream)
      requires Valid() && len > 0
      modifies this`len
      ensures Valid() && len == old(len) - 1
      ensures old(Items()) == Items() + [x]
    {
      x := data[len - 1];
      len := len - 1;
    }

    /** heap.Push. */
    method Push(x: Stream)
      requires Valid() && IsHeap(Items())
      modifies this, data
      ensures Valid() && IsHeap(Items())
      ensures data == old(data) || fresh(data)
      ensures old(len) < old(data).Length ==> data == old(data)
      ensures multiset(Items()) == multiset(old(Items())) + multiset{x}
    {
      HeapPlusLast(Items(), x);
      Append(x);
      Up(len - 1);
    }

    /** heap.Pop's swap of the root with the last element. */
    method RootToEnd()
      requires Valid() && len > 0
      modifies data
      ensures data[..len - 1] == Front(old(Items()))
      ensures data[len - 1] == old(Items())[0]
    {
      hide Swapped;
      SwappedEnds(Items());
      Swap(0, len - 1, len);
      SliceOfSlice(data, len - 1, len);
    }

    /** The root goes to the end and its replacement sinks to its place. */
    method SinkRoot()
      requires Valid() && IsHeap(Items()) && len > 0
      modifies data
      ensures IsHeap(data[..len - 1])
      ensures multiset(data[..len - 1]) == multiset(old(Items())) - multiset{old(Items())[0]}
      ensures data[len - 1] == old(Items())[0]
    {
      var n := len - 1;
      ghost var before := Items();
      PoppedFront(before);
      RootToEnd();
      ghost var front := data[..n];
      Down(0, n);
      assert multiset(data[..n]) == multiset(front);
      assert data[n] == data[n..][0];
    }

    /** heap.Pop: the root leaves, the rest is a heap again. */
    method Pop() returns (x: Stream)
      requires Valid() && IsHeap(Items()) && len > 0
      modifies this`len, data
      ensures Valid() && IsHeap(Items()) && len == old(len) - 1
      ensures x == old(Items())[0]
      ensures multiset(Items()) == multiset(old(Items())) - multiset{x}
      ensures forall s :: s in old(Items()) ==> x.next <= s.next
    {
      hide IsHeap, HoleBelow, Front;
      PoppedFront(Items());
      SinkRoot();
      x := RemoveLast();
    }
  }
}
