/** Algorithm R as the two samplers run it, on stream positions, and how many of
    its draw vectors lead where. */
module Reservoir {
  import opened Arithmetic

  /** The stream positions in a k-slot reservoir after n items. Item t < k fills
      a slot; a later item t is sent to slot draws[t - k] if there is one. */
  function Kept(k: nat, n: nat, draws: seq<nat>): (s: seq<nat>)
    ensures |s| == if n <= k then n else k
  {
    if n == 0 then []
    else if n <= k then Kept(k, n - 1, draws) + [n - 1]
    else
      var s := Kept(k, n - 1, draws);
      var j := if n - 1 - k < |draws| then draws[n - 1 - k] else n;
      if j < k then s[j := n - 1] else s
  }

  /** The numbers below n. */
  function Below(n: nat): (r: set<nat>)
    ensures forall j: nat :: j in r <==> j < n
    ensures |r| == n
  {
    if n == 0 then {} else Below(n - 1) + {n - 1}
  }

  /** A vector continued by each of some draws. */
  function Continue(v: seq<nat>, js: set<nat>): set<seq<nat>> {
    set j | j in js :: v + [j]
  }

  /** All draw vectors for n items: the draw for item t is below t + 1. */
  function Vectors(k: nat, n: nat): set<seq<nat>> {
    if n <= k then {[]} else set v, j | v in Vectors(k, n - 1) && j in Below(n) :: v + [j]
  }

  ghost function Elements(s: seq<nat>): set<nat> { set x | x in s }

  // ----- counting

  function Front(u: seq<nat>): seq<nat>
    requires u != []
  {
    u[..|u| - 1]
  }

  lemma FrontOf(v: seq<nat>, j: nat)
    ensures Front(v + [j]) == v && (v + [j])[|v + [j]| - 1] == j
  {
  }

  lemma SplitLast(u: seq<nat>)
    requires u != []
    ensures u == Front(u) + [u[|u| - 1]]
  {
  }

  lemma {:induction false} ContinueSize(v: seq<nat>, js: set<nat>)
    ensures |Continue(v, js)| == |js|
  {
    if js != {} {
      var i :| i in js;
      var rest := js - {i};
      ContinueSize(v, rest);
      forall u | u in Continue(v, rest) ensures u != v + [i] {
        var j :| j in rest && u == v + [j];
        FrontOf(v, j);
        FrontOf(v, i);
      }
      assert Continue(v, js) == Continue(v, rest) + {v + [i]};
    }
  }

  /** The vectors of us that continue v. */
  ghost function Group(us: set<seq<nat>>, v: seq<nat>): set<seq<nat>> {
    set u | u in us && u != [] && Front(u) == v
  }

  /** If every u continues some v, and each v is continued c times, there are
      c times as many u as v. */
  lemma {:induction false} GroupCount(us: set<seq<nat>>, vs: set<seq<nat>>, c: nat)
    requires forall u :: u in us ==> u != [] && Front(u) in vs
    requires forall v :: v in vs ==> |Group(us, v)| == c
    ensures |us| == Times(|vs|, c)
  {
    if vs == {} {
      assert us == {};
    } else {
      var w :| w in vs;
      var others := us - Group(us, w);
      forall v | v in vs - {w} ensures |Group(others, v)| == c {
        assert Group(others, v) == Group(us, v);
      }
      GroupCount(others, vs - {w}, c);
      assert us == others + Group(us, w);
      assert |vs - {w}| == |vs| - 1;
    }
  }

  lemma VectorIn(k: nat, n: nat, u: seq<nat>)
    requires n > k
    ensures u in Vectors(k, n) <==> u != [] && Front(u) in Vectors(k, n - 1) && u[|u| - 1] < n
  {
    if u in Vectors(k, n) {
      var v, j :| v in Vectors(k, n - 1) && j in Below(n) && u == v + [j];
      FrontOf(v, j);
    }
    if u != [] { SplitLast(u); }
  }

  /** Every vector has one draw per item beyond the first k, in range. */
  lemma {:induction false} VectorShape(k: nat, n: nat, v: seq<nat>)
    requires v in Vectors(k, n)
    ensures |v| == if n <= k then 0 else n - k
    ensures forall i :: 0 <= i < |v| ==> v[i] <= k + i
  {
    if n > k {
      VectorIn(k, n, v);
      VectorShape(k, n - 1, Front(v));
    }
  }

  /** Counting a set of n-item vectors by what it continues. */
  lemma CountByFront(k: nat, n: nat, us: set<seq<nat>>, vs: set<seq<nat>>, c: nat)
    requires n > k && us <= Vectors(k, n) && vs <= Vectors(k, n - 1)
    requires forall u :: u in us ==> u != [] && Front(u) in vs
    requires forall v :: v in vs ==> exists js :: |js| == c && Group(us, v) == Continue(v, js)
    ensures |us| == Times(|vs|, c)
  {
    forall v | v in vs ensures |Group(us, v)| == c {
      var js :| |js| == c && Group(us, v) == Continue(v, js);
      ContinueSize(v, js);
    }
    GroupCount(us, vs, c);
  }

  /** To find a group, decide each draw. */
  lemma GroupIs(k: nat, n: nat, us: set<seq<nat>>, v: seq<nat>, js: set<nat>)
    requires n > k && us <= Vectors(k, n) && v in Vectors(k, n - 1)
    requires forall j: nat :: v + [j] in us <==> j in js
    ensures Group(us, v) == Continue(v, js)
  {
    forall u | u in Group(us, v) ensures u in Continue(v, js) {
      SplitLast(u);
      assert u == v + [u[|u| - 1]];
    }
    forall u | u in Continue(v, js) ensures u in Group(us, v) {
      var j :| j in js && u == v + [j];
      FrontOf(v, j);
    }
  }

  lemma VectorsSize(k: nat, n: nat)
    requires n > k
    ensures |Vectors(k, n)| == Times(|Vectors(k, n - 1)|, n)
  {
    var us, vs := Vectors(k, n), Vectors(k, n - 1);
    forall u | u in us ensures u != [] && Front(u) in vs { VectorIn(k, n, u); }
    forall v | v in vs ensures exists js :: |js| == n && Group(us, v) == Continue(v, js) {
      GroupIs(k, n, us, v, Below(n));
    }
    CountByFront(k, n, us, vs, n);
  }

  // ----- what the reservoir holds

  /** Earlier contents do not depend on later draws. */
  lemma {:induction false} KeptPrefix(k: nat, n: nat, v: seq<nat>, more: seq<nat>)
    requires n <= k || n - k <= |v|
    ensures Kept(k, n, v + more) == Kept(k, n, v)
  {
    if n > 0 { KeptPrefix(k, n - 1, v, more); }
  }

  /** The reservoir holds distinct positions of the stream so far. */
  lemma {:induction false} KeptDistinct(k: nat, n: nat, v: seq<nat>)
    ensures forall i :: 0 <= i < |Kept(k, n, v)| ==> Kept(k, n, v)[i] < n
    ensures forall i, j :: 0 <= i < j < |Kept(k, n, v)| ==> Kept(k, n, v)[i] != Kept(k, n, v)[j]
  {
    if n > 0 { KeptDistinct(k, n - 1, v); }
  }

  /** One more item. */
  lemma KeptStep(k: nat, n: nat, v: seq<nat>, j: nat)
    requires n > k && v in Vectors(k, n - 1)
    ensures Kept(k, n, v + [j]) == if j < k then Kept(k, n - 1, v)[j := n - 1] else Kept(k, n - 1, v)
  {
    VectorShape(k, n - 1, v);
    KeptPrefix(k, n - 1, v, [j]);
    assert (v + [j])[n - 1 - k] == j;
  }

  function IndexOf(s: seq<nat>, x: nat): (i: nat)
    ensures x in s ==> i < |s| && s[i] == x
  {
    if s == [] then 0 else if s[0] == x then 0 else IndexOf(s[1..], x) + 1
  }

  // ----- every position is equally likely

  ghost function Survivors(k: nat, n: nat, p: nat): set<seq<nat>> {
    set v | v in Vectors(k, n) && p in Kept(k, n, v)
  }

  /** The newest item is in exactly if it was sent to a slot. */
  lemma NewestStep(k: nat, n: nat, v: seq<nat>, j: nat)
    requires n > k && v in Vectors(k, n - 1)
    ensures n - 1 in Kept(k, n, v + [j]) <==> j < k
  {
    KeptStep(k, n, v, j);
    KeptDistinct(k, n - 1, v);
    if j < k { assert Kept(k, n, v + [j])[j] == n - 1; }
  }

  /** An older item stays in exactly if it was in and its slot is not drawn. */
  lemma OlderStep(k: nat, n: nat, p: nat, v: seq<nat>, j: nat)
    requires n > k && p < n - 1 && v in Vectors(k, n - 1)
    ensures p in Kept(k, n, v + [j]) <==> p in Kept(k, n - 1, v) && j != IndexOf(Kept(k, n - 1, v), p)
  {
    KeptStep(k, n, v, j);
    KeptDistinct(k, n - 1, v);
    var s, r := Kept(k, n - 1, v), Kept(k, n, v + [j]);
    if p in s {
      var i := IndexOf(s, p);
      if j != i { assert r[i] == p; }
    }
  }

  lemma NewestCount(k: nat, n: nat)
    requires n > k
    ensures |Survivors(k, n, n - 1)| == Times(|Vectors(k, n - 1)|, k)
  {
    var us, vs := Survivors(k, n, n - 1), Vectors(k, n - 1);
    forall u | u in us ensures u != [] && Front(u) in vs { VectorIn(k, n, u); }
    forall v | v in vs ensures exists js :: |js| == k && Group(us, v) == Continue(v, js) {
      forall j: nat ensures v + [j] in us <==> j in Below(k) {
        VectorIn(k, n, v + [j]);
        FrontOf(v, j);
        NewestStep(k, n, v, j);
      }
      GroupIs(k, n, us, v, Below(k));
    }
    CountByFront(k, n, us, vs, k);
  }

  lemma OlderGroup(k: nat, n: nat, p: nat, v: seq<nat>)
    requires n > k && p < n - 1 && v in Survivors(k, n - 1, p)
    ensures exists js :: |js| == n - 1 && Group(Survivors(k, n, p), v) == Continue(v, js)
  {
    var us := Survivors(k, n, p);
    var i := IndexOf(Kept(k, n - 1, v), p);
    var js := Below(n) - {i};
    forall j: nat ensures v + [j] in us <==> j in js {
      VectorIn(k, n, v + [j]);
      FrontOf(v, j);
      OlderStep(k, n, p, v, j);
    }
    GroupIs(k, n, us, v, js);
    assert i in Below(n);
    assert |js| == n - 1;
  }

  lemma OlderCount(k: nat, n: nat, p: nat)
    requires n > k && p < n - 1
    ensures |Survivors(k, n, p)| == Times(|Survivors(k, n - 1, p)|, n - 1)
  {
    var us, vs := Survivors(k, n, p), Survivors(k, n - 1, p);
    forall u | u in us ensures u != [] && Front(u) in vs {
      VectorIn(k, n, u);
      SplitLast(u);
      OlderStep(k, n, p, Front(u), u[|u| - 1]);
    }
    forall v | v in vs ensures exists js :: |js| == n - 1 && Group(us, v) == Continue(v, js) {
      OlderGroup(k, n, p, v);
    }
    CountByFront(k, n, us, vs, n - 1);
  }

  lemma {:induction false} AllKept(k: nat, n: nat, p: nat)
    requires p < n <= k
    ensures p in Kept(k, n, [])
  {
    if p < n - 1 { AllKept(k, n - 1, p); } else { assert Kept(k, n, [])[n - 1] == n - 1; }
  }

  lemma Unit(k: nat)
    ensures Times(1, k) == k && Times(k, 1) == k
  {
    TimesIsProduct(1, k);
    TimesIsProduct(k, 1);
  }

  lemma FirstFraction(k: nat, n: nat, p: nat)
    requires n == k && p < n
    ensures Times(|Survivors(k, n, p)|, n) == Times(k, |Vectors(k, n)|)
  {
    AllKept(k, n, p);
    assert Survivors(k, n, p) == {[]};
    Unit(k);
  }

  lemma MulRegroup(a: nat, b: nat, c: nat)
    ensures (a * b) * c == b * (a * c)
    ensures a * b == b * a
  {
  }

  lemma Regroup(a: nat, b: nat, c: nat)
    ensures Times(Times(a, b), c) == Times(b, Times(a, c))
    ensures Times(a, b) == Times(b, a)
  {
    MulRegroup(a, b, c);
    TimesIsProduct(a, b);
    TimesIsProduct(b, a);
    TimesIsProduct(a, c);
    TimesIsProduct(Times(a, b), c);
    TimesIsProduct(b, Times(a, c));
  }

  lemma NewestFraction(k: nat, n: nat, p: nat)
    requires n > k && p == n - 1
    ensures Times(|Survivors(k, n, p)|, n) == Times(k, |Vectors(k, n)|)
  {
    NewestCount(k, n);
    VectorsSize(k, n);
    Regroup(|Vectors(k, n - 1)|, k, n);
  }

  lemma OlderFraction(k: nat, n: nat, p: nat)
    requires n > k && p < n - 1
    requires Times(|Survivors(k, n - 1, p)|, n - 1) == Times(k, |Vectors(k, n - 1)|)
    ensures Times(|Survivors(k, n, p)|, n) == Times(k, |Vectors(k, n)|)
  {
    OlderCount(k, n, p);
    VectorsSize(k, n);
    Regroup(|Vectors(k, n - 1)|, k, n);
  }

  lemma {:induction false} PositionFraction(k: nat, n: nat, p: nat)
    requires k <= n && p < n
    ensures Times(|Survivors(k, n, p)|, n) == Times(k, |Vectors(k, n)|)
  {
    hide Survivors, Vectors, Times;
    if n == k {
      FirstFraction(k, n, p);
    } else if p == n - 1 {
      NewestFraction(k, n, p);
    } else {
      PositionFraction(k, n - 1, p);
      OlderFraction(k, n, p);
    }
  }

  /** Of all draw vectors for n >= k items, exactly the fraction k/n keeps any
      given position. */
  lemma EveryPositionEquallyLikely(k: nat, n: nat, p: nat)
    requires k <= n && p < n
    ensures |Survivors(k, n, p)| * n == k * |Vectors(k, n)|
  {
    PositionFraction(k, n, p);
    TimesIsProduct(|Survivors(k, n, p)|, n);
    TimesIsProduct(k, |Vectors(k, n)|);
  }

  // ----- every k-subset is equally likely

  /** The draw vectors that leave exactly the positions of which in the reservoir. */
  ghost function Leaving(k: nat, n: nat, which: set<nat>): set<seq<nat>> {
    set v | v in Vectors(k, n) && Elements(Kept(k, n, v)) == which
  }

  /** The number of vectors that leave any one k-subset. */
  function Ways(k: nat, n: nat): nat {
    if n <= k then 1 else Ways(k, n - 1) * (n - k)
  }

  lemma {:induction false} DistinctSize(s: seq<nat>)
    requires forall i, j :: 0 <= i < j < |s| ==> s[i] != s[j]
    ensures |Elements(s)| == |s|
  {
    if s != [] {
      var t := s[..|s| - 1];
      DistinctSize(t);
      assert Elements(s) == Elements(t) + {s[|s| - 1]};
    }
  }

  lemma ElementsSize(k: nat, n: nat, v: seq<nat>)
    ensures |Elements(Kept(k, n, v))| == |Kept(k, n, v)|
  {
    KeptDistinct(k, n, v);
    DistinctSize(Kept(k, n, v));
  }

  /** The effect of one more item on the set of positions held. */
  lemma ElementsStep(k: nat, n: nat, v: seq<nat>, j: nat)
    requires n > k && v in Vectors(k, n - 1)
    ensures j >= k ==> Elements(Kept(k, n, v + [j])) == Elements(Kept(k, n - 1, v))
    ensures j < k ==> Elements(Kept(k, n, v + [j])) == Elements(Kept(k, n - 1, v)) - {Kept(k, n - 1, v)[j]} + {n - 1}
  {
    KeptStep(k, n, v, j);
    KeptDistinct(k, n - 1, v);
    var s := Kept(k, n - 1, v);
    if j < k {
      var r := s[j := n - 1];
      forall x | x in Elements(s) - {s[j]} + {n - 1} ensures x in r {
        if x == n - 1 { assert r[j] == x; } else {
          var i :| 0 <= i < |s| && s[i] == x;
          assert r[i] == x;
        }
      }
    }
  }

  /** Subsets without the newest item: it must have been sent to no slot. */
  lemma WithoutNewest(k: nat, n: nat, which: set<nat>)
    requires n > k && n - 1 !in which
    ensures |Leaving(k, n, which)| == |Leaving(k, n - 1, which)| * (n - k)
  {
    var us, vs := Leaving(k, n, which), Leaving(k, n - 1, which);
    forall u | u in us ensures u != [] && Front(u) in vs {
      VectorIn(k, n, u);
      SplitLast(u);
      ElementsStep(k, n, Front(u), u[|u| - 1]);
    }
    forall v | v in vs ensures exists js :: |js| == n - k && Group(us, v) == Continue(v, js) {
      var js := Below(n) - Below(k);
      forall j: nat ensures v + [j] in us <==> j in js {
        VectorIn(k, n, v + [j]);
        FrontOf(v, j);
        ElementsStep(k, n, v, j);
      }
      GroupIs(k, n, us, v, js);
      assert Below(k) <= Below(n);
      assert |js| == n - k;
    }
    CountByFront(k, n, us, vs, n - k);
    TimesIsProduct(|vs|, n - k);
  }

  /** Vectors for n - 1 items that hold all of rest and one more position out of among. */
  ghost function OneMore(k: nat, n: nat, rest: set<nat>, among: set<nat>): set<seq<nat>> {
    set v | v in Vectors(k, n) && exists x :: x in among && Elements(Kept(k, n, v)) == rest + {x}
  }

  lemma NoMore(k: nat, n: nat, rest: set<nat>)
    ensures OneMore(k, n, rest, {}) == {}
  {
  }

  lemma OneMoreSplits(k: nat, n: nat, rest: set<nat>, among: set<nat>, x: nat)
    requires among !! rest && x in among
    ensures |OneMore(k, n, rest, among)| == |OneMore(k, n, rest, among - {x})| + |Leaving(k, n, rest + {x})|
  {
    var fewer := among - {x};
    forall v | v in OneMore(k, n, rest, fewer) ensures v !in Leaving(k, n, rest + {x}) {
      var y :| y in fewer && Elements(Kept(k, n, v)) == rest + {y};
      assert y in rest + {y} && y !in rest + {x};
    }
    assert OneMore(k, n, rest, among) == OneMore(k, n, rest, fewer) + Leaving(k, n, rest + {x});
  }

  lemma {:induction false} OneMoreCount(k: nat, n: nat, rest: set<nat>, among: set<nat>, ways: nat)
    requires among !! rest
    requires forall x :: x in among ==> |Leaving(k, n, rest + {x})| == ways
    ensures |OneMore(k, n, rest, among)| == Times(|among|, ways)
  {
    hide OneMore, Leaving;
    if among == {} {
      NoMore(k, n, rest);
    } else {
      var x :| x in among;
      var fewer := among - {x};
      OneMoreCount(k, n, rest, fewer, ways);
      OneMoreSplits(k, n, rest, among, x);
      assert |among| == |fewer| + 1;
    }
  }

  predicate AllBelow(which: set<nat>, n: nat) {
    forall x :: x in which ==> x < n
  }

  lemma NewestSlot(k: nat, n: nat, which: set<nat>, v: seq<nat>, j: nat)
    requires n > k && n - 1 in which && |which| == k && AllBelow(which, n)
    requires v in Vectors(k, n - 1) && Elements(Kept(k, n, v + [j])) == which
    ensures v in OneMore(k, n - 1, which - {n - 1}, Below(n - 1) - which)
  {
    var s := Kept(k, n - 1, v);
    ElementsStep(k, n, v, j);
    KeptDistinct(k, n - 1, v);
    NewestStep(k, n, v, j);
    assert n - 1 in Elements(Kept(k, n, v + [j]));
    var x := s[j];
    assert x in Elements(s) && n - 1 !in Elements(s);
    assert Elements(s) == (which - {n - 1}) + {x};
    assert x !in which;
    assert x in Below(n - 1) - which;
  }

  lemma SlotOf(k: nat, n: nat, which: set<nat>, v: seq<nat>, x: nat, j: nat)
    requires n > k && n - 1 in which && v in Vectors(k, n - 1)
    requires x !in which && Elements(Kept(k, n - 1, v)) == (which - {n - 1}) + {x}
    ensures Elements(Kept(k, n, v + [j])) == which <==> j == IndexOf(Kept(k, n - 1, v), x)
    ensures IndexOf(Kept(k, n - 1, v), x) < k
  {
    var s := Kept(k, n - 1, v);
    ElementsStep(k, n, v, j);
    KeptDistinct(k, n - 1, v);
    assert x in Elements(s);
    var i := IndexOf(s, x);
    if j >= k {
      assert x in Elements(Kept(k, n, v + [j]));
    } else if j != i {
      assert s[j] != x;
      assert x in Elements(Kept(k, n, v + [j]));
    } else {
      assert Elements(Kept(k, n, v + [j])) == which;
    }
  }

  /** Subsets with the newest item: it took the one slot not kept for the others. */
  lemma WithNewest(k: nat, n: nat, which: set<nat>)
    requires n > k && n - 1 in which && |which| == k && AllBelow(which, n)
    ensures |Leaving(k, n, which)| == |OneMore(k, n - 1, which - {n - 1}, Below(n - 1) - which)|
  {
    var rest := which - {n - 1};
    var us, vs := Leaving(k, n, which), OneMore(k, n - 1, rest, Below(n - 1) - which);
    forall u | u in us ensures u != [] && Front(u) in vs {
      VectorIn(k, n, u);
      SplitLast(u);
      NewestSlot(k, n, which, Front(u), u[|u| - 1]);
    }
    forall v | v in vs ensures exists js :: |js| == 1 && Group(us, v) == Continue(v, js) {
      var x :| x in Below(n - 1) - which && Elements(Kept(k, n - 1, v)) == rest + {x};
      var i := IndexOf(Kept(k, n - 1, v), x);
      assert x in Elements(Kept(k, n - 1, v));
      forall j: nat ensures v + [j] in us <==> j in {i} {
        VectorIn(k, n, v + [j]);
        FrontOf(v, j);
        SlotOf(k, n, which, v, x, j);
      }
      GroupIs(k, n, us, v, {i});
      assert |{i}| == 1;
    }
    CountByFront(k, n, us, vs, 1);
    TimesIsProduct(|vs|, 1);
  }

  /** The other positions that the slot of the newest item may have held. */
  ghost function Replaced(n: nat, which: set<nat>): set<nat>
    requires n > 0
  {
    Below(n - 1) - which
  }

  /** The positions held before x gave way to the newest item. */
  ghost function WithBack(n: nat, which: set<nat>, x: nat): set<nat>
    requires n > 0
  {
    which - {n - 1} + {x}
  }

  lemma WithBackIsSubset(k: nat, n: nat, which: set<nat>, x: nat)
    requires n > k && n - 1 in which && AllBelow(which, n) && |which| == k && x in Replaced(n, which)
    ensures AllBelow(WithBack(n, which, x), n - 1) && |WithBack(n, which, x)| == k
  {
    assert |which - {n - 1}| == k - 1;
  }

  lemma WaysTimesSize(k: nat, n: nat, rest: set<nat>, among: set<nat>, ways: nat, count: nat)
    requires n > k && among !! rest && |among| == n - k
    requires forall x :: x in among ==> |Leaving(k, n - 1, rest + {x})| == ways
    requires count == |OneMore(k, n - 1, rest, among)|
    ensures count == ways * (n - k)
  {
    hide OneMore, Leaving, Times;
    OneMoreCount(k, n - 1, rest, among, ways);
    TimesIsProduct(n - k, ways);
  }

  lemma AmongSize(k: nat, n: nat, which: set<nat>)
    requires n > k && n - 1 in which && |which| == k && AllBelow(which, n)
    ensures |Below(n - 1) - which| == n - k
  {
    var rest := which - {n - 1};
    assert rest <= Below(n - 1);
    assert Below(n - 1) - which == Below(n - 1) - rest;
    assert |Below(n - 1) - rest| == (n - 1) - (k - 1);
  }

  lemma WithNewestCount(k: nat, n: nat, which: set<nat>, ways: nat)
    requires n > k && n - 1 in which && |which| == k && AllBelow(which, n)
    requires forall x :: x in Replaced(n, which) ==> |Leaving(k, n - 1, WithBack(n, which, x))| == ways
    ensures |Leaving(k, n, which)| == ways * (n - k)
  {
    WithNewest(k, n, which);
    var rest, among := which - {n - 1}, Replaced(n, which);
    forall x | x in among ensures |Leaving(k, n - 1, rest + {x})| == ways {
      assert WithBack(n, which, x) == rest + {x};
    }
    WaysTimesSize(k, n, rest, among, ways, |Leaving(k, n, which)|) by { AmongSize(k, n, which); }
  }

  lemma SubsetOfSameSize(a: set<nat>, b: set<nat>)
    requires a <= b && |a| == |b|
    ensures a == b
  {
    assert b == a + (b - a);
    assert |b| == |a| + |b - a|;
  }

  lemma FirstK(k: nat, which: set<nat>)
    requires AllBelow(which, k) && |which| == k
    ensures |Leaving(k, k, which)| == 1
  {
    assert which <= Below(k);
    SubsetOfSameSize(which, Below(k));
    KeptDistinct(k, k, []);
    ElementsSize(k, k, []);
    assert Elements(Kept(k, k, [])) <= Below(k);
    SubsetOfSameSize(Elements(Kept(k, k, [])), Below(k));
    assert Leaving(k, k, which) == {[]};
  }

  /** The sample is uniform: every k-subset of the first n >= k positions is
      left by the same number of draw vectors. */
  lemma {:induction false} EverySubsetEquallyLikely(k: nat, n: nat, which: set<nat>)
    requires k <= n && AllBelow(which, n) && |which| == k
    ensures |Leaving(k, n, which)| == Ways(k, n)
  {
    hide Leaving, WithBack;
    if n == k {
      FirstK(k, which);
    } else if n - 1 !in which {
      EverySubsetEquallyLikely(k, n - 1, which);
      WithoutNewest(k, n, which);
    } else {
      forall x | x in Replaced(n, which)
        ensures |Leaving(k, n - 1, WithBack(n, which, x))| == Ways(k, n - 1)
      {
        WithBackIsSubset(k, n, which, x);
        EverySubsetEquallyLikely(k, n - 1, WithBack(n, which, x));
      }
      WithNewestCount(k, n, which, Ways(k, n - 1));
    }
  }
}
