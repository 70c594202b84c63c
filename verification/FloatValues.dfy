/** What the words of IEEE 754 are worth, for any widths of exponent and
    fraction: which have a value, how values follow the word, which word each
    integer has, and which words the extractor keeps. */
module FloatValues {
  import opened Arithmetic
  import opened Wire
  import opened WireProofs

  // ----- powers of two as reals

  lemma RealDoubles(e: int)
    ensures RealPow2(e + 1) == 2.0 * RealPow2(e)
  {
  }

  lemma {:induction false} RealPositive(e: int)
    ensures RealPow2(e) > 0.0
    decreases if e < 0 then -e else e
  {
    if e > 0 { RealPositive(e - 1); }
    if e < 0 { RealPositive(e + 1); }
  }

  lemma {:induction false} RealScales(e: int, n: nat)
    ensures RealPow2(e + n) == Pow2(n) as real * RealPow2(e)
  {
    if n > 0 {
      RealScales(e, n - 1);
      RealDoubles(e + n - 1);
      assert Pow2(n) as real == 2.0 * Pow2(n - 1) as real;
    }
  }

  // ----- a word and its parts

  /** The word of sign s, exponent e and fraction f. */
  function Word(s: nat, e: nat, f: nat, eb: nat, fb: nat): nat {
    s * Pow2(eb + fb) + e * Pow2(fb) + f
  }

  lemma Regroup(s: nat, e: nat, f: nat, exps: nat, fracs: nat)
    ensures s * (exps * fracs) + e * fracs + f == fracs * (s * exps + e) + f == (exps * fracs) * s + (e * fracs + f)
  {
    assert fracs * (s * exps + e) == fracs * (s * exps) + fracs * e;
    assert fracs * (s * exps) == s * (exps * fracs);
  }

  lemma BelowProduct(e: nat, f: nat, exps: nat, fracs: nat)
    requires e < exps && f < fracs
    ensures e * fracs + f < exps * fracs
  {
    MulGrows(fracs, e + 1, exps);
    MulSnoc(e, fracs);
  }

  lemma Parts(s: nat, e: nat, f: nat, eb: nat, fb: nat)
    requires s < 2 && e < Pow2(eb) && f < Pow2(fb)
    ensures var w := Word(s, e, f, eb, fb);
      w % Pow2(fb) == f && (w / Pow2(fb)) % Pow2(eb) == e && (w / Pow2(fb + eb)) % 2 == s
  {
    hide Pow2;
    var w, exps, fracs := Word(s, e, f, eb, fb), Pow2(eb), Pow2(fb);
    Pow2Sum(eb, fb);
    Regroup(s, e, f, exps, fracs);
    BelowProduct(e, f, exps, fracs);
    ModUnique(w, fracs, s * exps + e, f);
    ModUnique(s * exps + e, exps, s, e);
    ModUnique(w, exps * fracs, s, e * fracs + f);
  }

  lemma QuotientBelow(m: nat, exps: nat, fracs: nat)
    requires fracs > 0 && m < exps * fracs
    ensures m / fracs < exps && m == (m / fracs) * fracs + m % fracs
  {
    assert m == (m / fracs) * fracs + m % fracs;
    if m / fracs >= exps { MulGrows(fracs, exps, m / fracs); }
  }

  /** Every word has parts. */
  lemma PartsOf(w: nat, eb: nat, fb: nat) returns (s: nat, e: nat, f: nat)
    requires w < 2 * Pow2(eb + fb)
    ensures s < 2 && e < Pow2(eb) && f < Pow2(fb) && w == Word(s, e, f, eb, fb)
    ensures s == 0 <==> w < Pow2(eb + fb)
  {
    hide Pow2;
    var half, exps, fracs := Pow2(eb + fb), Pow2(eb), Pow2(fb);
    Pow2Sum(eb, fb);
    s := if w < half then 0 else 1;
    var m: nat := if w < half then w else w - half;
    QuotientBelow(m, exps, fracs);
    e, f := m / fracs, m % fracs;
  }

  lemma IeeeOf(s: nat, e: nat, f: nat, eb: nat, fb: nat)
    requires eb >= 1 && s < 2 && e < Pow2(eb) && f < Pow2(fb)
    ensures Ieee(Word(s, e, f, eb, fb), eb, fb) == FromParts(s == 1, e, f, eb, fb)
  {
    hide Pow2, Word, FromParts;
    Parts(s, e, f, eb, fb);
  }

  // ----- which words have a value, and its sign

  /** All words but those whose exponent is all ones. */
  lemma HasValue(s: nat, e: nat, f: nat, eb: nat, fb: nat)
    requires eb >= 1 && s < 2 && e < Pow2(eb) && f < Pow2(fb)
    ensures Ieee(Word(s, e, f, eb, fb), eb, fb) == None <==> e == Pow2(eb) - 1
  {
    IeeeOf(s, e, f, eb, fb);
  }

  /** Setting the sign bit negates. */
  lemma SignNegates(m: nat, eb: nat, fb: nat)
    requires eb >= 1 && m < Pow2(eb + fb)
    ensures var plus, minus := Ieee(m, eb, fb), Ieee(Pow2(eb + fb) + m, eb, fb);
      (plus == None <==> minus == None) && (plus.Some? ==> minus.value == 0.0 - plus.value)
  {
    var s, e, f := PartsOf(m, eb, fb);
    IeeeOf(0, e, f, eb, fb);
    IeeeOf(1, e, f, eb, fb);
    assert Word(1, e, f, eb, fb) == Pow2(eb + fb) + m;
  }

  // ----- values follow the word

  /** The first word without a value. */
  function Infinity(eb: nat, fb: nat): nat { (Pow2(eb) - 1) * Pow2(fb) }

  lemma Finite(m: nat, eb: nat, fb: nat)
    requires eb >= 1 && m < Pow2(eb + fb)
    ensures Ieee(m, eb, fb).Some? <==> m < Infinity(eb, fb)
  {
    var s, e, f := PartsOf(m, eb, fb);
    var exps, fracs := Pow2(eb), Pow2(fb);
    IeeeOf(0, e, f, eb, fb);
    if e < exps - 1 {
      MulGrows(fracs, e + 1, exps - 1);
      MulSnoc(e, fracs);
    }
  }

  lemma OneMore(n: nat, x: real)
    requires x > 0.0
    ensures n as real * x < (n + 1) as real * x
  {
    assert (n + 1) as real * x == n as real * x + x;
  }

  lemma NextMagnitude(e: nat, f: nat, eb: nat, fb: nat)
    requires eb >= 1 && f + 1 < Pow2(fb)
    ensures Magnitude(e, f, eb, fb) < Magnitude(e, f + 1, eb, fb)
  {
    hide Pow2, RealPow2;
    var bias, fracs := Pow2(eb - 1) - 1, Pow2(fb);
    if e == 0 {
      RealPositive(1 - bias - fb);
      OneMore(f, RealPow2(1 - bias - fb));
    } else {
      RealPositive(e - bias - fb);
      OneMore(fracs + f, RealPow2(e - bias - fb));
    }
  }

  lemma DoubleScale(n: nat, x: real, y: real)
    requires y == 2.0 * x
    ensures n as real * y == (2 * n) as real * x
  {
    assert (2 * n) as real == 2.0 * n as real;
  }

  /** The last fraction of an exponent and the first of the next. */
  lemma NextBinade(e: nat, eb: nat, fb: nat)
    requires eb >= 1
    ensures Magnitude(e, Pow2(fb) - 1, eb, fb) < Magnitude(e + 1, 0, eb, fb)
  {
    hide Pow2, RealPow2;
    var bias, fracs := Pow2(eb - 1) - 1, Pow2(fb);
    if e == 0 {
      RealPositive(1 - bias - fb);
      OneMore(fracs - 1, RealPow2(1 - bias - fb));
    } else {
      RealPositive(e - bias - fb);
      RealDoubles(e - bias - fb);
      OneMore(fracs + fracs - 1, RealPow2(e - bias - fb));
      DoubleScale(fracs, RealPow2(e - bias - fb), RealPow2(e + 1 - bias - fb));
    }
  }

  lemma InfinityFits(eb: nat, fb: nat)
    ensures Infinity(eb, fb) < Pow2(eb + fb)
  {
    Pow2Sum(eb, fb);
    MulSnoc(Pow2(eb) - 1, Pow2(fb));
  }

  lemma NextIsLarger(m: nat, eb: nat, fb: nat)
    requires eb >= 1 && m + 1 < Infinity(eb, fb)
    ensures Ieee(m, eb, fb).Some? && Ieee(m + 1, eb, fb).Some?
    ensures Ieee(m, eb, fb).value < Ieee(m + 1, eb, fb).value
  {
    hide Pow2, RealPow2, Ieee, Magnitude, Infinity;
    var fracs := Pow2(fb);
    InfinityFits(eb, fb);
    Finite(m, eb, fb);
    Finite(m + 1, eb, fb);
    var s, e, f := PartsOf(m, eb, fb);
    IeeeOf(0, e, f, eb, fb);
    if f + 1 < fracs {
      NextMagnitude(e, f, eb, fb);
      IeeeOf(0, e, f + 1, eb, fb);
      assert Word(0, e, f + 1, eb, fb) == m + 1;
    } else {
      NextBinade(e, eb, fb);
      MulSnoc(e, fracs);
      assert Word(0, e + 1, 0, eb, fb) == m + 1;
      IeeeOf(0, e + 1, 0, eb, fb);
    }
  }

  /** Words of sign 0 that have a value increase with it. */
  lemma {:induction false} Increasing(m: nat, n: nat, eb: nat, fb: nat)
    requires eb >= 1 && m < n < Infinity(eb, fb)
    ensures Ieee(m, eb, fb).Some? && Ieee(n, eb, fb).Some?
    ensures Ieee(m, eb, fb).value < Ieee(n, eb, fb).value
    decreases n
  {
    NextIsLarger(n - 1, eb, fb);
    if m < n - 1 { Increasing(m, n - 1, eb, fb); }
  }

  // ----- the scale

  lemma SmallExponents(eb: nat)
    requires eb >= 2
    ensures Pow2(eb) >= 4
  {
    assert Pow2(eb) == 2 * Pow2(eb - 1) && Pow2(eb - 1) == 2 * Pow2(eb - 2);
  }

  /** The value of the smallest word above 0. */
  function Smallest(eb: nat, fb: nat): real
    requires eb >= 1
  {
    RealPow2(2 - Pow2(eb - 1) - fb)
  }

  lemma SmallMagnitude(m: nat, eb: nat, fb: nat)
    requires eb >= 1 && m < 2 * Pow2(fb)
    ensures (if m < Pow2(fb) then Magnitude(0, m, eb, fb) else Magnitude(1, m - Pow2(fb), eb, fb)) ==
      m as real * Smallest(eb, fb)
  {
    hide Pow2, RealPow2;
  }

  lemma SmallWord(m: nat, eb: nat, fb: nat)
    requires eb >= 2 && m < 2 * Pow2(fb)
    ensures Ieee(m, eb, fb) == Some(m as real * Smallest(eb, fb))
  {
    SmallExponents(eb);
    hide Pow2, RealPow2, Ieee, Magnitude, Smallest;
    var fracs := Pow2(fb);
    SmallMagnitude(m, eb, fb);
    if m < fracs {
      IeeeOf(0, 0, m, eb, fb);
      assert Word(0, 0, m, eb, fb) == m;
    } else {
      IeeeOf(0, 1, m - fracs, eb, fb);
      assert Word(0, 1, m - fracs, eb, fb) == m;
    }
  }

  lemma Unit(x: real)
    ensures 1 as real * x == x
  {
  }

  /** Up to the second binade words are multiples of the smallest. */
  lemma Linear(m: nat, eb: nat, fb: nat)
    requires eb >= 2 && m < 2 * Pow2(fb)
    ensures Ieee(m, eb, fb).Some? && Ieee(1, eb, fb).Some?
    ensures Ieee(m, eb, fb).value == m as real * Ieee(1, eb, fb).value
  {
    hide Ieee, Smallest;
    SmallWord(1, eb, fb);
    Unit(Smallest(eb, fb));
    SmallWord(m, eb, fb);
  }

  lemma Twice(x: real, y: real)
    ensures x * (2.0 * y) == 2.0 * (x * y)
  {
  }

  lemma SameParts(e: nat, f: nat, x: nat, y: nat, fracs: nat)
    requires f < fracs && y < fracs && e * fracs + f == x * fracs + y
    ensures e == x && f == y
  {
    ModUnique(e * fracs + f, fracs, e, f);
    ModUnique(e * fracs + f, fracs, x, y);
  }

  lemma PositiveExponent(e: nat, f: nat, fracs: nat)
    requires f < fracs <= e * fracs + f
    ensures e > 0
  {
  }

  /** From there on one more in the exponent doubles. */
  lemma Doubles(m: nat, eb: nat, fb: nat)
    requires eb >= 1 && Pow2(fb) <= m && m + Pow2(fb) < Infinity(eb, fb)
    ensures Ieee(m, eb, fb).Some? && Ieee(m + Pow2(fb), eb, fb).Some?
    ensures Ieee(m + Pow2(fb), eb, fb).value == 2.0 * Ieee(m, eb, fb).value
  {
    hide Pow2, RealPow2, Ieee, Infinity;
    var exps, fracs, bias := Pow2(eb), Pow2(fb), Pow2(eb - 1) - 1;
    InfinityFits(eb, fb);
    Finite(m, eb, fb);
    Finite(m + fracs, eb, fb);
    var s, e, f := PartsOf(m, eb, fb);
    var r, x, y := PartsOf(m + fracs, eb, fb);
    MulSnoc(e, fracs);
    SameParts(e + 1, f, x, y, fracs);
    PositiveExponent(e, f, fracs);
    IeeeOf(0, e, f, eb, fb);
    IeeeOf(0, e + 1, f, eb, fb);
    RealDoubles(e - bias - fb);
    Twice((fracs + f) as real, RealPow2(e - bias - fb));
  }

  lemma IntegerValue(n: nat, g: nat, x: real)
    requires g as real * x == 1.0
    ensures (n * g) as real * x == n as real
  {
    assert (n * g) as real == n as real * g as real;
    assert (n as real * g as real) * x == n as real * (g as real * x);
  }

  lemma FractionOf(n: nat, p: nat, g: nat, fracs: nat)
    requires p <= n < 2 * p && p * g == fracs && g > 0
    ensures fracs <= n * g < 2 * fracs
  {
    MulGrows(g, p, n);
    MulGrows(g, n + 1, 2 * p);
    MulSnoc(n, g);
    assert (2 * p) * g == 2 * (p * g);
  }

  lemma ZeroScale()
    ensures RealPow2(0) == 1.0
  {
  }

  lemma IntegerMagnitude(n: nat, j: nat, eb: nat, fb: nat)
    requires eb >= 1 && j <= fb && Pow2(j) <= n < 2 * Pow2(j) && Pow2(eb - 1) + j > 1
    ensures Pow2(fb) <= n * Pow2(fb - j) < 2 * Pow2(fb)
    ensures Magnitude(Pow2(eb - 1) - 1 + j, n * Pow2(fb - j) - Pow2(fb), eb, fb) == n as real
  {
    hide Pow2, RealPow2;
    Pow2Sum(j, fb - j);
    FractionOf(n, Pow2(j), Pow2(fb - j), Pow2(fb));
    RealScales(j - fb, fb - j);
    ZeroScale();
    IntegerValue(n, Pow2(fb - j), RealPow2(j - fb));
  }

  lemma WordBelow(e: nat, f: nat, eb: nat, fb: nat)
    requires e < Pow2(eb) && f < Pow2(fb)
    ensures e * Pow2(fb) + f < Pow2(eb + fb)
  {
    Pow2Sum(eb, fb);
    BelowProduct(e, f, Pow2(eb), Pow2(fb));
  }

  /** The word of an integer with binary exponent j: the biased exponent, and the
      bits below the leading one at the top of the fraction. */
  function IntegerBits(n: nat, j: nat, eb: nat, fb: nat): int
    requires eb >= 1 && j <= fb
  {
    (Pow2(eb - 1) - 1 + j) * Pow2(fb) + (n * Pow2(fb - j) - Pow2(fb))
  }

  lemma IntegerWord(n: nat, j: nat, eb: nat, fb: nat)
    requires eb >= 2 && j <= fb && Pow2(j) <= n < 2 * Pow2(j) && Pow2(eb - 1) - 1 + j < Pow2(eb) - 1
    ensures 0 <= IntegerBits(n, j, eb, fb) < Pow2(eb + fb)
    ensures Ieee(IntegerBits(n, j, eb, fb), eb, fb) == Some(n as real)
  {
    SmallExponents(eb);
    assert Pow2(eb) == 2 * Pow2(eb - 1);
    hide Pow2, RealPow2, Ieee, Magnitude;
    IntegerMagnitude(n, j, eb, fb);
    WordBelow(Pow2(eb - 1) - 1 + j, n * Pow2(fb - j) - Pow2(fb), eb, fb);
    IeeeOf(0, Pow2(eb - 1) - 1 + j, n * Pow2(fb - j) - Pow2(fb), eb, fb);
  }

  lemma {:induction false} BinaryExponent(n: nat) returns (j: nat)
    requires n > 0
    ensures Pow2(j) <= n < 2 * Pow2(j)
  {
    if n == 1 {
      j := 0;
    } else {
      j := BinaryExponent(n / 2);
      j := j + 1;
    }
  }

  lemma {:induction false} Pow2Grows(i: nat, j: nat)
    requires i <= j
    ensures Pow2(i) <= Pow2(j)
  {
    if i < j { Pow2Grows(i, j - 1); }
  }

  /** The power of two just past the span of the fraction. */
  lemma PowerAbove(eb: nat, fb: nat) returns (w: nat)
    requires eb >= 2 && fb + 1 < Pow2(eb - 1)
    ensures w < Pow2(eb + fb) && Ieee(w, eb, fb) == Some((2 * Pow2(fb)) as real)
  {
    assert Pow2(eb) == 2 * Pow2(eb - 1);
    ZeroScale();
    RealDoubles(0);
    hide Pow2, Ieee;
    IeeeOf(0, Pow2(eb - 1) + fb, 0, eb, fb);
    WordBelow(Pow2(eb - 1) + fb, 0, eb, fb);
    w := (Pow2(eb - 1) + fb) * Pow2(fb) + 0;
  }

  /** Every integer up to twice the span of the fraction is the value of a word,
      by Increasing of only one. */
  lemma EveryInteger(n: nat, eb: nat, fb: nat) returns (w: nat)
    requires eb >= 2 && fb + 1 < Pow2(eb - 1) && n <= 2 * Pow2(fb)
    ensures w < Pow2(eb + fb) && Ieee(w, eb, fb) == Some(n as real)
  {
    hide Ieee, IntegerBits;
    if n == 0 {
      SmallWord(0, eb, fb);
      w := 0;
    } else if n < 2 * Pow2(fb) {
      var j := BinaryExponent(n);
      if j > fb { Pow2Grows(fb + 1, j); }
      IntegerWord(n, j, eb, fb);
      w := IntegerBits(n, j, eb, fb);
    } else {
      w := PowerAbove(eb, fb);
    }
  }

  // ----- single and double precision

  lemma Widths()
    ensures Pow2(7) == 0x80 && Pow2(8) == 0x100 && Pow2(10) == 0x400 && Pow2(11) == 0x800
    ensures Pow2(23) == 0x80_0000 && Pow2(26) == 0x400_0000 && Pow2(31) == 0x8000_0000
    ensures Pow2(3) == 8 && Pow2(49) == 0x2_0000_0000_0000
    ensures Pow2(52) == 0x10_0000_0000_0000 && Pow2(63) == 0x8000_0000_0000_0000
  {
    assert Pow2(3) == 8 && Pow2(7) == 0x80 && Pow2(8) == 0x100 && Pow2(10) == 0x400;
    Pow2Sum(1, 10);
    Pow2Sum(3, 10);
    Pow2Sum(10, 13);
    Pow2Sum(3, 23);
    Pow2Sum(8, 23);
    Pow2Sum(26, 23);
    Pow2Sum(3, 49);
    Pow2Sum(11, 52);
  }

  /** All integers up to 2^24 have a word of single precision, and all up to
      2^53 one of double precision. */
  lemma IntegersOfWords(n: nat) returns (single: nat, double: nat)
    ensures n <= 0x100_0000 ==> single < 0x8000_0000 && Ieee(single, 8, 23) == Some(n as real)
    ensures n <= 0x20_0000_0000_0000 ==> double < 0x8000_0000_0000_0000 && Ieee(double, 11, 52) == Some(n as real)
  {
    hide Ieee, Pow2;
    Widths();
    single, double := 0, 0;
    if n <= 0x100_0000 { single := EveryInteger(n, 8, 23); }
    if n <= 0x20_0000_0000_0000 { double := EveryInteger(n, 11, 52); }
  }

  // ----- which words the extractor keeps

  const LIMIT: real := 1000000000000000.0

  /** The words of magnitude below the limit are those below some word. */
  lemma BelowWord(m: nat, w: nat, eb: nat, fb: nat)
    requires eb >= 2 && 0 < w < Infinity(eb, fb) && m < Pow2(eb + fb)
    requires Ieee(w - 1, eb, fb).Some? && Ieee(w - 1, eb, fb).value < LIMIT
    requires Ieee(w, eb, fb).Some? && Ieee(w, eb, fb).value >= LIMIT
    ensures m < w <==> Ieee(m, eb, fb).Some? && Ieee(m, eb, fb).value < LIMIT
    ensures Ieee(m, eb, fb).Some? ==> Ieee(m, eb, fb).value >= 0.0
  {
    hide Ieee, Infinity, Pow2, Smallest;
    Finite(m, eb, fb);
    SmallWord(0, eb, fb);
    if m < w - 1 { Increasing(m, w - 1, eb, fb); }
    if w < m < Infinity(eb, fb) { Increasing(w, m, eb, fb); }
    if 0 < m < Infinity(eb, fb) { Increasing(0, m, eb, fb); }
  }

  /** So a word of either sign is kept exactly if it is below that word. */
  lemma KeptBelow(bits: nat, w: nat, eb: nat, fb: nat)
    requires eb >= 2 && 0 < w < Infinity(eb, fb) && bits < 2 * Pow2(eb + fb)
    requires Ieee(w - 1, eb, fb).Some? && Ieee(w - 1, eb, fb).value < LIMIT
    requires Ieee(w, eb, fb).Some? && Ieee(w, eb, fb).value >= LIMIT
    ensures var m := if bits < Pow2(eb + fb) then bits else bits - Pow2(eb + fb);
      Kept(Ieee(bits, eb, fb)) != [] <==> m < w
    ensures Kept(Ieee(bits, eb, fb)) != [] ==> Ieee(bits, eb, fb) == Some(Kept(Ieee(bits, eb, fb))[0])
  {
    hide Ieee, Infinity, Pow2;
    var m := if bits < Pow2(eb + fb) then bits else bits - Pow2(eb + fb);
    BelowWord(m, w, eb, fb);
    SignNegates(m, eb, fb);
  }

  lemma SingleLimit()
    ensures Infinity(8, 23) == 0x7F80_0000
    ensures Ieee(0x5863_5FA9, 8, 23) == Some(999999986991104.0)
    ensures Ieee(0x5863_5FAA, 8, 23) == Some(1000000054099968.0)
  {
    hide Ieee, Pow2, RealPow2;
    Widths();
    ZeroScale();
    RealScales(0, 26);
    assert Word(0, 176, 0x63_5FA9, 8, 23) == 0x5863_5FA9;
    assert Word(0, 176, 0x63_5FAA, 8, 23) == 0x5863_5FAA;
    IeeeOf(0, 176, 0x63_5FA9, 8, 23);
    IeeeOf(0, 176, 0x63_5FAA, 8, 23);
  }

  lemma DoubleLimit()
    ensures Infinity(11, 52) == 0x7FF0_0000_0000_0000
    ensures Ieee(0x430C_6BF5_2634_0000, 11, 52) == Some(LIMIT)
  {
    hide Ieee, Pow2, RealPow2;
    Widths();
    IntegerWord(1_000_000_000_000_000, 49, 11, 52);
  }

  /** Single precision keeps the words, of either sign, up to the last below
      1e15, each with its value. */
  lemma KeptSingles(bits: nat)
    requires bits < 0x1_0000_0000
    ensures Kept32(bits) != [] <==> bits % 0x8000_0000 <= 0x5863_5FA9
    ensures Kept32(bits) != [] ==> Ieee(bits, 8, 23) == Some(Kept32(bits)[0])
  {
    hide Ieee, Pow2, Infinity;
    Widths();
    SingleLimit();
    KeptBelow(bits, 0x5863_5FAA, 8, 23);
  }

  /** Double precision keeps those below the word of 1e15. */
  lemma KeptDoubles(bits: nat)
    requires bits < WORD
    ensures Kept64(bits) != [] <==> bits % 0x8000_0000_0000_0000 < 0x430C_6BF5_2634_0000
    ensures Kept64(bits) != [] ==> Ieee(bits, 11, 52) == Some(Kept64(bits)[0])
  {
    hide Ieee, Pow2, Infinity;
    Widths();
    DoubleLimit();
    Increasing(0x430C_6BF5_2634_0000 - 1, 0x430C_6BF5_2634_0000, 11, 52);
    KeptBelow(bits, 0x430C_6BF5_2634_0000, 11, 52);
  }
}
