/** The parity checker's reader of raw responses, as the loops over bytes it is
    written as. */
module ParityCheck {
  import opened Arithmetic
  import opened Wire
  import opened WireProofs

  /** Without a final byte among the first n, no prefix up to n+... is a varint. */
  lemma NoVarintSo(data: seq<Byte>, n: nat)
    requires n <= |data| && (n == |data| || n == 10)
    requires forall j :: 0 <= j < n ==> data[j] >= 128
    ensures forall k :: 1 <= k <= |data| ==> !IsVarint(data[..k])
    ensures Varint(data) == (0, 0)
  {
    forall k | 1 <= k <= |data| ensures !IsVarint(data[..k]) {
      if k <= n { assert data[..k][k - 1] == data[k - 1]; }
    }
    VarintLenMeaning(data, 10);
  }

  lemma ShortGroups(i: nat)
    requires i <= 9
    ensures Pow2(7 * i) < WORD
  {
    WordIsPow2();
    Pow2Sum(7 * i, 63 - 7 * i);
    MulGrows(Pow2(7 * i), 1, Pow2(63 - 7 * i));
  }

  lemma GroupStep(data: seq<Byte>, i: nat, val: nat)
    requires i < |data| && i <= 9 && val == Base128(data[..i]) % WORD
    ensures BitOr(val, Shl64(data[i] % 128, 7 * i)) == Base128(data[..i + 1]) % WORD
  {
    var bs := data[..i];
    assert data[..i + 1] == bs + [data[i]];
    Base128Snoc(bs, data[i]);
    Base128Bound(bs);
    ShortGroups(i);
    ModUnique(Base128(bs), WORD, 0, Base128(bs));
    GroupShift(val, data[i] % 128, i);
  }

  /** decodeVarint. */
  method DecodeVarint(data: seq<Byte>) returns (val: nat, n: nat)
    ensures n > 0 ==> n <= |data| && IsVarint(data[..n]) && val == Base128(data[..n]) % WORD
    ensures n == 0 ==> val == 0 && forall k :: 1 <= k <= |data| ==> !IsVarint(data[..k])
    ensures (val, n) == Varint(data)
  {
    VarintLenMeaning(data, 10);
    val := 0;
    for i := 0 to |data|
      invariant i <= 10 && val < WORD
      invariant forall j :: 0 <= j < i ==> data[j] >= 128
      invariant val == Base128(data[..i]) % WORD
    {
      if i >= 10 {
        NoVarintSo(data, 10);
        return 0, 0;
      }
      var b := data[i];
      ContinuationBit(b);
      GroupStep(data, i, val);
      val := BitOr(val, Shl64(BitAnd(b, 0x7F), 7 * i));
      if BitAnd(b, 0x80) == 0 {
        assert IsVarint(data[..i + 1]);
        return val, i + 1;
      }
    }
    NoVarintSo(data, |data|);
    return 0, 0;
  }

  /** encVarint. */
  method EncodeVarint(value: nat) returns (out: seq<Byte>)
    requires value < WORD
    ensures out == EncVarint(value)
    ensures Varint(out) == (value, |out|)
  {
    out := [];
    var v: nat := value;
    while true
      invariant v < WORD
      invariant out + EncVarint(v) == EncVarint(value)
      decreases v
    {
      var b: nat := v % 128;
      var rest := v / 128;
      if rest != 0 { b := b + 128; }
      out := out + [b];
      if rest == 0 { break; }
      v := rest;
    }
    VarintRoundTrip(value, []);
    assert out + [] == out;
  }

  lemma LowBits(tag: nat)
    ensures BitAnd(tag, 0x07) == tag % 8
  {
    assert Pow2(3) == 8;
    AndLowMask(tag, 3);
  }

  lemma Drop(data: seq<Byte>, at: nat, n: nat)
    requires at + n <= |data|
    ensures data[at..][n..] == data[at + n..]
  {
  }

  lemma DropSlice(data: seq<Byte>, at: nat, m: nat, n: nat)
    requires at + m + n <= |data|
    ensures data[at..][m..m + n] == data[at + m..at + m + n]
  {
  }

  lemma Associate(a: seq<real>, b: seq<real>, c: seq<real>)
    ensures (a + b) + c == a + (b + c)
  {
  }

  method ReadValue(data: seq<Byte>, offset: nat, num: nat, wireType: nat) returns (field: Option<Field>, next: nat)
    requires offset <= |data|
    ensures match field
            case None => ParseValue(num, wireType, data[offset..]).None?
            case Some(f) =>
              offset < next <= |data| && ParseValue(num, wireType, data[offset..]) == Some((f, next - offset))
  {
    next := offset;
    match wireType {
      case 0 =>
        var v, m := DecodeVarint(data[offset..]);
        if m == 0 { return None, offset; }
        return Some(VarintField(num, v)), offset + m;
      case 1 =>
        if offset + 8 > |data| { return None, offset; }
        DropSlice(data, offset, 0, 8);
        return Some(Fixed64(num, FromLe(data[offset..offset + 8]))), offset + 8;
      case 2 =>
        var length, m := DecodeVarint(data[offset..]);
        if m == 0 { return None, offset; }
        var start := offset + m;
        if length > |data| - start { return None, offset; }
        DropSlice(data, offset, m, length);
        return Some(Bytes(num, data[start..start + length])), start + length;
      case 5 =>
        if offset + 4 > |data| { return None, offset; }
        DropSlice(data, offset, 0, 4);
        return Some(Fixed32(num, FromLe(data[offset..offset + 4]))), offset + 4;
      case _ =>
        return None, offset;
    }
  }

  /** The body both walks share: the tag at offset, the bounds checks, and the
      value. Lengths are compared with what is left before they are used. */
  method ReadField(data: seq<Byte>, offset: nat) returns (field: Option<Field>, next: nat)
    requires offset <= |data|
    ensures match field
            case None => ParseField(data[offset..]).None?
            case Some(f) => offset < next <= |data| && ParseField(data[offset..]) == Some((f, next - offset))
  {
    var tag, n := DecodeVarint(data[offset..]);
    if n == 0 { return None, offset; }
    var start := offset + n;
    Drop(data, offset, n);
    var wireType := BitAnd(tag, 0x07);
    LowBits(tag);
    field, next := ReadValue(data, start, tag / 8, wireType);
  }

  lemma FieldThenRest(data: seq<Byte>, f: Field, k: nat, rest: seq<Byte>)
    requires ParseField(data) == Some((f, k)) && rest == data[k..]
    ensures ParseFields(data) == [f] + ParseFields(rest)
  {
  }

  lemma FieldsFrom(data: seq<Byte>, offset: nat, next: nat, f: Field) returns (fs: seq<Field>)
    requires offset < next <= |data| && ParseField(data[offset..]) == Some((f, next - offset))
    ensures fs == ParseFields(data[next..]) && ParseFields(data[offset..]) == [f] + fs
  {
    Drop(data, offset, next - offset);
    FieldThenRest(data[offset..], f, next - offset, data[next..]);
    fs := ParseFields(data[next..]);
  }

  // What reading one field adds to the floats found so far.

  lemma ShallowCons(f: Field, fs: seq<Field>)
    ensures ShallowFloats([f] + fs) == DirectFloats(f) + ShallowFloats(fs)
  {
    assert ([f] + fs)[1..] == fs;
  }

  lemma ShallowAdvance(total: seq<real>, before: seq<real>, data: seq<Byte>, offset: nat, next: nat, f: Field)
    requires offset < next <= |data| && ParseField(data[offset..]) == Some((f, next - offset))
    requires before + ShallowFloats(ParseFields(data[offset..])) == total
    ensures (before + DirectFloats(f)) + ShallowFloats(ParseFields(data[next..])) == total
  {
    var fs := FieldsFrom(data, offset, next, f);
    ShallowCons(f, fs);
    Associate(before, DirectFloats(f), ShallowFloats(fs));
  }

  lemma TopCons(f: Field, fs: seq<Field>)
    ensures TopFloats([f] + fs) == NestedFloats(f) + TopFloats(fs)
  {
    assert ([f] + fs)[1..] == fs;
  }

  lemma TopAdvance(total: seq<real>, before: seq<real>, data: seq<Byte>, offset: nat, next: nat, f: Field)
    requires offset < next <= |data| && ParseField(data[offset..]) == Some((f, next - offset))
    requires before + TopFloats(ParseFields(data[offset..])) == total
    ensures (before + NestedFloats(f)) + TopFloats(ParseFields(data[next..])) == total
  {
    var fs := FieldsFrom(data, offset, next, f);
    TopCons(f, fs);
    Associate(before, NestedFloats(f), TopFloats(fs));
  }

  /** extractShallowFloats. */
  method ExtractShallowFloats(data: seq<Byte>) returns (floats: seq<real>)
    ensures floats == ShallowFloats(ParseFields(data))
  {
    ghost var total := ShallowFloats(ParseFields(data));
    floats := [];
    var offset := 0;
    while offset < |data|
      invariant 0 <= offset <= |data|
      invariant floats + ShallowFloats(ParseFields(data[offset..])) == total
      decreases |data| - offset
    {
      ghost var before := floats;
      var field, next := ReadField(data, offset);
      match field {
        case None => return;
        case Some(f) =>
          match f {
            case Fixed64(_, bits) => floats := floats + Kept64(bits);
            case Fixed32(_, bits) => floats := floats + Kept32(bits);
            case _ =>
          }
          assert floats == before + DirectFloats(f);
          ShallowAdvance(total, before, data, offset, next, f);
      }
      offset := next;
    }
  }

  /** extractTopLevelFloats. */
  method ExtractTopLevelFloats(data: seq<Byte>) returns (floats: seq<real>)
    ensures floats == TopFloats(ParseFields(data))
  {
    ghost var total := TopFloats(ParseFields(data));
    floats := [];
    var offset := 0;
    while offset < |data|
      invariant 0 <= offset <= |data|
      invariant floats + TopFloats(ParseFields(data[offset..])) == total
      decreases |data| - offset
    {
      ghost var before := floats;
      var field, next := ReadField(data, offset);
      match field {
        case None => return;
        case Some(f) =>
          match f {
            case Fixed64(_, bits) => floats := floats + Kept64(bits);
            case Fixed32(_, bits) => floats := floats + Kept32(bits);
            case Bytes(_, payload) =>
              var subFloats := ExtractShallowFloats(payload);
              floats := floats + subFloats;
            case _ =>
          }
          assert floats == before + NestedFloats(f);
          TopAdvance(total, before, data, offset, next, f);
      }
      offset := next;
    }
  }

  // ----- the comparison

  function Abs(x: real): real { if x < 0.0 then -x else x }

  /** The largest difference over the first n places; 0 over none. */
  function MaxDiff(a: seq<real>, b: seq<real>, n: nat): real
    requires n <= |a| && n <= |b|
  {
    if n == 0 then 0.0
    else
      var d, m := Abs(a[n - 1] - b[n - 1]), MaxDiff(a, b, n - 1);
      if d > m then d else m
  }

  /** How many of the first n places differ by more than the tolerance. */
  function Exceeding(a: seq<real>, b: seq<real>, tolerance: real, n: nat): (r: nat)
    requires n <= |a| && n <= |b|
    ensures r <= n
  {
    if n == 0 then 0
    else Exceeding(a, b, tolerance, n - 1) + if Abs(a[n - 1] - b[n - 1]) > tolerance then 1 else 0
  }

  function Shorter(a: seq<real>, b: seq<real>): (n: nat)
    ensures n <= |a| && n <= |b| && (n == |a| || n == |b|)
  {
    if |b| < |a| then |b| else |a|
  }

  datatype Verdict = Verdict(matched: bool, maxDiff: real, totalFloats: nat, mismatchCount: nat)

  /** The verdict on two lists of floats. */
  function Judge(a: seq<real>, b: seq<real>, tolerance: real): Verdict {
    var n := Shorter(a, b);
    var over := Exceeding(a, b, tolerance, n);
    if a == [] || b == [] || |a| != |b| then
      var gap := if |a| < |b| then |b| - |a| else |a| - |b|;
      Verdict(false, MaxDiff(a, b, n), n, if over + gap == 0 then 1 else over + gap)
    else
      Verdict(over == 0, MaxDiff(a, b, n), n, over)
  }

  /** compareProtoFloats, on the floats of the two responses. */
  method CompareFloats(floatsA: seq<real>, floatsB: seq<real>, tolerance: real) returns (v: Verdict)
    ensures v == Judge(floatsA, floatsB, tolerance)
  {
    var maxDiff, mismatchCount := 0.0, 0;
    var totalFloats := |floatsA|;
    if |floatsB| < totalFloats { totalFloats := |floatsB|; }
    for i := 0 to totalFloats
      invariant maxDiff == MaxDiff(floatsA, floatsB, i)
      invariant mismatchCount == Exceeding(floatsA, floatsB, tolerance, i)
    {
      var diff := Abs(floatsA[i] - floatsB[i]);
      if diff > maxDiff { maxDiff := diff; }
      if diff > tolerance { mismatchCount := mismatchCount + 1; }
    }
    if |floatsA| == 0 || |floatsB| == 0 || |floatsA| != |floatsB| {
      mismatchCount := mismatchCount + if |floatsA| < |floatsB| then |floatsB| - |floatsA| else |floatsA| - |floatsB|;
      if mismatchCount == 0 { mismatchCount := 1; }
      return Verdict(false, maxDiff, totalFloats, mismatchCount);
    }
    return Verdict(mismatchCount == 0, maxDiff, totalFloats, mismatchCount);
  }

  lemma {:induction false} MaxDiffBound(a: seq<real>, b: seq<real>, n: nat, bound: real)
    requires n <= |a| && n <= |b|
    ensures MaxDiff(a, b, n) >= 0.0
    ensures n > 0 ==> (MaxDiff(a, b, n) <= bound <==> Exceeding(a, b, bound, n) == 0)
    ensures MaxDiff(a, b, n) <= bound ==> Exceeding(a, b, bound, n) == 0
  {
    if n > 0 { MaxDiffBound(a, b, n - 1, bound); }
  }

  /** The places below n where a and b are further apart than the tolerance. */
  ghost function FarApart(a: seq<real>, b: seq<real>, tolerance: real, n: nat): set<nat>
    requires n <= |a| && n <= |b|
  {
    set i | 0 <= i < n && (a[i] - b[i] > tolerance || b[i] - a[i] > tolerance)
  }

  /** v is right about a and b, said of their differences alone. */
  ghost predicate IsVerdict(a: seq<real>, b: seq<real>, tolerance: real, v: Verdict) {
    && (v.matched <==> |a| == |b| > 0 && forall i :: 0 <= i < |a| ==> -tolerance <= a[i] - b[i] <= tolerance)
    && v.totalFloats <= |a| && v.totalFloats <= |b| && (v.totalFloats == |a| || v.totalFloats == |b|)
    && v.maxDiff >= 0.0
    && (forall i :: 0 <= i < v.totalFloats ==> -v.maxDiff <= a[i] - b[i] <= v.maxDiff)
    && (v.maxDiff == 0.0 ||
        exists i :: 0 <= i < v.totalFloats && (v.maxDiff == a[i] - b[i] || v.maxDiff == b[i] - a[i]))
    && var over := |FarApart(a, b, tolerance, v.totalFloats)| + (|a| - v.totalFloats) + (|b| - v.totalFloats);
       v.mismatchCount == if over == 0 && (|a| != |b| || |a| == 0) then 1 else over
  }

  /** The largest difference bounds all and is one of them. */
  lemma {:induction false} MaxDiffMeaning(a: seq<real>, b: seq<real>, n: nat)
    requires n <= |a| && n <= |b|
    ensures var m := MaxDiff(a, b, n);
      m >= 0.0 && (forall i :: 0 <= i < n ==> -m <= a[i] - b[i] <= m) &&
      (m == 0.0 || exists i :: 0 <= i < n && (m == a[i] - b[i] || m == b[i] - a[i]))
  {
    if n > 0 {
      MaxDiffMeaning(a, b, n - 1);
      var d := a[n - 1] - b[n - 1];
      assert Abs(d) == d || Abs(d) == b[n - 1] - a[n - 1];
    }
  }

  lemma FarApartStep(a: seq<real>, b: seq<real>, tolerance: real, n: nat)
    requires n < |a| && n < |b|
    ensures |FarApart(a, b, tolerance, n + 1)| ==
      |FarApart(a, b, tolerance, n)| + if Abs(a[n] - b[n]) > tolerance then 1 else 0
  {
    if a[n] - b[n] > tolerance || b[n] - a[n] > tolerance {
      assert FarApart(a, b, tolerance, n + 1) == FarApart(a, b, tolerance, n) + {n};
    } else {
      assert FarApart(a, b, tolerance, n + 1) == FarApart(a, b, tolerance, n);
    }
  }

  lemma {:induction false} ExceedingMeaning(a: seq<real>, b: seq<real>, tolerance: real, n: nat)
    requires n <= |a| && n <= |b|
    ensures Exceeding(a, b, tolerance, n) == |FarApart(a, b, tolerance, n)|
  {
    if n > 0 {
      ExceedingMeaning(a, b, tolerance, n - 1);
      FarApartStep(a, b, tolerance, n - 1);
    }
  }

  lemma {:induction false} NoneExceeding(a: seq<real>, b: seq<real>, tolerance: real, n: nat)
    requires n <= |a| && n <= |b|
    ensures Exceeding(a, b, tolerance, n) == 0 <==>
      forall i :: 0 <= i < n ==> -tolerance <= a[i] - b[i] <= tolerance
  {
    if n > 0 { NoneExceeding(a, b, tolerance, n - 1); }
  }

  lemma JudgeIsVerdict(a: seq<real>, b: seq<real>, tolerance: real)
    ensures IsVerdict(a, b, tolerance, Judge(a, b, tolerance))
  {
    hide MaxDiff, Exceeding, FarApart;
    var n := Shorter(a, b);
    MaxDiffMeaning(a, b, n);
    ExceedingMeaning(a, b, tolerance, n);
    NoneExceeding(a, b, tolerance, n);
  }

  /** There is only one right verdict. */
  lemma VerdictIsUnique(a: seq<real>, b: seq<real>, tolerance: real, v: Verdict, w: Verdict)
    requires IsVerdict(a, b, tolerance, v) && IsVerdict(a, b, tolerance, w)
    ensures v == w
  {
    hide FarApart;
    assert v.totalFloats == w.totalFloats;
  }

  /** A match is exactly: the same nonzero number of floats, and none further
      apart than the tolerance; and it is a mismatch count of zero. */
  lemma VerdictMeaning(a: seq<real>, b: seq<real>, tolerance: real)
    ensures var v := Judge(a, b, tolerance);
            (v.matched <==> |a| == |b| > 0 && v.maxDiff <= tolerance) &&
            (v.matched <==> v.mismatchCount == 0)
  {
    MaxDiffBound(a, b, Shorter(a, b), tolerance);
  }

  /** compareProtoFloats. */
  method CompareProtoFloats(a: seq<Byte>, b: seq<Byte>, tolerance: real) returns (v: Verdict)
    ensures var floatsA, floatsB := TopFloats(ParseFields(a)), TopFloats(ParseFields(b));
            v == Judge(floatsA, floatsB, tolerance) && IsVerdict(floatsA, floatsB, tolerance, v) &&
            (v.matched <==> |floatsA| == |floatsB| > 0 && v.maxDiff <= tolerance)
  {
    var floatsA := ExtractTopLevelFloats(a);
    var floatsB := ExtractTopLevelFloats(b);
    v := CompareFloats(floatsA, floatsB, tolerance);
    VerdictMeaning(floatsA, floatsB, tolerance);
    JudgeIsVerdict(floatsA, floatsB, tolerance);
  }

  lemma {:induction false} ExceedingSymmetric(a: seq<real>, b: seq<real>, tolerance: real, n: nat)
    requires n <= |a| && n <= |b|
    ensures MaxDiff(a, b, n) == MaxDiff(b, a, n) && Exceeding(a, b, tolerance, n) == Exceeding(b, a, tolerance, n)
  {
    if n > 0 { ExceedingSymmetric(a, b, tolerance, n - 1); }
  }

  lemma VerdictSymmetric(a: seq<real>, b: seq<real>, tolerance: real)
    ensures Judge(a, b, tolerance) == Judge(b, a, tolerance)
  {
    ExceedingSymmetric(a, b, tolerance, Shorter(a, b));
  }

  /** Raising the tolerance never turns a match into a mismatch. */
  lemma VerdictMonotone(a: seq<real>, b: seq<real>, tolerance: real, higher: real)
    requires tolerance <= higher && Judge(a, b, tolerance).matched
    ensures Judge(a, b, higher).matched
  {
    VerdictMeaning(a, b, tolerance);
    VerdictMeaning(a, b, higher);
  }
}
