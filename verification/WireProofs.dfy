/** Round trips and structure of the wire format. */
module WireProofs {
  import opened Arithmetic
  import opened Wire

  // ----- powers of two and disjoint bits

  lemma {:induction false} Pow2Sum(a: nat, b: nat)
    ensures Pow2(a + b) == Pow2(a) * Pow2(b)
  {
    if a > 0 {
      Pow2Sum(a - 1, b);
      assert 2 * (Pow2(a - 1) * Pow2(b)) == (2 * Pow2(a - 1)) * Pow2(b);
    }
  }

  lemma WordIsPow2()
    ensures Pow2(64) == WORD && Pow2(63) * 2 == WORD && Pow2(7) == 128 && Pow2(3) == 8
  {
    assert Pow2(8) == 256;
    Pow2Sum(8, 8);
    Pow2Sum(16, 16);
    Pow2Sum(32, 32);
    assert Pow2(64) == 2 * Pow2(63);
  }

  /** Or-ing in bits above the highest bit of a adds them. */
  lemma {:induction false} OrDisjoint(a: nat, x: nat, s: nat)
    requires a < Pow2(s)
    ensures BitOr(a, x * Pow2(s)) == a + x * Pow2(s)
  {
    if s > 0 && a > 0 && x > 0 {
      var b := x * Pow2(s);
      assert b == 2 * (x * Pow2(s - 1));
      assert b % 2 == 0 && b / 2 == x * Pow2(s - 1);
      OrDisjoint(a / 2, x, s - 1);
    } else if x == 0 {
      assert x * Pow2(s) == 0;
    }
  }

  lemma OddMask(x: nat, p: nat)
    requires p >= 1 && x > 0
    ensures BitAnd(x, 2 * p - 1) == x % 2 + 2 * BitAnd(x / 2, p - 1)
  {
    assert (2 * p - 1) % 2 == 1 && (2 * p - 1) / 2 == p - 1;
  }

  lemma HalfMod(x: nat, p: nat)
    requires p >= 1
    ensures x % (2 * p) == x % 2 + 2 * ((x / 2) % p)
  {
    var h := x / 2;
    var q, r := h / p, h % p;
    assert h == p * q + r;
    assert x == 2 * h + x % 2;
    assert x == (2 * p) * q + (2 * r + x % 2) by {
      assert 2 * (p * q) == (2 * p) * q;
    }
    ModUnique(x, 2 * p, q, 2 * r + x % 2);
  }

  lemma LowMaskStep(x: nat, p: nat)
    requires p >= 1 && x > 0 && BitAnd(x / 2, p - 1) == (x / 2) % p
    ensures BitAnd(x, 2 * p - 1) == x % (2 * p)
  {
    OddMask(x, p);
    HalfMod(x, p);
  }

  lemma {:induction false} AndLowMask(x: nat, k: nat)
    ensures BitAnd(x, Pow2(k) - 1) == x % Pow2(k)
  {
    if x == 0 {
      ModUnique(0, Pow2(k), 0, 0);
    } else if k > 0 {
      AndLowMask(x / 2, k - 1);
      LowMaskStep(x, Pow2(k - 1));
    }
  }

  lemma {:induction false} AndTopBit(x: nat, k: nat)
    requires x < Pow2(k + 1)
    ensures BitAnd(x, Pow2(k)) == 0 <==> x < Pow2(k)
  {
    if x > 0 {
      if k == 0 {
        assert Pow2(0) == 1 && Pow2(1) == 2;
        assert x == 1;
        assert BitAnd(1, 1) == 1 + 2 * BitAnd(0, 0);
      } else {
        assert Pow2(k) / 2 == Pow2(k - 1) && Pow2(k) % 2 == 0;
        AndTopBit(x / 2, k - 1);
      }
    }
  }

  lemma ContinuationBit(b: Byte)
    ensures BitAnd(b, 0x7F) == b % 128
    ensures BitAnd(b, 0x80) == 0 <==> b < 128
  {
    WordIsPow2();
    AndLowMask(b, 7);
    AndTopBit(b, 7);
  }

  // ----- varints

  /** A multiple of p, cut off at p * q. */
  lemma ScaledMod(x: nat, p: nat, q: nat, val: nat)
    requires p >= 1 && q >= 1 && val < p
    ensures (val + x * p) % (p * q) == val + (x % q) * p
  {
    var y := x % q;
    assert x == q * (x / q) + y;
    assert (q * (x / q)) * p == (p * q) * (x / q);
    assert (q * (x / q) + y) * p == (q * (x / q)) * p + y * p;
    MulGrows(p, y, q - 1);
    assert p * (q - 1) == p * q - p;
    ModUnique(val + x * p, p * q, x / q, val + y * p);
  }

  /** The loop's step: or-ing the next group in adds it, with overflow dropped. */
  lemma GroupShift(val: nat, x: nat, i: nat)
    requires i <= 9 && val < Pow2(7 * i)
    ensures BitOr(val, Shl64(x, 7 * i)) == (val + x * Pow2(7 * i)) % WORD
  {
    var s := 7 * i;
    var p, q := Pow2(s), Pow2(64 - s);
    WordIsPow2();
    Pow2Sum(s, 64 - s);
    ScaledMod(x, p, q, val);
    ScaledMod(x, p, q, 0);
    OrDisjoint(val, x % q, s);
  }

  lemma {:induction false} Base128Bound(bs: seq<Byte>)
    ensures Base128(bs) < Pow2(7 * |bs|)
  {
    if bs != [] {
      Base128Bound(bs[1..]);
      WordIsPow2();
      Pow2Sum(7, 7 * (|bs| - 1));
    }
  }

  lemma {:induction false} Base128Snoc(bs: seq<Byte>, b: Byte)
    ensures Base128(bs + [b]) == Base128(bs) + (b % 128) * Pow2(7 * |bs|)
  {
    if bs == [] {
      assert [] + [b] == [b];
      assert Base128([b]) == b % 128 + 128 * Base128([]);
    } else {
      assert (bs + [b])[1..] == bs[1..] + [b];
      Base128Snoc(bs[1..], b);
      WordIsPow2();
      Pow2Sum(7, 7 * (|bs| - 1));
      assert 128 * ((b % 128) * Pow2(7 * (|bs| - 1))) == (b % 128) * (128 * Pow2(7 * (|bs| - 1)));
    }
  }

  lemma TailVarint(bs: seq<Byte>)
    requires IsVarint(bs) && |bs| > 1
    ensures IsVarint(bs[1..])
  {
  }

  /** VarintLen finds a varint exactly when data starts with one. */
  lemma {:induction false} VarintLenMeaning(data: seq<Byte>, budget: nat)
    requires budget <= 10
    ensures var n := VarintLen(data, budget);
            (n > 0 ==> IsVarint(data[..n])) &&
            (forall k :: 1 <= k <= |data| && k <= budget && IsVarint(data[..k]) ==> n == k)
  {
    if data != [] && budget > 0 && data[0] >= 128 {
      var n := VarintLen(data[1..], budget - 1);
      VarintLenMeaning(data[1..], budget - 1);
      if n > 0 { assert data[..n + 1] == [data[0]] + data[1..][..n]; }
      forall k | 1 <= k <= |data| && k <= budget && IsVarint(data[..k]) ensures VarintLen(data, budget) == k {
        assert data[..k][0] == data[0];
        assert k > 1;
        assert data[1..][..k - 1] == data[..k][1..];
        TailVarint(data[..k]);
      }
    } else if data != [] && budget > 0 {
      forall k | 1 <= k <= |data| && k <= budget && IsVarint(data[..k]) ensures k == 1 {
        assert data[..k][0] == data[0];
      }
    }
  }

  lemma ShortPower(n: nat)
    requires n <= 1
    ensures Pow2(7 * n) <= 128
  {
    WordIsPow2();
  }

  /** An encoding of more than one byte. */
  lemma EncStep(v: nat) returns (tail: seq<Byte>)
    requires v >= 128
    ensures tail == EncVarint(v / 128) && EncVarint(v) == [v % 128 + 128] + tail
  {
    tail := EncVarint(v / 128);
  }

  lemma {:induction false} EncValue(v: nat)
    ensures Base128(EncVarint(v)) == v
  {
    if v < 128 {
      assert Base128([v]) == v % 128 + 128 * Base128([v][1..]);
    } else {
      EncValue(v / 128);
      var tail := EncStep(v);
      assert ([v % 128 + 128] + tail)[1..] == tail;
    }
  }

  lemma ContinuedCons(b: Byte, bs: seq<Byte>)
    requires b >= 128 && Continued(bs)
    ensures Continued([b] + bs)
  {
  }

  lemma {:induction false} EncContinued(v: nat)
    ensures Continued(EncVarint(v))
  {
    if v >= 128 {
      EncContinued(v / 128);
      var tail := EncStep(v);
      ContinuedCons(v % 128 + 128, tail);
    }
  }

  lemma {:induction false} EncLength(v: nat, n: nat)
    requires v < Pow2(7 * n)
    ensures |EncVarint(v)| <= (if n == 0 then 1 else n)
    decreases v
  {
    if v >= 128 {
      if n <= 1 { ShortPower(n); }
      WordIsPow2();
      Pow2Sum(7, 7 * (n - 1));
      EncLength(v / 128, n - 1);
      var tail := EncStep(v);
    }
  }

  lemma EncIsVarint(v: nat, n: nat)
    requires v < Pow2(7 * n)
    ensures |EncVarint(v)| <= (if n == 0 then 1 else n)
    ensures Base128(EncVarint(v)) == v && Continued(EncVarint(v))
  {
    EncLength(v, n);
    EncValue(v);
    EncContinued(v);
  }

  /** Every 64-bit value survives encoding and decoding, whatever follows it. */
  lemma VarintRoundTrip(v: nat, rest: seq<Byte>)
    requires v < WORD
    ensures Varint(EncVarint(v) + rest) == (v, |EncVarint(v)|)
  {
    var e := EncVarint(v);
    WordIsPow2();
    Pow2Sum(64, 6);
    EncIsVarint(v, 10);
    var data := e + rest;
    assert data[..|e|] == e;
    VarintLenMeaning(data, 10);
  }

  // ----- fields

  lemma {:induction false} LeRoundTrip(v: nat, n: nat)
    requires v < Pow2(8 * n)
    ensures FromLe(ToLe(v, n)) == v
  {
    if n == 0 {
      assert Pow2(0) == 1;
    } else {
      assert Pow2(8) == 256;
      Pow2Sum(8, 8 * (n - 1));
      LeRoundTrip(v / 256, n - 1);
      assert ToLe(v, n)[1..] == ToLe(v / 256, n - 1);
    }
  }

  lemma TagShift(num: nat)
    requires num < 0x2000_0000_0000_0000
    ensures Shl64(num, 3) == 8 * num && Pow2(3) == 8
  {
    assert Pow2(3) == 8;
  }

  lemma {:induction false} OrCommutes(a: nat, b: nat)
    ensures BitOr(a, b) == BitOr(b, a)
  {
    if a > 0 && b > 0 { OrCommutes(a / 2, b / 2); }
  }

  lemma TagValue(num: nat, wireType: nat)
    requires num < 0x2000_0000_0000_0000 && wireType < 8
    ensures Tag(num, wireType) == 8 * num + wireType && Tag(num, wireType) < WORD
    ensures Tag(num, wireType) % 8 == wireType && Tag(num, wireType) / 8 == num
  {
    TagShift(num);
    OrCommutes(8 * num, wireType);
    OrDisjoint(wireType, num, 3);
    ModUnique(8 * num + wireType, 8, num, wireType);
  }

  lemma WordLengths()
    ensures Pow2(8 * 8) == WORD && Pow2(8 * 4) == 0x1_0000_0000
  {
    WordIsPow2();
    assert Pow2(8) == 256;
    Pow2Sum(8, 8);
    Pow2Sum(16, 16);
  }

  lemma Split(a: seq<Byte>, b: seq<Byte>, c: seq<Byte>)
    ensures (a + b) + c == a + (b + c)
    ensures (a + (b + c))[|a|..] == b + c
  {
  }

  /** A tag followed by a value that parses. */
  lemma TaggedRoundTrip(f: Field, wireType: nat, body: seq<Byte>, rest: seq<Byte>)
    requires f.num < 0x2000_0000_0000_0000 && wireType < 8
    requires ParseValue(f.num, wireType, body + rest) == Some((f, |body|))
    ensures ParseField((EncVarint(Tag(f.num, wireType)) + body) + rest) ==
            Some((f, |EncVarint(Tag(f.num, wireType)) + body|))
  {
    TagValue(f.num, wireType);
    Split(EncVarint(Tag(f.num, wireType)), body, rest);
    VarintRoundTrip(Tag(f.num, wireType), body + rest);
  }

  lemma WordRoundTrip(bits: nat, n: nat, rest: seq<Byte>)
    requires bits < Pow2(8 * n)
    ensures FromLe((ToLe(bits, n) + rest)[..n]) == bits
  {
    assert (ToLe(bits, n) + rest)[..n] == ToLe(bits, n);
    LeRoundTrip(bits, n);
  }

  lemma BytesRoundTrip(num: nat, payload: seq<Byte>, rest: seq<Byte>)
    requires Encodable(Bytes(num, payload))
    ensures ParseValue(num, 2, (EncVarint(|payload|) + payload) + rest)
         == Some((Bytes(num, payload), |EncVarint(|payload|) + payload|))
  {
    var l := EncVarint(|payload|);
    Split(l, payload, rest);
    VarintRoundTrip(|payload|, payload + rest);
    assert (l + (payload + rest))[|l|..|l| + |payload|] == payload;
  }

  lemma VarintFieldRoundTrip(f: Field, rest: seq<Byte>)
    requires Encodable(f) && f.VarintField?
    ensures ParseField(EncodeField(f) + rest) == Some((f, |EncodeField(f)|))
  {
    VarintRoundTrip(f.value, rest);
    TaggedRoundTrip(f, 0, EncVarint(f.value), rest);
  }

  lemma WordFieldRoundTrip(f: Field, rest: seq<Byte>)
    requires Encodable(f) && (f.Fixed64? || f.Fixed32?)
    ensures ParseField(EncodeField(f) + rest) == Some((f, |EncodeField(f)|))
  {
    WordLengths();
    if f.Fixed64? {
      WordRoundTrip(f.bits, 8, rest);
      TaggedRoundTrip(f, 1, ToLe(f.bits, 8), rest);
    } else {
      WordRoundTrip(f.bits, 4, rest);
      TaggedRoundTrip(f, 5, ToLe(f.bits, 4), rest);
    }
  }

  lemma BytesFieldRoundTrip(f: Field, rest: seq<Byte>)
    requires Encodable(f) && f.Bytes?
    ensures ParseField(EncodeField(f) + rest) == Some((f, |EncodeField(f)|))
  {
    BytesRoundTrip(f.num, f.payload, rest);
    TaggedRoundTrip(f, 2, EncVarint(|f.payload|) + f.payload, rest);
    assert EncodeField(f) == EncVarint(Tag(f.num, 2)) + (EncVarint(|f.payload|) + f.payload);
  }

  lemma FieldRoundTrip(f: Field, rest: seq<Byte>)
    requires Encodable(f)
    ensures ParseField(EncodeField(f) + rest) == Some((f, |EncodeField(f)|))
  {
    match f
    case VarintField(_, _) => VarintFieldRoundTrip(f, rest);
    case Bytes(_, _) => BytesFieldRoundTrip(f, rest);
    case _ => WordFieldRoundTrip(f, rest);
  }

  /** Every message of encodable fields parses back to exactly its fields. */
  lemma {:induction false} MessageRoundTrip(fs: seq<Field>)
    requires forall i :: 0 <= i < |fs| ==> Encodable(fs[i])
    ensures ParseFields(EncodeFields(fs)) == fs && ParsesFully(EncodeFields(fs))
  {
    if fs != [] {
      var e, rest := EncodeField(fs[0]), EncodeFields(fs[1..]);
      FieldRoundTrip(fs[0], rest);
      MessageRoundTrip(fs[1..]);
      assert (e + rest)[|e|..] == rest;
      assert fs == [fs[0]] + fs[1..];
    }
  }

  /** What a submessage contributes is its direct floats only. */
  lemma NestedMessage(num: nat, sub: seq<Field>)
    requires forall i :: 0 <= i < |sub| ==> Encodable(sub[i])
    ensures NestedFloats(Bytes(num, EncodeFields(sub))) == ShallowFloats(sub)
  {
    MessageRoundTrip(sub);
  }

  // ----- structure

  /** A field given outright, or a submessage by its own fields. */
  datatype Part = Plain(field: Field) | Message(num: nat, fields: seq<Field>)

  function AsField(p: Part): Field {
    match p
    case Plain(f) => f
    case Message(num, fs) => Bytes(num, EncodeFields(fs))
  }

  function AsFields(parts: seq<Part>): seq<Field> {
    if parts == [] then [] else [AsField(parts[0])] + AsFields(parts[1..])
  }

  /** What a part is worth: its own kept float, or the kept floats directly in
      the submessage, not those of a submessage of that. Bytes that were not
      meant as a message are read as one all the same. */
  function PartFloats(p: Part): seq<real> {
    match p
    case Plain(f) => if f.Bytes? then ShallowFloats(ParseFields(f.payload)) else DirectFloats(f)
    case Message(_, fs) => ShallowFloats(fs)
  }

  function AllFloats(parts: seq<Part>): seq<real> {
    if parts == [] then [] else PartFloats(parts[0]) + AllFloats(parts[1..])
  }

  predicate Sendable(p: Part) {
    Encodable(AsField(p)) && (p.Message? ==> forall i :: 0 <= i < |p.fields| ==> Encodable(p.fields[i]))
  }

  lemma {:induction false} FieldsOfParts(parts: seq<Part>)
    requires forall i :: 0 <= i < |parts| ==> Sendable(parts[i])
    ensures forall i :: 0 <= i < |AsFields(parts)| ==> Encodable(AsFields(parts)[i])
  {
    if parts != [] { FieldsOfParts(parts[1..]); }
  }

  lemma FloatsOfPart(p: Part)
    requires Sendable(p)
    ensures NestedFloats(AsField(p)) == PartFloats(p)
  {
    if p.Message? { NestedMessage(p.num, p.fields); }
  }

  lemma {:induction false} FloatsOfParts(parts: seq<Part>)
    requires forall i :: 0 <= i < |parts| ==> Sendable(parts[i])
    ensures TopFloats(AsFields(parts)) == AllFloats(parts)
  {
    if parts != [] {
      FloatsOfParts(parts[1..]);
      FloatsOfPart(parts[0]);
      assert ([AsField(parts[0])] + AsFields(parts[1..]))[1..] == AsFields(parts[1..]);
    }
  }

  /** The extractor finds, in the encoding of a message, the kept floats of its
      fields and of its submessages, in field order, exactly one level down. */
  lemma ExtractOfMessage(parts: seq<Part>)
    requires forall i :: 0 <= i < |parts| ==> Sendable(parts[i])
    ensures TopFloats(ParseFields(EncodeFields(AsFields(parts)))) == AllFloats(parts)
  {
    FieldsOfParts(parts);
    MessageRoundTrip(AsFields(parts));
    FloatsOfParts(parts);
  }

  lemma VarintPrefix(data: seq<Byte>, more: seq<Byte>)
    requires Varint(data).1 > 0
    ensures Varint(data + more) == Varint(data)
  {
    var n := Varint(data).1;
    VarintLenMeaning(data, 10);
    VarintLenMeaning(data + more, 10);
    assert (data + more)[..n] == data[..n];
  }

  lemma ValuePrefix(num: nat, wireType: nat, rest: seq<Byte>, more: seq<Byte>)
    requires ParseValue(num, wireType, rest).Some?
    ensures ParseValue(num, wireType, rest + more) == ParseValue(num, wireType, rest)
  {
    match wireType
    case 0 => VarintPrefix(rest, more);
    case 1 => assert (rest + more)[..8] == rest[..8];
    case 2 =>
      VarintPrefix(rest, more);
      var (len, m) := Varint(rest);
      assert (rest + more)[m..m + len] == rest[m..m + len];
    case 5 => assert (rest + more)[..4] == rest[..4];
    case _ =>
  }

  /** A field that can be read is read the same whatever follows. */
  lemma FieldPrefix(data: seq<Byte>, more: seq<Byte>)
    requires ParseField(data).Some?
    ensures ParseField(data + more) == ParseField(data)
  {
    VarintPrefix(data, more);
    var (tag, n) := Varint(data);
    assert (data + more)[n..] == data[n..] + more;
    ValuePrefix(tag / 8, tag % 8, data[n..], more);
  }

  lemma {:induction false} ParseConcat(a: seq<Byte>, b: seq<Byte>)
    requires ParsesFully(a)
    ensures ParseFields(a + b) == ParseFields(a) + ParseFields(b)
  {
    if a == [] {
      assert a + b == b;
    } else {
      FieldPrefix(a, b);
      var f := ParseField(a).value;
      assert (a + b)[f.1..] == a[f.1..] + b;
      ParseConcat(a[f.1..], b);
    }
  }

  lemma {:induction false} TopFloatsConcat(a: seq<Field>, b: seq<Field>)
    ensures TopFloats(a + b) == TopFloats(a) + TopFloats(b)
  {
    if a == [] {
      assert a + b == b;
    } else {
      assert (a + b)[1..] == a[1..] + b;
      TopFloatsConcat(a[1..], b);
    }
  }

  /** After a part that parses fully, extraction starts afresh. */
  lemma ExtractConcat(a: seq<Byte>, b: seq<Byte>)
    requires ParsesFully(a)
    ensures TopFloats(ParseFields(a + b)) == TopFloats(ParseFields(a)) + TopFloats(ParseFields(b))
  {
    ParseConcat(a, b);
    TopFloatsConcat(ParseFields(a), ParseFields(b));
  }

  /** a can be had from b by leaving elements out. */
  ghost predicate Subsequence(a: seq<real>, b: seq<real>) {
    a == [] || (b != [] && ((a[0] == b[0] && Subsequence(a[1..], b[1..])) || Subsequence(a, b[1..])))
  }

  lemma {:induction false} SubsequenceAfter(a: seq<real>, skip: seq<real>, b: seq<real>)
    requires Subsequence(a, b)
    ensures Subsequence(a, skip + b)
  {
    if skip == [] {
      assert skip + b == b;
    } else {
      assert (skip + b)[1..] == skip[1..] + b;
      SubsequenceAfter(a, skip[1..], b);
    }
  }

  lemma SubsequenceBoth(x: real, a: seq<real>, b: seq<real>)
    requires Subsequence(a, b)
    ensures Subsequence([x] + a, [x] + b)
  {
    assert ([x] + a)[1..] == a && ([x] + b)[1..] == b;
  }

  /** The shallow walk sees some of what the top-level walk sees, in order. */
  lemma {:induction false} ShallowIsSubsequence(fs: seq<Field>)
    ensures Subsequence(ShallowFloats(fs), TopFloats(fs))
  {
    if fs != [] {
      ShallowIsSubsequence(fs[1..]);
      var direct, nested := DirectFloats(fs[0]), NestedFloats(fs[0]);
      if direct == [] {
        SubsequenceAfter(ShallowFloats(fs[1..]), nested, TopFloats(fs[1..]));
        assert [] + ShallowFloats(fs[1..]) == ShallowFloats(fs[1..]);
      } else {
        assert direct == [direct[0]];
        SubsequenceBoth(direct[0], ShallowFloats(fs[1..]), TopFloats(fs[1..]));
      }
    }
  }

  lemma FieldCost(data: seq<Byte>)
    requires ParseField(data).Some?
    ensures var f := ParseField(data).value;
            5 * |DirectFloats(f.0)| <= f.1 && (f.0.Bytes? ==> |f.0.payload| <= f.1)
  {
  }

  lemma {:induction false} ShallowCost(data: seq<Byte>)
    ensures 5 * |ShallowFloats(ParseFields(data))| <= |data|
  {
    if ParseField(data).Some? {
      var f := ParseField(data).value;
      ShallowCost(data[f.1..]);
      assert ([f.0] + ParseFields(data[f.1..]))[1..] == ParseFields(data[f.1..]);
      FieldCost(data);
    }
  }

  /** Every float takes at least a tag byte and four bytes of value. */
  lemma {:induction false} ExtractCost(data: seq<Byte>)
    ensures 5 * |TopFloats(ParseFields(data))| <= |data|
  {
    if ParseField(data).Some? {
      var f := ParseField(data).value;
      ExtractCost(data[f.1..]);
      assert ([f.0] + ParseFields(data[f.1..]))[1..] == ParseFields(data[f.1..]);
      FieldCost(data);
      if f.0.Bytes? { ShallowCost(f.0.payload); }
    }
  }
}
