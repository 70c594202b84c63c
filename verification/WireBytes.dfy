/** Which bytes are a field, and which floats bytes hold, without the parser:
    tags, lengths and words spelled out byte by byte. */
module WireBytes {
  import opened Arithmetic
  import opened Wire
  import opened WireProofs
  import opened FloatValues

  // ----- the weight of every byte

  lemma FromLeCons(b: Byte, bs: seq<Byte>)
    ensures FromLe([b] + bs) == b + 0x100 * FromLe(bs)
  {
    assert ([b] + bs)[1..] == bs;
  }

  lemma LittleFour(bs: seq<Byte>)
    requires |bs| == 4
    ensures FromLe(bs) == bs[0] as int + 0x100 * bs[1] as int + 0x1_0000 * bs[2] as int + 0x100_0000 * bs[3] as int
  {
    assert bs == [bs[0]] + ([bs[1]] + ([bs[2]] + [bs[3]]));
    assert FromLe([bs[3]]) == bs[3] + 256 * FromLe([]);
    FromLeCons(bs[2], [bs[3]]);
    FromLeCons(bs[1], [bs[2]] + [bs[3]]);
    FromLeCons(bs[0], [bs[1]] + ([bs[2]] + [bs[3]]));
  }

  lemma {:induction false} FromLeConcat(a: seq<Byte>, b: seq<Byte>)
    requires |a| == 4
    ensures FromLe(a + b) == FromLe(a) + 0x1_0000_0000 * FromLe(b)
  {
    assert a + b == [a[0]] + ([a[1]] + ([a[2]] + ([a[3]] + b)));
    LittleFour(a);
    FromLeCons(a[3], b);
    FromLeCons(a[2], [a[3]] + b);
    FromLeCons(a[1], [a[2]] + ([a[3]] + b));
    FromLeCons(a[0], [a[1]] + ([a[2]] + ([a[3]] + b)));
  }

  lemma LittleEight(bs: seq<Byte>)
    requires |bs| == 8
    ensures FromLe(bs) ==
      bs[0] as int + 0x100 * bs[1] as int + 0x1_0000 * bs[2] as int + 0x100_0000 * bs[3] as int +
      0x1_0000_0000 * (bs[4] as int + 0x100 * bs[5] as int + 0x1_0000 * bs[6] as int + 0x100_0000 * bs[7] as int)
  {
    assert bs == bs[..4] + bs[4..];
    FromLeConcat(bs[..4], bs[4..]);
    LittleFour(bs[..4]);
    LittleFour(bs[4..]);
  }

  // ----- the bytes of a field

  /** A varint of the tag's value, modulo 2^64, in the first n bytes. */
  ghost predicate Tagged(bs: seq<Byte>, n: nat, num: nat, wireType: nat)
    requires n <= |bs|
  {
    IsVarint(bs[..n]) && wireType < 8 && Base128(bs[..n]) % 0x1_0000_0000_0000_0000 == 8 * num + wireType
  }

  /** One value after its tag: a varint; eight bytes; a length, as a varint, and
      as many bytes; four bytes. */
  ghost predicate FieldForm(bs: seq<Byte>, n: nat, m: nat, f: Field) {
    n <= m <= |bs| &&
    match f
    case VarintField(num, v) =>
      Tagged(bs, n, num, 0) && m == |bs| && IsVarint(bs[n..]) && v == Base128(bs[n..]) % 0x1_0000_0000_0000_0000
    case Fixed64(num, bits) => Tagged(bs, n, num, 1) && m == |bs| == n + 8 && bits == FromLe(bs[n..])
    case Bytes(num, payload) =>
      Tagged(bs, n, num, 2) && IsVarint(bs[n..m]) &&
      Base128(bs[n..m]) % 0x1_0000_0000_0000_0000 == |payload| && payload == bs[m..]
    case Fixed32(num, bits) => Tagged(bs, n, num, 5) && m == |bs| == n + 4 && bits == FromLe(bs[n..])
  }

  lemma VarintAt(data: seq<Byte>, n: nat)
    requires n <= |data|
    ensures IsVarint(data[..n]) ==> n > 0 && Varint(data) == (Base128(data[..n]) % WORD, n)
    ensures Varint(data).1 > 0 ==>
      IsVarint(data[..Varint(data).1]) && Varint(data).0 == Base128(data[..Varint(data).1]) % WORD
  {
    VarintLenMeaning(data, 10);
  }

  lemma TagParts(tag: nat, num: nat, wireType: nat)
    requires wireType < 8
    ensures tag == 8 * num + wireType <==> tag / 8 == num && tag % 8 == wireType
  {
    if tag == 8 * num + wireType { ModUnique(tag, 8, num, wireType); }
  }

  /** What the parser reads is a field in form. */
  lemma ParsedHasForm(data: seq<Byte>) returns (n: nat, m: nat)
    requires ParseField(data).Some?
    ensures var (f, len) := ParseField(data).value; FieldForm(data[..len], n, m, f)
  {
    hide IsVarint, Base128, FromLe;
    var (f, len) := ParseField(data).value;
    var (tag, k) := Varint(data);
    VarintAt(data, 0);
    n, m := k, len;
    var rest := data[k..];
    assert data[..len][..n] == data[..n];
    assert data[..len][n..] == rest[..len - n];
    TagParts(tag, tag / 8, tag % 8);
    VarintAt(rest, 0);
    if tag % 8 == 2 {
      var (l, j) := Varint(rest);
      m := n + j;
      assert data[..len][n..m] == rest[..j];
      assert data[..len][m..] == rest[j..j + l];
    }
  }

  /** And every field in form is read, whatever follows. */
  lemma FormIsParsed(bs: seq<Byte>, n: nat, m: nat, f: Field, more: seq<Byte>)
    requires FieldForm(bs, n, m, f)
    ensures ParseField(bs + more) == Some((f, |bs|))
  {
    hide IsVarint, Base128, FromLe;
    var data := bs + more;
    var rest := data[n..];
    assert data[..n] == bs[..n];
    assert rest == bs[n..] + more;
    VarintAt(data, n);
    var tag := Varint(data).0;
    match f
    case VarintField(num, v) =>
      TagParts(tag, num, 0);
      assert rest[..|bs| - n] == bs[n..];
      VarintAt(rest, |bs| - n);
    case Fixed64(num, bits) =>
      TagParts(tag, num, 1);
      assert rest[..8] == bs[n..];
    case Bytes(num, payload) =>
      TagParts(tag, num, 2);
      assert rest[..m - n] == bs[n..m];
      VarintAt(rest, m - n);
      assert rest[m - n..m - n + |payload|] == bs[m..];
    case Fixed32(num, bits) =>
      TagParts(tag, num, 5);
      assert rest[..4] == bs[n..];
  }

  /** The parser reads a field from data exactly if data starts with its bytes. */
  lemma ParsesExactly(data: seq<Byte>, f: Field, len: nat)
    requires len <= |data|
    ensures ParseField(data) == Some((f, len)) <==> exists n, m :: FieldForm(data[..len], n, m, f)
  {
    if ParseField(data) == Some((f, len)) {
      var n, m := ParsedHasForm(data);
      assert FieldForm(data[..len], n, m, f);
    }
    if n, m :| FieldForm(data[..len], n, m, f) {
      FormIsParsed(data[..len], n, m, f, data[len..]);
      assert data[..len] + data[len..] == data;
    }
  }

  // ----- the floats of bytes

  lemma NothingParses()
    ensures ParseFields([]) == []
  {
  }

  lemma FieldsOf(bs: seq<Byte>, f: Field)
    requires ParseField(bs) == Some((f, |bs|)) && ParseFields(bs[|bs|..]) == []
    ensures ParseFields(bs) == [f]
    ensures TopFloats([f]) == NestedFloats(f) && ShallowFloats([f]) == DirectFloats(f)
  {
    hide NestedFloats, DirectFloats, ParseField;
    assert [f][1..] == [];
    assert TopFloats([]) == [] && ShallowFloats([]) == [];
  }

  lemma OneField(bs: seq<Byte>, n: nat, m: nat, f: Field)
    requires FieldForm(bs, n, m, f)
    ensures ParseFields(bs) == [f]
    ensures TopFloats(ParseFields(bs)) == NestedFloats(f) && ShallowFloats(ParseFields(bs)) == DirectFloats(f)
  {
    hide FieldForm;
    FormIsParsed(bs, n, m, f, []);
    assert bs + [] == bs;
    assert bs[|bs|..] == [];
    NothingParses();
    FieldsOf(bs, f);
  }

  lemma TagBytes(num: nat, wireType: nat, body: seq<Byte>) returns (n: nat)
    requires num < 0x2000_0000_0000_0000 && wireType < 8
    ensures n == |EncVarint(8 * num + wireType)|
    ensures Tagged(EncVarint(8 * num + wireType) + body, n, num, wireType)
    ensures (EncVarint(8 * num + wireType) + body)[n..] == body
  {
    hide EncVarint, Base128;
    var tag := 8 * num + wireType;
    n := |EncVarint(tag)|;
    assert (EncVarint(tag) + body)[..n] == EncVarint(tag);
    WordIsPow2();
    Pow2Sum(64, 6);
    EncIsVarint(tag, 10);
  }

  /** Tag 8 * num + 5 and four bytes: the kept single of those bytes, the least
      significant first. */
  lemma SingleOfBytes(num: nat, a: Byte, b: Byte, c: Byte, d: Byte)
    requires num < 0x2000_0000_0000_0000
    ensures var word := a as int + 0x100 * b as int + 0x1_0000 * c as int + 0x100_0000 * d as int;
      TopFloats(ParseFields(EncVarint(8 * num + 5) + [a, b, c, d])) == Kept32(word) &&
      ShallowFloats(ParseFields(EncVarint(8 * num + 5) + [a, b, c, d])) == Kept32(word)
  {
    hide EncVarint, ParseFields, TopFloats, ShallowFloats, Tagged, FromLe, Kept32;
    var bs := EncVarint(8 * num + 5) + [a, b, c, d];
    var n := TagBytes(num, 5, [a, b, c, d]);
    LittleFour([a, b, c, d]);
    OneField(bs, n, |bs|, Fixed32(num, FromLe([a, b, c, d])));
  }

  /** Tag 8 * num + 1 and eight bytes: the kept double. */
  lemma DoubleOfBytes(num: nat, bytes: seq<Byte>)
    requires num < 0x2000_0000_0000_0000 && |bytes| == 8
    ensures var word :=
        bytes[0] as int + 0x100 * bytes[1] as int + 0x1_0000 * bytes[2] as int + 0x100_0000 * bytes[3] as int +
        0x1_0000_0000 *
          (bytes[4] as int + 0x100 * bytes[5] as int + 0x1_0000 * bytes[6] as int + 0x100_0000 * bytes[7] as int);
      TopFloats(ParseFields(EncVarint(8 * num + 1) + bytes)) == Kept64(word) &&
      ShallowFloats(ParseFields(EncVarint(8 * num + 1) + bytes)) == Kept64(word)
  {
    hide EncVarint, ParseFields, TopFloats, ShallowFloats, Tagged, FromLe, Kept64;
    var bs := EncVarint(8 * num + 1) + bytes;
    var n := TagBytes(num, 1, bytes);
    LittleEight(bytes);
    OneField(bs, n, |bs|, Fixed64(num, FromLe(bytes)));
  }

  lemma AfterTag(a: seq<Byte>, b: seq<Byte>, c: seq<Byte>)
    ensures (a + (b + c))[|a|..|a| + |b|] == b && (a + (b + c))[|a| + |b|..] == c
  {
  }

  /** Tag 8 * num + 2, a length and as many bytes: at the top what those bytes
      hold read as a message, and inside a submessage nothing. */
  lemma SubmessageOfBytes(num: nat, payload: seq<Byte>)
    requires num < 0x2000_0000_0000_0000 && |payload| < 0x1_0000_0000_0000_0000
    ensures var bs := EncVarint(8 * num + 2) + (EncVarint(|payload|) + payload);
      TopFloats(ParseFields(bs)) == ShallowFloats(ParseFields(payload)) && ShallowFloats(ParseFields(bs)) == []
  {
    hide EncVarint, ParseFields, TopFloats, ShallowFloats, Tagged, Base128;
    var l := EncVarint(|payload|);
    var bs := EncVarint(8 * num + 2) + (l + payload);
    var n := TagBytes(num, 2, l + payload);
    WordIsPow2();
    Pow2Sum(64, 6);
    EncIsVarint(|payload|, 10);
    AfterTag(EncVarint(8 * num + 2), l, payload);
    OneField(bs, n, n + |l|, Bytes(num, payload));
  }

  lemma ZeroPower()
    ensures Pow2(0) == 1
  {
  }

  /** Field 1 holding -1.0 as a single. */
  lemma MinusOne()
    ensures TopFloats(ParseFields([0x0D, 0x00, 0x00, 0x80, 0xBF])) == [-1.0]
  {
    hide ParseFields, TopFloats, ShallowFloats, Ieee, Pow2, Kept32;
    assert EncVarint(13) == [13];
    assert [13] + [0x00, 0x00, 0x80, 0xBF] == [0x0D, 0x00, 0x00, 0x80, 0xBF];
    SingleOfBytes(1, 0x00, 0x00, 0x80, 0xBF);
    KeptSingles(0xBF80_0000);
    Widths();
    SignNegates(0x3F80_0000, 8, 23);
    assert Pow2(0) == 1 by { ZeroPower(); }
    IntegerWord(1, 0, 8, 23);
  }
}
