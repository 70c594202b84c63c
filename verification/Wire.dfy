/** The protobuf wire format as the parity checker reads it: varints, fields,
    and the floats of a message, one level of submessages deep. */
module Wire {

  type Byte = x: int | 0 <= x < 256

  const WORD: nat := 0x1_0000_0000_0000_0000

  function Pow2(n: nat): (p: nat)
    ensures p >= 1
  {
    if n == 0 then 1 else 2 * Pow2(n - 1)
  }

  // ----- bitwise operations on naturals

  function BitOr(a: nat, b: nat): nat {
    if a == 0 then b
    else if b == 0 then a
    else (if a % 2 == 1 || b % 2 == 1 then 1 else 0) + 2 * BitOr(a / 2, b / 2)
  }

  function BitAnd(a: nat, b: nat): nat {
    if a == 0 || b == 0 then 0
    else (if a % 2 == 1 && b % 2 == 1 then 1 else 0) + 2 * BitAnd(a / 2, b / 2)
  }

  /** A left shift of a 64-bit word. */
  function Shl64(x: nat, s: nat): nat { (x * Pow2(s)) % WORD }

  // ----- varints

  /** Base 128, least significant group first, continuation bits ignored. */
  function Base128(bs: seq<Byte>): nat {
    if bs == [] then 0 else bs[0] % 128 + 128 * Base128(bs[1..])
  }

  /** All bytes but the last have the continuation bit. */
  ghost predicate Continued(bs: seq<Byte>) {
    bs != [] && bs[|bs| - 1] < 128 && forall i :: 0 <= i < |bs| - 1 ==> bs[i] >= 128
  }

  /** One varint: one to ten bytes. */
  ghost predicate IsVarint(bs: seq<Byte>) {
    |bs| <= 10 && Continued(bs)
  }

  /** The length of the varint data starts with, or 0. */
  function VarintLen(data: seq<Byte>, budget: nat): (n: nat)
    ensures n <= |data| && n <= budget
  {
    if data == [] || budget == 0 then 0
    else if data[0] < 128 then 1
    else
      var n := VarintLen(data[1..], budget - 1);
      if n == 0 then 0 else n + 1
  }

  /** The value and length of the varint data starts with; (0, 0) without one. */
  function Varint(data: seq<Byte>): (r: (nat, nat))
    ensures r.1 <= |data| && r.0 < WORD
  {
    var n := VarintLen(data, 10);
    if n == 0 then (0, 0) else (Base128(data[..n]) % WORD, n)
  }

  function EncVarint(v: nat): (bs: seq<Byte>)
    ensures |bs| >= 1
  {
    if v < 128 then [v] else [v % 128 + 128] + EncVarint(v / 128)
  }

  // ----- little-endian words

  function FromLe(bs: seq<Byte>): nat {
    if bs == [] then 0 else bs[0] + 256 * FromLe(bs[1..])
  }

  function ToLe(v: nat, n: nat): (bs: seq<Byte>)
    ensures |bs| == n
  {
    if n == 0 then [] else [v % 256] + ToLe(v / 256, n - 1)
  }

  // ----- fields

  datatype Option<+T> = None | Some(value: T)

  datatype Field =
    | VarintField(num: nat, value: nat)
    | Fixed64(num: nat, bits: nat)
    | Bytes(num: nat, payload: seq<Byte>)
    | Fixed32(num: nat, bits: nat)

  /** What follows a tag: the field and the length of its value. None if it is
      cut short or of an unknown wire type. */
  function ParseValue(num: nat, wireType: nat, rest: seq<Byte>): (r: Option<(Field, nat)>)
    ensures r.Some? ==> 1 <= r.value.1 <= |rest|
  {
    match wireType
    case 0 =>
      var (v, m) := Varint(rest);
      if m == 0 then None else Some((VarintField(num, v), m))
    case 1 =>
      if |rest| < 8 then None else Some((Fixed64(num, FromLe(rest[..8])), 8))
    case 2 =>
      var (len, m) := Varint(rest);
      if m == 0 || len > |rest| - m then None else Some((Bytes(num, rest[m..m + len]), m + len))
    case 5 =>
      if |rest| < 4 then None else Some((Fixed32(num, FromLe(rest[..4])), 4))
    case _ => None
  }

  /** The first field of data and its length. */
  function ParseField(data: seq<Byte>): (r: Option<(Field, nat)>)
    ensures r.Some? ==> 2 <= r.value.1 <= |data|
  {
    var (tag, n) := Varint(data);
    if n == 0 then None
    else
      match ParseValue(tag / 8, tag % 8, data[n..])
      case None => None
      case Some(v) => Some((v.0, n + v.1))
  }

  /** The fields data starts with, as many as can be read. */
  function ParseFields(data: seq<Byte>): seq<Field> {
    match ParseField(data)
    case None => []
    case Some(f) => [f.0] + ParseFields(data[f.1..])
  }

  predicate ParsesFully(data: seq<Byte>) {
    data == [] ||
    match ParseField(data)
    case None => false
    case Some(f) => ParsesFully(data[f.1..])
  }

  function Tag(num: nat, wireType: nat): nat { BitOr(Shl64(num, 3), wireType) }

  function EncodeField(f: Field): seq<Byte> {
    match f
    case VarintField(num, v) => EncVarint(Tag(num, 0)) + EncVarint(v)
    case Fixed64(num, bits) => EncVarint(Tag(num, 1)) + ToLe(bits, 8)
    case Bytes(num, payload) => EncVarint(Tag(num, 2)) + EncVarint(|payload|) + payload
    case Fixed32(num, bits) => EncVarint(Tag(num, 5)) + ToLe(bits, 4)
  }

  function EncodeFields(fs: seq<Field>): seq<Byte> {
    if fs == [] then [] else EncodeField(fs[0]) + EncodeFields(fs[1..])
  }

  /** Field numbers, values, words and lengths that fit the format. */
  predicate Encodable(f: Field) {
    f.num < 0x2000_0000_0000_0000 &&
    match f
    case VarintField(_, v) => v < WORD
    case Fixed64(_, bits) => bits < WORD
    case Bytes(_, payload) => |payload| < WORD
    case Fixed32(_, bits) => bits < 0x1_0000_0000
  }

  // ----- floats

  function RealPow2(e: int): real
    decreases if e < 0 then -e else e
  {
    if e == 0 then 1.0 else if e > 0 then 2.0 * RealPow2(e - 1) else RealPow2(e + 1) / 2.0
  }

  /** The size of the value with the given exponent and fraction. */
  function Magnitude(exp: nat, frac: nat, expBits: nat, fracBits: nat): real
    requires expBits >= 1
  {
    var bias := Pow2(expBits - 1) - 1;
    if exp == 0 then frac as real * RealPow2(1 - bias - fracBits)
    else (Pow2(fracBits) + frac) as real * RealPow2(exp - bias - fracBits)
  }

  /** The value of the parts of a word; None for infinities and NaNs. */
  function FromParts(negative: bool, exp: nat, frac: nat, expBits: nat, fracBits: nat): Option<real>
    requires expBits >= 1
  {
    var magnitude := Magnitude(exp, frac, expBits, fracBits);
    if exp == Pow2(expBits) - 1 then None else Some(if negative then 0.0 - magnitude else magnitude)
  }

  /** The IEEE 754 value of a word with the given widths of exponent and
      fraction (section 3.4 of IEEE 754-2019). */
  function Ieee(bits: nat, expBits: nat, fracBits: nat): Option<real>
    requires expBits >= 1
  {
    var sign, exp := (bits / Pow2(fracBits + expBits)) % 2, (bits / Pow2(fracBits)) % Pow2(expBits);
    FromParts(sign == 1, exp, bits % Pow2(fracBits), expBits, fracBits)
  }

  /** A float worth comparing: a number of magnitude below 1e15. */
  function Kept(v: Option<real>): (r: seq<real>)
    ensures |r| <= 1
  {
    match v
    case None => []
    case Some(x) => if -1000000000000000.0 < x < 1000000000000000.0 then [x] else []
  }

  function Kept64(bits: nat): (r: seq<real>)
    ensures |r| <= 1
  {
    Kept(Ieee(bits, 11, 52))
  }

  function Kept32(bits: nat): (r: seq<real>)
    ensures |r| <= 1
  {
    Kept(Ieee(bits, 8, 23))
  }

  /** The floats a field holds itself. */
  function DirectFloats(f: Field): (r: seq<real>)
    ensures |r| <= 1
  {
    match f
    case Fixed64(_, bits) => Kept64(bits)
    case Fixed32(_, bits) => Kept32(bits)
    case _ => []
  }

  function ShallowFloats(fs: seq<Field>): seq<real> {
    if fs == [] then [] else DirectFloats(fs[0]) + ShallowFloats(fs[1..])
  }

  /** The floats of a field and of the fields one level down. */
  function NestedFloats(f: Field): seq<real> {
    match f
    case Bytes(_, payload) => ShallowFloats(ParseFields(payload))
    case _ => DirectFloats(f)
  }

  function TopFloats(fs: seq<Field>): seq<real> {
    if fs == [] then [] else NestedFloats(fs[0]) + TopFloats(fs[1..])
  }
}
