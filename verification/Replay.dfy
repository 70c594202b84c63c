/** The replay file format and its two readers: the sender's and the parity
    checker's. Both read length-prefixed records up to bounds of their own. */
module Replay {
  import opened Wire
  import opened WireProofs

  datatype Record = Record(method_: seq<Byte>, payload: seq<Byte>)

  datatype Error =
    | TruncatedMethodLength | BadMethodLength | TruncatedMethod
    | TruncatedPayloadLength | BadPayloadLength | TruncatedPayload
    | OverCap | NoRequests

  datatype Result<+T> = Ok(value: T) | Err(error: Error)

  const SENDER_MAX_METHOD: nat := 64 * 1024
  const PARITY_MAX_METHOD: nat := 1024
  const MAX_PAYLOAD: nat := 256 * 1024 * 1024
  const MAX_TOTAL: nat := 8 * 1024 * 1024 * 1024
  const OVERHEAD: nat := 64

  // ----- the format

  function FromBe(bs: seq<Byte>): nat {
    if bs == [] then 0 else FromBe(bs[..|bs| - 1]) * 256 + bs[|bs| - 1]
  }

  function ToBe(n: nat, k: nat): (bs: seq<Byte>)
    ensures |bs| == k
  {
    if k == 0 then [] else ToBe(n / 256, k - 1) + [n % 256]
  }

  function Be32(bs: seq<Byte>): nat
    requires |bs| == 4
  {
    FromBe(bs)
  }

  function ToBe32(n: nat): (bs: seq<Byte>)
    ensures |bs| == 4
  {
    ToBe(n, 4)
  }

  function SerialiseRecord(r: Record): (bs: seq<Byte>)
    ensures |bs| == 8 + |r.method_| + |r.payload|
  {
    ToBe32(|r.method_|) + r.method_ + ToBe32(|r.payload|) + r.payload
  }

  function Serialise(rs: seq<Record>): seq<Byte> {
    if rs == [] then [] else SerialiseRecord(rs[0]) + Serialise(rs[1..])
  }

  function Cost(r: Record): nat { |r.method_| + |r.payload| + OVERHEAD }

  function TotalCost(rs: seq<Record>): nat {
    if rs == [] then 0 else Cost(rs[0]) + TotalCost(rs[1..])
  }

  predicate InBounds(r: Record, maxMethod: nat) {
    1 <= |r.method_| <= maxMethod && |r.payload| <= MAX_PAYLOAD
  }

  /** A list of records a reader with this method bound has room for. */
  predicate Fits(rs: seq<Record>, maxMethod: nat, total: nat) {
    total + TotalCost(rs) <= MAX_TOTAL && forall i :: 0 <= i < |rs| ==> InBounds(rs[i], maxMethod)
  }

  // ----- the readers, one record at a time

  datatype Step = Fail(error: Error) | Next(record: Record, size: nat)

  /** The parity checker's record: the cap is checked before the payload is read. */
  function ParityStep(data: seq<Byte>, total: nat): (s: Step)
    ensures s.Next? ==> 8 <= s.size <= |data|
  {
    if |data| < 4 then Fail(TruncatedMethodLength)
    else
      var m := Be32(data[..4]);
      if m == 0 || m > PARITY_MAX_METHOD then Fail(BadMethodLength)
      else if |data| < 4 + m then Fail(TruncatedMethod)
      else if |data| < 8 + m then Fail(TruncatedPayloadLength)
      else
        var p := Be32(data[4 + m..8 + m]);
        if p > MAX_PAYLOAD then Fail(BadPayloadLength)
        else if total + m + p + OVERHEAD > MAX_TOTAL then Fail(OverCap)
        else if |data| < 8 + m + p then Fail(TruncatedPayload)
        else Next(Record(data[4..4 + m], data[8 + m..8 + m + p]), 8 + m + p)
  }

  /** The sender's: the payload is read before the cap is checked. */
  function SenderStep(data: seq<Byte>, total: nat): (s: Step)
    ensures s.Next? ==> 8 <= s.size <= |data|
  {
    if |data| < 4 then Fail(TruncatedMethodLength)
    else
      var m := Be32(data[..4]);
      if m == 0 || m > SENDER_MAX_METHOD then Fail(BadMethodLength)
      else if |data| < 4 + m then Fail(TruncatedMethod)
      else if |data| < 8 + m then Fail(TruncatedPayloadLength)
      else
        var p := Be32(data[4 + m..8 + m]);
        if p > MAX_PAYLOAD then Fail(BadPayloadLength)
        else if |data| < 8 + m + p then Fail(TruncatedPayload)
        else if total + m + p + OVERHEAD > MAX_TOTAL then Fail(OverCap)
        else Next(Record(data[4..4 + m], data[8 + m..8 + m + p]), 8 + m + p)
  }

  function StepOf(parity: bool, data: seq<Byte>, total: nat): (s: Step)
    ensures s.Next? ==> 8 <= s.size <= |data|
  {
    if parity then ParityStep(data, total) else SenderStep(data, total)
  }

  function MaxMethod(parity: bool): nat { if parity then PARITY_MAX_METHOD else SENDER_MAX_METHOD }

  /** All records of a file, or the first error. */
  function Records(parity: bool, data: seq<Byte>, total: nat): Result<seq<Record>> {
    if data == [] then Ok([])
    else
      match StepOf(parity, data, total)
      case Fail(e) => Err(e)
      case Next(r, size) =>
        match Records(parity, data[size..], total + Cost(r))
        case Err(e) => Err(e)
        case Ok(rs) => Ok([r] + rs)
  }

  /** The records with something to send. */
  function NonEmpty(rs: seq<Record>): seq<Record> {
    if rs == [] then []
    else if |rs[0].payload| == 0 then NonEmpty(rs[1..])
    else [rs[0]] + NonEmpty(rs[1..])
  }

  function ParityLoad(data: seq<Byte>): Result<seq<Record>> {
    match Records(true, data, 0)
    case Err(e) => Err(e)
    case Ok(rs) => if rs == [] then Err(NoRequests) else Ok(rs)
  }

  function SenderLoad(data: seq<Byte>): Result<seq<Record>> {
    match Records(false, data, 0)
    case Err(e) => Err(e)
    case Ok(rs) => Ok(NonEmpty(rs))
  }

  // ----- what the format is, byte by byte

  /** A length is four bytes, the most significant first. */
  lemma BigFour(bs: seq<Byte>)
    requires |bs| == 4
    ensures Be32(bs) == 0x100_0000 * bs[0] as int + 0x1_0000 * bs[1] as int + 0x100 * bs[2] as int + bs[3] as int
  {
    assert bs[..3][..2] == bs[..2] && bs[..2][..1] == bs[..1] && bs[..1][..0] == [];
    assert FromBe(bs[..1]) == bs[0] as int;
    assert FromBe(bs[..2]) == FromBe(bs[..1]) * 256 + bs[1] as int;
    assert FromBe(bs[..3]) == FromBe(bs[..2]) * 256 + bs[2] as int;
  }

  lemma {:induction false} BeRoundTrip(n: nat, k: nat)
    requires n < Pow2(8 * k)
    ensures FromBe(ToBe(n, k)) == n
  {
    if k == 0 {
      assert Pow2(0) == 1;
    } else {
      assert Pow2(8) == 256;
      Pow2Sum(8, 8 * (k - 1));
      BeRoundTrip(n / 256, k - 1);
      assert ToBe(n, k)[..k - 1] == ToBe(n / 256, k - 1);
    }
  }

  lemma FourBytes()
    ensures Pow2(8 * 4) == 0x1_0000_0000
  {
    WordLengths();
  }

  /** A record is the length of its method, the method, the length of its payload
      and the payload. */
  lemma RecordLayout(r: Record)
    requires |r.method_| < 0x1_0000_0000 && |r.payload| < 0x1_0000_0000
    ensures var bs, m := SerialiseRecord(r), |r.method_|;
      |bs| == 8 + m + |r.payload| && bs[4..4 + m] == r.method_ && bs[8 + m..] == r.payload &&
      m == 0x100_0000 * bs[0] as int + 0x1_0000 * bs[1] as int + 0x100 * bs[2] as int + bs[3] as int &&
      |r.payload| == 0x100_0000 * bs[4 + m] as int + 0x1_0000 * bs[5 + m] as int +
                     0x100 * bs[6 + m] as int + bs[7 + m] as int
  {
    var bs, m, p := SerialiseRecord(r), |r.method_|, |r.payload|;
    FourBytes();
    BeRoundTrip(m, 4);
    BeRoundTrip(p, 4);
    assert bs[..4] == ToBe32(m) && bs[4 + m..8 + m] == ToBe32(p);
    BigFour(bs[..4]);
    BigFour(bs[4 + m..8 + m]);
  }

  /** Which error a reader reports of the record that data starts with: the first
      of its checks that fails. The cap comes before the payload in the parity
      checker and after it in the sender. */
  lemma ErrorMeans(parity: bool, data: seq<Byte>, total: nat)
    ensures var s := StepOf(parity, data, total);
      (s == Fail(TruncatedMethodLength) <==> |data| < 4) && s != Fail(NoRequests)
    ensures |data| >= 4 ==>
      var s, m, most := StepOf(parity, data, total), Be32(data[..4]), if parity then 1024 else 65536;
      (s == Fail(BadMethodLength) <==> !(1 <= m <= most)) &&
      (s == Fail(TruncatedMethod) <==> 1 <= m <= most && |data| < 4 + m) &&
      (s == Fail(TruncatedPayloadLength) <==> 1 <= m <= most && 4 + m <= |data| < 8 + m)
    ensures |data| >= 4 && |data| >= 8 + Be32(data[..4]) && 1 <= Be32(data[..4]) <= (if parity then 1024 else 65536) ==>
      var s, m := StepOf(parity, data, total), Be32(data[..4]);
      var p := Be32(data[4 + m..8 + m]);
      var over, cut := total + m + p + 64 > 0x2_0000_0000, |data| < 8 + m + p;
      (s == Fail(BadPayloadLength) <==> p > 0x1000_0000) &&
      (s == Fail(OverCap) <==> p <= 0x1000_0000 && over && (parity || !cut)) &&
      (s == Fail(TruncatedPayload) <==> p <= 0x1000_0000 && cut && (!parity || !over))
  {
  }

  // ----- what is accepted

  lemma {:induction false} ToBeRoundTrip(bs: seq<Byte>)
    ensures ToBe(FromBe(bs), |bs|) == bs
  {
    if bs != [] {
      var front, last := bs[..|bs| - 1], bs[|bs| - 1];
      ToBeRoundTrip(front);
      var n: int := FromBe(bs);
      assert n / 256 == FromBe(front) && n % 256 == last;
      assert bs == front + [last];
    }
  }

  lemma FourParts(data: seq<Byte>, a: nat, b: nat, c: nat, d: nat)
    requires a <= b <= c <= d <= |data|
    ensures data[..d] == data[..a] + data[a..b] + data[b..c] + data[c..d]
  {
  }

  lemma RecordParts(data: seq<Byte>, m: nat, p: nat)
    requires 8 + m + p <= |data| && m == Be32(data[..4]) && p == Be32(data[4 + m..8 + m])
    ensures data[..8 + m + p] == SerialiseRecord(Record(data[4..4 + m], data[8 + m..8 + m + p]))
  {
    ToBeRoundTrip(data[..4]);
    ToBeRoundTrip(data[4 + m..8 + m]);
    FourParts(data, 4, 4 + m, 8 + m, 8 + m + p);
  }

  /** A step that succeeds has read one serialised record. */
  lemma StepReads(parity: bool, data: seq<Byte>, total: nat)
    requires StepOf(parity, data, total).Next?
    ensures var s := StepOf(parity, data, total);
            data[..s.size] == SerialiseRecord(s.record) &&
            InBounds(s.record, MaxMethod(parity)) && total + Cost(s.record) <= MAX_TOTAL
  {
    var m := Be32(data[..4]);
    RecordParts(data, m, Be32(data[4 + m..8 + m]));
  }

  /** A serialised record in bounds is read back, whatever follows. */
  lemma StepAccepts(parity: bool, r: Record, rest: seq<Byte>, total: nat)
    requires InBounds(r, MaxMethod(parity)) && total + Cost(r) <= MAX_TOTAL
    ensures StepOf(parity, SerialiseRecord(r) + rest, total) == Next(r, |SerialiseRecord(r)|)
  {
    var m, p := |r.method_|, |r.payload|;
    var data := SerialiseRecord(r) + rest;
    FourBytes();
    BeRoundTrip(m, 4);
    BeRoundTrip(p, 4);
    assert data[..4] == ToBe32(m);
    assert data[4..4 + m] == r.method_;
    assert data[4 + m..8 + m] == ToBe32(p);
    assert data[8 + m..8 + m + p] == r.payload;
  }

  lemma Cons(r: Record, rs: seq<Record>, maxMethod: nat, total: nat)
    ensures Serialise([r] + rs) == SerialiseRecord(r) + Serialise(rs)
    ensures Fits([r] + rs, maxMethod, total) <==> InBounds(r, maxMethod) && Fits(rs, maxMethod, total + Cost(r))
  {
    var all := [r] + rs;
    assert all[1..] == rs;
    assert all[0] == r && forall i :: 0 <= i < |rs| ==> rs[i] == all[i + 1];
  }

  /** An accepted file is one serialised record and an accepted rest. */
  lemma FirstRecord(parity: bool, data: seq<Byte>, total: nat, rs: seq<Record>)
    returns (r: Record, more: seq<Byte>, spent: nat, tail: seq<Record>)
    requires data != [] && Records(parity, data, total) == Ok(rs)
    ensures data == SerialiseRecord(r) + more && rs == [r] + tail
    ensures InBounds(r, MaxMethod(parity)) && spent == total + Cost(r) <= MAX_TOTAL
    ensures Records(parity, more, spent) == Ok(tail)
  {
    StepReads(parity, data, total);
    var s := StepOf(parity, data, total);
    r, more, spent := s.record, data[s.size..], total + Cost(s.record);
    tail := Records(parity, more, spent).value;
    assert data == data[..s.size] + more;
  }

  lemma {:induction false} AcceptedIsSerialised(parity: bool, data: seq<Byte>, total: nat, rs: seq<Record>)
    requires Records(parity, data, total) == Ok(rs) && total <= MAX_TOTAL
    ensures data == Serialise(rs) && Fits(rs, MaxMethod(parity), total)
    decreases |data|
  {
    if data != [] {
      var r, more, spent, tail := FirstRecord(parity, data, total, rs);
      AcceptedIsSerialised(parity, more, spent, tail);
      Cons(r, tail, MaxMethod(parity), total);
    }
  }

  lemma ReadCons(parity: bool, r: Record, rest: seq<Byte>, total: nat)
    requires StepOf(parity, SerialiseRecord(r) + rest, total) == Next(r, |SerialiseRecord(r)|)
    ensures Records(parity, SerialiseRecord(r) + rest, total) ==
            match Records(parity, rest, total + Cost(r))
            case Err(e) => Err(e)
            case Ok(rs) => Ok([r] + rs)
  {
    hide SerialiseRecord, StepOf;
    assert (SerialiseRecord(r) + rest)[|SerialiseRecord(r)|..] == rest;
  }

  lemma AcceptedCons(parity: bool, r: Record, rs: seq<Record>, total: nat)
    requires InBounds(r, MaxMethod(parity)) && total + Cost(r) <= MAX_TOTAL
    requires Records(parity, Serialise(rs), total + Cost(r)) == Ok(rs)
    ensures Records(parity, SerialiseRecord(r) + Serialise(rs), total) == Ok([r] + rs)
  {
    StepAccepts(parity, r, Serialise(rs), total);
    ReadCons(parity, r, Serialise(rs), total);
  }

  lemma {:induction false} SerialisedIsAccepted(parity: bool, rs: seq<Record>, total: nat)
    requires Fits(rs, MaxMethod(parity), total)
    ensures Records(parity, Serialise(rs), total) == Ok(rs)
  {
    if rs != [] {
      var r, tail := rs[0], rs[1..];
      assert rs == [r] + tail;
      Cons(r, tail, MaxMethod(parity), total);
      SerialisedIsAccepted(parity, tail, total + Cost(r));
      AcceptedCons(parity, r, tail, total);
    }
  }

  /** A reader accepts exactly the serialisations of lists it has room for,
      and returns the list. */
  lemma AcceptsExactly(parity: bool, data: seq<Byte>, rs: seq<Record>)
    ensures Records(parity, data, 0) == Ok(rs) <==> data == Serialise(rs) && Fits(rs, MaxMethod(parity), 0)
  {
    if Records(parity, data, 0) == Ok(rs) { AcceptedIsSerialised(parity, data, 0, rs); }
    if data == Serialise(rs) && Fits(rs, MaxMethod(parity), 0) { SerialisedIsAccepted(parity, rs, 0); }
  }

  /** The parity checker's round trip, both ways. */
  lemma ParityRoundTrip(data: seq<Byte>, rs: seq<Record>)
    ensures ParityLoad(data) == Ok(rs) <==> rs != [] && data == Serialise(rs) && Fits(rs, PARITY_MAX_METHOD, 0)
  {
    AcceptsExactly(true, data, rs);
  }

  /** The sender's, up to the records with nothing to send. */
  lemma SenderRoundTrip(rs: seq<Record>)
    requires Fits(rs, SENDER_MAX_METHOD, 0)
    ensures SenderLoad(Serialise(rs)) == Ok(NonEmpty(rs))
  {
    AcceptsExactly(false, Serialise(rs), rs);
  }

  /** The readers agree: the parity checker accepts exactly the nonempty files
      the sender accepts in which no method is longer than its own bound. */
  lemma ReadersAgree(data: seq<Byte>, rs: seq<Record>)
    ensures ParityLoad(data) == Ok(rs) <==>
              rs != [] && Records(false, data, 0) == Ok(rs) &&
              forall i :: 0 <= i < |rs| ==> |rs[i].method_| <= PARITY_MAX_METHOD
    ensures ParityLoad(data) == Ok(rs) ==> SenderLoad(data) == Ok(NonEmpty(rs))
  {
    AcceptsExactly(true, data, rs);
    AcceptsExactly(false, data, rs);
    if Records(false, data, 0) == Ok(rs) && forall i :: 0 <= i < |rs| ==> |rs[i].method_| <= PARITY_MAX_METHOD {
      assert Fits(rs, PARITY_MAX_METHOD, 0);
    }
    if Fits(rs, PARITY_MAX_METHOD, 0) {
      assert Fits(rs, SENDER_MAX_METHOD, 0);
    }
  }

  // ----- truncation

  /** If one serialisation is a prefix of another, so are the lists. */
  lemma PrefixIsTake(a: seq<Record>, b: seq<Record>)
    requires a <= b
    ensures b[..|a|] == a
  {
  }

  lemma {:induction false} PrefixOfSerialised(a: seq<Record>, b: seq<Record>)
    requires Serialise(a) <= Serialise(b)
    requires Fits(a, SENDER_MAX_METHOD, 0) && Fits(b, SENDER_MAX_METHOD, 0)
    ensures a <= b
  {
    if a != [] {
      var ea, ra := SerialiseRecord(a[0]), Serialise(a[1..]);
      assert |Serialise(a)| > 0;
      assert b != [];
      var eb, rb := SerialiseRecord(b[0]), Serialise(b[1..]);
      var more := Serialise(b)[|Serialise(a)|..];
      assert Serialise(b) == Serialise(a) + more == ea + (ra + more);
      StepAccepts(false, a[0], ra + more, 0);
      StepAccepts(false, b[0], rb, 0);
      assert a[0] == b[0];
      assert ra <= rb by {
        assert rb == (eb + rb)[|eb|..];
        assert ra + more == (ea + (ra + more))[|ea|..];
      }
      PrefixOfSerialised(a[1..], b[1..]);
    }
  }

  /** A valid file cut anywhere but after a whole record is an error to both. */
  lemma CutIsError(parity: bool, rs: seq<Record>, k: nat)
    requires Fits(rs, MaxMethod(parity), 0) && k <= |Serialise(rs)|
    requires forall j :: 0 <= j <= |rs| ==> k != |Serialise(rs[..j])|
    ensures Records(parity, Serialise(rs)[..k], 0).Err?
  {
    var cut := Serialise(rs)[..k];
    if Records(parity, cut, 0).Ok? {
      var a := Records(parity, cut, 0).value;
      AcceptsExactly(parity, cut, a);
      assert Fits(a, SENDER_MAX_METHOD, 0) && Fits(rs, SENDER_MAX_METHOD, 0);
      PrefixOfSerialised(a, rs);
      PrefixIsTake(a, rs);
    }
  }
}
