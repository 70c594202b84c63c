/** The two loadRequests loops, over the bytes of an opened file. */
module ReplayReaders {
  import opened Wire
  import opened Replay

  function Prepend(head: seq<Record>, r: Result<seq<Record>>): Result<seq<Record>> {
    match r
    case Err(e) => Err(e)
    case Ok(rs) => Ok(head + rs)
  }

  lemma Slice(data: seq<Byte>, at: nat, a: nat, b: nat)
    requires a <= b && at + b <= |data|
    ensures data[at..][a..b] == data[at + a..at + b] && data[at..][b..] == data[at + b..]
  {
  }

  lemma PrependTwice(a: seq<Record>, b: seq<Record>, r: Result<seq<Record>>)
    ensures Prepend(a, Prepend(b, r)) == Prepend(a + b, r)
  {
    if r.Ok? { assert a + (b + r.value) == (a + b) + r.value; }
  }

  /** Unrolls one record that was read. */
  lemma Unroll(parity: bool, data: seq<Byte>, total: nat, r: Record, size: nat)
    requires data != [] && StepOf(parity, data, total) == Next(r, size)
    ensures Records(parity, data, total) == Prepend([r], Records(parity, data[size..], total + Cost(r)))
  {
  }

  /** One round of either loop, which has read done, stands at offset and has
      left to read; whole is the final result. */
  lemma Round(parity: bool, data: seq<Byte>, offset: nat, total: nat, done: seq<Record>,
              left: Result<seq<Record>>, whole: Result<seq<Record>>, s: Step)
    returns (next: Result<seq<Record>>)
    requires offset < |data| && left == Records(parity, data[offset..], total) && Prepend(done, left) == whole
    requires s == StepOf(parity, data[offset..], total)
    ensures s.Fail? ==> whole == Err(s.error)
    ensures s.Next? ==> 0 < s.size && offset + s.size <= |data|
    ensures s.Next? ==> next == Records(parity, data[offset + s.size..], total + Cost(s.record))
    ensures s.Next? ==> Prepend(done + [s.record], next) == whole
  {
    hide ParityStep, SenderStep;
    next := left;
    if s.Next? {
      var rest := data[offset..];
      Unroll(parity, rest, total, s.record, s.size);
      assert rest[s.size..] == data[offset + s.size..];
      next := Records(parity, rest[s.size..], total + Cost(s.record));
      PrependTwice(done, [s.record], next);
    }
  }

  lemma Started(data: seq<Byte>, whole: Result<seq<Record>>)
    ensures data[0..] == data && Prepend([], whole) == whole
  {
    if whole.Ok? { assert [] + whole.value == whole.value; }
  }

  lemma Finished(parity: bool, data: seq<Byte>, total: nat, done: seq<Record>,
                 left: Result<seq<Record>>, whole: Result<seq<Record>>)
    requires left == Records(parity, data[|data|..], total) && Prepend(done, left) == whole
    ensures whole == Ok(done)
  {
    assert data[|data|..] == [];
    assert done + [] == done;
  }

  /** One record of the parity checker's loop. */
  method ReadParityRecord(data: seq<Byte>, offset: nat, totalBytes: nat) returns (s: Step)
    requires offset < |data|
    ensures s == StepOf(true, data[offset..], totalBytes)
  {
    if offset + 4 > |data| { return Fail(TruncatedMethodLength); }
    Slice(data, offset, 0, 4);
    var methodLen := Be32(data[offset..offset + 4]);
    if methodLen == 0 || methodLen > PARITY_MAX_METHOD { return Fail(BadMethodLength); }
    if offset + 4 + methodLen > |data| { return Fail(TruncatedMethod); }
    Slice(data, offset, 4, 4 + methodLen);
    var name := data[offset + 4..offset + 4 + methodLen];
    if offset + 8 + methodLen > |data| { return Fail(TruncatedPayloadLength); }
    Slice(data, offset, 4 + methodLen, 8 + methodLen);
    var payloadLen := Be32(data[offset + 4 + methodLen..offset + 8 + methodLen]);
    if payloadLen > MAX_PAYLOAD { return Fail(BadPayloadLength); }
    if totalBytes + methodLen + payloadLen + OVERHEAD > MAX_TOTAL { return Fail(OverCap); }
    if offset + 8 + methodLen + payloadLen > |data| { return Fail(TruncatedPayload); }
    Slice(data, offset, 8 + methodLen, 8 + methodLen + payloadLen);
    var payload := data[offset + 8 + methodLen..offset + 8 + methodLen + payloadLen];
    return Next(Record(name, payload), 8 + methodLen + payloadLen);
  }

  /** One record of the sender's loop: the payload is read first, then counted. */
  method ReadSenderRecord(data: seq<Byte>, offset: nat, totalBytes: nat) returns (s: Step)
    requires offset < |data|
    ensures s == StepOf(false, data[offset..], totalBytes)
  {
    if offset + 4 > |data| { return Fail(TruncatedMethodLength); }
    Slice(data, offset, 0, 4);
    var methodLen := Be32(data[offset..offset + 4]);
    if methodLen == 0 || methodLen > SENDER_MAX_METHOD { return Fail(BadMethodLength); }
    if offset + 4 + methodLen > |data| { return Fail(TruncatedMethod); }
    Slice(data, offset, 4, 4 + methodLen);
    var name := data[offset + 4..offset + 4 + methodLen];
    if offset + 8 + methodLen > |data| { return Fail(TruncatedPayloadLength); }
    Slice(data, offset, 4 + methodLen, 8 + methodLen);
    var payloadLen := Be32(data[offset + 4 + methodLen..offset + 8 + methodLen]);
    if payloadLen > MAX_PAYLOAD { return Fail(BadPayloadLength); }
    if offset + 8 + methodLen + payloadLen > |data| { return Fail(TruncatedPayload); }
    Slice(data, offset, 8 + methodLen, 8 + methodLen + payloadLen);
    var payload := data[offset + 8 + methodLen..offset + 8 + methodLen + payloadLen];
    if totalBytes + methodLen + payloadLen + OVERHEAD > MAX_TOTAL { return Fail(OverCap); }
    return Next(Record(name, payload), 8 + methodLen + payloadLen);
  }

  /** The parity checker's loadRequests. */
  method LoadParity(data: seq<Byte>) returns (r: Result<seq<Record>>)
    ensures r == ParityLoad(data)
  {
    hide StepOf;
    var reqs: seq<Record> := [];
    var offset, totalBytes: nat := 0, 0;
    ghost var whole := Records(true, data, 0);
    ghost var left := whole;
    Started(data, whole);
    while offset < |data|
      invariant offset <= |data| && left == Records(true, data[offset..], totalBytes)
      invariant Prepend(reqs, left) == whole
      decreases |data| - offset
    {
      var s := ReadParityRecord(data, offset, totalBytes);
      left := Round(true, data, offset, totalBytes, reqs, left, whole, s);
      match s {
        case Fail(e) => return Err(e);
        case Next(record, size) =>
          reqs := reqs + [record];
          totalBytes := totalBytes + Cost(record);
          offset := offset + size;
      }
    }
    Finished(true, data, totalBytes, reqs, left, whole);
    if |reqs| == 0 { return Err(NoRequests); }
    return Ok(reqs);
  }

  lemma {:induction false} NonEmptySnoc(rs: seq<Record>, r: Record)
    ensures NonEmpty(rs + [r]) == NonEmpty(rs) + if |r.payload| == 0 then [] else [r]
  {
    if rs != [] {
      assert (rs + [r])[1..] == rs[1..] + [r];
      NonEmptySnoc(rs[1..], r);
    } else {
      assert [] + [r] == [r];
    }
  }

  /** kept are the records at the places at, in order, and those are the places
      of all that have a payload. */
  ghost predicate KeptAt(rs: seq<Record>, kept: seq<Record>, at: seq<nat>) {
    && |at| == |kept|
    && (forall i :: 0 <= i < |at| ==> at[i] < |rs| && kept[i] == rs[at[i]])
    && (forall i, j :: 0 <= i < j < |at| ==> at[i] < at[j])
    && (forall k :: 0 <= k < |rs| ==> (k in at <==> rs[k].payload != []))
  }

  lemma KeptSnoc(rs: seq<Record>, kept: seq<Record>, at: seq<nat>, r: Record)
    requires KeptAt(rs, kept, at)
    ensures r.payload == [] ==> KeptAt(rs + [r], kept, at)
    ensures r.payload != [] ==> KeptAt(rs + [r], kept + [r], at + [|rs|])
  {
    if r.payload != [] {
      var more := at + [|rs|];
      forall k | 0 <= k < |rs| ensures k in more <==> k in at {}
      assert more[|at|] == |rs|;
    }
  }

  /** The records the sender keeps are those with a payload, in their order. */
  lemma {:induction false} NonEmptyMeaning(rs: seq<Record>) returns (at: seq<nat>)
    ensures KeptAt(rs, NonEmpty(rs), at)
  {
    if rs == [] {
      at := [];
    } else {
      var init, last := rs[..|rs| - 1], rs[|rs| - 1];
      assert rs == init + [last];
      at := NonEmptyMeaning(init);
      hide KeptAt, NonEmpty;
      KeptSnoc(init, NonEmpty(init), at, last);
      NonEmptySnoc(init, last);
      if last.payload != [] { at := at + [|init|]; } else { assert NonEmpty(init) + [] == NonEmpty(init); }
    }
  }

  /** The sender's loadRequests: records with nothing to send are counted and skipped. */
  method LoadSender(data: seq<Byte>) returns (r: Result<seq<Record>>, skipped: nat)
    ensures r == SenderLoad(data)
    ensures r.Ok? ==> |r.value| + skipped == |Records(false, data, 0).value|
  {
    hide StepOf;
    var reqs: seq<Record> := [];
    ghost var all: seq<Record> := [];
    var offset, totalBytes: nat := 0, 0;
    skipped := 0;
    ghost var whole := Records(false, data, 0);
    ghost var left := whole;
    Started(data, whole);
    while offset < |data|
      invariant offset <= |data| && left == Records(false, data[offset..], totalBytes)
      invariant Prepend(all, left) == whole
      invariant reqs == NonEmpty(all) && |reqs| + skipped == |all|
      decreases |data| - offset
    {
      var s := ReadSenderRecord(data, offset, totalBytes);
      left := Round(false, data, offset, totalBytes, all, left, whole, s);
      match s {
        case Fail(e) => return Err(e), skipped;
        case Next(record, size) =>
          NonEmptySnoc(all, record);
          all := all + [record];
          totalBytes := totalBytes + Cost(record);
          offset := offset + size;
          if |record.payload| == 0 {
            skipped := skipped + 1;
          } else {
            reqs := reqs + [record];
          }
      }
    }
    Finished(false, data, totalBytes, all, left, whole);
    return Ok(reqs), skipped;
  }
}
