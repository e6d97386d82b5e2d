/** The fixture-file format shared by the Lean and Rust stacks (runtime/knomosis-cross-stack/src/lib.rs),
    on a host where a usize holds any u32 and offsets do not overflow. */
module CrossStack {

  import opened Machine
  import opened Bytes

  const U32_MAX: int := 0xFFFF_FFFF

  type U32 = n: int | 0 <= n <= U32_MAX

  const MAGIC: seq<Byte> := [0x43, 0x58, 0x53, 0x46]
  const FORMAT_VERSION: U32 := 1
  const MAX_RECORD_BYTES: nat := 16 * 1024 * 1024
  const HEADER: nat := 16

  datatype Kind =
    | Hash
    | Ecdsa
    | SignedAction
    | L1Ingest
    | FaultProofObserver
    | L1IngestFeeSplit
    | L1IngestBold
    | Custom(tag: U32)

  datatype Record = Record(input: seq<Byte>, expected: seq<Byte>)

  datatype File = File(kind: Kind, records: seq<Record>)

  datatype Field = InputLengthPrefix | InputPayload | ExpectedLengthPrefix | ExpectedPayload | Input | Expected

  datatype LoaderError =
    | TruncatedHeader(actual: nat)
    | BadMagic(seen: seq<Byte>)
    | UnsupportedVersion(version: nat)
    | TruncatedRecord(index: nat, field: Field)
    | RecordTooLarge(index: nat, field: Field, length: nat)
    | TrailingBytes(trailing: nat)

  function FromTag(tag: U32): Kind {
    match tag
    case 1 => Hash
    case 2 => Ecdsa
    case 3 => SignedAction
    case 4 => L1Ingest
    case 5 => FaultProofObserver
    case 6 => L1IngestFeeSplit
    case 7 => L1IngestBold
    case _ => Custom(tag)
  }

  function ToTag(kind: Kind): U32 {
    match kind
    case Hash => 1
    case Ecdsa => 2
    case SignedAction => 3
    case L1Ingest => 4
    case FaultProofObserver => 5
    case L1IngestFeeSplit => 6
    case L1IngestBold => 7
    case Custom(tag) => tag
  }

  /** A custom kind that does not borrow the tag of a named one. */
  predicate Canonical(kind: Kind) {
    kind.Custom? ==> !(1 <= kind.tag <= 7)
  }

  lemma TagRoundTrip(tag: U32)
    ensures ToTag(FromTag(tag)) == tag && Canonical(FromTag(tag))
  {
  }

  lemma KindRoundTripIff(kind: Kind)
    ensures FromTag(ToTag(kind)) == kind <==> Canonical(kind)
  {
  }

  // ---------------------------------------------------------------------------------------------
  // Reading

  function ReadU32(bytes: seq<Byte>, offset: nat): Option<nat> {
    if offset + 4 <= |bytes| then Some(FromBigEndian(bytes[offset..offset + 4])) else None
  }

  /** A length prefix and that many bytes, and the offset after them. */
  function ReadField(bytes: seq<Byte>, cursor: nat, index: nat, prefix: Field, payload: Field, whole: Field)
      : Result<(seq<Byte>, nat), LoaderError> {
    match ReadU32(bytes, cursor)
    case None => Failure(TruncatedRecord(index, prefix))
    case Some(length) =>
      if length > MAX_RECORD_BYTES then Failure(RecordTooLarge(index, whole, length))
      else if cursor + 4 + length > |bytes| then Failure(TruncatedRecord(index, payload))
      else Success((bytes[cursor + 4..cursor + 4 + length], cursor + 4 + length))
  }

  function ReadRecord(bytes: seq<Byte>, cursor: nat, index: nat): Result<(Record, nat), LoaderError> {
    match ReadField(bytes, cursor, index, InputLengthPrefix, InputPayload, Input)
    case Failure(e) => Failure(e)
    case Success((input, after)) =>
      match ReadField(bytes, after, index, ExpectedLengthPrefix, ExpectedPayload, Expected)
      case Failure(e) => Failure(e)
      case Success((expected, next)) => Success((Record(input, expected), next))
  }

  /** Records `index` to `count - 1`, and the offset after them. */
  function ReadRecords(bytes: seq<Byte>, cursor: nat, index: nat, count: nat): Result<(seq<Record>, nat), LoaderError>
    requires index <= count
    decreases count - index
  {
    if index == count then Success(([], cursor))
    else
      match ReadRecord(bytes, cursor, index)
      case Failure(e) => Failure(e)
      case Success((record, next)) =>
        match ReadRecords(bytes, next, index + 1, count)
        case Failure(e) => Failure(e)
        case Success((rest, end)) => Success(([record] + rest, end))
  }

  /** What the 16-byte header says: the kind and the record count. */
  function ReadHeader(bytes: seq<Byte>): Result<(Kind, nat), LoaderError> {
    if |bytes| < HEADER then Failure(TruncatedHeader(|bytes|))
    else if bytes[0..4] != MAGIC then Failure(BadMagic(bytes[0..4]))
    else
      var version := FromBigEndian(bytes[4..8]);
      if version != FORMAT_VERSION then Failure(UnsupportedVersion(version))
      else
        Pow256Values();
        Success((FromTag(FromBigEndian(bytes[8..12])), FromBigEndian(bytes[12..16])))
  }

  function Parse(bytes: seq<Byte>): Result<File, LoaderError> {
    match ReadHeader(bytes)
    case Failure(e) => Failure(e)
    case Success((kind, count)) =>
      match ReadRecords(bytes, HEADER, 0, count)
      case Failure(e) => Failure(e)
      case Success((records, end)) =>
        if end < |bytes| then Failure(TrailingBytes(|bytes| - end)) else Success(File(kind, records))
  }

  lemma {:induction false} ReadRecordsSnoc(bytes: seq<Byte>, cursor: nat, index: nat, k: nat)
    requires index <= k
    ensures var r := ReadRecords(bytes, cursor, index, k);
      ReadRecords(bytes, cursor, index, k + 1) ==
        if r.Failure? then r
        else
          var one := ReadRecord(bytes, r.value.1, k);
          if one.Failure? then Failure(one.error) else Success((r.value.0 + [one.value.0], one.value.1))
    decreases k - index
  {
    if index < k {
      var first := ReadRecord(bytes, cursor, index);
      if first.Success? {
        ReadRecordsSnoc(bytes, first.value.1, index + 1, k);
        var rest := ReadRecords(bytes, first.value.1, index + 1, k);
        if rest.Success? {
          var one := ReadRecord(bytes, rest.value.1, k);
          if one.Success? {
            assert [first.value.0] + (rest.value.0 + [one.value.0]) == [first.value.0] + rest.value.0 + [one.value.0];
          }
        }
      }
    } else {
      var one := ReadRecord(bytes, cursor, k);
      if one.Success? {
        assert ReadRecords(bytes, one.value.1, k + 1, k + 1) == Success(([], one.value.1));
        assert [one.value.0] + [] == [] + [one.value.0];
      }
    }
  }

  lemma {:induction false} FailureSticks(bytes: seq<Byte>, cursor: nat, k: nat, n: nat)
    requires k <= n && ReadRecords(bytes, cursor, 0, k).Failure?
    ensures ReadRecords(bytes, cursor, 0, n) == ReadRecords(bytes, cursor, 0, k)
    decreases n - k
  {
    if k < n {
      ReadRecordsSnoc(bytes, cursor, 0, k);
      FailureSticks(bytes, cursor, k + 1, n);
    }
  }

  lemma {:induction false} ReadStaysInside(bytes: seq<Byte>, cursor: nat, index: nat, count: nat)
    requires index <= count && cursor <= |bytes|
    requires ReadRecords(bytes, cursor, index, count).Success?
    ensures ReadRecords(bytes, cursor, index, count).value.1 <= |bytes|
    decreases count - index
  {
    if index < count {
      ReadStaysInside(bytes, ReadRecord(bytes, cursor, index).value.1, index + 1, count);
    }
  }

  /** The loader's loop. */
  method FromBytes(bytes: seq<Byte>) returns (r: Result<File, LoaderError>)
    ensures r == Parse(bytes)
  {
    var header := ReadHeader(bytes);
    if header.Failure? {
      return Failure(header.error);
    }
    var (kind, count) := header.value;
    var records: seq<Record> := [];
    var cursor := HEADER;
    var index := 0;
    while index < count
      invariant index <= count
      invariant ReadRecords(bytes, HEADER, 0, index) == Success((records, cursor))
    {
      ReadRecordsSnoc(bytes, HEADER, 0, index);
      var one := ReadRecord(bytes, cursor, index);
      if one.Failure? {
        FailureSticks(bytes, HEADER, index + 1, count);
        return Failure(one.error);
      }
      records := records + [one.value.0];
      cursor := one.value.1;
      index := index + 1;
    }
    ReadStaysInside(bytes, HEADER, 0, count);
    if cursor != |bytes| {
      return Failure(TrailingBytes(|bytes| - cursor));
    }
    return Success(File(kind, records));
  }

  // ---------------------------------------------------------------------------------------------
  // Writing

  function EncodeField(b: seq<Byte>): seq<Byte> {
    BigEndian(|b|, 4) + b
  }

  function EncodeRecord(r: Record): seq<Byte> {
    EncodeField(r.input) + EncodeField(r.expected)
  }

  function EncodeRecords(rs: seq<Record>): seq<Byte> {
    if rs == [] then [] else EncodeRecord(rs[0]) + EncodeRecords(rs[1..])
  }

  function EncodeHeader(kind: Kind, count: nat): (h: seq<Byte>)
    ensures |h| == HEADER
  {
    MAGIC + BigEndian(FORMAT_VERSION, 4) + BigEndian(ToTag(kind), 4) + BigEndian(count, 4)
  }

  function Serialise(f: File): seq<Byte> {
    EncodeHeader(f.kind, |f.records|) + EncodeRecords(f.records)
  }

  predicate RecordWithin(r: Record, limit: nat) {
    |r.input| <= limit && |r.expected| <= limit
  }

  ghost predicate AllWithin(rs: seq<Record>, limit: nat) {
    forall i :: 0 <= i < |rs| ==> RecordWithin(rs[i], limit)
  }

  /** What the 32-bit prefixes can hold: anything else makes the writer panic. */
  ghost predicate Representable(f: File) {
    |f.records| <= U32_MAX && AllWithin(f.records, U32_MAX)
  }

  /** What the reader gives back unchanged. */
  ghost predicate Loadable(f: File) {
    Canonical(f.kind) && |f.records| <= U32_MAX && AllWithin(f.records, MAX_RECORD_BYTES)
  }

  lemma {:induction false} EncodeRecordsSnoc(rs: seq<Record>, r: Record)
    ensures EncodeRecords(rs + [r]) == EncodeRecords(rs) + EncodeRecord(r)
  {
    if rs == [] {
      assert rs + [r] == [r];
      assert EncodeRecords([r]) == EncodeRecord(r) + EncodeRecords([]);
      assert EncodeRecords(rs) + EncodeRecord(r) == EncodeRecord(r);
    } else {
      EncodeRecordsSnoc(rs[1..], r);
      assert (rs + [r])[1..] == rs[1..] + [r];
      assert EncodeRecord(rs[0]) + (EncodeRecords(rs[1..]) + EncodeRecord(r))
             == EncodeRecord(rs[0]) + EncodeRecords(rs[1..]) + EncodeRecord(r);
    }
  }

  lemma AppendRecord(head: seq<Byte>, rs: seq<Record>, r: Record)
    ensures head + EncodeRecords(rs) + BigEndian(|r.input|, 4) + r.input + BigEndian(|r.expected|, 4) + r.expected
            == head + EncodeRecords(rs + [r])
  {
    EncodeRecordsSnoc(rs, r);
  }

  /** The writer's loop; `None` is a panic. */
  method ToBytes(f: File) returns (r: Option<seq<Byte>>)
    ensures r.Some? <==> Representable(f)
    ensures r.Some? ==> r.value == Serialise(f)
  {
    var out := MAGIC + BigEndian(FORMAT_VERSION, 4) + BigEndian(ToTag(f.kind), 4);
    if |f.records| > U32_MAX {
      return None;
    }
    out := out + BigEndian(|f.records|, 4);
    var i := 0;
    while i < |f.records|
      invariant i <= |f.records|
      invariant out == EncodeHeader(f.kind, |f.records|) + EncodeRecords(f.records[..i])
      invariant forall k :: 0 <= k < i ==> RecordWithin(f.records[k], U32_MAX)
    {
      var record := f.records[i];
      if |record.input| > U32_MAX {
        return None;
      }
      out := out + BigEndian(|record.input|, 4) + record.input;
      if |record.expected| > U32_MAX {
        return None;
      }
      out := out + BigEndian(|record.expected|, 4) + record.expected;
      AppendRecord(EncodeHeader(f.kind, |f.records|), f.records[..i], record);
      assert f.records[..i + 1] == f.records[..i] + [record];
      i := i + 1;
    }
    assert f.records[..i] == f.records;
    return Some(out);
  }

  // ---------------------------------------------------------------------------------------------
  // Round trips

  /** `field` stands in `bytes` at `cursor`. */
  ghost predicate Stands(bytes: seq<Byte>, cursor: nat, part: seq<Byte>) {
    cursor + |part| <= |bytes| && bytes[cursor..cursor + |part|] == part
  }

  lemma StandsSplit(bytes: seq<Byte>, cursor: nat, a: seq<Byte>, b: seq<Byte>)
    ensures Stands(bytes, cursor, a + b) <==> Stands(bytes, cursor, a) && Stands(bytes, cursor + |a|, b)
  {
    if Stands(bytes, cursor, a + b) {
      var all := bytes[cursor..cursor + |a + b|];
      assert bytes[cursor..cursor + |a|] == all[..|a|] == a;
      assert bytes[cursor + |a|..cursor + |a| + |b|] == all[|a|..] == b;
    }
    if Stands(bytes, cursor, a) && Stands(bytes, cursor + |a|, b) {
      assert bytes[cursor..cursor + |a + b|] == bytes[cursor..cursor + |a|] + bytes[cursor + |a|..cursor + |a| + |b|];
    }
  }

  lemma WordIff(word: seq<Byte>, v: U32)
    requires |word| == 4
    ensures FromBigEndian(word) == v <==> word == BigEndian(v, 4)
  {
    Pow256Values();
    EncodeDecode(v, 4);
    DecodeEncode(word);
  }

  lemma FieldStands(bytes: seq<Byte>, cursor: nat, b: seq<Byte>)
    requires |b| <= U32_MAX
    ensures Stands(bytes, cursor, EncodeField(b)) <==>
            && cursor + 4 + |b| <= |bytes| && ReadU32(bytes, cursor) == Some(|b|)
            && bytes[cursor + 4..cursor + 4 + |b|] == b
  {
    StandsSplit(bytes, cursor, BigEndian(|b|, 4), b);
    if cursor + 4 <= |bytes| {
      WordIff(bytes[cursor..cursor + 4], |b|);
    }
  }

  /** Reading a field succeeds exactly on an encoded field of bounded length. */
  lemma FieldIff(bytes: seq<Byte>, cursor: nat, index: nat, prefix: Field, payload: Field, whole: Field, b: seq<Byte>,
                 next: nat)
    ensures ReadField(bytes, cursor, index, prefix, payload, whole) == Success((b, next)) <==>
            |b| <= MAX_RECORD_BYTES && next == cursor + 4 + |b| && Stands(bytes, cursor, EncodeField(b))
  {
    if |b| <= MAX_RECORD_BYTES {
      FieldStands(bytes, cursor, b);
    }
  }

  lemma RecordIff(bytes: seq<Byte>, cursor: nat, index: nat, r: Record, next: nat)
    ensures ReadRecord(bytes, cursor, index) == Success((r, next)) <==>
            && RecordWithin(r, MAX_RECORD_BYTES)
            && next == cursor + |EncodeRecord(r)| && Stands(bytes, cursor, EncodeRecord(r))
  {
    var after := cursor + 4 + |r.input|;
    StandsSplit(bytes, cursor, EncodeField(r.input), EncodeField(r.expected));
    FieldIff(bytes, cursor, index, InputLengthPrefix, InputPayload, Input, r.input, after);
    FieldIff(bytes, after, index, ExpectedLengthPrefix, ExpectedPayload, Expected, r.expected, next);
    var first := ReadField(bytes, cursor, index, InputLengthPrefix, InputPayload, Input);
    if first.Success? {
      FieldIff(bytes, cursor, index, InputLengthPrefix, InputPayload, Input, first.value.0, first.value.1);
    }
  }

  lemma AllWithinSplit(rs: seq<Record>, limit: nat)
    requires rs != []
    ensures AllWithin(rs, limit) <==> RecordWithin(rs[0], limit) && AllWithin(rs[1..], limit)
  {
    if RecordWithin(rs[0], limit) && AllWithin(rs[1..], limit) {
      forall i | 0 <= i < |rs|
        ensures RecordWithin(rs[i], limit)
      {
        if i > 0 {
          assert rs[i] == rs[1..][i - 1];
        }
      }
    }
  }

  /** `rs` are `n` records within bounds, encoded from `cursor` to `end`. */
  ghost predicate Written(bytes: seq<Byte>, cursor: nat, n: int, rs: seq<Record>, end: nat) {
    && |rs| == n && end == cursor + |EncodeRecords(rs)|
    && AllWithin(rs, MAX_RECORD_BYTES)
    && (rs != [] ==> Stands(bytes, cursor, EncodeRecords(rs)))
  }

  lemma WrittenSplit(bytes: seq<Byte>, cursor: nat, rs: seq<Record>, end: nat)
    requires rs != []
    ensures var next := cursor + |EncodeRecord(rs[0])|;
      Written(bytes, cursor, |rs|, rs, end) <==>
        && RecordWithin(rs[0], MAX_RECORD_BYTES) && Stands(bytes, cursor, EncodeRecord(rs[0]))
        && Written(bytes, next, |rs| - 1, rs[1..], end)
  {
    StandsSplit(bytes, cursor, EncodeRecord(rs[0]), EncodeRecords(rs[1..]));
    AllWithinSplit(rs, MAX_RECORD_BYTES);
  }

  lemma {:induction false} ReadsWritten(bytes: seq<Byte>, cursor: nat, index: nat, count: nat)
    requires index <= count && ReadRecords(bytes, cursor, index, count).Success?
    ensures var (rs, end) := ReadRecords(bytes, cursor, index, count).value;
            Written(bytes, cursor, count - index, rs, end)
    decreases count - index
  {
    if index < count {
      var (record, next) := ReadRecord(bytes, cursor, index).value;
      var (rest, end) := ReadRecords(bytes, next, index + 1, count).value;
      RecordIff(bytes, cursor, index, record, next);
      ReadsWritten(bytes, next, index + 1, count);
      WrittenSplit(bytes, cursor, [record] + rest, end);
      assert ([record] + rest)[1..] == rest;
    }
  }

  lemma ReadRecordsCons(bytes: seq<Byte>, cursor: nat, index: nat, count: nat, r: Record, next: nat,
                        rest: seq<Record>, end: nat)
    requires index < count && ReadRecord(bytes, cursor, index) == Success((r, next))
    requires ReadRecords(bytes, next, index + 1, count) == Success((rest, end))
    ensures ReadRecords(bytes, cursor, index, count) == Success(([r] + rest, end))
  {
  }

  lemma WrittenHead(bytes: seq<Byte>, cursor: nat, index: nat, rs: seq<Record>, end: nat)
      returns (next: nat, rest: seq<Record>)
    requires rs != [] && Written(bytes, cursor, |rs|, rs, end)
    ensures rs == [rs[0]] + rest && ReadRecord(bytes, cursor, index) == Success((rs[0], next))
    ensures Written(bytes, next, |rest|, rest, end)
  {
    next, rest := cursor + |EncodeRecord(rs[0])|, rs[1..];
    WrittenSplit(bytes, cursor, rs, end);
    RecordIff(bytes, cursor, index, rs[0], next);
  }

  lemma {:induction false} WrittenReads(bytes: seq<Byte>, cursor: nat, index: nat, count: nat, rs: seq<Record>,
                                        end: nat)
    requires index <= count && Written(bytes, cursor, count - index, rs, end)
    ensures ReadRecords(bytes, cursor, index, count) == Success((rs, end))
    decreases count - index
  {
    if index < count {
      var next, rest := WrittenHead(bytes, cursor, index, rs, end);
      WrittenReads(bytes, next, index + 1, count, rest, end);
      ReadRecordsCons(bytes, cursor, index, count, rs[0], next, rest, end);
    }
  }

  lemma RecordsIff(bytes: seq<Byte>, cursor: nat, index: nat, count: nat, rs: seq<Record>, end: nat)
    requires index <= count
    ensures ReadRecords(bytes, cursor, index, count) == Success((rs, end)) <==>
            Written(bytes, cursor, count - index, rs, end)
  {
    if Written(bytes, cursor, count - index, rs, end) {
      WrittenReads(bytes, cursor, index, count, rs, end);
    } else if ReadRecords(bytes, cursor, index, count).Success? {
      ReadsWritten(bytes, cursor, index, count);
    }
  }

  lemma HeaderStands(bytes: seq<Byte>, kind: Kind, count: nat)
    ensures Stands(bytes, 0, EncodeHeader(kind, count)) <==>
            && |bytes| >= HEADER && bytes[0..4] == MAGIC && bytes[4..8] == BigEndian(FORMAT_VERSION, 4)
            && bytes[8..12] == BigEndian(ToTag(kind), 4) && bytes[12..16] == BigEndian(count, 4)
  {
    var tag := BigEndian(ToTag(kind), 4);
    StandsSplit(bytes, 0, MAGIC + BigEndian(FORMAT_VERSION, 4) + tag, BigEndian(count, 4));
    StandsSplit(bytes, 0, MAGIC + BigEndian(FORMAT_VERSION, 4), tag);
    StandsSplit(bytes, 0, MAGIC, BigEndian(FORMAT_VERSION, 4));
  }

  lemma KindIs(tag: U32, kind: Kind)
    ensures FromTag(tag) == kind <==> Canonical(kind) && tag == ToTag(kind)
  {
  }

  lemma WordSmall(word: seq<Byte>)
    requires |word| == 4
    ensures FromBigEndian(word) <= U32_MAX
  {
    Pow256Values();
  }

  lemma HeaderIff(bytes: seq<Byte>, kind: Kind, count: nat)
    ensures ReadHeader(bytes) == Success((kind, count)) <==>
            Canonical(kind) && count <= U32_MAX && Stands(bytes, 0, EncodeHeader(kind, count))
  {
    HeaderStands(bytes, kind, count);
    if |bytes| >= HEADER {
      WordSmall(bytes[8..12]);
      WordSmall(bytes[12..16]);
      WordIff(bytes[4..8], FORMAT_VERSION);
      WordIff(bytes[8..12], ToTag(kind));
      KindIs(FromBigEndian(bytes[8..12]), kind);
      if count <= U32_MAX {
        WordIff(bytes[12..16], count);
      }
    }
  }

  /** The loader accepts exactly the canonical encodings: it returns a file if and only if the bytes are
      that file's serialisation and the file is within bounds. */
  lemma AcceptsExactlyEncodings(bytes: seq<Byte>, f: File)
    ensures Parse(bytes) == Success(f) <==> Loadable(f) && bytes == Serialise(f)
  {
    var n := |f.records|;
    var body := EncodeRecords(f.records);
    HeaderIff(bytes, f.kind, n);
    StandsSplit(bytes, 0, EncodeHeader(f.kind, n), body);
    RecordsIff(bytes, HEADER, 0, n, f.records, HEADER + |body|);
    if Parse(bytes) == Success(f) {
      ParsedParts(bytes, f);
      assert bytes[0..0 + |bytes|] == bytes;
    }
    if Loadable(f) && bytes == Serialise(f) {
      assert bytes[0..0 + |bytes|] == bytes;
    }
  }

  lemma ParsedBody(bytes: seq<Byte>, count: nat)
    requires |bytes| >= HEADER && ReadRecords(bytes, HEADER, 0, count).Success?
    ensures var (rs, end) := ReadRecords(bytes, HEADER, 0, count).value;
            |rs| == count && end == HEADER + |EncodeRecords(rs)| && end <= |bytes|
  {
    ReadsWritten(bytes, HEADER, 0, count);
    ReadStaysInside(bytes, HEADER, 0, count);
  }

  lemma ParsedParts(bytes: seq<Byte>, f: File)
    requires Parse(bytes) == Success(f)
    ensures ReadHeader(bytes) == Success((f.kind, |f.records|))
    ensures ReadRecords(bytes, HEADER, 0, |f.records|) == Success((f.records, |bytes|))
    ensures |bytes| == HEADER + |EncodeRecords(f.records)|
  {
    var (kind, count) := ReadHeader(bytes).value;
    var (records, end) := ReadRecords(bytes, HEADER, 0, count).value;
    assert f == File(kind, records);
    assert end >= |bytes|;
    ParsedBody(bytes, count);
  }

  /** Writing a file and reading it back returns it, exactly when its kind does not borrow a named tag and
      no field is longer than the reader's bound. */
  lemma RoundTripIff(f: File)
    requires Representable(f)
    ensures Parse(Serialise(f)) == Success(f) <==> Loadable(f)
  {
    AcceptsExactlyEncodings(Serialise(f), f);
  }

  /** Two files with one encoding are the same file. */
  lemma EncodingUnique(f: File, g: File)
    requires Loadable(f) && Loadable(g) && Serialise(f) == Serialise(g)
    ensures f == g
  {
    AcceptsExactlyEncodings(Serialise(f), f);
    AcceptsExactlyEncodings(Serialise(f), g);
  }

  // ---------------------------------------------------------------------------------------------
  // Byte by byte

  /** The tag each kind is written with. */
  ghost predicate HasTag(kind: Kind, tag: int) {
    match kind
    case Hash => tag == 1
    case Ecdsa => tag == 2
    case SignedAction => tag == 3
    case L1Ingest => tag == 4
    case FaultProofObserver => tag == 5
    case L1IngestFeeSplit => tag == 6
    case L1IngestBold => tag == 7
    case Custom(t) => tag == t
  }

  /** The header: the letters CXSF, version 1, the tag of the kind and the number of records. */
  lemma HeaderLayout(f: File) returns (tag: U32)
    ensures var b := Serialise(f);
      && |b| >= 16 && b[..4] == [0x43, 0x58, 0x53, 0x46]
      && HoldsNumber(b, 4, 4, 1)
      && HasTag(f.kind, tag) && HoldsNumber(b, 8, 4, tag)
      && HoldsNumber(b, 12, 4, |f.records|)
      && b[16..] == EncodeRecords(f.records)
  {
    tag := ToTag(f.kind);
    HeaderParts(Serialise(f), BigEndian(1, 4), BigEndian(tag, 4), BigEndian(|f.records|, 4), EncodeRecords(f.records));
    NumberStands(Serialise(f), MAGIC, 1, 4, BigEndian(tag, 4) + BigEndian(|f.records|, 4) + EncodeRecords(f.records));
    NumberStands(Serialise(f), MAGIC + BigEndian(1, 4), tag, 4, BigEndian(|f.records|, 4) + EncodeRecords(f.records));
    NumberStands(Serialise(f), MAGIC + BigEndian(1, 4) + BigEndian(tag, 4), |f.records|, 4, EncodeRecords(f.records));
  }

  lemma HeaderParts(b: seq<Byte>, x: seq<Byte>, y: seq<Byte>, z: seq<Byte>, rest: seq<Byte>)
    requires b == (MAGIC + x + y + z) + rest && |x| == |y| == |z| == 4
    ensures b == MAGIC + x + (y + z + rest) && b == MAGIC + x + y + (z + rest) && b == MAGIC + x + y + z + rest
    ensures b[..4] == MAGIC && b[16..] == rest
  {
  }

  /** A record: the length of its input in four bytes, the input, and likewise what is expected. */
  lemma RecordLayout(r: Record)
    ensures var b, n := EncodeRecord(r), |r.input|;
      && |b| == 8 + n + |r.expected|
      && HoldsNumber(b, 0, 4, n) && b[4..4 + n] == r.input
      && HoldsNumber(b, 4 + n, 4, |r.expected|) && b[8 + n..] == r.expected
  {
    var b, x, y := EncodeRecord(r), BigEndian(|r.input|, 4), BigEndian(|r.expected|, 4);
    RecordParts(b, x, r.input, y, r.expected);
    NumberStands(b, [], |r.input|, 4, r.input + y + r.expected);
    NumberStands(b, x + r.input, |r.expected|, 4, r.expected);
  }

  lemma RecordParts(b: seq<Byte>, x: seq<Byte>, input: seq<Byte>, y: seq<Byte>, expected: seq<Byte>)
    requires b == (x + input) + (y + expected) && |x| == |y| == 4
    ensures b == [] + x + (input + y + expected) && b == x + input + y + expected
    ensures b[4..4 + |input|] == input && b[8 + |input|..] == expected
  {
  }

  // ---------------------------------------------------------------------------------------------
  // What is refused, and why

  /** What the loader makes of a header: the first thing wrong with it, or its kind and its count. */
  lemma HeaderMeans(bytes: seq<Byte>)
    ensures var r, n := ReadHeader(bytes), |bytes|;
      if n < 16 then r == Failure(TruncatedHeader(n))
      else if bytes[..4] != [0x43, 0x58, 0x53, 0x46] then r == Failure(BadMagic(bytes[..4]))
      else if FromBigEndian(bytes[4..8]) != 1 then r == Failure(UnsupportedVersion(FromBigEndian(bytes[4..8])))
      else
        && r.Success? && r.value.1 == FromBigEndian(bytes[12..16])
        && HasTag(r.value.0, FromBigEndian(bytes[8..12])) && Canonical(r.value.0)
  {
    if |bytes| >= 16 {
      WordSmall(bytes[8..12]);
    }
  }

  /** Why a record at `cursor` is refused: the first of its four parts that is missing or too long. */
  lemma RecordRefusedIff(bytes: seq<Byte>, cursor: nat, index: nat)
    requires cursor <= |bytes|
    ensures var r, n := ReadRecord(bytes, cursor, index), |bytes|;
      if n < cursor + 4 then r == Failure(TruncatedRecord(index, InputLengthPrefix))
      else
        var x := FromBigEndian(bytes[cursor..cursor + 4]);
        if x > 16_777_216 then r == Failure(RecordTooLarge(index, Input, x))
        else if n < cursor + 4 + x then r == Failure(TruncatedRecord(index, InputPayload))
        else if n < cursor + 8 + x then r == Failure(TruncatedRecord(index, ExpectedLengthPrefix))
        else
          var y := FromBigEndian(bytes[cursor + 4 + x..cursor + 8 + x]);
          if y > 16_777_216 then r == Failure(RecordTooLarge(index, Expected, y))
          else if n < cursor + 8 + x + y then r == Failure(TruncatedRecord(index, ExpectedPayload))
          else r.Success?
  {
  }

  lemma WrittenCons(bytes: seq<Byte>, cursor: nat, record: Record, rs: seq<Record>, end: nat)
    requires RecordWithin(record, MAX_RECORD_BYTES) && Stands(bytes, cursor, EncodeRecord(record))
    requires Written(bytes, cursor + |EncodeRecord(record)|, |rs|, rs, end)
    ensures Written(bytes, cursor, |rs| + 1, [record] + rs, end)
  {
    assert ([record] + rs)[1..] == rs;
    WrittenSplit(bytes, cursor, [record] + rs, end);
  }

  /** When the records are refused, the report is about the first that cannot be read: all before it are
      whole and within bounds, and the report is what reading that one gives. */
  lemma {:induction false} FirstBadRecord(bytes: seq<Byte>, cursor: nat, index: nat, count: nat)
      returns (k: nat, rs: seq<Record>, at: nat)
    requires index <= count && ReadRecords(bytes, cursor, index, count).Failure?
    ensures index <= k < count && Written(bytes, cursor, k - index, rs, at)
    ensures ReadRecord(bytes, at, k) == Failure(ReadRecords(bytes, cursor, index, count).error)
    decreases count - index
  {
    var first := ReadRecord(bytes, cursor, index);
    if first.Failure? {
      k, rs, at := index, [], cursor;
    } else {
      var (record, next) := first.value;
      RecordIff(bytes, cursor, index, record, next);
      k, rs, at := FirstBadRecord(bytes, next, index + 1, count);
      WrittenCons(bytes, cursor, record, rs, at);
      rs := [record] + rs;
    }
  }

  // ---------------------------------------------------------------------------------------------
  // Damage

  lemma FieldExtends(bytes: seq<Byte>, more: seq<Byte>, cursor: nat, index: nat, p: Field, q: Field, w: Field)
    requires ReadField(bytes, cursor, index, p, q, w).Success?
    ensures ReadField(bytes + more, cursor, index, p, q, w) == ReadField(bytes, cursor, index, p, q, w)
  {
    var (b, next) := ReadField(bytes, cursor, index, p, q, w).value;
    FieldIff(bytes, cursor, index, p, q, w, b, next);
    FieldIff(bytes + more, cursor, index, p, q, w, b, next);
    assert (bytes + more)[cursor..next] == bytes[cursor..next];
  }

  lemma {:induction false} RecordsExtend(bytes: seq<Byte>, more: seq<Byte>, cursor: nat, index: nat, count: nat)
    requires index <= count && ReadRecords(bytes, cursor, index, count).Success?
    ensures ReadRecords(bytes + more, cursor, index, count) == ReadRecords(bytes, cursor, index, count)
    decreases count - index
  {
    if index < count {
      FieldExtends(bytes, more, cursor, index, InputLengthPrefix, InputPayload, Input);
      var after := ReadField(bytes, cursor, index, InputLengthPrefix, InputPayload, Input).value.1;
      FieldExtends(bytes, more, after, index, ExpectedLengthPrefix, ExpectedPayload, Expected);
      RecordsExtend(bytes, more, ReadRecord(bytes, cursor, index).value.1, index + 1, count);
    }
  }

  lemma HeaderExtends(bytes: seq<Byte>, more: seq<Byte>)
    requires |bytes| >= HEADER
    ensures ReadHeader(bytes + more) == ReadHeader(bytes)
  {
    var all := bytes + more;
    assert all[0..4] == bytes[0..4] && all[4..8] == bytes[4..8];
    assert all[8..12] == bytes[8..12] && all[12..16] == bytes[12..16];
  }

  /** Bytes after an accepted file are reported, and counted. */
  lemma TrailingReported(bytes: seq<Byte>, more: seq<Byte>)
    requires Parse(bytes).Success? && more != []
    ensures Parse(bytes + more) == Failure(TrailingBytes(|more|))
  {
    var f := Parse(bytes).value;
    ParsedParts(bytes, f);
    HeaderExtends(bytes, more);
    RecordsExtend(bytes, more, HEADER, 0, |f.records|);
  }

  /** A field that a cut runs through is reported as truncated. */
  lemma FieldCut(bytes: seq<Byte>, cut: nat, cursor: nat, index: nat, p: Field, q: Field, w: Field)
    requires cut <= |bytes| && ReadField(bytes, cursor, index, p, q, w).Success?
    ensures var whole := ReadField(bytes, cursor, index, p, q, w);
            var part := ReadField(bytes[..cut], cursor, index, p, q, w);
            if whole.value.1 <= cut then part == whole
            else part == Failure(TruncatedRecord(index, p)) || part == Failure(TruncatedRecord(index, q))
  {
    var part := bytes[..cut];
    if cursor + 4 <= cut {
      assert part[cursor..cursor + 4] == bytes[cursor..cursor + 4];
      var next := ReadField(bytes, cursor, index, p, q, w).value.1;
      if next <= cut {
        assert part[cursor + 4..next] == bytes[cursor + 4..next];
      }
    }
  }

  lemma RecordCut(bytes: seq<Byte>, cut: nat, cursor: nat, index: nat)
    requires cut <= |bytes| && ReadRecord(bytes, cursor, index).Success?
    ensures var whole, part := ReadRecord(bytes, cursor, index), ReadRecord(bytes[..cut], cursor, index);
            if whole.value.1 <= cut then part == whole
            else part.Failure? && part.error.TruncatedRecord? && part.error.index == index
  {
    FieldCut(bytes, cut, cursor, index, InputLengthPrefix, InputPayload, Input);
    var after := ReadField(bytes, cursor, index, InputLengthPrefix, InputPayload, Input).value.1;
    FieldCut(bytes, cut, after, index, ExpectedLengthPrefix, ExpectedPayload, Expected);
  }

  lemma {:induction false} RecordsCut(bytes: seq<Byte>, cut: nat, cursor: nat, index: nat, count: nat)
    requires cut < |bytes| && index <= count && cursor <= cut
    requires ReadRecords(bytes, cursor, index, count).Success? && ReadRecords(bytes, cursor, index, count).value.1 > cut
    ensures var part := ReadRecords(bytes[..cut], cursor, index, count);
            part.Failure? && part.error.TruncatedRecord? && index <= part.error.index < count
    decreases count - index
  {
    RecordCut(bytes, cut, cursor, index);
    var next := ReadRecord(bytes, cursor, index).value.1;
    if next <= cut {
      RecordsCut(bytes, cut, next, index + 1, count);
    }
  }

  /** A proper prefix of an accepted file is refused as truncated, in its header or in one of its records. */
  lemma CutReported(bytes: seq<Byte>, cut: nat)
    requires Parse(bytes).Success? && cut < |bytes|
    ensures var r := Parse(bytes[..cut]);
            r.Failure? && if cut < HEADER then r.error == TruncatedHeader(cut)
                          else r.error.TruncatedRecord? && r.error.index < |Parse(bytes).value.records|
  {
    var f := Parse(bytes).value;
    ParsedParts(bytes, f);
    if cut >= HEADER {
      assert ReadHeader(bytes[..cut]) == ReadHeader(bytes) by {
        HeaderExtends(bytes[..cut], bytes[cut..]);
        assert bytes[..cut] + bytes[cut..] == bytes;
      }
      RecordsCut(bytes, cut, HEADER, 0, |f.records|);
    }
  }
}
