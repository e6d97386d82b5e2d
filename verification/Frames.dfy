/** The event-subscription wire format (runtime/knomosis-event-subscribe/src/frame.rs).

    Encoders and the decoding grammar are functions; the readers are methods that pull bytes through
    a source that may hand over any non-empty chunk, and are proved to compute that grammar. */
module Frames {

  import opened Machine
  import opened Bytes

  const HARD_MAX_FRAME_SIZE: nat := 16 * 1024 * 1024

  const KIND_SUBSCRIBE: Byte := 0
  const KIND_EVENT: Byte := 1
  const KIND_LAG_EXCEEDED: Byte := 2
  const KIND_TRUNCATED: Byte := 3
  const KIND_SERVER_SHUTDOWN: Byte := 4
  const KIND_INVALID_REQUEST: Byte := 5

  datatype InboundFrame = Subscribe(resumeFrom: U64)

  datatype OutboundFrame =
    | Event(seqno: U64, payload: seq<Byte>)
    | LagExceeded(lastDelivered: U64)
    | Truncated(oldestAvailable: U64)
    | ServerShutdown(lastDelivered: U64)
    | InvalidRequest

  datatype FrameError =
    | Io
    | EofBeforeHeader
    | TruncatedFrame(bytesRead: nat, expected: nat)
    | UnknownKind(kind: Byte)
    | OversizeFrame(declared: nat, max: nat)

  datatype WriteFrameError = PayloadOversize(len: int, max: int) | PayloadTooLarge(len: int)

  /** A decoded item and the bytes behind it. */
  type Parsed<F> = Result<(F, seq<Byte>), FrameError>

  function ClampMax(maxPayload: nat): (m: nat)
    ensures m == Min(maxPayload, 16_777_216)
  {
    if maxPayload < HARD_MAX_FRAME_SIZE then maxPayload else HARD_MAX_FRAME_SIZE
  }

  // ---------------------------------------------------------------------------------------------
  // Encoders

  function EncodeOutbound(frame: OutboundFrame, maxPayload: nat): Result<seq<Byte>, WriteFrameError> {
    var max := ClampMax(maxPayload);
    match frame
    case Event(seqno, payload) =>
      if |payload| > max then Failure(PayloadOversize(|payload|, max))
      else if |payload| >= 0x1_0000_0000 then Failure(PayloadTooLarge(|payload|))
      else Success([KIND_EVENT] + BigEndian(seqno, 8) + BigEndian(|payload|, 4) + payload)
    case LagExceeded(last) => Success([KIND_LAG_EXCEEDED] + BigEndian(last, 8))
    case Truncated(oldest) => Success([KIND_TRUNCATED] + BigEndian(oldest, 8))
    case ServerShutdown(last) => Success([KIND_SERVER_SHUTDOWN] + BigEndian(last, 8))
    case InvalidRequest => Success([KIND_INVALID_REQUEST] + BigEndian(0, 8))
  }

  function EncodeInbound(frame: InboundFrame): seq<Byte> {
    [KIND_SUBSCRIBE] + BigEndian(frame.resumeFrom, 8)
  }

  predicate Encodable(frame: OutboundFrame, maxPayload: nat) {
    frame.Event? ==> |frame.payload| <= ClampMax(maxPayload)
  }

  /** The size limit is the only reason an encoder refuses a frame. */
  lemma EncodesIffFits(frame: OutboundFrame, maxPayload: nat)
    ensures EncodeOutbound(frame, maxPayload).Success? <==> Encodable(frame, maxPayload)
    ensures EncodeOutbound(frame, maxPayload).Failure? ==>
      && frame.Event?
      && EncodeOutbound(frame, maxPayload).error == PayloadOversize(|frame.payload|, Min(maxPayload, 16_777_216))
  {
  }

  function Encoded(frame: OutboundFrame, maxPayload: nat): (b: seq<Byte>)
    requires Encodable(frame, maxPayload)
    ensures |b| >= 9
  {
    EncodeOutbound(frame, maxPayload).value
  }

  // ---------------------------------------------------------------------------------------------
  // The decoding grammar

  /** Exactly `n` bytes, or a truncation report counting the bytes there were. */
  function Exactly(bytes: seq<Byte>, n: nat, already: nat, expected: nat): Parsed<seq<Byte>> {
    if |bytes| < n then Failure(TruncatedFrame(already + |bytes|, expected))
    else Success((bytes[..n], bytes[n..]))
  }

  function U64Body(bytes: seq<Byte>): (r: Parsed<U64>)
    ensures r.Success? <==> |bytes| >= 8
    ensures r.Success? ==> |r.value.1| == |bytes| - 8
  {
    Pow256Values();
    var r := Exactly(bytes, 8, 1, 9);
    if r.Failure? then Failure(r.error) else Success((FromBigEndian(r.value.0), r.value.1))
  }

  /** The sequence number and declared length of an event frame. */
  function EventHeader(bytes: seq<Byte>): (r: Parsed<(U64, nat)>)
    ensures r.Success? <==> |bytes| >= 12
    ensures r.Success? ==> r.value.1 == bytes[12..]
  {
    Pow256Values();
    var s := Exactly(bytes, 8, 1, 13);
    if s.Failure? then Failure(s.error) else
    var l := Exactly(s.value.1, 4, 9, 13);
    if l.Failure? then Failure(l.error) else
    Success(((FromBigEndian(s.value.0), FromBigEndian(l.value.0)), l.value.1))
  }

  function EventBody(bytes: seq<Byte>, max: nat): (r: Parsed<OutboundFrame>)
    ensures r.Success? ==> r.value.0.Event? && |r.value.1| <= |bytes|
  {
    var h := EventHeader(bytes);
    if h.Failure? then Failure(h.error) else
    var (seqno, declared) := h.value.0;
    if declared > max then Failure(OversizeFrame(declared, max)) else
    var p := Exactly(h.value.1, declared, 13, 13 + declared);
    if p.Failure? then Failure(p.error) else
    Success((Event(seqno, p.value.0), p.value.1))
  }

  function ControlFrame(kind: Byte, n: U64): OutboundFrame
    requires KIND_LAG_EXCEEDED <= kind <= KIND_INVALID_REQUEST
  {
    if kind == KIND_LAG_EXCEEDED then LagExceeded(n)
    else if kind == KIND_TRUNCATED then Truncated(n)
    else if kind == KIND_SERVER_SHUTDOWN then ServerShutdown(n)
    else InvalidRequest
  }

  function DecodeOutbound(bytes: seq<Byte>, maxPayload: nat): (r: Parsed<OutboundFrame>)
    ensures r.Success? ==> |r.value.1| < |bytes|
  {
    if bytes == [] then Failure(EofBeforeHeader)
    else if bytes[0] == KIND_EVENT then EventBody(bytes[1..], ClampMax(maxPayload))
    else if KIND_LAG_EXCEEDED <= bytes[0] <= KIND_INVALID_REQUEST then
      var r := U64Body(bytes[1..]);
      if r.Failure? then Failure(r.error) else Success((ControlFrame(bytes[0], r.value.0), r.value.1))
    else Failure(UnknownKind(bytes[0]))
  }

  function DecodeInbound(bytes: seq<Byte>): Parsed<InboundFrame> {
    if bytes == [] then Failure(EofBeforeHeader)
    else if bytes[0] == KIND_SUBSCRIBE then
      var r := U64Body(bytes[1..]);
      if r.Failure? then Failure(r.error) else Success((Subscribe(r.value.0), r.value.1))
    else Failure(UnknownKind(bytes[0]))
  }

  // ---------------------------------------------------------------------------------------------
  // Byte by byte

  /** The kind byte of each control frame and the number it carries. */
  function Control(frame: OutboundFrame): (Byte, U64)
    requires !frame.Event?
  {
    match frame
    case LagExceeded(n) => (2, n)
    case Truncated(n) => (3, n)
    case ServerShutdown(n) => (4, n)
    case InvalidRequest => (5, 0)
  }

  /** The layout of a frame: a kind byte from 1 to 5, a number in eight bytes, and for an event its length
      in four bytes and its payload. */
  lemma WireLayout(frame: OutboundFrame, maxPayload: nat)
    requires Encodable(frame, maxPayload)
    ensures var b := Encoded(frame, maxPayload);
      if frame.Event? then
        && |b| == 13 + |frame.payload| && b[0] == 1
        && HoldsNumber(b, 1, 8, frame.seqno) && HoldsNumber(b, 9, 4, |frame.payload|) && b[13..] == frame.payload
      else |b| == 9 && b[0] == Control(frame).0 && HoldsNumber(b, 1, 8, Control(frame).1)
  {
    var b := Encoded(frame, maxPayload);
    if frame.Event? {
      EventStands(b, BigEndian(frame.seqno, 8), BigEndian(|frame.payload|, 4), frame.payload);
      NumberStands(b, [KIND_EVENT], frame.seqno, 8, BigEndian(|frame.payload|, 4) + frame.payload);
      NumberStands(b, [KIND_EVENT] + BigEndian(frame.seqno, 8), |frame.payload|, 4, frame.payload);
    } else {
      NumberStands(b, [b[0]], Control(frame).1, 8, []);
    }
  }

  lemma EventStands(b: seq<Byte>, x: seq<Byte>, y: seq<Byte>, z: seq<Byte>)
    requires b == [KIND_EVENT] + x + y + z && |x| == 8 && |y| == 4
    ensures b == [KIND_EVENT] + x + (y + z) && b[13..] == z && b[0] == KIND_EVENT
  {
  }

  /** The subscribe frame: kind byte 0 and the resume point. */
  lemma SubscribeLayout(frame: InboundFrame)
    ensures |EncodeInbound(frame)| == 9 && EncodeInbound(frame)[0] == 0
    ensures HoldsNumber(EncodeInbound(frame), 1, 8, frame.resumeFrom)
  {
    NumberStands(EncodeInbound(frame), [KIND_SUBSCRIBE], frame.resumeFrom, 8, []);
  }

  /** What any byte string reads as: the reason it is refused, or the frame at its front and the rest. */
  lemma DecodeMeans(bytes: seq<Byte>, maxPayload: nat)
    ensures var r, n, max := DecodeOutbound(bytes, maxPayload), |bytes|, Min(maxPayload, 16_777_216);
      if n == 0 then r == Failure(EofBeforeHeader)
      else if bytes[0] < 1 || bytes[0] > 5 then r == Failure(UnknownKind(bytes[0]))
      else if bytes[0] > 1 then
        if n < 9 then r == Failure(TruncatedFrame(n, 9))
        else r.Success? && !r.value.0.Event? && r.value.1 == bytes[9..] && Control(r.value.0).0 == bytes[0]
             && (bytes[0] < 5 ==> Control(r.value.0).1 == FromBigEndian(bytes[1..9]))
      else if n < 13 then r == Failure(TruncatedFrame(n, 13))
      else
        var declared := FromBigEndian(bytes[9..13]);
        if declared > max then r == Failure(OversizeFrame(declared, max))
        else if n < 13 + declared then r == Failure(TruncatedFrame(n, 13 + declared))
        else
          && r.Success? && r.value.0.Event? && r.value.1 == bytes[13 + declared..]
          && r.value.0.payload == bytes[13..13 + declared] && r.value.0.seqno == FromBigEndian(bytes[1..9])
  {
    if bytes != [] {
      HeaderSlices(bytes);
    }
  }

  /** The same for a request. */
  lemma SubscribeMeans(bytes: seq<Byte>)
    ensures var r, n := DecodeInbound(bytes), |bytes|;
      if n == 0 then r == Failure(EofBeforeHeader)
      else if bytes[0] != 0 then r == Failure(UnknownKind(bytes[0]))
      else if n < 9 then r == Failure(TruncatedFrame(n, 9))
      else r.Success? && r.value.0.resumeFrom == FromBigEndian(bytes[1..9]) && r.value.1 == bytes[9..]
  {
    if bytes != [] {
      HeaderSlices(bytes);
    }
  }

  lemma HeaderSlices(bytes: seq<Byte>)
    requires bytes != []
    ensures |bytes| >= 9 ==> bytes[1..][..8] == bytes[1..9] && bytes[1..][8..] == bytes[9..]
    ensures |bytes| >= 13 ==> bytes[9..][..4] == bytes[9..13] && bytes[9..][4..] == bytes[13..]
    ensures |bytes| >= 13 ==> bytes[1..][12..] == bytes[13..]
    ensures forall d: nat :: |bytes| >= 13 + d ==>
      bytes[13..][..d] == bytes[13..13 + d] && bytes[13..][d..] == bytes[13 + d..]
  {
  }

  // ---------------------------------------------------------------------------------------------
  // Round trips

  lemma U64BodyOfEncoding(n: U64, rest: seq<Byte>)
    ensures U64Body(BigEndian(n, 8) + rest) == Success((n, rest))
  {
    Pow256Values();
    EncodeDecode(n, 8);
    var b := BigEndian(n, 8) + rest;
    assert b[..8] == BigEndian(n, 8) && b[8..] == rest;
  }

  lemma EventBodyOfEncoding(seqno: U64, payload: seq<Byte>, max: nat, rest: seq<Byte>)
    requires |payload| <= max <= HARD_MAX_FRAME_SIZE
    ensures EventBody(BigEndian(seqno, 8) + BigEndian(|payload|, 4) + payload + rest, max)
         == Success((Event(seqno, payload), rest))
  {
    var a, b := BigEndian(seqno, 8), BigEndian(|payload|, 4);
    assert FromBigEndian(a) == seqno && FromBigEndian(b) == |payload| by {
      Pow256Values();
      EncodeDecode(seqno, 8);
      EncodeDecode(|payload|, 4);
    }
    assert a + b + payload + rest == a + (b + (payload + rest));
    ExactlyHead(a, b + (payload + rest), 1, 13);
    ExactlyHead(b, payload + rest, 9, 13);
    ExactlyHead(payload, rest, 13, 13 + |payload|);
  }

  lemma ExactlyHead(head: seq<Byte>, rest: seq<Byte>, already: nat, expected: nat)
    ensures Exactly(head + rest, |head|, already, expected) == Success((head, rest))
  {
    assert (head + rest)[..|head|] == head && (head + rest)[|head|..] == rest;
  }

  /** A frame followed by anything decodes to that frame and leaves the anything. */
  lemma OutboundRoundTrip(frame: OutboundFrame, maxPayload: nat, rest: seq<Byte>)
    requires Encodable(frame, maxPayload)
    ensures DecodeOutbound(Encoded(frame, maxPayload) + rest, maxPayload) == Success((frame, rest))
  {
    var b := Encoded(frame, maxPayload) + rest;
    match frame
    case Event(seqno, payload) =>
      assert b[1..] == BigEndian(seqno, 8) + BigEndian(|payload|, 4) + payload + rest;
      EventBodyOfEncoding(seqno, payload, ClampMax(maxPayload), rest);
    case LagExceeded(n) =>
      assert b[1..] == BigEndian(n, 8) + rest;
      U64BodyOfEncoding(n, rest);
    case Truncated(n) =>
      assert b[1..] == BigEndian(n, 8) + rest;
      U64BodyOfEncoding(n, rest);
    case ServerShutdown(n) =>
      assert b[1..] == BigEndian(n, 8) + rest;
      U64BodyOfEncoding(n, rest);
    case InvalidRequest =>
      assert b[1..] == BigEndian(0, 8) + rest;
      U64BodyOfEncoding(0, rest);
  }

  lemma InboundRoundTrip(frame: InboundFrame, rest: seq<Byte>)
    ensures DecodeInbound(EncodeInbound(frame) + rest) == Success((frame, rest))
  {
    var b := EncodeInbound(frame) + rest;
    assert b[1..] == BigEndian(frame.resumeFrom, 8) + rest;
    U64BodyOfEncoding(frame.resumeFrom, rest);
  }

  /** Reading frames until one fails: what came out, and the failure that ended it. */
  function DecodeAll(bytes: seq<Byte>, maxPayload: nat): (seq<OutboundFrame>, FrameError)
    decreases |bytes|
  {
    var r := DecodeOutbound(bytes, maxPayload);
    if r.Failure? then ([], r.error)
    else
      var (fs, e) := DecodeAll(r.value.1, maxPayload);
      ([r.value.0] + fs, e)
  }

  function EncodeAll(fs: seq<OutboundFrame>, maxPayload: nat): seq<Byte>
    requires forall i :: 0 <= i < |fs| ==> Encodable(fs[i], maxPayload)
  {
    if fs == [] then [] else Encoded(fs[0], maxPayload) + EncodeAll(fs[1..], maxPayload)
  }

  /** A stream of frames decodes to those frames and then a clean end of input. */
  lemma {:induction false} StreamRoundTrip(fs: seq<OutboundFrame>, maxPayload: nat)
    requires forall i :: 0 <= i < |fs| ==> Encodable(fs[i], maxPayload)
    ensures DecodeAll(EncodeAll(fs, maxPayload), maxPayload) == (fs, EofBeforeHeader)
  {
    if fs != [] {
      StreamRoundTrip(fs[1..], maxPayload);
      OutboundRoundTrip(fs[0], maxPayload, EncodeAll(fs[1..], maxPayload));
      assert fs == [fs[0]] + fs[1..];
    }
  }

  /** A connection cut anywhere inside a frame is reported as a truncation, never as a shorter frame
      or a clean end, and the report counts exactly the bytes received. */
  lemma CutFrameIsTruncated(frame: OutboundFrame, maxPayload: nat, n: nat)
    requires Encodable(frame, maxPayload)
    requires 0 < n < |Encoded(frame, maxPayload)|
    ensures var r := DecodeOutbound(Encoded(frame, maxPayload)[..n], maxPayload);
            r.Failure? && r.error.TruncatedFrame? && r.error.bytesRead == n
  {
    var whole := Encoded(frame, maxPayload);
    var b := whole[..n];
    if frame.Event? {
      Pow256Values();
      EncodeDecode(|frame.payload|, 4);
      var t := b[1..];
      if |t| >= 12 {
        assert t[8..][..4] == BigEndian(|frame.payload|, 4);
      }
    }
  }

  /** A whole frame in front adds that frame to what is decoded. */
  lemma DecodeAllHead(frame: OutboundFrame, maxPayload: nat, rest: seq<Byte>)
    requires Encodable(frame, maxPayload)
    ensures var (fs, e) := DecodeAll(rest, maxPayload);
            DecodeAll(Encoded(frame, maxPayload) + rest, maxPayload) == ([frame] + fs, e)
  {
    OutboundRoundTrip(frame, maxPayload, rest);
  }

  lemma DecodeAllCut(frame: OutboundFrame, maxPayload: nat, n: nat)
    requires Encodable(frame, maxPayload) && 0 < n < |Encoded(frame, maxPayload)|
    ensures var (fs, e) := DecodeAll(Encoded(frame, maxPayload)[..n], maxPayload);
            fs == [] && e.TruncatedFrame? && e.bytesRead == n
  {
    CutFrameIsTruncated(frame, maxPayload, n);
  }

  /** Frames followed by part of one more decode to those frames and a truncation that counts the part. */
  lemma {:induction false} CutStreamIsTruncated(fs: seq<OutboundFrame>, frame: OutboundFrame, maxPayload: nat, n: nat)
    requires forall i :: 0 <= i < |fs| ==> Encodable(fs[i], maxPayload)
    requires Encodable(frame, maxPayload) && 0 < n < |Encoded(frame, maxPayload)|
    ensures var (read, e) := DecodeAll(EncodeAll(fs, maxPayload) + Encoded(frame, maxPayload)[..n], maxPayload);
            read == fs && e.TruncatedFrame? && e.bytesRead == n
  {
    var part := Encoded(frame, maxPayload)[..n];
    if fs == [] {
      assert EncodeAll(fs, maxPayload) + part == part;
      DecodeAllCut(frame, maxPayload, n);
    } else {
      var rest := EncodeAll(fs[1..], maxPayload) + part;
      CutStreamIsTruncated(fs[1..], frame, maxPayload, n);
      DecodeAllHead(fs[0], maxPayload, rest);
      Reassociate(Encoded(fs[0], maxPayload), EncodeAll(fs[1..], maxPayload), part);
      assert fs == [fs[0]] + fs[1..];
    }
  }

  lemma Reassociate(a: seq<Byte>, b: seq<Byte>, c: seq<Byte>)
    ensures (a + b) + c == a + (b + c)
  {
  }

  lemma CutSubscribeIsTruncated(frame: InboundFrame, n: nat)
    requires 0 < n < |EncodeInbound(frame)|
    ensures DecodeInbound(EncodeInbound(frame)[..n]) == Failure(TruncatedFrame(n, 9))
  {
  }

  lemma EventReencodes(bytes: seq<Byte>, maxPayload: nat)
    requires DecodeOutbound(bytes, maxPayload).Success? && DecodeOutbound(bytes, maxPayload).value.0.Event?
    ensures var (f, rest) := DecodeOutbound(bytes, maxPayload).value;
            Encodable(f, maxPayload) && bytes == Encoded(f, maxPayload) + rest
  {
    var t := bytes[1..];
    var (f, rest) := DecodeOutbound(bytes, maxPayload).value;
    assert bytes == [bytes[0]] + t;
    assert t == t[..8] + t[8..][..4] + f.payload + rest;
    DecodeEncode(t[..8]);
    DecodeEncode(t[8..][..4]);
  }

  lemma ReservedZero(word: seq<Byte>)
    requires |word| == 8
    ensures FromBigEndian(word) == 0 <==> word == BigEndian(0, 8)
  {
    DecodeEncode(word);
    EncodeDecode(0, 8) by { Pow256Values(); }
  }

  lemma ControlReencodes(bytes: seq<Byte>, maxPayload: nat)
    requires DecodeOutbound(bytes, maxPayload).Success? && !DecodeOutbound(bytes, maxPayload).value.0.Event?
    ensures var (f, rest) := DecodeOutbound(bytes, maxPayload).value;
      && Encodable(f, maxPayload) && |bytes| >= 9
      && (bytes == Encoded(f, maxPayload) + rest <==> (f.InvalidRequest? ==> FromBigEndian(bytes[1..9]) == 0))
  {
    var t := bytes[1..];
    var (f, rest) := DecodeOutbound(bytes, maxPayload).value;
    assert bytes == [bytes[0]] + t && t == t[..8] + rest && bytes[1..9] == t[..8];
    DecodeEncode(t[..8]);
    ReservedZero(t[..8]);
    var e := Encoded(f, maxPayload) + rest;
    assert e == [e[0]] + e[1..9] + rest;
  }

  /** Decoding loses nothing except the reserved bytes of `InvalidRequest`: re-encoding what was read
      gives back the very bytes consumed, if and only if those reserved bytes are zero. */
  lemma ReencodesIffReservedZero(bytes: seq<Byte>, maxPayload: nat)
    requires DecodeOutbound(bytes, maxPayload).Success?
    ensures Encodable(DecodeOutbound(bytes, maxPayload).value.0, maxPayload)
    ensures var (f, rest) := DecodeOutbound(bytes, maxPayload).value;
      bytes == Encoded(f, maxPayload) + rest <==>
        (bytes[0] == KIND_INVALID_REQUEST ==> FromBigEndian(bytes[1..9]) == 0)
  {
    if DecodeOutbound(bytes, maxPayload).value.0.Event? {
      EventReencodes(bytes, maxPayload);
    } else {
      ControlReencodes(bytes, maxPayload);
    }
  }

  // ---------------------------------------------------------------------------------------------
  // Readers

  /** A byte source. Each `Read` may deliver any non-empty part of what is left; only a faulty source
      may fail. */
  class ChunkReader {
    var rest: seq<Byte>
    const faulty: bool

    constructor (data: seq<Byte>, faulty: bool)
      ensures rest == data && this.faulty == faulty
    {
      this.rest, this.faulty := data, faulty;
    }

    method Read(buf: array<Byte>, filled: nat) returns (r: Result<nat, FrameError>)
      requires filled <= buf.Length
      modifies this, buf
      ensures r.Failure? ==> faulty && r.error == Io && rest == old(rest) && buf[..] == old(buf[..])
      ensures r.Success? ==>
        && r.value <= buf.Length - filled
        && r.value <= |old(rest)|
        && (r.value == 0 ==> filled == buf.Length || old(rest) == [])
        && rest == old(rest)[r.value..]
        && buf[..] == old(buf[..])[..filled] + old(rest)[..r.value] + old(buf[..])[filled + r.value..]
    {
      var failing: bool :| failing ==> faulty;
      if failing {
        return Failure(Io);
      }
      var room := buf.Length - filled;
      if room == 0 || rest == [] {
        return Success(0);
      }
      var n: nat :| 1 <= n <= room && n <= |rest|;
      forall i | 0 <= i < n {
        buf[filled + i] := rest[i];
      }
      rest := rest[n..];
      return Success(n);
    }
  }

  method ReadExactOrTruncated(reader: ChunkReader, buf: array<Byte>, already: nat, expected: nat)
    returns (r: Result<(), FrameError>)
    modifies reader, buf
    ensures r.Success? ==>
      && |old(reader.rest)| >= buf.Length
      && buf[..] == old(reader.rest)[..buf.Length] && reader.rest == old(reader.rest)[buf.Length..]
    ensures r.Failure? ==>
      || (reader.faulty && r.error == Io)
      || (|old(reader.rest)| < buf.Length && r.error == TruncatedFrame(already + |old(reader.rest)|, expected))
  {
    var filled := 0;
    while filled < buf.Length
      invariant filled <= buf.Length
      invariant filled <= |old(reader.rest)|
      invariant buf[..filled] == old(reader.rest)[..filled]
      invariant reader.rest == old(reader.rest)[filled..]
      decreases buf.Length - filled
    {
      var n := reader.Read(buf, filled);
      if n.Failure? {
        return Failure(n.error);
      }
      if n.value == 0 {
        return Failure(TruncatedFrame(already + filled, expected));
      }
      filled := filled + n.value;
    }
    return Success(());
  }

  /** The first byte, told apart from a truncation by its own error. */
  method ReadKind(reader: ChunkReader) returns (r: Result<Byte, FrameError>)
    modifies reader
    ensures r.Success? ==>
      old(reader.rest) != [] && r.value == old(reader.rest)[0] && reader.rest == old(reader.rest)[1..]
    ensures r.Failure? ==>
      (reader.faulty && r.error == Io) || (old(reader.rest) == [] && r.error == EofBeforeHeader)
  {
    var header := new Byte[1];
    var filled := 0;
    while filled < 1
      invariant filled <= 1
      invariant filled == 0 ==> reader.rest == old(reader.rest)
      invariant filled == 1 ==>
        old(reader.rest) != [] && header[0] == old(reader.rest)[0] && reader.rest == old(reader.rest)[1..]
      decreases 1 - filled
    {
      var n := reader.Read(header, filled);
      if n.Failure? {
        return Failure(n.error);
      }
      if n.value == 0 {
        return Failure(EofBeforeHeader);
      }
      filled := filled + n.value;
    }
    return Success(header[0]);
  }

  /** The next `width` bytes as a big-endian number. */
  method ReadNumber(reader: ChunkReader, width: nat, already: nat, expected: nat) returns (r: Result<nat, FrameError>)
    modifies reader
    ensures r.Success? ==>
      && |old(reader.rest)| >= width && r.value == FromBigEndian(old(reader.rest)[..width])
      && reader.rest == old(reader.rest)[width..]
    ensures r.Failure? ==>
      (reader.faulty && r.error == Io) || Exactly(old(reader.rest), width, already, expected) == Failure(r.error)
  {
    var buf := new Byte[width];
    var done := ReadExactOrTruncated(reader, buf, already, expected);
    if done.Failure? {
      return Failure(done.error);
    }
    return Success(FromBigEndian(buf[..]));
  }

  method ReadU64Body(reader: ChunkReader) returns (r: Result<U64, FrameError>)
    modifies reader
    ensures r.Success? ==> U64Body(old(reader.rest)) == Success((r.value, reader.rest))
    ensures r.Failure? ==> (reader.faulty && r.error == Io) || U64Body(old(reader.rest)) == Failure(r.error)
  {
    Pow256Values();
    var n := ReadNumber(reader, 8, 1, 9);
    if n.Failure? {
      return Failure(n.error);
    }
    return Success(n.value);
  }

  method ReadEventHeader(reader: ChunkReader) returns (r: Result<(U64, nat), FrameError>)
    modifies reader
    ensures r.Success? ==> EventHeader(old(reader.rest)) == Success((r.value, reader.rest))
    ensures r.Failure? ==> (reader.faulty && r.error == Io) || EventHeader(old(reader.rest)) == Failure(r.error)
  {
    Pow256Values();
    var seqno := ReadNumber(reader, 8, 1, 13);
    if seqno.Failure? {
      return Failure(seqno.error);
    }
    var length := ReadNumber(reader, 4, 9, 13);
    if length.Failure? {
      return Failure(length.error);
    }
    return Success((seqno.value, length.value));
  }

  method ReadEventBody(reader: ChunkReader, max: nat) returns (r: Result<OutboundFrame, FrameError>)
    modifies reader
    ensures r.Success? ==> EventBody(old(reader.rest), max) == Success((r.value, reader.rest))
    ensures r.Failure? ==> (reader.faulty && r.error == Io) || EventBody(old(reader.rest), max) == Failure(r.error)
  {
    var header := ReadEventHeader(reader);
    if header.Failure? {
      return Failure(header.error);
    }
    var (seqno, declared) := header.value;
    if declared > max {
      return Failure(OversizeFrame(declared, max));
    }
    var payload := new Byte[declared];
    var done := ReadExactOrTruncated(reader, payload, 13, 13 + declared);
    if done.Failure? {
      return Failure(done.error);
    }
    return Success(Event(seqno, payload[..]));
  }

  /** However the source splits the bytes, the reader computes `DecodeOutbound`. */
  method ReadOutbound(reader: ChunkReader, maxPayload: nat) returns (r: Result<OutboundFrame, FrameError>)
    modifies reader
    ensures r.Success? ==> DecodeOutbound(old(reader.rest), maxPayload) == Success((r.value, reader.rest))
    ensures r.Failure? ==>
      (reader.faulty && r.error == Io) || DecodeOutbound(old(reader.rest), maxPayload) == Failure(r.error)
  {
    var max := ClampMax(maxPayload);
    var kind := ReadKind(reader);
    if kind.Failure? {
      return Failure(kind.error);
    }
    if kind.value == KIND_EVENT {
      r := ReadEventBody(reader, max);
    } else if KIND_LAG_EXCEEDED <= kind.value <= KIND_INVALID_REQUEST {
      var n := ReadU64Body(reader);
      if n.Failure? {
        return Failure(n.error);
      }
      r := Success(ControlFrame(kind.value, n.value));
    } else {
      r := Failure(UnknownKind(kind.value));
    }
  }

  method ReadInbound(reader: ChunkReader) returns (r: Result<InboundFrame, FrameError>)
    modifies reader
    ensures r.Success? ==> DecodeInbound(old(reader.rest)) == Success((r.value, reader.rest))
    ensures r.Failure? ==>
      (reader.faulty && r.error == Io) || DecodeInbound(old(reader.rest)) == Failure(r.error)
  {
    var kind := ReadKind(reader);
    if kind.Failure? {
      return Failure(kind.error);
    }
    if kind.value != KIND_SUBSCRIBE {
      return Failure(UnknownKind(kind.value));
    }
    var n := ReadU64Body(reader);
    if n.Failure? {
      return Failure(n.error);
    }
    return Success(Subscribe(n.value));
  }
}
