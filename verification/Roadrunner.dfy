// The Roadrunner's framed serial protocol, and what a corrupted reply does.

module Roadrunner {
  import opened Crc8
  import opened Text

  const SYNC: Byte := 0x52
  const VERSION: Byte := 1
  const MAX_REQUEST := 64

  // ----- frames -----

  datatype Problem =
    | RequestTooLong | ShortHeader | HeaderMismatch | ShortPayload | CrcMismatch | NoStatus

  datatype Result<T> = Ok(value: T) | Err(problem: Problem)

  function Sealed(body: seq<Byte>): seq<Byte> { body + [Crc(body)] }

  function Frame(opcode: Byte, payload: seq<Byte>): Result<seq<Byte>> {
    if |payload| > MAX_REQUEST then Err(RequestTooLong)
    else Ok(Sealed([SYNC, SYNC, VERSION, opcode, |payload| as Byte] + payload))
  }

  // A whole frame has CRC zero, and two requests that differ are framed differently.
  lemma FrameTells(opcode: Byte, payload: seq<Byte>, other: Byte, more: seq<Byte>)
    requires |payload| <= MAX_REQUEST && |more| <= MAX_REQUEST
    ensures Frame(opcode, payload).Ok? && Crc(Frame(opcode, payload).value) == 0
    ensures Frame(opcode, payload) == Frame(other, more) <==> opcode == other && payload == more
  {
    hide Crc, CrcFrom, Fold, Shifts;
    var x, y := Frame(opcode, payload).value, Frame(other, more).value;
    SealedCrc([SYNC, SYNC, VERSION, opcode, |payload| as Byte] + payload);
    assert x[3] == opcode && y[3] == other;
    if x == y {
      assert |payload| == |x| - 6 == |more|;
      assert x[5..|x| - 1] == payload && y[5..|y| - 1] == more;
    }
  }

  lemma SealedCrc(body: seq<Byte>)
    ensures Crc(Sealed(body)) == 0
  {
    hide Crc, CrcFrom, Shifts;
    var s := Sealed(body);
    CrcNext(s, |body|);
    assert s[..|body|] == body && s[..|body| + 1] == s;
    XorSelf(Crc(body));
    FoldZero();
  }

  lemma XorSelf(v: Byte)
    ensures Xor(v, v) == 0
  {
  }

  lemma FoldZero()
    ensures Fold(0) == 0
  {
    FoldUnrolled(0);
  }

  // The stream a port delivers; a read past its end comes back short.
  class Port {
    var stream: seq<Byte>

    constructor (bytes: seq<Byte>)
      ensures stream == bytes
    {
      stream := bytes;
    }

    method Read(n: nat) returns (got: seq<Byte>)
      modifies this
      ensures got == old(stream)[..if n <= |old(stream)| then n else |old(stream)|]
      ensures stream == old(stream)[|got|..]
    {
      var k := if n <= |stream| then n else |stream|;
      got, stream := stream[..k], stream[k..];
    }
  }

  // The opcode a device answers with.
  function Answer(opcode: Byte): Byte { opcode | 0x80 }

  predicate HeaderFits(header: seq<Byte>, opcode: Byte)
    requires |header| >= 5
  {
    header[0] == SYNC && header[1] == SYNC && header[2] == VERSION && header[3] == Answer(opcode)
  }

  function Size(b: Byte): (n: nat)
    ensures n < 256
  {
    b as nat
  }

  // What a reader makes of the bytes on the stream.
  function Response(stream: seq<Byte>, opcode: Byte): Result<(Byte, seq<Byte>)> {
    if |stream| < 5 then Err(ShortHeader)
    else if !HeaderFits(stream, opcode) then Err(HeaderMismatch)
    else
      var n := Size(stream[4]);
      if |stream| < 5 + n + 1 then Err(ShortPayload)
      else if Crc(stream[..5 + n]) != stream[5 + n] then Err(CrcMismatch)
      else if n == 0 then Err(NoStatus)
      else Ok((stream[5], stream[6..5 + n]))
  }

  lemma HeaderAlone(stream: seq<Byte>, opcode: Byte)
    requires |stream| >= 5
    ensures HeaderFits(stream[..5], opcode) == HeaderFits(stream, opcode)
  {
  }

  lemma ResponseShort(stream: seq<Byte>, opcode: Byte)
    ensures |stream| < 5 ==> Response(stream, opcode) == Err(ShortHeader)
  {
  }

  lemma HeaderResponse(stream: seq<Byte>, opcode: Byte)
    requires |stream| >= 5
    ensures !HeaderFits(stream, opcode) ==> Response(stream, opcode) == Err(HeaderMismatch)
    ensures HeaderFits(stream, opcode) && |stream| < 5 + Size(stream[4]) + 1 ==>
              Response(stream, opcode) == Err(ShortPayload)
  {
    hide HeaderFits, Size;
  }

  lemma PayloadResponse(stream: seq<Byte>, opcode: Byte)
    requires |stream| >= 5 && HeaderFits(stream, opcode) && |stream| >= 5 + Size(stream[4]) + 1
    ensures var n := Size(stream[4]);
            Response(stream, opcode) ==
            if Crc(stream[..5 + n]) != stream[5 + n] then Err(CrcMismatch)
            else if n == 0 then Err(NoStatus) else Ok((stream[5], stream[6..5 + n]))
  {
    hide HeaderFits, Size, Crc;
  }

  // What two more reads bring after a header.
  lemma ReadParts(stream: seq<Byte>, n: nat)
    requires |stream| >= 5
    ensures var rest := stream[5..];
            var payload := rest[..if n <= |rest| then n else |rest|];
            var last := rest[|payload|..];
            && (|stream| < 5 + n + 1 <==> |payload| != n || last == [])
            && (|stream| >= 5 + n + 1 ==>
                  && stream[..5] + payload == stream[..5 + n] && last[0] == stream[5 + n]
                  && (n > 0 ==> payload[0] == stream[5] && payload[1..] == stream[6..5 + n]))
  {
  }

  method ReadResponse(port: Port, opcode: Byte) returns (r: Result<(Byte, seq<Byte>)>)
    modifies port
    ensures r == Response(old(port.stream), opcode)
  {
    hide Response, Crc, HeaderFits, Size;
    ghost var stream := port.stream;
    var header := port.Read(5);
    ResponseShort(stream, opcode);
    if |header| != 5 {
      return Err(ShortHeader);
    }
    HeaderAlone(stream, opcode);
    HeaderResponse(stream, opcode);
    if !HeaderFits(header, opcode) {
      return Err(HeaderMismatch);
    }
    var n := Size(header[4]);
    var payload := port.Read(n);
    var crc := port.Read(1);
    assert header[4] == stream[4];
    ReadParts(stream, n);
    if |payload| != n || |crc| != 1 {
      return Err(ShortPayload);
    }
    PayloadResponse(stream, opcode);
    var check := Compute(header + payload);
    if check != crc[0] {
      return Err(CrcMismatch);
    }
    if payload == [] {
      return Err(NoStatus);
    }
    r := Ok((payload[0], payload[1..]));
  }

  function Body(opcode: Byte, status: Byte, payload: seq<Byte>): seq<Byte>
    requires |payload| <= 254
  {
    [SYNC, SYNC, VERSION, Answer(opcode), (|payload| + 1) as Byte, status] + payload
  }

  // The one reply that carries a status and a payload.
  function Reply(opcode: Byte, status: Byte, payload: seq<Byte>): seq<Byte>
    requires |payload| <= 254
  {
    Sealed(Body(opcode, status, payload))
  }

  // A read succeeds exactly on a stream that starts with the reply it returns.
  lemma ResponseIff(stream: seq<Byte>, opcode: Byte, status: Byte, payload: seq<Byte>)
    ensures Response(stream, opcode) == Ok((status, payload)) <==>
            |payload| <= 254 && Reply(opcode, status, payload) <= stream
  {
    if |payload| <= 254 && Reply(opcode, status, payload) <= stream {
      ReplyRead(stream, opcode, status, payload);
    }
    if Response(stream, opcode) == Ok((status, payload)) {
      ReadIsReply(stream, opcode, status, payload);
    }
  }

  // The byte that counts the payload, read back as a number.
  lemma CountByte(n: nat)
    requires n < 256
    ensures Size(n as Byte) == n
  {
  }

  lemma SizeByte(b: Byte)
    ensures Size(b) as Byte == b
  {
  }

  lemma ReplyRead(stream: seq<Byte>, opcode: Byte, status: Byte, payload: seq<Byte>)
    requires |payload| <= 254 && Reply(opcode, status, payload) <= stream
    ensures Response(stream, opcode) == Ok((status, payload))
  {
    hide Crc, Answer, Size;
    var body := Body(opcode, status, payload);
    var n := |payload| + 1;
    assert stream[..|body|] == body by { assert stream[..|body| + 1] == Sealed(body); }
    assert stream[|body|] == Crc(body) by { assert stream[..|body| + 1][|body|] == Crc(body); }
    assert forall i | 0 <= i < 6 :: stream[i] == stream[..|body|][i];
    CountByte(n);
    assert stream[6..5 + n] == body[6..] == payload;
  }

  lemma ReadIsReply(stream: seq<Byte>, opcode: Byte, status: Byte, payload: seq<Byte>)
    requires Response(stream, opcode) == Ok((status, payload))
    ensures |payload| <= 254 && Reply(opcode, status, payload) <= stream
  {
    hide Crc, Answer, Size;
    var n := Size(stream[4]);
    SizeByte(stream[4]);
    assert |payload| == n - 1;
    assert Body(opcode, status, payload) == stream[..5 + n];
    assert stream[..6 + n] == stream[..5 + n] + [stream[5 + n]];
  }

  // A valid reply of any length, hit by any non-zero burst of at most 8 bits after its
  // header, makes the read raise, whatever follows it on the stream.
  lemma CorruptedReplyRefused(opcode: Byte, status: Byte, payload: seq<Byte>, error: seq<Byte>, p: nat, rest: seq<Byte>)
    requires |payload| <= 254
    requires |error| == |Reply(opcode, status, payload)| && Burst(error, p)
    requires forall i | 0 <= i < 5 :: error[i] == 0
    ensures Response(Corrupt(Reply(opcode, status, payload), error) + rest, opcode) == Err(CrcMismatch)
  {
    hide Crc, Xor, Burst, Fold, Answer, Size;
    var body := Body(opcode, status, payload);
    var n := |payload| + 1;
    var m := 5 + n;
    var bad := Corrupt(Sealed(body), error);
    assert Sealed(body) == Reply(opcode, status, payload);
    forall i | 0 <= i < 5 ensures bad[i] == body[i] { XorZero(body[i]); }
    CountByte(n);
    var stream := bad + rest;
    assert stream[..m] == Corrupt(body, error[..m]);
    assert stream[m] == Xor(Crc(body), error[m]);
    CrcLinear(body, error[..m]);
    BurstDetected(error, p);
    assert error[..m + 1] == error;
    CrcNext(error, m);
    FoldInjective(Xor(Crc(error[..m]), error[m]));
    NoCancel(Crc(body), Crc(error[..m]), error[m]);
  }

  lemma NoCancel(crc: Byte, e: Byte, last: Byte)
    requires Xor(e, last) != 0
    ensures Xor(crc, e) != Xor(crc, last)
  {
  }

  // ----- one exchange, byte by byte -----

  lemma InfoFrameCrc()
    ensures Crc([0x52, 0x52, 1]) == 0xd3
    ensures Crc([0x52, 0x52, 1, 1, 0]) == 0x90 && Crc([0x52, 0x52, 1, 0x81, 1, 0]) == 0xe7
  {
    hide Crc, Fold;
    CrcOfNothing();
    FoldsOf();
    var a: seq<Byte>, b: seq<Byte> := [0x52, 0x52, 1], [0x52, 0x52, 1, 0x81];
    CrcAfter([], 0x52, [0x52], 0xb9);
    CrcAfter([0x52], 0x52, [0x52, 0x52], 0x9f);
    CrcAfter([0x52, 0x52], 1, a, 0xd3);
    CrcAfter(a, 1, [0x52, 0x52, 1, 1], 0x30);
    CrcAfter([0x52, 0x52, 1, 1], 0, [0x52, 0x52, 1, 1, 0], 0x90);
    CrcAfter(a, 0x81, b, 0xb9);
    CrcAfter(b, 1, b + [1], 0x21);
    CrcAfter(b + [1], 0, b + [1] + [0], 0xe7);
    assert b + [1] + [0] == [0x52, 0x52, 1, 0x81, 1, 0];
  }

  lemma CrcAfter(before: seq<Byte>, b: Byte, whole: seq<Byte>, after: Byte)
    requires whole == before + [b] && Fold(Xor(Crc(before), b)) == after
    ensures Crc(whole) == after
  {
    CrcMore(before, b, after);
  }

  lemma FoldsOf()
    ensures Fold(0x52) == 0xb9 && Fold(0xeb) == 0x9f && Fold(0x9e) == 0xd3 && Fold(0xd2) == 0x30
    ensures Fold(0x30) == 0x90 && Fold(0xb8) == 0x21 && Fold(0x21) == 0xe7
  {
    FoldUnrolled(0x52);
    FoldUnrolled(0xeb);
    FoldUnrolled(0x9e);
    FoldUnrolled(0xd2);
    FoldUnrolled(0x30);
    FoldUnrolled(0xb8);
    FoldUnrolled(0x21);
  }

  // The INFO request as it goes out, and an empty reply to it.
  lemma InfoExchange()
    ensures Frame(1, []) == Ok([0x52, 0x52, 1, 1, 0, 0x90])
    ensures Response([0x52, 0x52, 1, 0x81, 1, 0, 0xe7], 1) == Ok((0, []))
  {
    hide Crc;
    InfoFrameCrc();
    assert Answer(1) == 0x81;
    var none: seq<Byte> := [];
    assert |none| as Byte == 0;
    assert [SYNC, SYNC, VERSION, 1, |none| as Byte] + none == [0x52, 0x52, 1, 1, 0];
    assert Sealed([0x52, 0x52, 1, 1, 0]) == [0x52, 0x52, 1, 1, 0, 0x90];
    assert Body(1, 0, []) == [0x52, 0x52, 1, 0x81, 1, 0];
    ResponseIff([0x52, 0x52, 1, 0x81, 1, 0, 0xe7], 1, 0, []);
  }

  // ----- the INFO payload -----

  datatype Digest = Digest(algorithm: Byte, value: Option<nat>, start: nat, length: nat)

  datatype Info = Info(
    status: Byte, store: Byte, transport: Byte, ledOrder: Byte,
    model: seq<Byte>, version: seq<Byte>, serial: seq<Byte>, flashUid: seq<Byte>, digest: Option<Digest>)

  datatype InfoProblem = TooShort | BadField(name: string) | MissingUid | NotAscii | MissingRange
    | DigestWithoutAlgorithm

  datatype Parsed<T> = Good(value: T) | Bad(why: InfoProblem)

  const DIGEST_NONE: Byte := 0

  // int.from_bytes(data, "little")
  function LittleEndian(data: seq<Byte>): nat {
    if data == [] then 0 else Size(data[0]) + 0x100 * LittleEndian(data[1..])
  }

  // The byte at place i of a number, the lowest first.
  function ByteAt(n: nat, i: nat): Byte
    decreases i
  {
    if i == 0 then (n % 0x100) as Byte else ByteAt(n / 0x100, i - 1)
  }

  // A number written in so many bytes.
  function Bytes(n: nat, size: nat): (data: seq<Byte>)
    ensures |data| == size
  {
    seq(size, i requires 0 <= i < size => ByteAt(n, i))
  }

  function Limit(size: nat): nat { if size == 0 then 1 else 0x100 * Limit(size - 1) }

  // A number that fits in its bytes is read from them.
  lemma {:induction false} NumberReads(n: nat, size: nat)
    requires n < Limit(size)
    ensures LittleEndian(Bytes(n, size)) == n
  {
    hide Size;
    if size > 0 {
      NumberReads(n / 0x100, size - 1);
      CountByte(n % 0x100);
      assert Bytes(n, size)[1..] == Bytes(n / 0x100, size - 1);
      assert Bytes(n, size)[0] == (n % 0x100) as Byte;
    }
  }

  lemma FourBytes(a: Byte, b: Byte, c: Byte, d: Byte)
    ensures LittleEndian([a, b, c, d]) == Size(a) + 0x100 * Size(b) + 0x1_0000 * Size(c) + 0x100_0000 * Size(d)
  {
    hide Size;
    assert [a, b, c, d][1..] == [b, c, d] && [b, c, d][1..] == [c, d] && [c, d][1..] == [d] && [d][1..] == [];
    assert LittleEndian([d]) == Size(d);
    assert LittleEndian([c, d]) == Size(c) + 0x100 * Size(d);
    assert LittleEndian([b, c, d]) == Size(b) + 0x100 * Size(c) + 0x1_0000 * Size(d);
  }

  lemma FourByteLimit()
    ensures Limit(4) == 0x1_0000_0000
  {
  }

  // A length byte, then that many bytes.
  function Take(payload: seq<Byte>, at: nat, most: nat, name: string): (r: Parsed<(seq<Byte>, nat)>)
    ensures r.Good? ==> at < r.value.1 <= |payload| && |r.value.0| <= most
  {
    if at >= |payload| then Bad(BadField(name)) else
      var size := Size(payload[at]);
      if size > most || at + 1 + size > |payload| then Bad(BadField(name))
      else Good((payload[at + 1..at + 1 + size], at + 1 + size))
  }

  function ParseDigest(payload: seq<Byte>, at: nat): Parsed<Option<Digest>> {
    if at >= |payload| then Good(None) else
      match Take(payload, at + 1, 4, "digest")
      case Bad(why) => Bad(why)
      case Good((digest, end)) =>
        if end + 8 > |payload| then Bad(MissingRange)
        else if payload[at] == DIGEST_NONE && digest != [] then Bad(DigestWithoutAlgorithm)
        else Good(Some(Digest(payload[at], if digest == [] then None else Some(LittleEndian(digest)),
                              LittleEndian(payload[end..end + 4]), LittleEndian(payload[end + 4..end + 8]))))
  }

  predicate Ascii(text: seq<Byte>) { forall i | 0 <= i < |text| :: text[i] < 0x80 }

  // Seven bits each.
  lemma AsciiIff(text: seq<Byte>)
    ensures Ascii(text) <==> forall b | b in text :: b & 0x80 == 0
  {
    forall b | b in text ensures b < 0x80 <==> b & 0x80 == 0 { SevenBits(b); }
    forall i | 0 <= i < |text| ensures text[i] in text {}
    if Ascii(text) {
      forall b | b in text ensures b < 0x80 { var i :| 0 <= i < |text| && text[i] == b; }
    }
  }

  lemma SevenBits(b: Byte)
    ensures b < 0x80 <==> b & 0x80 == 0
  {
  }

  function ParseInfo(status: Byte, payload: seq<Byte>): Parsed<Info> {
    if |payload| < 12 then Bad(TooShort) else
      match Take(payload, 3, 13, "model")
      case Bad(why) => Bad(why)
      case Good((model, a)) =>
      match Take(payload, a, 32, "firmware version")
      case Bad(why) => Bad(why)
      case Good((version, b)) =>
      match Take(payload, b, 33, "serial")
      case Bad(why) => Bad(why)
      case Good((serial, c)) =>
      if c + 8 > |payload| then Bad(MissingUid)
      else if !Ascii(model) || !Ascii(version) || !Ascii(serial) then Bad(NotAscii) else
        match ParseDigest(payload, c + 8)
        case Bad(why) => Bad(why)
        case Good(digest) =>
          Good(Info(status, payload[0], payload[1], payload[2], model, version, serial, payload[c..c + 8], digest))
  }

  // What a board can send: the digest in as many bytes as it takes, up to four, none when
  // there is none; its range in four bytes each.
  predicate Sendable(info: Info, size: nat) {
    && |info.model| <= 13 && |info.version| <= 32 && |info.serial| <= 33 && |info.flashUid| == 8
    && Ascii(info.model) && Ascii(info.version) && Ascii(info.serial)
    && (info.digest.Some? ==> SendableDigest(info.digest.value, size))
  }

  predicate SendableDigest(d: Digest, size: nat) {
    && size <= 4 && d.start < 0x1_0000_0000 && d.length < 0x1_0000_0000
    && (d.value.None? <==> size == 0)
    && (d.value.Some? ==> d.value.value < Limit(size) && d.algorithm != DIGEST_NONE)
  }

  function Field(data: seq<Byte>): seq<Byte>
    requires |data| < 256
  {
    [|data| as Byte] + data
  }

  function DigestBytes(d: Digest, size: nat): seq<Byte> {
    if d.value.None? then [] else Bytes(d.value.value, size)
  }

  function SentDigest(digest: Option<Digest>, size: nat): seq<Byte>
    requires digest.Some? ==> SendableDigest(digest.value, size)
  {
    if digest.None? then []
    else
      var d := digest.value;
      [d.algorithm] + Field(DigestBytes(d, size)) + Bytes(d.start, 4) + Bytes(d.length, 4)
  }

  function SentInfo(info: Info, size: nat): seq<Byte>
    requires Sendable(info, size)
  {
    [info.store, info.transport, info.ledOrder] + Field(info.model) + Field(info.version) + Field(info.serial)
    + info.flashUid + SentDigest(info.digest, size)
  }

  lemma TakeField(before: seq<Byte>, data: seq<Byte>, after: seq<Byte>, most: nat, name: string)
    requires |data| <= most < 256
    ensures Take(before + Field(data) + after, |before|, most, name) == Good((data, |before| + 1 + |data|))
  {
    hide Size;
    CountByte(|data|);
    var payload := before + Field(data) + after;
    assert payload[|before|] == Field(data)[0] == |data| as Byte;
    assert payload[|before| + 1..|before| + 1 + |data|] == data;
  }

  // A board's INFO reads back field for field; bytes past the fields this reader knows are
  // ignored, and a board that sends no digest fields reads as having none.
  lemma InfoRoundTrip(info: Info, size: nat, more: seq<Byte>)
    requires Sendable(info, size) && (info.digest.None? ==> more == [])
    ensures ParseInfo(info.status, SentInfo(info, size) + more) == Good(info)
  {
    hide Take, Field, ParseDigest, LittleEndian, SentDigest, SendableDigest, Ascii, ParseInfo;
    var p0 := [info.store, info.transport, info.ledOrder];
    var m, v, s := Field(info.model), Field(info.version), Field(info.serial);
    var tail := SentDigest(info.digest, size) + more;
    var payload := SentInfo(info, size) + more;
    FieldLength(info.model);
    FieldLength(info.version);
    FieldLength(info.serial);
    Regroup(p0, m, v, s, info.flashUid, SentDigest(info.digest, size), more);
    TakeField(p0, info.model, v + (s + (info.flashUid + tail)), 13, "model");
    TakeField(p0 + m, info.version, s + (info.flashUid + tail), 32, "firmware version");
    TakeField(p0 + m + v, info.serial, info.flashUid + tail, 33, "serial");
    DigestRoundTrip(p0 + m + v + s + info.flashUid, info.digest, size, more);
    var c := |p0 + m + v + s|;
    assert payload[c..c + 8] == info.flashUid;
    assert payload[0] == info.store && payload[1] == info.transport && payload[2] == info.ledOrder;
    PartsParsed(payload, info, |p0 + m|, |p0 + m + v|, c);
  }

  // The fields where they are taken make the whole.
  lemma PartsParsed(payload: seq<Byte>, info: Info, a: nat, b: nat, c: nat)
    requires |payload| >= 12 && c + 8 <= |payload|
    requires Take(payload, 3, 13, "model") == Good((info.model, a))
    requires Take(payload, a, 32, "firmware version") == Good((info.version, b))
    requires Take(payload, b, 33, "serial") == Good((info.serial, c))
    requires Ascii(info.model) && Ascii(info.version) && Ascii(info.serial)
    requires ParseDigest(payload, c + 8) == Good(info.digest) && payload[c..c + 8] == info.flashUid
    requires payload[0] == info.store && payload[1] == info.transport && payload[2] == info.ledOrder
    ensures ParseInfo(info.status, payload) == Good(info)
  {
    hide Take, ParseDigest, Ascii;
  }

  lemma Regroup(a: seq<Byte>, b: seq<Byte>, c: seq<Byte>, d: seq<Byte>, e: seq<Byte>, f: seq<Byte>, g: seq<Byte>)
    ensures var all := a + b + c + d + e + f + g;
            && all == a + b + (c + (d + (e + (f + g))))
            && all == a + b + c + (d + (e + (f + g)))
            && all == a + b + c + d + (e + (f + g))
  {
  }

  lemma FieldLength(data: seq<Byte>)
    requires |data| < 256
    ensures |Field(data)| == |data| + 1
  {
  }

  // The digest and its range come back as the numbers they are.
  lemma DigestRoundTrip(before: seq<Byte>, digest: Option<Digest>, size: nat, more: seq<Byte>)
    requires digest.Some? ==> SendableDigest(digest.value, size)
    requires digest.None? ==> more == []
    ensures ParseDigest(before + SentDigest(digest, size) + more, |before|) == Good(digest)
  {
    hide Take, Field, LittleEndian, Bytes, Limit;
    if digest.Some? {
      var d := digest.value;
      var bytes, start, length := DigestBytes(d, size), Bytes(d.start, 4), Bytes(d.length, 4);
      FourByteLimit();
      NumberReads(d.start, 4);
      NumberReads(d.length, 4);
      DigestReads(d, size);
      FieldLength(bytes);
      var head := before + [d.algorithm];
      TakeField(head, bytes, start + length + more, 4, "digest");
      DigestLaid(before, d.algorithm, Field(bytes), start, length, more);
      assert |head + Field(bytes)| == |head| + 1 + |bytes|;
    } else {
      assert before + SentDigest(digest, size) + more == before;
    }
  }

  lemma DigestReads(d: Digest, size: nat)
    requires SendableDigest(d, size)
    ensures var bytes := DigestBytes(d, size);
            && |bytes| == size && (bytes == [] <==> d.value.None?)
            && (d.value.Some? ==> LittleEndian(bytes) == d.value.value)
  {
    hide LittleEndian, Limit;
    if d.value.Some? { NumberReads(d.value.value, size); }
  }

  lemma DigestLaid(before: seq<Byte>, algorithm: Byte, field: seq<Byte>, start: seq<Byte>, length: seq<Byte>,
                   more: seq<Byte>)
    requires |start| == 4 && |length| == 4
    ensures var payload := before + ([algorithm] + field + start + length) + more;
            var end := |before + [algorithm] + field|;
            && payload == before + [algorithm] + field + (start + length + more)
            && payload[|before|] == algorithm && end + 8 <= |payload|
            && payload[end..end + 4] == start && payload[end + 4..end + 8] == length
  {
  }

  lemma FourOf(n: nat, low: nat, next: nat, third: nat, top: nat)
    requires low < 0x100 && next < 0x100 && third < 0x100 && top < 0x100
    requires n == low + 0x100 * next + 0x1_0000 * third + 0x100_0000 * top
    ensures Bytes(n, 4) == [low as Byte, next as Byte, third as Byte, top as Byte]
  {
    hide ByteAt;
    BytesNext(low, next + 0x100 * third + 0x1_0000 * top, 4);
    BytesNext(next, third + 0x100 * top, 3);
    BytesNext(third, top, 2);
    BytesNext(top, 0, 1);
  }

  lemma BytesNext(low: nat, rest: nat, size: nat)
    requires low < 0x100 && size > 0
    ensures Bytes(low + 0x100 * rest, size) == [low as Byte] + Bytes(rest, size - 1)
  {
    assert (low + 0x100 * rest) / 0x100 == rest && (low + 0x100 * rest) % 0x100 == low;
  }

  lemma SomeBytes()
    ensures Bytes(0x0102_0304, 4) == [4, 3, 2, 1]
    ensures Bytes(0x1000_0000, 4) == [0, 0, 0, 0x10] && Bytes(0x2_0000, 4) == [0, 0, 2, 0]
    ensures Limit(4) == 0x1_0000_0000
  {
    hide Bytes;
    FourOf(0x0102_0304, 4, 3, 2, 1);
    FourOf(0x1000_0000, 0, 0, 0, 0x10);
    FourOf(0x2_0000, 0, 0, 2, 0);
  }

  lemma SomeFields()
    ensures Field([0x52]) == [1, 0x52] && Field([0x31]) == [1, 0x31] && Field([0x53]) == [1, 0x53]
    ensures Field([4, 3, 2, 1]) == [4, 4, 3, 2, 1]
  {
  }

  // ----- what parses is what a board can send -----

  lemma LittleNext(first: Byte, rest: seq<Byte>)
    ensures LittleEndian([first] + rest) == Size(first) + 0x100 * LittleEndian(rest)
    ensures Limit(|rest| + 1) == 0x100 * Limit(|rest|)
  {
    assert ([first] + rest)[1..] == rest;
  }

  lemma {:induction false} BytesRead(data: seq<Byte>)
    ensures LittleEndian(data) < Limit(|data|) && Bytes(LittleEndian(data), |data|) == data
  {
    hide Size, ByteAt, Bytes, LittleEndian, Limit;
    if data == [] {
      NoBytes();
    } else {
      var first, rest := data[0], data[1..];
      BytesRead(rest);
      LittleNext(first, rest);
      SizeByte(first);
      BytesNext(Size(first), LittleEndian(rest), |data|);
      assert data == [first] + rest;
    }
  }

  lemma NoBytes()
    ensures LittleEndian([]) == 0 && Limit(0) == 1 && Bytes(0, 0) == []
  {
  }

  lemma TakeIsField(payload: seq<Byte>, at: nat, most: nat, name: string)
    requires Take(payload, at, most, name).Good? && most < 256
    ensures var (data, end) := Take(payload, at, most, name).value;
            end == at + |Field(data)| && payload[at..end] == Field(data)
  {
    hide Size;
    var (data, end) := Take(payload, at, most, name).value;
    SizeByte(payload[at]);
    assert payload[at..end] == [payload[at]] + payload[at + 1..end];
  }

  lemma DigestIsSent(payload: seq<Byte>, at: nat) returns (size: nat, more: seq<Byte>)
    requires at <= |payload| && ParseDigest(payload, at).Good?
    ensures var digest := ParseDigest(payload, at).value;
            && (digest.Some? ==> SendableDigest(digest.value, size))
            && (digest.None? ==> more == [])
            && payload[at..] == SentDigest(digest, size) + more
  {
    hide Take, Field, LittleEndian, Bytes, Limit;
    size, more := 0, [];
    if at < |payload| {
      var (digest, end) := Take(payload, at + 1, 4, "digest").value;
      TakeIsField(payload, at + 1, 4, "digest");
      BytesRead(digest);
      BytesRead(payload[end..end + 4]);
      BytesRead(payload[end + 4..end + 8]);
      FourByteLimit();
      size, more := |digest|, payload[end + 8..];
      Spans(payload, at, at + 1, end, end + 4, end + 8);
      assert payload[at..at + 1] == [payload[at]];
    }
  }

  lemma Spans(s: seq<Byte>, a: nat, b: nat, c: nat, d: nat, e: nat)
    requires a <= b <= c <= d <= e <= |s|
    ensures s[a..] == s[a..b] + s[b..c] + s[c..d] + s[d..e] + s[e..]
  {
  }

  // Every payload that parses is one a board can send of what it parses to.
  lemma InfoIsSent(status: Byte, payload: seq<Byte>) returns (size: nat, more: seq<Byte>)
    requires ParseInfo(status, payload).Good?
    ensures var info := ParseInfo(status, payload).value;
            && info.status == status && Sendable(info, size) && (info.digest.None? ==> more == [])
            && payload == SentInfo(info, size) + more
  {
    hide Take, Field, ParseDigest, Ascii, SentDigest, SendableDigest;
    var (model, a) := Take(payload, 3, 13, "model").value;
    var (version, b) := Take(payload, a, 32, "firmware version").value;
    var (serial, c) := Take(payload, b, 33, "serial").value;
    TakeIsField(payload, 3, 13, "model");
    TakeIsField(payload, a, 32, "firmware version");
    TakeIsField(payload, b, 33, "serial");
    size, more := DigestIsSent(payload, c + 8);
    var digest := ParseDigest(payload, c + 8).value;
    Spans(payload, 0, 3, a, b, c);
    assert payload[0..] == payload;
    assert payload[c..] == payload[c..c + 8] + payload[c + 8..];
    assert payload[0..3] == [payload[0], payload[1], payload[2]];
    Assembles(payload[0..3], Field(model), Field(version), Field(serial), payload[c..c + 8],
              SentDigest(digest, size), more, payload[c..], payload);
  }

  lemma Assembles(p: seq<Byte>, m: seq<Byte>, v: seq<Byte>, s: seq<Byte>, u: seq<Byte>, d: seq<Byte>, more: seq<Byte>,
                  rest: seq<Byte>, all: seq<Byte>)
    requires all == p + m + v + s + rest && rest == u + (d + more)
    ensures all == p + m + v + s + u + d + more
  {
  }

  // One payload, byte by byte.
  lemma PayloadLaid()
    ensures var digest := Digest(1, Some(0x0102_0304), 0x1000_0000, 0x2_0000);
            var info := Info(0, 5, 6, 7, [0x52], [0x31], [0x53], [1, 2, 3, 4, 5, 6, 7, 8], Some(digest));
            && Sendable(info, 4)
            && SentInfo(info, 4) == [5, 6, 7, 1, 0x52, 1, 0x31, 1, 0x53, 1, 2, 3, 4, 5, 6, 7, 8,
                                     1, 4, 4, 3, 2, 1, 0, 0, 0, 0x10, 0, 0, 2, 0]
  {
    hide Bytes, Limit, Field;
    SomeBytes();
    SomeFields();
  }
}
