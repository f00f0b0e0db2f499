// The frame codec of frames.go, as functions on byte strings. Encode is what the
// WriteTo methods put on the wire, Decode what readFrame makes of it.

module Wire {
  import opened Protocol

  type WireFrame = Frame<Bytes>

  datatype WireError =
    | Eof
    | UnknownType
    | IncorrectFrame
    | IncorrectLength
    | FrameTooLarge
    | IdTooLarge
    | IdZero

  // ---------------------------------------------------------------- integers

  function U16(n: nat): (bs: Bytes) {
    [(n / 0x100) % 0x100, n % 0x100]
  }

  function FromU16(bs: Bytes): (n: nat)
    requires |bs| >= 2
  {
    bs[0] as int * 0x100 + bs[1]
  }

  function U32(n: uint32): (bs: Bytes) {
    [n / 0x100_0000, (n / 0x1_0000) % 0x100, (n / 0x100) % 0x100, n % 0x100]
  }

  function FromU32(bs: Bytes): (n: uint32)
    requires |bs| == 4
  {
    bs[0] as int * 0x100_0000 + bs[1] as int * 0x1_0000 + bs[2] as int * 0x100 + bs[3]
  }

  lemma U32RoundTrip(n: uint32)
    ensures FromU32(U32(n)) == n
  {
    hide *;
    var a, b, c := n / 0x100_0000, n / 0x1_0000, n / 0x100;
    assert b == a * 0x100 + b % 0x100;
    assert c == b * 0x100 + c % 0x100;
    assert n == c * 0x100 + n % 0x100;
    U32Parts(n);
  }

  lemma U32Parts(n: uint32)
    ensures FromU32(U32(n)) == (n / 0x100_0000) * 0x100_0000 + ((n / 0x1_0000) % 0x100) * 0x1_0000
        + ((n / 0x100) % 0x100) * 0x100 + n % 0x100
  {
  }

  lemma FromU32RoundTrip(bs: Bytes)
    requires |bs| == 4
    ensures U32(FromU32(bs)) == bs
  {
    assert FromU32(bs) / 0x100 == bs[0] as int * 0x1_0000 + bs[1] as int * 0x100 + bs[2];
    assert FromU32(bs) / 0x1_0000 == bs[0] as int * 0x100 + bs[1];
  }

  /** The byte that flags and priority share, and the byte that code and subcode
      share; module Bitwise relates them to the masks and shifts of the source. */
  function PackFlags(flags: byte, priority: byte): (b: byte) {
    flags % 32 + (priority % 8) * 32
  }

  function PackCode(code: byte, subcode: byte): (b: byte) {
    (code % 4) * 64 + subcode % 64
  }

  lemma PackFlagsLow(flags: byte, priority: byte)
    ensures PackFlags(flags, priority) % 32 == flags <==> flags < 32
  {
  }

  lemma PackFlagsHigh(flags: byte, priority: byte)
    ensures PackFlags(flags, priority) / 32 == priority <==> priority < 8
  {
  }

  lemma PackCodeLow(code: byte, subcode: byte)
    ensures PackCode(code, subcode) % 64 == subcode <==> subcode < 64
  {
  }

  lemma PackCodeHigh(code: byte, subcode: byte)
    ensures PackCode(code, subcode) / 64 == code <==> code < 4
  {
  }

  lemma UnpackFlags(b: byte)
    ensures PackFlags(b % 32, b / 32) == b
  {
  }

  lemma UnpackCode(b: byte)
    ensures PackCode(b / 64, b % 64) == b
  {
  }

  // ------------------------------------------------------------------ encode

  /** What a WriteTo method lays out: the fields of the eight-byte head, and the
      bytes after it. */
  datatype Layout = Layout(length: nat, kind: byte, b: byte, id: uint32, body: Bytes)

  function Head(length: nat, kind: byte, b: byte, id: uint32): (h: Bytes)
    ensures |h| == 8
  {
    U16(length) + [kind, b] + U32(id)
  }

  /** An ERROR frame goes out as type DATA and a PING with length 6 and no payload,
      as the source has it. */
  function LayoutOf(f: WireFrame): (l: Layout)
    ensures |l.body| == PayloadLength(f)
    ensures l.kind <= PING
  {
    match f
    case Request(flags, p, id, raw) => Layout(|raw|, REQUEST, PackFlags(flags, p), id, raw)
    case Response(flags, p, id, code, subcode, raw) =>
      Layout(1 + |raw|, RESPONSE, PackFlags(flags, p), id, [PackCode(code, subcode)] + raw)
    case Data(flags, id, data) => Layout(|data|, DATA, flags, id, data)
    case Error(id, status) => Layout(1, DATA, 0, id, [status % 256])
    case Headers(flags, id, raw) => Layout(|raw|, HEADERS, flags, id, raw)
    case Push(flags, p, id, assoc, raw) =>
      Layout(4 + |raw|, PUSH, PackFlags(flags, p), id, U32(assoc) + raw)
    case Ping(flags, pid) => Layout(6, PING, flags, pid, [])
  }

  /** The bytes WriteTo produces. */
  function Encode(f: WireFrame): (bs: Bytes)
    ensures |bs| == 8 + PayloadLength(f)
  {
    var l := LayoutOf(f);
    Head(l.length, l.kind, l.b, l.id) + l.body
  }

  /** The number of bytes after the head. */
  function PayloadLength(f: WireFrame): nat {
    match f
    case Request(_, _, _, raw) => |raw|
    case Response(_, _, _, _, _, raw) => 1 + |raw|
    case Data(_, _, data) => |data|
    case Error(_, _) => 1
    case Headers(_, _, raw) => |raw|
    case Push(_, _, _, _, raw) => 4 + |raw|
    case Ping(_, _) => 0
  }

  /** WriteTo refuses a frame on a stream whose ID is zero or out of range. */
  function CheckID(id: uint32): Option<WireError> {
    if !ValidID(id) then Some(IdTooLarge)
    else if id == 0 then Some(IdZero)
    else None
  }

  function EncodeError(f: WireFrame): Option<WireError> {
    match f
    case Error(_, _) => None
    case Ping(_, _) => None
    case Push(_, _, id, assoc, _) =>
      if CheckID(id).Some? then CheckID(id)
      else if !ValidID(assoc) then Some(IdTooLarge)
      else None
    case _ => CheckID(f.id)
  }

  // ------------------------------------------------------------------ decode

  datatype Read = Read(frame: WireFrame, consumed: nat)

  /** What readFrame makes of the bytes `s` followed by the end of the stream. */
  function Decode(s: Bytes): (r: Result<Read, WireError>)
    ensures r.Ok? ==> 8 <= r.value.consumed <= |s|
  {
    if |s| < 3 then Err(Eof)
    else if s[2] > PING then Err(UnknownType)
    else if |s| < 8 then Err(Eof)
    else DecodeBody(s[2], FromU16(s), s[3], FromU32(s[4..8]), s[8..])
  }

  /** The part of ReadFrom that differs by type; `rest` is what follows the head. */
  function DecodeBody(kind: byte, length: nat, b: byte, id: uint32, rest: Bytes): (r: Result<Read, WireError>)
    requires kind <= PING
    ensures r.Ok? ==> 8 <= r.value.consumed <= 8 + |rest|
  {
    if kind == REQUEST then
      if length > MAX_DATA_SIZE then Err(FrameTooLarge)
      else if CheckID(id).Some? then Err(CheckID(id).value)
      else if |rest| < length then Err(Eof)
      else Ok(Read(Request(b % 32, b / 32, id, rest[..length]), 8 + length))
    else if kind == RESPONSE then
      if length < 1 then Err(IncorrectLength)
      else if length > MAX_DATA_SIZE then Err(FrameTooLarge)
      else if |rest| < 1 then Err(Eof)
      else if CheckID(id).Some? then Err(CheckID(id).value)
      else if |rest| < length then Err(Eof)
      else Ok(Read(Response(b % 32, b / 32, id, rest[0] / 64, rest[0] % 64, rest[1..length]), 8 + length))
    else if kind == DATA then
      if length > MAX_DATA_SIZE then Err(FrameTooLarge)
      else if |rest| < length then Err(Eof)
      else Ok(Read(Data(b, id, rest[..length]), 8 + length))
    else if kind == ERROR then
      if length != 1 then Err(IncorrectLength)
      else if |rest| < 1 then Err(Eof)
      else Ok(Read(Error(id, rest[0]), 9))
    else if kind == HEADERS then
      if length > MAX_DATA_SIZE then Err(FrameTooLarge)
      else if CheckID(id).Some? then Err(CheckID(id).value)
      else if |rest| < length then Err(Eof)
      else Ok(Read(Headers(b, id, rest[..length]), 8 + length))
    else if kind == PUSH then
      if length < 4 then Err(IncorrectLength)
      else if length > MAX_DATA_SIZE then Err(FrameTooLarge)
      else if |rest| < 4 then Err(Eof)
      else if CheckID(id).Some? then Err(CheckID(id).value)
      else if !ValidID(FromU32(rest[..4])) then Err(IdTooLarge)
      else if |rest| < length then Err(Eof)
      else Ok(Read(Push(b % 32, b / 32, id, FromU32(rest[..4]), rest[4..length]), 8 + length))
    else
      if length != 0 then Err(IncorrectLength)
      else Ok(Read(Ping(b, id), 8))
  }

  // -------------------------------------------------------------- round trip

  /** The frames the wire format carries without loss: every field within the bits
      it is given, the payload within the sixteen-bit length, and not one of the
      two types whose writer and reader disagree. */
  predicate Carried(f: WireFrame) {
    && PayloadLength(f) <= 0xffff
    && !f.Error? && !f.Ping?
    && (f.Request? || f.Response? || f.Push? ==> f.flags < 32 && f.priority < 8)
    && (f.Response? ==> f.code < 4 && f.subcode < 64)
  }

  lemma DecodeHead(length: nat, kind: byte, b: byte, id: uint32, rest: Bytes)
    requires kind <= PING
    ensures Decode(Head(length, kind, b, id) + rest)
         == DecodeBody(kind, length % 0x1_0000, b, id, rest)
  {
    hide DecodeBody, FromU32, FromU16, Head;
    HeadParts(length, kind, b, id, rest);
    U32RoundTrip(id);
  }

  lemma HeadParts(length: nat, kind: byte, b: byte, id: uint32, rest: Bytes)
    ensures var s := Head(length, kind, b, id) + rest;
      && |s| >= 8 && s[2] == kind && s[3] == b && s[4..8] == U32(id) && s[8..] == rest
      && FromU16(s) == length % 0x1_0000
  {
    var s, hi, lo := Head(length, kind, b, id) + rest, length / 0x100, length % 0x100;
    assert s[4..8] == U32(id) && s[8..] == rest;
    assert s[0] == hi % 0x100 && s[1] == lo;
    hide U32, FromU32, Head;
    Low16(length);
  }

  lemma Low16(n: nat)
    ensures ((n / 0x100) % 0x100) * 0x100 + n % 0x100 == n % 0x1_0000
  {
  }

  lemma EncodeLayout(f: WireFrame, l: Layout)
    requires LayoutOf(f) == l
    ensures Encode(f) == Head(l.length, l.kind, l.b, l.id) + l.body
  {
  }

  lemma DecodeLayout(f: WireFrame, rest: Bytes)
    ensures var l := LayoutOf(f);
      Decode(Encode(f) + rest) == DecodeBody(l.kind, l.length % 0x1_0000, l.b, l.id, l.body + rest)
  {
    var l := LayoutOf(f);
    assert Encode(f) + rest == Head(l.length, l.kind, l.b, l.id) + (l.body + rest);
    DecodeHead(l.length, l.kind, l.b, l.id, l.body + rest);
  }

  /** The flags byte and code byte of a layout are right for the frame exactly as
      far as the fields fit the bits they are given. */
  predicate Unpacks(f: WireFrame, b: byte, c: byte) {
    && (f.Request? || f.Response? || f.Push? ==>
          (b % 32 == f.flags <==> f.flags < 32) && (b / 32 == f.priority <==> f.priority < 8))
    && (f.Data? || f.Headers? ==> b == f.flags)
    && (f.Response? ==> (c % 64 == f.subcode <==> f.subcode < 64) && (c / 64 == f.code <==> f.code < 4))
  }

  lemma LayoutUnpacks(f: WireFrame)
    requires !f.Error? && !f.Ping?
    ensures Unpacks(f, LayoutOf(f).b, if f.Response? then LayoutOf(f).body[0] else 0)
  {
    if f.Request? || f.Response? || f.Push? {
      PackFlagsLow(f.flags, f.priority);
      PackFlagsHigh(f.flags, f.priority);
    }
    if f.Response? {
      PackCodeLow(f.code, f.subcode);
      PackCodeHigh(f.code, f.subcode);
    }
  }

  lemma PlainBody(f: WireFrame, rest: Bytes, length: nat, b: byte)
    requires f.Request? || f.Data? || f.Headers?
    requires CheckID(f.id).None? && length <= PayloadLength(f)
    requires length == PayloadLength(f) <==> PayloadLength(f) <= 0xffff
    requires Unpacks(f, b, 0)
    ensures var kind := if f.Request? then REQUEST else if f.Data? then DATA else HEADERS;
      var body := if f.Data? then f.data else f.header;
      Carried(f) <==> DecodeBody(kind, length, b, f.id, body + rest) == Ok(Read(f, 8 + PayloadLength(f)))
  {
    var body := if f.Data? then f.data else f.header;
    assert (body + rest)[..|body|] == body;
  }

  lemma ResponseBody(f: WireFrame, rest: Bytes, length: nat, b: byte, c: byte)
    requires f.Response?
    requires CheckID(f.id).None? && length <= PayloadLength(f)
    requires length == PayloadLength(f) <==> PayloadLength(f) <= 0xffff
    requires Unpacks(f, b, c)
    ensures Carried(f) <==> DecodeBody(RESPONSE, length, b, f.id, [c] + f.header + rest)
                            == Ok(Read(f, 8 + PayloadLength(f)))
  {
    var body := [c] + f.header;
    assert (body + rest)[0] == c;
    assert (body + rest)[1..|body|] == f.header;
  }

  lemma PushBody(f: WireFrame, rest: Bytes, length: nat, b: byte)
    requires f.Push?
    requires EncodeError(f).None? && length <= PayloadLength(f)
    requires length == PayloadLength(f) <==> PayloadLength(f) <= 0xffff
    requires Unpacks(f, b, 0)
    ensures Carried(f) <==> DecodeBody(PUSH, length, b, f.id, U32(f.assoc) + f.header + rest)
                            == Ok(Read(f, 8 + PayloadLength(f)))
  {
    var body := U32(f.assoc) + f.header;
    U32RoundTrip(f.assoc);
    assert (body + rest)[..4] == U32(f.assoc);
    assert (body + rest)[4..|body|] == f.header;
  }

  lemma LayoutRoundTrip(f: WireFrame, rest: Bytes)
    requires EncodeError(f).None? && !f.Error? && !f.Ping?
    ensures var l := LayoutOf(f);
      Carried(f) <==> DecodeBody(l.kind, l.length % 0x1_0000, l.b, l.id, l.body + rest)
                      == Ok(Read(f, 8 + PayloadLength(f)))
  {
    LayoutUnpacks(f);
    var l := LayoutOf(f);
    if f.Response? {
      ResponseBody(f, rest, l.length % 0x1_0000, l.b, l.body[0]);
    } else if f.Push? {
      PushBody(f, rest, l.length % 0x1_0000, l.b);
    } else {
      PlainBody(f, rest, l.length % 0x1_0000, l.b);
    }
  }

  /** The codec law, both ways: reading back what WriteTo wrote gives the frame
      again, with exactly its bytes consumed, if and only if the frame is Carried. */
  lemma RoundTripExactly(f: WireFrame, rest: Bytes)
    requires EncodeError(f).None?
    ensures Decode(Encode(f) + rest) == Ok(Read(f, 8 + PayloadLength(f))) <==> Carried(f)
  {
    if f.Error? {
      MiswrittenFrames(f.id, f.status, 0, 0, rest);
    } else if f.Ping? {
      MiswrittenFrames(1, 0, f.flags, f.pid, rest);
    } else {
      DecodeLayout(f, rest);
      LayoutRoundTrip(f, rest);
    }
  }

  /** What an ERROR frame really arrives as, and that no PING arrives at all. */
  lemma MiswrittenFrames(id: uint32, status: uint32, flags: byte, pid: uint32, rest: Bytes)
    ensures Decode(Encode(Error(id, status)) + rest) == Ok(Read(Data(0, id, [status % 256]), 9))
    ensures Decode(Encode(Ping(flags, pid)) + rest) == Err(IncorrectLength)
  {
    DecodeLayout(Error(id, status), rest);
    assert ([status % 256] + rest)[..1] == [status % 256];
    DecodeLayout(Ping(flags, pid), rest);
  }

  // --------------------------------------------------------------- canonical

  lemma HeadOfBytes(s: Bytes)
    requires |s| >= 8
    ensures s[..8] == Head(FromU16(s), s[2], s[3], FromU32(s[4..8]))
  {
    FromU32RoundTrip(s[4..8]);
    assert s[..8] == s[..2] + [s[2], s[3]] + s[4..8];
  }

  /** The frames that WriteTo gives back byte for byte. */
  predicate Rewritable(f: WireFrame) {
    !f.Error? && !f.Ping? && CheckID(f.id).None?
  }

  lemma ResponseIsCanonical(length: nat, b: byte, id: uint32, rest: Bytes, f: WireFrame, n: nat)
    requires DecodeBody(RESPONSE, length, b, id, rest) == Ok(Read(f, n))
    ensures LayoutOf(f) == Layout(length, RESPONSE, b, id, rest[..n - 8])
  {
    ResponseParts(length, b, id, rest, f, n);
    hide DecodeBody, PackFlags, PackCode;
    UnpackFlags(b);
    UnpackCode(rest[0]);
    assert rest[..n - 8] == [rest[0]] + rest[1..n - 8];
  }

  lemma ResponseParts(length: nat, b: byte, id: uint32, rest: Bytes, f: WireFrame, n: nat)
    requires DecodeBody(RESPONSE, length, b, id, rest) == Ok(Read(f, n))
    ensures 1 <= length <= |rest| && n == 8 + length
    ensures f == Response(b % 32, b / 32, id, rest[0] / 64, rest[0] % 64, rest[1..length])
  {
  }

  lemma PushParts(length: nat, b: byte, id: uint32, rest: Bytes, f: WireFrame, n: nat)
    requires DecodeBody(PUSH, length, b, id, rest) == Ok(Read(f, n))
    ensures 4 <= length <= |rest| && n == 8 + length
    ensures f == Push(b % 32, b / 32, id, FromU32(rest[..4]), rest[4..length])
  {
    hide FromU32;
  }

  lemma PushIsCanonical(length: nat, b: byte, id: uint32, rest: Bytes, f: WireFrame, n: nat)
    requires DecodeBody(PUSH, length, b, id, rest) == Ok(Read(f, n))
    ensures LayoutOf(f) == Layout(length, PUSH, b, id, rest[..n - 8])
  {
    PushParts(length, b, id, rest, f, n);
    hide DecodeBody, PackFlags, FromU32, U32;
    UnpackFlags(b);
    FromU32RoundTrip(rest[..4]);
    assert rest[..n - 8] == rest[..4] + rest[4..n - 8];
  }

  lemma BodyIsCanonical(kind: byte, length: nat, b: byte, id: uint32, rest: Bytes, f: WireFrame, n: nat)
    requires kind <= PING
    requires DecodeBody(kind, length, b, id, rest) == Ok(Read(f, n))
    requires !f.Error? && !f.Ping?
    ensures LayoutOf(f) == Layout(length, kind, b, id, rest[..n - 8])
    ensures n == 8 + length
  {
    KindOf(kind, length, b, id, rest, f, n);
    hide DecodeBody, PackFlags, PackCode;
    if f.Response? {
      ResponseIsCanonical(length, b, id, rest, f, n);
    } else if f.Push? {
      PushIsCanonical(length, b, id, rest, f, n);
    } else {
      UnpackFlags(b);
    }
  }

  /** The frame's type is its kind's; those without a further field hold the payload as
      it is. */
  lemma KindOf(kind: byte, length: nat, b: byte, id: uint32, rest: Bytes, f: WireFrame, n: nat)
    requires kind <= PING
    requires DecodeBody(kind, length, b, id, rest) == Ok(Read(f, n))
    ensures f.Response? ==> kind == RESPONSE
    ensures f.Push? ==> kind == PUSH
    ensures !f.Error? && !f.Ping? ==> length <= |rest| && n == 8 + length
    ensures f.Request? ==> kind == REQUEST && f == Request(b % 32, b / 32, id, rest[..length])
    ensures f.Data? ==> kind == DATA && f == Data(b, id, rest[..length])
    ensures f.Headers? ==> kind == HEADERS && f == Headers(b, id, rest[..length])
  {
    hide FromU32;
  }

  /** A frame that was read is one that can be carried. */
  lemma DecodedIsCarried(s: Bytes, f: WireFrame, n: nat)
    requires Decode(s) == Ok(Read(f, n))
    ensures f.Error? || f.Ping? || Carried(f)
    ensures n == 8 + PayloadLength(f)
  {
  }

  /** The bytes of an accepted frame are its layout. */
  lemma BytesAreLayout(s: Bytes, f: WireFrame, n: nat)
    requires Decode(s) == Ok(Read(f, n))
    requires !f.Error? && !f.Ping?
    ensures Encode(f) == s[..n]
  {
    HeadOfBytes(s);
    BodyIsCanonical(s[2], FromU16(s), s[3], FromU32(s[4..8]), s[8..], f, n);
    EncodeLayout(f, Layout(FromU16(s), s[2], s[3], FromU32(s[4..8]), s[8..][..n - 8]));
    assert s[..n] == s[..8] + s[8..][..n - 8];
  }

  /** Decoding is canonical: writing an accepted frame again reproduces the bytes
      that were consumed, and both directions report eight plus the payload length. */
  lemma DecodeIsCanonical(s: Bytes, f: WireFrame, n: nat)
    requires Decode(s) == Ok(Read(f, n)) && Rewritable(f)
    ensures EncodeError(f).None? && Carried(f)
    ensures Encode(f) == s[..n]
    ensures n == 8 + PayloadLength(f)
  {
    DecodedIsCarried(s, f, n);
    BytesAreLayout(s, f, n);
  }

  /** No two byte strings decode to the same frame, other than an ERROR frame. */
  lemma DecodeIsInjective(s: Bytes, t: Bytes, f: WireFrame, m: nat, n: nat)
    requires Decode(s) == Ok(Read(f, m)) && Decode(t) == Ok(Read(f, n))
    requires !f.Error?
    ensures s[..m] == t[..n]
  {
    if f.Ping? {
      HeadOfBytes(s);
      HeadOfBytes(t);
    } else {
      BytesAreLayout(s, f, m);
      BytesAreLayout(t, f, n);
    }
  }

  /** The exception: the flags byte of an ERROR frame is read and forgotten. */
  lemma ErrorFlagsAreForgotten(id: uint32, status: byte, a: byte, b: byte)
    ensures Decode(Head(1, ERROR, a, id) + [status]) == Ok(Read(Error(id, status), 9))
    ensures Decode(Head(1, ERROR, a, id) + [status]) == Decode(Head(1, ERROR, b, id) + [status])
  {
    DecodeHead(1, ERROR, a, id, [status]);
    DecodeHead(1, ERROR, b, id, [status]);
  }

  // --------------------------------------------------------- self-delimiting

  /** Whatever follows the bytes of a frame changes neither the frame nor the count. */
  lemma DecodeIgnoresWhatFollows(s: Bytes, t: Bytes)
    requires Decode(s).Ok?
    ensures Decode(s + t) == Decode(s)
  {
    var rest := s[8..];
    assert (s + t)[8..] == rest + t;
    assert (s + t)[4..8] == s[4..8];
    var n := Decode(s).value.consumed - 8;
    assert (rest + t)[..n] == rest[..n];
    if s[2] == RESPONSE {
      assert (rest + t)[1..n] == rest[1..n];
    }
    if s[2] == PUSH {
      assert (rest + t)[..4] == rest[..4];
      assert (rest + t)[4..n] == rest[4..n];
    }
  }

  // -------------------------------------------------------------- the bytes

  /** A big-endian number. */
  function Big(bs: Bytes): nat {
    if bs == [] then 0 else Big(bs[..|bs| - 1]) * 0x100 + bs[|bs| - 1] as int
  }

  lemma BigTwo(a: byte, b: byte)
    ensures Big([a, b]) == a as int * 0x100 + b
  {
    assert [a, b][..1] == [a] && [a][..0] == [];
    assert Big([]) == 0;
    assert Big([a]) == a as int;
  }

  lemma BigFour(bs: Bytes)
    requires |bs| == 4
    ensures Big(bs) == FromU32(bs)
  {
    assert bs == [bs[0], bs[1], bs[2], bs[3]];
    BigTwo(bs[0], bs[1]);
    assert bs[..3] == [bs[0], bs[1], bs[2]] && [bs[0], bs[1], bs[2]][..2] == [bs[0], bs[1]];
    assert Big(bs[..3]) == Big([bs[0], bs[1]]) * 0x100 + bs[2] as int;
  }

  /** The numbers of the frame types, as they go out: ERROR has that of DATA. */
  function Kind(f: WireFrame): byte {
    match f
    case Request(_, _, _, _) => 0
    case Response(_, _, _, _, _, _) => 1
    case Data(_, _, _) => 2
    case Error(_, _) => 2
    case Headers(_, _, _) => 4
    case Push(_, _, _, _, _) => 5
    case Ping(_, _) => 6
  }

  lemma LayoutBytes(length: nat, kind: byte, b: byte, id: uint32, body: Bytes)
    ensures var bs := Head(length, kind, b, id) + body;
      && |bs| == 8 + |body| && Big(bs[..2]) == length % 0x1_0000 && bs[2] == kind && Big(bs[4..8]) == id
      && bs[8..] == body
  {
    hide Big, U32, FromU32, Head;
    var bs := Head(length, kind, b, id) + body;
    HeadParts(length, kind, b, id, body);
    assert bs[..2] == [bs[0], bs[1]];
    BigTwo(bs[0], bs[1]);
    U32RoundTrip(id);
    BigFour(bs[4..8]);
  }

  lemma LayoutMeans(f: WireFrame)
    ensures var l := LayoutOf(f);
      && l.length == (if f.Ping? then 6 else PayloadLength(f)) && l.kind == Kind(f)
      && l.id == (if f.Ping? then f.pid else f.id)
      && (f.Data? ==> l.body == f.data) && (f.Request? || f.Headers? ==> l.body == f.header)
      && (f.Response? ==> |l.body| >= 1 && l.body[1..] == f.header)
      && (f.Push? ==> |l.body| >= 4 && l.body[..4] == U32(f.assoc) && l.body[4..] == f.header)
  {
  }

  /** What is on the wire: the length, the type and the stream ID of a frame, big-endian, and
      its payload; a PING has a length of 6. */
  lemma EncodedBytes(f: WireFrame)
    ensures var bs := Encode(f);
      && |bs| == 8 + PayloadLength(f)
      && Big(bs[..2]) == (if f.Ping? then 6 else PayloadLength(f)) % 0x1_0000
      && bs[2] == Kind(f) && Big(bs[4..8]) == (if f.Ping? then f.pid else f.id)
      && (f.Data? ==> bs[8..] == f.data) && (f.Request? || f.Headers? ==> bs[8..] == f.header)
      && (f.Response? ==> bs[9..] == f.header)
      && (f.Push? ==> Big(bs[8..12]) == f.assoc && bs[12..] == f.header)
  {
    hide Big, U32, FromU32, LayoutOf, Head, Kind;
    var l, bs := LayoutOf(f), Encode(f);
    LayoutMeans(f);
    LayoutBytes(l.length, l.kind, l.b, l.id, l.body);
    if f.Response? {
      assert bs[9..] == bs[8..][1..];
    }
    if f.Push? {
      assert bs[8..12] == bs[8..][..4] && bs[12..] == bs[8..][4..];
      U32RoundTrip(f.assoc);
      BigFour(bs[8..12]);
    }
  }

  /** Which frames a writer refuses: those on a stream ID that is zero or has more than 31
      bits, PUSH also for its associated ID; ERROR and PING go out on any. */
  lemma RefusedExactly(f: WireFrame)
    ensures EncodeError(f).Some? <==>
      !f.Error? && !f.Ping? && (f.id == 0 || f.id >= 0x8000_0000 || (f.Push? && f.assoc >= 0x8000_0000))
  {
  }

  /** Which bytes begin with a frame that is accepted: its type is known, all of it is
      there, and length and ID are ones that the type allows. DATA and ERROR take any ID. */
  predicate Acceptable(s: Bytes) {
    |s| >= 8 &&
    var n, id := Big(s[..2]), Big(s[4..8]);
    match s[2]
    case 0 => 1 <= id <= 0x7fffffff && n <= |s| - 8
    case 1 => 1 <= id <= 0x7fffffff && 1 <= n <= |s| - 8
    case 2 => n <= |s| - 8
    case 3 => n == 1 && |s| >= 9
    case 4 => 1 <= id <= 0x7fffffff && n <= |s| - 8
    case 5 => 1 <= id <= 0x7fffffff && 4 <= n <= |s| - 8 && Big(s[8..12]) <= 0x7fffffff
    case 6 => n == 0
    case _ => false
  }

  /** The reader accepts exactly those, and takes as many bytes as the length says. */
  lemma AcceptedExactly(s: Bytes)
    ensures Decode(s).Ok? <==> Acceptable(s)
    ensures Decode(s).Ok? ==> Decode(s).value.consumed == 8 + Big(s[..2])
  {
    if |s| >= 8 {
      assert s[..2] == [s[0], s[1]];
      BigTwo(s[0], s[1]);
      BigFour(s[4..8]);
      if |s| >= 12 {
        assert s[8..][..4] == s[8..12];
        BigFour(s[8..12]);
      }
    }
    hide Big, FromU32;
  }

  /** The frames on a byte stream, up to the first that cannot be read. */
  function DecodeAll(s: Bytes): (fs: seq<WireFrame>)
    decreases |s|
  {
    match Decode(s)
    case Err(_) => []
    case Ok(Read(f, n)) => [f] + DecodeAll(s[n..])
  }

  function EncodeAll(fs: seq<WireFrame>): Bytes {
    if fs == [] then [] else Encode(fs[0]) + EncodeAll(fs[1..])
  }

  predicate Sendable(f: WireFrame) {
    EncodeError(f).None? && Carried(f)
  }

  /** Frames written one after another are read back one after another. */
  lemma {:induction false} StreamRoundTrip(fs: seq<WireFrame>)
    requires forall i :: 0 <= i < |fs| ==> Sendable(fs[i])
    ensures DecodeAll(EncodeAll(fs)) == fs
  {
    if fs != [] {
      var rest := EncodeAll(fs[1..]);
      RoundTripExactly(fs[0], rest);
      assert (Encode(fs[0]) + rest)[|Encode(fs[0])|..] == rest;
      StreamRoundTrip(fs[1..]);
    } else {
      assert DecodeAll([]) == [];
    }
  }
}
