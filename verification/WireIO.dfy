// Reading and writing frames over a connection that delivers bytes in arbitrary
// fragments: the loops of interfaces.go and the ReadFrom and WriteTo methods of
// frames.go, proved against the codec of module Wire.

module WireIO {
  import opened Protocol
  import opened Wire

  function Flatten(chunks: seq<Bytes>): (bs: Bytes) {
    if chunks == [] then [] else chunks[0] + Flatten(chunks[1..])
  }

  /** The receiving side of a connection. The bytes arrive in the fragments of
      `chunks`, some of them possibly empty, and then the stream ends. */
  class Reader {
    var chunks: seq<Bytes>

    constructor (chunks: seq<Bytes>)
      ensures this.chunks == chunks
    {
      this.chunks := chunks;
    }

    function Contents(): Bytes
      reads this
    {
      Flatten(chunks)
    }

    /** One call of io.Reader.Read: at most the rest of `into`, at most one fragment. */
    method ReadSome(into: array<byte>, from: nat) returns (n: nat, eof: bool)
      requires from < into.Length
      modifies this, into
      ensures eof <==> old(chunks) == []
      ensures eof ==> n == 0
      ensures from + n <= into.Length && n <= |old(Contents())|
      ensures into[..from] == old(into[..from])
      ensures into[from..from + n] == old(Contents())[..n]
      ensures Contents() == old(Contents())[n..]
      ensures |chunks| <= |old(chunks)|
      ensures !eof && n == 0 ==> |chunks| < |old(chunks)|
    {
      if chunks == [] {
        return 0, true;
      }
      eof := false;
      var head := chunks[0];
      n := if |head| < into.Length - from then |head| else into.Length - from;
      forall i | 0 <= i < n {
        into[from + i] := head[i];
      }
      chunks := if n == |head| then chunks[1..] else [head[n..]] + chunks[1..];
    }

    /** The helper `read`: exactly the next `count` bytes, however they arrive. */
    method ReadFull(count: nat) returns (out: array<byte>, eof: bool)
      modifies this
      ensures fresh(out) && out.Length == count
      ensures eof <==> |old(Contents())| < count
      ensures !eof ==> out[..] == old(Contents())[..count] && Contents() == old(Contents())[count..]
    {
      out := new byte[count];
      var got := 0;
      eof := false;
      while got < count
        invariant 0 <= got <= count && got <= |old(Contents())|
        invariant out[..got] == old(Contents())[..got]
        invariant Contents() == old(Contents())[got..]
        decreases count - got, |chunks|
      {
        var n;
        n, eof := ReadSome(out, got);
        if eof {
          return;
        }
        assert out[..got + n] == out[..got] + out[got..got + n];
        got := got + n;
      }
    }

    /** bufio's Peek: fragments are gathered until `count` bytes are buffered. */
    method Peek(count: nat) returns (bs: Bytes, eof: bool)
      requires count > 0
      modifies this
      ensures Contents() == old(Contents())
      ensures eof <==> |Contents()| < count
      ensures !eof ==> bs == Contents()[..count]
    {
      while |chunks| > 1 && |chunks[0]| < count
        invariant Contents() == old(Contents())
        decreases |chunks|
      {
        assert chunks[1..][1..] == chunks[2..];
        chunks := [chunks[0] + chunks[1]] + chunks[2..];
      }
      assert chunks != [] ==> Contents() == chunks[0] + Flatten(chunks[1..]);
      if chunks != [] && |chunks[0]| >= count {
        return chunks[0][..count], false;
      }
      return [], true;
    }
  }

  // ---------------------------------------------------------------- reading

  /** `r` and the bytes left are what Decode says of the bytes there were. */
  predicate Decoded(before: Bytes, r: Result<WireFrame, WireError>, after: Bytes) {
    match Decode(before)
    case Err(e) => r == Err(e)
    case Ok(Read(f, n)) => r == Ok(f) && after == before[n..]
  }

  /** The head every ReadFrom starts with: length, flags byte and ID. */
  method ReadHead(reader: Reader, kind: byte) returns (err: Option<WireError>, length: nat, b: byte, id: uint32)
    modifies reader
    ensures err == if |old(reader.Contents())| < 8 then Some(Eof)
                   else if old(reader.Contents())[2] != kind then Some(IncorrectFrame)
                   else None
    ensures err.None? ==> length == FromU16(old(reader.Contents())) && b == old(reader.Contents())[3]
    ensures err.None? ==> id == FromU32(old(reader.Contents())[4..8])
    ensures err.None? ==> reader.Contents() == old(reader.Contents())[8..]
  {
    var data, eof := reader.ReadFull(8);
    if eof {
      return Some(Eof), 0, 0, 0;
    }
    if data[2] != kind {
      return Some(IncorrectFrame), 0, 0, 0;
    }
    assert data[..][4..8] == old(reader.Contents())[4..8];
    return None, FromU16(data[..2]), data[3], FromU32(data[4..8]);
  }

  method ReadRequest(reader: Reader) returns (r: Result<WireFrame, WireError>)
    requires |reader.Contents()| >= 3 && reader.Contents()[2] == REQUEST
    modifies reader
    ensures Decoded(old(reader.Contents()), r, reader.Contents())
  {
    var err, length, b, id := ReadHead(reader, REQUEST);
    if err.Some? { return Err(err.value); }
    if length > MAX_DATA_SIZE { return Err(FrameTooLarge); }
    if !ValidID(id) { return Err(IdTooLarge); }
    if id == 0 { return Err(IdZero); }
    var raw, eof := reader.ReadFull(length);
    if eof { return Err(Eof); }
    r := Ok(Request(b % 32, b / 32, id, raw[..]));
  }

  method ReadResponse(reader: Reader) returns (r: Result<WireFrame, WireError>)
    requires |reader.Contents()| >= 3 && reader.Contents()[2] == RESPONSE
    modifies reader
    ensures Decoded(old(reader.Contents()), r, reader.Contents())
  {
    var err, length, b, id := ReadHead(reader, RESPONSE);
    if err.Some? { return Err(err.value); }
    if length < 1 { return Err(IncorrectLength); }
    if length > MAX_DATA_SIZE { return Err(FrameTooLarge); }
    var code, eof := reader.ReadFull(1);
    if eof { return Err(Eof); }
    if !ValidID(id) { return Err(IdTooLarge); }
    if id == 0 { return Err(IdZero); }
    ghost var rest := old(reader.Contents())[8..];
    assert code[..][0] == rest[0];
    var raw, end := reader.ReadFull(length - 1);
    if end { return Err(Eof); }
    assert rest[1..][..length - 1] == rest[1..length];
    r := Ok(Response(b % 32, b / 32, id, code[0] / 64, code[0] % 64, raw[..]));
  }

  method ReadData(reader: Reader) returns (r: Result<WireFrame, WireError>)
    requires |reader.Contents()| >= 3 && reader.Contents()[2] == DATA
    modifies reader
    ensures Decoded(old(reader.Contents()), r, reader.Contents())
  {
    var err, length, b, id := ReadHead(reader, DATA);
    if err.Some? { return Err(err.value); }
    if length > MAX_DATA_SIZE { return Err(FrameTooLarge); }
    var payload, eof := reader.ReadFull(length);
    if eof { return Err(Eof); }
    r := Ok(Data(b, id, payload[..]));
  }

  method ReadError(reader: Reader) returns (r: Result<WireFrame, WireError>)
    requires |reader.Contents()| >= 3 && reader.Contents()[2] == ERROR
    modifies reader
    ensures Decoded(old(reader.Contents()), r, reader.Contents())
  {
    var err, length, b, id := ReadHead(reader, ERROR);
    if err.Some? { return Err(err.value); }
    if length != 1 { return Err(IncorrectLength); }
    var code, eof := reader.ReadFull(1);
    if eof { return Err(Eof); }
    assert code[..][0] == old(reader.Contents())[8..][0];
    r := Ok(Error(id, code[0]));
  }

  method ReadHeaders(reader: Reader) returns (r: Result<WireFrame, WireError>)
    requires |reader.Contents()| >= 3 && reader.Contents()[2] == HEADERS
    modifies reader
    ensures Decoded(old(reader.Contents()), r, reader.Contents())
  {
    var err, length, b, id := ReadHead(reader, HEADERS);
    if err.Some? { return Err(err.value); }
    if length > MAX_DATA_SIZE { return Err(FrameTooLarge); }
    if !ValidID(id) { return Err(IdTooLarge); }
    if id == 0 { return Err(IdZero); }
    var raw, eof := reader.ReadFull(length);
    if eof { return Err(Eof); }
    r := Ok(Headers(b, id, raw[..]));
  }

  method ReadPush(reader: Reader) returns (r: Result<WireFrame, WireError>)
    requires |reader.Contents()| >= 3 && reader.Contents()[2] == PUSH
    modifies reader
    ensures Decoded(old(reader.Contents()), r, reader.Contents())
  {
    var err, length, b, id := ReadHead(reader, PUSH);
    if err.Some? { return Err(err.value); }
    if length < 4 { return Err(IncorrectLength); }
    if length > MAX_DATA_SIZE { return Err(FrameTooLarge); }
    var word, eof := reader.ReadFull(4);
    if eof { return Err(Eof); }
    var assoc := FromU32(word[..]);
    if !ValidID(id) { return Err(IdTooLarge); }
    if id == 0 { return Err(IdZero); }
    if !ValidID(assoc) { return Err(IdTooLarge); }
    ghost var rest := old(reader.Contents())[8..];
    var raw, end := reader.ReadFull(length - 4);
    if end { return Err(Eof); }
    assert rest[4..][..length - 4] == rest[4..length];
    r := Ok(Push(b % 32, b / 32, id, assoc, raw[..]));
  }

  method ReadPing(reader: Reader) returns (r: Result<WireFrame, WireError>)
    requires |reader.Contents()| >= 3 && reader.Contents()[2] == PING
    modifies reader
    ensures Decoded(old(reader.Contents()), r, reader.Contents())
  {
    var err, length, b, id := ReadHead(reader, PING);
    if err.Some? { return Err(err.value); }
    if length != 0 { return Err(IncorrectLength); }
    r := Ok(Ping(b, id));
  }

  /** readFrame: the type is peeked, then the frame of that type reads itself. The
      result depends on the bytes alone, not on how they were cut up. */
  method ReadFrame(reader: Reader) returns (r: Result<WireFrame, WireError>)
    modifies reader
    ensures Decoded(old(reader.Contents()), r, reader.Contents())
  {
    var start, eof := reader.Peek(3);
    if eof {
      return Err(Eof);
    }
    match start[2] {
      case 0 => r := ReadRequest(reader);
      case 1 => r := ReadResponse(reader);
      case 2 => r := ReadData(reader);
      case 3 => r := ReadError(reader);
      case 4 => r := ReadHeaders(reader);
      case 5 => r := ReadPush(reader);
      case 6 => r := ReadPing(reader);
      case _ => r := Err(UnknownType);
    }
  }

  /** Frame after frame until one cannot be read: the same sequence for every
      fragmentation of the same bytes. */
  method ReadFrames(reader: Reader) returns (fs: seq<WireFrame>)
    modifies reader
    ensures fs == DecodeAll(old(reader.Contents()))
  {
    fs := [];
    while true
      invariant DecodeAll(old(reader.Contents())) == fs + DecodeAll(reader.Contents())
      decreases |reader.Contents()|
    {
      ghost var before := reader.Contents();
      var r := ReadFrame(reader);
      if r.Err? {
        assert DecodeAll(before) == [];
        return;
      }
      assert DecodeAll(before) == [r.value] + DecodeAll(reader.Contents());
      fs := fs + [r.value];
    }
  }

  // ---------------------------------------------------------------- writing

  /** The sending side of a connection. One Write call takes at most the next of
      `steps` bytes, each at least one; when they run out it takes all it is given. */
  class Writer {
    var written: Bytes
    var steps: seq<nat>

    constructor (steps: seq<nat>)
      ensures written == [] && this.steps == steps
    {
      written := [];
      this.steps := steps;
    }

    method WriteSome(data: Bytes) returns (n: nat)
      requires data != []
      modifies this
      ensures 0 < n <= |data|
      ensures written == old(written) + data[..n]
    {
      n := |data|;
      if steps != [] {
        if 0 < steps[0] < n {
          n := steps[0];
        }
        steps := steps[1..];
      }
      written := written + data[..n];
    }

    /** The helper `write`: all of `data`, in however many steps. */
    method WriteFull(data: Bytes)
      modifies this
      ensures written == old(written) + data
    {
      var left := data;
      while left != []
        invariant |left| <= |data|
        invariant left == data[|data| - |left|..]
        invariant written == old(written) + data[..|data| - |left|]
        decreases |left|
      {
        var n := WriteSome(left);
        ghost var done := |data| - |left|;
        assert data[..done] + left[..n] == data[..done + n];
        left := left[n..];
      }
      assert data[..|data|] == data;
    }
  }

  /** The eight bytes the WriteTo methods fill in by index. */
  method FillHead(out: array<byte>, length: nat, kind: byte, flags: byte, id: uint32)
    requires out.Length >= 8
    modifies out
    ensures out[..8] == Head(length, kind, flags, id)
    ensures out[8..] == old(out[8..])
  {
    out[0] := (length / 0x100) % 0x100;
    out[1] := length % 0x100;
    out[2] := kind;
    out[3] := flags;
    out[4] := id / 0x100_0000;
    out[5] := (id / 0x1_0000) % 0x100;
    out[6] := (id / 0x100) % 0x100;
    out[7] := id % 0x100;
  }

  /** What a WriteTo method reports and leaves written. */
  predicate Encoded(f: WireFrame, before: Bytes, r: Result<nat, WireError>, after: Bytes) {
    match EncodeError(f)
    case Some(e) => r == Err(e) && after == before
    case None => r == Ok(if f.Ping? then 8 else 8 + PayloadLength(f)) && after == before + Encode(f)
  }

  /** The frames with nothing between head and payload: REQUEST, DATA and HEADERS. */
  method WritePlain(f: WireFrame, kind: byte, flags: byte, payload: Bytes, writer: Writer)
    returns (r: Result<nat, WireError>)
    requires f.Request? || f.Data? || f.Headers?
    requires f.Request? ==> kind == REQUEST && flags == PackFlags(f.flags, f.priority) && payload == f.header
    requires f.Data? ==> kind == DATA && flags == f.flags && payload == f.data
    requires f.Headers? ==> kind == HEADERS && flags == f.flags && payload == f.header
    modifies writer
    ensures Encoded(f, old(writer.written), r, writer.written)
  {
    if !ValidID(f.id) { return Err(IdTooLarge); }
    if f.id == 0 { return Err(IdZero); }
    var out := new byte[8];
    FillHead(out, |payload|, kind, flags, f.id);
    assert out[..] == out[..8];
    writer.WriteFull(out[..]);
    writer.WriteFull(payload);
    r := Ok(|payload| + 8);
  }

  method WriteResponse(f: WireFrame, writer: Writer) returns (r: Result<nat, WireError>)
    requires f.Response?
    modifies writer
    ensures Encoded(f, old(writer.written), r, writer.written)
  {
    if !ValidID(f.id) { return Err(IdTooLarge); }
    if f.id == 0 { return Err(IdZero); }
    var out := new byte[9];
    FillHead(out, 1 + |f.header|, RESPONSE, PackFlags(f.flags, f.priority), f.id);
    out[8] := PackCode(f.code, f.subcode);
    assert out[..] == out[..8] + [out[8]];
    writer.WriteFull(out[..]);
    writer.WriteFull(f.header);
    r := Ok(1 + |f.header| + 8);
  }

  method WriteError(f: WireFrame, writer: Writer) returns (r: Result<nat, WireError>)
    requires f.Error?
    modifies writer
    ensures Encoded(f, old(writer.written), r, writer.written)
  {
    var out := new byte[9];
    FillHead(out, 1, DATA, 0, f.id);
    out[8] := f.status % 256;
    assert out[..] == out[..8] + [out[8]];
    writer.WriteFull(out[..]);
    r := Ok(9);
  }

  method WritePush(f: WireFrame, writer: Writer) returns (r: Result<nat, WireError>)
    requires f.Push?
    modifies writer
    ensures Encoded(f, old(writer.written), r, writer.written)
  {
    if !ValidID(f.id) { return Err(IdTooLarge); }
    if f.id == 0 { return Err(IdZero); }
    if !ValidID(f.assoc) { return Err(IdTooLarge); }
    var out := new byte[12];
    FillHead(out, 4 + |f.header|, PUSH, PackFlags(f.flags, f.priority), f.id);
    out[8] := f.assoc / 0x100_0000;
    out[9] := (f.assoc / 0x1_0000) % 0x100;
    out[10] := (f.assoc / 0x100) % 0x100;
    out[11] := f.assoc % 0x100;
    assert out[..] == out[..8] + U32(f.assoc);
    writer.WriteFull(out[..]);
    writer.WriteFull(f.header);
    r := Ok(4 + |f.header| + 8);
  }

  method WritePing(f: WireFrame, writer: Writer) returns (r: Result<nat, WireError>)
    requires f.Ping?
    modifies writer
    ensures Encoded(f, old(writer.written), r, writer.written)
  {
    var out := new byte[8];
    FillHead(out, 6, PING, f.flags, f.pid);
    assert out[..] == out[..8];
    writer.WriteFull(out[..]);
    r := Ok(8);
  }

  /** WriteTo, for every type of frame and every way the connection splits writes. */
  method WriteTo(f: WireFrame, writer: Writer) returns (r: Result<nat, WireError>)
    modifies writer
    ensures Encoded(f, old(writer.written), r, writer.written)
  {
    match f
    case Request(flags, p, _, raw) => r := WritePlain(f, REQUEST, PackFlags(flags, p), raw, writer);
    case Response(_, _, _, _, _, _) => r := WriteResponse(f, writer);
    case Data(flags, _, data) => r := WritePlain(f, DATA, flags, data, writer);
    case Error(_, _) => r := WriteError(f, writer);
    case Headers(flags, _, raw) => r := WritePlain(f, HEADERS, flags, raw, writer);
    case Push(_, _, _, _, _) => r := WritePush(f, writer);
    case Ping(_, _) => r := WritePing(f, writer);
  }
}
