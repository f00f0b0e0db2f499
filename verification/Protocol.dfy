// The vocabulary every other module shares: machine integers, the constants of
// the protocol, header sets and the seven frame types.

module Protocol {
  type byte = b: int | 0 <= b < 256
  type uint32 = n: int | 0 <= n < 0x1_0000_0000
  type Bytes = seq<byte>

  /** An HTTP header set: canonical name to its list of values. */
  type Header = map<Bytes, seq<Bytes>>

  datatype Option<+T> = None | Some(value: T)

  datatype Result<+T, +E> = Ok(value: T) | Err(error: E)

  const REQUEST: byte := 0
  const RESPONSE: byte := 1
  const DATA: byte := 2
  const ERROR: byte := 3
  const HEADERS: byte := 4
  const PUSH: byte := 5
  const PING: byte := 6

  const FLAG_FINISH: byte := 1

  const MAX_FRAME_SIZE := 0xffffff
  const MAX_DATA_SIZE := 0xfffff7
  const MAX_STREAM_ID := 0x7fffffff
  const MAX_BENIGN_ERRORS := 10

  const PROTOCOL_ERROR: uint32 := 1
  const INVALID_STREAM: uint32 := 2
  const REFUSED_STREAM: uint32 := 3
  const STREAM_CLOSED: uint32 := 4
  const INTERNAL_ERROR: uint32 := 6
  const FINISH_STREAM: uint32 := 7

  /** A frame, over the form its name/value block currently has: a header set
      before compression, bytes after it. */
  datatype Frame<+H> =
    | Request(flags: byte, priority: byte, id: uint32, header: H)
    | Response(flags: byte, priority: byte, id: uint32, code: byte, subcode: byte, header: H)
    | Data(flags: byte, id: uint32, data: Bytes)
    | Error(id: uint32, status: uint32)
    | Headers(flags: byte, id: uint32, header: H)
    | Push(flags: byte, priority: byte, id: uint32, assoc: uint32, header: H)
    | Ping(flags: byte, pid: uint32)

  predicate Finish(flags: byte) {
    flags % 2 == 1
  }

  predicate ValidID(id: uint32) {
    id <= MAX_STREAM_ID
  }

  predicate Odd(id: int) {
    id % 2 == 1
  }

  /** Frames that belong to the stream with their ID and carry part of its exchange. */
  predicate OnStream<H>(f: Frame<H>, id: uint32) {
    (f.Data? || f.Response? || f.Headers?) && f.id == id
  }

  /** The part of a frame sequence that belongs to one stream. */
  function Project<H>(fs: seq<Frame<H>>, id: uint32): (r: seq<Frame<H>>)
  {
    if fs == [] then []
    else (if OnStream(fs[0], id) then [fs[0]] else []) + Project(fs[1..], id)
  }

  lemma {:induction false} ProjectAppend<H>(a: seq<Frame<H>>, b: seq<Frame<H>>, id: uint32)
    ensures Project(a + b, id) == Project(a, id) + Project(b, id)
  {
    if a == [] {
      assert a + b == b;
    } else {
      var head := if OnStream(a[0], id) then [a[0]] else [];
      assert (a + b)[0] == a[0] && (a + b)[1..] == a[1..] + b;
      ProjectAppend(a[1..], b, id);
      assert head + (Project(a[1..], id) + Project(b, id)) == (head + Project(a[1..], id)) + Project(b, id);
    }
  }
}
