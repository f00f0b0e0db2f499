// serverStream of server_stream.go: the frames that a handler's calls turn into.

module ServerStreams {
  import opened Protocol
  import opened StreamStates
  import opened Chunking
  import opened HeaderBlock

  type F = Frame<Header>

  /** The fields of a stream that its calls read and write, and the frames it has put
      on its output channel. `live` is false once Close has cleared them. */
  datatype Server = Server(
    id: uint32,
    header: Header,
    wroteHeader: bool,
    wroteResponse: bool,
    state: State,
    live: bool,
    out: seq<F>)

  /** The stream of an accepted request. */
  function Accept(id: uint32, flags: byte): Server {
    Server(id, map[], false, false, if Finish(flags) then CloseThere(OPEN) else OPEN, true, [])
  }

  /** What is left after deleting every sent name: the keys that are not canonical. */
  function Cleared(h: Header): Header {
    h - set name | name in h :: Canonical(name)
  }

  function Flush(s: Server): Server {
    if s.header == map[] then s
    else s.(header := Cleared(s.header), out := s.out + [Headers(0, s.id, s.header)])
  }

  function WpToHttp(code: int, subcode: int): (r: int)
    ensures 100 <= r < 600
  {
    match (code, subcode)
    case (0, 0) => 200
    case (0, 1) => 304
    case (0, 2) => 206
    case (1, 0) => 303
    case (1, 1) => 301
    case (2, 0) => 400
    case (2, 1) => 403
    case (2, 2) => 404
    case (2, 3) => 410
    case (3, 0) => 500
    case (3, 1) => 503
    case (3, 2) => 504
    case _ => 500
  }

  function HttpToWp(code: int): (int, int) {
    if code in {100, 200, 201, 202, 203, 205, 204} then (0, 0)
    else if code == 304 then (0, 1)
    else if code == 206 then (0, 2)
    else if code == 301 then (1, 1)
    else if code in {302, 303, 305, 307} then (1, 0)
    else if code in {400, 405, 406, 408, 409, 411, 412, 413, 414, 415, 416, 417} then (2, 0)
    else if code in {401, 402, 403, 407} then (2, 1)
    else if code == 404 then (2, 2)
    else if code == 410 then (2, 3)
    else if code in {500, 501} then (3, 0)
    else if code in {502, 503} then (3, 1)
    else if code == 504 then (3, 2)
    else (3, 0)
  }

  function Itoa(n: int): Bytes
    requires 100 <= n < 1000
  {
    [48 + n / 100, 48 + (n / 10) % 10, 48 + n % 10]
  }

  /** header.Set of ":status" and ":version". */
  function WithStatus(h: Header, status: Bytes): Header {
    h[Ascii(":status") := [status]][Ascii(":version") := [Ascii("HTTP/1.1")]]
  }

  /** The responses that have no body. */
  predicate Bodiless(code: int, subcode: int) {
    (code == 0 && subcode == 1) || code == 1
  }

  function WriteResponse(s: Server, code: int, subcode: int): Server {
    if s.wroteResponse then s
    else
      var h := WithStatus(s.header, Itoa(WpToHttp(code, subcode)));
      var flags := if Bodiless(code, subcode) then FLAG_FINISH else 0;
      s.(wroteResponse := true,
         header := Cleared(h),
         state := if Bodiless(code, subcode) then CloseHere(s.state) else s.state,
         out := s.out + [Response(flags, 0, s.id, code % 256, subcode % 256, h)])
  }

  function WriteHeader(s: Server, code: int): Server {
    if s.wroteHeader then s
    else WriteResponse(s.(wroteHeader := true), HttpToWp(code).0, HttpToWp(code).1)
  }

  /** Whether Write accepts its input. */
  predicate Writable(s: Server) {
    s.live && !ClosedHere(s.state)
  }

  function Write(s: Server, data: Bytes): Server {
    if !Writable(s) then s
    else
      var t := Flush(WriteHeader(s, 200));
      t.(out := t.out + DataFrames(t.id, Chunks(data, MAX_DATA_SIZE)))
  }

  /** The end of Run, once the handler has returned. */
  function Epilogue(s: Server): Server {
    var closing :=
      if ClosedHere(s.state) then []
      else if !s.wroteResponse then
        [Response(FLAG_FINISH, 0, s.id, 0, 0, WithStatus(s.header, Ascii("200")))]
      else [Data(FLAG_FINISH, s.id, [])];
    s.(header := if !ClosedHere(s.state) && !s.wroteResponse then WithStatus(s.header, Ascii("200")) else s.header,
       state := CloseHere(s.state),
       out := s.out + closing)
  }

  function AfterClose(s: Server): Server {
    Flush(s).(header := map[], state := CLOSED, live := false)
  }

  // ------------------------------------------------------------------ handlers

  /** What a handler can do to its ResponseWriter; it may leave any header set. With a
      Write comes whether the connection has been stopped by then. */
  datatype Op =
    | SetHeader(header: Header)
    | CallWriteHeader(code: int)
    | CallWriteResponse(code: int, subcode: int)
    | CallWrite(data: Bytes, stopped: bool)

  function Exec(s: Server, op: Op): Server {
    match op
    case SetHeader(h) => s.(header := h)
    case CallWriteHeader(code) => WriteHeader(s, code)
    case CallWriteResponse(code, subcode) => WriteResponse(s, code, subcode)
    case CallWrite(data, stopped) => if stopped then s else Write(s, data)
  }

  /** Whether a call is a Write that is accepted. */
  predicate Accepts(s: Server, op: Op) {
    op.CallWrite? && !op.stopped && Writable(s)
  }

  function ExecAll(s: Server, ops: seq<Op>): Server
    decreases ops
  {
    if ops == [] then s else ExecAll(Exec(s, ops[0]), ops[1..])
  }

  /** The inputs of the Write calls that are accepted, one after another. */
  function Accepted(s: Server, ops: seq<Op>): (bs: Bytes)
    decreases ops
  {
    if ops == [] then []
    else
      (if Accepts(s, ops[0]) then ops[0].data else [])
      + Accepted(Exec(s, ops[0]), ops[1..])
  }

  /** The frames of a whole run of the stream. */
  function Emitted(id: uint32, flags: byte, ops: seq<Op>): (fs: seq<F>) {
    Epilogue(ExecAll(Accept(id, flags), ops)).out
  }

  // ------------------------------------------------------------------- grammar

  /** The body bytes of a frame sequence. */
  function Body(fs: seq<F>): (bs: Bytes) {
    if fs == [] then [] else (if fs[0].Data? then fs[0].data else []) + Body(fs[1..])
  }

  lemma {:induction false} BodyAppend(a: seq<F>, b: seq<F>)
    ensures Body(a + b) == Body(a) + Body(b)
  {
    if a == [] {
      assert a + b == b;
    } else {
      assert (a + b)[1..] == a[1..] + b;
      BodyAppend(a[1..], b);
    }
  }

  lemma {:induction false} BodyOfChunks(id: uint32, cs: seq<Bytes>)
    ensures Body(DataFrames(id, cs)) == Concat(cs)
  {
    if cs != [] {
      assert DataFrames(id, cs)[1..] == DataFrames(id, cs[1..]);
      BodyOfChunks(id, cs[1..]);
    }
  }

  function FlagsOf(f: F): byte {
    if f.Response? || f.Data? || f.Headers? then f.flags else 0
  }

  /** One RESPONSE, then any mix of HEADERS and DATA, all on the stream, with no
      FINISH before the last, and none on a HEADERS. */
  ghost predicate Grammar(id: uint32, fs: seq<F>) {
    && (forall i {:trigger fs[i]} :: 0 <= i < |fs| ==>
          OnStream(fs[i], id) && (fs[i].Response? <==> i == 0) && (fs[i].Headers? ==> !Finish(fs[i].flags)))
    && (forall i {:trigger fs[i]} :: 0 <= i < |fs| - 1 ==> !Finish(FlagsOf(fs[i])))
  }

  predicate Finished(fs: seq<F>) {
    fs != [] && Finish(FlagsOf(fs[|fs| - 1]))
  }

  ghost predicate Inv(s: Server) {
    && s.live
    && (s.wroteResponse <==> s.out != [])
    && (s.wroteHeader ==> s.wroteResponse)
    && Grammar(s.id, s.out)
    && (ClosedHere(s.state) <==> Finished(s.out))
  }

  /** Appending frames that carry no FINISH, to a sequence that has a RESPONSE and
      has not finished. */
  lemma GrammarAppend(id: uint32, fs: seq<F>, more: seq<F>)
    requires Grammar(id, fs) && fs != [] && !Finished(fs)
    requires forall i :: 0 <= i < |more| ==> (more[i].Headers? || more[i].Data?) && more[i].id == id
    requires forall i :: 0 <= i < |more| ==> !Finish(more[i].flags)
    ensures Grammar(id, fs + more) && !Finished(fs + more)
  {
  }

  lemma ResponseKeepsInv(s: Server, code: int, subcode: int)
    requires s.live && Grammar(s.id, s.out) && (s.wroteResponse <==> s.out != [])
    requires ClosedHere(s.state) <==> Finished(s.out)
    ensures Inv(WriteResponse(s, code, subcode))
    ensures Body(WriteResponse(s, code, subcode).out) == Body(s.out)
  {
  }

  lemma {:induction false} NoBody(fs: seq<F>)
    requires forall i :: 0 <= i < |fs| ==> !fs[i].Data?
    ensures Body(fs) == []
  {
    if fs != [] {
      NoBody(fs[1..]);
    }
  }

  lemma FlushKeepsInv(s: Server)
    requires Inv(s) && s.out != [] && !Finished(s.out)
    ensures Inv(Flush(s)) && Flush(s).out != [] && !Finished(Flush(s).out)
    ensures Body(Flush(s).out) == Body(s.out)
  {
    if s.header != map[] {
      GrammarAppend(s.id, s.out, [Headers(0, s.id, s.header)]);
      BodyAppend(s.out, [Headers(0, s.id, s.header)]);
      NoBody([Headers(0, s.id, s.header)]);
      assert Body(s.out) + [] == Body(s.out);
    }
  }

  lemma ChunksKeepInv(s: Server, data: Bytes)
    requires Inv(s) && s.out != [] && !Finished(s.out)
    ensures var t := s.(out := s.out + DataFrames(s.id, Chunks(data, MAX_DATA_SIZE)));
      Inv(t) && Body(t.out) == Body(s.out) + data
  {
    var more := DataFrames(s.id, Chunks(data, MAX_DATA_SIZE));
    GrammarAppend(s.id, s.out, more);
    BodyAppend(s.out, more);
    BodyOfChunks(s.id, Chunks(data, MAX_DATA_SIZE));
    ChunksAreLossless(data, MAX_DATA_SIZE);
  }

  lemma WriteKeepsInv(s: Server, data: Bytes)
    requires Inv(s)
    ensures Inv(Write(s, data))
    ensures Body(Write(s, data).out) == Body(s.out) + if Writable(s) then data else []
  {
    hide Grammar, Body, Flush;
    if Writable(s) {
      var r := WriteHeader(s, 200);
      ResponseKeepsInv(s.(wroteHeader := true), 0, 0);
      assert Inv(r) && r.out != [] && !Finished(r.out) && Body(r.out) == Body(s.out);
      FlushKeepsInv(r);
      ChunksKeepInv(Flush(r), data);
    } else {
      assert Body(s.out) + [] == Body(s.out);
    }
  }

  lemma ExecKeepsInv(s: Server, op: Op)
    requires Inv(s)
    ensures Inv(Exec(s, op))
    ensures Body(Exec(s, op).out) == Body(s.out) + if Accepts(s, op) then op.data else []
  {
    match op
    case SetHeader(_) =>
    case CallWriteHeader(code) =>
      ResponseKeepsInv(s.(wroteHeader := true), HttpToWp(code).0, HttpToWp(code).1);
    case CallWriteResponse(code, subcode) =>
      ResponseKeepsInv(s, code, subcode);
    case CallWrite(data, stopped) =>
      WriteKeepsInv(s, data);
      assert Body(s.out) + [] == Body(s.out);
  }

  /** Inside the run: ClosedHere holds exactly when FINISH has been emitted, and the
      body so far is the concatenation of the accepted Write inputs. */
  lemma {:induction false} HandlerKeepsGrammar(s: Server, ops: seq<Op>)
    requires Inv(s)
    ensures Inv(ExecAll(s, ops))
    ensures Body(ExecAll(s, ops).out) == Body(s.out) + Accepted(s, ops)
    decreases ops
  {
    hide Inv, Exec, Body;
    if ops != [] {
      ExecKeepsInv(s, ops[0]);
      HandlerKeepsGrammar(Exec(s, ops[0]), ops[1..]);
      var first := if Accepts(s, ops[0]) then ops[0].data else [];
      assert Body(s.out) + first + Accepted(Exec(s, ops[0]), ops[1..]) == Body(s.out) + Accepted(s, ops);
    }
  }

  lemma EpilogueFinishes(s: Server)
    requires Inv(s)
    ensures Grammar(s.id, Epilogue(s).out) && Finished(Epilogue(s).out)
    ensures Body(Epilogue(s).out) == Body(s.out)
  {
    if !ClosedHere(s.state) {
      var closing := Epilogue(s).out[|s.out|..];
      assert Epilogue(s).out == s.out + closing;
      BodyAppend(s.out, closing);
      assert Body(closing) == [];
      assert Body(s.out) + [] == Body(s.out);
    } else {
      assert s.out + [] == s.out;
    }
  }

  lemma {:induction false} ExecKeepsID(s: Server, ops: seq<Op>)
    ensures ExecAll(s, ops).id == s.id
    decreases ops
  {
    if ops != [] {
      ExecKeepsID(Exec(s, ops[0]), ops[1..]);
    }
  }

  /** For every handler program: one RESPONSE, then any mix of HEADERS and DATA, one
      FINISH, on the last frame, and the body is what the handler's accepted Write
      calls were given. */
  lemma StreamGrammar(id: uint32, flags: byte, ops: seq<Op>)
    ensures var fs := Emitted(id, flags, ops);
      && Grammar(id, fs) && Finished(fs)
      && Body(fs) == Accepted(Accept(id, flags), ops)
  {
    hide Epilogue;
    var start := Accept(id, flags);
    HandlerKeepsGrammar(start, ops);
    ExecKeepsID(start, ops);
    EpilogueFinishes(ExecAll(start, ops));
    assert [] + Accepted(start, ops) == Accepted(start, ops);
  }

  // -------------------------------------------------------------------- object

  class ServerStream {
    const streamID: uint32
    var header: Header
    var wroteHeader: bool
    var wroteResponse: bool
    var state: StreamState?
    var output: seq<F>

    ghost predicate Valid()
      reads this, state
    {
      state == null ==> header == map[]
    }

    function Abs(): Server
      reads this, state
    {
      Server(streamID, header, wroteHeader, wroteResponse,
             if state == null then CLOSED else state.s, state != null, output)
    }

    /** newStream, for a request whose URL and version parse. */
    constructor (id: uint32, flags: byte)
      ensures Valid() && fresh(state) && Abs() == Accept(id, flags)
    {
      streamID := id;
      header := map[];
      wroteHeader, wroteResponse := false, false;
      output := [];
      state := new StreamState();
      new;
      if Finish(flags) {
        state.CloseThere();
      }
    }

    method SetHeader(h: Header)
      requires state != null
      modifies this`header
      ensures Abs() == Exec(old(Abs()), Op.SetHeader(h))
    {
      header := h;
    }

    /** writeHeader. */
    method FlushHeader()
      modifies this`header, this`output
      ensures Abs() == Flush(old(Abs()))
    {
      if header == map[] {
        return;
      }
      var sent := header;
      header := Cleared(header);
      output := output + [Headers(0, streamID, sent)];
    }

    method WriteResponse(code: int, subcode: int)
      requires state != null
      modifies this`header, this`output, this`wroteResponse, state
      ensures state == old(state)
      ensures Abs() == Exec(old(Abs()), CallWriteResponse(code, subcode))
    {
      if wroteResponse {
        return;
      }
      wroteResponse := true;
      header := header[Ascii(":status") := [Itoa(WpToHttp(code, subcode))]];
      header := header[Ascii(":version") := [Ascii("HTTP/1.1")]];
      var sent, flags := header, 0;
      header := Cleared(header);
      if (code == 0 && subcode == 1) || code == 1 {
        flags := FLAG_FINISH;
        state.CloseHere();
      }
      output := output + [Response(flags, 0, streamID, code % 256, subcode % 256, sent)];
    }

    method WriteHeader(code: int)
      requires state != null
      modifies this`header, this`output, this`wroteHeader, this`wroteResponse, state
      ensures state == old(state)
      ensures Abs() == Exec(old(Abs()), CallWriteHeader(code))
    {
      if wroteHeader {
        return;
      }
      wroteHeader := true;
      var (wpCode, wpSubcode) := HttpToWp(code);
      WriteResponse(wpCode, wpSubcode);
    }

    /** `stopped`: whether the stop channel of the connection is closed. */
    method Write(data: Bytes, stopped: bool) returns (n: nat, ok: bool)
      modifies this`header, this`output, this`wroteHeader, this`wroteResponse, state
      ensures state == old(state)
      ensures Abs() == Exec(old(Abs()), CallWrite(data, stopped))
      ensures ok <==> Accepts(old(Abs()), CallWrite(data, stopped))
      ensures n == if ok then |data| else 0
    {
      if state == null || stopped || ClosedHere(state.s) {
        return 0, false;
      }
      if !wroteHeader {
        WriteHeader(200);
      }
      FlushHeader();
      var sent;
      sent, n := SendChunks(streamID, data, MAX_DATA_SIZE);
      output := output + sent;
      ok := true;
    }

    /** Run, after the handler's ServeHTTP. If the stream has been closed meanwhile, the
        end of Run asks its nil state, which ends the program. */
    method FinishRun() returns (crashed: bool)
      modifies this`header, this`output, state
      ensures state == old(state) && (crashed <==> state == null)
      ensures Abs() == if crashed then old(Abs()) else Epilogue(old(Abs()))
    {
      crashed := state == null;
      if crashed {
        return;
      }
      if !ClosedHere(state.s) && !wroteResponse {
        header := header[Ascii(":status") := [Ascii("200")]];
        header := header[Ascii(":version") := [Ascii("HTTP/1.1")]];
        output := output + [Response(FLAG_FINISH, 0, streamID, 0, 0, header)];
      } else if !ClosedHere(state.s) {
        output := output + [Data(FLAG_FINISH, streamID, [])];
      }
      state.CloseHere();
    }

    method Close()
      requires Valid()
      modifies this, state
      ensures Valid() && state == null
      ensures Abs() == AfterClose(old(Abs()))
    {
      FlushHeader();
      if state != null {
        state.Close();
        state := null;
      }
      header := map[];
    }
  }
}
