// clientStream of client_stream.go: what the receiver of a request is told, and what
// the stream itself sends, which is next to nothing.

module ClientStreams {
  import opened Protocol
  import opened StreamStates
  import SS = ServerStreams
  import C = Connection
  import Demux
  import Chunking

  type F = SS.F

  /** `live` is false once Close has cleared the fields; `finished` counts how often the
      channel of that name has been closed; once is all that Go allows. `crashed`: Run
      asked the nil state of a closed stream. */
  datatype Client = Client(
    id: uint32,
    header: Header,
    state: State,
    live: bool,
    crashed: bool,
    finished: nat,
    calls: seq<C.Call>,
    out: seq<F>)

  /** The stream that Conn.Request makes: it is born closed on this side. */
  function Begin(id: uint32): Client {
    Client(id, map[], CloseHere(OPEN), true, false, 0, [], [])
  }

  function Flush(s: Client): Client {
    if s.header == map[] then s
    else s.(header := SS.Cleared(s.header), out := s.out + [Headers(0, s.id, s.header)])
  }

  datatype Op =
    | SetHeader(header: Header)
    | CallWriteHeader
    | CallWrite(data: Bytes, stopped: bool)
    | Receive(frame: F)
    | CallClose
    | FinishRun

  /** The connection delivers a frame only if the other side is open. */
  function ReceiveFrame(s: Client, f: F): Client {
    if !s.live || ClosedThere(s.state) || !Demux.Streamed(f) then s
    else
      s.(calls := s.calls + C.Callbacks(f),
         state := if C.Ends(f) then CloseThere(s.state) else s.state,
         finished := if C.Ends(f) then s.finished + 1 else s.finished)
  }

  function Write(s: Client, data: Bytes): Client {
    if !s.live || ClosedHere(s.state) then s
    else
      var t := Flush(s);
      t.(out := t.out + Chunking.DataFrames(t.id, Chunking.Chunks(data, MAX_DATA_SIZE)))
  }

  /** Run waits for `finished`, then closes this side. */
  function EndOfRun(s: Client): Client {
    if s.finished == 0 then s
    else if !s.live then s.(crashed := true)
    else s.(state := CloseHere(s.state))
  }

  function Exec(s: Client, op: Op): Client {
    if s.crashed then s
    else
      match op
      case SetHeader(h) => if s.live then s.(header := h) else s
      case CallWriteHeader => if s.live then Flush(s) else s
      case CallWrite(data, stopped) => if stopped then s else Write(s, data)
      case Receive(f) => ReceiveFrame(s, f)
      case CallClose => if s.live then Flush(s).(header := map[], state := CLOSED, live := false) else s
      case FinishRun => EndOfRun(s)
  }

  function ExecAll(s: Client, ops: seq<Op>): Client
    decreases ops
  {
    if ops == [] then s else ExecAll(Exec(s, ops[0]), ops[1..])
  }

  ghost predicate OnlyHeaders(id: uint32, fs: seq<F>) {
    forall i {:trigger fs[i]} :: 0 <= i < |fs| ==> fs[i].Headers? && fs[i].id == id && fs[i].flags == 0
  }

  /** `finished` is closed exactly when the other side has ended the stream. */
  ghost predicate Inv(s: Client) {
    && ClosedHere(s.state)
    && s.finished <= 1
    && (s.live ==> (s.finished == 1 <==> ClosedThere(s.state)))
    && OnlyHeaders(s.id, s.out)
  }

  lemma FlushKeepsInv(s: Client)
    requires Inv(s)
    ensures Inv(Flush(s))
  {
  }

  lemma ExecKeepsInv(s: Client, op: Op)
    requires Inv(s)
    ensures Inv(Exec(s, op)) && Exec(s, op).id == s.id
  {
    FlushKeepsInv(s);
    hide OnlyHeaders;
  }

  /** For every program: a client stream never sends DATA nor FINISH, since it refuses
      every Write, and its `finished` channel is closed at most once. */
  lemma {:induction false} NeverSendsData(s: Client, ops: seq<Op>)
    requires Inv(s)
    ensures Inv(ExecAll(s, ops)) && ExecAll(s, ops).id == s.id
    decreases ops
  {
    hide Exec, Inv;
    if ops != [] {
      ExecKeepsInv(s, ops[0]);
      NeverSendsData(Exec(s, ops[0]), ops[1..]);
    }
  }

  lemma BeginInv(id: uint32)
    ensures Inv(Begin(id))
  {
  }

  /** The end of Run has nothing left to do, since this side has been closed from the
      start; but it ends the program if the stream was closed after its last frame. */
  lemma EndOfRunIsIdle(s: Client)
    requires Inv(s)
    ensures Exec(s, FinishRun) == if s.finished > 0 && !s.live then s.(crashed := true) else s
  {
  }

  /** The stream is what the connection's map says of it: the same state after the same
      frame, and the same calls, `finished` being one of them. */
  lemma RefinesEntry(s: Client, c: C.Conn, f: F)
    requires s.live && !ClosedThere(s.state) && Demux.Streamed(f) && f.id == s.id
    requires s.id in c.streams && c.streams[s.id] == C.ClientStream(Some(s.state))
    ensures var (t, d) := (ReceiveFrame(s, f), C.ReceiveFrame(c, s.id, f));
      && d.streams == c.streams[s.id := C.ClientStream(Some(t.state))]
      && t.calls == s.calls + C.Callbacks(f)
      && d.calls == c.calls + C.Callbacks(f) + if t.finished > s.finished then [C.Completed(s.id)] else []
  {
    hide C.Callbacks;
  }

  // -------------------------------------------------------------------------- object

  class ClientStream {
    const streamID: uint32
    var header: Header
    var state: StreamState?
    var crashed: bool
    var finished: nat
    var calls: seq<C.Call>
    var output: seq<F>

    function Abs(): Client
      reads this, state
    {
      Client(streamID, header, if state == null then CLOSED else state.s, state != null, crashed, finished, calls,
             output)
    }

    constructor (id: uint32)
      ensures fresh(state) && Abs() == Begin(id)
    {
      streamID := id;
      header, crashed, finished, calls, output := map[], false, 0, [], [];
      state := new StreamState();
      new;
      state.CloseHere();
    }

    /** writeHeader. */
    method FlushHeader()
      modifies this`header, this`output
      ensures Abs() == Flush(old(Abs()))
    {
      if header == map[] {
        return;
      }
      output := output + [Headers(0, streamID, header)];
      header := SS.Cleared(header);
    }

    /** `stopped`: whether the stop channel of the connection is closed. */
    method Write(data: Bytes, stopped: bool) returns (n: nat, ok: bool)
      requires !crashed
      modifies this`header, this`output
      ensures Abs() == Exec(old(Abs()), CallWrite(data, stopped))
      ensures ok <==> !stopped && old(state != null && !ClosedHere(state.s))
      ensures n == if ok then |data| else 0
    {
      if state == null || stopped || ClosedHere(state.s) {
        return 0, false;
      }
      FlushHeader();
      var sent;
      sent, n := Chunking.SendChunks(streamID, data, MAX_DATA_SIZE);
      output := output + sent;
      ok := true;
    }

    /** ReceiveFrame, as the connection calls it. */
    method Receive(frame: F) returns (ok: bool)
      requires state != null && !ClosedThere(state.s) && !crashed
      modifies this`calls, this`finished, state
      ensures Abs() == Exec(old(Abs()), Op.Receive(frame))
      ensures ok <==> Demux.Streamed(frame)
    {
      match frame {
        case Data(flags, id, data) =>
          calls := calls + [C.ReceiveData(id, data, Finish(flags))];
          if Finish(flags) {
            state.CloseThere();
            finished := finished + 1;
          }
        case Response(flags, _, id, code, subcode, h) =>
          calls := calls + [C.ReceiveResponse(id, code, subcode)] + [C.ReceiveHeader(id, h)];
          if Finish(flags) {
            state.CloseThere();
            finished := finished + 1;
          }
          assert old(calls) + [C.ReceiveResponse(id, code, subcode)] + [C.ReceiveHeader(id, h)]
              == old(calls) + [C.ReceiveResponse(id, code, subcode), C.ReceiveHeader(id, h)];
        case Headers(_, id, h) =>
          calls := calls + [C.ReceiveHeader(id, h)];
        case _ =>
          return false;
      }
      ok := true;
    }

    /** Run, once `finished` is closed. */
    method EndRun()
      requires finished > 0 && !crashed
      modifies this`crashed, state
      ensures Abs() == Exec(old(Abs()), FinishRun)
    {
      if state == null {
        crashed := true;
        return;
      }
      state.CloseHere();
    }

    method Close()
      requires state != null && !crashed
      modifies this, state
      ensures state == null && Abs() == Exec(old(Abs()), CallClose)
    {
      FlushHeader();
      state.Close();
      state := null;
      header := map[];
    }
  }
}
