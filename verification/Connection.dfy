// The connection state machine of conn.go, as functions on its state. Each handler
// and each API call is one step; a handler that calls protocolError emits its ERROR
// frame and closes the connection within that step.

module Connection {
  import opened Protocol
  import opened StreamStates

  type F = Frame<Header>

  /** An entry of `conn.streams`. Its StreamState is nil once Close has run. */
  datatype Stream =
    | ClientStream(state: Option<State>)
    | ServerStream(state: Option<State>, inbox: seq<F>)
    | PushStream(state: Option<State>)

  /** What a connection does to its receivers: the calls on the receiver of a stream,
      the closing of its `finished` channel, and the calls on the push receiver. */
  datatype Call =
    | ReceiveResponse(id: uint32, code: byte, subcode: byte)
    | ReceiveHeader(id: uint32, header: Header)
    | ReceiveData(id: uint32, data: Bytes, final: bool)
    | Completed(id: uint32)
    | PushRequest(id: uint32)
    | PushHeader(id: uint32, header: Header)
    | PushData(id: uint32, data: Bytes, final: bool)

  /** A frame handed to the send loop, with the priority channel it was put on. */
  datatype Sent = Sent(channel: nat, frame: F)

  datatype Conn = Conn(
    server: bool,
    hasReceiver: bool,
    streams: map<uint32, Stream>,
    pushRequests: set<uint32>,
    lastRequest: uint32,
    lastPush: uint32,
    nextPing: uint32,
    pings: map<uint32, nat>,
    tickets: nat,
    pongs: seq<nat>,
    benign: nat,
    closed: bool,
    crashed: bool,
    out: seq<Sent>,
    calls: seq<Call>)

  /** How a frame was dealt with, which is what the source logs. */
  datatype Verdict =
    | Accepted | Delivered | Discarded | Routed | Ignored
    | WrongRole | WrongParity | OutOfOrder | OutOfRange | BadPriority
    | Unparsable | Refused | NotOpen | StreamClosed | Fatal | UnknownStatus
    | PingDone | PingUnknown | PingAnswered
    | TooManyErrors | Crash

  /** NewClientConn and NewServerConn, with `seed` for the first ping ID: 2 in both. */
  function Fresh(server: bool, hasReceiver: bool, seed: uint32): Conn {
    Conn(server, hasReceiver, map[], {}, 0, 0, seed, map[], 0, [], 0, false, false, [], [])
  }

  function Emit(c: Conn, channel: nat, f: F): Conn {
    c.(out := c.out + [Sent(channel, f)])
  }

  function Benign(c: Conn): Conn {
    c.(benign := c.benign + 1)
  }

  function Close(c: Conn): Conn {
    if c.closed then c else c.(closed := true, streams := map[])
  }

  function ProtocolError(c: Conn, id: uint32): Conn {
    Close(Emit(c, 0, Error(id, PROTOCOL_ERROR)))
  }

  lemma ProtocolErrorCloses(c: Conn, id: uint32)
    ensures var d := ProtocolError(c, id);
      && d == c.(out := c.out + [Sent(0, Error(id, PROTOCOL_ERROR))], closed := true, streams := d.streams)
      && (c.closed || d.streams == map[])
  {
  }

  /** A call on the nil StreamState of a closed stream ends the program. */
  function CrashNow(c: Conn): Conn {
    c.(closed := true, crashed := true, streams := map[])
  }

  // -------------------------------------------------------- frames on a stream

  function Callbacks(f: F): (calls: seq<Call>) {
    match f
    case Data(flags, id, data) => [ReceiveData(id, data, Finish(flags))]
    case Response(_, _, id, code, subcode, h) => [ReceiveResponse(id, code, subcode), ReceiveHeader(id, h)]
    case Headers(_, id, h) => [ReceiveHeader(id, h)]
    case _ => []
  }

  /** DATA and RESPONSE end the other side's half of the stream; HEADERS does not,
      whatever its flags. */
  predicate Ends(f: F) {
    (f.Data? || f.Response?) && Finish(f.flags)
  }

  /** The ReceiveFrame methods. A client stream calls its receiver, and closes
      `finished` with the last frame; a push stream takes no frames. */
  function ReceiveFrame(c: Conn, id: uint32, f: F): Conn
    requires id in c.streams && c.streams[id].state.Some?
  {
    match c.streams[id]
    case ClientStream(state) =>
      c.(streams := c.streams[id := ClientStream(Some(if Ends(f) then CloseThere(state.value) else state.value))],
         calls := c.calls + Callbacks(f) + if Ends(f) then [Completed(id)] else [])
    case ServerStream(state, inbox) =>
      c.(streams := c.streams[id := ServerStream(state, inbox + [f])])
    case PushStream(_) => c
  }

  function Deliver(c: Conn, id: uint32, f: F): (Conn, Verdict) {
    if id !in c.streams then (Benign(c), NotOpen)
    else if c.streams[id].state.None? then (CrashNow(c), Crash)
    else if ClosedThere(c.streams[id].state.value) then (Benign(c), NotOpen)
    else (ReceiveFrame(c, id, f), if c.streams[id].PushStream? then Discarded else Delivered)
  }

  /** A delivery touches nothing but the streams, the calls, the error count and, on a
      closed stream, whether the connection still runs. */
  lemma DeliverTouches(c: Conn, id: uint32, f: F)
    ensures var (d, v) := Deliver(c, id, f);
      && d == c.(streams := d.streams, calls := d.calls, benign := d.benign, closed := d.closed, crashed := d.crashed)
      && v in {Delivered, Discarded, NotOpen, Crash}
      && (c.closed ==> d.closed)
  {
    hide ReceiveFrame;
    if id in c.streams && c.streams[id].state.Some? {
      ReceiveTouches(c, id, f);
    }
  }

  lemma ReceiveTouches(c: Conn, id: uint32, f: F)
    requires id in c.streams && c.streams[id].state.Some?
    ensures var d := ReceiveFrame(c, id, f); d == c.(streams := d.streams, calls := d.calls)
  {
    hide Callbacks, Ends, CloseThere;
  }

  function HandleClientData(c: Conn, f: F): (Conn, Verdict)
    requires f.Data?
  {
    if !c.server then (Benign(c), WrongRole)
    else if Odd(f.id) then (Benign(c), WrongParity)
    else if !ValidID(f.id) then (ProtocolError(c, f.id), OutOfRange)
    else Deliver(c, f.id, f)
  }

  function HandleServerData(c: Conn, f: F): (Conn, Verdict)
    requires f.Data?
  {
    if !Odd(f.id) then
      if f.id in c.pushRequests && c.hasReceiver then
        (c.(calls := c.calls + [PushData(f.id, f.data, Finish(f.flags))]), Routed)
      else (c, Ignored)
    else Deliver(c, f.id, f)
  }

  function HandleHeaders(c: Conn, f: F): (Conn, Verdict)
    requires f.Headers?
  {
    if !Odd(f.id) && !c.server then
      if f.id in c.pushRequests && c.hasReceiver then
        (c.(calls := c.calls + [PushHeader(f.id, f.header)]), Routed)
      else (c, Ignored)
    else Deliver(c, f.id, f)
  }

  function HandleResponse(c: Conn, f: F): (Conn, Verdict)
    requires f.Response?
  {
    if c.server then (Benign(c), WrongRole)
    else if !Odd(f.id) then (Benign(c), WrongParity)
    else if !ValidID(f.id) then (ProtocolError(c, f.id), OutOfRange)
    else Deliver(c, f.id, f)
  }

  // ------------------------------------------------------------- new streams

  /** `parses`: whether the URL and the HTTP version of the frame parse. */
  function HandleRequest(c: Conn, f: F, parses: bool): (Conn, Verdict)
    requires f.Request?
  {
    if c.closed then (c, Ignored)
    else if !c.server then (c, WrongRole)
    else if !Odd(f.id) then (Benign(c), WrongParity)
    else if f.id <= c.lastRequest && c.lastRequest != 0 then (Benign(c), OutOfOrder)
    else if !ValidID(f.id) then (ProtocolError(c, f.id), OutOfRange)
    else if f.priority > 7 then (ProtocolError(c, f.id), BadPriority)
    else if !parses then (c, Unparsable)
    else
      var state := if Finish(f.flags) then CloseThere(OPEN) else OPEN;
      (c.(streams := c.streams[f.id := ServerStream(Some(state), [])], lastRequest := f.id), Accepted)
  }

  /** `wants`: what the push receiver answers. */
  function HandlePush(c: Conn, f: F, parses: bool, wants: bool): (Conn, Verdict)
    requires f.Push?
  {
    if c.closed then (c, Ignored)
    else if c.server then (c, WrongRole)
    else if Odd(f.id) then (Benign(c), WrongParity)
    else if f.id <= c.lastPush then (Benign(c), OutOfOrder)
    else if !ValidID(f.id) then (ProtocolError(c, f.id), OutOfRange)
    else if f.priority > 7 then (ProtocolError(c, f.id), BadPriority)
    else if !parses then (c, Unparsable)
    else if !c.hasReceiver then (c, Ignored)
    else
      var asked := c.(calls := c.calls + [PushRequest(f.id)]);
      if !wants then (Emit(asked, 0, Error(f.id, REFUSED_STREAM)), Refused)
      else
        (asked.(calls := asked.calls + [PushHeader(f.id, f.header)],
                pushRequests := c.pushRequests + {f.id}, lastPush := f.id), Accepted)
  }

  // ------------------------------------------------------------ errors, pings

  function CloseStream(c: Conn, id: uint32): Conn {
    if id in c.streams then c.(streams := c.streams[id := c.streams[id].(state := None)]) else c
  }

  function HandleError(c: Conn, f: F): (Conn, Verdict)
    requires f.Error?
  {
    if f.status == PROTOCOL_ERROR || f.status == INTERNAL_ERROR then (Close(c), Fatal)
    else if f.status == INVALID_STREAM || f.status == STREAM_CLOSED then
      (Benign(CloseStream(c, f.id)), StreamClosed)
    else if f.status == REFUSED_STREAM || f.status == FINISH_STREAM then
      (CloseStream(c, f.id), StreamClosed)
    else (ProtocolError(c, f.id), UnknownStatus)
  }

  function HandlePing(c: Conn, f: F): (Conn, Verdict)
    requires f.Ping?
  {
    if Odd(f.pid) == Odd(c.nextPing) then
      if f.pid !in c.pings then (Benign(c), PingUnknown)
      else (c.(pongs := c.pongs + [c.pings[f.pid]], pings := c.pings - {f.pid}), PingDone)
    else if !Finish(f.flags) then (Emit(c, 0, Ping(FLAG_FINISH, f.pid)), PingAnswered)
    else (c, Ignored)
  }

  // -------------------------------------------------------------- the main loop

  /** What may come with a frame: whether it parses, and whether a push is wanted. */
  datatype Choice = Choice(parses: bool, wants: bool)

  function Handle(c: Conn, f: F, choice: Choice): (Conn, Verdict) {
    match f
    case Request(_, _, _, _) => HandleRequest(c, f, choice.parses)
    case Response(_, _, _, _, _, _) => HandleResponse(c, f)
    case Data(_, _, _) => if c.server then HandleClientData(c, f) else HandleServerData(c, f)
    case Error(_, _) => HandleError(c, f)
    case Headers(_, _, _) => HandleHeaders(c, f)
    case Push(_, _, _, _, _) => HandlePush(c, f, choice.parses, choice.wants)
    case Ping(_, _) => HandlePing(c, f)
  }

  /** One turn of readFrames with `f` next on the connection. */
  function Receive(c: Conn, f: F, choice: Choice): (Conn, Verdict) {
    if c.closed then (c, Ignored)
    else if c.benign > MAX_BENIGN_ERRORS then (ProtocolError(c, 0), TooManyErrors)
    else Handle(c, f, choice)
  }

  // ----------------------------------------------------------------- API calls

  function NextRequestID(last: uint32): uint32 {
    if last == 0 then 1 else (last + 2) % 0x1_0000_0000
  }

  function NextPushID(last: uint32): uint32 {
    (last + 2) % 0x1_0000_0000
  }

  function NextPingID(pid: uint32): uint32 {
    if pid + 2 >= 0x1_0000_0000 then if Odd(pid) then 1 else 2 else pid + 2
  }

  /** A request as the caller gives it: the chunks its body is read in, each of them
      non-empty, are None when there is no body. */
  datatype Asked = Asked(priority: byte, urlOk: bool, header: Header, body: Option<seq<Bytes>>)

  /** The DATA frames of a request body, the last of them with FINISH. */
  function BodyFrames(id: uint32, chunks: seq<Bytes>): (fs: seq<Sent>) {
    if chunks == [] then []
    else
      [Sent(0, Data(if |chunks| == 1 then FLAG_FINISH else 0, id, chunks[0]))] + BodyFrames(id, chunks[1..])
  }

  function RequestFrames(id: uint32, a: Asked): (fs: seq<Sent>) {
    var bodied := a.body.Some? && a.body.value != [];
    [Sent(0, Request(if bodied then 0 else FLAG_FINISH, a.priority, id, a.header))]
    + if bodied then BodyFrames(id, a.body.value) else []
  }

  /** Request: the new stream's ID, or None for one of its errors. */
  function StartRequest(c: Conn, a: Asked): (Conn, Option<uint32>) {
    if c.closed || c.server || a.priority > 7 || !a.urlOk then (c, None)
    else
      var id := NextRequestID(c.lastRequest);
      var d := c.(lastRequest := id);
      if !ValidID(id) then (d, None)
      else
        (d.(out := d.out + RequestFrames(id, a),
            streams := d.streams[id := ClientStream(Some(CloseHere(OPEN)))]), Some(id))
  }

  function StartPush(c: Conn, assoc: uint32, urlOk: bool, header: Header): (Conn, Option<uint32>) {
    if c.closed || !c.server || !urlOk then (c, None)
    else
      var id := NextPushID(c.lastPush);
      var d := c.(lastPush := id);
      if !ValidID(id) then (d, None)
      else
        (Emit(d, 0, Push(0, 7, id, assoc, header)).(streams := d.streams[id := PushStream(Some(OPEN))]), Some(id))
  }

  /** Ping: the ticket stands for the channel on which the caller waits. */
  function StartPing(c: Conn): (Conn, Option<nat>) {
    if c.closed then (c, None)
    else
      (Emit(c, 0, Ping(0, c.nextPing)).(nextPing := NextPingID(c.nextPing),
                                        pings := c.pings[c.nextPing := c.tickets],
                                        tickets := c.tickets + 1), Some(c.tickets))
  }

  // ---------------------------------------------------------------------- runs

  datatype Input =
    | Inbound(frame: F, choice: Choice)
    | CallRequest(asked: Asked)
    | CallPush(assoc: uint32, urlOk: bool, header: Header)
    | CallPing
    | CallClose(id: uint32)

  function Step(c: Conn, input: Input): Conn {
    match input
    case Inbound(f, choice) => Receive(c, f, choice).0
    case CallRequest(a) => StartRequest(c, a).0
    case CallPush(assoc, urlOk, header) => StartPush(c, assoc, urlOk, header).0
    case CallPing => StartPing(c).0
    case CallClose(id) => if c.closed then c else CloseStream(c, id)
  }

  function Run(c: Conn, inputs: seq<Input>): Conn
    decreases inputs
  {
    if inputs == [] then c else Run(Step(c, inputs[0]), inputs[1..])
  }

  /** A call that would carry one of the two counters around 2^32. */
  predicate Wraps(c: Conn, input: Input) {
    (input.CallRequest? && c.lastRequest + 2 >= 0x1_0000_0000) ||
    (input.CallPush? && c.lastPush + 2 >= 0x1_0000_0000)
  }

  ghost predicate NeverWraps(c: Conn, inputs: seq<Input>)
    decreases inputs
  {
    inputs == [] || (!Wraps(c, inputs[0]) && NeverWraps(Step(c, inputs[0]), inputs[1..]))
  }
}
