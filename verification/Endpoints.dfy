// Two endpoints joined by FIFO links. Each side's API calls, the frames its streams
// hand over, and the delivery of the next frame of either link are the steps.

module Endpoints {
  import opened Protocol
  import opened Connection
  import opened Freshness
  import Demux

  datatype System = System(client: Conn, server: Conn, up: seq<F>, down: seq<F>)

  datatype Action =
    | ClientCall(input: Input)
    | ServerCall(input: Input)
    | ClientFrame(frame: F)
    | ServerFrame(frame: F)
    | DeliverUp(choice: Choice)
    | DeliverDown(choice: Choice)

  function FramesOf(ss: seq<Sent>): (fs: seq<F>)
    ensures |fs| == |ss| && forall i :: 0 <= i < |ss| ==> fs[i] == ss[i].frame
  {
    if ss == [] then [] else [ss[0].frame] + FramesOf(ss[1..])
  }

  /** What a connection has handed to its send loop between two states. */
  function New(c: Conn, d: Conn): (fs: seq<F>) {
    if |c.out| <= |d.out| then FramesOf(d.out[|c.out|..]) else []
  }

  /** Streams hand over RESPONSE, HEADERS and DATA frames; which, is left open. */
  function Next(s: System, a: Action): System {
    match a
    case ClientCall(input) =>
      if input.Inbound? then s
      else s.(client := Step(s.client, input), up := s.up + New(s.client, Step(s.client, input)))
    case ServerCall(input) =>
      if input.Inbound? then s
      else s.(server := Step(s.server, input), down := s.down + New(s.server, Step(s.server, input)))
    case ClientFrame(f) => if Demux.Streamed(f) then s.(up := s.up + [f]) else s
    case ServerFrame(f) => if Demux.Streamed(f) then s.(down := s.down + [f]) else s
    case DeliverUp(choice) =>
      if s.up == [] then s
      else
        var d := Receive(s.server, s.up[0], choice).0;
        s.(server := d, up := s.up[1..], down := s.down + New(s.server, d))
    case DeliverDown(choice) =>
      if s.down == [] then s
      else
        var d := Receive(s.client, s.down[0], choice).0;
        s.(client := d, down := s.down[1..], up := s.up + New(s.client, d))
  }

  function RunAll(s: System, actions: seq<Action>): System
    decreases actions
  {
    if actions == [] then s else RunAll(Next(s, actions[0]), actions[1..])
  }

  /** Both ends of a new connection, with the seeds of their ping IDs. */
  function Start(hasReceiver: bool, clientSeed: uint32, serverSeed: uint32): System {
    System(Fresh(false, hasReceiver, clientSeed), Fresh(true, false, serverSeed), [], [])
  }

  /** A call that carries a stream counter around 2^32. */
  predicate WrapsAt(s: System, a: Action) {
    (a.ClientCall? && Wraps(s.client, a.input)) || (a.ServerCall? && Wraps(s.server, a.input))
  }

  ghost predicate NoWrap(s: System, actions: seq<Action>)
    decreases actions
  {
    actions == [] || (!WrapsAt(s, actions[0]) && NoWrap(Next(s, actions[0]), actions[1..]))
  }

  // ---------------------------------------------------------- what a step hands over

  /** A frame is answered by nothing, by an ERROR or, if it is a PING, by its reply;
      a server's ERROR is the one that ends the connection. */
  ghost predicate Answers(server: bool, f: F, v: Verdict, fs: seq<F>) {
    if v == PingAnswered then f.Ping? && fs == [Ping(FLAG_FINISH, f.pid)]
    else forall i :: 0 <= i < |fs| ==> IsError(fs[i], server)
  }

  predicate IsError(f: F, server: bool) {
    f.Error? && (server ==> f.status == PROTOCOL_ERROR)
  }

  lemma NewOf(c: Conn, d: Conn, more: seq<Sent>)
    requires d.out == c.out + more
    ensures New(c, d) == FramesOf(more)
  {
    assert d.out[|c.out|..] == more;
  }

  lemma NewNothing(c: Conn, d: Conn)
    requires d.out == c.out
    ensures New(c, d) == []
  {
    assert d.out == c.out + [];
    NewOf(c, d, []);
  }

  /** In terms of the log of frames; a server has then closed the connection. */
  ghost predicate Emits(c: Conn, d: Conn, f: F, v: Verdict) {
    if v == PingAnswered then f.Ping? && d.out == c.out + [Sent(0, Ping(FLAG_FINISH, f.pid))]
    else
      || d.out == c.out
      || ((c.server ==> d.closed) && exists e: F :: IsError(e, c.server) && d.out == c.out + [Sent(0, e)])
  }

  lemma StreamedEmits(c: Conn, f: F, choice: Choice)
    requires Demux.Streamed(f)
    ensures var (d, v) := Receive(c, f, choice); Emits(c, d, f, v)
  {
    DeliverTouches(c, f.id, f);
    ProtocolErrorCloses(c, 0);
    ProtocolErrorCloses(c, f.id);
    hide Deliver, ProtocolError, HandleRequest, HandlePush, HandleError, HandlePing;
  }

  lemma PushEmits(c: Conn, f: F, choice: Choice)
    requires f.Push?
    ensures var (d, v) := Receive(c, f, choice); Emits(c, d, f, v)
  {
    hide ProtocolError, HandleRequest, HandlePush, HandleError, HandlePing, HandleClientData, HandleServerData,
      HandleHeaders, HandleResponse;
    ProtocolErrorCloses(c, 0);
    HandlePushEmits(c, f, choice.parses, choice.wants);
  }

  lemma HandlePushEmits(c: Conn, f: F, parses: bool, wants: bool)
    requires f.Push?
    ensures var (d, v) := HandlePush(c, f, parses, wants); Emits(c, d, f, v)
  {
    hide ProtocolError;
    ProtocolErrorCloses(c, f.id);
  }

  lemma OtherEmits(c: Conn, f: F, choice: Choice)
    requires f.Request? || f.Error? || f.Ping?
    ensures var (d, v) := Receive(c, f, choice); Emits(c, d, f, v)
  {
    hide ProtocolError, HandleRequest, HandlePush, HandleError, HandlePing, HandleClientData, HandleServerData,
      HandleHeaders, HandleResponse;
    ProtocolErrorCloses(c, 0);
    if f.Request? {
      HandleRequestEmits(c, f, choice.parses);
    } else if f.Error? {
      HandleErrorEmits(c, f);
    } else {
      HandlePingEmits(c, f);
    }
  }

  lemma HandleRequestEmits(c: Conn, f: F, parses: bool)
    requires f.Request?
    ensures var (d, v) := HandleRequest(c, f, parses); Emits(c, d, f, v)
  {
    hide ProtocolError;
    ProtocolErrorCloses(c, f.id);
  }

  lemma HandleErrorEmits(c: Conn, f: F)
    requires f.Error?
    ensures var (d, v) := HandleError(c, f); Emits(c, d, f, v)
  {
    hide ProtocolError;
    ProtocolErrorCloses(c, f.id);
  }

  lemma HandlePingEmits(c: Conn, f: F)
    requires f.Ping?
    ensures var (d, v) := HandlePing(c, f); Emits(c, d, f, v)
  {
  }

  lemma InboundEmits(c: Conn, f: F, choice: Choice)
    ensures var (d, v) := Receive(c, f, choice);
      && Answers(c.server, f, v, New(c, d))
      && (c.server && v != PingAnswered && New(c, d) != [] ==> d.closed)
  {
    if Demux.Streamed(f) {
      StreamedEmits(c, f, choice);
    } else if f.Push? {
      PushEmits(c, f, choice);
    } else {
      OtherEmits(c, f, choice);
    }
    var (d, v) := Receive(c, f, choice);
    hide Receive;
    if v == PingAnswered {
      NewOf(c, d, [Sent(0, Ping(FLAG_FINISH, f.pid))]);
    } else if d.out == c.out {
      NewNothing(c, d);
    } else {
      var e: F :| IsError(e, c.server) && d.out == c.out + [Sent(0, e)];
      NewOf(c, d, [Sent(0, e)]);
    }
  }

  /** What a call hands over: for a request, its frame and those of its body. */
  ghost predicate CallHandsOver(c: Conn, input: Input, fs: seq<F>) {
    match input
    case CallRequest(a) =>
      var id := StartRequest(c, a).1;
      if id.None? then fs == []
      else
        && fs != [] && fs[0].Request? && fs[0].id == id.value && fs[0].priority <= 7
        && forall i :: 1 <= i < |fs| ==> fs[i].Data?
    case CallPush(assoc, urlOk, header) =>
      var id := StartPush(c, assoc, urlOk, header).1;
      fs == if id.None? then [] else [Push(0, 7, id.value, assoc, header)]
    case CallPing => fs == if c.closed then [] else [Ping(0, c.nextPing)]
    case _ => fs == []
  }

  lemma {:induction false} BodyIsData(id: uint32, chunks: seq<Bytes>)
    ensures forall i :: 0 <= i < |BodyFrames(id, chunks)| ==> BodyFrames(id, chunks)[i].frame.Data?
    decreases chunks
  {
    if chunks != [] {
      BodyIsData(id, chunks[1..]);
    }
  }

  lemma CallEmits(c: Conn, input: Input)
    requires !input.Inbound?
    ensures CallHandsOver(c, input, New(c, Step(c, input)))
  {
    hide Receive, FramesOf;
    var d := Step(c, input);
    match input
    case CallRequest(a) =>
      if StartRequest(c, a).1.Some? {
        var id := StartRequest(c, a).1.value;
        if a.body.Some? {
          BodyIsData(id, a.body.value);
        }
        NewOf(c, d, RequestFrames(id, a));
      } else {
        NewNothing(c, d);
      }
    case CallPush(assoc, urlOk, header) =>
      var id := StartPush(c, assoc, urlOk, header).1;
      if id.Some? {
        NewOf(c, d, [Sent(0, Push(0, 7, id.value, assoc, header))]);
      } else {
        NewNothing(c, d);
      }
    case CallPing =>
      if c.closed {
        NewNothing(c, d);
      } else {
        NewOf(c, d, [Sent(0, Ping(0, c.nextPing))]);
      }
    case CallClose(_) => NewNothing(c, d);
  }
}
