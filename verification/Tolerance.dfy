// What a connection puts up with: which frames it counts as benign errors, which end it,
// and how many of the former it takes.

module Tolerance {
  import opened Protocol
  import S = StreamStates
  import opened Connection
  import opened Freshness
  import Crashes

  /** The other side of the stream is closed, or there never was a stream. */
  predicate Shut(c: Conn, id: uint32) {
    id !in c.streams || (c.streams[id].state.Some? && S.ClosedThere(c.streams[id].state.value))
  }

  /** A frame that is out of place: sent by the wrong side or on an ID of the wrong parity,
      opening a stream out of order, on a stream that is not open there, complaining of a
      stream, or answering no ping. Of the frames of the wrong side, a REQUEST to a client
      and a PUSH to a server are not counted; nor are frames on pushes, on the client. */
  predicate Misplaced(c: Conn, f: F) {
    match f
    case Data(_, id, _) =>
      if c.server then Odd(id) || (ValidID(id) && Shut(c, id)) else Odd(id) && Shut(c, id)
    case Headers(_, id, _) => (c.server || Odd(id)) && Shut(c, id)
    case Response(_, _, id, _, _, _) => c.server || !Odd(id) || (ValidID(id) && Shut(c, id))
    case Request(_, _, id, _) => c.server && (!Odd(id) || (0 < c.lastRequest && id <= c.lastRequest))
    case Push(_, _, id, _, _) => !c.server && (Odd(id) || id <= c.lastPush)
    case Error(_, status) => status in {INVALID_STREAM, STREAM_CLOSED}
    case Ping(_, pid) => Odd(pid) == Odd(c.nextPing) && pid !in c.pings
  }

  /** A frame that ends the connection: a well-placed one whose ID or priority is out of
      range, an ERROR that is not about one stream, or one on a stream with a nil state. */
  predicate Ends(c: Conn, f: F) {
    match f
    case Data(_, id, _) =>
      (c.server && !Odd(id) && !ValidID(id)) || (Crashes.Asks(c.server, f) && Crashes.Nil(c, id))
    case Headers(_, id, _) => Crashes.Asks(c.server, f) && Crashes.Nil(c, id)
    case Response(_, _, id, _, _, _) =>
      (!c.server && Odd(id) && !ValidID(id)) || (Crashes.Asks(c.server, f) && Crashes.Nil(c, id))
    case Request(_, priority, id, _) => c.server && !Misplaced(c, f) && (!ValidID(id) || priority > 7)
    case Push(_, priority, id, _, _) => !c.server && !Misplaced(c, f) && (!ValidID(id) || priority > 7)
    case Error(_, status) => !Crashes.Shutting(status)
    case Ping(_, _) => false
  }

  /** One frame, on a running connection: it is counted if and only if it is misplaced, and
      ends the connection if and only if it is one of those that do. */
  ghost predicate Judged(c: Conn, f: F, d: Conn) {
    && d.benign == c.benign + (if Misplaced(c, f) then 1 else 0)
    && (d.closed <==> Ends(c, f))
  }

  lemma DeliverJudges(c: Conn, id: uint32, f: F)
    requires !c.closed
    ensures var d := Deliver(c, id, f).0;
      && d.benign == c.benign + (if Shut(c, id) then 1 else 0)
      && (d.closed <==> Crashes.Nil(c, id))
  {
    hide ReceiveFrame, S.ClosedThere;
    if id in c.streams && c.streams[id].state.Some? {
      ReceiveTouches(c, id, f);
    }
  }

  lemma StreamedJudged(c: Conn, f: F, choice: Choice)
    requires !c.closed && (f.Data? || f.Headers? || f.Response?)
    ensures Judged(c, f, Handle(c, f, choice).0)
  {
    DeliverJudges(c, f.id, f);
    ProtocolErrorCloses(c, f.id);
    if Crashes.Nil(c, f.id) {
      NilIsNotShut(c, f.id);
    }
    hide Deliver, ProtocolError, Shut, Crashes.Nil, HandleRequest, HandlePush, HandleError, HandlePing;
  }

  lemma NilIsNotShut(c: Conn, id: uint32)
    requires Crashes.Nil(c, id)
    ensures !Shut(c, id)
  {
  }

  lemma OpeningJudged(c: Conn, f: F, choice: Choice)
    requires !c.closed && (f.Request? || f.Push?)
    ensures Judged(c, f, Handle(c, f, choice).0)
  {
    ProtocolErrorCloses(c, f.id);
    hide ProtocolError, HandleError, HandlePing, HandleClientData, HandleServerData, HandleHeaders, HandleResponse;
  }

  lemma OtherJudged(c: Conn, f: F, choice: Choice)
    requires !c.closed && (f.Error? || f.Ping?)
    ensures Judged(c, f, Handle(c, f, choice).0)
  {
    if f.Error? {
      ProtocolErrorCloses(c, f.id);
    }
    hide ProtocolError, HandleRequest, HandlePush, HandleClientData, HandleServerData, HandleHeaders, HandleResponse;
  }

  lemma FrameJudged(c: Conn, f: F, choice: Choice)
    requires Crashes.Running(c)
    ensures Judged(c, f, Receive(c, f, choice).0)
  {
    hide Handle, Judged;
    if f.Request? || f.Push? {
      OpeningJudged(c, f, choice);
    } else if f.Error? || f.Ping? {
      OtherJudged(c, f, choice);
    } else {
      StreamedJudged(c, f, choice);
    }
  }

  /** What goes out in answer, on channel 0: an ERROR for a frame that ends the connection,
      unless it does so because the other side said so; a refusal for a push that is not
      wanted; the reply to a ping of the other side; and otherwise nothing. */
  ghost predicate AnsweredWith(c: Conn, f: F, choice: Choice, fs: seq<F>) {
    match f
    case Data(_, id, _) => fs == if c.server && !Odd(id) && !ValidID(id) then [Error(id, PROTOCOL_ERROR)] else []
    case Headers(_, _, _) => fs == []
    case Response(_, _, id, _, _, _) =>
      fs == if !c.server && Odd(id) && !ValidID(id) then [Error(id, PROTOCOL_ERROR)] else []
    case Request(_, _, id, _) => fs == if Ends(c, f) then [Error(id, PROTOCOL_ERROR)] else []
    case Push(_, _, id, _, _) =>
      fs == if Ends(c, f) then [Error(id, PROTOCOL_ERROR)]
            else if !c.server && !Misplaced(c, f) && choice.parses && c.hasReceiver && !choice.wants then
              [Error(id, REFUSED_STREAM)]
            else []
    case Error(id, status) =>
      fs == if Ends(c, f) && status !in {PROTOCOL_ERROR, INTERNAL_ERROR} then [Error(id, PROTOCOL_ERROR)] else []
    case Ping(flags, pid) =>
      fs == if Odd(pid) != Odd(c.nextPing) && flags % 2 == 0 then [Ping(FLAG_FINISH, pid)] else []
  }

  ghost predicate Out(c: Conn, f: F, choice: Choice, d: Conn) {
    exists fs: seq<F> :: |fs| <= 1 && AnsweredWith(c, f, choice, fs)
      && d.out == c.out + if fs == [] then [] else [Sent(0, fs[0])]
  }

  lemma OutWith(c: Conn, f: F, choice: Choice, d: Conn, fs: seq<F>)
    requires |fs| <= 1 && AnsweredWith(c, f, choice, fs)
    requires if fs == [] then d.out == c.out else d.out == c.out + [Sent(0, fs[0])]
    ensures Out(c, f, choice, d)
  {
    hide AnsweredWith;
    assert c.out + [] == c.out;
  }

  lemma StreamedAnswered(c: Conn, f: F, choice: Choice)
    requires !c.closed && (f.Data? || f.Headers? || f.Response?)
    ensures Out(c, f, choice, Handle(c, f, choice).0)
  {
    DeliverTouches(c, f.id, f);
    ProtocolErrorCloses(c, f.id);
    hide Deliver, ProtocolError, Out, HandleRequest, HandlePush, HandleError, HandlePing;
    var fs := if Handle(c, f, choice).1 == OutOfRange then [Error(f.id, PROTOCOL_ERROR)] else [];
    OutWith(c, f, choice, Handle(c, f, choice).0, fs);
  }

  lemma OpeningAnswered(c: Conn, f: F, choice: Choice)
    requires !c.closed && (f.Request? || f.Push?)
    ensures Out(c, f, choice, Handle(c, f, choice).0)
  {
    ProtocolErrorCloses(c, f.id);
    hide ProtocolError, Out, HandleError, HandlePing, HandleClientData, HandleServerData, HandleHeaders, HandleResponse;
    var v := Handle(c, f, choice).1;
    var fs :=
      if v == OutOfRange || v == BadPriority then [Error(f.id, PROTOCOL_ERROR)]
      else if v == Refused then [Error(f.id, REFUSED_STREAM)]
      else [];
    OutWith(c, f, choice, Handle(c, f, choice).0, fs);
  }

  lemma ErrorAnswered(c: Conn, f: F, choice: Choice)
    requires !c.closed && f.Error?
    ensures Out(c, f, choice, Handle(c, f, choice).0)
  {
    ProtocolErrorCloses(c, f.id);
    hide ProtocolError, Out, HandleRequest, HandlePush, HandlePing, HandleClientData, HandleServerData, HandleHeaders,
      HandleResponse;
    var fs := if Handle(c, f, choice).1 == UnknownStatus then [Error(f.id, PROTOCOL_ERROR)] else [];
    OutWith(c, f, choice, Handle(c, f, choice).0, fs);
  }

  lemma PingAnswers(c: Conn, f: F, choice: Choice)
    requires f.Ping?
    ensures Out(c, f, choice, Handle(c, f, choice).0)
  {
    hide Out, HandleRequest, HandlePush, HandleError, HandleClientData, HandleServerData, HandleHeaders, HandleResponse;
    var fs := if Handle(c, f, choice).1 == PingAnswered then [Ping(FLAG_FINISH, f.pid)] else [];
    OutWith(c, f, choice, Handle(c, f, choice).0, fs);
  }

  lemma FrameAnswered(c: Conn, f: F, choice: Choice)
    requires Crashes.Running(c)
    ensures Out(c, f, choice, Receive(c, f, choice).0)
  {
    hide Handle, Out;
    if f.Request? || f.Push? {
      OpeningAnswered(c, f, choice);
    } else if f.Error? {
      ErrorAnswered(c, f, choice);
    } else if f.Ping? {
      PingAnswers(c, f, choice);
    } else {
      StreamedAnswered(c, f, choice);
    }
  }

  // ------------------------------------------------------------------------------ runs

  /** How many misplaced frames a run handles. */
  function Faults(c: Conn, inputs: seq<Input>): nat
    decreases inputs
  {
    if inputs == [] || c.closed then 0
    else
      (if inputs[0].Inbound? && Crashes.Running(c) && Misplaced(c, inputs[0].frame) then 1 else 0)
      + Faults(Step(c, inputs[0]), inputs[1..])
  }

  /** A frame that comes when there have been too many of them, or that ends the connection
      by itself. */
  predicate Fatal(c: Conn, input: Input) {
    input.Inbound? && (c.benign > 10 || Ends(c, input.frame))
  }

  lemma StepJudged(c: Conn, input: Input)
    requires !c.closed
    ensures var d := Step(c, input);
      && (d.closed <==> Fatal(c, input))
      && (!d.closed ==>
            d.benign ==
              c.benign + if input.Inbound? && Crashes.Running(c) && Misplaced(c, input.frame) then 1 else 0)
  {
    hide Handle, StartRequest, StartPush, StartPing, CloseStream, Misplaced, Ends;
    if !input.Inbound? {
      CallsCountNothing(c, input);
    } else if Crashes.Running(c) {
      FrameJudged(c, input.frame, input.choice);
    } else {
      ProtocolErrorCloses(c, 0);
    }
  }

  lemma CallsCountNothing(c: Conn, input: Input)
    requires !input.Inbound?
    ensures Step(c, input).benign == c.benign && Step(c, input).closed == c.closed
  {
    hide Receive, RequestFrames;
  }

  /** No fatal frame in a run. */
  ghost predicate Harmless(c: Conn, inputs: seq<Input>)
    decreases inputs
  {
    inputs == [] || (!Fatal(c, inputs[0]) && Harmless(Step(c, inputs[0]), inputs[1..]))
  }

  /** Every run: the connection is open at the end if and only if no frame was fatal, that
      is, came after more than ten misplaced ones or ends a connection by itself; and its
      count is then that of the misplaced ones. */
  lemma {:induction false} RunSurvivesExactly(c: Conn, inputs: seq<Input>)
    requires !c.closed
    ensures var d := Run(c, inputs);
      && (!d.closed <==> Harmless(c, inputs))
      && (!d.closed ==> d.benign == c.benign + Faults(c, inputs))
    decreases inputs
  {
    hide Step, Fatal, Misplaced;
    if inputs != [] {
      StepJudged(c, inputs[0]);
      var d := Step(c, inputs[0]);
      if d.closed {
        ClosedForGood(d, inputs[1..]);
      } else {
        RunSurvivesExactly(d, inputs[1..]);
      }
    }
  }

  lemma {:induction false} ClosedForGood(c: Conn, inputs: seq<Input>)
    requires c.closed
    ensures Run(c, inputs) == c
    decreases inputs
  {
    hide Step;
    if inputs != [] {
      Crashes.ClosedStep(c, inputs[0]);
      ClosedForGood(c, inputs[1..]);
    }
  }
}
