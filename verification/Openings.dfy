// What the opening of a stream leaves at its two ends: the frames of a request, the half
// that its FINISH closes, and the entries of the stream map from then on.

module Openings {
  import opened Protocol
  import S = StreamStates
  import SS = ServerStreams
  import CS = ClientStreams
  import PS = PushStreams
  import Chunking
  import opened Connection
  import opened Demux
  import opened Endpoints

  // ------------------------------------------------------------------- the client's end

  function ChunksOf(a: Asked): seq<Bytes> {
    if a.body.Some? then a.body.value else []
  }

  /** A REQUEST as it was asked for, the chunks of its body after it, all on one stream and
      one channel, and one FINISH, on the last frame. */
  ghost predicate WholeRequest(fs: seq<Sent>, id: uint32, a: Asked) {
    var chunks := ChunksOf(a);
    && |fs| == 1 + |chunks|
    && fs[0].frame.Request? && fs[0].frame.id == id
    && fs[0].frame.priority == a.priority && fs[0].frame.header == a.header
    && (forall i :: 1 <= i < |fs| ==> fs[i].frame.Data? && fs[i].frame.id == id && fs[i].frame.data == chunks[i - 1])
    && forall i {:trigger fs[i]} :: 0 <= i < |fs| ==>
         fs[i].channel == 0 && (Finish(FlagsOf(fs[i].frame)) <==> i == |fs| - 1)
  }

  function FlagsOf(f: F): byte {
    if f.Request? || f.Data? then f.flags else 0
  }

  lemma {:induction false} BodyAt(id: uint32, chunks: seq<Bytes>, i: nat)
    requires i < |chunks|
    ensures |BodyFrames(id, chunks)| == |chunks|
    ensures BodyFrames(id, chunks)[i]
         == Sent(0, Data(if i == |chunks| - 1 then FLAG_FINISH else 0, id, chunks[i]))
    decreases chunks
  {
    if i > 0 {
      BodyAt(id, chunks[1..], i - 1);
    } else if |chunks| > 1 {
      BodyAt(id, chunks[1..], 0);
    }
  }

  lemma RequestIsWhole(id: uint32, a: Asked)
    ensures WholeRequest(RequestFrames(id, a), id, a)
  {
    hide BodyFrames;
    var fs, chunks := RequestFrames(id, a), ChunksOf(a);
    if chunks != [] {
      BodyAt(id, chunks, 0);
      forall i | 1 <= i < |fs| ensures fs[i] == BodyFrames(id, chunks)[i - 1] {
      }
      forall i | 1 <= i < |fs|
        ensures fs[i] == Sent(0, Data(if i == |fs| - 1 then FLAG_FINISH else 0, id, chunks[i - 1]))
      {
        BodyAt(id, chunks, i - 1);
      }
    }
  }

  /** What an accepted Request hands over, and its entry, which is closed on this side
      since the FINISH is out; a refused one hands over nothing. */
  lemma RequestHandsOver(c: Conn, a: Asked)
    ensures var (d, id) := StartRequest(c, a);
      && (id.Some? <==> !c.closed && !c.server && a.priority <= 7 && a.urlOk && ValidID(NextRequestID(c.lastRequest)))
      && c.out <= d.out && d.calls == c.calls
      && if id.None? then d.out == c.out && d.streams == c.streams
         else
           && WholeRequest(d.out[|c.out|..], id.value, a)
           && d.streams == c.streams[id.value := ClientStream(Some(S.HALF_CLOSED_HERE))]
           && CS.Begin(id.value).state == S.HALF_CLOSED_HERE
  {
    hide RequestFrames, NextRequestID, WholeRequest;
    var (d, id) := StartRequest(c, a);
    if id.Some? {
      RequestIsWhole(id.value, a);
      assert d.out[|c.out|..] == RequestFrames(id.value, a);
    }
  }

  lemma {:induction false} DataOf(fs: seq<F>, chunks: seq<Bytes>)
    requires |fs| == |chunks| && forall i :: 0 <= i < |fs| ==> fs[i].Data? && fs[i].data == chunks[i]
    ensures SS.Body(fs) == Chunking.Concat(chunks)
  {
    if fs != [] {
      DataOf(fs[1..], chunks[1..]);
    }
  }

  /** So the data of the frames is the body. */
  lemma BodyIsWhole(fs: seq<Sent>, id: uint32, a: Asked)
    requires WholeRequest(fs, id, a)
    ensures SS.Body(FramesOf(fs)) == Chunking.Concat(ChunksOf(a))
  {
    hide FramesOf, SS.Body;
    var frames := FramesOf(fs);
    assert frames == [frames[0]] + frames[1..];
    SS.BodyAppend([frames[0]], frames[1..]);
    SS.NoBody([frames[0]]);
    DataOf(frames[1..], ChunksOf(a));
    assert [] + SS.Body(frames[1..]) == SS.Body(frames[1..]);
  }

  // ------------------------------------------------------------------- the server's end

  /** An entry in the server's map with that state. */
  predicate Keeps(c: Conn, id: uint32, st: S.State) {
    c.server && id in c.streams && c.streams[id].ServerStream? && c.streams[id].state == Some(st)
  }

  /** The server's counters are past the ID, and of their parity. */
  predicate Served(c: Conn, id: uint32, st: S.State) {
    Keeps(c, id, st) && Odd(id) && id <= c.lastRequest && !Odd(c.lastPush)
  }

  /** Accepting a REQUEST opens its stream in the state in which the handler's stream
      starts, which the other side has closed exactly if the REQUEST carried FINISH. */
  lemma AcceptOpens(c: Conn, f: F, choice: Choice)
    requires f.Request? && !Odd(c.lastPush) && Receive(c, f, choice).1 == Accepted
    ensures var (d, st) := (Receive(c, f, choice).0, SS.Accept(f.id, f.flags).state);
      && !d.closed && Served(d, f.id, st)
      && (S.ClosedThere(st) <==> Finish(f.flags)) && !S.ClosedHere(st)
  {
    hide ProtocolError, HandlePush, HandleError, HandlePing, HandleClientData, HandleServerData, HandleHeaders,
      HandleResponse;
  }

  lemma StepServes(c: Conn, input: Input, id: uint32, st: S.State)
    requires Served(c, id, st) && !Cuts(input, id)
    ensures Step(c, input).closed || Served(Step(c, input), id, st)
  {
    hide Served, Receive;
    if input.Inbound? {
      FrameServes(c, input.frame, input.choice, id, st);
    } else {
      CallServes(c, input, id, st);
    }
  }

  lemma CallServes(c: Conn, input: Input, id: uint32, st: S.State)
    requires Served(c, id, st) && !input.Inbound? && input != CallClose(id)
    ensures Served(Step(c, input), id, st)
  {
    hide Receive, NextPingID, RequestFrames;
  }

  lemma FrameServes(c: Conn, f: F, choice: Choice, id: uint32, st: S.State)
    requires Served(c, id, st) && !(f.Error? && f.id == id)
    ensures var d := Receive(c, f, choice).0; d.closed || Served(d, id, st)
  {
    hide Handle, ProtocolError;
    ProtocolErrorCloses(c, 0);
    if f.Request? {
      RequestServes(c, f, choice, id, st);
    } else if f.Error? {
      ErrorServes(c, f, choice, id, st);
    } else if f.Push? || f.Ping? {
      OtherServes(c, f, choice, id, st);
    } else {
      StreamedServes(c, f, choice, id, st);
    }
  }

  lemma RequestServes(c: Conn, f: F, choice: Choice, id: uint32, st: S.State)
    requires Served(c, id, st) && f.Request?
    ensures var d := Handle(c, f, choice).0; d.closed || Served(d, id, st)
  {
    ProtocolErrorCloses(c, f.id);
    hide ProtocolError, HandlePush, HandlePing, HandleError, HandleClientData, HandleServerData, HandleHeaders,
      HandleResponse;
  }

  lemma ErrorServes(c: Conn, f: F, choice: Choice, id: uint32, st: S.State)
    requires Served(c, id, st) && f.Error? && f.id != id
    ensures var d := Handle(c, f, choice).0; d.closed || Served(d, id, st)
  {
    ProtocolErrorCloses(c, f.id);
    hide ProtocolError, HandlePush, HandlePing, HandleRequest, HandleClientData, HandleServerData, HandleHeaders,
      HandleResponse;
  }

  lemma OtherServes(c: Conn, f: F, choice: Choice, id: uint32, st: S.State)
    requires Served(c, id, st) && (f.Push? || f.Ping?)
    ensures var d := Handle(c, f, choice).0; d.closed || Served(d, id, st)
  {
    hide ProtocolError, HandleRequest, HandleError, HandleClientData, HandleServerData, HandleHeaders, HandleResponse;
  }

  lemma DeliverServes(c: Conn, sid: uint32, f: F, id: uint32, st: S.State)
    requires Served(c, id, st)
    ensures var d := Deliver(c, sid, f).0; d.closed || Served(d, id, st)
  {
    hide ReceiveFrame;
    if sid in c.streams && c.streams[sid].state.Some? {
      ReceiveServes(c, sid, f, id, st);
    }
  }

  lemma ReceiveServes(c: Conn, sid: uint32, f: F, id: uint32, st: S.State)
    requires Served(c, id, st) && sid in c.streams && c.streams[sid].state.Some?
    ensures Served(ReceiveFrame(c, sid, f), id, st)
  {
    hide Callbacks, Ends, S.CloseThere;
  }

  lemma StreamedServes(c: Conn, f: F, choice: Choice, id: uint32, st: S.State)
    requires Served(c, id, st) && (f.Data? || f.Headers? || f.Response?)
    ensures var d := Handle(c, f, choice).0; d.closed || Served(d, id, st)
  {
    DeliverServes(c, f.id, f, id, st);
    ProtocolErrorCloses(c, f.id);
    hide Deliver, ProtocolError, HandleRequest, HandleError, HandlePush, HandlePing;
  }

  lemma {:induction false} RunServes(c: Conn, inputs: seq<Input>, id: uint32, st: S.State)
    requires Served(c, id, st) && forall i :: 0 <= i < |inputs| ==> !Cuts(inputs[i], id)
    ensures Run(c, inputs).closed || Served(Run(c, inputs), id, st)
    decreases inputs
  {
    hide Step, Served, Cuts;
    if inputs != [] {
      StepServes(c, inputs[0], id, st);
      if Step(c, inputs[0]).closed {
        ClosedStays(Step(c, inputs[0]), inputs[1..]);
      } else {
        RunServes(Step(c, inputs[0]), inputs[1..], id, st);
      }
    }
  }

  /** In every run after a REQUEST was accepted, without an ERROR on its stream or a Close
      of it, and as long as the connection is open: the other side of the stream is closed
      if and only if the REQUEST carried FINISH, and a HEADERS on it is rejected as closed,
      and counted, exactly then. */
  lemma RequestEndsItself(c: Conn, f: F, choice: Choice, inputs: seq<Input>, flags: byte, h: Header, later: Choice)
    requires f.Request? && !Odd(c.lastPush) && Receive(c, f, choice).1 == Accepted
    requires forall i :: 0 <= i < |inputs| ==> !Cuts(inputs[i], f.id)
    requires var d := Run(Receive(c, f, choice).0, inputs); !d.closed && d.benign <= MAX_BENIGN_ERRORS
    ensures var d := Run(Receive(c, f, choice).0, inputs);
      var (e, v) := Receive(d, Headers(flags, f.id, h), later);
      && Keeps(d, f.id, SS.Accept(f.id, f.flags).state)
      && (S.ClosedThere(d.streams[f.id].state.value) <==> Finish(f.flags))
      && v == (if Finish(f.flags) then NotOpen else Delivered)
      && e.benign == d.benign + if Finish(f.flags) then 1 else 0
  {
    hide Receive, Run, Served, S.ClosedThere, SS.Accept;
    var st := SS.Accept(f.id, f.flags).state;
    AcceptOpens(c, f, choice);
    RunServes(Receive(c, f, choice).0, inputs, f.id, st);
    HeadersOnServed(Run(Receive(c, f, choice).0, inputs), f.id, st, flags, h, later);
  }

  lemma HeadersOnServed(c: Conn, id: uint32, st: S.State, flags: byte, h: Header, choice: Choice)
    requires Served(c, id, st) && !c.closed && c.benign <= MAX_BENIGN_ERRORS
    ensures Keeps(c, id, st)
    ensures var (d, v) := Receive(c, Headers(flags, id, h), choice);
      && v == (if S.ClosedThere(st) then NotOpen else Delivered)
      && d.benign == c.benign + if S.ClosedThere(st) then 1 else 0
  {
    hide Callbacks, S.ClosedThere, HandleRequest, HandlePush, HandleError, HandlePing, ProtocolError;
  }

  /** A push opens its stream on both sides, so that what the other end sends on it is
      taken and dropped, not rejected. */
  lemma PushOpens(c: Conn, assoc: uint32, urlOk: bool, header: Header, flags: byte, h: Header, choice: Choice)
    requires !Odd(c.lastPush)
    ensures var (d, id) := StartPush(c, assoc, urlOk, header);
      && (id.Some? <==> !c.closed && c.server && urlOk && ValidID(NextPushID(c.lastPush)))
      && (id.None? ==> d.out == c.out && d.streams == c.streams)
      && (id.Some? ==>
            && d.streams == c.streams[id.value := PushStream(Some(S.OPEN))] && PS.Open(id.value).state == S.OPEN
            && d.out == c.out + [Sent(0, Push(0, 7, id.value, assoc, header))]
            && (c.benign <= MAX_BENIGN_ERRORS ==> Receive(d, Headers(flags, id.value, h), choice) == (d, Discarded)))
  {
    hide Callbacks, HandleRequest, HandlePush, HandleError, HandlePing, ProtocolError, NextPushID;
  }

  /** The first streams of a new connection: request 1, and push 2. */
  lemma FirstIDs(hasReceiver: bool, seed: uint32, a: Asked, assoc: uint32, header: Header)
    requires a.priority <= 7 && a.urlOk
    ensures StartRequest(Fresh(false, hasReceiver, seed), a).1 == Some(1)
    ensures StartPush(Fresh(true, hasReceiver, seed), assoc, true, header).1 == Some(2)
  {
    hide RequestFrames;
  }
}
