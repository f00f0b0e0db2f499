// The nil StreamState. A closed stream stays in the map without its state, and asking
// that state ends the program: which runs come to this, exactly.

module Crashes {
  import opened Protocol
  import S = StreamStates
  import opened Connection
  import opened Freshness
  import Demux

  /** The entry of a closed stream. */
  predicate Nil(c: Conn, id: uint32) {
    id in c.streams && c.streams[id].state.None?
  }

  ghost predicate NoNil(c: Conn) {
    forall id :: id in c.streams ==> c.streams[id].state.Some?
  }

  /** The main loop still handles frames. */
  predicate Running(c: Conn) {
    !c.closed && c.benign <= MAX_BENIGN_ERRORS
  }

  /** The frame passes its handler's tests of role, parity and range, so that the handler
      goes on to ask whether the stream is open. */
  predicate Asks(server: bool, f: F) {
    match f
    case Data(_, id, _) => if server then !Odd(id) && ValidID(id) else Odd(id)
    case Headers(_, id, _) => server || Odd(id)
    case Response(_, _, id, _, _, _) => !server && Odd(id) && ValidID(id)
    case _ => false
  }

  /** One step from a state that has not crashed. */
  lemma StepCrashesExactly(c: Conn, input: Input)
    requires !c.crashed
    ensures Step(c, input).crashed <==>
      input.Inbound? && Running(c) && Asks(c.server, input.frame) && Nil(c, input.frame.id)
  {
    if !input.Inbound? {
      CallNeverCrashes(c, input);
    } else if input.frame.Data? || input.frame.Headers? || input.frame.Response? {
      StreamedCrashes(c, input.frame, input.choice);
    } else {
      OtherNeverCrashes(c, input.frame, input.choice);
    }
    hide Receive, StartRequest, StartPush, StartPing, CloseStream;
  }

  lemma CallNeverCrashes(c: Conn, input: Input)
    requires !input.Inbound?
    ensures Step(c, input).crashed == c.crashed && Step(c, input).closed == c.closed
  {
    hide Receive, RequestFrames;
  }

  lemma OtherNeverCrashes(c: Conn, f: F, choice: Choice)
    requires f.Request? || f.Push? || f.Ping? || f.Error?
    ensures Receive(c, f, choice).0.crashed == c.crashed
  {
    ProtocolErrorCloses(c, 0);
    if !f.Ping? {
      ProtocolErrorCloses(c, f.id);
    }
    hide ProtocolError, HandleClientData, HandleServerData, HandleHeaders, HandleResponse;
  }

  lemma DeliverCrashes(c: Conn, id: uint32, f: F)
    requires !c.crashed
    ensures Deliver(c, id, f).0.crashed <==> Nil(c, id)
  {
    hide ReceiveFrame;
    if id in c.streams && c.streams[id].state.Some? {
      ReceiveTouches(c, id, f);
    }
  }

  lemma StreamedCrashes(c: Conn, f: F, choice: Choice)
    requires !c.crashed && (f.Data? || f.Headers? || f.Response?)
    ensures Receive(c, f, choice).0.crashed <==> Running(c) && Asks(c.server, f) && Nil(c, f.id)
  {
    DeliverCrashes(c, f.id, f);
    ProtocolErrorCloses(c, 0);
    ProtocolErrorCloses(c, f.id);
    hide Deliver, ProtocolError, Nil, HandleRequest, HandlePush, HandleError, HandlePing;
  }

  // ------------------------------------------------------------- closing and opening

  /** An ERROR that closes one stream. */
  predicate Shutting(status: uint32) {
    status in {INVALID_STREAM, STREAM_CLOSED, REFUSED_STREAM, FINISH_STREAM}
  }

  /** A Close of a stream in the map, or such an ERROR on it. */
  predicate Shuts(c: Conn, input: Input, id: uint32) {
    id in c.streams &&
    ((input == CallClose(id) && !c.closed) ||
     (input.Inbound? && Running(c) && input.frame.Error? && input.frame.id == id && Shutting(input.frame.status)))
  }

  /** A new entry in the map under that ID. */
  predicate Opens(c: Conn, input: Input, id: uint32) {
    Inserted(c, input) == Some(id) && !(input.Inbound? && input.frame.Push?)
  }

  /** What a step does to the closed streams. */
  lemma StepOnNil(c: Conn, input: Input, id: uint32)
    requires !c.closed && !Step(c, input).closed
    ensures Nil(Step(c, input), id) <==> Shuts(c, input, id) || (Nil(c, id) && !Opens(c, input, id))
  {
    if !input.Inbound? {
      CallOnNil(c, input, id);
    } else if input.frame.Error? {
      ErrorOnNil(c, input.frame, input.choice, id);
    } else if input.frame.Data? || input.frame.Headers? || input.frame.Response? {
      StreamedOnNil(c, input.frame, input.choice, id);
    } else {
      OtherOnNil(c, input.frame, input.choice, id);
    }
    hide Receive, StartRequest, StartPush, StartPing, CloseStream, Nil, Running;
  }

  lemma CallOnNil(c: Conn, input: Input, id: uint32)
    requires !c.closed && !input.Inbound?
    ensures Nil(Step(c, input), id) <==> Shuts(c, input, id) || (Nil(c, id) && !Opens(c, input, id))
  {
    hide Receive, RequestFrames, NextPingID, NextRequestID, NextPushID, Running;
  }

  lemma ErrorOnNil(c: Conn, f: F, choice: Choice, id: uint32)
    requires !c.closed && f.Error? && !Receive(c, f, choice).0.closed
    ensures Nil(Receive(c, f, choice).0, id) <==> Shuts(c, Inbound(f, choice), id) || Nil(c, id)
  {
    ProtocolErrorCloses(c, 0);
    ProtocolErrorCloses(c, f.id);
    hide ProtocolError, HandleRequest, HandlePush, HandlePing, HandleClientData, HandleServerData, HandleHeaders,
      HandleResponse;
  }

  lemma DeliverOnNil(c: Conn, id: uint32, f: F, other: uint32)
    requires !Deliver(c, id, f).0.closed
    ensures Nil(Deliver(c, id, f).0, other) <==> Nil(c, other)
  {
    hide ReceiveFrame;
    if id in c.streams && c.streams[id].state.Some? {
      ReceiveOnNil(c, id, f, other);
    }
  }

  lemma ReceiveOnNil(c: Conn, id: uint32, f: F, other: uint32)
    requires id in c.streams && c.streams[id].state.Some?
    ensures Nil(ReceiveFrame(c, id, f), other) <==> Nil(c, other)
  {
    hide Callbacks, Ends, S.CloseThere;
  }

  lemma StreamedOnNil(c: Conn, f: F, choice: Choice, id: uint32)
    requires !c.closed && (f.Data? || f.Headers? || f.Response?) && !Receive(c, f, choice).0.closed
    ensures Nil(Receive(c, f, choice).0, id) <==> Nil(c, id)
  {
    ProtocolErrorCloses(c, 0);
    ProtocolErrorCloses(c, f.id);
    if !Deliver(c, f.id, f).0.closed {
      DeliverOnNil(c, f.id, f, id);
    }
    hide Deliver, ProtocolError, HandleRequest, HandlePush, HandleError, HandlePing;
  }

  lemma OtherOnNil(c: Conn, f: F, choice: Choice, id: uint32)
    requires !c.closed && (f.Request? || f.Push? || f.Ping?) && !Receive(c, f, choice).0.closed
    ensures Nil(Receive(c, f, choice).0, id) <==> Nil(c, id) && !Opens(c, Inbound(f, choice), id)
  {
    hide Nil, ProtocolError, HandleRequest, HandlePush, HandlePing, HandleError, HandleClientData, HandleServerData,
      HandleHeaders, HandleResponse;
    ProtocolErrorCloses(c, 0);
    if f.Request? {
      RequestOnNil(c, f, choice.parses, id);
    } else if f.Push? {
      PushOnNil(c, f, choice.parses, choice.wants, id);
    } else {
      PingOnNil(c, f, id);
    }
  }

  lemma RequestOnNil(c: Conn, f: F, parses: bool, id: uint32)
    requires f.Request? && !HandleRequest(c, f, parses).0.closed
    ensures var (d, v) := HandleRequest(c, f, parses);
      Nil(d, id) <==> Nil(c, id) && !(v == Accepted && f.id == id)
  {
    ProtocolErrorCloses(c, f.id);
    hide ProtocolError;
  }

  lemma PushOnNil(c: Conn, f: F, parses: bool, wants: bool, id: uint32)
    requires f.Push? && !HandlePush(c, f, parses, wants).0.closed
    ensures Nil(HandlePush(c, f, parses, wants).0, id) <==> Nil(c, id)
  {
    ProtocolErrorCloses(c, f.id);
    hide ProtocolError;
  }

  lemma PingOnNil(c: Conn, f: F, id: uint32)
    requires f.Ping?
    ensures Nil(HandlePing(c, f).0, id) <==> Nil(c, id)
  {
  }

  // ------------------------------------------------------------------------- runs

  /** The state in which a run takes its input k. */
  function At(c: Conn, inputs: seq<Input>, k: nat): Conn
    requires k <= |inputs|
  {
    Run(c, inputs[..k])
  }

  lemma {:induction false} RunSnoc(c: Conn, inputs: seq<Input>, last: Input)
    ensures Run(c, inputs + [last]) == Step(Run(c, inputs), last)
    decreases inputs
  {
    hide Step;
    if inputs == [] {
      assert [last][1..] == [];
    } else {
      assert (inputs + [last])[0] == inputs[0] && (inputs + [last])[1..] == inputs[1..] + [last];
      RunSnoc(Step(c, inputs[0]), inputs[1..], last);
    }
  }

  lemma AtNext(c: Conn, inputs: seq<Input>, k: nat)
    requires k < |inputs|
    ensures At(c, inputs, k + 1) == Step(At(c, inputs, k), inputs[k])
  {
    hide Run, Step;
    assert inputs[..k + 1] == inputs[..k] + [inputs[k]];
    RunSnoc(c, inputs[..k], inputs[k]);
  }

  lemma ClosedStep(c: Conn, input: Input)
    requires c.closed
    ensures Step(c, input) == c
  {
  }

  /** Before input j the stream was closed while it was in the map, and no stream has been
      opened under its ID since. */
  ghost predicate ShutBefore(c: Conn, inputs: seq<Input>, j: nat, id: uint32)
    requires j <= |inputs|
  {
    exists i :: 0 <= i < j && ShutAt(c, inputs, i, id) && forall k :: i < k < j ==> !OpenedAt(c, inputs, k, id)
  }

  predicate ShutAt(c: Conn, inputs: seq<Input>, i: nat, id: uint32)
    requires i < |inputs|
  {
    Shuts(At(c, inputs, i), inputs[i], id)
  }

  predicate OpenedAt(c: Conn, inputs: seq<Input>, k: nat, id: uint32)
    requires k < |inputs|
  {
    Opens(At(c, inputs, k), inputs[k], id)
  }

  lemma ShutBeforeNext(c: Conn, inputs: seq<Input>, j: nat, id: uint32)
    requires j < |inputs|
    ensures ShutBefore(c, inputs, j + 1, id) <==>
      ShutAt(c, inputs, j, id) || (ShutBefore(c, inputs, j, id) && !OpenedAt(c, inputs, j, id))
  {
    hide ShutAt, OpenedAt;
    if ShutBefore(c, inputs, j + 1, id) && !ShutAt(c, inputs, j, id) {
      var i :| 0 <= i < j + 1 && ShutAt(c, inputs, i, id) && forall k :: i < k < j + 1 ==> !OpenedAt(c, inputs, k, id);
      assert i < j && !OpenedAt(c, inputs, j, id);
    }
  }

  /** As long as the connection is open, the nil entries are those of closed streams. */
  lemma {:induction false} NilExactly(c: Conn, inputs: seq<Input>, j: nat, id: uint32)
    requires NoNil(c) && j <= |inputs| && !At(c, inputs, j).closed
    ensures Nil(At(c, inputs, j), id) <==> ShutBefore(c, inputs, j, id)
    decreases j
  {
    hide Step, Run, Nil, Shuts, Opens;
    if j == 0 {
      NilAtFirst(c, inputs, id);
    } else {
      AtNext(c, inputs, j - 1);
      if At(c, inputs, j - 1).closed {
        ClosedStep(At(c, inputs, j - 1), inputs[j - 1]);
      }
      NilExactly(c, inputs, j - 1, id);
      StepOnNil(At(c, inputs, j - 1), inputs[j - 1], id);
      ShutBeforeNext(c, inputs, j - 1, id);
    }
  }

  lemma NilAtFirst(c: Conn, inputs: seq<Input>, id: uint32)
    requires NoNil(c)
    ensures !Nil(At(c, inputs, 0), id)
  {
  }

  /** Input j is a frame that asks a stream closed before. */
  ghost predicate CrashesAt(c: Conn, inputs: seq<Input>, j: nat)
    requires j < |inputs|
  {
    var input := inputs[j];
    && input.Inbound? && Running(At(c, inputs, j)) && Asks(c.server, input.frame)
    && ShutBefore(c, inputs, j, input.frame.id)
  }

  lemma {:induction false} RoleAt(c: Conn, inputs: seq<Input>, j: nat)
    requires j <= |inputs|
    ensures At(c, inputs, j).server == c.server
    decreases j
  {
    hide Step, Run;
    if j == 0 {
      RunNothing(c, inputs);
    } else {
      RoleAt(c, inputs, j - 1);
      AtNext(c, inputs, j - 1);
      RoleStays(At(c, inputs, j - 1), inputs[j - 1]);
    }
  }

  lemma RunNothing(c: Conn, inputs: seq<Input>)
    ensures At(c, inputs, 0) == c
  {
  }

  lemma StateCrashesAt(c: Conn, inputs: seq<Input>, j: nat)
    requires NoNil(c) && j < |inputs| && !At(c, inputs, j).crashed
    ensures At(c, inputs, j + 1).crashed <==> CrashesAt(c, inputs, j)
  {
    hide Step, Run, Nil, ShutBefore;
    var d, input := At(c, inputs, j), inputs[j];
    AtNext(c, inputs, j);
    StepCrashesExactly(d, input);
    RoleAt(c, inputs, j);
    if input.Inbound? && Running(d) && Asks(c.server, input.frame) {
      NilExactly(c, inputs, j, input.frame.id);
    }
  }

  /** A crash closes the connection, so that nothing is handled after it. */
  lemma {:induction false} CrashStays(c: Conn, inputs: seq<Input>, j: nat, k: nat)
    requires j <= k <= |inputs| && (c.crashed ==> c.closed) && At(c, inputs, j).crashed
    ensures At(c, inputs, k) == At(c, inputs, j) && At(c, inputs, k).closed
    decreases k
  {
    hide Step, Run;
    CrashedIsClosed(c, inputs, j);
    if j < k {
      CrashStays(c, inputs, j, k - 1);
      AtNext(c, inputs, k - 1);
      ClosedStep(At(c, inputs, k - 1), inputs[k - 1]);
    }
  }

  lemma {:induction false} CrashedIsClosed(c: Conn, inputs: seq<Input>, j: nat)
    requires j <= |inputs| && (c.crashed ==> c.closed)
    ensures At(c, inputs, j).crashed ==> At(c, inputs, j).closed
    decreases j
  {
    hide Step, Run;
    if j == 0 {
      RunNothing(c, inputs);
    } else {
      CrashedIsClosed(c, inputs, j - 1);
      AtNext(c, inputs, j - 1);
      StepCrashCloses(At(c, inputs, j - 1), inputs[j - 1]);
    }
  }

  lemma StepCrashCloses(c: Conn, input: Input)
    requires c.crashed ==> c.closed
    ensures Step(c, input).crashed ==> Step(c, input).closed
  {
    if c.closed {
      ClosedStep(c, input);
    } else if !input.Inbound? {
      CallNeverCrashes(c, input);
    } else if input.frame.Data? || input.frame.Headers? || input.frame.Response? {
      StreamedCrashCloses(c, input.frame, input.choice);
    } else {
      OtherNeverCrashes(c, input.frame, input.choice);
    }
    hide Receive, StartRequest, StartPush, StartPing, CloseStream;
  }

  lemma StreamedCrashCloses(c: Conn, f: F, choice: Choice)
    requires !c.crashed && (f.Data? || f.Headers? || f.Response?)
    ensures Receive(c, f, choice).0.crashed ==> Receive(c, f, choice).0.closed
  {
    ProtocolErrorCloses(c, 0);
    ProtocolErrorCloses(c, f.id);
    DeliverCrashCloses(c, f.id, f);
    hide Deliver, ProtocolError, HandleRequest, HandlePush, HandleError, HandlePing;
  }

  lemma DeliverCrashCloses(c: Conn, id: uint32, f: F)
    requires !c.crashed
    ensures Deliver(c, id, f).0.crashed ==> Deliver(c, id, f).0.closed
  {
    hide ReceiveFrame;
    if id in c.streams && c.streams[id].state.Some? {
      ReceiveTouches(c, id, f);
    }
  }

  /** Every run, from a state without nil entries: it crashes if and only if some frame is
      handled that asks a stream after an ERROR on it, or a Close of it, while it was in
      the map (and not opened anew since, which takes a counter that wraps). */
  lemma RunCrashesExactly(c: Conn, inputs: seq<Input>)
    requires NoNil(c) && !c.crashed
    ensures Run(c, inputs).crashed <==> exists j :: 0 <= j < |inputs| && CrashesAt(c, inputs, j)
  {
    hide Run, CrashesAt;
    assert inputs[..|inputs|] == inputs;
    if Run(c, inputs).crashed {
      FirstCrash(c, inputs, |inputs|);
    }
    if j :| 0 <= j < |inputs| && CrashesAt(c, inputs, j) {
      OpenUntil(c, inputs, j);
      StateCrashesAt(c, inputs, j);
      CrashStays(c, inputs, j + 1, |inputs|);
    }
  }

  lemma OpenUntil(c: Conn, inputs: seq<Input>, j: nat)
    requires j < |inputs| && !c.crashed && CrashesAt(c, inputs, j)
    ensures !At(c, inputs, j).crashed
  {
    hide Run, ShutBefore;
    CrashedIsClosed(c, inputs, j);
  }

  lemma {:induction false} FirstCrash(c: Conn, inputs: seq<Input>, k: nat)
    requires NoNil(c) && !c.crashed && k <= |inputs| && At(c, inputs, k).crashed
    ensures exists j :: 0 <= j < k && CrashesAt(c, inputs, j)
    decreases k
  {
    hide Run, CrashesAt;
    if k == 0 {
      RunNothing(c, inputs);
    } else if At(c, inputs, k - 1).crashed {
      FirstCrash(c, inputs, k - 1);
    } else {
      StateCrashesAt(c, inputs, k - 1);
    }
  }

  /** Before a counter wraps, no ID in the map is opened anew, so a closed stream is closed
      for good. */
  lemma ShutIsForGood(c: Conn, inputs: seq<Input>, i: nat, k: nat, id: uint32)
    requires Tidy(c) && NeverWraps(c, inputs) && i < k < |inputs| && ShutAt(c, inputs, i, id)
    ensures !OpenedAt(c, inputs, k, id)
  {
    hide Run, Step, Tidy;
    ShutIsIn(c, inputs, i, id);
    StaysIn(c, inputs, i, k, id);
    OpensNew(c, inputs, k, id);
  }

  lemma ShutIsIn(c: Conn, inputs: seq<Input>, i: nat, id: uint32)
    requires i < |inputs| && ShutAt(c, inputs, i, id)
    ensures id in At(c, inputs, i).streams
  {
    hide Run;
  }

  lemma OpensNew(c: Conn, inputs: seq<Input>, k: nat, id: uint32)
    requires Tidy(c) && NeverWraps(c, inputs) && k < |inputs|
    requires At(c, inputs, k).closed || id in At(c, inputs, k).streams
    ensures !OpenedAt(c, inputs, k, id)
  {
    hide Run, Step, Tidy, Receive;
    TidyAt(c, inputs, k);
    var d := At(c, inputs, k);
    if d.closed {
      ClosedInsertsNothing(d, inputs[k]);
    } else if Inserted(d, inputs[k]).Some? {
      InsertionIsFresh(d, inputs[k]);
    }
  }

  lemma ClosedInsertsNothing(c: Conn, input: Input)
    requires c.closed
    ensures Inserted(c, input).None?
  {
  }

  lemma {:induction false} TidyAt(c: Conn, inputs: seq<Input>, k: nat)
    requires Tidy(c) && NeverWraps(c, inputs) && k <= |inputs|
    ensures Tidy(At(c, inputs, k)) && NeverWraps(At(c, inputs, k), inputs[k..])
    decreases k
  {
    hide Run, Step, Tidy;
    if k == 0 {
      RunNothing(c, inputs);
      assert inputs[0..] == inputs;
    } else {
      TidyAt(c, inputs, k - 1);
      var d := At(c, inputs, k - 1);
      AtNext(c, inputs, k - 1);
      assert inputs[k - 1..][0] == inputs[k - 1] && inputs[k - 1..][1..] == inputs[k..];
      if inputs[k - 1].Inbound? {
        InboundStepIsTidy(d, inputs[k - 1]);
      } else {
        CallIsTidy(d, inputs[k - 1]);
      }
    }
  }

  lemma InboundStepIsTidy(c: Conn, input: Input)
    requires Tidy(c) && input.Inbound?
    ensures Tidy(Step(c, input))
  {
    InboundIsTidy(c, input.frame, input.choice);
    hide Receive, Tidy;
  }

  lemma {:induction false} StaysIn(c: Conn, inputs: seq<Input>, i: nat, k: nat, id: uint32)
    requires Tidy(c) && NeverWraps(c, inputs) && i <= k < |inputs| && id in At(c, inputs, i).streams
    ensures At(c, inputs, k).closed || id in At(c, inputs, k).streams
    decreases k
  {
    hide Run, Step, Tidy;
    if i < k {
      StaysIn(c, inputs, i, k - 1, id);
      AtNext(c, inputs, k - 1);
      var d := At(c, inputs, k - 1);
      if d.closed {
        ClosedStep(d, inputs[k - 1]);
      } else {
        KeepsEntry(d, inputs[k - 1], id);
      }
    }
  }

  lemma KeepsEntry(c: Conn, input: Input, id: uint32)
    requires id in c.streams
    ensures Step(c, input).closed || id in Step(c, input).streams
  {
    if input.Inbound? {
      var (f, choice) := (input.frame, input.choice);
      if Receive(c, f, choice).1 == Accepted {
        AcceptedEffect(c, f, choice);
      } else {
        InboundKeepsEntries(c, f, choice);
      }
      hide Receive;
    } else {
      hide Receive, RequestFrames, NextPingID;
    }
  }

  /** So before a wrap the condition is plain: an ERROR or a Close, and later a frame. */
  lemma BeforeWrap(c: Conn, inputs: seq<Input>, j: nat, id: uint32)
    requires Tidy(c) && NeverWraps(c, inputs) && j < |inputs|
    ensures ShutBefore(c, inputs, j, id) <==> exists i :: 0 <= i < j && ShutAt(c, inputs, i, id)
  {
    hide ShutAt, OpenedAt, Tidy;
    if i :| 0 <= i < j && ShutAt(c, inputs, i, id) {
      forall k | i < k < j ensures !OpenedAt(c, inputs, k, id) {
        ShutIsForGood(c, inputs, i, k, id);
      }
    }
  }

  /** An ERROR that closes a stream, or a Close of one. */
  predicate Closes(input: Input) {
    input.CallClose? || (input.Inbound? && input.frame.Error? && Shutting(input.frame.status))
  }

  lemma OnlyTheseShut(c: Conn, inputs: seq<Input>, i: nat, id: uint32)
    requires i < |inputs| && !Closes(inputs[i])
    ensures !ShutAt(c, inputs, i, id)
  {
    hide Run;
  }

  /** A run with neither never crashes. */
  lemma WithoutClosing(c: Conn, inputs: seq<Input>)
    requires NoNil(c) && !c.crashed
    requires forall i :: 0 <= i < |inputs| ==> !Closes(inputs[i])
    ensures !Run(c, inputs).crashed
  {
    hide Run, At, Running, Closes, ShutAt, OpenedAt;
    RunCrashesExactly(c, inputs);
    forall j | 0 <= j < |inputs| ensures !CrashesAt(c, inputs, j) {
      forall i, id | 0 <= i < j ensures !ShutAt(c, inputs, i, id) {
        OnlyTheseShut(c, inputs, i, id);
      }
    }
  }

  // ------------------------------------------------------------------------ witnesses

  /** A client that closes its own stream, when the server has already sent on it. */
  lemma OwnCloseCrashes(hasReceiver: bool, seed: uint32, h: Header, data: Bytes, choice: Choice)
    ensures Run(Fresh(false, hasReceiver, seed),
                [CallRequest(Asked(0, true, h, None)), CallClose(1), Inbound(Data(0, 1, data), choice)]).crashed
  {
    var request := CallRequest(Asked(0, true, h, None));
    var c := Fresh(false, hasReceiver, seed);
    var asked := Step(c, request);
    assert asked.streams == map[1 := ClientStream(Some(S.HALF_CLOSED_HERE))];
    AfterClosing(asked, CallClose(1), data, choice);
    ThreeSteps(c, request, CallClose(1), Inbound(Data(0, 1, data), choice));
  }

  /** The peer alone: an ERROR that closes the stream and a DATA frame after it, neither
      of them counted as an error. */
  lemma PeerCrashes(hasReceiver: bool, seed: uint32, h: Header, data: Bytes, choice: Choice)
    ensures var d := Run(Fresh(false, hasReceiver, seed),
                         [CallRequest(Asked(0, true, h, None)), Inbound(Error(1, REFUSED_STREAM), choice),
                          Inbound(Data(0, 1, data), choice)]);
      d.crashed && d.benign == 0
  {
    var request := CallRequest(Asked(0, true, h, None));
    var refuse := Inbound(Error(1, REFUSED_STREAM), choice);
    var c := Fresh(false, hasReceiver, seed);
    var asked := Step(c, request);
    assert asked.streams == map[1 := ClientStream(Some(S.HALF_CLOSED_HERE))];
    AfterClosing(asked, refuse, data, choice);
    ThreeSteps(c, request, refuse, Inbound(Data(0, 1, data), choice));
  }

  lemma AfterClosing(c: Conn, shut: Input, data: Bytes, choice: Choice)
    requires !c.server && Running(c) && 1 in c.streams && Shuts(c, shut, 1)
    requires shut == CallClose(1) || (shut.Inbound? && shut.frame == Error(1, REFUSED_STREAM))
    ensures var d := Step(Step(c, shut), Inbound(Data(0, 1, data), choice));
      d.crashed && d.benign == c.benign && d.calls == c.calls
  {
    hide Step, Running, Nil, Shuts;
    ShutLeavesNil(c, shut);
    NilOnData(Step(c, shut), data, choice);
  }

  lemma ShutLeavesNil(c: Conn, shut: Input)
    requires !c.server && Running(c) && Shuts(c, shut, 1)
    requires shut == CallClose(1) || (shut.Inbound? && shut.frame == Error(1, REFUSED_STREAM))
    ensures var d := Step(c, shut);
      !d.server && Running(d) && Nil(d, 1) && d.benign == c.benign && d.calls == c.calls
  {
  }

  lemma NilOnData(c: Conn, data: Bytes, choice: Choice)
    requires !c.server && Running(c) && Nil(c, 1)
    ensures var d := Step(c, Inbound(Data(0, 1, data), choice));
      d.crashed && d.benign == c.benign && d.calls == c.calls
  {
  }

  /** A crash takes the other streams with it: a frame that would have been delivered to
      one of them is not, once a closed stream has been asked. */
  lemma CrashSilences(c: Conn, shut: uint32, other: uint32, lost: Bytes, data: Bytes, choice: Choice)
    requires !c.server && Running(c) && Odd(shut) && Nil(c, shut)
    requires Odd(other) && Demux.Has(c, other, S.HALF_CLOSED_HERE)
    ensures Step(c, Inbound(Data(0, other, data), choice)).calls == c.calls + [ReceiveData(other, data, false)]
    ensures Step(Step(c, Inbound(Data(0, shut, lost), choice)), Inbound(Data(0, other, data), choice)).calls == c.calls
  {
    assert c.calls + [ReceiveData(other, data, false)] + [] == c.calls + [ReceiveData(other, data, false)];
  }

  lemma ThreeSteps(c: Conn, a: Input, b: Input, d: Input)
    ensures Run(c, [a, b, d]) == Step(Step(Step(c, a), b), d)
  {
    hide Step;
    assert [a, b, d][1..] == [b, d] && [b, d][1..] == [d] && [d][1..] == [];
    assert Run(Step(c, a), [b, d]) == Run(Step(Step(c, a), b), [d]);
  }
}
