// Client demultiplexing refines a projection: what a receiver sees of its stream is
// the inbound frames on the stream's ID, up to the first that ends it.

module Demux {
  import opened Protocol
  import S = StreamStates
  import opened Connection
  import opened Freshness

  /** The receiver of a stream, or the push receiver as far as one push goes. */
  datatype Target = OfStream(id: uint32) | OfPush(id: uint32)

  predicate On(call: Call, t: Target) {
    match call
    case ReceiveResponse(id, _, _) => t == OfStream(id)
    case ReceiveHeader(id, _) => t == OfStream(id)
    case ReceiveData(id, _, _) => t == OfStream(id)
    case Completed(id) => t == OfStream(id)
    case PushRequest(_) => false
    case PushHeader(id, _) => t == OfPush(id)
    case PushData(id, _, _) => t == OfPush(id)
  }

  function CallsOn(calls: seq<Call>, t: Target): (r: seq<Call>) {
    if calls == [] then []
    else (if On(calls[0], t) then [calls[0]] else []) + CallsOn(calls[1..], t)
  }

  lemma {:induction false} CallsOnAppend(a: seq<Call>, b: seq<Call>, t: Target)
    ensures CallsOn(a + b, t) == CallsOn(a, t) + CallsOn(b, t)
  {
    hide On;
    if a == [] {
      assert a + b == b;
    } else {
      var head := if On(a[0], t) then [a[0]] else [];
      assert (a + b)[0] == a[0] && (a + b)[1..] == a[1..] + b;
      CallsOnAppend(a[1..], b, t);
      assert head + (CallsOn(a[1..], t) + CallsOn(b, t)) == head + CallsOn(a[1..], t) + CallsOn(b, t);
    }
  }

  lemma {:induction false} CallsOnUniform(calls: seq<Call>, t: Target, all: bool)
    requires forall i :: 0 <= i < |calls| ==> On(calls[i], t) == all
    ensures CallsOn(calls, t) == if all then calls else []
  {
    hide On;
    if calls != [] {
      CallsOnUniform(calls[1..], t, all);
      assert calls == [calls[0]] + calls[1..];
    }
  }

  predicate Streamed(f: F) {
    f.Data? || f.Response? || f.Headers?
  }

  /** What a frame makes a client stream do, and what it makes the push receiver do. */
  function Effects(f: F): (r: seq<Call>) {
    Callbacks(f) + if Ends(f) then [Completed(f.id)] else []
  }

  function PushEffects(f: F): (r: seq<Call>) {
    match f
    case Data(flags, id, data) => [PushData(id, data, Finish(flags))]
    case Headers(_, id, h) => [PushHeader(id, h)]
    case _ => []
  }

  lemma EffectsOn(f: F, t: Target)
    requires Streamed(f)
    ensures CallsOn(Effects(f), t) == if t == OfStream(f.id) then Effects(f) else []
    ensures CallsOn(PushEffects(f), t) == if t == OfPush(f.id) then PushEffects(f) else []
  {
    CallsOnUniform(Effects(f), t, t == OfStream(f.id));
    CallsOnUniform(PushEffects(f), t, t == OfPush(f.id));
  }

  // ------------------------------------------------------- one frame, its calls

  lemma DeliverCalls(c: Conn, f: F)
    requires Streamed(f)
    ensures var (d, v) := Deliver(c, f.id, f);
      if v == Delivered && c.streams[f.id].ClientStream? then
        d.calls == c.calls + Effects(f)
      else d.calls == c.calls
  {
    hide Callbacks;
    var tail := if Ends(f) then [Completed(f.id)] else [];
    assert c.calls + Callbacks(f) + tail == c.calls + (Callbacks(f) + tail);
  }

  /** The calls that a verdict on a frame stands for. */
  function Growth(server: bool, f: F, v: Verdict): (r: seq<Call>)
  {
    if v == Delivered && !server then Effects(f)
    else if v == Routed then PushEffects(f)
    else if v == Refused && f.Push? then [PushRequest(f.id)]
    else if v == Accepted && f.Push? then [PushRequest(f.id), PushHeader(f.id, f.header)]
    else []
  }

  lemma StreamedGrow(c: Conn, f: F, choice: Choice)
    requires Tidy(c) && Streamed(f)
    ensures var (d, v) := Receive(c, f, choice);
      d.calls == c.calls + Growth(c.server, f, v) && v != Accepted && v != Refused
  {
    hide Effects, ProtocolError, Deliver, Tidy, HandleRequest, HandleError, HandlePush, HandlePing;
    DeliverCalls(c, f);
    DeliveredIsClients(c, f);
    ProtocolErrorCloses(c, 0);
    ProtocolErrorCloses(c, f.id);
    assert c.calls + [] == c.calls;
  }

  lemma PushGrow(c: Conn, f: F, choice: Choice)
    requires f.Push?
    ensures var (d, v) := Receive(c, f, choice);
      d.calls == c.calls + Growth(c.server, f, v) && v != Delivered && v != Routed
  {
    hide ProtocolError, HandleRequest, HandlePush, HandleError, HandlePing, HandleClientData, HandleServerData,
      HandleHeaders, HandleResponse, Growth;
    ProtocolErrorCloses(c, 0);
    NothingGrows(c.server, f);
    assert c.calls + [] == c.calls;
    PushCalls(c, f, choice.parses, choice.wants);
  }

  lemma NothingGrows(server: bool, f: F)
    ensures Growth(server, f, Ignored) == [] && Growth(server, f, TooManyErrors) == []
  {
  }

  lemma PushCalls(c: Conn, f: F, parses: bool, wants: bool)
    requires f.Push?
    ensures var (d, v) := HandlePush(c, f, parses, wants);
      d.calls == c.calls + Growth(c.server, f, v) && v != Delivered && v != Routed
  {
    hide ProtocolError, Effects, PushEffects;
    ProtocolErrorCloses(c, f.id);
    assert c.calls + [] == c.calls;
    assert c.calls + [PushRequest(f.id)] + [PushHeader(f.id, f.header)]
        == c.calls + [PushRequest(f.id), PushHeader(f.id, f.header)];
  }

  lemma OtherGrow(c: Conn, f: F, choice: Choice)
    requires !Streamed(f) && !f.Push?
    ensures var (d, v) := Receive(c, f, choice);
      d.calls == c.calls && v != Delivered && v != Routed && v != Refused
  {
    ProtocolErrorCloses(c, 0);
    if !f.Ping? {
      ProtocolErrorCloses(c, f.id);
    }
    hide ProtocolError, HandleClientData, HandleServerData, HandleHeaders, HandleResponse, HandlePush;
  }

  /** The log of calls grows by those and no others. */
  lemma CallsGrow(c: Conn, f: F, choice: Choice)
    requires Tidy(c)
    ensures var (d, v) := Receive(c, f, choice);
      && d.calls == c.calls + Growth(c.server, f, v)
      && (v == Delivered || v == Routed ==> Streamed(f))
  {
    hide Receive;
    if Streamed(f) {
      StreamedGrow(c, f, choice);
    } else if f.Push? {
      PushGrow(c, f, choice);
    } else {
      OtherGrow(c, f, choice);
      assert c.calls + [] == c.calls;
    }
  }

  lemma DeliveredIsClients(c: Conn, f: F)
    requires Tidy(c) && Streamed(f)
    ensures var (d, v) := Deliver(c, f.id, f);
      v != Routed && v != Refused && v != Accepted
      && (v == Delivered ==> f.id in c.streams && (c.streams[f.id].ClientStream? <==> !c.server))
  {
  }

  // ------------------------------------------------------------------ isolation

  /** Nothing that `d` has for the ID differs from what `c` had. */
  ghost predicate Untouched(c: Conn, d: Conn, id: uint32) {
    (id in d.streams <==> id in c.streams) && (id in c.streams ==> d.streams[id] == c.streams[id])
  }

  lemma FrameLeavesOthers(c: Conn, f: F, choice: Choice, id: uint32)
    requires !f.Ping? && f.id != id
    ensures var d := Receive(c, f, choice).0; d.closed || Untouched(c, d, id)
  {
    hide Receive, Untouched;
    if Streamed(f) {
      StreamedLeavesOthers(c, f, choice, id);
    } else if f.Push? {
      PushLeavesOthers(c, f, choice, id);
    } else if f.Request? {
      RequestLeavesOthers(c, f, choice, id);
    } else {
      ErrorLeavesOthers(c, f, choice, id);
    }
  }

  lemma StreamedLeavesOthers(c: Conn, f: F, choice: Choice, id: uint32)
    requires Streamed(f) && f.id != id
    ensures var d := Receive(c, f, choice).0; d.closed || Untouched(c, d, id)
  {
    DeliverLeavesOthers(c, f, id);
    hide Deliver, HandleRequest, HandlePush, HandleError, HandlePing;
  }

  lemma PushLeavesOthers(c: Conn, f: F, choice: Choice, id: uint32)
    requires f.Push?
    ensures var d := Receive(c, f, choice).0; d.closed || Untouched(c, d, id)
  {
    ProtocolErrorCloses(c, 0);
    ProtocolErrorCloses(c, f.id);
    hide ProtocolError, HandleRequest, HandleError, HandlePing, HandleClientData, HandleServerData, HandleHeaders,
      HandleResponse;
  }

  lemma RequestLeavesOthers(c: Conn, f: F, choice: Choice, id: uint32)
    requires f.Request? && f.id != id
    ensures var d := Receive(c, f, choice).0; d.closed || Untouched(c, d, id)
  {
    ProtocolErrorCloses(c, 0);
    ProtocolErrorCloses(c, f.id);
    hide ProtocolError, HandlePush, HandlePing, HandleError, HandleClientData, HandleServerData, HandleHeaders,
      HandleResponse;
  }

  lemma ErrorLeavesOthers(c: Conn, f: F, choice: Choice, id: uint32)
    requires f.Error? && f.id != id
    ensures var d := Receive(c, f, choice).0; d.closed || Untouched(c, d, id)
  {
    ProtocolErrorCloses(c, 0);
    ProtocolErrorCloses(c, f.id);
    hide ProtocolError, HandlePush, HandlePing, HandleRequest, HandleClientData, HandleServerData, HandleHeaders,
      HandleResponse;
  }

  lemma DeliverLeavesOthers(c: Conn, f: F, id: uint32)
    requires !f.Ping? && f.id != id
    ensures var d := Deliver(c, f.id, f).0; d.closed || Untouched(c, d, id)
  {
    hide ReceiveFrame;
    if f.id in c.streams && c.streams[f.id].state.Some? {
      ReceiveLeavesOthers(c, f, id);
    }
  }

  lemma ReceiveLeavesOthers(c: Conn, f: F, id: uint32)
    requires !f.Ping? && f.id != id && f.id in c.streams && c.streams[f.id].state.Some?
    ensures Untouched(c, ReceiveFrame(c, f.id, f), id)
  {
    hide Callbacks, Ends;
  }

  lemma PingLeavesStreams(c: Conn, f: F, choice: Choice)
    requires f.Ping?
    ensures var d := Receive(c, f, choice).0; d.closed || d.streams == c.streams
  {
  }

  /** The calls that a frame causes on a target, read off its verdict. */
  lemma CallsOnGrow(c: Conn, f: F, choice: Choice, t: Target)
    requires Tidy(c)
    ensures var (d, v) := Receive(c, f, choice);
      CallsOn(d.calls, t) == CallsOn(c.calls, t) + CallsOn(Growth(c.server, f, v), t)
  {
    hide Receive, Growth;
    CallsGrow(c, f, choice);
    CallsOnAppend(c.calls, Growth(c.server, f, Receive(c, f, choice).1), t);
  }

  lemma GrowthElsewhere(server: bool, f: F, v: Verdict, t: Target)
    requires v == Delivered || v == Routed ==> Streamed(f)
    requires f.Ping? || t.id != f.id
    ensures CallsOn(Growth(server, f, v), t) == []
  {
    hide Effects, PushEffects;
    if v == Delivered || v == Routed {
      EffectsOn(f, t);
    } else if f.Push? {
      var g := Growth(server, f, v);
      CallsOnUniform(g, t, false);
    }
  }

  /** A frame on one ID never changes what another ID has, nor calls its receiver,
      be it an ERROR frame. */
  lemma Isolation(c: Conn, f: F, choice: Choice, id: uint32)
    requires Tidy(c)
    requires f.Ping? || f.id != id
    ensures var d := Receive(c, f, choice).0;
      && (d.closed || Untouched(c, d, id))
      && CallsOn(d.calls, OfStream(id)) == CallsOn(c.calls, OfStream(id))
      && CallsOn(d.calls, OfPush(id)) == CallsOn(c.calls, OfPush(id))
  {
    if f.Ping? {
      PingLeavesStreams(c, f, choice);
    } else {
      FrameLeavesOthers(c, f, choice, id);
    }
    hide Receive;
    CallsGrow(c, f, choice);
    var v := Receive(c, f, choice).1;
    hide Growth, CallsOn;
    forall t | t == OfStream(id) || t == OfPush(id)
      ensures CallsOn(Receive(c, f, choice).0.calls, t) == CallsOn(c.calls, t)
    {
      CallsOnGrow(c, f, choice, t);
      GrowthElsewhere(c.server, f, v, t);
      assert CallsOn(c.calls, t) + [] == CallsOn(c.calls, t);
    }
  }

  /** An API call opens a stream with a fresh ID and makes no receiver call. */
  lemma CallLeavesStreams(c: Conn, input: Input, id: uint32)
    requires Tidy(c) && !Wraps(c, input) && !input.Inbound? && id in c.streams
    requires input != CallClose(id)
    ensures id in Step(c, input).streams && Step(c, input).streams[id] == c.streams[id]
  {
    if !input.CallClose? {
      hide Step, Inserted;
      CallsEffect(c, input);
    }
  }

  lemma CallMakesNoCalls(c: Conn, input: Input)
    requires !input.Inbound?
    ensures var d := Step(c, input);
      d.calls == c.calls && d.closed == c.closed && d.hasReceiver == c.hasReceiver && d.server == c.server
  {
  }

  // ------------------------------------------------------------- one whole stream

  /** The frames that are read before the connection closes. */
  function Frames(c: Conn, inputs: seq<Input>): (fs: seq<F>)
    decreases inputs
  {
    if inputs == [] || c.closed then []
    else
      (if inputs[0].Inbound? && c.benign <= MAX_BENIGN_ERRORS then [inputs[0].frame] else [])
      + Frames(Step(c, inputs[0]), inputs[1..])
  }

  /** Up to the first frame that ends the stream, and that one. */
  function Cut(fs: seq<F>): (r: seq<F>) {
    if fs == [] then [] else if Ends(fs[0]) then [fs[0]] else [fs[0]] + Cut(fs[1..])
  }

  function AllEffects(fs: seq<F>): (r: seq<Call>) {
    if fs == [] then [] else Effects(fs[0]) + AllEffects(fs[1..])
  }

  function AllPushEffects(fs: seq<F>): (r: seq<Call>) {
    if fs == [] then [] else PushEffects(fs[0]) + AllPushEffects(fs[1..])
  }

  /** An ERROR frame on the stream, or a Close of it. */
  predicate Cuts(input: Input, id: uint32) {
    (input.Inbound? && input.frame.Error? && input.frame.id == id) || input == CallClose(id)
  }

  /** An open client stream with its state. */
  ghost predicate Has(c: Conn, id: uint32, s: S.State) {
    id in c.streams && c.streams[id] == ClientStream(Some(s))
  }

  lemma ClosedStays(c: Conn, inputs: seq<Input>)
    requires c.closed
    ensures Run(c, inputs) == c
    decreases inputs
  {
    if inputs != [] {
      assert Step(c, inputs[0]) == c;
      ClosedStays(c, inputs[1..]);
    }
  }

  /** A frame on the stream itself: its calls, and the new state. */
  lemma FrameOnStream(c: Conn, f: F, choice: Choice, id: uint32, s: S.State)
    requires Tidy(c) && !c.closed && c.benign <= MAX_BENIGN_ERRORS && Has(c, id, s) && ValidID(id)
    requires OnStream(f, id)
    ensures var (d, v) := Receive(c, f, choice);
      && (v == Delivered <==> !S.ClosedThere(s)) && v != Routed && v != Accepted && v != Refused
      && Has(d, id, if Ends(f) && !S.ClosedThere(s) then S.CloseThere(s) else s)
  {
    hide Callbacks;
    assert Odd(id) && !c.server;
  }

  lemma CallsOfFrameOnStream(c: Conn, f: F, choice: Choice, id: uint32, s: S.State)
    requires Tidy(c) && !c.closed && c.benign <= MAX_BENIGN_ERRORS && Has(c, id, s) && ValidID(id)
    requires OnStream(f, id)
    ensures CallsOn(Receive(c, f, choice).0.calls, OfStream(id))
         == CallsOn(c.calls, OfStream(id)) + if S.ClosedThere(s) then [] else Effects(f)
  {
    FrameOnStream(c, f, choice, id, s);
    CallsOnGrow(c, f, choice, OfStream(id));
    EffectsOn(f, OfStream(id));
    assert !c.server by { assert c.streams[id].ClientStream?; }
    hide Receive, Effects, On, Tidy;
  }

  /** A REQUEST or PUSH frame with the ID of a client stream does nothing to it. */
  lemma OtherFrameWithID(c: Conn, f: F, choice: Choice, id: uint32)
    requires Tidy(c) && id in c.streams && c.streams[id].ClientStream?
    requires (f.Request? || f.Push?) && f.id == id
    ensures var (d, v) := Receive(c, f, choice);
      (d.closed || d.streams == c.streams) && v != Accepted && v != Refused && v != Delivered && v != Routed
  {
  }

  function Seen(s: S.State, fs: seq<F>): (r: seq<Call>) {
    if S.ClosedThere(s) then [] else AllEffects(Cut(fs))
  }

  lemma StepOnStream(c: Conn, input: Input, id: uint32, s: S.State)
    requires Tidy(c) && !c.closed && Has(c, id, s) && ValidID(id)
    requires !Wraps(c, input) && !Cuts(input, id)
    ensures var d := Step(c, input);
      var mine := input.Inbound? && c.benign <= MAX_BENIGN_ERRORS && OnStream(input.frame, id) && !S.ClosedThere(s);
      && (d.closed || Has(d, id, if mine && Ends(input.frame) then S.CloseThere(s) else s))
      && CallsOn(d.calls, OfStream(id)) == CallsOn(c.calls, OfStream(id)) + if mine then Effects(input.frame) else []
  {
    var t := OfStream(id);
    assert CallsOn(c.calls, t) + [] == CallsOn(c.calls, t);
    if !input.Inbound? {
      CallLeavesStreams(c, input, id);
      CallMakesNoCalls(c, input);
      hide Step, Effects, CallsOn, Tidy, On;
    } else {
      var f := input.frame;
      if c.benign > MAX_BENIGN_ERRORS {
        hide Effects, CallsOn, Tidy, On;
      } else if OnStream(f, id) {
        FrameOnStream(c, f, input.choice, id, s);
        CallsOfFrameOnStream(c, f, input.choice, id, s);
        hide Receive, Effects, CallsOn, Tidy, On;
      } else if f.Ping? || f.id != id {
        Isolation(c, f, input.choice, id);
        hide Receive, Effects, CallsOn, Tidy, On;
      } else {
        OtherFrameWithID(c, f, input.choice, id);
        CallsOnGrow(c, f, input.choice, t);
        hide Receive, Effects, CallsOn, Tidy, On;
        assert CallsOn([], t) == [];
      }
    }
  }

  /** The refinement: in any run without an ERROR frame on the stream or a Close
      of it, what its receiver
      is told is the inbound frames on its ID, up to the first DATA or RESPONSE that
      carries FINISH, frame by frame. */
  lemma {:induction false} StreamIsProjection(c: Conn, inputs: seq<Input>, id: uint32, s: S.State)
    requires Tidy(c) && NeverWraps(c, inputs)
    requires !c.closed && Has(c, id, s) && ValidID(id)
    requires forall i :: 0 <= i < |inputs| ==> !Cuts(inputs[i], id)
    ensures CallsOn(Run(c, inputs).calls, OfStream(id))
         == CallsOn(c.calls, OfStream(id)) + Seen(s, Project(Frames(c, inputs), id))
    decreases inputs
  {
    hide Step, Tidy, Effects, CallsOn, Has, Seen, Project, Wraps;
    var t := OfStream(id);
    SeenNothing(s);
    if inputs == [] {
      assert CallsOn(c.calls, t) + [] == CallsOn(c.calls, t);
      assert Project(Frames(c, inputs), id) == [] by { ProjectNothing(id); }
    } else {
      var d := Step(c, inputs[0]);
      var rest := Frames(d, inputs[1..]);
      var read := if inputs[0].Inbound? && c.benign <= MAX_BENIGN_ERRORS then [inputs[0].frame] else [];
      var mine := read != [] && OnStream(read[0], id) && !S.ClosedThere(s);
      StepOnStream(c, inputs[0], id, s);
      StepIsTidy(c, inputs[0]);
      ProjectAppend(read, rest, id);
      SeenCons(s, read, Project(rest, id), id);
      var s' := if mine && Ends(read[0]) then S.CloseThere(s) else s;
      var now := if mine then Effects(read[0]) else [];
      if d.closed {
        ClosedStays(d, inputs[1..]);
        SeenNothing(s');
        ProjectNothing(id);
      } else {
        StreamIsProjection(d, inputs[1..], id, s');
      }
      assert CallsOn(c.calls, t) + now + Seen(s', Project(rest, id))
          == CallsOn(c.calls, t) + (now + Seen(s', Project(rest, id)));
    }
  }

  /** The frames that end the other side of a stream: DATA and RESPONSE with the lowest bit
      of their flags, and no HEADERS, whatever its flags. */
  ghost predicate Ended(fs: seq<F>) {
    exists k :: 0 <= k < |fs| && (fs[k].Data? || fs[k].Response?) && fs[k].flags % 2 == 1
  }

  lemma EndedCons(read: seq<F>, rest: seq<F>, id: uint32)
    requires |read| <= 1
    ensures Ended(Project(read, id) + rest) <==> (read != [] && OnStream(read[0], id) && Ends(read[0])) || Ended(rest)
  {
    if read == [] || !OnStream(read[0], id) {
      assert Project(read, id) == [];
      assert Project(read, id) + rest == rest;
    } else {
      assert Project(read[1..], id) == [];
      var all := Project(read, id) + rest;
      assert all == [read[0]] + rest;
      if Ends(read[0]) {
        assert all[0] == read[0];
      }
      if k :| 0 <= k < |rest| && (rest[k].Data? || rest[k].Response?) && rest[k].flags % 2 == 1 {
        assert all[k + 1] == rest[k];
      }
      if k :| 0 <= k < |all| && (all[k].Data? || all[k].Response?) && all[k].flags % 2 == 1 {
        assert k > 0 ==> all[k] == rest[k - 1];
      }
    }
  }

  /** The state of the stream over the same runs: as long as the connection is open, the
      other side is closed if and only if it was or such a frame has come, and this side as
      it was. */
  lemma {:induction false} StreamEndsExactly(c: Conn, inputs: seq<Input>, id: uint32, s: S.State)
    requires Tidy(c) && NeverWraps(c, inputs)
    requires !c.closed && Has(c, id, s) && ValidID(id)
    requires forall i :: 0 <= i < |inputs| ==> !Cuts(inputs[i], id)
    ensures var d := Run(c, inputs);
      d.closed ||
      (id in d.streams && d.streams[id].ClientStream? && d.streams[id].state.Some?
       && (S.ClosedThere(d.streams[id].state.value) <==>
             S.ClosedThere(s) || Ended(Project(Frames(c, inputs), id)))
       && (S.ClosedHere(d.streams[id].state.value) <==> S.ClosedHere(s)))
    decreases inputs
  {
    hide Step, Tidy, Effects, CallsOn, Project, Wraps, S.ClosedThere, S.ClosedHere, S.CloseThere, Ends;
    if inputs == [] {
      ProjectNothing(id);
    } else {
      var d := Step(c, inputs[0]);
      var rest := Frames(d, inputs[1..]);
      var read := if inputs[0].Inbound? && c.benign <= MAX_BENIGN_ERRORS then [inputs[0].frame] else [];
      var mine := read != [] && OnStream(read[0], id) && !S.ClosedThere(s);
      var s' := if mine && Ends(read[0]) then S.CloseThere(s) else s;
      StepOnStream(c, inputs[0], id, s);
      StepIsTidy(c, inputs[0]);
      ProjectAppend(read, rest, id);
      EndedCons(read, Project(rest, id), id);
      CloseThereKeeps(s);
      if d.closed {
        ClosedStays(d, inputs[1..]);
      } else {
        StreamEndsExactly(d, inputs[1..], id, s');
      }
    }
  }

  lemma CloseThereKeeps(s: S.State)
    ensures S.ClosedThere(S.CloseThere(s)) && (S.ClosedHere(S.CloseThere(s)) <==> S.ClosedHere(s))
  {
  }

  lemma StepIsTidy(c: Conn, input: Input)
    requires Tidy(c) && !Wraps(c, input)
    ensures Tidy(Step(c, input))
  {
    if input.Inbound? {
      InboundIsTidy(c, input.frame, input.choice);
    } else {
      CallIsTidy(c, input);
    }
  }

  lemma ProjectNothing(id: uint32)
    ensures Project<Header>([], id) == []
  {
  }

  lemma SeenNothing(s: S.State)
    ensures Seen(s, []) == []
  {
  }

  lemma SeenCons(s: S.State, read: seq<F>, rest: seq<F>, id: uint32)
    requires |read| <= 1
    ensures var mine := read != [] && OnStream(read[0], id) && !S.ClosedThere(s);
      Seen(s, Project(read, id) + rest)
        == (if mine then Effects(read[0]) else [])
           + Seen(if mine && Ends(read[0]) then S.CloseThere(s) else s, rest)
  {
    hide Effects, Ends;
    if read == [] || !OnStream(read[0], id) {
      assert Project(read, id) == [];
      assert Project(read, id) + rest == rest;
    } else {
      assert Project(read[1..], id) == [];
      var all := Project(read, id) + rest;
      assert all[0] == read[0] && all[1..] == rest;
      if Ends(read[0]) {
        assert AllEffects([read[0]]) == Effects(read[0]) + AllEffects([]);
      } else {
        assert ([read[0]] + Cut(rest))[1..] == Cut(rest);
      }
    }
  }

  // -------------------------------------------------------------------- one push

  lemma FrameOnPush(c: Conn, f: F, choice: Choice, id: uint32)
    requires Tidy(c) && !c.closed && c.benign <= MAX_BENIGN_ERRORS && c.hasReceiver && id in c.pushRequests
    requires !f.Ping? && f.id == id
    ensures var (d, v) := Receive(c, f, choice);
      && (d.closed || (d.hasReceiver && id in d.pushRequests))
      && CallsOn(Growth(c.server, f, v), OfPush(id)) == if OnStream(f, id) then PushEffects(f) else []
  {
    hide ProtocolError, Effects, CallsOn, HandleError, HandlePing, ReceiveFrame;
    PushBasics(c, id);
    if f.Data? || f.Headers? {
      EffectsOn(f, OfPush(id));
    }
    NoCallsOn(OfPush(id));
    if f.Error? {
      ErrorKeepsPushes(c, f);
      ErrorVerdict(c, f);
    }
    ProtocolErrorCloses(c, f.id);
  }

  lemma PushBasics(c: Conn, id: uint32)
    requires Tidy(c) && id in c.pushRequests
    ensures !Odd(id) && !c.server && id !in c.streams && id <= c.lastPush
  {
  }

  lemma NoCallsOn(t: Target)
    ensures CallsOn([], t) == []
  {
  }

  lemma ErrorVerdict(c: Conn, f: F)
    requires f.Error?
    ensures HandleError(c, f).1 in {Fatal, StreamClosed, UnknownStatus}
  {
    hide ProtocolError, CloseStream;
  }

  lemma StepOnPush(c: Conn, input: Input, id: uint32)
    requires Tidy(c) && !c.closed && c.hasReceiver && id in c.pushRequests
    requires !Wraps(c, input)
    ensures var d := Step(c, input);
      var mine := input.Inbound? && c.benign <= MAX_BENIGN_ERRORS && OnStream(input.frame, id);
      && (d.closed || (d.hasReceiver && id in d.pushRequests))
      && CallsOn(d.calls, OfPush(id)) == CallsOn(c.calls, OfPush(id)) + if mine then PushEffects(input.frame) else []
  {
    var t := OfPush(id);
    assert CallsOn(c.calls, t) + [] == CallsOn(c.calls, t);
    if !input.Inbound? {
      CallMakesNoCalls(c, input);
      if !input.CallClose? {
        CallsEffect(c, input);
      }
      hide StartRequest, StartPush, StartPing, PushEffects, CallsOn, Tidy, On;
    } else {
      var f := input.frame;
      if c.benign > MAX_BENIGN_ERRORS {
        hide PushEffects, CallsOn, Tidy, On;
      } else if f.Ping? || f.id != id {
        Isolation(c, f, input.choice, id);
        PushesStay(c, f, input.choice);
        hide Receive, PushEffects, CallsOn, Tidy, On;
      } else {
        FrameOnPush(c, f, input.choice, id);
        CallsOnGrow(c, f, input.choice, t);
        hide Receive, PushEffects, CallsOn, Tidy, On;
      }
    }
  }

  lemma PushesStay(c: Conn, f: F, choice: Choice)
    ensures var d := Receive(c, f, choice).0; d.hasReceiver == c.hasReceiver && c.pushRequests <= d.pushRequests
  {
    hide Receive;
    if Streamed(f) {
      StreamedKeepsPushes(c, f, choice);
    } else {
      OthersKeepPushes(c, f, choice);
    }
  }

  lemma StreamedKeepsPushes(c: Conn, f: F, choice: Choice)
    requires Streamed(f)
    ensures var d := Receive(c, f, choice).0; d.hasReceiver == c.hasReceiver && c.pushRequests <= d.pushRequests
  {
    DeliverTouches(c, f.id, f);
    hide Deliver, HandleRequest, HandleError, HandlePush, HandlePing;
  }

  lemma OthersKeepPushes(c: Conn, f: F, choice: Choice)
    requires !Streamed(f)
    ensures var d := Receive(c, f, choice).0; d.hasReceiver == c.hasReceiver && c.pushRequests <= d.pushRequests
  {
    hide ProtocolError, HandlePing, HandleRequest, HandlePush, HandleError, HandleClientData, HandleServerData,
      HandleHeaders, HandleResponse;
    ProtocolErrorCloses(c, 0);
    if f.Ping? {
      PingKeepsPushes(c, f);
    } else if f.Request? {
      RequestKeepsPushes(c, f, choice.parses);
    } else if f.Push? {
      PushKeepsPushes(c, f, choice.parses, choice.wants);
    } else {
      ErrorKeepsPushes(c, f);
    }
  }

  lemma PingKeepsPushes(c: Conn, f: F)
    requires f.Ping?
    ensures var d := HandlePing(c, f).0; d.hasReceiver == c.hasReceiver && c.pushRequests <= d.pushRequests
  {
  }

  lemma RequestKeepsPushes(c: Conn, f: F, parses: bool)
    requires f.Request?
    ensures var d := HandleRequest(c, f, parses).0; d.hasReceiver == c.hasReceiver && c.pushRequests <= d.pushRequests
  {
    ProtocolErrorCloses(c, f.id);
    hide ProtocolError;
  }

  lemma PushKeepsPushes(c: Conn, f: F, parses: bool, wants: bool)
    requires f.Push?
    ensures var d := HandlePush(c, f, parses, wants).0;
      d.hasReceiver == c.hasReceiver && c.pushRequests <= d.pushRequests
  {
    ProtocolErrorCloses(c, f.id);
    hide ProtocolError;
  }

  lemma ErrorKeepsPushes(c: Conn, f: F)
    requires f.Error?
    ensures var d := HandleError(c, f).0; d.hasReceiver == c.hasReceiver && c.pushRequests <= d.pushRequests
  {
    ProtocolErrorCloses(c, f.id);
    hide ProtocolError;
  }

  /** The push receiver is told of every frame on an accepted push, with no cut, in
      any run. */
  lemma {:induction false} PushIsProjection(c: Conn, inputs: seq<Input>, id: uint32)
    requires Tidy(c) && NeverWraps(c, inputs)
    requires !c.closed && c.hasReceiver && id in c.pushRequests
    ensures CallsOn(Run(c, inputs).calls, OfPush(id))
         == CallsOn(c.calls, OfPush(id)) + AllPushEffects(Project(Frames(c, inputs), id))
    decreases inputs
  {
    hide Step, Tidy, PushEffects, CallsOn;
    var t := OfPush(id);
    if inputs == [] {
      assert CallsOn(c.calls, t) + [] == CallsOn(c.calls, t);
    } else {
      var d := Step(c, inputs[0]);
      var rest := Frames(d, inputs[1..]);
      var read := if inputs[0].Inbound? && c.benign <= MAX_BENIGN_ERRORS then [inputs[0].frame] else [];
      StepOnPush(c, inputs[0], id);
      StepIsTidy(c, inputs[0]);
      ProjectAppend(read, rest, id);
      PushCons(read, Project(rest, id), id);
      var now := if read != [] && OnStream(read[0], id) then PushEffects(read[0]) else [];
      if d.closed {
        ClosedStays(d, inputs[1..]);
      } else {
        PushIsProjection(d, inputs[1..], id);
      }
      assert CallsOn(c.calls, t) + now + AllPushEffects(Project(rest, id))
          == CallsOn(c.calls, t) + (now + AllPushEffects(Project(rest, id)));
    }
  }

  lemma PushCons(read: seq<F>, rest: seq<F>, id: uint32)
    requires |read| <= 1
    ensures AllPushEffects(Project(read, id) + rest)
         == (if read != [] && OnStream(read[0], id) then PushEffects(read[0]) else []) + AllPushEffects(rest)
  {
    hide PushEffects;
    if read == [] || !OnStream(read[0], id) {
      assert Project(read, id) + rest == rest;
    } else {
      assert Project(read[1..], id) == [];
      var all := Project(read, id) + rest;
      assert all[0] == read[0] && all[1..] == rest;
    }
  }
}
