// Completion at most once: whatever arrives, ERROR frames included, the `finished`
// channel of a client stream is closed at most once, and nothing is said of the
// stream afterwards.

module Completion {
  import opened Protocol
  import S = StreamStates
  import opened Connection
  import opened Freshness
  import opened Demux

  /** No further frame can reach the receiver: the stream has been opened, and is gone,
      closed, or ended by the other side. */
  ghost predicate Done(c: Conn, id: uint32) {
    c.closed || (id <= c.lastRequest && (id in c.streams ==> Dead(c.streams[id])))
  }

  predicate Dead(s: Stream) {
    s.state.None? || S.ClosedThere(s.state.value)
  }

  /** `finished` is closed by the last call on the stream and by no other. */
  ghost predicate EndsOnce(cs: seq<Call>) {
    forall i :: 0 <= i < |cs| - 1 ==> !cs[i].Completed?
  }

  predicate HasCompleted(cs: seq<Call>) {
    cs != [] && cs[|cs| - 1].Completed?
  }

  ghost predicate Inv(c: Conn, id: uint32) {
    var cs := CallsOn(c.calls, OfStream(id));
    EndsOnce(cs) && (HasCompleted(cs) ==> Done(c, id))
  }

  lemma CloseThereCloses(s: S.State)
    ensures S.ClosedThere(S.CloseThere(s))
  {
  }

  /** Which frames on its own ID a stream is told of, and what they leave. */
  lemma FrameOnDead(c: Conn, f: F, choice: Choice, id: uint32)
    requires Tidy(c) && !c.server && Odd(id) && Streamed(f) && f.id == id
    requires !c.closed && Done(c, id)
    ensures var (d, v) := Receive(c, f, choice);
      Done(d, id) && v != Delivered && v != Routed && v != Accepted && v != Refused
  {
    ProtocolErrorCloses(c, 0);
    ProtocolErrorCloses(c, f.id);
    hide ProtocolError, ReceiveFrame, HandleRequest, HandlePush, HandleError, HandlePing;
  }

  lemma OtherFrameOnDead(c: Conn, f: F, choice: Choice, id: uint32)
    requires Tidy(c) && !c.server && Odd(id) && !Streamed(f) && !f.Ping? && f.id == id
    requires Done(c, id)
    ensures var (d, v) := Receive(c, f, choice);
      Done(d, id) && v != Delivered && v != Routed && v != Accepted && v != Refused
  {
    ProtocolErrorCloses(c, 0);
    ProtocolErrorCloses(c, f.id);
    hide ProtocolError, HandleClientData, HandleServerData, HandleHeaders, HandleResponse, HandlePing;
  }

  /** Once a stream is done it stays done, and is told nothing more. */
  lemma StepOnDone(c: Conn, input: Input, id: uint32)
    requires Tidy(c) && !c.server && Odd(id) && !Wraps(c, input) && Done(c, id)
    ensures var d := Step(c, input);
      Done(d, id) && CallsOn(d.calls, OfStream(id)) == CallsOn(c.calls, OfStream(id))
  {
    var t := OfStream(id);
    var d := Step(c, input);
    if c.closed {
      ClosedStays(c, [input]);
      assert Run(c, [input]) == Run(Step(c, input), []);
      assert d == c;
      hide *;
    } else if !input.Inbound? {
      CallMakesNoCalls(c, input);
      if input.CallClose? {
        CloseKeepsDone(c, input.id, id);
      } else {
        CallsEffect(c, input);
      }
      hide StartRequest, StartPush, StartPing, CloseStream, CallsOn, Tidy, On, Inserted;
    } else {
      InboundIsTidy(c, input.frame, input.choice);
      if c.benign > MAX_BENIGN_ERRORS {
        ProtocolErrorCloses(c, 0);
        hide ProtocolError, CallsOn;
      } else if input.frame.Ping? || input.frame.id != id {
        Isolation(c, input.frame, input.choice, id);
        hide Receive, CallsOn, Tidy, On;
      } else {
        DoneFrame(c, input.frame, input.choice, id);
        hide Receive, CallsOn, Tidy, On;
      }
    }
  }

  lemma DoneFrame(c: Conn, f: F, choice: Choice, id: uint32)
    requires Tidy(c) && !c.server && Odd(id) && !c.closed && Done(c, id) && !f.Ping? && f.id == id
    ensures var d := Receive(c, f, choice).0;
      Done(d, id) && CallsOn(d.calls, OfStream(id)) == CallsOn(c.calls, OfStream(id))
  {
    if Streamed(f) {
      FrameOnDead(c, f, choice, id);
    } else {
      OtherFrameOnDead(c, f, choice, id);
    }
    CallsOnGrow(c, f, choice, OfStream(id));
    assert CallsOn(c.calls, OfStream(id)) + [] == CallsOn(c.calls, OfStream(id));
    hide Receive, Tidy, Done, On, Effects, PushEffects;
  }

  /** Nothing is said of a stream after its end, whatever follows. */
  lemma {:induction false} DoneIsFinal(c: Conn, inputs: seq<Input>, id: uint32)
    requires Tidy(c) && !c.server && Odd(id) && NeverWraps(c, inputs) && Done(c, id)
    ensures Done(Run(c, inputs), id)
    ensures CallsOn(Run(c, inputs).calls, OfStream(id)) == CallsOn(c.calls, OfStream(id))
    decreases inputs
  {
    hide Step, Tidy, CallsOn, Done;
    if inputs != [] {
      StepOnDone(c, inputs[0], id);
      StepIsTidy(c, inputs[0]);
      RoleStays(c, inputs[0]);
      DoneIsFinal(Step(c, inputs[0]), inputs[1..], id);
    }
  }

  /** On a stream that is not done, a step adds the calls of one of its frames or none,
      and a frame that completes it makes it done. */
  lemma LiveFrame(c: Conn, f: F, choice: Choice, id: uint32)
    requires Tidy(c) && !c.server && Odd(id) && !f.Ping? && f.id == id
    ensures var (d, v) := Receive(c, f, choice);
      CallsOn(d.calls, OfStream(id)) == CallsOn(c.calls, OfStream(id)) + if v == Delivered then Effects(f) else []
  {
    CallsOnGrow(c, f, choice, OfStream(id));
    var v := Receive(c, f, choice).1;
    CallsGrow(c, f, choice);
    if v == Delivered || v == Routed {
      EffectsOn(f, OfStream(id));
    }
    hide Receive, Tidy, Effects, PushEffects;
  }

  lemma DeliveredEnds(c: Conn, f: F, choice: Choice, id: uint32)
    requires Tidy(c) && !c.server && Odd(id) && Streamed(f) && f.id == id
    requires Receive(c, f, choice).1 == Delivered && Ends(f)
    ensures Done(Receive(c, f, choice).0, id)
  {
    hide Callbacks, HandleRequest, HandlePush, HandleError, HandlePing, ProtocolError, S.CloseThere;
    assert c.streams[id].ClientStream?;
    CloseThereCloses(c.streams[id].state.value);
  }

  lemma StepKeepsInv(c: Conn, input: Input, id: uint32)
    requires Tidy(c) && !c.server && Odd(id) && !Wraps(c, input) && Inv(c, id)
    ensures Inv(Step(c, input), id)
  {
    var t := OfStream(id);
    var d := Step(c, input);
    if Done(c, id) {
      StepOnDone(c, input, id);
      hide Step, CallsOn, Tidy, Done;
    } else if !input.Inbound? {
      CallMakesNoCalls(c, input);
      hide Step, CallsOn, Tidy, Done;
    } else {
      LiveStep(c, input.frame, input.choice, id);
      hide Receive, CallsOn, Tidy, Done;
    }
  }

  lemma LiveStep(c: Conn, f: F, choice: Choice, id: uint32)
    requires Tidy(c) && !c.server && Odd(id) && !Done(c, id) && Inv(c, id)
    ensures Inv(Receive(c, f, choice).0, id)
  {
    hide Receive, CallsOn, Tidy, Done, Effects;
    var (d, v) := Receive(c, f, choice);
    if f.Ping? || f.id != id {
      Isolation(c, f, choice, id);
    } else {
      LiveFrame(c, f, choice, id);
      CallsGrow(c, f, choice);
      EffectsShape(f);
      if v == Delivered && Ends(f) {
        DeliveredEnds(c, f, choice, id);
      }
      assert CallsOn(c.calls, OfStream(id)) + [] == CallsOn(c.calls, OfStream(id));
    }
  }

  /** Only the last call of a frame that ends the stream closes `finished`. */
  lemma EffectsShape(f: F)
    ensures EndsOnce(Effects(f)) && (HasCompleted(Effects(f)) <==> Ends(f))
  {
  }

  /** Over every run: `finished` is closed at most once, as the last thing that
      happens on the stream, and the stream is then done for good. */
  lemma {:induction false} CompletedOnce(c: Conn, inputs: seq<Input>, id: uint32)
    requires Tidy(c) && !c.server && Odd(id) && NeverWraps(c, inputs) && Inv(c, id)
    ensures Inv(Run(c, inputs), id)
    decreases inputs
  {
    hide Step, Tidy, Inv;
    if inputs != [] {
      StepKeepsInv(c, inputs[0], id);
      StepIsTidy(c, inputs[0]);
      RoleStays(c, inputs[0]);
      CompletedOnce(Step(c, inputs[0]), inputs[1..], id);
    }
  }

  lemma FreshCompletes(hasReceiver: bool, seed: uint32, inputs: seq<Input>, id: uint32)
    requires Odd(id) && NeverWraps(Fresh(false, hasReceiver, seed), inputs)
    ensures Inv(Run(Fresh(false, hasReceiver, seed), inputs), id)
  {
    var c := Fresh(false, hasReceiver, seed);
    FreshIsTidy(false, hasReceiver, seed);
    CompletedOnce(c, inputs, id);
  }

  lemma CloseKeepsDone(c: Conn, closed: uint32, id: uint32)
    requires Done(c, id)
    ensures Done(CloseStream(c, closed), id)
  {
  }

  /** Closing a stream, by an ERROR frame or by its own Close, makes it done. */
  lemma ClosedIsDone(c: Conn, id: uint32)
    requires Tidy(c) && Odd(id) && id in c.streams
    ensures Done(CloseStream(c, id), id)
  {
  }
}
