// Delivery over bytes: the frame codec, compression, the main loop, the client's
// demultiplexing and the grammar of a server stream, put together.

module ByteDelivery {
  import opened Protocol
  import S = StreamStates
  import SS = ServerStreams
  import P = Pipeline
  import opened Connection
  import opened Freshness
  import opened Demux
  import D = Delivery
  import O = ConnectionObject
  import Wire
  import WireIO

  /** The frames of an outbound sequence. */
  function Sending(os: seq<P.Outgoing>): (fs: seq<F>)
  {
    if os == [] then [] else [os[0].frame] + Sending(os[1..])
  }

  /** Delivery keeps every frame on its stream. */
  lemma {:induction false} ProjectDelivered(os: seq<P.Outgoing>, id: uint32)
    ensures Project(P.DeliveredAll(os), id) == D.Arrives(Project(Sending(os), id))
  {
    hide P.Delivered;
    if os != [] {
      var f := os[0].frame;
      ProjectDelivered(os[1..], id);
      D.ProjectHead(P.DeliveredAll(os), id);
      D.ProjectHead(Sending(os), id);
      assert P.DeliveredAll(os)[1..] == P.DeliveredAll(os[1..]);
      assert Sending(os)[1..] == Sending(os[1..]);
      DeliveredOnStream(f, id);
      if OnStream(f, id) {
        var rest := Project(Sending(os[1..]), id);
        assert ([f] + rest)[1..] == rest;
      }
    }
  }

  lemma DeliveredOnStream(f: F, id: uint32)
    ensures OnStream(P.Delivered(f), id) == OnStream(f, id)
  {
    hide P.HeaderBlock.Strip;
  }

  /** No beginning of a response is cut short. */
  lemma {:induction false} BeginningIsNotCut(fs: seq<F>, k: nat)
    requires k <= |fs| && forall i :: 0 <= i < |fs| ==> (Ends(fs[i]) <==> i == |fs| - 1)
    ensures Cut(fs[..k]) == fs[..k]
  {
    hide Ends;
    if k > 0 {
      assert fs[..k] == [fs[0]] + fs[1..][..k - 1] && fs[..k][1..] == fs[1..][..k - 1];
      if Ends(fs[0]) {
        assert fs[..k] == [fs[0]];
      } else {
        forall i | 0 <= i < |fs[1..]| ensures Ends(fs[1..][i]) <==> i == |fs[1..]| - 1 {
          assert fs[1..][i] == fs[i + 1];
        }
        BeginningIsNotCut(fs[1..], k - 1);
      }
    }
  }

  /** The frames that reach a connection, whether it is still open for them or not. */
  function Arriving(inputs: seq<Input>): (fs: seq<F>) {
    if inputs == [] then []
    else (if inputs[0].Inbound? then [inputs[0].frame] else []) + Arriving(inputs[1..])
  }

  /** Those it handles are the first of them. */
  lemma {:induction false} HandledAreFirst(c: Conn, inputs: seq<Input>)
    ensures Frames(c, inputs) <= Arriving(inputs)
    decreases inputs
  {
    hide Step;
    if inputs != [] && !c.closed {
      var d := Step(c, inputs[0]);
      HandledAreFirst(d, inputs[1..]);
      if inputs[0].Inbound? && c.benign > MAX_BENIGN_ERRORS {
        TooManyCloses(c, inputs[0]);
        assert Frames(d, inputs[1..]) == [];
      }
    }
  }

  lemma TooManyCloses(c: Conn, input: Input)
    requires input.Inbound? && !c.closed && c.benign > MAX_BENIGN_ERRORS
    ensures Step(c, input).closed
  {
    ProtocolErrorCloses(c, 0);
    hide ProtocolError;
  }

  /** Of a whole response, the receiver has been told all exactly when nothing is left. */
  lemma AllExactly(id: uint32, told: seq<F>, left: seq<F>)
    requires D.Whole(id, told + left)
    ensures AllEffects(told) == AllEffects(told + left) <==> left == []
  {
    D.EffectsAppend(told, left);
    if left == [] {
      assert told + left == told;
    } else {
      var whole := told + left;
      assert left[|left| - 1] == whole[|whole| - 1] && Ends(whole[|whole| - 1]);
      D.EffectsAppend(left[..|left| - 1], left[|left| - 1..]);
      assert left == left[..|left| - 1] + left[|left| - 1..];
      SomeEffect(left[|left| - 1]);
      assert AllEffects(left[|left| - 1..]) == Effects(left[|left| - 1]) + AllEffects([]);
    }
  }

  lemma SomeEffect(f: F)
    requires Ends(f)
    ensures Effects(f) != []
  {
  }

  /** What is written of the stream is a beginning of its handler's response. */
  predicate Begun(os: seq<P.Outgoing>, id: uint32, job: D.Job) {
    Project(Sending(os), id) <= SS.Emitted(id, job.flags, job.ops)
  }

  /** The first k frames have all of it. */
  predicate AllWithin(os: seq<P.Outgoing>, k: nat, id: uint32, job: D.Job) {
    k <= |os| && Project(Sending(os[..k]), id) == SS.Emitted(id, job.flags, job.ops)
  }

  /** What a server writes has an ERROR in it for no stream. */
  lemma {:induction false} DeliveredHasNoError(z: P.Zlib, history: seq<Bytes>, os: seq<P.Outgoing>)
    requires P.AllTransportable(z, history, os)
    ensures forall i :: 0 <= i < |P.DeliveredAll(os)| ==> !P.DeliveredAll(os)[i].Error?
    decreases os
  {
    hide P.Delivered, P.NextHistory;
    if os != [] {
      DeliveredHasNoError(z, P.NextHistory(history, os[0]), os[1..]);
      NoErrorDelivered(os[0].frame);
      forall i | 0 < i < |os| ensures !P.DeliveredAll(os)[i].Error? {
        assert P.DeliveredAll(os)[i] == P.DeliveredAll(os[1..])[i - 1];
      }
    }
  }

  lemma NoErrorDelivered(f: F)
    requires !f.Error?
    ensures !P.Delivered(f).Error?
  {
  }

  lemma SendingCons(os: seq<P.Outgoing>)
    requires os != []
    ensures Sending(os) == [os[0].frame] + Sending(os[1..])
  {
  }

  lemma SplitOff<T>(s: seq<T>, k: nat)
    requires 0 < k <= |s|
    ensures s[..k] != [] && s[..k][0] == s[0] && s[..k][1..] == s[1..][..k - 1] && s[k..] == s[1..][k - 1..]
  {
  }

  lemma {:induction false} SendingInTwo(os: seq<P.Outgoing>, k: nat)
    requires k <= |os|
    ensures Sending(os) == Sending(os[..k]) + Sending(os[k..])
  {
    if k == 0 {
      assert os[..0] == [] && os[0..] == os;
    } else {
      SendingInTwo(os[1..], k - 1);
      SplitOff(os, k);
      SendingCons(os);
      SendingCons(os[..k]);
      hide Sending;
    }
  }

  /** Of a response of which a beginning is written, the first k frames have a beginning. */
  lemma BegunWithin(os: seq<P.Outgoing>, k: nat, id: uint32, job: D.Job)
    requires Begun(os, id, job) && k <= |os|
    ensures Project(Sending(os[..k]), id) <= SS.Emitted(id, job.flags, job.ops)
  {
    hide SS.Emitted, Project, Sending;
    SendingInTwo(os, k);
    ProjectAppend(Sending(os[..k]), Sending(os[k..]), id);
  }

  lemma {:induction false} ArrivesInTwo(a: seq<F>, b: seq<F>)
    ensures D.Arrives(a + b) == D.Arrives(a) + D.Arrives(b)
  {
    hide P.Delivered;
    if a == [] {
      assert a + b == b;
    } else {
      assert (a + b)[0] == a[0] && (a + b)[1..] == a[1..] + b;
      ArrivesInTwo(a[1..], b);
    }
  }

  /** What the first of the delivered frames tell. */
  lemma FirstTell(os: seq<P.Outgoing>, k: nat, id: uint32, job: D.Job)
    requires Begun(os, id, job) && k <= |os|
    ensures var handled := P.DeliveredAll(os)[..k];
      var told, whole := AllEffects(Project(handled, id)), AllEffects(D.Reply(id, job));
      && Seen(S.HALF_CLOSED_HERE, Project(handled, id)) == told && told <= whole
      && (told == whole <==> AllWithin(os, k, id, job))
  {
    hide SS.Emitted, Effects, Project, P.Delivered, AllEffects, Seen, Sending, D.Arrives;
    var sent, whole := Project(Sending(os[..k]), id), SS.Emitted(id, job.flags, job.ops);
    BegunWithin(os, k, id, job);
    DeliveredFirst(os, k);
    ProjectDelivered(os[..k], id);
    var rest := whole[|sent|..];
    assert whole == sent + rest;
    ArrivesInTwo(sent, rest);
    D.ResponseIsWhole(id, job);
    ToldPart(id, D.Reply(id, job), D.Arrives(sent), D.Arrives(rest));
    assert D.Arrives(rest) == [] <==> rest == [];
  }

  /** The part of a response that is in, and the part that is not. */
  lemma ToldPart(id: uint32, whole: seq<F>, told: seq<F>, left: seq<F>)
    requires D.Whole(id, whole) && whole == told + left
    ensures Seen(S.HALF_CLOSED_HERE, told) == AllEffects(told)
    ensures AllEffects(told) <= AllEffects(whole)
    ensures AllEffects(told) == AllEffects(whole) <==> left == []
  {
    hide Effects, Ends, AllEffects;
    assert whole[..|told|] == told;
    BeginningIsNotCut(whole, |told|);
    D.EffectsAppend(told, left);
    AllExactly(id, told, left);
  }

  lemma {:induction false} DeliveredFirst(os: seq<P.Outgoing>, k: nat)
    requires k <= |os|
    ensures P.DeliveredAll(os)[..k] == P.DeliveredAll(os[..k])
  {
    hide P.Delivered;
    if k > 0 {
      DeliveredFirst(os[1..], k - 1);
      assert os[..k][1..] == os[1..][..k - 1];
      assert P.DeliveredAll(os)[..k] == [P.DeliveredAll(os)[0]] + P.DeliveredAll(os[1..])[..k - 1];
    }
  }

  lemma SamePrefix<T>(before: seq<T>, a: seq<T>, b: seq<T>)
    requires a <= b
    ensures before + a <= before + b
    ensures before + a == before + b <==> a == b
  {
    assert before + a == before + b ==> |a| == |b|;
  }

  /** Frames that reach a client, in which those of one stream, in order, are a beginning of
      a response: the receiver is told a beginning of it, and all of it exactly when those
      handled have all of it. */
  lemma OverFrames(os: seq<P.Outgoing>, c: Conn, inputs: seq<Input>, id: uint32, job: D.Job)
    requires Begun(os, id, job)
    requires Tidy(c) && NeverWraps(c, inputs) && !c.closed && ValidID(id) && Has(c, id, S.HALF_CLOSED_HERE)
    requires forall i :: 0 <= i < |inputs| ==> !Cuts(inputs[i], id)
    requires Arriving(inputs) == P.DeliveredAll(os)
    ensures Tells(os, c, Run(c, inputs), Frames(c, inputs), id, job)
  {
    hide SS.Emitted, Run, P.DeliveredAll, Tidy, CallsOn, Project, Has, Frames, NeverWraps, Arriving, Cuts, AllEffects,
      D.Reply, Seen, AllWithin, Begun;
    HandledAreFirst(c, inputs);
    StreamIsProjection(c, inputs, id, S.HALF_CLOSED_HERE);
    TellsFirst(os, c, Run(c, inputs), Frames(c, inputs), id, job);
  }

  /** What a receiver has been told, as far as the handled frames go. */
  ghost predicate Tells(os: seq<P.Outgoing>, c: Conn, d: Conn, handled: seq<F>, id: uint32, job: D.Job) {
    var told := CallsOn(d.calls, OfStream(id));
    var before := CallsOn(c.calls, OfStream(id));
    && told == before + Seen(S.HALF_CLOSED_HERE, Project(handled, id))
    && told <= before + AllEffects(D.Reply(id, job))
    && (told == before + AllEffects(D.Reply(id, job)) <==> AllWithin(os, |handled|, id, job))
  }

  lemma TellsFirst(os: seq<P.Outgoing>, c: Conn, d: Conn, handled: seq<F>, id: uint32, job: D.Job)
    requires Begun(os, id, job)
    requires handled <= P.DeliveredAll(os)
    requires CallsOn(d.calls, OfStream(id))
          == CallsOn(c.calls, OfStream(id)) + Seen(S.HALF_CLOSED_HERE, Project(handled, id))
    ensures Tells(os, c, d, handled, id, job)
  {
    hide SS.Emitted, P.DeliveredAll, CallsOn, Project, AllEffects, D.Reply, Seen, AllWithin, Begun;
    assert handled == P.DeliveredAll(os)[..|handled|];
    FirstTell(os, |handled|, id, job);
    SamePrefix(CallsOn(c.calls, OfStream(id)), AllEffects(Project(handled, id)), AllEffects(D.Reply(id, job)));
  }

  lemma BytesReach(z: P.Zlib, os: seq<P.Outgoing>)
    requires P.Lawful(z) && P.AllTransportable(z, [], os)
    requires forall i :: 0 <= i < |os| ==> P.Ordered(os[i])
    ensures P.Inbound(z, P.Inflater([], []), P.Outbound(z, [], os)).frames == P.DeliveredAll(os)
  {
    P.PipelineRoundTrip(z, [], os);
    hide P.Inbound, P.Outbound, P.DeliveredAll, P.AllTransportable;
  }

  /** A server writes any sequence of frames in which those of one stream, in order, are
      a beginning of what its handler emits, and these bytes reach a client, whatever else
      it does meanwhile. The receiver of the stream is told a beginning of the response,
      and all of it exactly when those that the client handled before its connection closed
      have all of it. */
  lemma OverBytes(z: P.Zlib, os: seq<P.Outgoing>, c: Conn, inputs: seq<Input>, id: uint32, job: D.Job)
    requires P.Lawful(z) && P.AllTransportable(z, [], os)
    requires Begun(os, id, job)
    requires Tidy(c) && NeverWraps(c, inputs) && !c.closed && ValidID(id) && Has(c, id, S.HALF_CLOSED_HERE)
    requires forall i :: 0 <= i < |inputs| ==> !Cuts(inputs[i], id)
    requires forall i :: 0 <= i < |os| ==> P.Ordered(os[i])
    requires Arriving(inputs) == P.Inbound(z, P.Inflater([], []), P.Outbound(z, [], os)).frames
    ensures Tells(os, c, Run(c, inputs), Frames(c, inputs), id, job)
  {
    hide SS.Emitted, Run, P.Inbound, P.Outbound, P.AllTransportable, P.DeliveredAll, Tidy, Begun, Has, Frames,
      NeverWraps, Arriving, Cuts, Tells;
    BytesReach(z, os);
    OverFrames(os, c, inputs, id, job);
  }

  // ------------------------------------------------------------------- the main loop

  lemma {:induction false} InputsArrive(fs: seq<F>, choices: nat -> Choice, k: nat)
    ensures var inputs := O.Inputs(fs, choices, k);
      && Arriving(inputs) == fs && |inputs| == |fs|
      && forall i :: 0 <= i < |inputs| ==> inputs[i].Inbound? && inputs[i].frame == fs[i]
    decreases fs
  {
    if fs != [] {
      var inputs, rest := O.Inputs(fs, choices, k), O.Inputs(fs[1..], choices, k + 1);
      InputsArrive(fs[1..], choices, k + 1);
      assert inputs == [Inbound(fs[0], choices(k))] + rest;
      hide O.Inputs;
      assert inputs[1..] == rest;
      assert fs == [fs[0]] + fs[1..];
      forall i | 0 <= i < |inputs| ensures inputs[i].Inbound? && inputs[i].frame == fs[i] {
        if i > 0 {
          assert inputs[i] == rest[i - 1];
        }
      }
    }
  }

  lemma {:induction false} FramesNeverWrap(c: Conn, inputs: seq<Input>)
    requires forall i :: 0 <= i < |inputs| ==> inputs[i].Inbound?
    ensures NeverWraps(c, inputs)
    decreases inputs
  {
    hide Step;
    if inputs != [] {
      FramesNeverWrap(Step(c, inputs[0]), inputs[1..]);
    }
  }

  /** The same of readFrames itself: when a client's main loop has read those bytes to
      their end, or closed the connection before, the receiver has been told a beginning
      of the response, and all of it exactly when the whole response was written and the
      loop was still open at its last frame. */
  lemma MainLoopDelivers(z: P.Zlib, os: seq<P.Outgoing>, c: Conn, choices: nat -> Choice, id: uint32, job: D.Job)
    requires P.Lawful(z) && P.AllTransportable(z, [], os)
    requires Begun(os, id, job)
    requires Tidy(c) && !c.closed && ValidID(id) && Has(c, id, S.HALF_CLOSED_HERE)
    requires forall i :: 0 <= i < |os| ==> P.Ordered(os[i])
    ensures Tells(os, c, O.ReadAll(c, z, P.Inflater([], []), P.Outbound(z, [], os), choices, 0),
                  Frames(c, O.Inputs(P.DeliveredAll(os), choices, 0)), id, job)
  {
    hide SS.Emitted, Run, P.Inbound, P.Outbound, P.AllTransportable, P.DeliveredAll, Tidy, Project, Has, Frames,
      NeverWraps, O.ReadAll, O.Inputs, Seen, AllWithin, Begun, AllEffects, CallsOn;
    var inputs := O.Inputs(P.DeliveredAll(os), choices, 0);
    BytesReach(z, os);
    DeliveredHasNoError(z, [], os);
    InputsArrive(P.DeliveredAll(os), choices, 0);
    FramesNeverWrap(c, inputs);
    O.ReadIsRun(c, z, P.Inflater([], []), P.Outbound(z, [], os), choices, 0);
    OverFrames(os, c, inputs, id, job);
  }

  /** The client object's own main loop, over a connection that delivers fragments. */
  method ReadToEnd(conn: O.Conn, reader: WireIO.Reader, d: P.Decompressor, choices: nat -> Choice,
                   ghost os: seq<P.Outgoing>, ghost id: uint32, ghost job: D.Job)
    requires P.Lawful(d.zlib) && P.AllTransportable(d.zlib, [], os)
    requires forall i :: 0 <= i < |os| ==> P.Ordered(os[i])
    requires Begun(os, id, job)
    requires Tidy(conn.Abs()) && !conn.closed && ValidID(id) && Has(conn.Abs(), id, S.HALF_CLOSED_HERE)
    requires d.state == P.Inflater([], []) && reader.Contents() == P.Outbound(d.zlib, [], os)
    modifies conn, reader, d
    ensures Tells(os, old(conn.Abs()), conn.Abs(),
                  Frames(old(conn.Abs()), O.Inputs(P.DeliveredAll(os), choices, 0)), id, job)
  {
    hide P.Outbound, P.AllTransportable, Tidy, Begun, Has, Frames, O.ReadAll, O.Inputs, Tells;
    MainLoopDelivers(d.zlib, os, conn.Abs(), choices, id, job);
    conn.ReadFrames(reader, d, choices);
  }

  // --------------------------------------------------------- an ERROR among the bytes

  /** An ERROR frame that a server writes on an open stream does not close it, nor the
      connection: it is read as DATA, and its status becomes a byte of the body. */
  lemma ErrorBecomesBody(z: P.Zlib, st: P.Inflater, c: Conn, id: uint32, status: uint32, rest: Bytes, choice: Choice)
    requires Tidy(c) && !c.closed && c.benign <= MAX_BENIGN_ERRORS && ValidID(id) && Has(c, id, S.HALF_CLOSED_HERE)
    ensures var read := Wire.Decode(Wire.Encode(Error(id, status)) + rest);
      && read.Ok?
      && P.Decompressed(z, st, read.value.frame) == P.Arrived(Data(0, id, [status % 256]), st)
      && var (d, v) := Receive(c, Data(0, id, [status % 256]), choice);
         && v == Delivered && !d.closed && Has(d, id, S.HALF_CLOSED_HERE)
         && d.calls == c.calls + [ReceiveData(id, [status % 256], false)]
  {
    Wire.MiswrittenFrames(id, status, 0, 0, rest);
    hide Wire.Decode, Wire.Encode;
    var f := Data(0, id, [status % 256]);
    FrameOnStream(c, f, choice, id, S.HALF_CLOSED_HERE);
    CallsGrow(c, f, choice);
    StreamIsClients(c, id);
    ByteReadStaysOpen(c, f, choice);
    hide Receive, Tidy, Has;
  }

  lemma StreamIsClients(c: Conn, id: uint32)
    requires Tidy(c) && Has(c, id, S.HALF_CLOSED_HERE)
    ensures !c.server
  {
  }

  lemma ByteReadStaysOpen(c: Conn, f: F, choice: Choice)
    requires f.Data? && !c.closed && c.benign <= MAX_BENIGN_ERRORS && Receive(c, f, choice).1 == Delivered
    ensures !Receive(c, f, choice).0.closed
  {
    if f.id in c.streams && c.streams[f.id].state.Some? {
      ReceiveTouches(c, f.id, f);
    }
    hide ReceiveFrame, ProtocolError;
  }
}
