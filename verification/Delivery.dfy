// End-to-end delivery. Two endpoints, any number of concurrent requests, any handler
// program for each, the frames of all streams interleaved in any order: the receiver
// of each request is told what that request's handler wrote, and nothing else.

module Delivery {
  import opened Protocol
  import S = StreamStates
  import SS = ServerStreams
  import P = Pipeline
  import opened Connection
  import opened Freshness
  import opened Demux
  import Completion
  import opened Endpoints
  import opened Agreement

  // ----------------------------------------------------------- one response, whole

  /** The frames as the pipeline delivers them. */
  function Arrives(fs: seq<F>): (r: seq<F>)
    ensures |r| == |fs| && forall i :: 0 <= i < |fs| ==> r[i] == P.Delivered(fs[i])
  {
    if fs == [] then [] else [P.Delivered(fs[0])] + Arrives(fs[1..])
  }

  /** A handler's run: the flags of its request and what it does. */
  datatype Job = Job(flags: byte, ops: seq<SS.Op>)

  function Reply(id: uint32, job: Job): (fs: seq<F>) {
    Arrives(SS.Emitted(id, job.flags, job.ops))
  }

  /** What the handler's accepted Write calls were given. */
  function Written(id: uint32, job: Job): Bytes {
    SS.Accepted(SS.Accept(id, job.flags), job.ops)
  }

  /** The data that a receiver is given. */
  function BytesOf(calls: seq<Call>): (bs: Bytes) {
    if calls == [] then [] else (if calls[0].ReceiveData? then calls[0].data else []) + BytesOf(calls[1..])
  }

  lemma {:induction false} BytesAppend(a: seq<Call>, b: seq<Call>)
    ensures BytesOf(a + b) == BytesOf(a) + BytesOf(b)
  {
    if a == [] {
      assert a + b == b;
    } else {
      assert (a + b)[1..] == a[1..] + b;
      BytesAppend(a[1..], b);
    }
  }

  lemma {:induction false} EffectsAppend(a: seq<F>, b: seq<F>)
    ensures AllEffects(a + b) == AllEffects(a) + AllEffects(b)
  {
    hide Effects;
    if a == [] {
      assert a + b == b;
    } else {
      assert (a + b)[0] == a[0] && (a + b)[1..] == a[1..] + b;
      EffectsAppend(a[1..], b);
      assert Effects(a[0]) + (AllEffects(a[1..]) + AllEffects(b)) == Effects(a[0]) + AllEffects(a[1..]) + AllEffects(b);
    }
  }

  /** Frames of a response: on the stream, and the last alone ends it. */
  ghost predicate Whole(id: uint32, fs: seq<F>) {
    && fs != [] && fs[0].Response?
    && (forall i {:trigger fs[i]} :: 0 <= i < |fs| ==> OnStream(fs[i], id) && (Ends(fs[i]) <==> i == |fs| - 1))
  }

  lemma ResponseIsWhole(id: uint32, job: Job)
    ensures Whole(id, Reply(id, job))
  {
    SS.StreamGrammar(id, job.flags, job.ops);
    var fs := SS.Emitted(id, job.flags, job.ops);
    hide SS.Emitted, P.HeaderBlock.Strip;
    forall i | 0 <= i < |fs|
      ensures OnStream(Arrives(fs)[i], id) && (Ends(Arrives(fs)[i]) <==> i == |fs| - 1)
    {
      assert Arrives(fs)[i] == P.Delivered(fs[i]);
      assert OnStream(fs[i], id);
      if i == |fs| - 1 {
        assert SS.Finished(fs);
      }
    }
  }

  lemma {:induction false} BytesOfEffects(fs: seq<F>)
    ensures BytesOf(AllEffects(Arrives(fs))) == SS.Body(fs)
  {
    if fs != [] {
      BytesOfEffects(fs[1..]);
      BytesAppend(Effects(Arrives(fs)[0]), AllEffects(Arrives(fs)[1..]));
      assert Arrives(fs)[1..] == Arrives(fs[1..]);
      BytesOfFrame(fs[0]);
    }
  }

  lemma BytesOfFrame(f: F)
    ensures BytesOf(Effects(P.Delivered(f))) == if f.Data? then f.data else []
  {
    var g := P.Delivered(f);
    var tail := if Ends(g) then [Completed(g.id)] else [];
    BytesAppend(Callbacks(g), tail);
    assert BytesOf(tail) == [] by { assert |tail| <= 1; }
    hide P.Delivered;
    match g
    case Data(flags, id, data) =>
      assert Callbacks(g)[1..] == [];
    case Response(_, _, id, code, subcode, h) =>
      assert Callbacks(g)[1..] == [ReceiveHeader(id, h)];
      assert Callbacks(g)[1..][1..] == [];
      BytesOfHeader(id, h);
    case Headers(_, id, h) => BytesOfHeader(id, h);
    case _ =>
  }

  lemma BytesOfHeader(id: uint32, h: Header)
    ensures BytesOf([ReceiveHeader(id, h)]) == []
  {
    assert [ReceiveHeader(id, h)][1..] == [];
  }

  /** Frames of which the last alone ends the stream close `finished` once, last. */
  lemma {:induction false} EffectsEndOnce(fs: seq<F>)
    requires fs != []
    requires forall i :: 0 <= i < |fs| ==> (Ends(fs[i]) <==> i == |fs| - 1)
    ensures Completion.EndsOnce(AllEffects(fs)) && Completion.HasCompleted(AllEffects(fs))
  {
    Completion.EffectsShape(fs[0]);
    if |fs| == 1 {
      assert AllEffects(fs[1..]) == [];
      assert Effects(fs[0]) + [] == Effects(fs[0]);
    } else {
      assert !Ends(fs[0]);
      EffectsEndOnce(fs[1..]);
    }
    hide Effects;
  }

  /** What the receiver of a whole response is told: the response code first, the bytes
      that the handler's accepted writes were given, and one completion, last. */
  lemma Outcome(id: uint32, job: Job)
    ensures var calls := AllEffects(Reply(id, job));
      && calls != [] && calls[0].ReceiveResponse?
      && BytesOf(calls) == Written(id, job)
      && Completion.EndsOnce(calls) && Completion.HasCompleted(calls)
  {
    var fs := SS.Emitted(id, job.flags, job.ops);
    ResponseIsWhole(id, job);
    EffectsEndOnce(Reply(id, job));
    BytesOfEffects(fs);
    SS.StreamGrammar(id, job.flags, job.ops);
    hide SS.Emitted, SS.Grammar, Arrives;
    assert Reply(id, job)[0].Response?;
    assert Effects(Reply(id, job)[0])[0].ReceiveResponse?;
  }

  /** The last frame makes at least two calls: what it carries, and the completion. */
  lemma {:induction false} AtLeastTwo(fs: seq<F>)
    requires fs != [] && Ends(fs[|fs| - 1])
    ensures |AllEffects(fs)| >= 2
  {
    EffectsAre(fs[0]);
    hide Effects, Ends;
    if |fs| > 1 {
      AtLeastTwo(fs[1..]);
    }
  }

  lemma EffectsAre(f: F)
    ensures var calls := Effects(f);
      && (Ends(f) ==> |calls| >= 2)
      && forall i :: 0 <= i < |calls| && calls[i].ReceiveData? ==>
           i == 0 && (calls[i].final <==> Ends(f)) && |calls| == if Ends(f) then 2 else 1
  {
  }

  /** Of the data that the receiver of a whole response is given, none is called final but
      that of the frame that ends it. */
  lemma {:induction false} FinalIsLast(fs: seq<F>, i: nat)
    requires fs != [] && i < |AllEffects(fs)| && AllEffects(fs)[i].ReceiveData?
    requires forall k :: 0 <= k < |fs| ==> (Ends(fs[k]) <==> k == |fs| - 1)
    ensures AllEffects(fs)[i].final <==> i == |AllEffects(fs)| - 2
  {
    hide Effects, Ends, AllEffects;
    var first, rest := Effects(fs[0]), AllEffects(fs[1..]);
    EffectsAre(fs[0]);
    EffectsFirst(fs);
    if |fs| > 1 {
      EndsOfRest(fs);
      AtLeastTwo(fs[1..]);
      if i < |first| {
        assert (first + rest)[i] == first[i];
      } else {
        assert (first + rest)[i] == rest[i - |first|];
        FinalIsLast(fs[1..], i - |first|);
      }
    }
  }

  lemma EffectsFirst(fs: seq<F>)
    requires fs != []
    ensures AllEffects(fs) == Effects(fs[0]) + AllEffects(fs[1..])
    ensures |fs| == 1 ==> AllEffects(fs) == Effects(fs[0])
  {
    hide Effects;
    assert Effects(fs[0]) + [] == Effects(fs[0]);
  }

  lemma EndsOfRest(fs: seq<F>)
    requires |fs| > 1 && forall k :: 0 <= k < |fs| ==> (Ends(fs[k]) <==> k == |fs| - 1)
    ensures !Ends(fs[0]) && Ends(fs[1..][|fs[1..]| - 1])
    ensures forall k :: 0 <= k < |fs[1..]| ==> (Ends(fs[1..][k]) <==> k == |fs[1..]| - 1)
  {
    hide Ends;
    forall k | 0 <= k < |fs[1..]| ensures Ends(fs[1..][k]) <==> k == |fs[1..]| - 1 {
      assert fs[1..][k] == fs[k + 1];
    }
  }

  lemma FinalOfReply(id: uint32, job: Job, i: nat)
    requires i < |AllEffects(Reply(id, job))| && AllEffects(Reply(id, job))[i].ReceiveData?
    ensures var calls := AllEffects(Reply(id, job)); calls[i].final <==> i == |calls| - 2
  {
    hide Reply, Effects;
    ResponseIsWhole(id, job);
    FinalIsLast(Reply(id, job), i);
  }

  /** The next frame of a response: what it adds, and that it ends the stream exactly
      when nothing is left. */
  lemma NextOfReply(id: uint32, whole: seq<F>, rest: seq<F>)
    requires Whole(id, whole) && rest != [] && |rest| <= |whole| && whole[|whole| - |rest|..] == rest
    ensures var k := |whole| - |rest|;
      && whole[k + 1..] == rest[1..]
      && AllEffects(whole[..k + 1]) == AllEffects(whole[..k]) + Effects(rest[0])
      && (Ends(rest[0]) <==> rest[1..] == [])
  {
    var k := |whole| - |rest|;
    assert whole[k] == rest[0];
    assert whole[..k + 1] == whole[..k] + [rest[0]];
    EffectsAppend(whole[..k], [rest[0]]);
    assert Effects(rest[0]) + [] == Effects(rest[0]);
    assert whole[k + 1..] == rest[1..];
    hide Effects, Ends, OnStream;
  }

  // --------------------------------------------------------------------- the machine

  /** `jobs` are the handlers of the accepted requests; `pending`, the frames that each
      has not handed to the send loop yet. */
  datatype World = World(sys: System, jobs: map<uint32, Job>, pending: map<uint32, seq<F>>)

  datatype Move =
    | Api(call: Action)
    | Up(choice: Choice, ops: seq<SS.Op>)
    | Down(choice: Choice)
    | Hand(id: uint32)
    | Pushed(frame: F)

  /** Calls of either side, but no Close of a stream. */
  predicate IsCall(a: Action) {
    (a.ClientCall? || a.ServerCall?) && !a.input.Inbound? && !a.input.CallClose?
  }

  function Do(w: World, m: Move): World {
    match m
    case Api(a) => if IsCall(a) then w.(sys := Next(w.sys, a)) else w
    case Up(choice, ops) =>
      if w.sys.up == [] then w
      else
        var f := w.sys.up[0];
        var next := w.(sys := Next(w.sys, DeliverUp(choice)));
        if f.Request? && Receive(w.sys.server, f, choice).1 == Accepted then
          next.(jobs := w.jobs[f.id := Job(f.flags, ops)],
                pending := w.pending[f.id := Reply(f.id, Job(f.flags, ops))])
        else next
    case Down(choice) => w.(sys := Next(w.sys, DeliverDown(choice)))
    case Hand(id) =>
      if id !in w.pending || w.pending[id] == [] || w.sys.server.closed then w
      else
        w.(sys := Next(w.sys, ServerFrame(w.pending[id][0])), pending := w.pending[id := w.pending[id][1..]])
    case Pushed(f) =>
      if Streamed(f) && !Odd(f.id) then w.(sys := Next(w.sys, ServerFrame(f))) else w
  }

  function DoAll(w: World, moves: seq<Move>): World
    decreases moves
  {
    if moves == [] then w else DoAll(Do(w, moves[0]), moves[1..])
  }

  function Open(hasReceiver: bool, clientSeed: uint32, serverSeed: uint32): World {
    World(Start(hasReceiver, clientSeed, serverSeed), map[], map[])
  }

  ghost predicate InRange(w: World, moves: seq<Move>)
    decreases moves
  {
    moves == [] || ((moves[0].Api? ==> !WrapsAt(w.sys, moves[0].call)) && InRange(Do(w, moves[0]), moves[1..]))
  }

  // ------------------------------------------------------------------ the invariant

  /** What of a response has not reached the client yet. */
  function Left(w: World, id: uint32): (fs: seq<F>)
    requires id in w.pending
  {
    Project(w.sys.down, id) + w.pending[id]
  }

  function StateFor(left: seq<F>): S.State {
    if left == [] then S.CLOSED else S.HALF_CLOSED_HERE
  }

  /** What is left is the end of the response; the receiver has been told the rest. */
  ghost predicate Told(client: Conn, id: uint32, whole: seq<F>, left: seq<F>) {
    && |left| <= |whole| && whole[|whole| - |left|..] == left
    && Has(client, id, StateFor(left))
    && CallsOn(client.calls, OfStream(id)) == AllEffects(whole[..|whole| - |left|])
  }

  /** A stream whose request has not been accepted. */
  ghost predicate Untold(client: Conn, id: uint32) {
    && CallsOn(client.calls, OfStream(id)) == []
    && (id in client.streams ==> client.streams[id] == ClientStream(Some(S.HALF_CLOSED_HERE)))
  }

  /** All accepted streams and all others, one by one. */
  ghost predicate AllTold(client: Conn, w: World) {
    forall id :: id in w.jobs && id in w.pending ==> Told(client, id, Reply(id, w.jobs[id]), Left(w, id))
  }

  ghost predicate AllUntold(client: Conn, accepted: set<uint32>) {
    forall id: uint32 :: Odd(id) && id !in accepted ==> Untold(client, id)
  }

  /** Frames on the way down: of accepted requests or of pushes; and no ERROR but the
      one that ends the connection. */
  predicate Downward(f: F, accepted: set<uint32>) {
    && (Streamed(f) && Odd(f.id) ==> f.id in accepted)
    && (f.Error? ==> f.status == PROTOCOL_ERROR)
  }

  ghost predicate DownLink(fs: seq<F>, accepted: set<uint32>) {
    forall i :: 0 <= i < |fs| ==> Downward(fs[i], accepted)
  }

  /** Requests on the way up have their stream. */
  ghost predicate UpLink(fs: seq<F>, client: Conn) {
    forall i :: 0 <= i < |fs| && fs[i].Request? ==> fs[i].id in client.streams
  }

  ghost predicate Bounds(w: World) {
    && w.pending.Keys == w.jobs.Keys
    && (forall id :: id in w.jobs ==> Odd(id) && ValidID(id) && id <= w.sys.server.lastRequest)
    && forall id :: id in w.pending ==> AllOn(w.pending[id], id)
  }

  ghost predicate AllOn(fs: seq<F>, id: uint32) {
    forall i {:trigger fs[i]} :: 0 <= i < |fs| ==> OnStream(fs[i], id)
  }

  ghost predicate Delivering(w: World) {
    && UpLink(w.sys.up, w.sys.client)
    && AllTold(w.sys.client, w) && AllUntold(w.sys.client, w.jobs.Keys)
  }

  ghost predicate Inv(w: World) {
    && Agree(w.sys) && Bounds(w) && DownLink(w.sys.down, w.jobs.Keys)
    && (w.sys.client.closed || Delivering(w))
  }

  // ----------------------------------------------------------- the client, by stream

  lemma CallKeepsTold(c: Conn, input: Input, id: uint32, whole: seq<F>, left: seq<F>)
    requires Tidy(c) && !Wraps(c, input) && !input.Inbound? && !input.CallClose?
    requires Told(c, id, whole, left)
    ensures Told(Step(c, input), id, whole, left)
  {
    CallLeavesStreams(c, input, id);
    CallMakesNoCalls(c, input);
    hide Step, Tidy;
  }

  lemma OpensHalfClosed(c: Conn, input: Input)
    requires !input.Inbound? && !c.server && Inserted(c, input).Some?
    ensures var id := Inserted(c, input).value;
      id in Step(c, input).streams && Step(c, input).streams[id] == ClientStream(Some(S.HALF_CLOSED_HERE))
  {
    hide Receive, NextRequestID, RequestFrames;
  }

  lemma CallKeepsUntold(c: Conn, input: Input, id: uint32)
    requires Tidy(c) && !Wraps(c, input) && !input.Inbound? && !input.CallClose? && !c.server
    requires Untold(c, id)
    ensures Untold(Step(c, input), id)
  {
    CallMakesNoCalls(c, input);
    CallsEffect(c, input);
    if Inserted(c, input).Some? {
      OpensHalfClosed(c, input);
    }
    hide Step, Tidy, Inserted;
  }

  lemma FrameKeepsTold(c: Conn, f: F, choice: Choice, id: uint32, whole: seq<F>, left: seq<F>)
    requires Tidy(c) && ValidID(id) && Whole(id, whole) && Told(c, id, whole, left)
    requires !c.closed && c.benign <= MAX_BENIGN_ERRORS
    requires !Receive(c, f, choice).0.closed
    requires f.Ping? || f.id != id || (OnStream(f, id) && left != [] && left[0] == f)
    ensures Told(Receive(c, f, choice).0, id, whole, if OnStream(f, id) then left[1..] else left)
  {
    hide Receive, Tidy, Effects, Ends, Whole, CallsOn, AllEffects;
    if OnStream(f, id) {
      NextOfReply(id, whole, left);
      StepOnStream(c, Inbound(f, choice), id, S.HALF_CLOSED_HERE);
    } else {
      Isolation(c, f, choice, id);
    }
  }

  lemma FrameKeepsUntold(c: Conn, f: F, choice: Choice, id: uint32)
    requires Tidy(c) && Untold(c, id)
    requires f.Ping? || f.id != id
    ensures var d := Receive(c, f, choice).0; d.closed || Untold(d, id)
  {
    Isolation(c, f, choice, id);
    hide Receive, Tidy;
  }

  lemma {:induction false} ProjectNone(fs: seq<F>, id: uint32)
    requires forall i :: 0 <= i < |fs| ==> !OnStream(fs[i], id)
    ensures Project(fs, id) == []
  {
    if fs != [] {
      ProjectNone(fs[1..], id);
    }
  }

  /** Frames of other streams, or of none, leave a projection as it is. */
  lemma ProjectOthers(fs: seq<F>, more: seq<F>, id: uint32)
    requires forall i :: 0 <= i < |more| ==> !OnStream(more[i], id)
    ensures Project(fs + more, id) == Project(fs, id)
  {
    ProjectAppend(fs, more, id);
    ProjectNone(more, id);
    assert Project(fs, id) + [] == Project(fs, id);
  }

  lemma ProjectHead(fs: seq<F>, id: uint32)
    requires fs != []
    ensures OnStream(fs[0], id) ==> Project(fs, id) == [fs[0]] + Project(fs[1..], id)
    ensures !OnStream(fs[0], id) ==> Project(fs, id) == Project(fs[1..], id)
  {
  }

  // -------------------------------------------------------------------- the moves

  lemma ClientCallTells(w: World, input: Input)
    requires Inv(w) && !w.sys.client.closed
    requires !input.Inbound? && !input.CallClose? && !Wraps(w.sys.client, input)
    ensures AllTold(Step(w.sys.client, input), w) && AllUntold(Step(w.sys.client, input), w.jobs.Keys)
  {
    var c, d := w.sys.client, Step(w.sys.client, input);
    hide Step, Told, Untold, UpLink, DownLink, Left, Reply, Tidy, Wraps;
    forall id | id in w.jobs && id in w.pending
      ensures Told(d, id, Reply(id, w.jobs[id]), Left(w, id))
    {
      CallKeepsTold(c, input, id, Reply(id, w.jobs[id]), Left(w, id));
    }
    forall id: uint32 | Odd(id) && id !in w.jobs.Keys ensures Untold(d, id) {
      CallKeepsUntold(c, input, id);
    }
  }

  /** The same streams with the same frames left. */
  lemma ToldAgain(client: Conn, w: World, v: World)
    requires AllTold(client, w) && v.jobs == w.jobs && v.pending.Keys == w.pending.Keys
    requires forall id | id in w.pending :: Left(v, id) == Left(w, id)
    ensures AllTold(client, v)
  {
    hide Told, Left, Reply;
  }

  lemma ClientMoves(w: World, v: World)
    requires Inv(w) && Agree(v.sys)
    requires v.jobs == w.jobs && v.pending == w.pending && v.sys.down == w.sys.down
    requires v.sys.server == w.sys.server
    requires !v.sys.client.closed ==>
      AllTold(v.sys.client, w) && AllUntold(v.sys.client, w.jobs.Keys) && UpLink(v.sys.up, v.sys.client)
    ensures Inv(v)
  {
    SameLeft(w, v);
    if !v.sys.client.closed {
      ToldAgain(v.sys.client, w, v);
    }
    hide Agree, AllTold, AllUntold, UpLink, DownLink, AllOn;
  }

  lemma ClientCallKeepsInv(w: World, input: Input)
    requires Inv(w) && !input.Inbound? && !input.CallClose? && !Wraps(w.sys.client, input)
    ensures Inv(w.(sys := Next(w.sys, ClientCall(input))))
  {
    var c, d := w.sys.client, Step(w.sys.client, input);
    NextKeepsAgreement(w.sys, ClientCall(input));
    CallMakesNoCalls(c, input);
    if !c.closed {
      AgreeMeans(w.sys);
      CallKeepsUpLink(w.sys.up, c, input);
      ClientCallTells(w, input);
    }
    hide Step, New, Agree, UpLink, AllTold, AllUntold, Inv;
    ClientMoves(w, w.(sys := Next(w.sys, ClientCall(input))));
  }

  lemma AgreeMeans(s: System)
    requires Agree(s)
    ensures !s.client.server && s.server.server && Tidy(s.client) && Tidy(s.server)
  {
  }

  lemma SameLeft(w: World, v: World)
    requires v.pending == w.pending && v.sys.down == w.sys.down
    ensures forall id | id in w.pending :: Left(v, id) == Left(w, id)
  {
  }

  lemma CallKeepsUpLink(up: seq<F>, c: Conn, input: Input)
    requires Tidy(c) && !Wraps(c, input) && !input.Inbound? && !input.CallClose? && !c.server
    requires UpLink(up, c)
    ensures UpLink(up + New(c, Step(c, input)), Step(c, input))
  {
    var d := Step(c, input);
    var more := New(c, d);
    CallEmits(c, input);
    CallsEffect(c, input);
    InsertedIsCalls(c, input);
    hide Step, New, StartRequest, StartPush, StartPing, Inserted;
    forall i | 0 <= i < |up + more| && (up + more)[i].Request?
      ensures (up + more)[i].id in d.streams
    {
      if i >= |up| {
        assert (up + more)[i] == more[i - |up|];
      }
    }
  }

  /** What a call on the server hands over belongs to no stream yet. */
  lemma ServerCallIsSilent(c: Conn, input: Input)
    requires c.server && !input.Inbound?
    ensures var fs := New(c, Step(c, input));
      forall i :: 0 <= i < |fs| ==> !Streamed(fs[i]) && !fs[i].Error?
    ensures Step(c, input).lastRequest == c.lastRequest
  {
    CallEmits(c, input);
    InsertedIsCalls(c, input);
    ServerKeepsLastRequest(c, input);
    hide Step, New, StartRequest, StartPush, StartPing;
  }

  lemma ServerKeepsLastRequest(c: Conn, input: Input)
    requires c.server && !input.Inbound?
    ensures Step(c, input).lastRequest == c.lastRequest
  {
    hide Receive, RequestFrames;
  }

  /** Frames go down, what is left of each response being the same. */
  lemma DownGrows(w: World, v: World, more: seq<F>)
    requires Inv(w) && Agree(v.sys) && Bounds(v)
    requires v.jobs == w.jobs && v.sys.down == w.sys.down + more
    requires v.sys.client == w.sys.client && v.sys.up == w.sys.up
    requires forall id | id in w.pending :: Left(v, id) == Left(w, id)
    requires DownLink(more, w.jobs.Keys)
    ensures Inv(v)
  {
    if !w.sys.client.closed {
      ToldAgain(w.sys.client, w, v);
    }
    DownLinkAppend(w.sys.down, more, w.jobs.Keys);
    hide Agree, AllTold, AllUntold, UpLink, DownLink, Left;
  }

  lemma DownLinkAppend(fs: seq<F>, more: seq<F>, accepted: set<uint32>)
    requires DownLink(fs, accepted) && DownLink(more, accepted)
    ensures DownLink(fs + more, accepted)
  {
    hide Downward;
  }

  /** And frames of no accepted stream leave it so. */
  lemma OthersKeepLeft(w: World, v: World, more: seq<F>)
    requires Bounds(w) && v.pending == w.pending && v.sys.down == w.sys.down + more
    requires forall i :: 0 <= i < |more| && Streamed(more[i]) ==> !Odd(more[i].id)
    ensures forall id | id in w.pending :: Left(v, id) == Left(w, id)
  {
    forall id | id in w.pending ensures Left(v, id) == Left(w, id) {
      assert Odd(id);
      ProjectOthers(w.sys.down, more, id);
    }
  }

  lemma InvMeans(w: World)
    requires Inv(w)
    ensures Agree(w.sys) && Bounds(w) && DownLink(w.sys.down, w.jobs.Keys)
  {
  }

  lemma NextServerCall(s: System, input: Input)
    requires !input.Inbound?
    ensures Next(s, ServerCall(input))
         == s.(server := Step(s.server, input), down := s.down + New(s.server, Step(s.server, input)))
  {
    hide Step, New;
  }

  lemma ServerCallKeepsInv(w: World, input: Input)
    requires Inv(w) && !input.Inbound? && !input.CallClose? && !Wraps(w.sys.server, input)
    ensures Inv(w.(sys := Next(w.sys, ServerCall(input))))
  {
    hide Next, Step, New, Agree, Inv, Left, Bounds, Wraps;
    var s := w.sys.(server := Step(w.sys.server, input),
                    down := w.sys.down + New(w.sys.server, Step(w.sys.server, input)));
    InvMeans(w);
    AgreeMeans(w.sys);
    NextKeepsAgreement(w.sys, ServerCall(input)) by { assert !WrapsAt(w.sys, ServerCall(input)); }
    NextServerCall(w.sys, input);
    ServerCallIsSilent(w.sys.server, input);
    OthersKeepLeft(w, w.(sys := s), New(w.sys.server, Step(w.sys.server, input)));
    SameBounds(w, w.(sys := s));
    DownGrows(w, w.(sys := s), New(w.sys.server, Step(w.sys.server, input)));
  }

  lemma SameBounds(w: World, v: World)
    requires Bounds(w) && v.jobs == w.jobs && v.pending == w.pending
    requires v.sys.server.lastRequest == w.sys.server.lastRequest
    ensures Bounds(v)
  {
    hide AllOn;
  }

  lemma NextServerFrame(s: System, f: F)
    requires Streamed(f)
    ensures Next(s, ServerFrame(f)) == s.(down := s.down + [f])
  {
  }

  lemma PushedKeepsInv(w: World, f: F)
    requires Inv(w) && Streamed(f) && !Odd(f.id)
    ensures Inv(w.(sys := Next(w.sys, ServerFrame(f))))
  {
    hide Next, Agree, Inv, Left, Bounds;
    InvMeans(w);
    NextKeepsAgreement(w.sys, ServerFrame(f));
    NextServerFrame(w.sys, f);
    var v := w.(sys := w.sys.(down := w.sys.down + [f]));
    OthersKeepLeft(w, v, [f]);
    SameBounds(w, v);
    DownGrows(w, v, [f]);
  }

  lemma PendingHead(w: World, id: uint32)
    requires Inv(w) && id in w.pending && w.pending[id] != []
    ensures OnStream(w.pending[id][0], id) && id in w.jobs && Odd(id) && Agree(w.sys) && Bounds(w)
  {
    hide Agree, Delivering, DownLink;
    assert AllOn(w.pending[id], id);
  }

  lemma HandKeepsInv(w: World, id: uint32)
    requires Inv(w) && id in w.pending && w.pending[id] != []
    ensures Inv(w.(sys := Next(w.sys, ServerFrame(w.pending[id][0])), pending := w.pending[id := w.pending[id][1..]]))
  {
    hide Inv, Agree, Left, Bounds, Next;
    var f := w.pending[id][0];
    PendingHead(w, id);
    NextServerFrame(w.sys, f);
    NextKeepsAgreement(w.sys, ServerFrame(f));
    var v := w.(sys := w.sys.(down := w.sys.down + [f]), pending := w.pending[id := w.pending[id][1..]]);
    HandKeepsLefts(w, v, id);
    HandKeepsBounds(w, v, id);
    DownGrows(w, v, [f]);
  }

  lemma HandKeepsBounds(w: World, v: World, id: uint32)
    requires Bounds(w) && id in w.pending && w.pending[id] != []
    requires v.jobs == w.jobs && v.pending == w.pending[id := w.pending[id][1..]]
    requires v.sys.server.lastRequest == w.sys.server.lastRequest
    ensures Bounds(v)
  {
    forall other | other in v.pending ensures AllOn(v.pending[other], other) {
      assert AllOn(w.pending[other], other);
    }
  }

  lemma HandKeepsLefts(w: World, v: World, id: uint32)
    requires Bounds(w) && id in w.pending && w.pending[id] != []
    requires v.jobs == w.jobs && v.pending == w.pending[id := w.pending[id][1..]]
    requires v.sys.down == w.sys.down + [w.pending[id][0]]
    ensures forall other | other in w.pending :: Left(v, other) == Left(w, other)
  {
    var f := w.pending[id][0];
    assert OnStream(f, id);
    HandKeepsLeft(w.sys.down, w.pending[id], f, id);
    forall other | other in w.pending ensures Left(v, other) == Left(w, other) {
      if other != id {
        ProjectOthers(w.sys.down, [f], other);
      }
    }
  }

  lemma HandKeepsLeft(down: seq<F>, pending: seq<F>, f: F, id: uint32)
    requires pending != [] && pending[0] == f && OnStream(f, id)
    ensures Project(down + [f], id) + pending[1..] == Project(down, id) + pending
  {
    hide Project;
    ProjectAppend(down, [f], id);
    ProjectOne(f, id);
    Regroup(Project(down, id), pending);
  }

  lemma ProjectOne(f: F, id: uint32)
    requires OnStream(f, id)
    ensures Project([f], id) == [f]
  {
    ProjectHead([f], id);
    assert Project([f][1..], id) == [];
  }

  lemma Regroup<T>(a: seq<T>, b: seq<T>)
    requires b != []
    ensures a + [b[0]] + b[1..] == a + b
  {
  }

  // ------------------------------------------------------------------- deliveries

  /** A frame reaches the client. */
  lemma DownTells(w: World, choice: Choice)
    requires Inv(w) && w.sys.down != [] && !w.sys.client.closed && w.sys.client.benign <= MAX_BENIGN_ERRORS
    requires !Receive(w.sys.client, w.sys.down[0], choice).0.closed
    ensures var d := Receive(w.sys.client, w.sys.down[0], choice).0;
      && AllTold(d, w.(sys := w.sys.(down := w.sys.down[1..])))
      && AllUntold(d, w.jobs.Keys)
  {
    hide Receive, Reply, Agree, UpLink, Told, Untold, Tidy;
    var c, f := w.sys.client, w.sys.down[0];
    var v := w.(sys := w.sys.(down := w.sys.down[1..]));
    var d := Receive(c, f, choice).0;
    AgreeMeans(w.sys);
    HeadIsOurs(w, choice);
    forall id | id in v.jobs && id in v.pending ensures Told(d, id, Reply(id, v.jobs[id]), Left(v, id)) {
      ProjectHead(w.sys.down, id);
      ResponseIsWhole(id, w.jobs[id]);
      LeftHead(w.sys.down, w.pending[id], id);
      FrameKeepsTold(c, f, choice, id, Reply(id, w.jobs[id]), Left(w, id));
    }
    forall id: uint32 | Odd(id) && id !in w.jobs.Keys ensures Untold(d, id) {
      FrameKeepsUntold(c, f, choice, id);
    }
  }

  lemma LeftHead(down: seq<F>, pending: seq<F>, id: uint32)
    requires down != []
    ensures var left := Project(down, id) + pending;
      var rest := Project(down[1..], id) + pending;
      if OnStream(down[0], id) then left != [] && left[0] == down[0] && left[1..] == rest else left == rest
  {
    ProjectHead(down, id);
    hide Project;
    if OnStream(down[0], id) {
      HeadOfSum(down[0], Project(down[1..], id), pending);
    }
  }

  lemma HeadOfSum<T>(x: T, a: seq<T>, b: seq<T>)
    ensures var s := [x] + a + b; s != [] && s[0] == x && s[1..] == a + b
  {
  }

  /** A frame with an odd ID that reaches an open client and does not close it is of an
      accepted request. */
  lemma HeadIsOurs(w: World, choice: Choice)
    requires Inv(w) && w.sys.down != [] && !w.sys.client.closed && w.sys.client.benign <= MAX_BENIGN_ERRORS
    requires !Receive(w.sys.client, w.sys.down[0], choice).0.closed
    ensures var f := w.sys.down[0];
      f.Ping? || (Streamed(f) && (Odd(f.id) ==> f.id in w.jobs)) || !Odd(f.id)
  {
    hide UpLink, Told, Untold, AllTold, AllUntold, Tidy, Bounds;
    var f := w.sys.down[0];
    assert Downward(f, w.jobs.Keys) && Fair(f, true);
    if f.Error? {
      FatalCloses(w.sys.client, f, choice);
    } else if f.Push? {
      HeadInRange(w.sys.down, true, w.sys.client.lastPush, w.sys.server.lastPush);
    }
    hide Receive, LinkAgrees;
  }

  lemma FatalCloses(c: Conn, f: F, choice: Choice)
    requires f.Error? && f.status == PROTOCOL_ERROR
    ensures Receive(c, f, choice).0.closed
  {
  }

  lemma NextDown(s: System, choice: Choice)
    requires s.down != []
    ensures var d := Receive(s.client, s.down[0], choice).0;
      Next(s, DeliverDown(choice)) == s.(client := d, down := s.down[1..], up := s.up + New(s.client, d))
  {
    hide Receive, New;
  }

  lemma NextUp(s: System, choice: Choice)
    requires s.up != []
    ensures var d := Receive(s.server, s.up[0], choice).0;
      Next(s, DeliverUp(choice)) == s.(server := d, up := s.up[1..], down := s.down + New(s.server, d))
  {
    hide Receive, New;
  }

  /** The client answers with no request, and keeps its streams. */
  lemma DownKeepsUpLink(up: seq<F>, c: Conn, f: F, choice: Choice)
    requires UpLink(up, c) && !c.server
    ensures var d := Receive(c, f, choice).0; d.closed || UpLink(up + New(c, d), d)
  {
    InboundEmits(c, f, choice);
    var (d, v) := Receive(c, f, choice);
    if v == Accepted {
      AcceptedEffect(c, f, choice);
    } else {
      InboundKeepsEntries(c, f, choice);
    }
    hide Receive, New;
    AnswersAreQuiet(c.server, f, v, New(c, d));
  }

  lemma Assemble(v: World)
    requires Agree(v.sys) && Bounds(v) && DownLink(v.sys.down, v.jobs.Keys)
    requires v.sys.client.closed
      || (UpLink(v.sys.up, v.sys.client) && AllTold(v.sys.client, v) && AllUntold(v.sys.client, v.jobs.Keys))
    ensures Inv(v)
  {
    hide Agree, Bounds, DownLink, UpLink, AllTold, AllUntold;
  }

  lemma InvTells(w: World)
    requires Inv(w) && !w.sys.client.closed
    ensures UpLink(w.sys.up, w.sys.client) && AllTold(w.sys.client, w) && AllUntold(w.sys.client, w.jobs.Keys)
  {
    hide Agree, Bounds, DownLink, UpLink, AllTold, AllUntold;
  }

  lemma DownKeepsInv(w: World, choice: Choice)
    requires Inv(w) && w.sys.down != []
    ensures Inv(w.(sys := Next(w.sys, DeliverDown(choice))))
  {
    hide Next, Receive, New, Agree, Inv, Bounds, DownLink, UpLink, AllTold, AllUntold;
    var c, f := w.sys.client, w.sys.down[0];
    var d := Receive(c, f, choice).0;
    var less := w.(sys := w.sys.(down := w.sys.down[1..]));
    var v := w.(sys := w.sys.(client := d, down := w.sys.down[1..], up := w.sys.up + New(c, d)));
    InvMeans(w);
    AgreeMeans(w.sys);
    NextKeepsAgreement(w.sys, DeliverDown(choice));
    NextDown(w.sys, choice);
    SameBounds(w, v);
    DownLinkTail(w.sys.down, w.jobs.Keys);
    ClosedStaysClosed(c, f, choice);
    if !d.closed {
      InvTells(w);
      DownKeepsUpLink(w.sys.up, c, f, choice);
      DownTells(w, choice);
      ToldElsewhere(d, less, v);
    }
    Assemble(v);
  }

  lemma ClosedStaysClosed(c: Conn, f: F, choice: Choice)
    ensures var d := Receive(c, f, choice).0;
      !d.closed ==> !c.closed && c.benign <= MAX_BENIGN_ERRORS
  {
    ProtocolErrorCloses(c, 0);
    hide Handle, ProtocolError;
  }

  lemma DownLinkTail(fs: seq<F>, accepted: set<uint32>)
    requires DownLink(fs, accepted) && fs != []
    ensures DownLink(fs[1..], accepted)
  {
    hide Downward;
  }

  lemma ToldElsewhere(client: Conn, w: World, v: World)
    requires AllTold(client, w) && v.jobs == w.jobs && v.pending == w.pending && v.sys.down == w.sys.down
    ensures AllTold(client, v)
  {
    SameLeft(w, v);
    ToldAgain(client, w, v);
  }

  // ------------------------------------------------------------- accepted requests

  /** What the server answers is on no stream. */
  lemma UpAnswers(c: Conn, f: F, choice: Choice)
    requires c.server
    ensures var (d, v) := Receive(c, f, choice);
      forall i :: 0 <= i < |New(c, d)| ==>
        !Streamed(New(c, d)[i]) && (New(c, d)[i].Error? ==> New(c, d)[i].status == PROTOCOL_ERROR)
  {
    InboundEmits(c, f, choice);
    hide Receive, New;
  }

  lemma UpLinkTail(fs: seq<F>, c: Conn)
    requires UpLink(fs, c) && fs != []
    ensures UpLink(fs[1..], c)
  {
  }

  /** No request accepted: the same jobs. */
  lemma UpKeepsInv(w: World, choice: Choice)
    requires Inv(w) && w.sys.up != []
    requires !(w.sys.up[0].Request? && Receive(w.sys.server, w.sys.up[0], choice).1 == Accepted)
    ensures Inv(w.(sys := Next(w.sys, DeliverUp(choice))))
  {
    hide Next, Receive, New, Agree, Inv, Bounds, DownLink, UpLink, AllTold, AllUntold, Left;
    var c, f := w.sys.server, w.sys.up[0];
    var d := Receive(c, f, choice).0;
    var v := w.(sys := w.sys.(server := d, up := w.sys.up[1..], down := w.sys.down + New(c, d)));
    InvMeans(w);
    AgreeMeans(w.sys);
    NextKeepsAgreement(w.sys, DeliverUp(choice));
    NextUp(w.sys, choice);
    UpAnswers(c, f, choice);
    NotAcceptedKeeps(c, f, choice);
    SameBounds(w, v);
    OthersKeepLeft(w, v, New(c, d));
    DownLinkOf(New(c, d), w.jobs.Keys);
    DownLinkAppend(w.sys.down, New(c, d), w.jobs.Keys);
    if !w.sys.client.closed {
      InvTells(w);
      UpLinkTail(w.sys.up, w.sys.client);
      ToldAgain(w.sys.client, w, v);
    }
    Assemble(v);
  }

  lemma DownLinkOf(fs: seq<F>, accepted: set<uint32>)
    requires forall i :: 0 <= i < |fs| ==> !Streamed(fs[i]) && (fs[i].Error? ==> fs[i].status == PROTOCOL_ERROR)
    ensures DownLink(fs, accepted)
  {
  }

  lemma NotAcceptedKeeps(c: Conn, f: F, choice: Choice)
    requires c.server && !(f.Request? && Receive(c, f, choice).1 == Accepted)
    ensures Receive(c, f, choice).0.lastRequest == c.lastRequest
  {
    if Receive(c, f, choice).1 == Accepted {
      AcceptedEffect(c, f, choice);
    } else {
      InboundKeepsEntries(c, f, choice);
    }
    hide Receive, SameKinds;
  }

  lemma RequestIsNew(w: World, choice: Choice)
    requires Inv(w) && w.sys.up != [] && w.sys.up[0].Request?
    requires Receive(w.sys.server, w.sys.up[0], choice).1 == Accepted
    ensures var (c, f) := (w.sys.server, w.sys.up[0]);
      var d := Receive(c, f, choice).0;
      && f.id !in w.jobs && Odd(f.id) && ValidID(f.id) && c.lastRequest < f.id == d.lastRequest
      && New(c, d) == [] && Project(w.sys.down, f.id) == []
  {
    hide Receive, UpLink, AllTold, AllUntold, Tidy;
    var c, f := w.sys.server, w.sys.up[0];
    var d := Receive(c, f, choice).0;
    AcceptedEffect(c, f, choice);
    HeadInRange(w.sys.up, false, c.lastRequest, w.sys.client.lastRequest);
    hide LinkAgrees;
    NewNothing(c, d);
    forall i | 0 <= i < |w.sys.down| ensures !OnStream(w.sys.down[i], f.id) {
      assert Downward(w.sys.down[i], w.jobs.Keys);
    }
    ProjectNone(w.sys.down, f.id);
  }

  lemma AcceptKeepsBounds(w: World, v: World, id: uint32, job: Job)
    requires Bounds(w) && Odd(id) && ValidID(id)
    requires w.sys.server.lastRequest < id == v.sys.server.lastRequest
    requires v.jobs == w.jobs[id := job] && v.pending == w.pending[id := Reply(id, job)]
    ensures Bounds(v)
  {
    ResponseIsWhole(id, job);
    assert AllOn(Reply(id, job), id);
    forall other | other in v.pending ensures AllOn(v.pending[other], other) {
      assert other != id ==> AllOn(w.pending[other], other);
    }
    hide AllOn, Reply;
  }

  lemma AcceptTells(w: World, v: World, id: uint32, job: Job)
    requires AllTold(w.sys.client, w) && AllUntold(w.sys.client, w.jobs.Keys) && Bounds(w)
    requires id in w.sys.client.streams && Odd(id) && id !in w.jobs && Project(w.sys.down, id) == []
    requires v.jobs == w.jobs[id := job] && v.pending == w.pending[id := Reply(id, job)]
    requires v.sys.down == w.sys.down
    ensures AllTold(w.sys.client, v) && AllUntold(w.sys.client, v.jobs.Keys)
  {
    var c := w.sys.client;
    assert Untold(c, id);
    ResponseIsWhole(id, job);
    assert Told(c, id, Reply(id, job), Left(v, id)) by {
      var whole := Reply(id, job);
      assert [] + whole == whole;
      assert whole[|whole| - |whole|..] == whole && whole[..0] == [];
    }
    forall other | other in v.jobs && other in v.pending && other != id
      ensures Told(c, other, Reply(other, v.jobs[other]), Left(v, other))
    {
      assert Left(v, other) == Left(w, other);
    }
    hide Told, Untold, Reply, Left;
  }

  lemma DownLinkGrows(fs: seq<F>, accepted: set<uint32>, more: set<uint32>)
    requires DownLink(fs, accepted) && accepted <= more
    ensures DownLink(fs, more)
  {
  }

  /** A request is accepted, and its handler given a program. */
  lemma AcceptKeepsInv(w: World, choice: Choice, job: Job)
    requires Inv(w) && w.sys.up != [] && w.sys.up[0].Request?
    requires Receive(w.sys.server, w.sys.up[0], choice).1 == Accepted
    ensures var id := w.sys.up[0].id;
      Inv(w.(sys := Next(w.sys, DeliverUp(choice)), jobs := w.jobs[id := job],
             pending := w.pending[id := Reply(id, job)]))
  {
    hide Next, Receive, New, Agree, Inv, Bounds, DownLink, AllTold, AllUntold, Left, Reply;
    var c, f := w.sys.server, w.sys.up[0];
    var d := Receive(c, f, choice).0;
    InvMeans(w);
    NextKeepsAgreement(w.sys, DeliverUp(choice));
    NextUp(w.sys, choice);
    RequestIsNew(w, choice);
    var v := w.(sys := w.sys.(server := d, up := w.sys.up[1..], down := w.sys.down + []),
                jobs := w.jobs[f.id := job], pending := w.pending[f.id := Reply(f.id, job)]);
    AcceptKeepsBounds(w, v, f.id, job);
    DownLinkGrows(w.sys.down, w.jobs.Keys, v.jobs.Keys);
    assert w.sys.down + [] == w.sys.down;
    if !w.sys.client.closed {
      InvTells(w);
      UpLinkTail(w.sys.up, w.sys.client);
      AcceptTells(w, v, f.id, job);
    }
    Assemble(v);
  }

  // ------------------------------------------------------------------------- runs

  lemma DoKeepsInv(w: World, m: Move)
    requires Inv(w) && (m.Api? ==> !WrapsAt(w.sys, m.call))
    ensures Inv(Do(w, m))
  {
    hide Inv, Next, Receive, Reply;
    match m
    case Api(a) =>
      if IsCall(a) && a.ClientCall? {
        ClientCallKeepsInv(w, a.input);
      } else if IsCall(a) {
        ServerCallKeepsInv(w, a.input);
      }
    case Up(choice, ops) =>
      if w.sys.up != [] {
        var f := w.sys.up[0];
        if f.Request? && Receive(w.sys.server, f, choice).1 == Accepted {
          AcceptKeepsInv(w, choice, Job(f.flags, ops));
        } else {
          UpKeepsInv(w, choice);
        }
      }
    case Down(choice) =>
      if w.sys.down != [] {
        DownKeepsInv(w, choice);
      } else {
        NextNothing(w, choice);
      }
    case Hand(id) =>
      if id in w.pending && w.pending[id] != [] && !w.sys.server.closed {
        HandKeepsInv(w, id);
      }
    case Pushed(f) =>
      if Streamed(f) && !Odd(f.id) {
        PushedKeepsInv(w, f);
      }
  }

  lemma NextNothing(w: World, choice: Choice)
    requires w.sys.down == []
    ensures w.(sys := Next(w.sys, DeliverDown(choice))) == w
  {
  }

  lemma {:induction false} DoAllKeepsInv(w: World, moves: seq<Move>)
    requires Inv(w) && InRange(w, moves)
    ensures Inv(DoAll(w, moves))
    decreases moves
  {
    hide Inv, Do, WrapsAt;
    if moves != [] {
      DoKeepsInv(w, moves[0]);
      DoAllKeepsInv(Do(w, moves[0]), moves[1..]);
    }
  }

  lemma OpenDelivers(hasReceiver: bool, clientSeed: uint32, serverSeed: uint32)
    ensures Inv(Open(hasReceiver, clientSeed, serverSeed))
  {
    StartAgrees(hasReceiver, clientSeed, serverSeed);
  }

  /** The theorem, at any moment of any run in which the client is open. Of each
      accepted request the receiver has been told a beginning of the response, and once
      nothing of it is left, all of it: the response code first, the bytes that the
      handler's accepted writes were given, and one completion, at the end. */
  lemma EndToEnd(hasReceiver: bool, clientSeed: uint32, serverSeed: uint32, moves: seq<Move>, id: uint32)
    requires InRange(Open(hasReceiver, clientSeed, serverSeed), moves)
    requires var w := DoAll(Open(hasReceiver, clientSeed, serverSeed), moves);
      !w.sys.client.closed && id in w.jobs && id in w.pending
    ensures var w := DoAll(Open(hasReceiver, clientSeed, serverSeed), moves);
      var calls := CallsOn(w.sys.client.calls, OfStream(id));
      && calls <= AllEffects(Reply(id, w.jobs[id]))
      && (Left(w, id) == [] ==>
            && calls != [] && calls[0].ReceiveResponse?
            && BytesOf(calls) == Written(id, w.jobs[id])
            && Completion.EndsOnce(calls) && Completion.HasCompleted(calls))
  {
    OpenDelivers(hasReceiver, clientSeed, serverSeed);
    var w := DoAll(Open(hasReceiver, clientSeed, serverSeed), moves);
    DoAllKeepsInv(Open(hasReceiver, clientSeed, serverSeed), moves);
    hide Open, DoAll, Inv, AllUntold, UpLink, CallsOn, BytesOf, Completion.EndsOnce, Completion.HasCompleted, Reply;
    InvTells(w);
    ToldMeans(w.sys.client, id, Reply(id, w.jobs[id]), Left(w, id));
    Outcome(id, w.jobs[id]);
  }

  lemma ToldMeans(client: Conn, id: uint32, whole: seq<F>, left: seq<F>)
    requires Told(client, id, whole, left)
    ensures var calls := CallsOn(client.calls, OfStream(id));
      calls <= AllEffects(whole) && (left == [] ==> calls == AllEffects(whole))
  {
    var k := |whole| - |left|;
    EffectsAppend(whole[..k], whole[k..]);
    assert whole[..k] + whole[k..] == whole;
    hide Effects, CallsOn;
  }

  /** The next frame on the way down for an accepted request is the next of its
      response, whose stream is open. */
  lemma HeadIsNext(w: World)
    requires Inv(w) && w.sys.down != [] && !w.sys.client.closed
    requires Streamed(w.sys.down[0]) && Odd(w.sys.down[0].id)
    ensures var id := w.sys.down[0].id;
      && OnStream(w.sys.down[0], id) && ValidID(id) && Tidy(w.sys.client)
      && Has(w.sys.client, id, S.HALF_CLOSED_HERE)
  {
    hide Inv, Agree, AllUntold, UpLink, Reply, Project;
    var f := w.sys.down[0];
    InvMeans(w);
    AgreeMeans(w.sys);
    InvTells(w);
    HeadAccepted(w);
    assert Told(w.sys.client, f.id, Reply(f.id, w.jobs[f.id]), Left(w, f.id));
    LeftHead(w.sys.down, w.pending[f.id], f.id);
  }

  lemma HeadAccepted(w: World)
    requires Bounds(w) && DownLink(w.sys.down, w.jobs.Keys) && w.sys.down != []
    requires Streamed(w.sys.down[0]) && Odd(w.sys.down[0].id)
    ensures w.sys.down[0].id in w.jobs && w.sys.down[0].id in w.pending && ValidID(w.sys.down[0].id)
  {
    hide AllOn;
    assert Downward(w.sys.down[0], w.jobs.Keys);
  }

  /** And no frame of a response is rejected: what is next on the way down for an
      accepted request finds its stream open. */
  lemma NeverRejected(w: World, choice: Choice)
    requires Inv(w) && w.sys.down != [] && !w.sys.client.closed && w.sys.client.benign <= MAX_BENIGN_ERRORS
    requires Streamed(w.sys.down[0]) && Odd(w.sys.down[0].id)
    ensures Receive(w.sys.client, w.sys.down[0], choice).1 == Delivered
  {
    hide Inv, Receive, Tidy, Ends;
    HeadIsNext(w);
    FrameOnStream(w.sys.client, w.sys.down[0], choice, w.sys.down[0].id, S.HALF_CLOSED_HERE);
  }
}
