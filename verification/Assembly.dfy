// All layers at once: handlers' programs, the priority send loop, compression and framing,
// the client's main loop and its demultiplexing.

module Assembly {
  import opened Protocol
  import S = StreamStates
  import SS = ServerStreams
  import SL = SendLoop
  import P = Pipeline
  import opened Connection
  import opened Freshness
  import opened Demux
  import D = Delivery
  import O = ConnectionObject
  import B = ByteDelivery
  import opened Programs
  import Peace
  import opened Agreement
  import opened Schedule

  // ------------------------------------------------------------------ from the programs

  /** Every frame is one of a handler's, or survives the wire for its own reasons. */
  ghost predicate FromJobs(os: seq<P.Outgoing>, jobs: map<uint32, D.Job>, slack: nat) {
    forall i :: 0 <= i < |os| ==>
      P.Ordered(os[i]) &&
      (Survives(os[i].frame, slack) || (Demux.Streamed(os[i].frame) && os[i].frame.id in jobs))
  }

  /** Each handler makes modest calls, and a beginning of its response is written. */
  ghost predicate Responding(os: seq<P.Outgoing>, jobs: map<uint32, D.Job>, slack: nat) {
    forall id :: id in jobs ==>
      Numbered(id) && AllModest(jobs[id].ops, slack) && B.Begun(os, id, jobs[id])
  }

  lemma {:induction false} InProjection(fs: seq<F>, i: nat, id: uint32)
    requires i < |fs| && OnStream(fs[i], id)
    ensures fs[i] in Project(fs, id)
  {
    if i > 0 {
      InProjection(fs[1..], i - 1, id);
    }
  }

  lemma {:induction false} SendingAt(os: seq<P.Outgoing>, i: nat)
    requires i < |os|
    ensures i < |B.Sending(os)| && B.Sending(os)[i] == os[i].frame
  {
    if i > 0 {
      SendingAt(os[1..], i - 1);
    }
  }

  lemma JobFrameSurvives(os: seq<P.Outgoing>, i: nat, job: D.Job, slack: nat)
    requires i < |os| && Demux.Streamed(os[i].frame) && Numbered(os[i].frame.id) && AllModest(job.ops, slack)
    requires B.Begun(os, os[i].frame.id, job) && 4 <= HeaderRoom(slack)
    ensures Survives(os[i].frame, slack)
  {
    hide AllModest, SS.Emitted, Project, B.Sending, Survives;
    var id := os[i].frame.id;
    var emitted := SS.Emitted(id, job.flags, job.ops);
    SendingAt(os, i);
    InProjection(B.Sending(os), i, id);
    ModestProgramsSurvive(id, job.flags, job.ops, slack);
    var k :| 0 <= k < |Project(B.Sending(os), id)| && Project(B.Sending(os), id)[k] == os[i].frame;
    assert emitted[k] == os[i].frame;
  }

  lemma JobsTransport(z: P.Zlib, slack: nat, os: seq<P.Outgoing>, jobs: map<uint32, D.Job>)
    requires Expands(z, slack) && FromJobs(os, jobs, slack) && Responding(os, jobs, slack)
    ensures P.AllTransportable(z, [], os)
  {
    hide Survives, AllModest, B.Begun, P.Ordered;
    assert 4 <= HeaderRoom(slack);
    forall i | 0 <= i < |os| ensures P.Ordered(os[i]) && Survives(os[i].frame, slack) {
      if !Survives(os[i].frame, slack) {
        JobFrameSurvives(os, i, jobs[os[i].frame.id], slack);
      }
    }
    AllSurvive(z, slack, [], os);
  }

  /** Any number of handlers, each making calls that ask for no more than the wire carries,
      their frames written in any interleaving: what a client's main loop makes of the bytes
      tells each receiver a beginning of its response, and all of it exactly when all of it
      was written and handled. */
  lemma ProgramsDeliver(z: P.Zlib, slack: nat, os: seq<P.Outgoing>, jobs: map<uint32, D.Job>, c: Conn,
                        choices: nat -> Choice, id: uint32)
    requires P.Lawful(z) && Expands(z, slack) && FromJobs(os, jobs, slack) && Responding(os, jobs, slack)
    requires id in jobs && Tidy(c) && !c.closed && Has(c, id, S.HALF_CLOSED_HERE)
    ensures forall i :: 0 <= i < |os| ==> P.Ordered(os[i])
    ensures B.Tells(os, c, O.ReadAll(c, z, P.Inflater([], []), P.Outbound(z, [], os), choices, 0),
                    Frames(c, O.Inputs(P.DeliveredAll(os), choices, 0)), id, jobs[id])
  {
    hide P.Lawful, Expands, Survives, AllModest, B.Begun, P.Ordered, P.AllTransportable, Tidy, B.Tells, O.ReadAll,
      P.Outbound, Frames, O.Inputs, P.DeliveredAll, Has;
    JobsTransport(z, slack, os, jobs);
    B.MainLoopDelivers(z, os, c, choices, id, jobs[id]);
  }

  // ------------------------------------------------------------------------- priorities

  /** The REQUEST that a move makes the server accept. */
  function Accepting(w: D.World, m: D.Move): Option<F> {
    if m.Up? && w.sys.up != [] && w.sys.up[0].Request?
       && Receive(w.sys.server, w.sys.up[0], m.choice).1 == Accepted
    then Some(w.sys.up[0])
    else None
  }

  /** The priorities of the requests accepted in a run, which newStream makes the channels
      of their streams. */
  function Priorities(w: D.World, moves: seq<D.Move>, known: map<uint32, nat>): map<uint32, nat>
    decreases moves
  {
    if moves == [] then known
    else
      var now := match Accepting(w, moves[0]) case None => known case Some(f) => known[f.id := f.priority];
      Priorities(D.Do(w, moves[0]), moves[1..], now)
  }

  ghost predicate ChannelsOf(priority: map<uint32, nat>, jobs: map<uint32, D.Job>) {
    priority.Keys == jobs.Keys && forall id :: id in priority ==> priority[id] < SL.LEVELS
  }

  lemma AcceptedPriority(c: Conn, f: F, choice: Choice)
    requires f.Request? && Receive(c, f, choice).1 == Accepted
    ensures f.priority <= 7
  {
    hide ProtocolError;
  }

  lemma JobsAfter(w: D.World, m: D.Move)
    ensures D.Do(w, m).jobs.Keys
         == w.jobs.Keys + match Accepting(w, m) case None => {} case Some(f) => {f.id}
  {
    hide Receive, D.Reply;
  }

  lemma {:induction false} PrioritiesAreChannels(w: D.World, moves: seq<D.Move>, known: map<uint32, nat>)
    requires ChannelsOf(known, w.jobs)
    ensures ChannelsOf(Priorities(w, moves, known), D.DoAll(w, moves).jobs)
    decreases moves
  {
    hide D.Do, Receive;
    if moves != [] {
      JobsAfter(w, moves[0]);
      var accepting := Accepting(w, moves[0]);
      if accepting.Some? {
        AcceptedPriority(w.sys.server, accepting.value, moves[0].choice);
      }
      var now := match accepting case None => known case Some(f) => known[f.id := f.priority];
      assert ChannelsOf(now, D.Do(w, moves[0]).jobs);
      PrioritiesAreChannels(D.Do(w, moves[0]), moves[1..], now);
    }
  }

  // ---------------------------------------------------------------------- the wire order

  /** Frames of accepted requests, and HEADERS and DATA of pushes. */
  ghost predicate OfStreams(wire: seq<F>, ids: set<uint32>) {
    forall i :: 0 <= i < |wire| ==>
      Demux.Streamed(wire[i]) && if Odd(wire[i].id) then wire[i].id in ids else !wire[i].Response?
  }

  lemma {:induction false} MovesComply(w: D.World, wire: seq<F>)
    requires OfStreams(wire, w.jobs.Keys)
    ensures Peace.AllCompliant(w, Moves(wire))
    decreases wire
  {
    hide D.Do;
    if wire != [] {
      var m := MoveOf(wire[0]);
      MoveComplies(w, wire[0]);
      assert Moves(wire)[0] == m && Moves(wire)[1..] == Moves(wire[1..]);
      SendingKeepsJobs(w, m);
      MovesComply(D.Do(w, m), wire[1..]);
    }
  }

  lemma MoveComplies(w: D.World, f: F)
    requires Demux.Streamed(f) && (!Odd(f.id) ==> !f.Response?)
    ensures Peace.Compliant(w, MoveOf(f))
  {
    hide P.HeaderBlock.Strip;
  }

  lemma SendingKeepsJobs(w: D.World, m: D.Move)
    requires m.Hand? || m.Pushed?
    ensures D.Do(w, m).jobs == w.jobs
  {
  }

  /** What a client at peace makes of the frames on the link: it handles every one. */
  lemma {:induction false} HandlesAll(w: D.World, choices: nat -> Choice, k: nat)
    requires Peace.Calm(w)
    ensures Frames(w.sys.client, O.Inputs(w.sys.down, choices, k)) == w.sys.down
    decreases |w.sys.down|
  {
    hide Receive, D.Inv, Peace.PingsFine, Peace.UpCalm, Peace.DownCalm;
    if w.sys.down != [] {
      var f, choice := w.sys.down[0], choices(k);
      var v := D.Do(w, D.Down(choice));
      Peace.DoKeepsCalm(w, D.Down(choice));
      D.NextDown(w.sys, choice);
      HandlesAll(v, choices, k + 1);
      var inputs, rest := O.Inputs(w.sys.down, choices, k), O.Inputs(w.sys.down[1..], choices, k + 1);
      assert inputs == [Inbound(f, choice)] + rest;
      assert inputs[1..] == rest && Step(w.sys.client, inputs[0]) == v.sys.client;
      assert w.sys.down == [f] + w.sys.down[1..];
    }
  }

  /** No response has been begun. */
  ghost predicate NoneBegun(w: D.World) {
    w.sys.down == [] && forall id :: id in w.jobs ==> id in w.pending && w.pending[id] == D.Reply(id, w.jobs[id])
  }

  /** Each stream has sent a beginning of what its handler emits, in order. */
  ghost predicate Submitting(actions: seq<SL.Action>, jobs: map<uint32, D.Job>) {
    forall id :: id in jobs ==>
      Project(Submitted(actions), id) <= SS.Emitted(id, jobs[id].flags, jobs[id].ops)
  }

  lemma WireArrives(w: D.World, actions: seq<SL.Action>, priority: map<uint32, nat>, id: uint32)
    requires NoneBegun(w) && id in w.jobs && Submitting(actions, w.jobs)
    requires ByRequest(actions, priority) && id in priority && AllWritten(SL.Run(SL.Begin(), actions).log)
    ensures D.Arrives(Project(SL.WireOf(SL.Run(SL.Begin(), actions).log), id)) <= w.pending[id]
  {
    hide SS.Emitted, Project, D.Arrives, SL.WireOf, SL.Run, AllWritten, SL.InHand;
    LoopKeepsOrder(actions, priority, id);
    var s := SL.Run(SL.Begin(), actions);
    FirstOfThree(Project(SL.WireOf(s.log), id), Project(SL.InHand(s), id), Project(s.waiting[priority[id]], id));
    ArrivesPrefix(Project(SL.WireOf(s.log), id), SS.Emitted(id, w.jobs[id].flags, w.jobs[id].ops));
  }

  lemma WireAdmissible(w: D.World, actions: seq<SL.Action>, priority: map<uint32, nat>)
    requires D.Inv(w) && NoneBegun(w) && Submitting(actions, w.jobs)
    requires ByRequest(actions, priority) && priority.Keys == w.jobs.Keys
    requires AllWritten(SL.Run(SL.Begin(), actions).log)
    requires OfStreams(SL.WireOf(SL.Run(SL.Begin(), actions).log), w.jobs.Keys)
    ensures Admissible(SL.WireOf(SL.Run(SL.Begin(), actions).log), w.pending)
  {
    hide Project, D.Arrives, SL.WireOf, SL.Run, AllWritten, D.Inv, Submitting, D.Reply, ByRequest;
    PendingIsOdd(w);
    PendingIsJobs(w);
    forall id | id in w.pending
      ensures Odd(id) && D.Arrives(Project(SL.WireOf(SL.Run(SL.Begin(), actions).log), id)) <= w.pending[id]
    {
      WireArrives(w, actions, priority, id);
    }
  }

  lemma PendingIsJobs(w: D.World)
    requires D.Inv(w)
    ensures w.pending.Keys == w.jobs.Keys
    ensures forall id :: id in w.jobs ==> Numbered(id)
  {
    hide D.Inv, D.AllOn, D.DownLink, Agree;
    D.InvMeans(w);
  }

  /** The frames on the link, once the loop's order has been followed. */
  lemma LoopReaches(w: D.World, actions: seq<SL.Action>, priority: map<uint32, nat>)
    requires Peace.Calm(w) && NoneBegun(w) && Submitting(actions, w.jobs)
    requires ByRequest(actions, priority) && priority.Keys == w.jobs.Keys
    requires AllWritten(SL.Run(SL.Begin(), actions).log)
    requires OfStreams(SL.WireOf(SL.Run(SL.Begin(), actions).log), w.jobs.Keys)
    ensures var wire := SL.WireOf(SL.Run(SL.Begin(), actions).log);
      var v := D.DoAll(w, Moves(wire));
      Peace.Calm(v) && v.sys.client == w.sys.client && v.sys.down == D.Arrives(wire)
  {
    hide D.Inv, NoneBegun, Submitting, ByRequest, AllWritten, OfStreams, SL.WireOf, SL.Run, Moves, Admissible,
      Peace.PingsFine, Peace.UpCalm, Peace.DownCalm, D.DoAll, D.Arrives;
    var wire := SL.WireOf(SL.Run(SL.Begin(), actions).log);
    WireAdmissible(w, actions, priority);
    OrderIsAdmitted(w, wire);
    MovesComply(w, wire);
    Peace.RunIsCalm(w, Moves(wire));
    NothingDown(w);
    assert [] + D.Arrives(wire) == D.Arrives(wire);
  }

  lemma NothingDown(w: D.World)
    requires NoneBegun(w)
    ensures w.sys.down == []
  {
  }

  // -------------------------------------------------------------------------- the theorem

  lemma {:induction false} DeliveredIsArrives(os: seq<P.Outgoing>)
    ensures P.DeliveredAll(os) == D.Arrives(B.Sending(os))
  {
    hide P.Delivered;
    if os != [] {
      DeliveredIsArrives(os[1..]);
      assert B.Sending(os)[1..] == B.Sending(os[1..]);
    }
  }

  /** The stream of a response that has not been begun. */
  lemma StreamIsOpen(w: D.World, id: uint32)
    requires Peace.Calm(w) && NoneBegun(w) && id in w.jobs
    ensures Tidy(w.sys.client) && Has(w.sys.client, id, S.HALF_CLOSED_HERE)
    ensures CallsOn(w.sys.client.calls, OfStream(id)) == []
  {
    hide D.Inv, D.Reply, Project, AllEffects, Tidy, CallsOn, Peace.PingsFine, Peace.UpCalm, Peace.DownCalm,
      D.UpLink, D.AllUntold;
    D.InvMeans(w);
    D.AgreeMeans(w.sys);
    D.InvTells(w);
    var whole := D.Reply(id, w.jobs[id]);
    D.ResponseIsWhole(id, w.jobs[id]);
    NothingProjected(id);
    assert D.Left(w, id) == whole by {
      assert [] + whole == whole;
    }
    assert D.Told(w.sys.client, id, whole, D.Left(w, id));
    assert whole[..0] == [];
    NoEffects();
  }

  lemma NoEffects()
    ensures AllEffects([]) == []
  {
  }

  /** What the send loop writes of a server's responses, compressed and framed, and what
      the client's main loop then tells the receivers: for any run of endpoints at peace,
      and any run of the loop in which every stream sends on the channel of its own
      request's priority and nothing is dropped. Each receiver is told a beginning of its
      response, and all of it if and only if its stream has sent all of it and none of that
      is left in the loop. */
  lemma LoopDelivers(hasReceiver: bool, clientSeed: uint32, serverSeed: uint32, moves: seq<D.Move>,
                     actions: seq<SL.Action>, z: P.Zlib, slack: nat, os: seq<P.Outgoing>, choices: nat -> Choice,
                     id: uint32)
    requires var start := D.Open(hasReceiver, clientSeed, serverSeed);
      && Peace.AllCompliant(start, moves)
      && NoneBegun(D.DoAll(start, moves)) && id in D.DoAll(start, moves).jobs
      && Submitting(actions, D.DoAll(start, moves).jobs)
      && ByRequest(actions, Priorities(start, moves, map[]))
      && OfStreams(B.Sending(os), D.DoAll(start, moves).jobs.Keys)
      && FromJobs(os, D.DoAll(start, moves).jobs, slack)
      && forall other :: other in D.DoAll(start, moves).jobs ==> AllModest(D.DoAll(start, moves).jobs[other].ops, slack)
    requires AllWritten(SL.Run(SL.Begin(), actions).log) && B.Sending(os) == SL.WireOf(SL.Run(SL.Begin(), actions).log)
    requires P.Lawful(z) && Expands(z, slack)
    ensures forall i :: 0 <= i < |os| ==> P.Ordered(os[i])
    ensures id in Priorities(D.Open(hasReceiver, clientSeed, serverSeed), moves, map[])
    ensures var w := D.DoAll(D.Open(hasReceiver, clientSeed, serverSeed), moves);
      var home := Priorities(D.Open(hasReceiver, clientSeed, serverSeed), moves, map[])[id];
      var d := O.ReadAll(w.sys.client, z, P.Inflater([], []), P.Outbound(z, [], os), choices, 0);
      home < SL.LEVELS && ToldAsSent(actions, home, id, w.jobs[id], CallsOn(d.calls, OfStream(id)))
  {
    hide D.Open, D.DoAll, Peace.AllCompliant, Peace.Calm, NoneBegun, Submitting, ByRequest, OfStreams, FromJobs,
      AllModest, AllWritten, SL.Run, SL.WireOf, P.Lawful, Expands, P.Ordered, Priorities, O.ReadAll, P.Outbound,
      ToldAsSent, CallsOn;
    var start := D.Open(hasReceiver, clientSeed, serverSeed);
    var w := D.DoAll(start, moves);
    var priority := Priorities(start, moves, map[]);
    Peace.OpenIsCalm(hasReceiver, clientSeed, serverSeed);
    Peace.RunIsCalm(start, moves);
    NoJobs(hasReceiver, clientSeed, serverSeed);
    PrioritiesAreChannels(start, moves, map[]);
    CalmLoopDelivers(w, priority, actions, z, slack, os, choices, id);
  }

  lemma NoJobs(hasReceiver: bool, clientSeed: uint32, serverSeed: uint32)
    ensures D.Open(hasReceiver, clientSeed, serverSeed).jobs == map[]
  {
  }

  ghost predicate ToldAsSent(actions: seq<SL.Action>, home: nat, id: uint32, job: D.Job, told: seq<Call>)
    requires home < SL.LEVELS
  {
    var s, whole := SL.Run(SL.Begin(), actions), AllEffects(D.Reply(id, job));
    && told <= whole
    && (told == whole <==>
          && Project(Submitted(actions), id) == SS.Emitted(id, job.flags, job.ops)
          && Project(SL.InHand(s), id) == [] && Project(s.waiting[home], id) == [])
    && (told == whole ==> D.BytesOf(told) == D.Written(id, job))
  }

  lemma CalmLoopDelivers(w: D.World, priority: map<uint32, nat>, actions: seq<SL.Action>, z: P.Zlib, slack: nat,
                         os: seq<P.Outgoing>, choices: nat -> Choice, id: uint32)
    requires Peace.Calm(w) && NoneBegun(w) && Submitting(actions, w.jobs) && id in w.jobs
    requires ByRequest(actions, priority) && ChannelsOf(priority, w.jobs)
    requires AllWritten(SL.Run(SL.Begin(), actions).log) && B.Sending(os) == SL.WireOf(SL.Run(SL.Begin(), actions).log)
    requires OfStreams(B.Sending(os), w.jobs.Keys) && FromJobs(os, w.jobs, slack)
    requires forall other :: other in w.jobs ==> AllModest(w.jobs[other].ops, slack)
    requires P.Lawful(z) && Expands(z, slack)
    ensures forall i :: 0 <= i < |os| ==> P.Ordered(os[i])
    ensures var d := O.ReadAll(w.sys.client, z, P.Inflater([], []), P.Outbound(z, [], os), choices, 0);
      ToldAsSent(actions, priority[id], id, w.jobs[id], CallsOn(d.calls, OfStream(id)))
  {
    hide Peace.Calm, NoneBegun, Submitting, ByRequest, OfStreams, AllModest, AllWritten, SL.Run, SL.WireOf, P.Lawful,
      Expands, P.Ordered, O.ReadAll, P.Outbound, ToldAsSent, CallsOn, Tidy, Has, B.Tells, B.Sending, Frames,
      O.Inputs, Responding, Moves, D.Arrives, D.DoAll, P.DeliveredAll;
    CalmIsOpen(w);
    JobsRespond(w, priority, actions, slack, os);
    StreamIsOpen(w, id);
    ProgramsDeliver(z, slack, os, w.jobs, w.sys.client, choices, id);
    LoopReaches(w, actions, priority);
    DeliveredIsArrives(os);
    HandlesAll(D.DoAll(w, Moves(B.Sending(os))), choices, 0);
    var d := O.ReadAll(w.sys.client, z, P.Inflater([], []), P.Outbound(z, [], os), choices, 0);
    TellsAll(w.sys.client, d, actions, priority, os, id, w.jobs[id]) by {
      SubmittingOne(actions, w.jobs, id);
    }
  }

  lemma CalmIsOpen(w: D.World)
    requires Peace.Calm(w)
    ensures D.Inv(w) && !w.sys.client.closed
  {
    hide D.Inv;
  }

  lemma SubmittingOne(actions: seq<SL.Action>, jobs: map<uint32, D.Job>, id: uint32)
    requires Submitting(actions, jobs) && id in jobs
    ensures Project(Submitted(actions), id) <= SS.Emitted(id, jobs[id].flags, jobs[id].ops)
  {
    hide Project, SS.Emitted;
  }

  lemma JobsRespond(w: D.World, priority: map<uint32, nat>, actions: seq<SL.Action>, slack: nat, os: seq<P.Outgoing>)
    requires D.Inv(w) && Submitting(actions, w.jobs)
    requires ByRequest(actions, priority) && ChannelsOf(priority, w.jobs)
    requires AllWritten(SL.Run(SL.Begin(), actions).log) && B.Sending(os) == SL.WireOf(SL.Run(SL.Begin(), actions).log)
    requires forall id :: id in w.jobs ==> AllModest(w.jobs[id].ops, slack)
    ensures Responding(os, w.jobs, slack)
  {
    hide D.Inv, Submitting, ByRequest, AllWritten, SL.Run, SL.WireOf, AllModest, B.Sending, Project, SS.Emitted,
      SL.InHand;
    PendingIsJobs(w);
    var s := SL.Run(SL.Begin(), actions);
    forall id | id in w.jobs ensures B.Begun(os, id, w.jobs[id]) {
      LoopKeepsOrder(actions, priority, id);
      SubmittingOne(actions, w.jobs, id);
      FirstOfThree(Project(SL.WireOf(s.log), id), Project(SL.InHand(s), id), Project(s.waiting[priority[id]], id));
    }
  }

  /** When every frame written was handled, what is told depends on what was written alone. */
  lemma TellsAll(c: Conn, d: Conn, actions: seq<SL.Action>, priority: map<uint32, nat>, os: seq<P.Outgoing>,
                 id: uint32, job: D.Job)
    requires B.Tells(os, c, d, P.DeliveredAll(os), id, job) && CallsOn(c.calls, OfStream(id)) == []
    requires Project(Submitted(actions), id) <= SS.Emitted(id, job.flags, job.ops)
    requires ByRequest(actions, priority) && id in priority
    requires AllWritten(SL.Run(SL.Begin(), actions).log) && B.Sending(os) == SL.WireOf(SL.Run(SL.Begin(), actions).log)
    ensures ToldAsSent(actions, priority[id], id, job, CallsOn(d.calls, OfStream(id)))
  {
    hide CallsOn, AllWritten, SL.Run, SL.WireOf, B.Sending, Project, SS.Emitted, SL.InHand, AllEffects, D.Reply, Seen,
      P.DeliveredAll, D.BytesOf, D.Written, Submitted;
    var s := SL.Run(SL.Begin(), actions);
    var told, whole := CallsOn(d.calls, OfStream(id)), AllEffects(D.Reply(id, job));
    LoopKeepsOrder(actions, priority, id);
    D.Outcome(id, job);
    assert [] + whole == whole;
    assert os[..|os|] == os;
    OfThree(Project(SL.WireOf(s.log), id), Project(SL.InHand(s), id), Project(s.waiting[priority[id]], id),
            SS.Emitted(id, job.flags, job.ops));
  }

  lemma OfThree<T>(a: seq<T>, b: seq<T>, c: seq<T>, whole: seq<T>)
    requires a + b + c <= whole
    ensures a == whole <==> a + b + c == whole && b == [] && c == []
  {
  }
}
