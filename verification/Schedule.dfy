// The send loop under the two endpoints: what a loop puts on the wire, with the frames
// of each response on the channel of its request's priority, is an interleaving that the
// model of the two endpoints admits.

module Schedule {
  import opened Protocol
  import SL = SendLoop
  import P = Pipeline
  import opened Endpoints
  import Demux
  import D = Delivery

  type F = SL.F

  /** The frames that streams sent on the channels, in order. */
  function Submitted(actions: seq<SL.Action>): (fs: seq<F>) {
    if actions == [] then []
    else
      (if actions[0].Submit? && actions[0].level < SL.LEVELS then [actions[0].frame] else [])
      + Submitted(actions[1..])
  }

  /** Frames of streams, as opposed to those of the connection itself. */
  function Streams(fs: seq<F>): (r: seq<F>) {
    if fs == [] then [] else (if Demux.Streamed(fs[0]) then [fs[0]] else []) + Streams(fs[1..])
  }

  /** Each stream's frames go to the channel of its priority, as newStream arranges. */
  ghost predicate ByRequest(actions: seq<SL.Action>, priority: map<uint32, nat>) {
    && (forall id :: id in priority ==> priority[id] < SL.LEVELS)
    && forall i :: 0 <= i < |actions| && actions[i].Submit? && Demux.Streamed(actions[i].frame) ==>
         actions[i].frame.id in priority ==> actions[i].level == priority[actions[i].frame.id]
  }

  ghost predicate AllWritten(log: seq<SL.Outcome>) {
    forall k :: 0 <= k < |log| ==> log[k].result == SL.Written
  }

  /** Each stream has sent a beginning of what it has to send, in order. */
  ghost predicate InOrder(sent: seq<F>, pending: map<uint32, seq<F>>) {
    forall id :: id in pending ==> D.Arrives(Project(sent, id)) <= pending[id]
  }

  /** Of the request streams, only the given ones have frames. */
  ghost predicate OnlyOf(fs: seq<F>, ids: set<uint32>) {
    forall f :: f in fs && Demux.Streamed(f) && Odd(f.id) ==> f.id in ids
  }

  // --------------------------------------------------------------------- the channels

  lemma SubmitOne(s: SL.Loop, level: nat, f: F, id: uint32, home: nat)
    requires SL.Sized(s) && home < SL.LEVELS
    requires level < SL.LEVELS && (OnStream(f, id) ==> level == home)
    ensures var t := SL.Step(s, SL.Submit(level, f));
      Project(t.submitted[home], id) == Project(s.submitted[home], id) + if OnStream(f, id) then [f] else []
  {
    hide Project, OnStream;
    var was := s.submitted[home];
    SubmitsOn(s, level, f, home);
    ProjectAppend(was, [f], id);
    ProjectSingle(f, id);
    assert Project(was, id) + [] == Project(was, id);
  }

  lemma SubmitsOn(s: SL.Loop, level: nat, f: F, home: nat)
    requires SL.Sized(s) && home < SL.LEVELS && level < SL.LEVELS
    ensures SL.Step(s, SL.Submit(level, f)).submitted[home]
         == if level == home then s.submitted[home] + [f] else s.submitted[home]
  {
  }

  lemma ProjectSingle(f: F, id: uint32)
    ensures Project([f], id) == if OnStream(f, id) then [f] else []
  {
    assert Project([f][1..], id) == [];
  }

  lemma OtherStep(s: SL.Loop, a: SL.Action)
    requires SL.Sized(s) && !(a.Submit? && a.level < SL.LEVELS)
    ensures SL.Step(s, a).submitted == s.submitted
  {
  }

  /** What has been sent on a stream's channel is what the stream has sent. */
  lemma {:induction false} HomeHasAll(s: SL.Loop, actions: seq<SL.Action>, id: uint32, home: nat)
    requires SL.Sized(s) && home < SL.LEVELS && SL.Homed(s, id, home)
    requires forall i :: 0 <= i < |actions| && actions[i].Submit? && OnStream(actions[i].frame, id) ==>
      actions[i].level == home
    ensures var t := SL.Run(s, actions);
      && SL.Homed(t, id, home)
      && Project(t.submitted[home], id) == Project(s.submitted[home], id) + Project(Submitted(actions), id)
    decreases actions
  {
    hide Project, SL.Step, SL.Homed;
    var was := Project(s.submitted[home], id);
    if actions == [] {
      NothingProjected(id);
      assert was + [] == was;
    } else {
      var a, rest := actions[0], actions[1..];
      var now := if a.Submit? && a.level < SL.LEVELS then [a.frame] else [];
      HomedStays(s, a, id, home);
      HomeHasAll(SL.Step(s, a), rest, id, home);
      ProjectAppend(now, Submitted(rest), id);
      if a.Submit? && a.level < SL.LEVELS {
        SubmitOne(s, a.level, a.frame, id, home);
        ProjectSingle(a.frame, id);
      } else {
        OtherStep(s, a);
        NothingProjected(id);
        assert was + [] == was;
      }
      assert was + Project(now, id) + Project(Submitted(rest), id)
          == was + (Project(now, id) + Project(Submitted(rest), id));
    }
  }

  lemma NothingProjected(id: uint32)
    ensures Project<Header>([], id) == []
  {
  }

  lemma HomedStays(s: SL.Loop, a: SL.Action, id: uint32, home: nat)
    requires SL.Sized(s) && SL.Homed(s, id, home)
    requires a.Submit? && OnStream(a.frame, id) ==> a.level == home
    ensures SL.Homed(SL.Step(s, a), id, home)
  {
  }

  // ------------------------------------------------------------------------ the moves

  /** The moves that put stream frames on the link in a given order. */
  function MoveOf(f: F): D.Move {
    if Demux.Streamed(f) && Odd(f.id) then D.Hand(f.id) else D.Pushed(P.Delivered(f))
  }

  function Moves(wire: seq<F>): (moves: seq<D.Move>) {
    if wire == [] then [] else [MoveOf(wire[0])] + Moves(wire[1..])
  }

  ghost predicate Sendable(wire: seq<F>, pending: map<uint32, seq<F>>) {
    forall i :: 0 <= i < |wire| ==> Demux.Streamed(wire[i]) && (Odd(wire[i].id) ==> wire[i].id in pending)
  }

  ghost predicate Admissible(wire: seq<F>, pending: map<uint32, seq<F>>) {
    Sendable(wire, pending) && forall id :: id in pending ==> Odd(id) && D.Arrives(Project(wire, id)) <= pending[id]
  }

  lemma ArrivesCons(f: F, rest: seq<F>)
    ensures D.Arrives([f] + rest) == [P.Delivered(f)] + D.Arrives(rest)
  {
    assert ([f] + rest)[1..] == rest;
  }

  lemma DeliveredStays(f: F)
    requires Demux.Streamed(f)
    ensures Demux.Streamed(P.Delivered(f)) && P.Delivered(f).id == f.id
  {
    hide P.HeaderBlock.Strip;
  }

  /** What is left to send of each response after a frame. */
  function After(f: F, pending: map<uint32, seq<F>>): map<uint32, seq<F>> {
    if Demux.Streamed(f) && Odd(f.id) && f.id in pending && pending[f.id] != [] then
      pending[f.id := pending[f.id][1..]]
    else pending
  }

  lemma MoveSends(w: D.World, f: F)
    requires !w.sys.server.closed && Demux.Streamed(f)
    requires Odd(f.id) ==> f.id in w.pending && w.pending[f.id] != [] && w.pending[f.id][0] == P.Delivered(f)
    ensures D.Do(w, MoveOf(f))
         == w.(sys := w.sys.(down := w.sys.down + [P.Delivered(f)]), pending := After(f, w.pending))
  {
    hide P.Delivered, Next;
    DeliveredStays(f);
    D.NextServerFrame(w.sys, P.Delivered(f));
  }

  lemma RestAdmissible(wire: seq<F>, pending: map<uint32, seq<F>>)
    requires Admissible(wire, pending) && wire != []
    ensures Admissible(wire[1..], After(wire[0], pending))
    ensures var f := wire[0];
      && Demux.Streamed(f)
      && (Odd(f.id) ==> f.id in pending && pending[f.id] != [] && pending[f.id][0] == P.Delivered(f))
  {
    hide Project, P.Delivered, D.Arrives;
    var f, rest, after := wire[0], wire[1..], After(wire[0], pending);
    if Odd(f.id) {
      HeadAtHand(wire, pending[f.id]);
    }
    assert forall id :: id in after <==> id in pending;
    forall id | id in after ensures Odd(id) && D.Arrives(Project(rest, id)) <= after[id] {
      RestAtHand(wire, id, pending[id]);
      assert after[id] == if Odd(f.id) && f.id == id then pending[id][1..] else pending[id];
    }
    forall i | 0 <= i < |rest| ensures Demux.Streamed(rest[i]) && (Odd(rest[i].id) ==> rest[i].id in after) {
      assert rest[i] == wire[i + 1];
    }
  }

  lemma HeadAtHand(wire: seq<F>, pending: seq<F>)
    requires wire != [] && Demux.Streamed(wire[0])
    requires D.Arrives(Project(wire, wire[0].id)) <= pending
    ensures pending != [] && pending[0] == P.Delivered(wire[0])
  {
    hide P.Delivered;
    D.ProjectHead(wire, wire[0].id);
    ArrivesCons(wire[0], Project(wire[1..], wire[0].id));
  }

  lemma RestAtHand(wire: seq<F>, id: uint32, pending: seq<F>)
    requires wire != [] && Demux.Streamed(wire[0]) && D.Arrives(Project(wire, id)) <= pending
    ensures wire[0].id == id ==> pending != [] && D.Arrives(Project(wire[1..], id)) <= pending[1..]
    ensures wire[0].id != id ==> D.Arrives(Project(wire[1..], id)) <= pending
  {
    hide P.Delivered, D.Arrives, Project;
    D.ProjectHead(wire, id);
    if wire[0].id == id {
      ArrivesCons(wire[0], Project(wire[1..], id));
      TailPrefix(P.Delivered(wire[0]), D.Arrives(Project(wire[1..], id)), pending);
    }
  }

  lemma TailPrefix<T>(x: T, a: seq<T>, b: seq<T>)
    requires [x] + a <= b
    ensures b != [] && a <= b[1..]
  {
    assert b[1..][..|a|] == b[..|a| + 1][1..] == a;
  }

  /** Any order in which each response keeps its own is an order of moves. */
  lemma {:induction false} OrderIsAdmitted(w: D.World, wire: seq<F>)
    requires !w.sys.server.closed && Admissible(wire, w.pending)
    ensures D.DoAll(w, Moves(wire)).sys == w.sys.(down := w.sys.down + D.Arrives(wire))
    decreases wire
  {
    hide D.Do, D.Arrives, P.Delivered, Admissible, After, MoveOf;
    if wire == [] {
      NothingArrives();
      assert w.sys.down + [] == w.sys.down;
    } else {
      var f, rest := wire[0], wire[1..];
      var v := D.Do(w, MoveOf(f));
      RestAdmissible(wire, w.pending);
      MoveSends(w, f);
      OrderIsAdmitted(v, rest);
      assert wire == [f] + rest;
      ArrivesCons(f, rest);
      assert Moves(wire)[0] == MoveOf(f) && Moves(wire)[1..] == Moves(rest);
      Joined(w.sys.down, P.Delivered(f), D.Arrives(rest));
    }
  }

  lemma NothingArrives()
    ensures D.Arrives([]) == []
  {
  }

  lemma Joined<T>(a: seq<T>, x: T, b: seq<T>)
    ensures a + [x] + b == a + ([x] + b)
  {
  }

  // -------------------------------------------------------------------- the loop's order

  lemma {:induction false} StreamsProject(fs: seq<F>, id: uint32)
    ensures Project(Streams(fs), id) == Project(fs, id)
  {
    if fs != [] {
      StreamsProject(fs[1..], id);
      if Demux.Streamed(fs[0]) {
        assert ([fs[0]] + Streams(fs[1..]))[1..] == Streams(fs[1..]);
      } else {
        assert [] + Streams(fs[1..]) == Streams(fs[1..]);
      }
    }
  }

  lemma {:induction false} StreamsAre(fs: seq<F>)
    ensures forall i :: 0 <= i < |Streams(fs)| ==> Demux.Streamed(Streams(fs)[i]) && Streams(fs)[i] in fs
  {
    if fs != [] {
      StreamsAre(fs[1..]);
      var first := if Demux.Streamed(fs[0]) then [fs[0]] else [];
      assert forall f | f in fs[1..] :: f in fs;
      assert fs[0] in fs;
      forall i | 0 <= i < |Streams(fs)| ensures Demux.Streamed(Streams(fs)[i]) && Streams(fs)[i] in fs {
        if i >= |first| {
          assert Streams(fs)[i] == Streams(fs[1..])[i - |first|];
        }
      }
    }
  }

  /** In every run of the loop in which nothing is dropped, what a stream has on the wire,
      in hand and on the channel of its priority is what it has sent, in its order. */
  lemma LoopKeepsOrder(actions: seq<SL.Action>, priority: map<uint32, nat>, id: uint32)
    requires ByRequest(actions, priority) && id in priority
    requires AllWritten(SL.Run(SL.Begin(), actions).log)
    ensures var s := SL.Run(SL.Begin(), actions);
      Project(SL.WireOf(s.log), id) + Project(SL.InHand(s), id) + Project(s.waiting[priority[id]], id)
        == Project(Submitted(actions), id)
  {
    hide SL.Run, SL.WireOf, SL.Inv, SL.Homed, SL.InHand, Project;
    var s, home := SL.Run(SL.Begin(), actions), priority[id];
    SL.BeginInv();
    SL.RunKeepsInv(SL.Begin(), actions);
    BeginHomed(id, home);
    HomeHasAll(SL.Begin(), actions, id, home);
    SL.WireOrder(s, id, home);
    NothingProjected(id);
    assert [] + Project(Submitted(actions), id) == Project(Submitted(actions), id);
  }

  /** Every run of the loop in which nothing is dropped: if each stream sends frames of its
      response in order, on the channel of its priority, then the stream frames on the wire
      are in an order that the two endpoints' model admits. */
  lemma LoopIsAdmitted(w: D.World, actions: seq<SL.Action>, priority: map<uint32, nat>)
    requires D.Inv(w) && !w.sys.server.closed
    requires ByRequest(actions, priority) && w.pending.Keys <= priority.Keys
    requires InOrder(Submitted(actions), w.pending)
    requires AllWritten(SL.Run(SL.Begin(), actions).log)
    requires OnlyOf(SL.WireOf(SL.Run(SL.Begin(), actions).log), w.pending.Keys)
    ensures var wire := Streams(SL.WireOf(SL.Run(SL.Begin(), actions).log));
      D.DoAll(w, Moves(wire)).sys == w.sys.(down := w.sys.down + D.Arrives(wire))
  {
    hide D.Inv, SL.Run, SL.WireOf, SL.Inv, SL.InHand, Project, D.Arrives, Streams, Moves, D.DoAll, AllWritten;
    var s := SL.Run(SL.Begin(), actions);
    var wire := Streams(SL.WireOf(s.log));
    StreamsAre(SL.WireOf(s.log));
    PendingIsOdd(w);
    forall id | id in w.pending ensures D.Arrives(Project(wire, id)) <= w.pending[id] {
      LoopKeepsOrder(actions, priority, id);
      StreamsProject(SL.WireOf(s.log), id);
      FirstOfThree(Project(wire, id), Project(SL.InHand(s), id), Project(s.waiting[priority[id]], id));
      ArrivesPrefix(Project(wire, id), Project(Submitted(actions), id));
    }
    OrderIsAdmitted(w, wire);
  }

  lemma PendingIsOdd(w: D.World)
    requires D.Inv(w)
    ensures forall id :: id in w.pending ==> Odd(id)
  {
    D.InvMeans(w);
    hide D.Inv;
  }

  lemma FirstOfThree<T>(a: seq<T>, b: seq<T>, c: seq<T>)
    ensures a <= a + b + c
  {
  }

  lemma BeginHomed(id: uint32, home: nat)
    ensures SL.Homed(SL.Begin(), id, home) && SL.Begin().submitted == seq(SL.LEVELS, _ => [])
  {
  }

  lemma {:induction false} ArrivesPrefix(a: seq<F>, b: seq<F>)
    requires a <= b
    ensures D.Arrives(a) <= D.Arrives(b)
  {
    hide P.Delivered;
    if a != [] {
      assert a[1..] <= b[1..];
      ArrivesPrefix(a[1..], b[1..]);
    }
  }
}
