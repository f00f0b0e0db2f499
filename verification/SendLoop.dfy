// The send loop of conn.go: eight output channels on which senders wait until the loop
// takes their frame, a scan in priority order, and the handshake that closes.

module SendLoop {
  import opened Protocol

  type F = Frame<Header>

  const LEVELS := 8

  /** Where the loop is: at the top of selectFrameToSend, about to try a channel, in
      the final select, with a frame in hand, or over, having closed `sending` or not. */
  datatype Place = Top | Polling(level: nat) | Waiting | Holding(frame: F) | Over(drained: bool)

  /** What the loop observes of the channels. */
  datatype Event = Empty(level: nat) | Take(level: nat, frame: F) | Woken(level: nat, frame: F)

  datatype Result = Written | CompressFailed | WriteFailed

  datatype Outcome = Outcome(frame: F, result: Result)

  /** `waiting`: the frames of the senders blocked on each channel, in order; `submitted`:
      all that were ever sent on it. `asked`: Close waits for `sending`. */
  datatype Loop = Loop(
    at: Place,
    waiting: seq<seq<F>>,
    submitted: seq<seq<F>>,
    events: seq<Event>,
    log: seq<Outcome>,
    asked: bool,
    stopped: bool)

  datatype Action =
    | Submit(level: nat, frame: F)
    | Proceed
    | Wake(level: nat)
    | Finish(result: Result)
    | AskClose
    | Stop

  function Begin(): Loop {
    Loop(Top, seq(LEVELS, _ => []), seq(LEVELS, _ => []), [], [], false, false)
  }

  predicate Sized(s: Loop) {
    |s.waiting| == LEVELS && |s.submitted| == LEVELS && (s.at.Polling? ==> s.at.level <= LEVELS)
  }

  function Taking(s: Loop, level: nat, e: Event): Loop
    requires Sized(s) && level < LEVELS && s.waiting[level] != []
  {
    s.(at := Holding(s.waiting[level][0]),
       waiting := s.waiting[level := s.waiting[level][1..]],
       events := s.events + [e])
  }

  function Step(s: Loop, a: Action): (t: Loop)
    requires Sized(s)
    ensures Sized(t)
  {
    match a
    case Submit(level, f) =>
      if level >= LEVELS then s
      else
        s.(waiting := s.waiting[level := s.waiting[level] + [f]],
           submitted := s.submitted[level := s.submitted[level] + [f]])
    case Proceed =>
      (match s.at
       case Top => s.(at := if s.stopped then Over(false) else Polling(0))
       case Polling(level) =>
         if level == LEVELS then s.(at := if s.asked then Over(true) else Waiting)
         else if s.waiting[level] != [] then Taking(s, level, Take(level, s.waiting[level][0]))
         else s.(at := Polling(level + 1), events := s.events + [Empty(level)])
       case Waiting => if s.stopped then s.(at := Over(false)) else s
       case _ => s)
    case Wake(level) =>
      if s.at.Waiting? && level < LEVELS && s.waiting[level] != [] then
        Taking(s, level, Woken(level, s.waiting[level][0]))
      else s
    case Finish(result) =>
      if s.at.Holding? then
        s.(at := if result == WriteFailed then Over(false) else Top,
           log := s.log + [Outcome(s.at.frame, result)])
      else s
    case AskClose => s.(asked := true)
    case Stop => s.(stopped := true)
  }

  function Run(s: Loop, actions: seq<Action>): (t: Loop)
    requires Sized(s)
    ensures Sized(t)
    decreases actions
  {
    if actions == [] then s else Run(Step(s, actions[0]), actions[1..])
  }

  // --------------------------------------------------------------------- readings

  /** The frames handed to the loop, in order; those from one channel; and what became
      of them. */
  function Handed(es: seq<Event>): (fs: seq<F>) {
    if es == [] then [] else (if es[0].Empty? then [] else [es[0].frame]) + Handed(es[1..])
  }

  function HandedFrom(es: seq<Event>, level: nat): (fs: seq<F>) {
    if es == [] then []
    else (if !es[0].Empty? && es[0].level == level then [es[0].frame] else []) + HandedFrom(es[1..], level)
  }

  function Frames(log: seq<Outcome>): (fs: seq<F>) {
    if log == [] then [] else [log[0].frame] + Frames(log[1..])
  }

  function InHand(s: Loop): (fs: seq<F>) {
    if s.at.Holding? then [s.at.frame] else []
  }

  lemma {:induction false} HandedSnoc(es: seq<Event>, e: Event)
    ensures Handed(es + [e]) == Handed(es) + if e.Empty? then [] else [e.frame]
  {
    var last := if e.Empty? then [] else [e.frame];
    if es == [] {
      assert [e][1..] == [];
    } else {
      var head := if es[0].Empty? then [] else [es[0].frame];
      assert (es + [e])[1..] == es[1..] + [e];
      HandedSnoc(es[1..], e);
      assert head + (Handed(es[1..]) + last) == head + Handed(es[1..]) + last;
    }
  }

  lemma {:induction false} HandedFromSnoc(es: seq<Event>, e: Event, level: nat)
    ensures HandedFrom(es + [e], level)
         == HandedFrom(es, level) + if !e.Empty? && e.level == level then [e.frame] else []
  {
    var last := if !e.Empty? && e.level == level then [e.frame] else [];
    if es == [] {
      assert [e][1..] == [];
    } else {
      var head := if !es[0].Empty? && es[0].level == level then [es[0].frame] else [];
      assert (es + [e])[1..] == es[1..] + [e];
      HandedFromSnoc(es[1..], e, level);
      assert head + (HandedFrom(es[1..], level) + last) == head + HandedFrom(es[1..], level) + last;
    }
  }

  lemma {:induction false} FramesSnoc(log: seq<Outcome>, o: Outcome)
    ensures Frames(log + [o]) == Frames(log) + [o.frame]
  {
    if log == [] {
      assert [o][1..] == [];
    } else {
      assert (log + [o])[1..] == log[1..] + [o];
      FramesSnoc(log[1..], o);
    }
  }

  // ------------------------------------------------------------------- invariants

  /** Conservation: what was handed over was written or dropped, in order, but for at
      most the frame in hand. */
  ghost predicate Conserved(s: Loop) {
    Handed(s.events) == Frames(s.log) + InHand(s)
  }

  /** Each channel is first in, first out. */
  ghost predicate InOrder(s: Loop)
    requires Sized(s)
  {
    forall level :: 0 <= level < LEVELS ==>
      s.submitted[level] == HandedFrom(s.events, level) + s.waiting[level]
  }

  /** The last n events are the channels below n, found empty one after another. */
  ghost predicate Scanned(es: seq<Event>, n: nat) {
    n <= |es| && forall j :: 0 <= j < n ==> es[|es| - n + j] == Empty(j)
  }

  /** Before each frame taken from a channel, the same scan found every channel below it
      empty, and before each frame waited for, all of them. */
  ghost predicate ByPriority(es: seq<Event>) {
    forall k :: 0 <= k < |es| && !es[k].Empty? ==>
      Scanned(es[..k], if es[k].Take? then es[k].level else LEVELS)
  }

  ghost predicate LevelsKnown(es: seq<Event>) {
    forall k :: 0 <= k < |es| && !es[k].Empty? ==> es[k].level < LEVELS
  }

  ghost predicate WellPlaced(s: Loop) {
    match s.at
    case Polling(level) => Scanned(s.events, level)
    case Waiting => Scanned(s.events, LEVELS)
    case Over(drained) => drained ==> Scanned(s.events, LEVELS)
    case _ => true
  }

  ghost predicate Inv(s: Loop) {
    Sized(s) && Conserved(s) && InOrder(s) && ByPriority(s.events) && LevelsKnown(s.events) && WellPlaced(s)
  }

  lemma BeginInv()
    ensures Inv(Begin())
  {
  }

  lemma TakingKeepsInv(s: Loop, level: nat, e: Event)
    requires Inv(s) && level < LEVELS && s.waiting[level] != [] && !s.at.Holding?
    requires e == Take(level, s.waiting[level][0]) || e == Woken(level, s.waiting[level][0])
    requires Scanned(s.events, if e.Take? then level else LEVELS)
    ensures Inv(Taking(s, level, e))
  {
    hide Handed, HandedFrom, Frames, Scanned, ByPriority, LevelsKnown;
    var t := Taking(s, level, e);
    HandedSnoc(s.events, e);
    assert Frames(s.log) + [] == Frames(s.log);
    forall l | 0 <= l < LEVELS
      ensures t.submitted[l] == HandedFrom(t.events, l) + t.waiting[l]
    {
      HandedFromSnoc(s.events, e, l);
      TakenFirst(HandedFrom(s.events, l), s.waiting[l]);
    }
    PrioritySnoc(s.events, e);
    LevelsSnoc(s.events, e);
  }

  lemma TakenFirst<T>(a: seq<T>, b: seq<T>)
    ensures b != [] ==> a + [b[0]] + b[1..] == a + b
    ensures a + [] + b == a + b
  {
  }

  lemma PrioritySnoc(es: seq<Event>, e: Event)
    requires ByPriority(es)
    requires e.Empty? || Scanned(es, if e.Take? then e.level else LEVELS)
    ensures ByPriority(es + [e])
  {
    forall k | 0 <= k < |es + [e]| && !(es + [e])[k].Empty?
      ensures Scanned((es + [e])[..k], if (es + [e])[k].Take? then (es + [e])[k].level else LEVELS)
    {
      assert (es + [e])[..k] == es[..k];
      assert es[..|es|] == es;
    }
    hide Scanned;
  }

  /** An observation of no frame changes what was handed over of no channel. */
  lemma EmptyHandsNothing(es: seq<Event>, e: Event)
    requires e.Empty?
    ensures Handed(es + [e]) == Handed(es)
    ensures forall l: nat :: HandedFrom(es + [e], l) == HandedFrom(es, l)
  {
    hide Handed, HandedFrom;
    HandedSnoc(es, e);
    assert Handed(es) + [] == Handed(es);
    forall l: nat ensures HandedFrom(es + [e], l) == HandedFrom(es, l) {
      HandedFromSnoc(es, e, l);
      assert HandedFrom(es, l) + [] == HandedFrom(es, l);
    }
  }

  lemma ScannedSnoc(es: seq<Event>, n: nat)
    requires Scanned(es, n)
    ensures Scanned(es + [Empty(n)], n + 1)
  {
  }

  lemma LevelsSnoc(es: seq<Event>, e: Event)
    requires LevelsKnown(es) && (e.Empty? || e.level < LEVELS)
    ensures LevelsKnown(es + [e])
  {
  }

  lemma EmptyKeepsInv(s: Loop)
    requires Inv(s) && s.at.Polling? && s.at.level < LEVELS && s.waiting[s.at.level] == []
    ensures Inv(Step(s, Proceed))
  {
    hide Handed, HandedFrom, Frames, ByPriority, Scanned, LevelsKnown;
    EmptyHandsNothing(s.events, Empty(s.at.level));
    PrioritySnoc(s.events, Empty(s.at.level));
    ScannedSnoc(s.events, s.at.level);
    LevelsSnoc(s.events, Empty(s.at.level));
  }

  lemma SubmitKeepsInv(s: Loop, level: nat, f: F)
    requires Inv(s)
    ensures Inv(Step(s, Submit(level, f)))
  {
    hide Handed, HandedFrom, Frames, ByPriority, Scanned, LevelsKnown;
    if level < LEVELS {
      var t := Step(s, Submit(level, f));
      forall l | 0 <= l < LEVELS
        ensures t.submitted[l] == HandedFrom(t.events, l) + t.waiting[l]
      {
        if l == level {
          assert HandedFrom(s.events, l) + s.waiting[l] + [f] == HandedFrom(s.events, l) + (s.waiting[l] + [f]);
        }
      }
    }
  }

  lemma FinishKeepsInv(s: Loop, result: Result)
    requires Inv(s)
    ensures Inv(Step(s, Finish(result)))
  {
    hide Handed, HandedFrom, Frames, ByPriority, Scanned, LevelsKnown;
    if s.at.Holding? {
      FramesSnoc(s.log, Outcome(s.at.frame, result));
      assert Frames(s.log) + [s.at.frame] + [] == Frames(s.log) + [s.at.frame];
    }
  }

  /** Turns that neither take a frame nor find a channel empty. */
  lemma TurnKeepsInv(s: Loop)
    requires Inv(s) && !(s.at.Polling? && s.at.level < LEVELS)
    ensures Inv(Step(s, Proceed))
  {
    hide Handed, HandedFrom, Frames, ByPriority, LevelsKnown;
  }

  lemma ProceedKeepsInv(s: Loop)
    requires Inv(s)
    ensures Inv(Step(s, Proceed))
  {
    hide Inv;
    InvSized(s);
    if s.at.Polling? && s.at.level < LEVELS {
      if s.waiting[s.at.level] != [] {
        InvScanned(s);
        TakingKeepsInv(s, s.at.level, Take(s.at.level, s.waiting[s.at.level][0]));
      } else {
        EmptyKeepsInv(s);
      }
    } else {
      TurnKeepsInv(s);
    }
  }

  lemma InvScanned(s: Loop)
    requires Inv(s)
    ensures s.at.Polling? ==> Scanned(s.events, s.at.level)
    ensures s.at.Waiting? ==> Scanned(s.events, LEVELS)
  {
    hide Scanned;
  }

  lemma WakeKeepsInv(s: Loop, level: nat)
    requires Inv(s)
    ensures Inv(Step(s, Wake(level)))
  {
    hide Inv;
    InvSized(s);
    if s.at.Waiting? && level < LEVELS && s.waiting[level] != [] {
      InvScanned(s);
      TakingKeepsInv(s, level, Woken(level, s.waiting[level][0]));
    }
  }

  lemma CloseKeepsInv(s: Loop)
    requires Inv(s)
    ensures Inv(Step(s, AskClose)) && Inv(Step(s, Stop))
  {
    hide Handed, HandedFrom, Frames, ByPriority, Scanned, LevelsKnown;
  }

  lemma StepKeepsInv(s: Loop, a: Action)
    requires Inv(s)
    ensures Sized(s) && Inv(Step(s, a))
  {
    hide Inv, Step;
    InvSized(s);
    match a
    case Submit(level, f) => SubmitKeepsInv(s, level, f);
    case Proceed => ProceedKeepsInv(s);
    case Wake(level) => WakeKeepsInv(s, level);
    case Finish(result) => FinishKeepsInv(s, result);
    case AskClose => CloseKeepsInv(s);
    case Stop => CloseKeepsInv(s);
  }

  /** All of it, in every run. */
  lemma {:induction false} RunKeepsInv(s: Loop, actions: seq<Action>)
    requires Inv(s)
    ensures Inv(Run(s, actions))
    decreases actions
  {
    hide Step, Inv;
    if actions != [] {
      StepKeepsInv(s, actions[0]);
      InvSized(s);
      RunKeepsInv(Step(s, actions[0]), actions[1..]);
    }
  }

  lemma InvSized(s: Loop)
    requires Inv(s)
    ensures Sized(s)
  {
  }

  /** The frames that reached the connection. */
  function WireOf(log: seq<Outcome>): (fs: seq<F>) {
    if log == [] then [] else (if log[0].result == Written then [log[0].frame] else []) + WireOf(log[1..])
  }

  lemma {:induction false} WireSnoc(log: seq<Outcome>, o: Outcome)
    ensures WireOf(log + [o]) == WireOf(log) + if o.result == Written then [o.frame] else []
  {
    var last := if o.result == Written then [o.frame] else [];
    if log == [] {
      assert [o][1..] == [];
    } else {
      var head := if log[0].result == Written then [log[0].frame] else [];
      assert (log + [o])[1..] == log[1..] + [o];
      WireSnoc(log[1..], o);
      assert head + (WireOf(log[1..]) + last) == head + WireOf(log[1..]) + last;
    }
  }

  /** Nothing dropped: the wire has all that was dealt with. */
  lemma {:induction false} WireIsWhole(log: seq<Outcome>)
    ensures WireOf(log) == Frames(log) <==> forall k :: 0 <= k < |log| ==> log[k].result == Written
    ensures |WireOf(log)| <= |Frames(log)|
  {
    if log != [] {
      WireIsWhole(log[1..]);
      var rest := WireOf(log[1..]);
      assert [log[0].frame] + rest == Frames(log) <==> rest == Frames(log[1..]) by {
        assert ([log[0].frame] + rest)[1..] == rest && Frames(log)[1..] == Frames(log[1..]);
      }
      assert (forall k :: 0 <= k < |log| ==> log[k].result == Written)
        <==> log[0].result == Written && forall k :: 0 <= k < |log[1..]| ==> log[1..][k].result == Written by {
        assert forall k :: 0 < k < |log| ==> log[k] == log[1..][k - 1];
      }
      assert |Frames(log)| == |Frames(log[1..])| + 1;
    }
  }

  // ----------------------------------------------------------------- consequences

  /** When `sending` is closed there is no frame in hand: all that was handed over has
      been written or dropped, and the last scan found every channel empty. */
  lemma DrainedMeans(s: Loop)
    requires Inv(s) && s.at == Over(true)
    ensures Handed(s.events) == Frames(s.log) && Scanned(s.events, LEVELS)
  {
    assert Frames(s.log) + [] == Frames(s.log);
  }

  /** And nothing is handed over any more. */
  lemma {:induction false} OverIsFinal(s: Loop, actions: seq<Action>)
    requires Sized(s) && s.at.Over?
    ensures var t := Run(s, actions); t.at == s.at && t.events == s.events && t.log == s.log
    decreases actions
  {
    if actions != [] {
      OverIsFinal(Step(s, actions[0]), actions[1..]);
    }
  }

  /** The loop has ended without draining exactly if the write of the last frame failed or
      it found the connection stopped; it has drained only if it was asked to; and until
      then every frame before was written, or dropped for want of compression. */
  ghost predicate EndsRightly(s: Loop) {
    && (s.at == Over(false) ==> s.stopped || LastFailed(s.log))
    && (LastFailed(s.log) ==> s.at == Over(false))
    && (s.at == Over(true) ==> s.asked)
    && forall k :: 0 <= k < |s.log| - 1 ==> s.log[k].result != WriteFailed
  }

  predicate LastFailed(log: seq<Outcome>) {
    log != [] && log[|log| - 1].result == WriteFailed
  }

  lemma StepEndsRightly(s: Loop, a: Action)
    requires Sized(s) && EndsRightly(s)
    ensures EndsRightly(Step(s, a))
  {
  }

  /** In every run. */
  lemma {:induction false} RunEndsRightly(s: Loop, actions: seq<Action>)
    requires Sized(s) && EndsRightly(s)
    ensures EndsRightly(Run(s, actions))
    decreases actions
  {
    hide Step, EndsRightly;
    if actions != [] {
      StepEndsRightly(s, actions[0]);
      RunEndsRightly(Step(s, actions[0]), actions[1..]);
    }
  }

  /** Once the connection has stopped, a loop that has no frame in hand and is not in the
      middle of a scan takes no other, in any run. */
  lemma {:induction false} StopIsFinal(s: Loop, actions: seq<Action>)
    requires Sized(s) && s.stopped && (s.at.Top? || s.at == Over(false))
    ensures var t := Run(s, actions);
      t.events == s.events && t.log == s.log && (t.at.Top? || t.at == Over(false))
    decreases actions
  {
    if actions != [] {
      StopIsFinal(Step(s, actions[0]), actions[1..]);
    }
  }

  /** What becomes of the loop with a frame in hand: it is over if and only if the write of
      the frame failed, and otherwise takes the next one. */
  lemma OverExactly(s: Loop, result: Result)
    requires Sized(s) && s.at.Holding?
    ensures var t := Step(s, Finish(result));
      && (t.at.Over? <==> result == WriteFailed) && (!t.at.Over? ==> t.at.Top?)
      && t.log == s.log + [Outcome(s.at.frame, result)]
  {
  }

  /** All frames of a stream are sent on one channel. */
  ghost predicate Homed(s: Loop, id: uint32, home: nat)
    requires Sized(s)
  {
    forall level, i :: 0 <= level < LEVELS && level != home && 0 <= i < |s.submitted[level]| ==>
      !OnStream(s.submitted[level][i], id)
  }

  lemma {:induction false} ProjectHome(es: seq<Event>, id: uint32, home: nat)
    requires forall k :: 0 <= k < |es| && !es[k].Empty? && es[k].level != home ==> !OnStream(es[k].frame, id)
    ensures Project(Handed(es), id) == Project(HandedFrom(es, home), id)
  {
    if es != [] {
      ProjectHome(es[1..], id, home);
      var rest := Handed(es[1..]);
      if !es[0].Empty? {
        assert ([es[0].frame] + rest)[1..] == rest;
        var mine := HandedFrom(es[1..], home);
        assert ([es[0].frame] + mine)[1..] == mine;
        assert Handed(es) == [es[0].frame] + rest;
        if es[0].level == home {
          assert HandedFrom(es, home) == [es[0].frame] + mine;
        } else {
          assert [] + mine == mine;
        }
      } else {
        assert [] + rest == rest;
        assert [] + HandedFrom(es[1..], home) == HandedFrom(es[1..], home);
      }
    }
  }

  lemma {:induction false} TakenIsHanded(es: seq<Event>, k: nat)
    requires k < |es| && !es[k].Empty?
    ensures es[k].frame in HandedFrom(es, es[k].level)
    ensures es[k].frame in Handed(es)
  {
    if k > 0 {
      TakenIsHanded(es[1..], k - 1);
    }
  }

  /** Per-stream order: what was handed over of a stream, and what still waits, is what
      its object sent, in the order in which it sent it. */
  lemma StreamOrder(s: Loop, id: uint32, home: nat)
    requires Inv(s) && home < LEVELS && Homed(s, id, home)
    ensures Project(Handed(s.events), id) + Project(s.waiting[home], id) == Project(s.submitted[home], id)
  {
    forall k | 0 <= k < |s.events| && !s.events[k].Empty? && s.events[k].level != home
      ensures !OnStream(s.events[k].frame, id)
    {
      var level := s.events[k].level;
      TakenIsHanded(s.events, k);
      var i :| 0 <= i < |HandedFrom(s.events, level)| && HandedFrom(s.events, level)[i] == s.events[k].frame;
      assert s.submitted[level][i] == s.events[k].frame;
    }
    ProjectHome(s.events, id, home);
    ProjectAppend(HandedFrom(s.events, home), s.waiting[home], id);
  }

  /** And on the wire, as long as nothing was dropped. */
  lemma WireOrder(s: Loop, id: uint32, home: nat)
    requires Inv(s) && home < LEVELS && Homed(s, id, home)
    requires forall k :: 0 <= k < |s.log| ==> s.log[k].result == Written
    ensures Project(WireOf(s.log), id) + Project(InHand(s), id) + Project(s.waiting[home], id)
         == Project(s.submitted[home], id)
  {
    WireIsWhole(s.log);
    StreamOrder(s, id, home);
    ProjectAppend(Frames(s.log), InHand(s), id);
  }

  // ------------------------------------------------------------------------ pushes

  /** A frame of a pushed stream. */
  predicate OfPush(f: F) {
    (f.Data? || f.Headers?) && !Odd(f.id)
  }

  ghost predicate HasPush(fs: seq<F>, id: uint32) {
    exists j :: 0 <= j < |fs| && fs[j].Push? && fs[j].id == id
  }

  /** Push returns its stream once the loop has taken the PUSH frame, so no frame of a
      pushed stream is sent before. */
  ghost predicate Causal(s: Loop, a: Action) {
    a.Submit? && OfPush(a.frame) ==> HasPush(Handed(s.events), a.frame.id)
  }

  ghost predicate AllCausal(s: Loop, actions: seq<Action>)
    requires Sized(s)
    decreases actions
  {
    actions == [] || (Causal(s, actions[0]) && AllCausal(Step(s, actions[0]), actions[1..]))
  }

  ghost predicate PushesFirst(fs: seq<F>) {
    forall k :: 0 <= k < |fs| && OfPush(fs[k]) ==> HasPush(fs[..k], fs[k].id)
  }

  ghost predicate Announced(fs: seq<F>, handed: seq<F>) {
    forall i :: 0 <= i < |fs| && OfPush(fs[i]) ==> HasPush(handed, fs[i].id)
  }

  ghost predicate PushInv(s: Loop)
    requires Sized(s)
  {
    && PushesFirst(Handed(s.events))
    && forall level :: 0 <= level < LEVELS ==> Announced(s.waiting[level], Handed(s.events))
  }

  lemma HasPushGrows(fs: seq<F>, f: F, id: uint32)
    requires HasPush(fs, id)
    ensures HasPush(fs + [f], id)
  {
    var j :| 0 <= j < |fs| && fs[j].Push? && fs[j].id == id;
    assert (fs + [f])[j] == fs[j];
  }

  lemma PushesFirstSnoc(fs: seq<F>, f: F)
    requires PushesFirst(fs) && (OfPush(f) ==> HasPush(fs, f.id))
    ensures PushesFirst(fs + [f])
  {
    forall k | 0 <= k < |fs + [f]| && OfPush((fs + [f])[k])
      ensures HasPush((fs + [f])[..k], (fs + [f])[k].id)
    {
      assert (fs + [f])[..k] == fs[..k];
      assert fs[..|fs|] == fs;
    }
    hide HasPush;
  }

  lemma AnnouncedGrows(fs: seq<F>, handed: seq<F>, f: F)
    requires Announced(fs, handed)
    ensures Announced(fs, handed + [f])
  {
    forall i | 0 <= i < |fs| && OfPush(fs[i]) ensures HasPush(handed + [f], fs[i].id) {
      HasPushGrows(handed, f, fs[i].id);
    }
    hide HasPush;
  }

  lemma TakingKeepsPushes(s: Loop, level: nat, e: Event)
    requires Sized(s) && PushInv(s) && level < LEVELS && s.waiting[level] != []
    requires !e.Empty? && e.frame == s.waiting[level][0]
    ensures PushInv(Taking(s, level, e))
  {
    var t := Taking(s, level, e);
    HandedSnoc(s.events, e);
    assert Announced(s.waiting[level], Handed(s.events));
    PushesFirstSnoc(Handed(s.events), e.frame);
    hide Handed, HasPush;
    forall l | 0 <= l < LEVELS ensures Announced(t.waiting[l], Handed(t.events)) {
      AnnouncedGrows(s.waiting[l], Handed(s.events), e.frame);
    }
  }

  lemma StepKeepsPushes(s: Loop, a: Action)
    requires Sized(s) && PushInv(s) && Causal(s, a)
    ensures PushInv(Step(s, a))
  {
    match a
    case Submit(level, f) => hide Handed, HasPush;
    case Proceed =>
      if s.at.Polling? && s.at.level < LEVELS && s.waiting[s.at.level] != [] {
        TakingKeepsPushes(s, s.at.level, Take(s.at.level, s.waiting[s.at.level][0]));
      } else if s.at.Polling? {
        HandedSnoc(s.events, Empty(s.at.level));
        hide HasPush;
        assert Handed(s.events) + [] == Handed(s.events);
      }
    case Wake(level) =>
      if s.at.Waiting? && level < LEVELS && s.waiting[level] != [] {
        TakingKeepsPushes(s, level, Woken(level, s.waiting[level][0]));
      }
    case _ => hide Handed, HasPush;
  }

  /** In every causal run a PUSH goes ahead of every frame of its stream, though the
      stream writes to another channel. */
  lemma {:induction false} PushGoesFirst(s: Loop, actions: seq<Action>)
    requires Inv(s) && PushInv(s) && AllCausal(s, actions)
    ensures PushesFirst(Handed(Run(s, actions).events)) && PushesFirst(Frames(Run(s, actions).log))
    decreases actions
  {
    hide Step, Inv;
    if actions != [] {
      StepKeepsInv(s, actions[0]);
      InvSized(s);
      StepKeepsPushes(s, actions[0]);
      PushGoesFirst(Step(s, actions[0]), actions[1..]);
    } else {
      LogIsPrefix(s);
    }
  }

  lemma LogIsPrefix(s: Loop)
    requires Inv(s) && PushInv(s)
    ensures PushesFirst(Frames(s.log))
  {
    var handed, log := Handed(s.events), Frames(s.log);
    forall k | 0 <= k < |log| && OfPush(log[k]) ensures HasPush(log[..k], log[k].id) {
      assert handed[k] == log[k] && handed[..k] == log[..k];
    }
    hide HasPush;
  }

  // ------------------------------------------------------------------------- object

  /** Frames that other goroutines send while the loop is between two channels. */
  datatype Arrival = Arrival(level: nat, frame: F)

  function Arriving(s: Loop, arrivals: seq<Arrival>): (t: Loop)
    requires Sized(s)
    ensures Sized(t) && t.at == s.at
    decreases arrivals
  {
    if arrivals == [] then s
    else Arriving(Step(s, Submit(arrivals[0].level, arrivals[0].frame)), arrivals[1..])
  }

  /** The scan, with what arrives before each of its steps. */
  function Scanning(s: Loop, between: seq<seq<Arrival>>): (t: Loop)
    requires Sized(s)
    ensures Sized(t)
    decreases between
  {
    if between == [] || !s.at.Polling? then s
    else Scanning(Step(Arriving(s, between[0]), Proceed), between[1..])
  }

  lemma {:induction false} ArrivingKeepsInv(s: Loop, arrivals: seq<Arrival>)
    requires Inv(s)
    ensures Inv(Arriving(s, arrivals))
    decreases arrivals
  {
    hide Step, Inv;
    InvSized(s);
    if arrivals != [] {
      StepKeepsInv(s, Submit(arrivals[0].level, arrivals[0].frame));
      ArrivingKeepsInv(Step(s, Submit(arrivals[0].level, arrivals[0].frame)), arrivals[1..]);
    }
  }

  lemma {:induction false} ScanningKeepsInv(s: Loop, between: seq<seq<Arrival>>)
    requires Inv(s)
    ensures Inv(Scanning(s, between))
    decreases between
  {
    hide Step, Inv;
    InvSized(s);
    if between != [] && s.at.Polling? {
      ArrivingKeepsInv(s, between[0]);
      StepKeepsInv(Arriving(s, between[0]), Proceed);
      ScanningKeepsInv(Step(Arriving(s, between[0]), Proceed), between[1..]);
    }
  }

  /** A scan that nothing arrives during takes the first frame of the first channel that
      has one, and finds every channel empty if none has. */
  lemma {:induction false} QuietScan(s: Loop, between: seq<seq<Arrival>>, ready: nat)
    requires Sized(s) && s.at.Polling? && s.at.level <= ready <= LEVELS
    requires |between| == LEVELS + 1 - s.at.level && forall i :: 0 <= i < |between| ==> between[i] == []
    requires forall level :: s.at.level <= level < ready ==> s.waiting[level] == []
    requires ready < LEVELS ==> s.waiting[ready] != []
    ensures Scanning(s, between).at ==
      if ready < LEVELS then Holding(s.waiting[ready][0]) else if s.asked then Over(true) else Waiting
    decreases between
  {
    var t := Step(s, Proceed);
    assert Arriving(s, between[0]) == s;
    if s.at.level < ready {
      QuietScan(t, between[1..], ready);
    } else {
      assert !t.at.Polling?;
    }
  }

  class Sender {
    const output: array<seq<F>>
    var asked: bool
    var stopped: bool
    var written: seq<F>
    ghost var at: Place
    ghost var submitted: seq<seq<F>>
    ghost var events: seq<Event>
    ghost var log: seq<Outcome>

    ghost predicate Valid()
      reads this, output
    {
      output.Length == LEVELS && Sized(Abs()) && written == WireOf(log)
    }

    ghost function Abs(): Loop
      reads this, output
    {
      Loop(at, output[..], submitted, events, log, asked, stopped)
    }

    constructor ()
      ensures Valid() && fresh(output) && Abs() == Begin()
    {
      output := new seq<F>[LEVELS](_ => []);
      asked, stopped := false, false;
      written := [];
      at, submitted, events, log := Top, seq(LEVELS, _ => []), [], [];
    }

    /** A goroutine sends on a channel. */
    method Send(level: nat, frame: F)
      requires Valid()
      modifies output, this`submitted
      ensures Valid() && Abs() == Step(old(Abs()), Submit(level, frame))
    {
      if level < LEVELS {
        output[level] := output[level] + [frame];
        submitted := submitted[level := submitted[level] + [frame]];
      }
    }

    method Arrive(arrivals: seq<Arrival>)
      requires Valid()
      modifies output, this`submitted
      ensures Valid() && Abs() == Arriving(old(Abs()), arrivals)
    {
      assert arrivals[0..] == arrivals;
      for k := 0 to |arrivals|
        invariant Valid()
        invariant Arriving(Abs(), arrivals[k..]) == Arriving(old(Abs()), arrivals)
      {
        assert arrivals[k..][1..] == arrivals[k + 1..] && arrivals[k..][0] == arrivals[k];
        Send(arrivals[k].level, arrivals[k].frame);
      }
      assert arrivals[|arrivals|..] == [];
    }

    /** selectFrameToSend, up to its final select. */
    method Select(between: seq<seq<Arrival>>) returns (frame: Option<F>)
      requires Valid() && at == Top && |between| == LEVELS + 1
      modifies this, output
      ensures Valid() && written == old(written)
      ensures Abs() == Scanning(Step(old(Abs()), Proceed), between)
      ensures frame == if at.Holding? then Some(at.frame) else None
    {
      hide Arriving, WireOf;
      if stopped {
        at := Over(false);
        return None;
      }
      at := Polling(0);
      assert between[0..] == between;
      for i: nat := 0 to LEVELS
        invariant Valid() && written == old(written) && at == Polling(i)
        invariant Scanning(Abs(), between[i..]) == Scanning(Step(old(Abs()), Proceed), between)
      {
        assert between[i..][1..] == between[i + 1..] && between[i..][0] == between[i];
        Arrive(between[i]);
        ghost var before := Abs();
        if output[i] != [] {
          frame := Some(output[i][0]);
          at, events := Holding(output[i][0]), events + [Take(i, output[i][0])];
          output[i] := output[i][1..];
          assert Abs() == Step(before, Proceed);
          return;
        }
        at, events := Polling(i + 1), events + [Empty(i)];
        assert Abs() == Step(before, Proceed);
      }
      assert between[LEVELS..][0] == between[LEVELS] && between[LEVELS..][1..] == [];
      Arrive(between[LEVELS]);
      at := if asked then Over(true) else Waiting;
      frame := None;
    }

    /** One turn of the final select, in which the runtime picks a channel. */
    method Await(level: nat) returns (frame: Option<F>)
      requires Valid() && at == Waiting && level < LEVELS
      modifies this, output
      ensures Valid() && Abs() == Step(old(Abs()), Wake(level)) && written == old(written)
      ensures frame == if at.Holding? then Some(at.frame) else None
    {
      if output[level] == [] {
        return None;
      }
      frame := Some(output[level][0]);
      at, events := Holding(output[level][0]), events + [Woken(level, output[level][0])];
      output[level] := output[level][1..];
    }

    /** What send does with the frame in hand; how that goes is up to the compressor
        and the connection. */
    method Dispatch(frame: F, result: Result)
      requires Valid() && at == Holding(frame)
      modifies this`at, this`log, this`written
      ensures Valid() && Abs() == Step(old(Abs()), Finish(result))
    {
      WireSnoc(log, Outcome(frame, result));
      if result == Written {
        written := written + [frame];
      }
      at, log := if result == WriteFailed then Over(false) else Top, log + [Outcome(frame, result)];
    }
  }
}
