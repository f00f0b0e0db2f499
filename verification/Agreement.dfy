// Two compliant endpoints agree on stream IDs: whatever the calls, the deliveries and
// the receivers' answers, no REQUEST or PUSH is ever rejected for its ID or priority.

module Agreement {
  import opened Protocol
  import opened Connection
  import opened Freshness
  import opened Endpoints
  import Demux

  /** REQUEST frames go up, PUSH frames go down. */
  predicate Opens(f: F, push: bool) {
    if push then f.Push? else f.Request?
  }

  function OpeningIDs(fs: seq<F>, push: bool): (ids: seq<uint32>)
  {
    if fs == [] then []
    else (if Opens(fs[0], push) then [fs[0].id] else []) + OpeningIDs(fs[1..], push)
  }

  /** IDs of one parity, in range, strictly increasing, above what the receiver has
      accepted and up to what the sender has allocated. */
  ghost predicate Rising(ids: seq<uint32>, odd: bool, low: uint32, high: uint32) {
    && low <= high
    && (forall i :: 0 <= i < |ids| ==> low < ids[i] <= high && ValidID(ids[i]) && Odd(ids[i]) == odd)
    && (forall i, j :: 0 <= i < j < |ids| ==> ids[i] < ids[j])
  }

  predicate Fair(f: F, push: bool) {
    (f.Request? ==> !push && f.priority <= 7) && (f.Push? ==> push && f.priority <= 7)
  }

  /** One link: `low` is the receiver's counter, `high` the sender's. */
  ghost predicate LinkAgrees(fs: seq<F>, push: bool, low: uint32, high: uint32) {
    && Rising(OpeningIDs(fs, push), !push, low, high)
    && forall i :: 0 <= i < |fs| ==> Fair(fs[i], push)
  }

  ghost predicate Agree(s: System) {
    && !s.client.server && s.server.server && Tidy(s.client) && Tidy(s.server)
    && LinkAgrees(s.up, false, s.server.lastRequest, s.client.lastRequest)
    && LinkAgrees(s.down, true, s.client.lastPush, s.server.lastPush)
  }

  predicate Quiet(fs: seq<F>) {
    forall i :: 0 <= i < |fs| ==> !fs[i].Request? && !fs[i].Push?
  }

  // ----------------------------------------------------------------------- links

  lemma {:induction false} OpeningAppend(a: seq<F>, b: seq<F>, push: bool)
    ensures OpeningIDs(a + b, push) == OpeningIDs(a, push) + OpeningIDs(b, push)
  {
    if a == [] {
      assert a + b == b;
    } else {
      var head := if Opens(a[0], push) then [a[0].id] else [];
      assert (a + b)[0] == a[0] && (a + b)[1..] == a[1..] + b;
      OpeningAppend(a[1..], b, push);
      assert head + (OpeningIDs(a[1..], push) + OpeningIDs(b, push))
          == head + OpeningIDs(a[1..], push) + OpeningIDs(b, push);
    }
  }

  lemma {:induction false} QuietOpensNothing(fs: seq<F>, push: bool)
    requires Quiet(fs)
    ensures OpeningIDs(fs, push) == []
  {
    if fs != [] {
      QuietOpensNothing(fs[1..], push);
    }
  }

  lemma QuietKeepsLink(fs: seq<F>, more: seq<F>, push: bool, low: uint32, high: uint32, higher: uint32)
    requires LinkAgrees(fs, push, low, high) && Quiet(more) && high <= higher
    ensures LinkAgrees(fs + more, push, low, higher)
  {
    OpeningAppend(fs, more, push);
    QuietOpensNothing(more, push);
    assert OpeningIDs(fs, push) + [] == OpeningIDs(fs, push);
    hide OpeningIDs, Odd;
  }

  lemma FairAppend(a: seq<F>, b: seq<F>, push: bool)
    requires forall i :: 0 <= i < |a| ==> Fair(a[i], push)
    requires b != [] && Fair(b[0], push) && Quiet(b[1..])
    ensures forall i :: 0 <= i < |a + b| ==> Fair((a + b)[i], push)
  {
    forall i | 0 <= i < |a + b| ensures Fair((a + b)[i], push) {
      if i > |a| {
        assert (a + b)[i] == b[1..][i - |a| - 1];
      }
    }
  }

  lemma RisingSnoc(ids: seq<uint32>, id: uint32, odd: bool, low: uint32, high: uint32)
    requires Rising(ids, odd, low, high) && high < id && ValidID(id) && Odd(id) == odd
    ensures Rising(ids + [id], odd, low, id)
  {
    hide Odd;
  }

  lemma OpeningOne(fs: seq<F>, push: bool)
    requires fs != [] && Opens(fs[0], push) && Quiet(fs[1..])
    ensures OpeningIDs(fs, push) == [fs[0].id]
  {
    QuietOpensNothing(fs[1..], push);
  }

  lemma OpeningKeepsLink(fs: seq<F>, more: seq<F>, push: bool, low: uint32, high: uint32)
    requires LinkAgrees(fs, push, low, high)
    requires more != [] && Opens(more[0], push) && Fair(more[0], push) && Quiet(more[1..])
    requires high < more[0].id && ValidID(more[0].id) && Odd(more[0].id) == !push
    ensures LinkAgrees(fs + more, push, low, more[0].id)
  {
    hide OpeningIDs, Rising, Fair, Quiet, Odd;
    OpeningAppend(fs, more, push);
    OpeningOne(more, push);
    RisingSnoc(OpeningIDs(fs, push), more[0].id, !push, low, high);
    FairAppend(fs, more, push);
  }

  /** The head leaves, and is at most accepted. */
  lemma PopKeepsLink(fs: seq<F>, push: bool, low: uint32, high: uint32, next: uint32)
    requires LinkAgrees(fs, push, low, high) && fs != []
    requires next == low || (Opens(fs[0], push) && next == fs[0].id)
    ensures LinkAgrees(fs[1..], push, next, high)
  {
    var ids, rest := OpeningIDs(fs, push), OpeningIDs(fs[1..], push);
    if Opens(fs[0], push) {
      assert ids[0] == fs[0].id;
      assert ids[1..] == rest;
      forall i | 0 <= i < |rest|
        ensures next < rest[i] <= high && ValidID(rest[i]) && Odd(rest[i]) == !push
      {
        assert rest[i] == ids[i + 1];
      }
      forall i, j | 0 <= i < j < |rest| ensures rest[i] < rest[j] {
        assert rest[i] == ids[i + 1] && rest[j] == ids[j + 1];
      }
    } else {
      assert ids == rest;
    }
  }

  lemma HeadInRange(fs: seq<F>, push: bool, low: uint32, high: uint32)
    requires LinkAgrees(fs, push, low, high) && fs != [] && Opens(fs[0], push)
    ensures low < fs[0].id && ValidID(fs[0].id) && Odd(fs[0].id) == !push && fs[0].priority <= 7
  {
    assert OpeningIDs(fs, push)[0] == fs[0].id;
  }

  // ----------------------------------------------------------------- connections

  /** A frame moves at most the counter of the kind that the side accepts. */
  lemma FrameMovesCounter(c: Conn, f: F, choice: Choice)
    ensures var d := Receive(c, f, choice).0;
      && d.server == c.server
      && (c.server ==>
            d.lastPush == c.lastPush && (d.lastRequest == c.lastRequest || (f.Request? && d.lastRequest == f.id)))
      && (!c.server ==> d.lastRequest == c.lastRequest && (d.lastPush == c.lastPush || (f.Push? && d.lastPush == f.id)))
  {
    if Receive(c, f, choice).1 == Accepted {
      AcceptedEffect(c, f, choice);
    } else {
      InboundKeepsEntries(c, f, choice);
    }
    hide Receive, SameKinds;
  }

  lemma AnswersAreQuiet(server: bool, f: F, v: Verdict, fs: seq<F>)
    requires Answers(server, f, v, fs)
    ensures Quiet(fs)
  {
  }

  lemma UpKeepsAgreement(s: System, choice: Choice)
    requires Agree(s) && s.up != []
    ensures Agree(Next(s, DeliverUp(choice)))
  {
    var c, f := s.server, s.up[0];
    var (d, v) := Receive(c, f, choice);
    FrameMovesCounter(c, f, choice);
    InboundIsTidy(c, f, choice);
    InboundEmits(c, f, choice);
    AnswersAreQuiet(c.server, f, v, New(c, d));
    PopKeepsLink(s.up, false, c.lastRequest, s.client.lastRequest, d.lastRequest);
    QuietKeepsLink(s.down, New(c, d), true, s.client.lastPush, c.lastPush, d.lastPush);
    hide Receive, Tidy, LinkAgrees, Answers, New, Quiet;
  }

  lemma DownKeepsAgreement(s: System, choice: Choice)
    requires Agree(s) && s.down != []
    ensures Agree(Next(s, DeliverDown(choice)))
  {
    var c, f := s.client, s.down[0];
    var (d, v) := Receive(c, f, choice);
    FrameMovesCounter(c, f, choice);
    InboundIsTidy(c, f, choice);
    InboundEmits(c, f, choice);
    AnswersAreQuiet(c.server, f, v, New(c, d));
    PopKeepsLink(s.down, true, c.lastPush, s.server.lastPush, d.lastPush);
    QuietKeepsLink(s.up, New(c, d), false, s.server.lastRequest, c.lastRequest, d.lastRequest);
    hide Receive, Tidy, LinkAgrees, Answers, New, Quiet;
  }

  /** A call hands over the opening of the stream it inserts, with the ID it has just
      allocated, or no opening. */
  lemma CallOpens(c: Conn, input: Input)
    requires !input.Inbound? && !Wraps(c, input) && Tidy(c)
    ensures var d := Step(c, input);
      var fs := New(c, d);
      var last := if c.server then c.lastPush else c.lastRequest;
      var next := if c.server then d.lastPush else d.lastRequest;
      && d.server == c.server && last <= next
      && (c.server ==> d.lastRequest == c.lastRequest) && (!c.server ==> d.lastPush == c.lastPush)
      && (Quiet(fs)
          || (&& fs != [] && Opens(fs[0], c.server) && Fair(fs[0], c.server) && Quiet(fs[1..])
              && fs[0].id == next && last < next && ValidID(next) && Odd(next) == !c.server))
  {
    hide Step, New, StartRequest, StartPush, StartPing, Inserted, Tidy;
    CallEmits(c, input);
    RoleStays(c, input);
    if input.CallClose? {
      CloseKeepsCounters(c, input);
    } else {
      CallsEffect(c, input);
      CallIsTidy(c, input);
      TidyParity(Step(c, input));
      InsertedIsCalls(c, input);
    }
  }

  lemma CloseKeepsCounters(c: Conn, input: Input)
    requires input.CallClose?
    ensures Step(c, input).lastRequest == c.lastRequest && Step(c, input).lastPush == c.lastPush
  {
  }

  lemma TidyParity(c: Conn)
    requires Tidy(c)
    ensures (c.lastRequest == 0 || Odd(c.lastRequest)) && !Odd(c.lastPush)
  {
  }

  lemma InsertedIsCalls(c: Conn, input: Input)
    requires !input.Inbound?
    ensures input.CallRequest? ==> Inserted(c, input) == StartRequest(c, input.asked).1
    ensures input.CallPush? ==> Inserted(c, input) == StartPush(c, input.assoc, input.urlOk, input.header).1
    ensures input.CallRequest? && c.server ==> StartRequest(c, input.asked).1 == None
    ensures input.CallPush? && !c.server ==> StartPush(c, input.assoc, input.urlOk, input.header).1 == None
  {
  }

  lemma LinkAfterCall(fs: seq<F>, low: uint32, c: Conn, input: Input)
    requires !input.Inbound? && !Wraps(c, input) && Tidy(c)
    requires LinkAgrees(fs, c.server, low, if c.server then c.lastPush else c.lastRequest)
    ensures var d := Step(c, input);
      && d.server == c.server
      && (c.server ==> d.lastRequest == c.lastRequest) && (!c.server ==> d.lastPush == c.lastPush)
      && LinkAgrees(fs + New(c, d), c.server, low, if c.server then d.lastPush else d.lastRequest)
  {
    CallOpens(c, input);
    var d := Step(c, input);
    var last := if c.server then c.lastPush else c.lastRequest;
    hide Step, New, Tidy, LinkAgrees, Fair;
    if Quiet(New(c, d)) {
      QuietKeepsLink(fs, New(c, d), c.server, low, last, if c.server then d.lastPush else d.lastRequest);
    } else {
      OpeningKeepsLink(fs, New(c, d), c.server, low, last);
    }
  }

  lemma NextKeepsAgreement(s: System, a: Action)
    requires Agree(s) && !WrapsAt(s, a)
    ensures Agree(Next(s, a))
  {
    match a
    case DeliverUp(choice) =>
      if s.up != [] {
        UpKeepsAgreement(s, choice);
      }
    case DeliverDown(choice) =>
      if s.down != [] {
        DownKeepsAgreement(s, choice);
      }
    case ClientCall(input) =>
      if !input.Inbound? {
        LinkAfterCall(s.up, s.server.lastRequest, s.client, input);
        CallIsTidy(s.client, input);
        hide Step, New, Tidy, LinkAgrees;
      }
    case ServerCall(input) =>
      if !input.Inbound? {
        LinkAfterCall(s.down, s.client.lastPush, s.server, input);
        CallIsTidy(s.server, input);
        hide Step, New, Tidy, LinkAgrees;
      }
    case ClientFrame(f) =>
      if Demux.Streamed(f) {
        QuietKeepsLink(s.up, [f], false, s.server.lastRequest, s.client.lastRequest, s.client.lastRequest);
      }
    case ServerFrame(f) =>
      if Demux.Streamed(f) {
        QuietKeepsLink(s.down, [f], true, s.client.lastPush, s.server.lastPush, s.server.lastPush);
      }
  }

  /** The invariant over every run, refusals and unparsable URLs included. */
  lemma {:induction false} RunKeepsAgreement(s: System, actions: seq<Action>)
    requires Agree(s) && NoWrap(s, actions)
    ensures Agree(RunAll(s, actions))
    decreases actions
  {
    hide Next, Agree, WrapsAt;
    if actions != [] {
      NextKeepsAgreement(s, actions[0]);
      RunKeepsAgreement(Next(s, actions[0]), actions[1..]);
    }
  }

  lemma StartAgrees(hasReceiver: bool, clientSeed: uint32, serverSeed: uint32)
    ensures Agree(Start(hasReceiver, clientSeed, serverSeed))
  {
  }

  /** So a REQUEST that reaches an open server is accepted, or its URL does not parse;
      nothing else can be wrong with it. */
  lemma RequestIsNeverRejected(s: System, choice: Choice)
    requires Agree(s) && s.up != [] && s.up[0].Request?
    requires !s.server.closed && s.server.benign <= MAX_BENIGN_ERRORS
    ensures Receive(s.server, s.up[0], choice).1 == if choice.parses then Accepted else Unparsable
  {
    HeadInRange(s.up, false, s.server.lastRequest, s.client.lastRequest);
    hide Tidy, LinkAgrees;
  }

  lemma PushIsNeverRejected(s: System, choice: Choice)
    requires Agree(s) && s.down != [] && s.down[0].Push?
    requires !s.client.closed && s.client.benign <= MAX_BENIGN_ERRORS
    ensures Receive(s.client, s.down[0], choice).1 ==
      if !choice.parses then Unparsable
      else if !s.client.hasReceiver then Ignored
      else if choice.wants then Accepted else Refused
  {
    HeadInRange(s.down, true, s.client.lastPush, s.server.lastPush);
    hide Tidy, LinkAgrees;
  }

  /** Both, in every run of a new connection. */
  lemma OpeningsAreNeverRejected(s: System, actions: seq<Action>, choice: Choice)
    requires Agree(s) && NoWrap(s, actions)
    ensures var t := RunAll(s, actions);
      && (t.up != [] && t.up[0].Request? ==>
            Receive(t.server, t.up[0], choice).1 in {Accepted, Unparsable, Ignored, TooManyErrors})
      && (t.down != [] && t.down[0].Push? ==>
            Receive(t.client, t.down[0], choice).1 in {Accepted, Refused, Unparsable, Ignored, TooManyErrors})
  {
    RunKeepsAgreement(s, actions);
    var t := RunAll(s, actions);
    hide RunAll, Agree;
    if t.up != [] && t.up[0].Request? && !t.server.closed && t.server.benign <= MAX_BENIGN_ERRORS {
      RequestIsNeverRejected(t, choice);
    }
    if t.down != [] && t.down[0].Push? && !t.client.closed && t.client.benign <= MAX_BENIGN_ERRORS {
      PushIsNeverRejected(t, choice);
    }
    hide Handle;
  }
}
