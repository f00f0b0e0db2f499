// The ping exchange between endpoints whose ping IDs have opposite parity: every
// outstanding ping has exactly one frame in flight, is completed when its reply is
// consumed and never twice, and no reply is ever answered.

module Pings {
  import opened Protocol
  import opened Connection
  import opened Freshness
  import opened Endpoints
  import Demux

  /** The ping frames with an ID. */
  function Count(fs: seq<F>, pid: uint32): nat {
    if fs == [] then 0
    else (if fs[0].Ping? && fs[0].pid == pid then 1 else 0) + Count(fs[1..], pid)
  }

  lemma {:induction false} CountAppend(a: seq<F>, b: seq<F>, pid: uint32)
    ensures Count(a + b, pid) == Count(a, pid) + Count(b, pid)
  {
    if a == [] {
      assert a + b == b;
    } else {
      assert (a + b)[0] == a[0] && (a + b)[1..] == a[1..] + b;
      CountAppend(a[1..], b, pid);
    }
  }

  /** The parity survives the wrap of the counter, and so does not being 0. */
  lemma NextPingKeeps(pid: uint32)
    requires pid != 0
    ensures Odd(NextPingID(pid)) == Odd(pid) && NextPingID(pid) != 0
  {
  }

  /** Ping frames of one parity carry the given FINISH flag. */
  ghost predicate Flagged(fs: seq<F>, odd: bool, finish: bool) {
    forall i :: 0 <= i < |fs| && fs[i].Ping? && Odd(fs[i].pid) == odd ==> Finish(fs[i].flags) == finish
  }

  /** The pings of one side, `there` being the link away from it and `back` the link
      to it: what it has outstanding is what is in flight, once each. */
  ghost predicate Matched(pings: map<uint32, nat>, odd: bool, there: seq<F>, back: seq<F>) {
    && (forall pid :: pid in pings ==> Odd(pid) == odd)
    && (forall pid: uint32 :: Odd(pid) == odd ==>
          Count(there, pid) + Count(back, pid) == if pid in pings then 1 else 0)
    && Flagged(there, odd, false) && Flagged(back, odd, true)
  }

  /** No ping frames of that parity. */
  ghost predicate Silent(fs: seq<F>, odd: bool) {
    forall i :: 0 <= i < |fs| && fs[i].Ping? ==> Odd(fs[i].pid) != odd
  }

  lemma {:induction false} SilentCounts(fs: seq<F>, odd: bool, pid: uint32)
    requires Silent(fs, odd) && Odd(pid) == odd
    ensures Count(fs, pid) == 0
  {
    if fs != [] {
      SilentCounts(fs[1..], odd, pid);
    }
  }

  lemma FlaggedAppend(a: seq<F>, b: seq<F>, odd: bool, finish: bool)
    requires Flagged(a, odd, finish) && Flagged(b, odd, finish)
    ensures Flagged(a + b, odd, finish)
  {
  }

  lemma FlaggedTail(a: seq<F>, odd: bool, finish: bool)
    requires Flagged(a, odd, finish) && a != []
    ensures Flagged(a[1..], odd, finish)
  {
  }

  lemma SilentIsFlagged(a: seq<F>, odd: bool, finish: bool)
    requires Silent(a, odd)
    ensures Flagged(a, odd, finish)
  {
  }

  /** Frames of the other parity, or none, come and go. */
  lemma SilentKeepsMatched(pings: map<uint32, nat>, odd: bool, there: seq<F>, back: seq<F>, more: seq<F>, less: seq<F>)
    requires Matched(pings, odd, there, back) && Silent(more, odd) && Silent(less, odd)
    ensures Matched(pings, odd, there + more, back + less)
  {
    forall pid: uint32 | Odd(pid) == odd
      ensures Count(there + more, pid) + Count(back + less, pid) == if pid in pings then 1 else 0
    {
      CountAppend(there, more, pid);
      CountAppend(back, less, pid);
      SilentCounts(more, odd, pid);
      SilentCounts(less, odd, pid);
    }
    SilentIsFlagged(more, odd, false);
    SilentIsFlagged(less, odd, true);
    FlaggedAppend(there, more, odd, false);
    FlaggedAppend(back, less, odd, true);
    hide Count, Flagged, Silent;
  }

  lemma SilentPop(pings: map<uint32, nat>, odd: bool, there: seq<F>, back: seq<F>)
    requires Matched(pings, odd, there, back)
    ensures there != [] && Silent([there[0]], odd) ==> Matched(pings, odd, there[1..], back)
    ensures back != [] && Silent([back[0]], odd) ==> Matched(pings, odd, there, back[1..])
  {
    if there != [] && Silent([there[0]], odd) {
      FlaggedTail(there, odd, false);
      forall pid: uint32 | Odd(pid) == odd
        ensures Count(there[1..], pid) + Count(back, pid) == if pid in pings then 1 else 0
      {
        PopCounts(there, odd, pid);
      }
    }
    if back != [] && Silent([back[0]], odd) {
      FlaggedTail(back, odd, true);
      forall pid: uint32 | Odd(pid) == odd
        ensures Count(there, pid) + Count(back[1..], pid) == if pid in pings then 1 else 0
      {
        PopCounts(back, odd, pid);
      }
    }
    hide Count, Flagged, Silent;
  }

  lemma PopCounts(fs: seq<F>, odd: bool, pid: uint32)
    requires fs != [] && Silent([fs[0]], odd) && Odd(pid) == odd
    ensures Count(fs[1..], pid) == Count(fs, pid)
  {
    assert [fs[0]][0] == fs[0];
  }

  /** A new ping, with an ID that is not outstanding. */
  lemma SendKeepsMatched(pings: map<uint32, nat>, odd: bool, there: seq<F>, back: seq<F>, pid: uint32, ticket: nat)
    requires Matched(pings, odd, there, back) && Odd(pid) == odd && pid !in pings
    ensures Matched(pings[pid := ticket], odd, there + [Ping(0, pid)], back)
  {
    var sent := [Ping(0, pid)];
    forall p: uint32 | Odd(p) == odd
      ensures Count(there + sent, p) + Count(back, p) == if p in pings[pid := ticket] then 1 else 0
    {
      CountAppend(there, sent, p);
      CountOne(Ping(0, pid), p);
    }
    assert Flagged(sent, odd, false);
    FlaggedAppend(there, sent, odd, false);
    hide Count, Flagged;
  }

  lemma CountOne(f: F, pid: uint32)
    ensures Count([f], pid) == if f.Ping? && f.pid == pid then 1 else 0
  {
    assert Count([f][1..], pid) == 0;
  }

  /** The peer turns a ping around. */
  lemma ReplyKeepsMatched(pings: map<uint32, nat>, odd: bool, there: seq<F>, back: seq<F>)
    requires Matched(pings, odd, there, back)
    requires there != [] && there[0].Ping? && Odd(there[0].pid) == odd
    ensures there[0].pid in pings && !Finish(there[0].flags)
    ensures Matched(pings, odd, there[1..], back + [Ping(FLAG_FINISH, there[0].pid)])
  {
    var pid := there[0].pid;
    var reply := [Ping(FLAG_FINISH, pid)];
    assert Count(there, pid) >= 1;
    forall p: uint32 | Odd(p) == odd
      ensures Count(there[1..], p) + Count(back + reply, p) == if p in pings then 1 else 0
    {
      CountAppend(back, reply, p);
      CountOne(reply[0], p);
      assert Count(there, p) == (if p == pid then 1 else 0) + Count(there[1..], p);
    }
    FlaggedTail(there, odd, false);
    assert Flagged(reply, odd, true);
    FlaggedAppend(back, reply, odd, true);
    hide Count;
  }

  /** The reply completes the ping. */
  lemma DoneKeepsMatched(pings: map<uint32, nat>, odd: bool, there: seq<F>, back: seq<F>)
    requires Matched(pings, odd, there, back)
    requires back != [] && back[0].Ping? && Odd(back[0].pid) == odd
    ensures back[0].pid in pings && Finish(back[0].flags)
    ensures Matched(pings - {back[0].pid}, odd, there, back[1..])
  {
    var pid := back[0].pid;
    assert Count(back, pid) >= 1;
    assert pid in pings && Count(there, pid) + Count(back[1..], pid) == 0;
    forall p: uint32 | Odd(p) == odd
      ensures Count(there, p) + Count(back[1..], p) == if p in pings - {pid} then 1 else 0
    {
      assert Count(back, p) == (if p == pid then 1 else 0) + Count(back[1..], p);
    }
    FlaggedTail(back, odd, true);
    hide Count;
  }

  // --------------------------------------------------------------- the two ends

  ghost predicate Exchange(s: System) {
    && s.client.nextPing != 0 && s.server.nextPing != 0
    && Odd(s.client.nextPing) != Odd(s.server.nextPing)
    && Matched(s.client.pings, Odd(s.client.nextPing), s.up, s.down)
    && Matched(s.server.pings, Odd(s.server.nextPing), s.down, s.up)
  }

  ghost predicate Inv(s: System) {
    s.client.closed || s.server.closed || Exchange(s)
  }

  /** A call that would reuse the ID of a ping that is still outstanding. */
  predicate Reuses(c: Conn, input: Input) {
    input.CallPing? && c.nextPing in c.pings
  }

  predicate ReusesAt(s: System, a: Action) {
    (a.ClientCall? && Reuses(s.client, a.input)) || (a.ServerCall? && Reuses(s.server, a.input))
  }

  ghost predicate NoReuse(s: System, actions: seq<Action>)
    decreases actions
  {
    actions == [] || (!ReusesAt(s, actions[0]) && NoReuse(Next(s, actions[0]), actions[1..]))
  }

  /** What receiving a frame does to the pings of the receiver. */
  ghost predicate PingEffect(c: Conn, f: F, v: Verdict, d: Conn) {
    && d.nextPing == c.nextPing
    && (if v == PingDone then
          && f.Ping? && f.pid in c.pings && Odd(f.pid) == Odd(c.nextPing)
          && d.pings == c.pings - {f.pid} && d.pongs == c.pongs + [c.pings[f.pid]]
        else d.pings == c.pings && d.pongs == c.pongs)
    && d.tickets == c.tickets
  }

  lemma InboundPings(c: Conn, f: F, choice: Choice)
    ensures var (d, v) := Receive(c, f, choice); PingEffect(c, f, v, d) && (c.closed ==> d.closed)
  {
    ProtocolErrorCloses(c, 0);
    if !c.closed {
      if f.Ping? {
        HandlePingEffect(c, f);
      } else if f.Request? {
        HandleRequestEffect(c, f, choice.parses);
      } else if f.Push? {
        HandlePushEffect(c, f, choice.parses, choice.wants);
      } else if f.Error? {
        HandleErrorEffect(c, f);
      } else {
        StreamedEffect(c, f, choice);
      }
    }
    hide HandlePing, HandleRequest, HandlePush, HandleError, HandleClientData, HandleServerData, HandleHeaders,
      HandleResponse, ProtocolError;
  }

  lemma HandlePingEffect(c: Conn, f: F)
    requires f.Ping?
    ensures var (d, v) := HandlePing(c, f); PingEffect(c, f, v, d)
  {
  }

  lemma HandleRequestEffect(c: Conn, f: F, parses: bool)
    requires f.Request?
    ensures var (d, v) := HandleRequest(c, f, parses); PingEffect(c, f, v, d)
  {
    ProtocolErrorCloses(c, f.id);
    hide ProtocolError;
  }

  lemma HandlePushEffect(c: Conn, f: F, parses: bool, wants: bool)
    requires f.Push?
    ensures var (d, v) := HandlePush(c, f, parses, wants); PingEffect(c, f, v, d)
  {
    ProtocolErrorCloses(c, f.id);
    hide ProtocolError;
  }

  lemma HandleErrorEffect(c: Conn, f: F)
    requires f.Error?
    ensures var (d, v) := HandleError(c, f); PingEffect(c, f, v, d)
  {
    ProtocolErrorCloses(c, f.id);
    hide ProtocolError;
  }

  lemma StreamedEffect(c: Conn, f: F, choice: Choice)
    requires Demux.Streamed(f)
    ensures var (d, v) := Handle(c, f, choice); PingEffect(c, f, v, d)
  {
    hide Deliver, ProtocolError, HandleRequest, HandlePush, HandleError, HandlePing;
    DeliverTouches(c, f.id, f);
    ProtocolErrorCloses(c, f.id);
  }

  /** How an open connection deals with a ping. */
  lemma PingVerdict(c: Conn, f: F, choice: Choice)
    requires f.Ping? && !c.closed && c.benign <= MAX_BENIGN_ERRORS
    ensures Receive(c, f, choice).1 ==
      if Odd(f.pid) == Odd(c.nextPing) then if f.pid in c.pings then PingDone else PingUnknown
      else if Finish(f.flags) then Ignored else PingAnswered
  {
  }

  lemma OtherVerdict(c: Conn, f: F, choice: Choice)
    requires !f.Ping?
    ensures Receive(c, f, choice).1 != PingAnswered && Receive(c, f, choice).1 != PingDone
  {
    InboundPings(c, f, choice);
    InboundEmits(c, f, choice);
    hide Receive;
  }

  lemma TooMany(c: Conn, f: F, choice: Choice)
    requires c.benign > MAX_BENIGN_ERRORS
    ensures Receive(c, f, choice).0.closed
  {
  }

  /** `x` receives the head of `inn`; both matchings hold again. */
  lemma ReceiveKeepsBoth(x: Conn, f: F, choice: Choice, inn: seq<F>, out: seq<F>, peer: map<uint32, nat>)
    requires inn != [] && inn[0] == f
    requires Matched(x.pings, Odd(x.nextPing), out, inn) && Matched(peer, !Odd(x.nextPing), inn, out)
    ensures var d := Receive(x, f, choice).0;
      && (x.closed ==> d.closed) && d.nextPing == x.nextPing
      && (d.closed
          || (&& Matched(d.pings, Odd(d.nextPing), out + New(x, d), inn[1..])
              && Matched(peer, !Odd(d.nextPing), inn[1..], out + New(x, d))))
  {
    hide Receive, Matched, New;
    var (d, v) := Receive(x, f, choice);
    InboundPings(x, f, choice);
    InboundEmits(x, f, choice);
    var odd := Odd(x.nextPing);
    if x.benign > MAX_BENIGN_ERRORS {
      TooMany(x, f, choice);
    } else if x.closed {
    } else if f.Ping? && Odd(f.pid) == odd {
      PingVerdict(x, f, choice);
      DoneKeepsMatched(x.pings, odd, out, inn);
      SilentPop(peer, !odd, inn, out);
      SilentErrors(x.server, f, v, New(x, d), odd);
      SilentKeepsMatched(d.pings, odd, out, inn[1..], New(x, d), []);
      SilentKeepsMatched(peer, !odd, inn[1..], out, [], New(x, d));
    } else if f.Ping? {
      PingVerdict(x, f, choice);
      ReplyKeepsMatched(peer, !odd, inn, out);
      SilentPop(x.pings, odd, out, inn);
      SilentKeepsMatched(x.pings, odd, out, inn[1..], New(x, d), []);
    } else {
      OtherVerdict(x, f, choice);
      SilentPop(x.pings, odd, out, inn);
      SilentPop(peer, !odd, inn, out);
      SilentErrors(x.server, f, v, New(x, d), odd);
      SilentKeepsMatched(x.pings, odd, out, inn[1..], New(x, d), []);
      SilentKeepsMatched(peer, !odd, inn[1..], out, [], New(x, d));
    }
    assert inn[1..] + [] == inn[1..];
  }

  lemma SilentErrors(server: bool, f: F, v: Verdict, fs: seq<F>, odd: bool)
    requires Answers(server, f, v, fs) && v != PingAnswered
    ensures Silent(fs, odd) && Silent(fs, !odd)
  {
  }

  /** `x` makes a call. */
  lemma CallKeepsBoth(x: Conn, input: Input, inn: seq<F>, out: seq<F>, peer: map<uint32, nat>)
    requires !input.Inbound? && !Reuses(x, input) && x.nextPing != 0
    requires Matched(x.pings, Odd(x.nextPing), out, inn) && Matched(peer, !Odd(x.nextPing), inn, out)
    ensures var d := Step(x, input);
      && d.closed == x.closed && d.nextPing != 0 && Odd(d.nextPing) == Odd(x.nextPing)
      && Matched(d.pings, Odd(d.nextPing), out + New(x, d), inn)
      && Matched(peer, !Odd(d.nextPing), inn, out + New(x, d))
  {
    var d := Step(x, input);
    var odd := Odd(x.nextPing);
    CallEmits(x, input);
    CallPings(x, input);
    NextPingKeeps(x.nextPing);
    CallIsSilent(x, input, New(x, d), odd);
    if input.CallPing? && !x.closed {
      SendKeepsMatched(x.pings, odd, out, inn, x.nextPing, x.tickets);
    } else {
      SilentKeepsMatched(x.pings, odd, out, inn, New(x, d), []);
    }
    SilentKeepsMatched(peer, !odd, inn, out, [], New(x, d));
    hide Step, Matched, New, Silent;
    assert inn + [] == inn;
  }

  lemma CallPings(c: Conn, input: Input)
    requires !input.Inbound?
    ensures var d := Step(c, input);
      && d.closed == c.closed
      && (if input.CallPing? && !c.closed then
            d.nextPing == NextPingID(c.nextPing) && d.pings == c.pings[c.nextPing := c.tickets]
            && d.tickets == c.tickets + 1
          else d.nextPing == c.nextPing && d.pings == c.pings && d.tickets == c.tickets)
      && d.pongs == c.pongs
  {
    hide Receive, RequestFrames, NextPingID, NextRequestID, NextPushID, CloseStream;
    CloseKeepsPings(c, input);
  }

  lemma CloseKeepsPings(c: Conn, input: Input)
    ensures input.CallClose? ==>
      var d := CloseStream(c, input.id);
      && d.closed == c.closed && d.nextPing == c.nextPing && d.pings == c.pings && d.tickets == c.tickets
      && d.pongs == c.pongs
  {
  }

  lemma CallIsSilent(c: Conn, input: Input, fs: seq<F>, odd: bool)
    requires CallHandsOver(c, input, fs) && odd == Odd(c.nextPing)
    ensures Silent(fs, !odd)
    ensures !input.CallPing? || c.closed ==> Silent(fs, odd)
  {
  }

  lemma NextKeepsInv(s: System, a: Action)
    requires Inv(s) && !ReusesAt(s, a)
    ensures Inv(Next(s, a))
  {
    match a
    case DeliverUp(choice) =>
      if s.up != [] {
        InboundPings(s.server, s.up[0], choice);
        if Exchange(s) {
          ReceiveKeepsBoth(s.server, s.up[0], choice, s.up, s.down, s.client.pings);
        }
        hide Receive, Matched, New;
      }
    case DeliverDown(choice) =>
      if s.down != [] {
        InboundPings(s.client, s.down[0], choice);
        if Exchange(s) {
          ReceiveKeepsBoth(s.client, s.down[0], choice, s.down, s.up, s.server.pings);
        }
        hide Receive, Matched, New;
      }
    case ClientCall(input) =>
      if !input.Inbound? {
        CallPings(s.client, input);
        if Exchange(s) {
          CallKeepsBoth(s.client, input, s.down, s.up, s.server.pings);
        }
        hide Step, Matched, New;
      }
    case ServerCall(input) =>
      if !input.Inbound? {
        CallPings(s.server, input);
        if Exchange(s) {
          CallKeepsBoth(s.server, input, s.up, s.down, s.client.pings);
        }
        hide Step, Matched, New;
      }
    case ClientFrame(f) =>
      if Demux.Streamed(f) && Exchange(s) {
        StreamKeepsBoth(s, f);
        hide Matched;
      }
    case ServerFrame(f) =>
      if Demux.Streamed(f) && Exchange(s) {
        StreamKeepsBoth(s, f);
        hide Matched;
      }
  }

  lemma StreamKeepsBoth(s: System, f: F)
    requires Exchange(s) && Demux.Streamed(f)
    ensures Exchange(s.(up := s.up + [f])) && Exchange(s.(down := s.down + [f]))
  {
    assert forall odd :: Silent([f], odd);
    SilentKeepsMatched(s.client.pings, Odd(s.client.nextPing), s.up, s.down, [f], []);
    SilentKeepsMatched(s.client.pings, Odd(s.client.nextPing), s.up, s.down, [], [f]);
    SilentKeepsMatched(s.server.pings, Odd(s.server.nextPing), s.down, s.up, [f], []);
    SilentKeepsMatched(s.server.pings, Odd(s.server.nextPing), s.down, s.up, [], [f]);
    hide Matched;
    assert s.up + [] == s.up && s.down + [] == s.down;
  }

  /** The exchange holds in every run while both ends are open. */
  lemma {:induction false} RunKeepsExchange(s: System, actions: seq<Action>)
    requires Inv(s) && NoReuse(s, actions)
    ensures Inv(RunAll(s, actions))
    decreases actions
  {
    hide Next, Inv, ReusesAt;
    if actions != [] {
      NextKeepsInv(s, actions[0]);
      RunKeepsExchange(Next(s, actions[0]), actions[1..]);
    }
  }

  lemma StartExchanges(hasReceiver: bool, clientSeed: uint32, serverSeed: uint32)
    requires clientSeed != 0 && serverSeed != 0 && Odd(clientSeed) != Odd(serverSeed)
    ensures Exchange(Start(hasReceiver, clientSeed, serverSeed))
  {
  }

  /** So a ping that arrives at an open end either is its own, and completes one that
      is outstanding, or is the peer's, is no reply, and is answered. */
  lemma ArrivalsAreExpected(s: System, choice: Choice)
    requires Exchange(s)
    ensures s.up != [] && s.up[0].Ping? && !s.server.closed && s.server.benign <= MAX_BENIGN_ERRORS ==>
      var own := Odd(s.up[0].pid) == Odd(s.server.nextPing);
      && Receive(s.server, s.up[0], choice).1 == (if own then PingDone else PingAnswered)
      && Finish(s.up[0].flags) == own
    ensures s.down != [] && s.down[0].Ping? && !s.client.closed && s.client.benign <= MAX_BENIGN_ERRORS ==>
      var own := Odd(s.down[0].pid) == Odd(s.client.nextPing);
      && Receive(s.client, s.down[0], choice).1 == (if own then PingDone else PingAnswered)
      && Finish(s.down[0].flags) == own
  {
    if s.up != [] && s.up[0].Ping? && !s.server.closed && s.server.benign <= MAX_BENIGN_ERRORS {
      Expected(s.server, s.up[0], choice, s.up, s.down, s.client.pings);
    }
    if s.down != [] && s.down[0].Ping? && !s.client.closed && s.client.benign <= MAX_BENIGN_ERRORS {
      Expected(s.client, s.down[0], choice, s.down, s.up, s.server.pings);
    }
    hide Receive, Matched;
  }

  lemma Expected(x: Conn, f: F, choice: Choice, inn: seq<F>, out: seq<F>, peer: map<uint32, nat>)
    requires inn != [] && inn[0] == f && f.Ping? && !x.closed && x.benign <= MAX_BENIGN_ERRORS
    requires Matched(x.pings, Odd(x.nextPing), out, inn) && Matched(peer, !Odd(x.nextPing), inn, out)
    ensures var own := Odd(f.pid) == Odd(x.nextPing);
      Receive(x, f, choice).1 == (if own then PingDone else PingAnswered) && Finish(f.flags) == own
  {
    PingVerdict(x, f, choice);
    if Odd(f.pid) == Odd(x.nextPing) {
      DoneKeepsMatched(x.pings, Odd(x.nextPing), out, inn);
    } else {
      ReplyKeepsMatched(peer, !Odd(x.nextPing), inn, out);
    }
    hide Receive, Matched;
  }

  // ---------------------------------------------------------------- completions

  /** Tickets are given out once; each is outstanding under one ID, has been completed
      once, or neither. */
  ghost predicate Tickets(c: Conn) {
    && (forall pid :: pid in c.pings ==> c.pings[pid] < c.tickets && c.pings[pid] !in c.pongs)
    && (forall p, q :: p in c.pings && q in c.pings && p != q ==> c.pings[p] != c.pings[q])
    && (forall i :: 0 <= i < |c.pongs| ==> c.pongs[i] < c.tickets)
    && (forall i, j :: 0 <= i < j < |c.pongs| ==> c.pongs[i] != c.pongs[j])
  }

  /** And none is lost. */
  ghost predicate AllTickets(c: Conn) {
    forall t: nat :: t < c.tickets ==> t in c.pongs || Outstanding(c.pings, t)
  }

  ghost predicate Outstanding(pings: map<uint32, nat>, t: nat) {
    exists pid :: pid in pings && pings[pid] == t
  }

  lemma StepKeepsTickets(c: Conn, input: Input)
    requires Tickets(c)
    ensures Tickets(Step(c, input))
    ensures AllTickets(c) && !Reuses(c, input) ==> AllTickets(Step(c, input))
  {
    var d := Step(c, input);
    if input.Inbound? {
      InboundPings(c, input.frame, input.choice);
      var v := Receive(c, input.frame, input.choice).1;
      hide Receive;
      if v == PingDone {
        PongKeepsTickets(c, d, input.frame.pid);
      }
    } else {
      CallPings(c, input);
      hide Receive, StartRequest, StartPush, StartPing, CloseStream, NextPingID;
      if input.CallPing? && !c.closed {
        PingKeepsTickets(c, d);
      }
    }
    hide Step, Outstanding;
  }

  lemma PongKeepsTickets(c: Conn, d: Conn, pid: uint32)
    requires Tickets(c) && pid in c.pings
    requires d.pings == c.pings - {pid} && d.pongs == c.pongs + [c.pings[pid]] && d.tickets == c.tickets
    ensures Tickets(d) && (AllTickets(c) ==> AllTickets(d))
  {
    if AllTickets(c) {
      forall t: nat | t < d.tickets ensures t in d.pongs || Outstanding(d.pings, t) {
        if t !in c.pongs {
          var p :| p in c.pings && c.pings[p] == t;
          if p == pid {
            assert d.pongs[|c.pongs|] == t;
          } else {
            assert p in d.pings && d.pings[p] == t;
          }
        } else {
          assert t in d.pongs;
        }
      }
    }
  }

  lemma PingKeepsTickets(c: Conn, d: Conn)
    requires Tickets(c)
    requires d.pings == c.pings[c.nextPing := c.tickets] && d.pongs == c.pongs && d.tickets == c.tickets + 1
    ensures Tickets(d) && (AllTickets(c) && c.nextPing !in c.pings ==> AllTickets(d))
  {
    if AllTickets(c) && c.nextPing !in c.pings {
      forall t: nat | t < d.tickets ensures t in d.pongs || Outstanding(d.pings, t) {
        if t == c.tickets {
          assert d.pings[c.nextPing] == t;
        } else if t !in c.pongs {
          var p :| p in c.pings && c.pings[p] == t;
          assert p in d.pings && d.pings[p] == t;
        }
      }
    }
  }

  /** In any run of a connection: no ping is completed twice; and as long as no ID is
      reused while it is outstanding, every ping is outstanding or completed. */
  lemma {:induction false} PingsCompleteOnce(c: Conn, inputs: seq<Input>)
    requires Tickets(c)
    ensures Tickets(Run(c, inputs))
    ensures AllTickets(c) && NeverReuses(c, inputs) ==> AllTickets(Run(c, inputs))
    decreases inputs
  {
    hide Step, Tickets, AllTickets, Reuses;
    if inputs != [] {
      StepKeepsTickets(c, inputs[0]);
      PingsCompleteOnce(Step(c, inputs[0]), inputs[1..]);
    }
  }

  ghost predicate NeverReuses(c: Conn, inputs: seq<Input>)
    decreases inputs
  {
    inputs == [] || (!Reuses(c, inputs[0]) && NeverReuses(Step(c, inputs[0]), inputs[1..]))
  }

  // ------------------------------------------------------------------ as written

  /** An open end answers a ping exactly when its parity is not its own. */
  lemma AnsweredExactly(c: Conn, pid: uint32, choice: Choice)
    requires !c.closed && c.benign <= MAX_BENIGN_ERRORS
    ensures Receive(c, Ping(0, pid), choice).1 == PingAnswered <==> Odd(pid) != Odd(c.nextPing)
  {
    PingVerdict(c, Ping(0, pid), choice);
    hide Receive;
  }

  /** Both constructors seed nextPingID with 2: then every ping has the same parity. */
  ghost predicate OneParity(s: System, odd: bool) {
    && s.client.nextPing != 0 && s.server.nextPing != 0
    && Odd(s.client.nextPing) == odd && Odd(s.server.nextPing) == odd
    && Silent(s.up, !odd) && Silent(s.down, !odd)
  }

  lemma ReceiveKeepsParity(x: Conn, f: F, choice: Choice)
    requires f.Ping? ==> Odd(f.pid) == Odd(x.nextPing)
    ensures var (d, v) := Receive(x, f, choice);
      && v != PingAnswered && d.nextPing == x.nextPing
      && Silent(New(x, d), !Odd(x.nextPing))
  {
    InboundPings(x, f, choice);
    InboundEmits(x, f, choice);
    var (d, v) := Receive(x, f, choice);
    if f.Ping? {
      if !x.closed && x.benign <= MAX_BENIGN_ERRORS {
        PingVerdict(x, f, choice);
      }
    } else {
      OtherVerdict(x, f, choice);
    }
    assert v != PingAnswered by { hide HandlePing; }
    hide Receive;
    SilentErrors(x.server, f, v, New(x, d), Odd(x.nextPing));
  }

  lemma CallKeepsParity(x: Conn, input: Input)
    requires !input.Inbound? && x.nextPing != 0
    ensures var d := Step(x, input);
      d.nextPing != 0 && Odd(d.nextPing) == Odd(x.nextPing) && Silent(New(x, d), !Odd(x.nextPing))
  {
    CallEmits(x, input);
    CallPings(x, input);
    NextPingKeeps(x.nextPing);
    CallIsSilent(x, input, New(x, Step(x, input)), Odd(x.nextPing));
    hide Step;
  }

  lemma SilentTail(fs: seq<F>, more: seq<F>, odd: bool)
    requires Silent(fs, odd) && Silent(more, odd)
    ensures Silent(fs + more, odd)
    ensures fs != [] ==> Silent(fs[1..], odd) && (fs[0].Ping? ==> Odd(fs[0].pid) != odd)
  {
  }

  lemma NextKeepsOneParity(s: System, a: Action, odd: bool)
    requires OneParity(s, odd)
    ensures OneParity(Next(s, a), odd)
    ensures a.DeliverUp? && s.up != [] ==> Receive(s.server, s.up[0], a.choice).1 != PingAnswered
    ensures a.DeliverDown? && s.down != [] ==> Receive(s.client, s.down[0], a.choice).1 != PingAnswered
  {
    SilentTail(s.up, [], !odd);
    SilentTail(s.down, [], !odd);
    match a
    case DeliverUp(choice) =>
      if s.up != [] {
        ReceiveKeepsParity(s.server, s.up[0], choice);
        SilentTail(s.down, New(s.server, Next(s, a).server), !odd);
        hide Receive, New, Silent;
      }
    case DeliverDown(choice) =>
      if s.down != [] {
        ReceiveKeepsParity(s.client, s.down[0], choice);
        SilentTail(s.up, New(s.client, Next(s, a).client), !odd);
        hide Receive, New, Silent;
      }
    case ClientCall(input) =>
      if !input.Inbound? {
        CallKeepsParity(s.client, input);
        SilentTail(s.up, New(s.client, Next(s, a).client), !odd);
        hide Step, New, Silent;
      }
    case ServerCall(input) =>
      if !input.Inbound? {
        CallKeepsParity(s.server, input);
        SilentTail(s.down, New(s.server, Next(s, a).server), !odd);
        hide Step, New, Silent;
      }
    case ClientFrame(f) =>
      if Demux.Streamed(f) {
        SilentTail(s.up, [f], !odd);
        hide Silent;
      }
    case ServerFrame(f) =>
      if Demux.Streamed(f) {
        SilentTail(s.down, [f], !odd);
        hide Silent;
      }
  }

  /** With equal seeds no ping is ever answered, in any run. */
  lemma {:induction false} SameSeedsNeverAnswer(s: System, actions: seq<Action>, odd: bool, last: Action)
    requires OneParity(s, odd)
    ensures var t := RunAll(s, actions);
      && OneParity(t, odd)
      && (last.DeliverUp? && t.up != [] ==> Receive(t.server, t.up[0], last.choice).1 != PingAnswered)
      && (last.DeliverDown? && t.down != [] ==> Receive(t.client, t.down[0], last.choice).1 != PingAnswered)
    decreases actions
  {
    hide Next, Receive, OneParity;
    if actions != [] {
      NextKeepsOneParity(s, actions[0], odd);
      SameSeedsNeverAnswer(Next(s, actions[0]), actions[1..], odd, last);
    } else {
      NextKeepsOneParity(s, last, odd);
    }
  }

  /** What does complete a ping then is the peer's own request: here the server has
      received nothing, and the client believes that it answered. */
  lemma FalseCompletion(choice: Choice)
    ensures var s := Next(Next(Start(false, 2, 2), ServerCall(CallPing)), ClientCall(CallPing));
      var t := Next(s, DeliverDown(choice));
      OneParity(s, false) && s.down == [Ping(0, 2)] && t.client.pongs == [0] && t.server.pongs == [] && t.up == s.up
  {
    var start := Start(false, 2, 2);
    var one := Next(start, ServerCall(CallPing));
    NewOf(start.server, one.server, [Sent(0, Ping(0, 2))]);
    assert one.down == [Ping(0, 2)];
    var two := Next(one, ClientCall(CallPing));
    NewOf(one.client, two.client, [Sent(0, Ping(0, 2))]);
    assert two.client.pings == map[2 := 0] && two.client.nextPing == 4;
    var three := Next(two, DeliverDown(choice));
    NewNothing(two.client, three.client);
    assert three.up == two.up;
  }
}
