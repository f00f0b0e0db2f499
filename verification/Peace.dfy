// Compliant endpoints are at peace: as long as requests carry no body, streams are not
// closed from outside and pings are sent only if ping IDs have opposite parity, neither
// side ever counts an error or closes the connection, in any run. So every response is
// delivered, also with the equal seeds of the two constructors.

module Peace {
  import opened Protocol
  import opened Connection
  import opened Freshness
  import opened Demux
  import opened Endpoints
  import opened Agreement
  import Pings
  import D = Delivery

  /** The verdicts that are no error. */
  predicate Harmless(v: Verdict) {
    v in {Accepted, Delivered, Routed, Ignored, Unparsable, Refused, PingDone, PingAnswered}
  }

  function Answer(f: F, v: Verdict): (r: seq<Sent>) {
    if v == Refused && f.Push? then [Sent(0, Error(f.id, REFUSED_STREAM))]
    else if v == PingAnswered && f.Ping? then [Sent(0, Ping(FLAG_FINISH, f.pid))]
    else []
  }

  ghost predicate Undisturbed(c: Conn, f: F, v: Verdict, d: Conn) {
    !d.closed && d.benign == c.benign && d.out == c.out + Answer(f, v)
  }

  /** A frame with such a verdict is dealt with without an error. */
  lemma QuietHandling(c: Conn, f: F, choice: Choice)
    requires !c.closed && c.benign <= MAX_BENIGN_ERRORS && Harmless(Receive(c, f, choice).1)
    ensures !f.Error? ==> var (d, v) := Receive(c, f, choice); Undisturbed(c, f, v, d)
  {
    assert c.out + [] == c.out;
    if f.Request? {
      QuietRequest(c, f, choice);
    } else if f.Push? {
      QuietPush(c, f, choice);
    } else if f.Ping? {
      QuietPing(c, f, choice);
    } else if !f.Error? {
      QuietStreamed(c, f, choice);
    }
    hide Receive, Undisturbed;
  }

  lemma QuietRequest(c: Conn, f: F, choice: Choice)
    requires f.Request? && !c.closed && c.benign <= MAX_BENIGN_ERRORS && Harmless(Receive(c, f, choice).1)
    requires c.out + [] == c.out
    ensures var (d, v) := Receive(c, f, choice); Undisturbed(c, f, v, d)
  {
    hide ProtocolError, HandlePush, HandlePing, HandleError, HandleClientData, HandleServerData, HandleHeaders,
      HandleResponse;
  }

  lemma QuietPush(c: Conn, f: F, choice: Choice)
    requires f.Push? && !c.closed && c.benign <= MAX_BENIGN_ERRORS && Harmless(Receive(c, f, choice).1)
    requires c.out + [] == c.out
    ensures var (d, v) := Receive(c, f, choice); Undisturbed(c, f, v, d)
  {
    hide ProtocolError, HandleRequest, HandlePing, HandleError, HandleClientData, HandleServerData, HandleHeaders,
      HandleResponse;
  }

  lemma QuietPing(c: Conn, f: F, choice: Choice)
    requires f.Ping? && !c.closed && c.benign <= MAX_BENIGN_ERRORS && Harmless(Receive(c, f, choice).1)
    requires c.out + [] == c.out
    ensures var (d, v) := Receive(c, f, choice); Undisturbed(c, f, v, d)
  {
    hide ProtocolError, HandleRequest, HandlePush, HandleError, HandleClientData, HandleServerData, HandleHeaders,
      HandleResponse;
  }

  lemma QuietStreamed(c: Conn, f: F, choice: Choice)
    requires Streamed(f) && !c.closed && c.benign <= MAX_BENIGN_ERRORS && Harmless(Receive(c, f, choice).1)
    requires c.out + [] == c.out
    ensures var (d, v) := Receive(c, f, choice); Undisturbed(c, f, v, d)
  {
    DeliveredQuietly(c, f.id, f);
    hide Deliver, ProtocolError, HandleRequest, HandlePush, HandleError, HandlePing;
  }

  lemma DeliveredQuietly(c: Conn, id: uint32, f: F)
    requires !c.closed
    ensures var (d, v) := Deliver(c, id, f);
      && v in {Delivered, Discarded, NotOpen, Crash}
      && (v == Delivered ==> !d.closed && d.benign == c.benign && d.out == c.out)
  {
    if id in c.streams && c.streams[id].state.Some? {
      ReceiveTouches(c, id, f);
    }
    hide ReceiveFrame;
  }

  // ------------------------------------------------------------------ the links

  /** Without request bodies, what goes up are requests, pings and refusals. */
  ghost predicate UpCalm(fs: seq<F>) {
    forall i :: 0 <= i < |fs| ==> fs[i].Request? || fs[i].Ping? || (fs[i].Error? && fs[i].status == REFUSED_STREAM)
  }

  /** No ERROR comes down, and pushed streams send HEADERS and DATA only. */
  ghost predicate DownCalm(fs: seq<F>) {
    forall i :: 0 <= i < |fs| ==>
      !fs[i].Error? && !fs[i].Request? && (fs[i].Response? ==> Odd(fs[i].id))
  }

  lemma UpCalmAppend(a: seq<F>, b: seq<F>)
    requires UpCalm(a) && UpCalm(b)
    ensures UpCalm(a + b) && (a != [] ==> UpCalm(a[1..]))
  {
  }

  lemma DownCalmAppend(a: seq<F>, b: seq<F>)
    requires DownCalm(a) && DownCalm(b)
    ensures DownCalm(a + b) && (a != [] ==> DownCalm(a[1..]))
  {
  }

  predicate Fine(c: Conn) {
    !c.closed && c.benign == 0
  }

  /** Pings can be sent: the ping IDs of the two ends have different parities. */
  predicate Opposed(s: System) {
    s.client.nextPing != 0 && s.server.nextPing != 0 && Odd(s.client.nextPing) != Odd(s.server.nextPing)
  }

  ghost predicate NoPing(fs: seq<F>) {
    forall i :: 0 <= i < |fs| ==> !fs[i].Ping?
  }

  /** No ping has been sent and not dealt with. */
  ghost predicate PingFree(s: System) {
    s.client.pings == map[] && s.server.pings == map[] && NoPing(s.up) && NoPing(s.down)
  }

  ghost predicate PingsFine(s: System) {
    Pings.Exchange(s) || PingFree(s)
  }

  ghost predicate Calm(w: D.World) {
    && D.Inv(w) && PingsFine(w.sys)
    && UpCalm(w.sys.up) && DownCalm(w.sys.down)
    && Fine(w.sys.client) && Fine(w.sys.server)
  }

  /** Requests have no body, pings are sent between opposed ends only, and a pushed stream
      sends what its kind sends. */
  predicate Compliant(w: D.World, m: D.Move) {
    match m
    case Api(a) =>
      && D.IsCall(a) && !WrapsAt(w.sys, a) && !Pings.ReusesAt(w.sys, a)
      && (a.input.CallRequest? ==> a.input.asked.body.None? || a.input.asked.body.value == [])
      && (a.input.CallPing? ==> Opposed(w.sys))
    case Pushed(f) => f.Data? || f.Headers?
    case _ => true
  }

  ghost predicate AllCompliant(w: D.World, moves: seq<D.Move>)
    decreases moves
  {
    moves == [] || (Compliant(w, moves[0]) && AllCompliant(D.Do(w, moves[0]), moves[1..]))
  }

  // ------------------------------------------------------------------------- pings

  lemma {:induction false} NoPingCounts(fs: seq<F>, pid: uint32)
    requires NoPing(fs)
    ensures Pings.Count(fs, pid) == 0
  {
    if fs != [] {
      NoPingCounts(fs[1..], pid);
    }
  }

  lemma NoPingMatches(odd: bool, there: seq<F>, back: seq<F>)
    requires NoPing(there) && NoPing(back)
    ensures Pings.Matched(map[], odd, there, back)
  {
    forall pid: uint32 ensures Pings.Count(there, pid) + Pings.Count(back, pid) == 0 {
      NoPingCounts(there, pid);
      NoPingCounts(back, pid);
    }
    hide Pings.Count;
  }

  /** Opposed ends without a ping in flight are ready to exchange pings. */
  lemma FreeIsExchange(s: System)
    requires PingsFine(s) && Opposed(s)
    ensures Pings.Exchange(s)
  {
    hide Pings.Matched;
    if PingFree(s) {
      NoPingMatches(Odd(s.client.nextPing), s.up, s.down);
      NoPingMatches(Odd(s.server.nextPing), s.down, s.up);
    }
  }

  /** A ping can only be in flight in an exchange. */
  lemma PingMeansExchange(s: System)
    requires PingsFine(s)
    ensures s.up != [] && s.up[0].Ping? ==> Pings.Exchange(s)
    ensures s.down != [] && s.down[0].Ping? ==> Pings.Exchange(s)
  {
    hide Pings.Exchange;
  }

  lemma NoPingAppend(a: seq<F>, b: seq<F>)
    requires NoPing(a) && NoPing(b)
    ensures NoPing(a + b)
  {
  }

  lemma NoPingTail(fs: seq<F>)
    requires NoPing(fs) && fs != []
    ensures NoPing(fs[1..])
  {
  }

  lemma AnswersNoPing(server: bool, f: F, v: Verdict, fs: seq<F>)
    requires Answers(server, f, v, fs) && !f.Ping?
    ensures NoPing(fs)
  {
  }

  lemma UpStaysFree(s: System, choice: Choice)
    requires PingFree(s) && s.up != []
    ensures PingFree(Next(s, DeliverUp(choice)))
  {
    hide Receive, New, NoPing, Next;
    var c, f := s.server, s.up[0];
    var (d, v) := Receive(c, f, choice);
    assert !f.Ping? by { HeadNoPing(s.up); }
    Pings.InboundPings(c, f, choice);
    InboundEmits(c, f, choice);
    AnswersNoPing(c.server, f, v, New(c, d));
    NoPingTail(s.up);
    NoPingAppend(s.down, New(c, d));
    D.NextUp(s, choice);
  }

  lemma DownStaysFree(s: System, choice: Choice)
    requires PingFree(s) && s.down != []
    ensures PingFree(Next(s, DeliverDown(choice)))
  {
    hide Receive, New, NoPing, Next;
    var c, f := s.client, s.down[0];
    var (d, v) := Receive(c, f, choice);
    assert !f.Ping? by { HeadNoPing(s.down); }
    Pings.InboundPings(c, f, choice);
    InboundEmits(c, f, choice);
    AnswersNoPing(c.server, f, v, New(c, d));
    NoPingTail(s.down);
    NoPingAppend(s.up, New(c, d));
    D.NextDown(s, choice);
  }

  lemma HeadNoPing(fs: seq<F>)
    requires NoPing(fs) && fs != []
    ensures !fs[0].Ping?
  {
  }

  lemma CallNoPing(c: Conn, input: Input, fs: seq<F>)
    requires CallHandsOver(c, input, fs) && !input.CallPing?
    ensures NoPing(fs)
  {
    hide StartRequest, StartPush;
  }

  lemma CallStaysFree(s: System, a: Action)
    requires PingFree(s) && D.IsCall(a) && !a.input.CallPing?
    ensures PingFree(Next(s, a))
  {
    hide Step, New, NoPing;
    var c := if a.ClientCall? then s.client else s.server;
    Pings.CallPings(c, a.input);
    CallEmits(c, a.input);
    CallNoPing(c, a.input, New(c, Step(c, a.input)));
    NoPingAppend(if a.ClientCall? then s.up else s.down, New(c, Step(c, a.input)));
  }

  lemma FrameStaysFree(s: System, f: F)
    requires PingFree(s) && Streamed(f)
    ensures PingFree(Next(s, ServerFrame(f)))
  {
    NoPingAppend(s.down, [f]);
    hide NoPing;
  }

  /** Every compliant step leaves the pings fine, or closes an end. */
  lemma NextKeepsPings(s: System, a: Action)
    requires PingsFine(s) && !Pings.ReusesAt(s, a)
    requires a.ClientCall? || a.ServerCall? ==> D.IsCall(a) && (a.input.CallPing? ==> Opposed(s))
    requires !a.ClientFrame?
    ensures var t := Next(s, a); t.client.closed || t.server.closed || PingsFine(t)
  {
    hide Next, Pings.Exchange, PingFree, Pings.ReusesAt;
    if (a.ClientCall? || a.ServerCall?) && a.input.CallPing? {
      FreeIsExchange(s);
    }
    if Pings.Exchange(s) {
      Pings.NextKeepsInv(s, a);
    } else {
      match a
      case DeliverUp(choice) =>
        if s.up != [] {
          UpStaysFree(s, choice);
        } else {
          IdleStep(s, a);
        }
      case DeliverDown(choice) =>
        if s.down != [] {
          DownStaysFree(s, choice);
        } else {
          IdleStep(s, a);
        }
      case ServerFrame(f) =>
        if Streamed(f) {
          FrameStaysFree(s, f);
        } else {
          IdleStep(s, a);
        }
      case _ => CallStaysFree(s, a);
    }
  }

  lemma IdleStep(s: System, a: Action)
    requires (a.DeliverUp? && s.up == []) || (a.DeliverDown? && s.down == []) || (a.ServerFrame? && !Streamed(a.frame))
    ensures Next(s, a) == s
  {
  }

  // ------------------------------------------------------------------ what arrives

  lemma UpIsQuiet(w: D.World, choice: Choice)
    requires Calm(w) && w.sys.up != []
    ensures var f := w.sys.up[0];
      if f.Error? then f.status == REFUSED_STREAM
      else Harmless(Receive(w.sys.server, f, choice).1) && Receive(w.sys.server, f, choice).1 != Refused
  {
    var f := w.sys.up[0];
    assert f.Request? || f.Ping? || (f.Error? && f.status == REFUSED_STREAM);
    D.InvMeans(w);
    if f.Request? {
      RequestIsNeverRejected(w.sys, choice);
    } else if f.Ping? {
      PingMeansExchange(w.sys);
      Pings.ArrivalsAreExpected(w.sys, choice);
    }
    hide Receive, D.Inv, PingsFine, Pings.Exchange, Agree;
  }

  lemma DownIsQuiet(w: D.World, choice: Choice)
    requires Calm(w) && w.sys.down != []
    ensures Harmless(Receive(w.sys.client, w.sys.down[0], choice).1)
  {
    var f := w.sys.down[0];
    assert !f.Error? && !f.Request? && (f.Response? ==> Odd(f.id));
    D.InvMeans(w);
    D.AgreeMeans(w.sys);
    if f.Push? {
      PushIsNeverRejected(w.sys, choice);
    } else if f.Ping? {
      PingMeansExchange(w.sys);
      Pings.ArrivalsAreExpected(w.sys, choice);
    } else if Odd(f.id) {
      D.NeverRejected(w, choice);
    } else {
      PushedIsQuiet(w.sys.client, f, choice);
    }
    hide Receive, D.Inv, Pings.Exchange, Agree;
  }

  lemma PushedIsQuiet(c: Conn, f: F, choice: Choice)
    requires Fine(c) && !c.server && (f.Data? || f.Headers?) && !Odd(f.id)
    ensures Receive(c, f, choice).1 in {Routed, Ignored}
  {
  }

  lemma RefusalIsQuiet(c: Conn, f: F, choice: Choice)
    requires f.Error? && f.status == REFUSED_STREAM && Fine(c)
    ensures var d := Receive(c, f, choice).0; Fine(d) && d.out == c.out
  {
  }

  // --------------------------------------------------------------------- the moves

  lemma UpKeepsCalm(w: D.World, choice: Choice)
    requires Calm(w) && w.sys.up != []
    ensures var s := Next(w.sys, DeliverUp(choice));
      Fine(s.client) && Fine(s.server) && UpCalm(s.up) && DownCalm(s.down) && PingsFine(s)
  {
    var c, f := w.sys.server, w.sys.up[0];
    var (d, v) := Receive(c, f, choice);
    UpIsQuiet(w, choice);
    NextKeepsPings(w.sys, DeliverUp(choice));
    D.NextUp(w.sys, choice);
    if f.Error? {
      RefusalIsQuiet(c, f, choice);
      NewNothing(c, d);
    } else {
      QuietHandling(c, f, choice);
      NewOf(c, d, Answer(f, v));
    }
    UpCalmAppend(w.sys.up, []);
    AnswerDown(f, v);
    DownCalmAppend(w.sys.down, New(c, d));
    hide Receive, Next, New, D.Inv, UpCalm, DownCalm, Answer, PingsFine;
  }

  lemma AnswerDown(f: F, v: Verdict)
    ensures v != Refused ==> DownCalm(FramesOf(Answer(f, v)))
    ensures UpCalm(FramesOf(Answer(f, v)))
    ensures DownCalm([])
  {
  }

  lemma DownKeepsCalm(w: D.World, choice: Choice)
    requires Calm(w) && w.sys.down != []
    ensures var s := Next(w.sys, DeliverDown(choice));
      Fine(s.client) && Fine(s.server) && UpCalm(s.up) && DownCalm(s.down) && PingsFine(s)
  {
    var c, f := w.sys.client, w.sys.down[0];
    var (d, v) := Receive(c, f, choice);
    DownIsQuiet(w, choice);
    assert !f.Error?;
    NextKeepsPings(w.sys, DeliverDown(choice));
    D.NextDown(w.sys, choice);
    QuietHandling(c, f, choice);
    NewOf(c, d, Answer(f, v));
    DownCalmAppend(w.sys.down, []);
    AnswerDown(f, v);
    UpCalmAppend(w.sys.up, New(c, d));
    hide Receive, Next, New, D.Inv, UpCalm, DownCalm, Answer, PingsFine;
  }

  lemma CallIsFine(c: Conn, input: Input)
    requires !input.Inbound?
    ensures var d := Step(c, input); d.closed == c.closed && d.benign == c.benign
  {
    hide Receive, RequestFrames;
  }

  lemma CallUpCalm(c: Conn, input: Input)
    requires D.IsCall(ClientCall(input)) && !c.server
    requires input.CallRequest? ==> input.asked.body.None? || input.asked.body.value == []
    ensures UpCalm(New(c, Step(c, input)))
  {
    CallEmits(c, input);
    InsertedIsCalls(c, input);
    if input.CallRequest? {
      BodilessRequest(c, input.asked);
    }
    hide Step, New, StartRequest, StartPush;
  }

  lemma BodilessRequest(c: Conn, a: Asked)
    requires a.body.None? || a.body.value == []
    ensures UpCalm(New(c, Step(c, CallRequest(a))))
  {
    var d := Step(c, CallRequest(a));
    var id := StartRequest(c, a).1;
    hide Receive, FramesOf;
    if id.Some? {
      NewOf(c, d, RequestFrames(id.value, a));
    } else {
      NewNothing(c, d);
    }
  }

  lemma CallDownCalm(c: Conn, input: Input)
    requires D.IsCall(ServerCall(input)) && c.server
    ensures DownCalm(New(c, Step(c, input)))
  {
    CallEmits(c, input);
    InsertedIsCalls(c, input);
    hide Step, New, StartRequest, StartPush;
  }

  lemma ApiKeepsCalm(w: D.World, a: Action)
    requires Calm(w) && Compliant(w, D.Api(a))
    ensures var s := Next(w.sys, a);
      Fine(s.client) && Fine(s.server) && UpCalm(s.up) && DownCalm(s.down) && PingsFine(s)
  {
    D.InvMeans(w);
    D.AgreeMeans(w.sys);
    NextKeepsPings(w.sys, a);
    if a.ClientCall? {
      CallIsFine(w.sys.client, a.input);
      CallUpCalm(w.sys.client, a.input);
      UpCalmAppend(w.sys.up, New(w.sys.client, Step(w.sys.client, a.input)));
    } else {
      CallIsFine(w.sys.server, a.input);
      CallDownCalm(w.sys.server, a.input);
      DownCalmAppend(w.sys.down, New(w.sys.server, Step(w.sys.server, a.input)));
    }
    hide Step, New, D.Inv, UpCalm, DownCalm, Agree, Pings.ReusesAt, PingsFine;
  }

  lemma FrameKeepsCalm(w: D.World, f: F)
    requires Calm(w) && Streamed(f) && (f.Response? ==> Odd(f.id))
    ensures var s := Next(w.sys, ServerFrame(f));
      Fine(s.client) && Fine(s.server) && UpCalm(s.up) && DownCalm(s.down) && PingsFine(s)
  {
    hide D.Inv, UpCalm, DownCalm, Next, PingsFine;
    NextKeepsPings(w.sys, ServerFrame(f));
    D.NextServerFrame(w.sys, f);
    DownCalmOne(f);
    DownCalmAppend(w.sys.down, [f]);
  }

  lemma DownCalmOne(f: F)
    requires Streamed(f) && (f.Response? ==> Odd(f.id))
    ensures DownCalm([f])
  {
  }

  lemma DoKeepsCalm(w: D.World, m: D.Move)
    requires Calm(w) && Compliant(w, m)
    ensures Calm(D.Do(w, m))
  {
    hide D.Inv, Next, Receive, D.Reply, PingsFine, UpCalm, DownCalm, Fine, WrapsAt;
    D.DoKeepsInv(w, m);
    match m
    case Api(a) => ApiKeepsCalm(w, a);
    case Up(choice, _) =>
      if w.sys.up != [] {
        UpKeepsCalm(w, choice);
      }
    case Down(choice) =>
      if w.sys.down != [] {
        DownKeepsCalm(w, choice);
      } else {
        D.NextNothing(w, choice);
      }
    case Hand(id) =>
      if id in w.pending && w.pending[id] != [] {
        D.PendingHead(w, id);
        FrameKeepsCalm(w, w.pending[id][0]);
      }
    case Pushed(f) =>
      if Streamed(f) && !Odd(f.id) {
        FrameKeepsCalm(w, f);
      }
  }

  /** Peace in every run: no error is ever counted, and neither end ever closes. */
  lemma {:induction false} RunIsCalm(w: D.World, moves: seq<D.Move>)
    requires Calm(w) && AllCompliant(w, moves)
    ensures Calm(D.DoAll(w, moves))
    decreases moves
  {
    hide D.Do, Calm, Compliant;
    if moves != [] {
      DoKeepsCalm(w, moves[0]);
      RunIsCalm(D.Do(w, moves[0]), moves[1..]);
    }
  }

  lemma OpenIsCalm(hasReceiver: bool, clientSeed: uint32, serverSeed: uint32)
    ensures Calm(D.Open(hasReceiver, clientSeed, serverSeed))
  {
    D.OpenDelivers(hasReceiver, clientSeed, serverSeed);
    hide D.Inv, Pings.Exchange;
  }

  /** So delivery needs no proviso: in every compliant run, at any moment, the receiver
      of each accepted request has been told a beginning of its response, and all of it
      once nothing is left on the way. */
  lemma EveryResponseArrives(hasReceiver: bool, clientSeed: uint32, serverSeed: uint32, moves: seq<D.Move>, id: uint32)
    requires AllCompliant(D.Open(hasReceiver, clientSeed, serverSeed), moves)
    requires id in D.DoAll(D.Open(hasReceiver, clientSeed, serverSeed), moves).jobs
    ensures var w := D.DoAll(D.Open(hasReceiver, clientSeed, serverSeed), moves);
      var calls := CallsOn(w.sys.client.calls, OfStream(id));
      && !w.sys.client.closed && !w.sys.server.closed && id in w.pending
      && calls <= AllEffects(D.Reply(id, w.jobs[id]))
      && (D.Left(w, id) == [] ==>
            calls == AllEffects(D.Reply(id, w.jobs[id])) && D.BytesOf(calls) == D.Written(id, w.jobs[id]))
  {
    var w := D.DoAll(D.Open(hasReceiver, clientSeed, serverSeed), moves);
    OpenIsCalm(hasReceiver, clientSeed, serverSeed);
    RunIsCalm(D.Open(hasReceiver, clientSeed, serverSeed), moves);
    D.InvMeans(w);
    D.InvTells(w);
    hide D.Open, D.DoAll, D.Inv, D.AllUntold, D.UpLink, CallsOn, D.BytesOf, D.Reply, PingsFine, UpCalm, DownCalm;
    D.ToldMeans(w.sys.client, id, D.Reply(id, w.jobs[id]), D.Left(w, id));
    D.Outcome(id, w.jobs[id]);
  }

  // ---------------------------------------------------------------------- progress

  lemma HandStep(w: D.World, id: uint32)
    requires Calm(w) && id in w.pending && w.pending[id] != []
    ensures var v := D.Do(w, D.Hand(id)); v.jobs == w.jobs && v.pending == w.pending[id := w.pending[id][1..]]
  {
    hide Next, D.Inv, PingsFine, UpCalm, DownCalm;
  }

  lemma DownStep(w: D.World, choice: Choice)
    requires w.sys.down != []
    ensures var v := D.Do(w, D.Down(choice));
      v.jobs == w.jobs && v.pending == w.pending && v.sys.down == w.sys.down[1..]
  {
    D.NextDown(w.sys, choice);
    hide Next;
  }

  /** A handler's remaining frames can be handed over. */
  lemma {:induction false} HandAll(w: D.World, id: uint32) returns (moves: seq<D.Move>)
    requires Calm(w) && id in w.pending
    ensures AllCompliant(w, moves)
    ensures var v := D.DoAll(w, moves); v.jobs == w.jobs && id in v.pending && v.pending[id] == []
    decreases |w.pending[id]|
  {
    hide D.Do, Calm;
    moves := [];
    if w.pending[id] != [] {
      var v := D.Do(w, D.Hand(id));
      HandStep(w, id);
      DoKeepsCalm(w, D.Hand(id));
      var rest := HandAll(v, id);
      moves := [D.Hand(id)] + rest;
      assert moves[0] == D.Hand(id) && moves[1..] == rest;
    }
  }

  /** What is on the way down can be delivered. */
  lemma {:induction false} DownAll(w: D.World, choice: Choice) returns (moves: seq<D.Move>)
    requires Calm(w)
    ensures AllCompliant(w, moves)
    ensures var v := D.DoAll(w, moves); v.jobs == w.jobs && v.pending == w.pending && v.sys.down == []
    decreases |w.sys.down|
  {
    hide D.Do, Calm;
    moves := [];
    if w.sys.down != [] {
      var v := D.Do(w, D.Down(choice));
      DownStep(w, choice);
      DoKeepsCalm(w, D.Down(choice));
      var rest := DownAll(v, choice);
      moves := [D.Down(choice)] + rest;
      assert moves[0] == D.Down(choice) && moves[1..] == rest;
    }
  }

  lemma {:induction false} RunInTwo(w: D.World, a: seq<D.Move>, b: seq<D.Move>)
    requires AllCompliant(w, a) && AllCompliant(D.DoAll(w, a), b)
    ensures AllCompliant(w, a + b) && D.DoAll(w, a + b) == D.DoAll(D.DoAll(w, a), b)
    decreases a
  {
    hide D.Do, Compliant;
    if a == [] {
      assert a + b == b;
    } else {
      assert (a + b)[0] == a[0] && (a + b)[1..] == a[1..] + b;
      RunInTwo(D.Do(w, a[0]), a[1..], b);
    }
  }

  /** From every state that can be reached, the response to every accepted request can
      still arrive whole. */
  lemma CanAlwaysFinish(w: D.World, id: uint32, choice: Choice) returns (moves: seq<D.Move>)
    requires Calm(w) && id in w.jobs
    ensures AllCompliant(w, moves)
    ensures var v := D.DoAll(w, moves);
      && v.jobs == w.jobs && Calm(v)
      && CallsOn(v.sys.client.calls, OfStream(id)) == AllEffects(D.Reply(id, w.jobs[id]))
  {
    hide D.Do, D.DoAll, D.Inv, D.Reply, PingsFine, UpCalm, DownCalm, CallsOn;
    D.InvMeans(w);
    var handing := HandAll(w, id);
    var v := D.DoAll(w, handing);
    RunIsCalm(w, handing);
    var delivering := DownAll(v, choice);
    moves := handing + delivering;
    RunInTwo(w, handing, delivering);
    RunIsCalm(w, moves);
    var u := D.DoAll(w, moves);
    D.InvTells(u);
    assert D.Left(u, id) == [] by {
      assert u.sys.down == [] && u.pending[id] == [];
    }
    assert D.Told(u.sys.client, id, D.Reply(id, w.jobs[id]), D.Left(u, id));
    D.ToldMeans(u.sys.client, id, D.Reply(id, w.jobs[id]), D.Left(u, id));
  }
}
