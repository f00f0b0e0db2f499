// What becomes of the header set that a handler prepares: it goes out with the next frame
// that has a header, whole and once, nothing else does, and the http.Response has it.

module HandlerHeaders {
  import opened Protocol
  import opened HeaderBlock
  import S = StreamStates
  import SS = ServerStreams
  import P = Pipeline
  import Chunking
  import C = Connection
  import Demux
  import D = Delivery
  import R = Responses
  import PS = PushStreams
  import CS = ClientStreams

  type F = C.F

  const VERSION: Bytes := Ascii(":version")

  /** The names that a RESPONSE sets itself. */
  predicate Reserved(name: Bytes) {
    name == R.STATUS || name == VERSION
  }

  /** A header set goes out: every name the handler had, with its values, and no other. */
  ghost predicate Carries(sent: Header, had: Header) {
    forall name :: !Reserved(name) ==>
      (name in sent <==> name in had) && (name in had ==> sent[name] == had[name])
  }

  /** What stays of it: the names that are not the canonical form of any sent name. */
  ghost predicate Leaves(sent: Header, left: Header) {
    && (forall name :: name in left <==> name in sent && forall other :: other in sent ==> Canonical(other) != name)
    && forall name :: name in left ==> name in sent && left[name] == sent[name]
  }

  /** A RESPONSE with that answer and header set; it ends the stream exactly for a cached
      response and for redirections, which have no body, and at the end of Run. */
  ghost predicate Answers(f: F, id: uint32, code: int, subcode: int, status: Bytes, had: Header, final: bool) {
    && f.Response? && f.id == id && f.priority == 0 && f.code == code % 256 && f.subcode == subcode % 256
    && Carries(f.header, had)
    && R.STATUS in f.header && f.header[R.STATUS] == [status]
    && VERSION in f.header && f.header[VERSION] == [Ascii("HTTP/1.1")]
    && f.flags == if final || code == 1 || (code == 0 && subcode == 1) then FLAG_FINISH else 0
  }

  // ------------------------------------------------------------------------ the calls

  lemma NamesDiffer()
    ensures R.STATUS != VERSION
  {
    assert R.STATUS[1] == 115 && VERSION[1] == 118;
  }

  lemma StatusSet(h: Header, status: Bytes)
    ensures Carries(SS.WithStatus(h, status), h)
    ensures var g := SS.WithStatus(h, status);
      && R.STATUS in g && g[R.STATUS] == [status] && VERSION in g && g[VERSION] == [Ascii("HTTP/1.1")]
  {
    NamesDiffer();
  }

  lemma ClearedLeaves(h: Header)
    ensures Leaves(h, SS.Cleared(h))
  {
    hide Canonical;
  }

  /** WriteResponse, the first time. */
  lemma ResponseCarries(s: SS.Server, code: int, subcode: int)
    requires !s.wroteResponse
    ensures var t := SS.WriteResponse(s, code, subcode);
      && |t.out| == |s.out| + 1 && t.out[..|s.out|] == s.out && t.wroteResponse && t.live == s.live
      && var f := t.out[|s.out|];
         && Answers(f, s.id, code, subcode, SS.Itoa(SS.WpToHttp(code, subcode)), s.header, false)
         && Leaves(f.header, t.header)
         && (S.ClosedHere(t.state) <==> S.ClosedHere(s.state) || Finish(f.flags))
         && (S.ClosedThere(t.state) <==> S.ClosedThere(s.state))
  {
    hide Carries, Leaves, SS.WithStatus, SS.Cleared, SS.WpToHttp, SS.Itoa;
    var status := SS.Itoa(SS.WpToHttp(code, subcode));
    StatusSet(s.header, status);
    ClearedLeaves(SS.WithStatus(s.header, status));
  }

  /** The HEADERS frame of a Write, if any. */
  lemma FlushCarries(s: SS.Server)
    ensures var t := SS.Flush(s);
      if s.header == map[] then t == s
      else t == s.(header := t.header, out := s.out + [Headers(0, s.id, s.header)]) && Leaves(s.header, t.header)
  {
    hide Leaves, SS.Cleared;
    ClearedLeaves(s.header);
  }

  /** The frame at the end of Run, if any. */
  lemma EpilogueCarries(s: SS.Server)
    ensures var t := SS.Epilogue(s);
      && S.ClosedHere(t.state) && (S.ClosedThere(t.state) <==> S.ClosedThere(s.state))
      && if S.ClosedHere(s.state) then t.out == s.out
         else
           && |t.out| == |s.out| + 1 && t.out[..|s.out|] == s.out
           && var f := t.out[|s.out|];
              if s.wroteResponse then f == Data(FLAG_FINISH, s.id, [])
              else Answers(f, s.id, 0, 0, Ascii("200"), s.header, true)
  {
    hide Carries, SS.WithStatus;
    StatusSet(s.header, Ascii("200"));
  }

  // ------------------------------------------------------------------------ programs

  /** The header sets that frames carry, in order. */
  function Sets(fs: seq<F>): (hs: seq<Header>) {
    if fs == [] then []
    else (if fs[0].Response? || fs[0].Headers? then [fs[0].header] else []) + Sets(fs[1..])
  }

  lemma {:induction false} SetsAppend(a: seq<F>, b: seq<F>)
    ensures Sets(a + b) == Sets(a) + Sets(b)
  {
    if a == [] {
      assert a + b == b;
    } else {
      assert (a + b)[0] == a[0] && (a + b)[1..] == a[1..] + b;
      SetsAppend(a[1..], b);
      var first := if a[0].Response? || a[0].Headers? then [a[0].header] else [];
      assert first + (Sets(a[1..]) + Sets(b)) == first + Sets(a[1..]) + Sets(b);
    }
  }

  lemma SetsOne(f: F)
    ensures Sets([f]) == if f.Response? || f.Headers? then [f.header] else []
  {
    assert [f][1..] == [];
  }

  lemma {:induction false} DataHasNone(fs: seq<F>)
    requires forall i :: 0 <= i < |fs| ==> fs[i].Data?
    ensures Sets(fs) == []
  {
    if fs != [] {
      DataHasNone(fs[1..]);
    }
  }

  /** The frames that one state has put out beyond another. */
  function Beyond(s: SS.Server, t: SS.Server): (fs: seq<F>) {
    if |s.out| <= |t.out| then t.out[|s.out|..] else []
  }

  /** Whether a call writes the response, and whether it sends any header set. */
  predicate Responds(s: SS.Server, op: SS.Op) {
    !s.wroteResponse &&
    match op
    case SetHeader(_) => false
    case CallWriteHeader(_) => true
    case CallWriteResponse(_, _) => true
    case CallWrite(_, _) => SS.Accepts(s, op)
  }

  predicate Sends(s: SS.Server, op: SS.Op) {
    Responds(s, op) || (SS.Accepts(s, op) && s.header != map[])
  }

  /** Calls keep this: a handler has called WriteHeader only if the response is out. */
  predicate Sound(s: SS.Server) {
    s.live && (s.wroteHeader ==> s.wroteResponse)
  }

  /** What a call puts out: nothing, or first the header set as the handler has it, and
      then nothing that is not in it. */
  ghost predicate Outgoing(s: SS.Server, op: SS.Op, t: SS.Server) {
    var hs := Sets(Beyond(s, t));
    && s.out <= t.out && Sound(t)
    && (hs != [] <==> Sends(s, op))
    && (hs != [] ==> Carries(hs[0], s.header) && Later(hs))
    && (!Sends(s, op) ==> t.header == if op.SetHeader? then op.header else s.header)
    && (hs != [] ==> Part(t.header, hs[0]))
  }

  /** Sets after the first repeat names and values of the first. */
  ghost predicate Later(hs: seq<Header>) {
    forall k :: 1 <= k < |hs| ==> Part(hs[k], hs[0])
  }

  ghost predicate Part(h: Header, whole: Header) {
    forall name :: name in h ==> name in whole && h[name] == whole[name]
  }

  lemma LeavesPart(sent: Header, left: Header)
    requires Leaves(sent, left)
    ensures Part(left, sent)
  {
  }

  lemma RespondingGoes(s: SS.Server, code: int, subcode: int, wrote: bool)
    requires !s.wroteResponse && s.live
    ensures var t := SS.WriteResponse(s.(wroteHeader := wrote), code, subcode);
      && s.out <= t.out && Sound(t) && t.live && t.wroteResponse
      && |t.out| == |s.out| + 1 && Sets(Beyond(s, t)) == [t.out[|s.out|].header] && t.out[|s.out|].Response?
      && Carries(t.out[|s.out|].header, s.header) && Part(t.header, t.out[|s.out|].header)
  {
    hide SS.WriteResponse, Carries, Leaves, Part, Sets, SS.Itoa, SS.WpToHttp;
    var u := s.(wroteHeader := wrote);
    var t := SS.WriteResponse(u, code, subcode);
    ResponseCarries(u, code, subcode);
    LeavesPart(t.out[|s.out|].header, t.header);
    assert t.out[|s.out|..] == [t.out[|s.out|]];
    SetsOne(t.out[|s.out|]);
  }

  lemma HeaderThenData(before: seq<F>, id: uint32, h: Header, more: seq<F>)
    requires Sets(more) == []
    ensures Sets((before + [Headers(0, id, h)] + more)[|before|..]) == [h]
    ensures Sets((before + more)[|before|..]) == []
  {
    hide Sets;
    SetsOne(Headers(0, id, h));
    SetsAppend([Headers(0, id, h)], more);
    assert (before + [Headers(0, id, h)] + more)[|before|..] == [Headers(0, id, h)] + more;
    assert (before + more)[|before|..] == more;
  }

  /** The last part of a Write, from the state after its response. */
  lemma WritingGoes(t: SS.Server, data: Bytes)
    requires Sound(t)
    ensures var more := Chunking.DataFrames(SS.Flush(t).id, Chunking.Chunks(data, MAX_DATA_SIZE));
      var u := SS.Flush(t).(out := SS.Flush(t).out + more);
      && t.out <= u.out && Sound(u)
      && Sets(Beyond(t, u)) == (if t.header == map[] then [] else [t.header])
      && (if t.header == map[] then u.header == map[] else Part(u.header, t.header))
  {
    hide SS.Flush, Leaves, Part, Sets, Chunking.Chunks;
    var f := SS.Flush(t);
    var more := Chunking.DataFrames(f.id, Chunking.Chunks(data, MAX_DATA_SIZE));
    FlushCarries(t);
    DataHasNone(more);
    hide Chunking.DataFrames;
    HeaderThenData(t.out, t.id, t.header, more);
    if t.header != map[] {
      LeavesPart(t.header, f.header);
    }
  }

  lemma BeyondInTwo(s: SS.Server, t: SS.Server, u: SS.Server)
    requires s.out <= t.out <= u.out
    ensures Beyond(s, u) == Beyond(s, t) + Beyond(t, u) && s.out <= u.out
    ensures Sets(Beyond(s, u)) == Sets(Beyond(s, t)) + Sets(Beyond(t, u))
  {
    SetsAppend(Beyond(s, t), Beyond(t, u));
    hide Sets;
  }

  lemma WriteGoes(s: SS.Server, data: Bytes)
    requires Sound(s) && SS.Writable(s)
    ensures Outgoing(s, SS.CallWrite(data, false), SS.Write(s, data))
  {
    hide SS.WriteResponse, SS.Flush, Sets, Carries, Part, Chunking.Chunks, Chunking.DataFrames, SS.HttpToWp;
    var t, u := SS.WriteHeader(s, 200), SS.Write(s, data);
    if s.wroteHeader || s.wroteResponse {
      KeepsResponse(s);
      SameHeader(s.header);
      WritingGoes(t, data);
    } else {
      RespondingGoes(s, SS.HttpToWp(200).0, SS.HttpToWp(200).1, true);
      WritingGoes(t, data);
      BeyondInTwo(s, t, u);
      if t.header != map[] {
        PartOfPart(u.header, t.header, Sets(Beyond(s, t))[0]);
      } else {
        NothingIsPart(Sets(Beyond(s, t))[0]);
      }
    }
  }

  lemma KeepsResponse(s: SS.Server)
    requires s.wroteHeader || s.wroteResponse
    requires Sound(s)
    ensures var t := SS.WriteHeader(s, 200); t.out == s.out && t.header == s.header && Sound(t) && t.live
  {
  }

  lemma SameHeader(h: Header)
    ensures Carries(h, h) && Part(h, h) && Later([h])
  {
  }

  lemma PartOfPart(a: Header, b: Header, c: Header)
    requires Part(a, b) && Part(b, c)
    ensures Part(a, c)
  {
  }

  lemma NothingIsPart(c: Header)
    ensures Part(map[], c)
  {
  }

  /** A call that puts out nothing. */
  lemma Still(s: SS.Server, op: SS.Op, t: SS.Server)
    requires !Sends(s, op) && t.out == s.out && Sound(t)
    requires t.header == if op.SetHeader? then op.header else s.header
    ensures Outgoing(s, op, t)
  {
    hide Sets, Carries, Part, Later, Sends, Sound;
    NoSets();
    assert Beyond(s, t) == [];
  }

  /** A call that puts out one RESPONSE. */
  lemma Single(s: SS.Server, op: SS.Op, t: SS.Server)
    requires Responds(s, op) && s.out <= t.out && Sound(t) && |t.out| == |s.out| + 1
    requires t.out[|s.out|].Response? && Sets(Beyond(s, t)) == [t.out[|s.out|].header]
    requires Carries(t.out[|s.out|].header, s.header) && Part(t.header, t.out[|s.out|].header)
    ensures Outgoing(s, op, t)
  {
    hide Sets, Carries, Part, Beyond, Sound;
  }

  lemma OpGoes(s: SS.Server, op: SS.Op)
    requires Sound(s)
    ensures Outgoing(s, op, SS.Exec(s, op))
  {
    hide SS.WriteResponse, SS.Write, Sets, Carries, Part, SS.HttpToWp, Outgoing, Beyond;
    match op
    case SetHeader(_) => Still(s, op, SS.Exec(s, op));
    case CallWriteHeader(code) =>
      if s.wroteResponse {
        Again(s.(wroteHeader := true), SS.HttpToWp(code).0, SS.HttpToWp(code).1);
        Still(s, op, SS.Exec(s, op));
      } else {
        RespondingGoes(s, SS.HttpToWp(code).0, SS.HttpToWp(code).1, true);
        Single(s, op, SS.Exec(s, op));
      }
    case CallWriteResponse(code, subcode) =>
      if s.wroteResponse {
        Again(s, code, subcode);
        Still(s, op, SS.Exec(s, op));
      } else {
        RespondingGoes(s, code, subcode, s.wroteHeader);
        Single(s, op, SS.Exec(s, op));
      }
    case CallWrite(data, stopped) =>
      if SS.Accepts(s, op) {
        WriteGoes(s, data);
      } else {
        if !stopped {
          Refused(s, data);
        }
        Still(s, op, SS.Exec(s, op));
      }
  }

  lemma NoSets()
    ensures Sets([]) == []
  {
  }

  lemma Again(s: SS.Server, code: int, subcode: int)
    requires s.wroteResponse
    ensures SS.WriteResponse(s, code, subcode) == s
  {
  }

  lemma Refused(s: SS.Server, data: Bytes)
    requires !SS.Writable(s)
    ensures SS.Write(s, data) == s
  {
  }

  // -------------------------------------------------------------------- whole programs

  /** The header sets that go out in the rest of a run. */
  function Rest(s: SS.Server, ops: seq<SS.Op>): (hs: seq<Header>)
    decreases ops
  {
    if ops == [] then Sets(Beyond(s, SS.Epilogue(s)))
    else Sets(Beyond(s, SS.Exec(s, ops[0]))) + Rest(SS.Exec(s, ops[0]), ops[1..])
  }

  lemma {:induction false} RestIsSent(s: SS.Server, ops: seq<SS.Op>)
    requires Sound(s)
    ensures Sets(SS.Epilogue(SS.ExecAll(s, ops)).out) == Sets(s.out) + Rest(s, ops)
    decreases ops
  {
    hide Sets, SS.Exec, SS.Epilogue, Outgoing, Sound;
    if ops == [] {
      EpilogueGrows(s);
      SetsAppend(s.out, Beyond(s, SS.Epilogue(s)));
      assert s.out + Beyond(s, SS.Epilogue(s)) == SS.Epilogue(s).out;
    } else {
      var t := SS.Exec(s, ops[0]);
      OpGoes(s, ops[0]);
      OutgoingMeans(s, ops[0], t);
      RestIsSent(t, ops[1..]);
      SetsAppend(s.out, Beyond(s, t));
      assert s.out + Beyond(s, t) == t.out;
      assert Sets(s.out) + Sets(Beyond(s, t)) + Rest(t, ops[1..])
          == Sets(s.out) + (Sets(Beyond(s, t)) + Rest(t, ops[1..]));
    }
  }

  lemma OutgoingMeans(s: SS.Server, op: SS.Op, t: SS.Server)
    requires Outgoing(s, op, t)
    ensures s.out <= t.out && Sound(t)
  {
    hide Sets, Carries, Part, Later;
  }

  lemma EpilogueGrows(s: SS.Server)
    ensures s.out <= SS.Epilogue(s).out
  {
    EpilogueCarries(s);
    hide SS.Epilogue, Answers;
  }

  /** The handler does not replace its header before it goes out. */
  predicate Kept(s: SS.Server, ops: seq<SS.Op>)
    decreases ops
  {
    ops == [] || Sends(s, ops[0]) || (!ops[0].SetHeader? && Kept(SS.Exec(s, ops[0]), ops[1..]))
  }

  lemma EpilogueSets(s: SS.Server)
    ensures var hs := Sets(Beyond(s, SS.Epilogue(s)));
      && (hs != [] <==> !S.ClosedHere(s.state) && !s.wroteResponse)
      && (hs != [] ==> |hs| == 1 && Carries(hs[0], s.header))
  {
    hide Carries, Sets, SS.Epilogue;
    NoSets();
    EpilogueCarries(s);
    var t := SS.Epilogue(s);
    if !S.ClosedHere(s.state) {
      assert Beyond(s, t) == [t.out[|s.out|]];
      SetsOne(t.out[|s.out|]);
    } else {
      assert Beyond(s, t) == [];
    }
  }

  lemma {:induction false} NextCarries(s: SS.Server, ops: seq<SS.Op>)
    requires Sound(s) && Kept(s, ops) && Rest(s, ops) != []
    ensures Carries(Rest(s, ops)[0], s.header)
    decreases ops
  {
    hide Carries, Sets, SS.Exec, SS.Epilogue, Sends, Part, Later, Sound;
    if ops == [] {
      EpilogueSets(s);
    } else {
      OpGoes(s, ops[0]);
      if !Sends(s, ops[0]) {
        NextCarries(SS.Exec(s, ops[0]), ops[1..]);
      }
    }
  }

  /** Where a handler's run stands after the first of its calls. */
  function After(id: uint32, flags: byte, ops: seq<SS.Op>): SS.Server {
    SS.ExecAll(SS.Accept(id, flags), ops)
  }

  lemma {:induction false} ExecInTwo(s: SS.Server, a: seq<SS.Op>, b: seq<SS.Op>)
    ensures SS.ExecAll(s, a + b) == SS.ExecAll(SS.ExecAll(s, a), b)
    decreases a
  {
    hide SS.Exec;
    if a == [] {
      assert a + b == b;
    } else {
      assert (a + b)[0] == a[0] && (a + b)[1..] == a[1..] + b;
      ExecInTwo(SS.Exec(s, a[0]), a[1..], b);
    }
  }

  lemma {:induction false} StaysSound(s: SS.Server, ops: seq<SS.Op>)
    requires Sound(s)
    ensures Sound(SS.ExecAll(s, ops))
    decreases ops
  {
    hide SS.Exec, Outgoing, Sound;
    if ops != [] {
      OpGoes(s, ops[0]);
      OutgoingMeans(s, ops[0], SS.Exec(s, ops[0]));
      StaysSound(SS.Exec(s, ops[0]), ops[1..]);
    }
  }

  lemma AcceptIsSound(id: uint32, flags: byte)
    ensures Sound(SS.Accept(id, flags)) && SS.Accept(id, flags).out == []
  {
  }

  lemma AfterSetting(s: SS.Server, h: Header)
    requires Sound(s)
    ensures var t := SS.Exec(s, SS.Op.SetHeader(h)); Sound(t) && t.header == h && t.out == s.out
  {
  }

  /** The header sets of a response, seen from a point of its handler's run. */
  lemma SetsFrom(id: uint32, flags: byte, before: seq<SS.Op>, h: Header, after: seq<SS.Op>)
    ensures var s := SS.Exec(After(id, flags, before), SS.Op.SetHeader(h));
      && Sound(s) && s.header == h
      && Sets(SS.Emitted(id, flags, before + [SS.Op.SetHeader(h)] + after)) == Sets(s.out) + Rest(s, after)
  {
    hide Sets, SS.Exec, SS.Epilogue, Rest, Sound;
    var start, op := SS.Accept(id, flags), SS.Op.SetHeader(h);
    var s := SS.Exec(After(id, flags, before), op);
    AcceptIsSound(id, flags);
    StaysSound(start, before);
    AfterSetting(After(id, flags, before), h);
    ExecInTwo(start, before + [op], after);
    ExecInTwo(start, before, [op]);
    ExecOne(After(id, flags, before), op);
    RestIsSent(s, after);
  }

  lemma ExecOne(s: SS.Server, op: SS.Op)
    ensures SS.ExecAll(s, [op]) == SS.Exec(s, op)
  {
    hide SS.Exec;
    assert [op][1..] == [];
  }

  /** For every handler program: the header set that the handler leaves goes out whole, with
      the next frame that has one, unless the handler replaces it before. The next one is
      number |Sets(s.out)| of the response. */
  lemma HeaderGoesOut(id: uint32, flags: byte, before: seq<SS.Op>, h: Header, after: seq<SS.Op>)
    requires var s := SS.Exec(After(id, flags, before), SS.Op.SetHeader(h));
      Kept(s, after) && Rest(s, after) != []
    ensures var s := SS.Exec(After(id, flags, before), SS.Op.SetHeader(h));
      var hs := Sets(SS.Emitted(id, flags, before + [SS.Op.SetHeader(h)] + after));
      |Sets(s.out)| < |hs| && Carries(hs[|Sets(s.out)|], h)
  {
    hide Sets, SS.Exec, SS.Emitted, Rest, Sound, Kept, Carries, After;
    var s := SS.Exec(After(id, flags, before), SS.Op.SetHeader(h));
    SetsFrom(id, flags, before, h, after);
    NextCarries(s, after);
  }

  /** Before the response is out there is always such a frame. */
  lemma {:induction false} ResponseIsToCome(s: SS.Server, ops: seq<SS.Op>)
    requires Sound(s) && !s.wroteResponse && !S.ClosedHere(s.state)
    ensures Rest(s, ops) != []
    decreases ops
  {
    hide Sets, SS.WriteResponse, SS.Write, SS.Epilogue, Carries, Part, Later;
    if ops == [] {
      EpilogueSets(s);
    } else {
      OpGoes(s, ops[0]);
      if !Sends(s, ops[0]) {
        ResponseIsToCome(SS.Exec(s, ops[0]), ops[1..]);
      }
    }
  }

  // --------------------------------------------------------------------- nothing else

  /** The names and values that a handler sets. */
  function Given(ops: seq<SS.Op>): set<(Bytes, seq<Bytes>)> {
    if ops == [] then {}
    else (if ops[0].SetHeader? then ops[0].header.Items else {}) + Given(ops[1..])
  }

  ghost predicate Only(h: Header, given: set<(Bytes, seq<Bytes>)>) {
    forall name :: name in h && !Reserved(name) ==> (name, h[name]) in given
  }

  ghost predicate AllOnly(hs: seq<Header>, given: set<(Bytes, seq<Bytes>)>) {
    forall k :: 0 <= k < |hs| ==> Only(hs[k], given)
  }

  lemma CarriesOnly(sent: Header, had: Header, given: set<(Bytes, seq<Bytes>)>)
    requires Carries(sent, had) && Only(had, given)
    ensures Only(sent, given)
  {
  }

  lemma PartOnly(h: Header, whole: Header, given: set<(Bytes, seq<Bytes>)>)
    requires Part(h, whole) && Only(whole, given)
    ensures Only(h, given)
  {
  }

  lemma OutgoingOnly(s: SS.Server, op: SS.Op, t: SS.Server, given: set<(Bytes, seq<Bytes>)>)
    requires Outgoing(s, op, t) && Only(s.header, given) && (op.SetHeader? ==> Only(op.header, given))
    ensures AllOnly(Sets(Beyond(s, t)), given) && Only(t.header, given)
  {
    hide Sets, Carries, Part, Only, Sends, Sound;
    var hs := Sets(Beyond(s, t));
    if hs != [] {
      CarriesOnly(hs[0], s.header, given);
      PartOnly(t.header, hs[0], given);
      forall k | 0 <= k < |hs| ensures Only(hs[k], given) {
        if k > 0 {
          PartOnly(hs[k], hs[0], given);
        }
      }
    }
  }

  lemma AllOnlyAppend(a: seq<Header>, b: seq<Header>, given: set<(Bytes, seq<Bytes>)>)
    requires AllOnly(a, given) && AllOnly(b, given)
    ensures AllOnly(a + b, given)
  {
    hide Only;
  }

  lemma {:induction false} RestOnly(s: SS.Server, ops: seq<SS.Op>, given: set<(Bytes, seq<Bytes>)>)
    requires Sound(s) && Only(s.header, given) && Given(ops) <= given
    ensures AllOnly(Rest(s, ops), given)
    decreases ops
  {
    hide Sets, SS.Exec, SS.Epilogue, Only, Carries, Outgoing, Sound, AllOnly;
    if ops == [] {
      EpilogueSets(s);
      EpilogueOnly(s, given);
    } else {
      var t := SS.Exec(s, ops[0]);
      OpGoes(s, ops[0]);
      OutgoingMeans(s, ops[0], t);
      if ops[0].SetHeader? {
        SettingOnly(ops[0].header, given);
      }
      OutgoingOnly(s, ops[0], t, given);
      RestOnly(t, ops[1..], given);
      AllOnlyAppend(Sets(Beyond(s, t)), Rest(t, ops[1..]), given);
    }
  }

  lemma SettingOnly(h: Header, given: set<(Bytes, seq<Bytes>)>)
    requires h.Items <= given
    ensures Only(h, given)
  {
    forall name | name in h ensures (name, h[name]) in given {
      assert (name, h[name]) in h.Items;
    }
  }

  lemma EpilogueOnly(s: SS.Server, given: set<(Bytes, seq<Bytes>)>)
    requires Only(s.header, given)
    ensures AllOnly(Sets(Beyond(s, SS.Epilogue(s))), given)
  {
    hide Sets, SS.Epilogue, Only, Carries;
    EpilogueSets(s);
    var hs := Sets(Beyond(s, SS.Epilogue(s)));
    if hs != [] {
      CarriesOnly(hs[0], s.header, given);
    }
  }

  /** For every handler program: whatever a RESPONSE or HEADERS carries, other than the two
      names that a RESPONSE sets itself, the handler has set, with these values. */
  lemma NothingElseGoesOut(id: uint32, flags: byte, ops: seq<SS.Op>)
    ensures AllOnly(Sets(SS.Emitted(id, flags, ops)), Given(ops))
  {
    hide Sets, SS.ExecAll, SS.Epilogue, Sound, AllOnly, Rest, Given;
    AcceptIsSound(id, flags);
    NothingIsOnly(id, flags, Given(ops));
    RestIsSent(SS.Accept(id, flags), ops);
    RestOnly(SS.Accept(id, flags), ops, Given(ops));
    NoSets();
    assert [] + Rest(SS.Accept(id, flags), ops) == Rest(SS.Accept(id, flags), ops);
  }

  lemma NothingIsOnly(id: uint32, flags: byte, given: set<(Bytes, seq<Bytes>)>)
    ensures Only(SS.Accept(id, flags).header, given)
  {
  }

  // ------------------------------------------------------------------ the http.Response

  /** The values that a header set gives a name, and that the last of several gives it. */
  function Under(h: Header, name: Bytes): Option<seq<Bytes>> {
    if name in h && h[name] != [] then Some(h[name]) else None
  }

  function LastIn(hs: seq<Header>, name: Bytes): Option<seq<Bytes>> {
    if hs == [] then None
    else if LastIn(hs[1..], name).Some? then LastIn(hs[1..], name)
    else Under(hs[0], name)
  }

  lemma {:induction false} LastInAppend(a: seq<Header>, b: seq<Header>, name: Bytes)
    ensures LastIn(a + b, name) == if LastIn(b, name).Some? then LastIn(b, name) else LastIn(a, name)
  {
    if a == [] {
      assert a + b == b;
    } else {
      assert (a + b)[0] == a[0] && (a + b)[1..] == a[1..] + b;
      LastInAppend(a[1..], b, name);
    }
  }

  /** A name that takes the trip, and that a RESPONSE does not give by itself. */
  predicate Travelling(name: Bytes) {
    Canonical(name) == name && !HopByHop(name) && name != R.RESPONSE_NAME
  }

  lemma FrameGives(f: F, name: Bytes)
    requires Travelling(name)
    ensures R.LastGiven(Demux.Effects(P.Delivered(f)), name) == LastIn(Sets([f]), name)
  {
    hide Strip, Canonical, HopByHop, R.Codes;
    SetsOne(f);
    var g := P.Delivered(f);
    var tail := if C.Ends(g) then [C.Completed(g.id)] else [];
    R.LastGivenAppend(C.Callbacks(g), tail, name);
    assert R.LastGiven(tail, name) == None by { assert |tail| <= 1; }
    if f.Response? || f.Headers? {
      StripExactly(f.header, name);
      GivesOne(C.ReceiveHeader(g.id, Strip(f.header)), name);
      LastOne(f.header, name);
      if f.Response? {
        var answer := C.ReceiveResponse(g.id, f.code, f.subcode);
        assert C.Callbacks(g) == [answer] + [C.ReceiveHeader(g.id, Strip(f.header))];
        R.LastGivenAppend([answer], [C.ReceiveHeader(g.id, Strip(f.header))], name);
        GivesOne(answer, name);
      }
    } else if f.Data? {
      GivesOne(C.ReceiveData(f.id, f.data, Finish(f.flags)), name);
    }
  }

  lemma GivesOne(call: C.Call, name: Bytes)
    ensures R.LastGiven([call], name) == R.Gives(call, name)
  {
    hide R.Gives;
    assert [call][1..] == [];
  }

  lemma LastOne(h: Header, name: Bytes)
    ensures LastIn([h], name) == Under(h, name)
  {
    assert [h][1..] == [];
  }

  lemma {:induction false} FramesGive(fs: seq<F>, name: Bytes)
    requires Travelling(name)
    ensures R.LastGiven(Demux.AllEffects(D.Arrives(fs)), name) == LastIn(Sets(fs), name)
  {
    hide P.Delivered, Demux.Effects, Travelling, Sets;
    if fs == [] {
      NoSets();
    } else {
      assert D.Arrives(fs)[1..] == D.Arrives(fs[1..]);
      R.LastGivenAppend(Demux.Effects(D.Arrives(fs)[0]), Demux.AllEffects(D.Arrives(fs)[1..]), name);
      FrameGives(fs[0], name);
      FramesGive(fs[1..], name);
      assert fs == [fs[0]] + fs[1..];
      SetsAppend([fs[0]], fs[1..]);
      LastInAppend(Sets([fs[0]]), Sets(fs[1..]), name);
    }
  }

  /** The header of the http.Response of a handler's program. */
  function Final(id: uint32, job: D.Job): Header {
    R.FeedAll(R.Reading(0, map[], []), Demux.AllEffects(D.Reply(id, job))).header
  }

  /** Under every name that travels, it has the values of the last RESPONSE or HEADERS that
      gave any. */
  lemma FinalIsLast(id: uint32, job: D.Job, name: Bytes)
    requires Travelling(name)
    ensures var last := LastIn(Sets(SS.Emitted(id, job.flags, job.ops)), name);
      && (name in Final(id, job) <==> last.Some?)
      && (last.Some? ==> Final(id, job)[name] == last.value)
  {
    hide R.FeedAll, R.LastGiven, SS.Emitted, Sets, LastIn, Demux.AllEffects, D.Arrives, Travelling;
    FramesGive(SS.Emitted(id, job.flags, job.ops), name);
    R.LastHeaderWins(R.Reading(0, map[], []), Demux.AllEffects(D.Reply(id, job)), name);
  }

  /** Nothing but these values, if the header set gives the name any. */
  ghost predicate OnlyValues(h: Header, name: Bytes, values: seq<Bytes>) {
    Under(h, name).Some? ==> h[name] == values
  }

  ghost predicate AllValues(hs: seq<Header>, name: Bytes, values: seq<Bytes>) {
    forall k :: 0 <= k < |hs| ==> OnlyValues(hs[k], name, values)
  }

  /** No later call of the handler gives the name other values. */
  ghost predicate LeftAlone(ops: seq<SS.Op>, name: Bytes) {
    forall k :: 0 <= k < |ops| && ops[k].SetHeader? ==> Under(ops[k].header, name).None?
  }

  lemma OutgoingValues(s: SS.Server, op: SS.Op, t: SS.Server, name: Bytes, values: seq<Bytes>)
    requires Outgoing(s, op, t) && OnlyValues(s.header, name, values) && !Reserved(name)
    requires op.SetHeader? ==> Under(op.header, name).None?
    ensures AllValues(Sets(Beyond(s, t)), name, values) && OnlyValues(t.header, name, values)
  {
    hide Sets, Sends, Sound, Beyond;
    var hs := Sets(Beyond(s, t));
    forall k | 0 <= k < |hs| ensures OnlyValues(hs[k], name, values) {
      if k > 0 {
        assert Part(hs[k], hs[0]);
      }
    }
  }

  lemma AllValuesAppend(a: seq<Header>, b: seq<Header>, name: Bytes, values: seq<Bytes>)
    requires AllValues(a, name, values) && AllValues(b, name, values)
    ensures AllValues(a + b, name, values)
  {
    hide OnlyValues;
  }

  lemma EpilogueValues(s: SS.Server, name: Bytes, values: seq<Bytes>)
    requires OnlyValues(s.header, name, values) && !Reserved(name)
    ensures AllValues(Sets(Beyond(s, SS.Epilogue(s))), name, values)
  {
    hide Sets, SS.Epilogue, Beyond;
    EpilogueSets(s);
  }

  lemma {:induction false} RestValues(s: SS.Server, ops: seq<SS.Op>, name: Bytes, values: seq<Bytes>)
    requires Sound(s) && OnlyValues(s.header, name, values) && !Reserved(name) && LeftAlone(ops, name)
    ensures AllValues(Rest(s, ops), name, values)
    decreases ops
  {
    hide Sets, SS.Exec, SS.Epilogue, Outgoing, Sound, OnlyValues, AllValues, Under, Reserved;
    if ops == [] {
      EpilogueValues(s, name, values);
    } else {
      var t := SS.Exec(s, ops[0]);
      OpGoes(s, ops[0]);
      OutgoingMeans(s, ops[0], t);
      OutgoingValues(s, ops[0], t, name, values);
      RestValues(t, ops[1..], name, values);
      AllValuesAppend(Sets(Beyond(s, t)), Rest(t, ops[1..]), name, values);
    }
  }

  lemma {:induction false} LastOfAll(hs: seq<Header>, name: Bytes, values: seq<Bytes>)
    requires AllValues(hs, name, values)
    ensures LastIn(hs, name) == None || LastIn(hs, name) == Some(values)
    ensures hs != [] && Under(hs[0], name).Some? ==> LastIn(hs, name) == Some(values)
  {
    if hs != [] {
      assert OnlyValues(hs[0], name, values);
      forall k | 0 <= k < |hs[1..]| ensures OnlyValues(hs[1..][k], name, values) {
        assert hs[1..][k] == hs[k + 1];
      }
      LastOfAll(hs[1..], name, values);
    }
  }

  lemma CarriesValue(sent: Header, had: Header, name: Bytes)
    requires Carries(sent, had) && !Reserved(name) && name in had
    ensures Under(sent, name) == Under(had, name)
  {
  }

  /** What a handler sets, the http.Response has: for every program, a name that the handler
      gives values, that goes out before the handler replaces its header, and that it gives
      no other values later, is in the header of the http.Response with these values. */
  lemma HeaderArrives(id: uint32, flags: byte, before: seq<SS.Op>, h: Header, after: seq<SS.Op>, name: Bytes)
    requires var s := SS.Exec(After(id, flags, before), SS.Op.SetHeader(h));
      Kept(s, after) && Rest(s, after) != []
    requires Travelling(name) && !Reserved(name) && name in h && h[name] != [] && LeftAlone(after, name)
    ensures var final := Final(id, D.Job(flags, before + [SS.Op.SetHeader(h)] + after));
      name in final && final[name] == h[name]
  {
    hide Sets, SS.Exec, SS.Emitted, Rest, Sound, Kept, Carries, After, Travelling, LeftAlone, LastIn, Reserved, Final,
      AllValues;
    var s := SS.Exec(After(id, flags, before), SS.Op.SetHeader(h));
    var job := D.Job(flags, before + [SS.Op.SetHeader(h)] + after);
    SetsFrom(id, flags, before, h, after);
    NextCarries(s, after);
    CarriesValue(Rest(s, after)[0], h, name);
    RestValues(s, after, name, h[name]);
    LastOfAll(Rest(s, after), name, h[name]);
    LastInAppend(Sets(s.out), Rest(s, after), name);
    FinalIsLast(id, job, name);
  }

  lemma {:induction false} LastIsOne(hs: seq<Header>, name: Bytes) returns (k: nat)
    requires LastIn(hs, name).Some?
    ensures k < |hs| && name in hs[k] && hs[k][name] == LastIn(hs, name).value
  {
    if LastIn(hs[1..], name).Some? {
      var i := LastIsOne(hs[1..], name);
      k := i + 1;
    } else {
      k := 0;
    }
  }

  /** And it has nothing else: a name that travels is there only with values that the handler
      gave it. */
  lemma NothingElseArrives(id: uint32, job: D.Job, name: Bytes)
    requires Travelling(name) && !Reserved(name) && name in Final(id, job)
    ensures (name, Final(id, job)[name]) in Given(job.ops)
  {
    hide Sets, SS.Emitted, Travelling, LastIn, Reserved, Final, Given;
    FinalIsLast(id, job, name);
    var hs := Sets(SS.Emitted(id, job.flags, job.ops));
    NothingElseGoesOut(id, job.flags, job.ops);
    var k := LastIsOne(hs, name);
    assert Only(hs[k], Given(job.ops));
  }

  // ----------------------------------------------------------------------- the answer

  /** The codes that a handler answers with, if it does. */
  function Codes(ops: seq<SS.Op>): Option<(int, int)> {
    if ops == [] then None
    else
      match ops[0]
      case SetHeader(_) => Codes(ops[1..])
      case CallWriteHeader(code) => Some(SS.HttpToWp(code))
      case CallWriteResponse(code, subcode) => Some((code, subcode))
      case CallWrite(_, stopped) => if stopped then Codes(ops[1..]) else Some((0, 0))
  }

  /** The RESPONSE of such an answer, whatever header set goes with it. */
  ghost predicate Answered(f: F, id: uint32, codes: Option<(int, int)>) {
    var (code, subcode) := if codes.Some? then codes.value else (0, 0);
    && f.Response? && f.id == id && f.code == code % 256 && f.subcode == subcode % 256
    && R.STATUS in f.header && f.header[R.STATUS] == [SS.Itoa(SS.WpToHttp(code, subcode))]
    && VERSION in f.header && f.header[VERSION] == [Ascii("HTTP/1.1")]
    && (Finish(f.flags) <==> codes.None? || code == 1 || (code == 0 && subcode == 1))
  }

  ghost predicate Starts(fs: seq<F>, id: uint32, codes: Option<(int, int)>) {
    fs != [] && Answered(fs[0], id, codes)
  }

  lemma {:induction false} StartStays(s: SS.Server, ops: seq<SS.Op>, codes: Option<(int, int)>)
    requires Starts(s.out, s.id, codes)
    ensures Starts(SS.ExecAll(s, ops).out, s.id, codes)
    decreases ops
  {
    hide SS.Exec, Answered;
    if ops != [] {
      R.ExecGrows(s, ops[0]);
      SS.ExecKeepsID(s, [ops[0]]);
      ExecOne(s, ops[0]);
      StartStays(SS.Exec(s, ops[0]), ops[1..], codes);
    }
  }

  lemma ResponseStarts(s: SS.Server, code: int, subcode: int)
    requires !s.wroteResponse && s.out == []
    ensures Starts(SS.WriteResponse(s, code, subcode).out, s.id, Some((code, subcode)))
  {
    hide Carries, Leaves, SS.WriteResponse, SS.Itoa, SS.WpToHttp;
    ResponseCarries(s, code, subcode);
  }

  lemma EpilogueStarts(s: SS.Server, codes: Option<(int, int)>)
    requires if codes.Some? then Starts(s.out, s.id, codes)
             else s.out == [] && !s.wroteResponse && !S.ClosedHere(s.state)
    ensures Starts(SS.Epilogue(s).out, s.id, codes)
  {
    hide Carries, SS.Epilogue, SS.Itoa;
    EpilogueCarries(s);
    R.TwoHundred();
    R.SuccessIs200();
  }

  /** A call that answers, on a fresh stream. */
  lemma CallStarts(s: SS.Server, op: SS.Op)
    requires SS.Writable(s) && s.out == [] && !s.wroteHeader && !s.wroteResponse && !R.Mute(op)
    ensures Starts(SS.Exec(s, op).out, s.id, Codes([op]))
  {
    hide Answered, SS.WriteResponse, SS.Flush, Chunking.Chunks;
    var t := s.(wroteHeader := true);
    match op
    case CallWriteResponse(code, subcode) => ResponseStarts(s, code, subcode);
    case CallWriteHeader(code) => ResponseStarts(t, SS.HttpToWp(code).0, SS.HttpToWp(code).1);
    case CallWrite(data, _) =>
      ResponseStarts(t, 0, 0);
      R.SuccessIs200();
      R.FlushGrows(SS.WriteHeader(s, 200));
  }

  lemma {:induction false} ProgramStarts(s: SS.Server, ops: seq<SS.Op>)
    requires SS.Writable(s) && s.out == [] && !s.wroteHeader && !s.wroteResponse
    ensures Starts(SS.Epilogue(SS.ExecAll(s, ops)).out, s.id, Codes(ops))
    decreases ops
  {
    hide Answered, SS.Epilogue, SS.WriteResponse, SS.WriteHeader, SS.Write, Starts;
    if ops == [] {
      EpilogueStarts(s, None);
    } else if R.Mute(ops[0]) {
      ProgramStarts(SS.Exec(s, ops[0]), ops[1..]);
    } else {
      CallStarts(s, ops[0]);
      SS.ExecKeepsID(s, ops);
      SS.ExecKeepsID(s, [ops[0]]);
      ExecOne(s, ops[0]);
      assert Codes([ops[0]]) == Codes(ops);
      StartStays(SS.Exec(s, ops[0]), ops[1..], Codes(ops));
      EpilogueStarts(SS.ExecAll(s, ops), Codes(ops));
    }
  }

  /** For every handler program, the RESPONSE that goes out first: the codes are those of the
      answer, or success if there is none, ":status" and ":version" say the same, and it ends
      the stream, as its only frame, exactly if the answer has no body or there is none. */
  lemma AnswerGoesOut(id: uint32, flags: byte, ops: seq<SS.Op>)
    ensures var fs := SS.Emitted(id, flags, ops);
      && Starts(fs, id, Codes(ops))
      && (|fs| == 1 <==> Finish(fs[0].flags))
  {
    hide SS.ExecAll, SS.Epilogue, Answered, Codes;
    ProgramStarts(SS.Accept(id, flags), ops);
    SS.StreamGrammar(id, flags, ops);
    AnsweredIsResponse(SS.Emitted(id, flags, ops)[0], id, Codes(ops));
  }

  lemma AnsweredIsResponse(f: F, id: uint32, codes: Option<(int, int)>)
    requires Answered(f, id, codes)
    ensures f.Response? && SS.FlagsOf(f) == f.flags
  {
  }

  // ------------------------------------------------------------------------ ":response"

  /** Frames after the first, none of which gives the name. */
  lemma {:induction false} NoResponseName(fs: seq<F>)
    requires forall i :: 0 <= i < |fs| ==> !fs[i].Response?
    requires forall i :: 0 <= i < |fs| && fs[i].Headers? ==> Under(fs[i].header, R.RESPONSE_NAME).None?
    ensures R.LastGiven(Demux.AllEffects(D.Arrives(fs)), R.RESPONSE_NAME) == None
  {
    hide P.Delivered, Demux.Effects, Under;
    if fs != [] {
      assert D.Arrives(fs)[1..] == D.Arrives(fs[1..]);
      R.LastGivenAppend(Demux.Effects(D.Arrives(fs)[0]), Demux.AllEffects(D.Arrives(fs)[1..]), R.RESPONSE_NAME);
      FrameWithout(fs[0]);
      NoResponseName(fs[1..]);
    }
  }

  lemma FrameWithout(f: F)
    requires !f.Response? && (f.Headers? ==> Under(f.header, R.RESPONSE_NAME).None?)
    ensures R.LastGiven(Demux.Effects(P.Delivered(f)), R.RESPONSE_NAME) == None
  {
    hide Strip, R.Codes;
    var g := P.Delivered(f);
    var tail := if C.Ends(g) then [C.Completed(g.id)] else [];
    R.LastGivenAppend(C.Callbacks(g), tail, R.RESPONSE_NAME);
    assert R.LastGiven(tail, R.RESPONSE_NAME) == None by { assert |tail| <= 1; }
    if f.Headers? {
      StripIsPart(f.header);
      GivesOne(C.ReceiveHeader(g.id, Strip(f.header)), R.RESPONSE_NAME);
    } else if f.Data? {
      GivesOne(C.ReceiveData(f.id, f.data, Finish(f.flags)), R.RESPONSE_NAME);
    }
  }

  lemma StripIsPart(h: Header)
    ensures Part(Strip(h), h)
  {
    hide Ascii;
  }

  lemma ResponseGives(f: F)
    requires f.Response? && Under(f.header, R.RESPONSE_NAME).None?
    ensures var calls := Demux.Effects(P.Delivered(f));
      && calls != [] && calls[0] == C.ReceiveResponse(f.id, f.code, f.subcode)
      && R.LastGiven(calls, R.RESPONSE_NAME) == Some([R.Codes(f.code, f.subcode)])
  {
    hide Strip, R.Codes;
    var g := P.Delivered(f);
    var tail := if C.Ends(g) then [C.Completed(g.id)] else [];
    var first, second := C.ReceiveResponse(g.id, f.code, f.subcode), C.ReceiveHeader(g.id, Strip(f.header));
    assert C.Callbacks(g) == [first] + [second];
    R.LastGivenAppend(C.Callbacks(g), tail, R.RESPONSE_NAME);
    assert R.LastGiven(tail, R.RESPONSE_NAME) == None by { assert |tail| <= 1; }
    R.LastGivenAppend([first], [second], R.RESPONSE_NAME);
    StripIsPart(f.header);
    GivesOne(first, R.RESPONSE_NAME);
    GivesOne(second, R.RESPONSE_NAME);
  }

  lemma {:induction false} SetsHas(fs: seq<F>, i: nat) returns (k: nat)
    requires i < |fs| && (fs[i].Response? || fs[i].Headers?)
    ensures k < |Sets(fs)| && Sets(fs)[k] == fs[i].header
  {
    if i == 0 {
      k := 0;
    } else {
      var j := SetsHas(fs[1..], i - 1);
      k := j + if fs[0].Response? || fs[0].Headers? then 1 else 0;
    }
  }

  /** A handler that does not use the name itself. */
  lemma NoneUse(id: uint32, flags: byte, ops: seq<SS.Op>, i: nat)
    requires LeftAlone(ops, R.RESPONSE_NAME)
    requires var fs := SS.Emitted(id, flags, ops); i < |fs| && (fs[i].Response? || fs[i].Headers?)
    ensures Under(SS.Emitted(id, flags, ops)[i].header, R.RESPONSE_NAME).None?
  {
    hide SS.Emitted, Sets, Given, LeftAlone;
    var fs := SS.Emitted(id, flags, ops);
    NothingElseGoesOut(id, flags, ops);
    var k := SetsHas(fs, i);
    assert Only(Sets(fs)[k], Given(ops));
    NotReserved();
    if Under(fs[i].header, R.RESPONSE_NAME).Some? {
      GivenUses(ops, R.RESPONSE_NAME, fs[i].header[R.RESPONSE_NAME]);
    }
  }

  lemma NotReserved()
    ensures !Reserved(R.RESPONSE_NAME)
  {
    assert R.RESPONSE_NAME[1] == 114 && R.STATUS[1] == 115 && VERSION[1] == 118;
  }

  lemma {:induction false} GivenUses(ops: seq<SS.Op>, name: Bytes, values: seq<Bytes>)
    requires LeftAlone(ops, name) && values != []
    ensures (name, values) !in Given(ops)
  {
    if ops != [] {
      assert ops[0].SetHeader? ==> Under(ops[0].header, name).None?;
      forall k | 0 <= k < |ops[1..]| && ops[1..][k].SetHeader? ensures Under(ops[1..][k].header, name).None? {
        assert ops[1..][k] == ops[k + 1];
      }
      GivenUses(ops[1..], name, values);
    }
  }

  /** The codes arrive: the receiver is told those of the answer, first, and the http.Response
      has them under ":response", in decimal, if the handler does not use that name itself. */
  lemma CodesArrive(id: uint32, job: D.Job)
    ensures var (code, subcode) := if Codes(job.ops).Some? then Codes(job.ops).value else (0, 0);
      var calls := Demux.AllEffects(D.Reply(id, job));
      && calls != [] && calls[0] == C.ReceiveResponse(id, code % 256, subcode % 256)
      && (LeftAlone(job.ops, R.RESPONSE_NAME) ==>
            && R.RESPONSE_NAME in Final(id, job)
            && Final(id, job)[R.RESPONSE_NAME] == [R.Codes(code % 256, subcode % 256)])
  {
    hide SS.Emitted, Demux.Effects, P.Delivered, R.FeedAll, R.Codes, Codes, LeftAlone, Under, R.LastGiven;
    var fs := SS.Emitted(id, job.flags, job.ops);
    AnswerGoesOut(id, job.flags, job.ops);
    FirstCall(fs, id, Codes(job.ops));
    if LeftAlone(job.ops, R.RESPONSE_NAME) {
      RestWithout(id, job);
      NoneUse(id, job.flags, job.ops, 0);
      ResponseGives(fs[0]);
      R.LastGivenAppend(Demux.Effects(P.Delivered(fs[0])), Demux.AllEffects(D.Arrives(fs[1..])), R.RESPONSE_NAME);
      assert D.Arrives(fs)[1..] == D.Arrives(fs[1..]);
      R.LastHeaderWins(R.Reading(0, map[], []), Demux.AllEffects(D.Reply(id, job)), R.RESPONSE_NAME);
    }
  }

  lemma FirstCall(fs: seq<F>, id: uint32, codes: Option<(int, int)>)
    requires Starts(fs, id, codes)
    ensures var calls := Demux.AllEffects(D.Arrives(fs));
      calls != [] && calls[0] == C.ReceiveResponse(id, fs[0].code, fs[0].subcode)
  {
    hide Strip, SS.Itoa;
    assert D.Arrives(fs)[0] == P.Delivered(fs[0]);
    assert Demux.Effects(P.Delivered(fs[0]))[0] == C.ReceiveResponse(id, fs[0].code, fs[0].subcode);
  }

  lemma RestWithout(id: uint32, job: D.Job)
    requires LeftAlone(job.ops, R.RESPONSE_NAME)
    ensures var fs := SS.Emitted(id, job.flags, job.ops);
      fs != [] && R.LastGiven(Demux.AllEffects(D.Arrives(fs[1..])), R.RESPONSE_NAME) == None
  {
    hide SS.Emitted, LeftAlone, Under, R.LastGiven;
    var fs := SS.Emitted(id, job.flags, job.ops);
    SS.StreamGrammar(id, job.flags, job.ops);
    forall i | 0 <= i < |fs[1..]|
      ensures !fs[1..][i].Response?
      ensures fs[1..][i].Headers? ==> Under(fs[1..][i].header, R.RESPONSE_NAME).None?
    {
      assert fs[1..][i] == fs[i + 1];
      if fs[i + 1].Headers? {
        NoneUse(id, job.flags, job.ops, i + 1);
      }
    }
    NoResponseName(fs[1..]);
  }

  // ------------------------------------------------------------------ the other streams

  /** Closing a stream sends what its handler has prepared, and then the stream takes
      nothing more. */
  lemma CloseSendsHeader(s: SS.Server, op: SS.Op)
    ensures var t := SS.AfterClose(s);
      && s.out <= t.out && Sets(t.out[|s.out|..]) == (if s.header == map[] then [] else [s.header])
      && t.header == map[] && S.ClosedHere(t.state) && S.ClosedThere(t.state) && !SS.Accepts(t, op)
  {
    hide Sets, Leaves, SS.Flush;
    FlushCarries(s);
    HeaderThenData(s.out, s.id, s.header, []) by {
      NoSets();
    }
    assert s.out + [Headers(0, s.id, s.header)] + [] == s.out + [Headers(0, s.id, s.header)];
    assert s.out + [] == s.out;
  }

  /** The header set of a push goes out whole, before the data of the next accepted Write,
      or when the application or Close asks for it; and once. */
  lemma PushHeaderGoesOut(p: PS.Pushing, op: PS.Op)
    ensures var t := PS.Exec(p, op);
      && p.out <= t.out
      && var hs := Sets(t.out[|p.out|..]);
         && hs == (if PushFlushes(p, op) then [p.header] else [])
         && (hs != [] && !op.CallClose? ==> Leaves(p.header, t.header))
         && (hs == [] && !op.SetHeader? && !op.CallClose? ==> t.header == p.header)
  {
    hide Leaves, Sets, SS.Cleared, Chunking.Chunks, PS.Flush;
    var t := PS.Exec(p, op);
    NoSets();
    PushFlushed(p);
    if op.CallWrite? {
      var more := Chunking.DataFrames(p.id, Chunking.Chunks(op.data, MAX_DATA_SIZE));
      DataHasNone(more);
      HeaderThenData(p.out, p.id, p.header, more);
    }
    HeaderThenData(p.out, p.id, p.header, []);
    assert p.out + [Headers(0, p.id, p.header)] + [] == p.out + [Headers(0, p.id, p.header)];
    assert p.out[|p.out|..] == [];
  }

  predicate PushFlushes(p: PS.Pushing, op: PS.Op) {
    p.live && !p.crashed && p.header != map[] && (op.CallWriteHeader? || op.CallClose? || PS.Accepts(p, op))
  }

  lemma PushFlushed(p: PS.Pushing)
    ensures var t := PS.Flush(p);
      if p.header == map[] then t == p
      else t == p.(header := t.header, out := p.out + [Headers(0, p.id, p.header)]) && Leaves(p.header, t.header)
  {
    hide Leaves, SS.Cleared;
    ClearedLeaves(p.header);
  }

  /** The same of a client stream, whose Writes are never accepted. */
  lemma ClientHeaderGoesOut(s: CS.Client, op: CS.Op)
    requires CS.Inv(s)
    ensures var t := CS.Exec(s, op);
      && s.out <= t.out
      && var hs := Sets(t.out[|s.out|..]);
         && hs == (if s.live && !s.crashed && s.header != map[] && (op.CallWriteHeader? || op.CallClose?)
                   then [s.header] else [])
         && (hs != [] && !op.CallClose? ==> Leaves(s.header, t.header))
         && (hs == [] && !op.SetHeader? && !op.CallClose? ==> t.header == s.header)
  {
    hide Leaves, Sets, SS.Cleared, CS.ReceiveFrame, CS.OnlyHeaders, CS.Flush;
    NoSets();
    ClientFlushed(s);
    HeaderThenData(s.out, s.id, s.header, []);
    assert s.out + [Headers(0, s.id, s.header)] + [] == s.out + [Headers(0, s.id, s.header)];
    assert s.out[|s.out|..] == [];
    if op.Receive? {
      ReceivingSendsNothing(s, op.frame);
    }
  }

  lemma ClientFlushed(s: CS.Client)
    ensures var t := CS.Flush(s);
      if s.header == map[] then t == s
      else t == s.(header := t.header, out := s.out + [Headers(0, s.id, s.header)]) && Leaves(s.header, t.header)
  {
    hide Leaves, SS.Cleared;
    ClearedLeaves(s.header);
  }

  lemma ReceivingSendsNothing(s: CS.Client, f: F)
    ensures CS.ReceiveFrame(s, f).out == s.out && CS.ReceiveFrame(s, f).header == s.header
  {
    hide C.Callbacks;
  }
}
