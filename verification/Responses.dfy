// response of transport.go: the receiver that turns what a request is told into an
// http.Response, and updateHeader of interfaces.go.

module Responses {
  import opened Protocol
  import opened HeaderBlock
  import S = StreamStates
  import SS = ServerStreams
  import P = Pipeline
  import Chunking
  import C = Connection
  import Demux
  import D = Delivery

  // ----------------------------------------------------------------------- headers

  /** http.Header's Set, Add and Get. */
  function Set(h: Header, name: Bytes, value: Bytes): Header {
    h[Canonical(name) := [value]]
  }

  function Add(h: Header, name: Bytes, value: Bytes): Header {
    var key := Canonical(name);
    h[key := (if key in h then h[key] else []) + [value]]
  }

  function Get(h: Header, name: Bytes): Bytes {
    var key := Canonical(name);
    if key in h && h[key] != [] then h[key][0] else []
  }

  function Updated(older: Header, newer: Header, order: seq<Bytes>): Header
    requires forall name :: name in order ==> name in newer
    decreases order
  {
    if order == [] then older
    else
      var values := newer[order[0]];
      Updated(if values == [] then older else older[Canonical(order[0]) := values], newer, order[1..])
  }

  /** The pairs of `newer` that have a value. */
  function Valued(newer: Header): (h: Header) {
    map name | name in newer && newer[name] != [] :: newer[name]
  }

  /** updateHeader, with the order in which Go happens to visit the names. */
  method UpdateHeader(older: Header, newer: Header, order: seq<Bytes>) returns (h: Header)
    requires forall name :: name in order ==> name in newer
    ensures h == Updated(older, newer, order)
  {
    hide Canonical;
    h := older;
    assert order[0..] == order;
    for k := 0 to |order|
      invariant Updated(h, newer, order[k..]) == Updated(older, newer, order)
    {
      assert order[k..][0] == order[k] && order[k..][1..] == order[k + 1..];
      var name := order[k];
      var values := newer[name];
      ghost var before := h;
      for i := 0 to |values|
        invariant h == if i == 0 then before else before[Canonical(name) := values[..i]]
      {
        assert values[..i + 1] == values[..i] + [values[i]];
        assert i == 0 ==> values[..i + 1] == [values[i]];
        h := if i == 0 then Set(h, name, values[i]) else Add(h, name, values[i]);
      }
      assert values[..|values|] == values;
    }
    assert order[|order|..] == [];
  }

  /** For canonical names the order does not matter: the values of `newer` replace those
      of `older`, all of them at once. */
  lemma UpdatedAnyOrder(older: Header, newer: Header, order: seq<Bytes>)
    requires Order(order, newer) && forall name :: name in newer ==> Canonical(name) == name
    ensures Updated(older, newer, order) == older + Valued(newer)
  {
    UpdatedKeys(older, newer, order);
    hide Canonical, Updated;
    var r, sum := Updated(older, newer, order), older + Valued(newer);
    assert forall name :: name in r <==> name in sum;
    assert forall name | name in r :: r[name] == sum[name];
  }

  lemma {:induction false} UpdatedKeys(older: Header, newer: Header, order: seq<Bytes>)
    requires Distinct(order) && forall name :: name in order ==> name in newer && Canonical(name) == name
    ensures var r := Updated(older, newer, order);
      forall name :: (name in r <==> name in older || (name in order && newer[name] != []))
        && (name in r ==> r[name] == if name in order && newer[name] != [] then newer[name] else older[name])
    decreases order
  {
    hide Canonical;
    if order != [] {
      var values := newer[order[0]];
      var next := if values == [] then older else older[order[0] := values];
      assert forall name | name in order[1..] :: name in order;
      DistinctTail(order);
      UpdatedKeys(next, newer, order[1..]);
      assert forall name :: name in order <==> name == order[0] || name in order[1..];
    }
  }

  lemma DistinctTail(order: seq<Bytes>)
    requires Distinct(order) && order != []
    ensures Distinct(order[1..]) && order[0] !in order[1..]
  {
  }

  // ------------------------------------------------------------------------ status

  predicate Digit(b: byte) {
    48 <= b <= 57
  }

  function SkipSpace(bs: Bytes): Bytes {
    if bs != [] && (bs[0] == 9 || bs[0] == 10 || bs[0] == 12 || bs[0] == 13 || bs[0] == 32) then SkipSpace(bs[1..])
    else bs
  }

  function Digits(bs: Bytes): Bytes {
    if bs != [] && Digit(bs[0]) then [bs[0]] + Digits(bs[1..]) else []
  }

  function Value(ds: Bytes): int {
    if ds == [] then 0 else Value(ds[..|ds| - 1]) * 10 + (ds[|ds| - 1] as int - 48)
  }

  /** The number that statusRegex finds and strconv.Atoi converts. */
  function ParseStatus(bs: Bytes): Option<int> {
    var ds := Digits(SkipSpace(bs));
    if ds == [] || Value(ds) > 0x7fff_ffff_ffff_ffff then None else Some(Value(ds))
  }

  /** It reads back what the server's strconv.Itoa wrote. */
  lemma StatusRoundTrip(n: int)
    requires 100 <= n < 1000
    ensures ParseStatus(SS.Itoa(n)) == Some(n)
  {
    hide ParseStatus;
    var a, b, c := 48 + n / 100, 48 + (n / 10) % 10, 48 + n % 10;
    assert SS.Itoa(n) == [a, b, c];
    ThreeDigits(a, b, c);
    DigitsOf(n);
  }

  lemma DigitsOf(n: int)
    requires 100 <= n < 1000
    ensures (n / 100) * 100 + ((n / 10) % 10) * 10 + n % 10 == n
  {
    assert n / 10 == (n / 100) * 10 + (n / 10) % 10;
  }

  lemma ThreeDigits(a: byte, b: byte, c: byte)
    requires Digit(a) && Digit(b) && Digit(c)
    ensures ParseStatus([a, b, c]) == Some((a - 48) * 100 + (b - 48) * 10 + (c - 48))
  {
    assert SkipSpace([a, b, c]) == [a, b, c];
    assert [a, b, c][1..] == [b, c] && [b, c][1..] == [c] && [c][1..] == [];
    assert Digits([c]) == [c];
    assert Digits([b, c]) == [b, c];
    assert Digits([a, b, c]) == [a, b, c];
    assert [a, b, c][..2] == [a, b] && [a, b][..1] == [a] && [a][..0] == [];
    assert Value([]) == 0;
    assert Value([a]) == a - 48;
    assert Value([a, b]) == (a - 48) * 10 + (b - 48);
  }

  /** The statuses that come back as they were answered, of all numbers. */
  predicate Returning(code: int) {
    code in {200, 304, 206, 303, 301, 400, 403, 404, 410, 500, 503, 504}
  }

  /** The two status tables, one after the other: these statuses are kept; any other known
      one becomes the general one of its kind, and an unknown one a 500. */
  lemma StatusTables(code: int)
    ensures var back := SS.WpToHttp(SS.HttpToWp(code).0, SS.HttpToWp(code).1);
      && (back == code <==> Returning(code))
      && (!Returning(code) ==>
            back == if code == 100 || 201 <= code <= 205 then 200
                    else if code in {302, 305, 307} then 303
                    else if code in {401, 402, 407} then 403
                    else if code in {405, 406, 408, 409} || 411 <= code <= 417 then 400
                    else if code == 502 then 503
                    else 500)
  {
  }

  /** And the other way around, for any codes a handler gives. */
  lemma CodeTables(code: int, subcode: int)
    ensures var status := SS.WpToHttp(code, subcode);
      && Returning(status)
      && (SS.HttpToWp(status) == (code, subcode) <==>
            (code == 0 && 0 <= subcode <= 2) || (code == 1 && 0 <= subcode <= 1) ||
            (code == 2 && 0 <= subcode <= 3) || (code == 3 && 0 <= subcode <= 2))
      && (SS.HttpToWp(status) != (code, subcode) ==> status == 500)
  {
  }

  // ---------------------------------------------------------------------- receiver

  datatype Reading = Reading(statusCode: int, header: Header, data: Bytes)

  const STATUS: Bytes := Ascii(":status")

  /** What one call on the receiver does. */
  function Feed(r: Reading, call: C.Call): Reading {
    match call
    case ReceiveData(_, data, _) => r.(data := r.data + data)
    case ReceiveHeader(_, h) =>
      var header := r.header + Valued(h);
      var status := ParseStatus(Get(header, STATUS));
      r.(header := header, statusCode := if status.Some? then status.value else r.statusCode)
    case ReceiveResponse(_, code, subcode) => r.(header := Set(r.header, RESPONSE_NAME, Codes(code, subcode)))
    case _ => r
  }

  function FeedAll(r: Reading, calls: seq<C.Call>): Reading
    decreases calls
  {
    if calls == [] then r else FeedAll(Feed(r, calls[0]), calls[1..])
  }

  /** "code/subcode" in decimal. */
  function Codes(code: byte, subcode: byte): Bytes {
    Decimal(code) + [47] + Decimal(subcode)
  }

  function Decimal(n: nat): Bytes {
    (if n < 10 then [] else Decimal(n / 10)) + [48 + n % 10]
  }

  lemma {:induction false} DataAccumulates(r: Reading, calls: seq<C.Call>)
    ensures FeedAll(r, calls).data == r.data + D.BytesOf(calls)
    decreases calls
  {
    hide Valued, ParseStatus, Get, Set, Codes;
    if calls == [] {
      assert r.data + [] == r.data;
    } else {
      DataAccumulates(Feed(r, calls[0]), calls[1..]);
      var first := if calls[0].ReceiveData? then calls[0].data else [];
      assert r.data + first == Feed(r, calls[0]).data by {
        assert r.data + [] == r.data;
      }
      assert r.data + first + D.BytesOf(calls[1..]) == r.data + (first + D.BytesOf(calls[1..]));
    }
  }

  /** The body of the http.Response is what the handler wrote. */
  lemma BodyIsWritten(id: uint32, job: D.Job)
    ensures FeedAll(Reading(0, map[], []), Demux.AllEffects(D.Reply(id, job))).data == D.Written(id, job)
  {
    D.Outcome(id, job);
    hide D.Reply, D.Written, Demux.AllEffects, Feed;
    DataAccumulates(Reading(0, map[], []), Demux.AllEffects(D.Reply(id, job)));
    assert [] + D.Written(id, job) == D.Written(id, job);
  }

  // ------------------------------------------------------------- the final header

  const RESPONSE_NAME: Bytes := Ascii(":response")

  /** The values that a call gives a name, if any. */
  function Gives(call: C.Call, name: Bytes): Option<seq<Bytes>> {
    match call
    case ReceiveHeader(_, h) => if name in h && h[name] != [] then Some(h[name]) else None
    case ReceiveResponse(_, code, subcode) => if name == RESPONSE_NAME then Some([Codes(code, subcode)]) else None
    case _ => None
  }

  /** What the last call that gives a name gives it. */
  function LastGiven(calls: seq<C.Call>, name: Bytes): Option<seq<Bytes>> {
    if calls == [] then None
    else if LastGiven(calls[1..], name).Some? then LastGiven(calls[1..], name)
    else Gives(calls[0], name)
  }

  lemma ResponseNameIsCanonical()
    ensures Canonical(RESPONSE_NAME) == RESPONSE_NAME
  {
    assert RESPONSE_NAME[0] == 58;
    assert !TokenByte(RESPONSE_NAME[0]);
  }

  lemma FeedGives(r: Reading, call: C.Call, name: Bytes)
    ensures var h := Feed(r, call).header;
      && (name in h <==> name in r.header || Gives(call, name).Some?)
      && (name in h ==> h[name] == if Gives(call, name).Some? then Gives(call, name).value else r.header[name])
  {
    ResponseNameIsCanonical();
    hide Canonical, ParseStatus, Codes, Get;
  }

  /** Whatever a receiver is told, in the end its header has under each name the values of
      the last call that gave it any, and its first values if none did: the last header set
      with that name, or for ":response" the codes of the last RESPONSE, if that came later. */
  lemma {:induction false} LastHeaderWins(r: Reading, calls: seq<C.Call>, name: Bytes)
    ensures var h, last := FeedAll(r, calls).header, LastGiven(calls, name);
      && (name in h <==> name in r.header || last.Some?)
      && (name in h ==> h[name] == if last.Some? then last.value else r.header[name])
    decreases calls
  {
    hide Feed, Gives;
    if calls != [] {
      FeedGives(r, calls[0], name);
      LastHeaderWins(Feed(r, calls[0]), calls[1..], name);
    }
  }

  lemma {:induction false} LastGivenAppend(a: seq<C.Call>, b: seq<C.Call>, name: Bytes)
    ensures LastGiven(a + b, name)
         == if LastGiven(b, name).Some? then LastGiven(b, name) else LastGiven(a, name)
  {
    hide Gives;
    if a == [] {
      assert a + b == b;
    } else {
      assert (a + b)[0] == a[0] && (a + b)[1..] == a[1..] + b;
      LastGivenAppend(a[1..], b, name);
    }
  }

  lemma ValueSnoc(ds: Bytes, b: byte)
    ensures Value(ds + [b]) == Value(ds) * 10 + (b as int - 48)
  {
    assert (ds + [b])[..|ds|] == ds;
  }

  lemma DecimalStep(n: nat)
    ensures Decimal(n) == (if n < 10 then [] else Decimal(n / 10)) + [48 + n % 10]
    ensures Digit(48 + n % 10) && (n / 10) * 10 + n % 10 == n && (n >= 10 ==> n / 10 < n)
  {
  }

  /** The decimal form reads back as the number, so ":response" tells both codes. */
  lemma {:induction false} DecimalReads(n: nat)
    ensures Decimal(n) != [] && (forall i :: 0 <= i < |Decimal(n)| ==> Digit(Decimal(n)[i]))
    ensures Value(Decimal(n)) == n
    decreases n
  {
    hide Decimal, Digit, Value;
    DecimalStep(n);
    var front := if n < 10 then [] else Decimal(n / 10);
    ValueSnoc(front, 48 + n % 10);
    if n >= 10 {
      DecimalReads(n / 10);
    } else {
      NoValue();
    }
  }

  lemma NoValue()
    ensures Value([]) == 0
  {
  }

  lemma CodesRead(code: byte, subcode: byte)
    ensures Digits(Codes(code, subcode)) == Decimal(code)
    ensures Codes(code, subcode)[|Decimal(code)|..] == [47] + Decimal(subcode)
    ensures Value(Decimal(code)) == code && Value(Decimal(subcode)) == subcode
  {
    hide Decimal, Value;
    DecimalReads(code);
    DecimalReads(subcode);
    DigitsStop(Decimal(code), [47] + Decimal(subcode));
    assert Codes(code, subcode) == Decimal(code) + ([47] + Decimal(subcode));
  }

  /** The digits at the front of a string. */
  lemma {:induction false} DigitsStop(ds: Bytes, rest: Bytes)
    requires forall i :: 0 <= i < |ds| ==> Digit(ds[i])
    requires rest != [] ==> !Digit(rest[0])
    ensures Digits(ds + rest) == ds
  {
    if ds == [] {
      assert ds + rest == rest;
    } else {
      assert (ds + rest)[0] == ds[0] && (ds + rest)[1..] == ds[1..] + rest;
      DigitsStop(ds[1..], rest);
    }
  }

  predicate Space(b: byte) {
    b in {9, 10, 12, 13, 32}
  }

  lemma {:induction false} SpaceSkipped(ws: Bytes, rest: Bytes)
    requires forall i :: 0 <= i < |ws| ==> Space(ws[i])
    requires rest != [] ==> !Space(rest[0])
    ensures SkipSpace(ws + rest) == rest
  {
    if ws == [] {
      assert ws + rest == rest;
    } else {
      assert (ws + rest)[0] == ws[0] && (ws + rest)[1..] == ws[1..] + rest;
      SpaceSkipped(ws[1..], rest);
    }
  }

  /** What statusRegex accepts: white space, then at least one digit; the number is that of
      all the digits, as long as it fits an int. */
  lemma ParseStatusExactly(ws: Bytes, ds: Bytes, rest: Bytes)
    requires (forall i :: 0 <= i < |ws| ==> Space(ws[i])) && (forall i :: 0 <= i < |ds| ==> Digit(ds[i]))
    requires rest != [] ==> !Digit(rest[0]) && (ds == [] ==> !Space(rest[0]))
    ensures ParseStatus(ws + ds + rest)
         == if ds == [] || Value(ds) >= 0x8000_0000_0000_0000 then None else Some(Value(ds))
  {
    hide Value, Digits, SkipSpace;
    assert ws + ds + rest == ws + (ds + rest);
    assert ds == [] ==> ds + rest == rest;
    assert ds != [] ==> (ds + rest)[0] == ds[0];
    SpaceSkipped(ws, ds + rest);
    DigitsStop(ds, rest);
  }

  // ------------------------------------------------------------- the final status

  /** The status that a header set carries, if it is a number. */
  function Carries(h: Header): Option<int> {
    if STATUS in h && h[STATUS] != [] then ParseStatus(h[STATUS][0]) else None
  }

  function Listed(status: Option<int>): (r: seq<int>) {
    if status.Some? then [status.value] else []
  }

  /** The statuses among the header sets that a receiver is given, in order. */
  function Told(calls: seq<C.Call>): (r: seq<int>) {
    if calls == [] then []
    else (if calls[0].ReceiveHeader? then Listed(Carries(calls[0].header)) else []) + Told(calls[1..])
  }

  /** The same among the frames of a stream. */
  function Sent(fs: seq<C.F>): (r: seq<int>) {
    if fs == [] then []
    else (if fs[0].Response? || fs[0].Headers? then Listed(Carries(fs[0].header)) else []) + Sent(fs[1..])
  }

  /** What the receiver has parsed is what its header says, if that is a number. */
  ghost predicate Coherent(r: Reading) {
    var status := ParseStatus(Get(r.header, STATUS));
    status.Some? ==> r.statusCode == status.value
  }

  lemma StatusName()
    ensures Canonical(STATUS) == STATUS && Canonical(RESPONSE_NAME) != STATUS
  {
    assert STATUS[0] == 58 && STATUS[1] == 115;
    assert RESPONSE_NAME[0] == 58 && RESPONSE_NAME[1] == 114;
  }

  lemma FeedKeepsCoherent(r: Reading, call: C.Call)
    requires Coherent(r)
    ensures Coherent(Feed(r, call))
    ensures Feed(r, call).statusCode
         == if call.ReceiveHeader? && Carries(call.header).Some? then Carries(call.header).value else r.statusCode
  {
    hide ParseStatus, Canonical, Codes;
    StatusName();
  }

  /** The last number wins. */
  lemma {:induction false} LastStatusWins(r: Reading, calls: seq<C.Call>)
    requires Coherent(r)
    ensures var told := Told(calls);
      FeedAll(r, calls).statusCode == if told == [] then r.statusCode else told[|told| - 1]
    decreases calls
  {
    hide Feed, Coherent, Carries;
    if calls != [] {
      FeedKeepsCoherent(r, calls[0]);
      LastStatusWins(Feed(r, calls[0]), calls[1..]);
    }
  }

  lemma {:induction false} ToldAppend(a: seq<C.Call>, b: seq<C.Call>)
    ensures Told(a + b) == Told(a) + Told(b)
  {
    hide Carries;
    if a == [] {
      assert a + b == b;
    } else {
      var first := if a[0].ReceiveHeader? then Listed(Carries(a[0].header)) else [];
      assert (a + b)[0] == a[0] && (a + b)[1..] == a[1..] + b;
      ToldAppend(a[1..], b);
      assert first + (Told(a[1..]) + Told(b)) == first + Told(a[1..]) + Told(b);
    }
  }

  /** What a receiver is told of a stream's statuses is what the stream sent. */
  lemma {:induction false} ToldIsSent(fs: seq<C.F>)
    ensures Told(Demux.AllEffects(D.Arrives(fs))) == Sent(fs)
  {
    hide Carries, P.Delivered, Demux.Effects;
    if fs != [] {
      assert D.Arrives(fs)[1..] == D.Arrives(fs[1..]);
      ToldAppend(Demux.Effects(D.Arrives(fs)[0]), Demux.AllEffects(D.Arrives(fs)[1..]));
      ToldOfFrame(fs[0]);
      ToldIsSent(fs[1..]);
    }
  }

  lemma ToldOfFrame(f: C.F)
    ensures Told(Demux.Effects(P.Delivered(f)))
         == if f.Response? || f.Headers? then Listed(Carries(f.header)) else []
  {
    hide ParseStatus, Carries, Strip;
    var g := P.Delivered(f);
    var tail := if C.Ends(g) then [C.Completed(g.id)] else [];
    ToldAppend(C.Callbacks(g), tail);
    assert Told(tail) == [] by { assert |tail| <= 1; }
    if f.Response? || f.Headers? {
      StripCarries(f.header);
      HeaderTold(g.id, Strip(f.header));
      if f.Response? {
        assert C.Callbacks(g)[1..] == [C.ReceiveHeader(g.id, Strip(f.header))];
      }
    } else if f.Data? {
      assert C.Callbacks(g)[1..] == [];
    }
  }

  lemma HeaderTold(id: uint32, h: Header)
    ensures Told([C.ReceiveHeader(id, h)]) == Listed(Carries(h))
  {
    hide Carries;
    assert [C.ReceiveHeader(id, h)][1..] == [];
  }

  lemma StripCarries(h: Header)
    ensures Carries(Strip(h)) == Carries(h)
  {
    hide ParseStatus;
    NotHopByHop();
  }

  lemma NotHopByHop()
    ensures STATUS !in {Ascii("Connection"), Ascii("Keep-Alive"), Ascii("Proxy-Connection"), Ascii("Transfer-Encoding")}
  {
    assert STATUS[0] == 58;
    assert Ascii("Connection")[0] != 58 && Ascii("Keep-Alive")[0] != 58;
    assert Ascii("Proxy-Connection")[0] != 58 && Ascii("Transfer-Encoding")[0] != 58;
  }

  /** The HTTP status that a handler answers with: that of its first call that writes
      the response, or 200. A Write that is refused because the connection has stopped
      writes none. */
  function Answered(ops: seq<SS.Op>): (n: int)
    ensures 100 <= n < 600
  {
    if ops == [] then 200
    else
      match ops[0]
      case SetHeader(_) => Answered(ops[1..])
      case CallWriteHeader(code) => SS.WpToHttp(SS.HttpToWp(code).0, SS.HttpToWp(code).1)
      case CallWriteResponse(code, subcode) => SS.WpToHttp(code, subcode)
      case CallWrite(_, stopped) => if stopped then Answered(ops[1..]) else 200
  }

  lemma WithStatusCarries(h: Header, n: int)
    requires 100 <= n < 1000
    ensures Carries(SS.WithStatus(h, SS.Itoa(n))) == Some(n)
  {
    StatusRoundTrip(n);
    hide ParseStatus, SS.Itoa;
    assert Ascii(":version")[1] == 118 && STATUS[1] == 115;
  }

  lemma TwoHundred()
    ensures SS.Itoa(200) == Ascii("200")
  {
  }

  /** The first frame out is a RESPONSE with that status. */
  ghost predicate Leads(fs: seq<C.F>, n: int) {
    fs != [] && fs[0].Response? && Carries(fs[0].header) == Some(n)
  }

  lemma WriteLeads(s: SS.Server, code: int, subcode: int)
    requires !s.wroteResponse && s.out == []
    ensures Leads(SS.WriteResponse(s, code, subcode).out, SS.WpToHttp(code, subcode))
  {
    hide Carries, SS.WithStatus, SS.WpToHttp, SS.Itoa;
    WithStatusCarries(s.header, SS.WpToHttp(code, subcode));
  }

  lemma ExecGrows(s: SS.Server, op: SS.Op)
    ensures s.out <= SS.Exec(s, op).out
  {
    hide SS.WithStatus, SS.WpToHttp, SS.Cleared, SS.HttpToWp, SS.Itoa;
  }

  lemma {:induction false} LeadStays(s: SS.Server, ops: seq<SS.Op>, n: int)
    requires Leads(s.out, n)
    ensures Leads(SS.ExecAll(s, ops).out, n)
    decreases ops
  {
    hide SS.Exec, Carries;
    if ops != [] {
      ExecGrows(s, ops[0]);
      LeadStays(SS.Exec(s, ops[0]), ops[1..], n);
    }
  }

  lemma EpilogueLeads(s: SS.Server, n: int)
    requires Leads(s.out, n) || (s.out == [] && !s.wroteResponse && !S.ClosedHere(s.state) && n == 200)
    ensures Leads(SS.Epilogue(s).out, n)
  {
    hide Carries, SS.WithStatus, SS.Itoa;
    WithStatusCarries(s.header, 200);
    TwoHundred();
  }

  /** A call that writes nothing. */
  predicate Mute(op: SS.Op) {
    op.SetHeader? || (op.CallWrite? && op.stopped)
  }

  /** A call that writes the response of a fresh stream. */
  lemma FirstWriteLeads(s: SS.Server, op: SS.Op)
    requires SS.Writable(s) && s.out == [] && !s.wroteHeader && !s.wroteResponse && !Mute(op)
    ensures Leads(SS.Exec(s, op).out, Answered([op]))
  {
    hide Carries, SS.WithStatus, SS.Itoa, SS.WpToHttp, SS.Flush;
    var t := s.(wroteHeader := true);
    match op
    case CallWriteResponse(code, subcode) => WriteLeads(s, code, subcode);
    case CallWriteHeader(code) => WriteLeads(t, SS.HttpToWp(code).0, SS.HttpToWp(code).1);
    case CallWrite(data, _) =>
      WriteLeads(t, 0, 0);
      SuccessIs200();
      FlushGrows(SS.WriteHeader(s, 200));
  }

  lemma SuccessIs200()
    ensures SS.HttpToWp(200) == (0, 0) && SS.WpToHttp(0, 0) == 200
  {
  }

  lemma FlushGrows(s: SS.Server)
    ensures s.out <= SS.Flush(s).out
  {
  }

  lemma {:induction false} HandlerLeads(s: SS.Server, ops: seq<SS.Op>)
    requires SS.Writable(s) && s.out == [] && !s.wroteHeader && !s.wroteResponse
    ensures Leads(SS.Epilogue(SS.ExecAll(s, ops)).out, Answered(ops))
    decreases ops
  {
    hide Carries, SS.Epilogue, SS.WriteResponse, SS.WriteHeader, SS.Write;
    if ops == [] {
      EpilogueLeads(s, 200);
    } else if Mute(ops[0]) {
      HandlerLeads(SS.Exec(s, ops[0]), ops[1..]);
    } else {
      FirstWriteLeads(s, ops[0]);
      LeadStays(SS.Exec(s, ops[0]), ops[1..], Answered(ops));
      EpilogueLeads(SS.ExecAll(s, ops), Answered(ops));
    }
  }

  /** The numbers that HEADERS frames after the RESPONSE carry as ":status". */
  function Later(id: uint32, job: D.Job): (r: seq<int>) {
    var fs := SS.Emitted(id, job.flags, job.ops);
    if fs == [] then [] else Sent(fs[1..])
  }

  /** The status of the http.Response, for every handler program: the one the handler
      answered with, exactly as long as the last number that a later HEADERS carries as
      ":status", if any does, is that status again. */
  lemma StatusOfResponse(id: uint32, job: D.Job)
    ensures var status := FeedAll(Reading(0, map[], []), Demux.AllEffects(D.Reply(id, job))).statusCode;
      var later := Later(id, job);
      && status == (if later == [] then Answered(job.ops) else later[|later| - 1])
      && (status == Answered(job.ops) <==> later == [] || later[|later| - 1] == Answered(job.ops))
  {
    hide Carries, FeedAll, Sent, SS.Emitted, Demux.AllEffects, D.Arrives;
    var fs := SS.Emitted(id, job.flags, job.ops);
    EmittedLeads(id, job);
    ToldIsSent(fs);
    SentFirst(fs);
    NothingRead();
    LastStatusWins(Reading(0, map[], []), Demux.AllEffects(D.Reply(id, job)));
  }

  lemma EmittedLeads(id: uint32, job: D.Job)
    ensures Leads(SS.Emitted(id, job.flags, job.ops), Answered(job.ops))
  {
    hide SS.Epilogue, SS.ExecAll, Leads;
    HandlerLeads(SS.Accept(id, job.flags), job.ops);
  }

  lemma SentFirst(fs: seq<C.F>)
    requires fs != [] && fs[0].Response?
    ensures Sent(fs) == Listed(Carries(fs[0].header)) + Sent(fs[1..])
  {
    hide Carries;
  }

  lemma NothingRead()
    ensures Coherent(Reading(0, map[], []))
  {
    assert ParseStatus([]) == None;
  }

  /** A handler that leaves ":status" alone gets its status through. */
  lemma StatusArrives(id: uint32, job: D.Job)
    requires forall i :: 0 <= i < |job.ops| && job.ops[i].SetHeader? ==> STATUS !in job.ops[i].header
    ensures FeedAll(Reading(0, map[], []), Demux.AllEffects(D.Reply(id, job))).statusCode == Answered(job.ops)
  {
    hide SS.Emitted, Answered, Sent, FeedAll;
    StatusOfResponse(id, job);
    var fs := SS.Emitted(id, job.flags, job.ops);
    EmittedSilent(id, job);
    if fs != [] {
      SilentSendsNone(fs);
    }
  }

  /** Nothing after the first frame carries a status. */
  ghost predicate Silent(fs: seq<C.F>) {
    forall i :: 0 < i < |fs| ==> !fs[i].Response? && (fs[i].Headers? ==> STATUS !in fs[i].header)
  }

  lemma SilentSendsNone(fs: seq<C.F>)
    requires Silent(fs) && fs != []
    ensures Sent(fs[1..]) == []
  {
    forall i | 0 <= i < |fs[1..]|
      ensures !fs[1..][i].Response? && (fs[1..][i].Headers? ==> STATUS !in fs[1..][i].header)
    {
      assert fs[1..][i] == fs[i + 1];
    }
    NoneSent(fs[1..]);
  }

  lemma {:induction false} NoneSent(fs: seq<C.F>)
    requires forall i :: 0 <= i < |fs| ==> !fs[i].Response? && (fs[i].Headers? ==> STATUS !in fs[i].header)
    ensures Sent(fs) == []
  {
    hide ParseStatus;
    if fs != [] {
      NoneSent(fs[1..]);
    }
  }

  /** The stream's header has no ":status" between calls, and nothing sent has. */
  ghost predicate Discreet(s: SS.Server) {
    && STATUS !in s.header && Silent(s.out)
    && (s.wroteResponse <==> s.out != []) && (s.wroteHeader ==> s.wroteResponse)
  }

  lemma ClearedOfStatus(h: Header)
    ensures STATUS !in SS.Cleared(h)
  {
    StatusName();
  }

  lemma ResponseIsDiscreet(s: SS.Server, code: int, subcode: int)
    requires STATUS !in s.header && Silent(s.out) && (s.wroteResponse <==> s.out != [])
    ensures Discreet(SS.WriteResponse(s, code, subcode))
  {
    ClearedOfStatus(SS.WithStatus(s.header, SS.Itoa(SS.WpToHttp(code, subcode))));
    hide SS.WithStatus, SS.WpToHttp, SS.Cleared, SS.Itoa;
  }

  lemma FlushIsDiscreet(s: SS.Server)
    requires Discreet(s) && s.out != []
    ensures Discreet(SS.Flush(s)) && SS.Flush(s).out != []
  {
    ClearedOfStatus(s.header);
    hide SS.Cleared;
  }

  lemma DataIsDiscreet(s: SS.Server, more: seq<C.F>)
    requires Discreet(s) && s.out != [] && forall i :: 0 <= i < |more| ==> more[i].Data?
    ensures Discreet(s.(out := s.out + more))
  {
  }

  lemma WriteIsDiscreet(s: SS.Server, data: Bytes)
    requires Discreet(s)
    ensures Discreet(SS.Write(s, data))
  {
    hide Discreet, SS.WriteResponse, SS.Flush, SS.HttpToWp, Chunking.Chunks;
    if SS.Writable(s) {
      var t := SS.WriteHeader(s, 200);
      HeaderIsDiscreet(s, 200);
      FlushIsDiscreet(t);
      DataIsDiscreet(SS.Flush(t), Chunking.DataFrames(SS.Flush(t).id, Chunking.Chunks(data, MAX_DATA_SIZE)));
    }
  }

  lemma HeaderIsDiscreet(s: SS.Server, code: int)
    requires Discreet(s)
    ensures Discreet(SS.WriteHeader(s, code)) && SS.WriteHeader(s, code).out != []
  {
    var t := s.(wroteHeader := true);
    var (wp, sub) := SS.HttpToWp(code);
    ResponseIsDiscreet(t, wp, sub);
    ResponseIsOut(t, wp, sub);
    hide SS.WriteResponse, SS.HttpToWp;
  }

  lemma ResponseIsOut(s: SS.Server, code: int, subcode: int)
    requires s.wroteResponse <==> s.out != []
    ensures SS.WriteResponse(s, code, subcode).out != []
  {
  }

  lemma {:induction false} HandlerIsDiscreet(s: SS.Server, ops: seq<SS.Op>)
    requires Discreet(s) && forall i :: 0 <= i < |ops| && ops[i].SetHeader? ==> STATUS !in ops[i].header
    ensures Discreet(SS.ExecAll(s, ops))
    decreases ops
  {
    hide SS.WriteResponse, SS.WriteHeader, SS.Write;
    if ops != [] {
      match ops[0] {
        case SetHeader(_) =>
        case CallWriteHeader(code) => HeaderIsDiscreet(s, code);
        case CallWriteResponse(code, subcode) => ResponseIsDiscreet(s, code, subcode);
        case CallWrite(data, _) => WriteIsDiscreet(s, data);
      }
      HandlerIsDiscreet(SS.Exec(s, ops[0]), ops[1..]);
    }
  }

  lemma EpilogueIsSilent(s: SS.Server)
    requires Discreet(s)
    ensures Silent(SS.Epilogue(s).out)
  {
    hide SS.WithStatus;
  }

  lemma EmittedSilent(id: uint32, job: D.Job)
    requires forall i :: 0 <= i < |job.ops| && job.ops[i].SetHeader? ==> STATUS !in job.ops[i].header
    ensures Silent(SS.Emitted(id, job.flags, job.ops))
  {
    hide SS.Epilogue, SS.ExecAll, Silent;
    HandlerIsDiscreet(SS.Accept(id, job.flags), job.ops) by { StartsDiscreet(id, job.flags); }
    EpilogueIsSilent(SS.ExecAll(SS.Accept(id, job.flags), job.ops));
  }

  lemma StartsDiscreet(id: uint32, flags: byte)
    ensures Discreet(SS.Accept(id, flags))
  {
  }

  /** A program for which it does not: a 200 that arrives as a 404. */
  function Misleading(flags: byte): D.Job {
    D.Job(flags, [SS.CallWriteResponse(0, 0), SS.SetHeader(map[STATUS := [SS.Itoa(404)]]), SS.CallWrite([1], false)])
  }

  lemma MisleadingSends(id: uint32, flags: byte)
    ensures Later(id, Misleading(flags)) == [404]
  {
    hide SS.WithStatus, SS.Itoa, SS.Cleared, SS.Write, SS.Epilogue, SS.ExecAll, ParseStatus;
    var header := map[STATUS := [SS.Itoa(404)]];
    var job := Misleading(flags);
    var start := SS.Accept(id, flags);
    var ready := SS.WriteResponse(start, 0, 0).(header := header);
    assert STATUS in header;
    WriteSends(ready, [1]);
    ExecThree(start, job.ops);
    EpilogueSends(SS.Write(ready, [1]));
    var rest := [Headers(0, id, header), Data(0, id, [1]), Data(FLAG_FINISH, id, [])];
    assert SS.Emitted(id, job.flags, job.ops) == ready.out + rest;
    assert (ready.out + rest)[1..] == rest;
    SentNumber(id, header);
    assert rest[1..] == [Data(0, id, [1]), Data(FLAG_FINISH, id, [])];
    NoneSent(rest[1..]);
  }

  lemma SentNumber(id: uint32, header: Header)
    requires header == map[STATUS := [SS.Itoa(404)]]
    ensures Carries(header) == Some(404)
  {
    StatusRoundTrip(404);
  }

  lemma EpilogueSends(s: SS.Server)
    requires s.wroteResponse && !S.ClosedHere(s.state)
    ensures SS.Epilogue(s).out == s.out + [Data(FLAG_FINISH, s.id, [])]
  {
  }

  /** A short Write after the response, with headers to flush. */
  lemma WriteSends(s: SS.Server, data: Bytes)
    requires SS.Writable(s) && s.wroteResponse && s.header != map[] && 0 < |data| <= MAX_DATA_SIZE
    ensures var t := SS.Write(s, data);
      && t.out == s.out + [Headers(0, s.id, s.header), Data(0, s.id, data)]
      && t.state == s.state && t.wroteResponse && t.id == s.id
  {
    var sent := Chunking.DataFrames(s.id, Chunking.Chunks(data, MAX_DATA_SIZE));
    assert sent == [Data(0, s.id, data)];
    assert s.out + [Headers(0, s.id, s.header)] + sent == s.out + [Headers(0, s.id, s.header), Data(0, s.id, data)];
    hide SS.Cleared;
  }

  lemma ExecThree(s: SS.Server, ops: seq<SS.Op>)
    requires |ops| == 3
    ensures SS.ExecAll(s, ops) == SS.Exec(SS.Exec(SS.Exec(s, ops[0]), ops[1]), ops[2])
  {
    hide SS.Exec;
    var one := SS.Exec(s, ops[0]);
    var two := SS.Exec(one, ops[1]);
    assert SS.ExecAll(s, ops) == SS.ExecAll(one, ops[1..]);
    assert SS.ExecAll(one, ops[1..]) == SS.ExecAll(two, ops[2..]) by {
      assert ops[1..][0] == ops[1] && ops[1..][1..] == ops[2..];
    }
    assert SS.ExecAll(two, ops[2..]) == SS.Exec(two, ops[2]) by {
      assert ops[2..][0] == ops[2] && ops[2..][1..] == [];
    }
  }

  lemma StatusIsOverridden(id: uint32, flags: byte)
    ensures Answered(Misleading(flags).ops) == 200
    ensures FeedAll(Reading(0, map[], []), Demux.AllEffects(D.Reply(id, Misleading(flags)))).statusCode == 404
  {
    var job := Misleading(flags);
    MisleadingSends(id, flags);
    SuccessIs200();
    StatusOfResponse(id, job);
  }

  // ------------------------------------------------------------------------- object

  class Collector {
    var statusCode: int
    var header: Header
    var data: Bytes

    function Abs(): Reading
      reads this
    {
      Reading(statusCode, header, data)
    }

    constructor ()
      ensures Abs() == Reading(0, map[], [])
    {
      statusCode, header, data := 0, map[], [];
    }

    method ReceiveData(id: uint32, more: Bytes, final: bool)
      modifies this`data
      ensures Abs() == Feed(old(Abs()), C.ReceiveData(id, more, final))
    {
      data := data + more;
    }

    /** For a header set as the decompressor makes it, with canonical names. */
    method ReceiveHeader(id: uint32, newer: Header, order: seq<Bytes>)
      requires Order(order, newer) && forall name :: name in newer ==> Canonical(name) == name
      modifies this`header, this`statusCode
      ensures Abs() == Feed(old(Abs()), C.ReceiveHeader(id, newer))
    {
      UpdatedAnyOrder(header, newer, order);
      hide Order, ParseStatus, Canonical, Updated, Valued;
      header := UpdateHeader(header, newer, order);
      var status := ParseStatus(Get(header, STATUS));
      if status.Some? {
        statusCode := status.value;
      }
    }

    method ReceiveResponse(id: uint32, code: byte, subcode: byte)
      modifies this`header
      ensures Abs() == Feed(old(Abs()), C.ReceiveResponse(id, code, subcode))
    {
      header := Set(header, RESPONSE_NAME, Codes(code, subcode));
    }
  }
}
