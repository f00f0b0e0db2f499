// What a handler may do so that its response survives the wire: a condition on each of
// its calls, from which the byte-level theorems follow, and what goes wrong otherwise.

module Programs {
  import opened Protocol
  import opened Wire
  import opened HeaderBlock
  import HP = HeaderParse
  import P = Pipeline
  import SS = ServerStreams
  import Chunking

  type F = Frame<Header>

  /** The largest length that the two bytes of a frame's length field hold. */
  const MAX_LENGTH := 0xffff

  /** What WithStatus adds to a block: two names of 7 and 8 bytes, two values of 3 and 8,
      and four lengths. */
  const STATUS_SIZE := 42

  /** Deflating makes no block longer by more than that. */
  ghost predicate Expands(z: P.Zlib, slack: nat) {
    && slack + STATUS_SIZE + 5 <= MAX_LENGTH
    && forall history: seq<Bytes>, block: Bytes :: |z.deflate(history, block)| <= |block| + slack
  }

  /** No order of the keys makes a block of more than `room` bytes. */
  ghost predicate Within(h: Header, room: int) {
    forall order :: Order(order, h) ==> 4 + Sized(h, order) <= room
  }

  /** Names that come back as they are, and of what is not stripped one NUL-free value
      each, in a block of at most `room` bytes. */
  ghost predicate Travels(h: Header, room: int) {
    && (forall name :: name in h ==> Returned(name) == name)
    && (forall name :: name in Strip(h) ==> |h[name]| == 1 && 0 !in h[name][0])
    && Within(Strip(h), room)
  }

  /** The room for a header set of which a RESPONSE can be made. */
  function HeaderRoom(slack: nat): int {
    MAX_LENGTH - 1 - slack - STATUS_SIZE
  }

  /** A call that asks for no frame the wire cannot carry. */
  ghost predicate Modest(op: SS.Op, slack: nat) {
    match op
    case SetHeader(h) => Travels(h, HeaderRoom(slack))
    case CallWriteHeader(_) => true
    case CallWriteResponse(code, subcode) => code % 256 < 4 && subcode % 256 < 64
    case CallWrite(data, _) => |data| <= MAX_LENGTH
  }

  ghost predicate AllModest(ops: seq<SS.Op>, slack: nat) {
    forall i :: 0 <= i < |ops| ==> Modest(ops[i], slack)
  }

  predicate Numbered(id: uint32) {
    0 < id && ValidID(id)
  }

  /** Whatever zlib does within its bound, the frame fits its length field. */
  ghost predicate Survives(f: F, slack: nat) {
    match f
    case Data(_, id, data) => Numbered(id) && |data| <= MAX_LENGTH
    case Headers(_, id, h) => Numbered(id) && Travels(h, MAX_LENGTH - slack)
    case Response(flags, priority, id, code, subcode, h) =>
      && Numbered(id) && flags < 32 && priority < 8 && code < 4 && subcode < 64
      && Travels(h, MAX_LENGTH - 1 - slack)
    case Push(flags, priority, id, assoc, h) =>
      Numbered(id) && ValidID(assoc) && flags < 32 && priority < 8 && Travels(h, MAX_LENGTH - 4 - slack)
    case Request(flags, priority, id, h) =>
      Numbered(id) && flags < 32 && priority < 8 && Travels(h, MAX_LENGTH - slack)
    case _ => false
  }

  // --------------------------------------------------------------------- header sets

  lemma TravelsInMore(h: Header, room: int, more: int)
    requires Travels(h, room) && room <= more
    ensures Travels(h, more)
  {
  }

  lemma TravelsNamed(h: Header, room: int)
    requires Travels(h, room)
    ensures forall name :: name in h ==> Returned(name) == name
  {
    hide Returned, Strip, Within;
  }

  lemma {:induction false} CarryIsSized(h: Header, order: seq<Bytes>)
    requires forall name :: name in order ==> name in h && |h[name]| == 1
    ensures HP.Carry(h, order) <= Sized(h, order)
  {
    if order != [] {
      CarryIsSized(h, order[1..]);
    }
  }

  lemma {:induction false} SizedElsewhere(h: Header, g: Header, order: seq<Bytes>)
    requires forall name :: name in order ==> name in h && name in g && h[name] == g[name]
    ensures Sized(h, order) == Sized(g, order)
  {
    if order != [] {
      SizedElsewhere(h, g, order[1..]);
    }
  }

  /** Setting one name makes the block longer by no more than its entry. */
  lemma WithinSet(h: Header, name: Bytes, values: seq<Bytes>, room: int)
    requires Within(h, room)
    ensures Within(h[name := values], room + Counted(name, values))
  {
    hide Sized, Counted, Distinct;
    var g := h[name := values];
    forall order | Order(order, g) ensures 4 + Sized(g, order) <= room + Counted(name, values) {
      assert name in order;
      var i :| 0 <= i < |order| && order[i] == name;
      var rest := Without(order, i);
      SizedRemove(g, order, i);
      DistinctRemove(order, i);
      SizedElsewhere(g, h, rest);
      if name in h {
        var full := [name] + rest;
        OrderCons(h, name, rest);
        assert full[1..] == rest;
        SizedCons(h, name, rest);
        assert 4 + Sized(h, full) <= room;
      } else {
        assert Order(rest, h);
        assert 4 + Sized(h, rest) <= room;
      }
    }
  }

  lemma OrderCons(h: Header, name: Bytes, rest: seq<Bytes>)
    requires name in h && Distinct(rest) && forall other :: other in rest <==> other in h && other != name
    ensures Order([name] + rest, h)
  {
  }

  lemma SizedCons(h: Header, name: Bytes, rest: seq<Bytes>)
    requires forall other :: other in [name] + rest ==> other in h
    requires name in h
    ensures Sized(h, [name] + rest) >= Sized(h, rest)
  {
    assert ([name] + rest)[1..] == rest;
  }

  lemma NothingTravels(room: int)
    requires 4 <= room
    ensures Travels(map[], room)
  {
    assert Strip(map[]) == map[];
    forall order | Order(order, map[]) ensures 4 + Sized(map[], order) <= room {
      OrderLength(map[], order);
    }
  }

  /** After the headers have been sent none is left. */
  lemma ClearedTravels(h: Header, room: int)
    requires (forall name :: name in h ==> Returned(name) == name) && 4 <= room
    ensures SS.Cleared(h) == map[] && Travels(SS.Cleared(h), room)
  {
    forall name | name in h ensures Canonical(name) == name {
      ReturnedUnchanged(name);
    }
    NothingTravels(room);
  }

  /** Names like ":status" come back as they are. */
  lemma ColonName(name: Bytes)
    requires name != [] && name[0] == 58 && forall i :: 0 <= i < |name| ==> !UpperCase(name[i])
    ensures Returned(name) == name
  {
    assert !TokenByte(name[0]);
    assert Lower(name) == name;
    ReturnedUnchanged(name);
    hide Canonical, Capitalise;
  }

  lemma StatusNames()
    ensures Returned(Ascii(":status")) == Ascii(":status") && Returned(Ascii(":version")) == Ascii(":version")
    ensures |Ascii(":status")| == 7 && |Ascii(":version")| == 8
  {
    hide Returned;
    assert Ascii(":status") == [58, 115, 116, 97, 116, 117, 115];
    assert Ascii(":version") == [58, 118, 101, 114, 115, 105, 111, 110];
    ColonName([58, 115, 116, 97, 116, 117, 115]);
    ColonName([58, 118, 101, 114, 115, 105, 111, 110]);
  }

  lemma StripKeeps(h: Header, name: Bytes, values: seq<Bytes>)
    requires name != [] && name[0] == 58
    ensures Strip(h[name := values]) == Strip(h)[name := values]
  {
    assert Ascii("Connection")[0] == 67 && Ascii("Keep-Alive")[0] == 75;
    assert Ascii("Proxy-Connection")[0] == 80 && Ascii("Transfer-Encoding")[0] == 84;
  }

  lemma SetTravels(h: Header, name: Bytes, value: Bytes, room: int)
    requires Travels(h, room) && name != [] && name[0] == 58 && Returned(name) == name && 0 !in value
    ensures Travels(h[name := [value]], room + |name| + 8 + |value|)
  {
    hide Strip, Within, Returned;
    StripKeeps(h, name, [value]);
    WithinSet(Strip(h), name, [value], room);
    assert Counted(name, [value]) == |name| + 8 + |value| by {
      assert [value][1..] == [] && Length([]) == 0;
    }
    StripIsPart(h);
  }

  lemma StripIsPart(h: Header)
    ensures forall name :: name in Strip(h) ==> name in h && Strip(h)[name] == h[name]
  {
  }

  lemma WithStatusTravels(h: Header, status: Bytes, room: int)
    requires Travels(h, room) && |status| == 3 && 0 !in status
    ensures Travels(SS.WithStatus(h, status), room + STATUS_SIZE)
  {
    hide Travels, Returned;
    StatusNames();
    assert Ascii(":status")[0] == 58 && Ascii(":version")[0] == 58;
    SetTravels(h, Ascii(":status"), status, room);
    assert |Ascii("HTTP/1.1")| == 8 && 0 !in Ascii("HTTP/1.1");
    SetTravels(h[Ascii(":status") := [status]], Ascii(":version"), Ascii("HTTP/1.1"), room + 18);
  }

  // ------------------------------------------------------------------------- frames

  /** Such a frame is transportable, after any history and in any order of its keys. */
  lemma SurvivesTransports(z: P.Zlib, slack: nat, history: seq<Bytes>, o: P.Outgoing)
    requires Expands(z, slack) && Survives(o.frame, slack) && P.Ordered(o)
    ensures P.Transportable(z, history, o)
  {
    hide Travels, Strip, P.PlainBlock, Order, HP.Returns, HP.Carry;
    if P.HasHeader(o.frame) {
      BlockIsShort(z, slack, history, o);
    }
  }

  function RoomFor(f: F): nat {
    if f.Response? then MAX_LENGTH - 1 else if f.Push? then MAX_LENGTH - 4 else MAX_LENGTH
  }

  lemma BlockIsShort(z: P.Zlib, slack: nat, history: seq<Bytes>, o: P.Outgoing)
    requires Expands(z, slack) && P.HasHeader(o.frame) && P.Ordered(o)
    requires Travels(o.frame.header, RoomFor(o.frame) - slack)
    ensures var h := Strip(o.frame.header);
      && HP.Returns(h) && HP.Carry(h, o.order) <= HP.HEADER_BOUND
      && (forall name :: name in h ==> |h[name]| == 1)
      && |z.deflate(history, P.PlainBlock(o))| <= RoomFor(o.frame)
  {
    hide Strip, Block, Returned;
    var h := Strip(o.frame.header);
    StripIsPart(o.frame.header);
    CarryIsSized(h, o.order);
    FillOverruns(h, o.order, o.order);
  }

  lemma {:induction false} AllSurvive(z: P.Zlib, slack: nat, history: seq<Bytes>, os: seq<P.Outgoing>)
    requires Expands(z, slack)
    requires forall i :: 0 <= i < |os| ==> P.Ordered(os[i]) && Survives(os[i].frame, slack)
    ensures P.AllTransportable(z, history, os)
    decreases os
  {
    hide Expands, Survives, P.Transportable, P.Ordered, P.NextHistory;
    if os != [] {
      SurvivesTransports(z, slack, history, os[0]);
      AllSurvive(z, slack, P.NextHistory(history, os[0]), os[1..]);
    }
  }

  // ----------------------------------------------------------------------- programs

  ghost predicate FramesSurvive(fs: seq<F>, slack: nat) {
    forall i :: 0 <= i < |fs| ==> Survives(fs[i], slack)
  }

  ghost predicate Inv(s: SS.Server, slack: nat) {
    Numbered(s.id) && Travels(s.header, HeaderRoom(slack)) && FramesSurvive(s.out, slack)
  }

  lemma SurviveMore(fs: seq<F>, more: seq<F>, slack: nat)
    requires FramesSurvive(fs, slack) && FramesSurvive(more, slack)
    ensures FramesSurvive(fs + more, slack)
  {
    hide Survives;
  }

  lemma FlushKeeps(s: SS.Server, slack: nat)
    requires Inv(s, slack) && 4 <= HeaderRoom(slack)
    ensures Inv(SS.Flush(s), slack) && SS.Flush(s).id == s.id
  {
    hide FramesSurvive, SS.Cleared, Travels;
    if s.header != map[] {
      TravelsNamed(s.header, HeaderRoom(slack));
      ClearedTravels(s.header, HeaderRoom(slack));
      TravelsInMore(s.header, HeaderRoom(slack), MAX_LENGTH - slack);
      OneSurvives(Headers(0, s.id, s.header), slack);
      SurviveMore(s.out, [Headers(0, s.id, s.header)], slack);
    }
  }

  lemma OneSurvives(f: F, slack: nat)
    requires Survives(f, slack)
    ensures FramesSurvive([f], slack)
  {
    hide Survives;
  }

  lemma ResponseSurvives(s: SS.Server, flags: byte, code: byte, subcode: byte, status: Bytes, slack: nat)
    requires Inv(s, slack) && flags < 32 && code < 4 && subcode < 64 && |status| == 3 && 0 !in status
    ensures FramesSurvive([Response(flags, 0, s.id, code, subcode, SS.WithStatus(s.header, status))], slack)
  {
    hide Travels, SS.WithStatus, FramesSurvive;
    WithStatusTravels(s.header, status, HeaderRoom(slack));
    OneSurvives(Response(flags, 0, s.id, code, subcode, SS.WithStatus(s.header, status)), slack);
  }

  lemma ItoaPlain(n: int)
    requires 100 <= n < 1000
    ensures |SS.Itoa(n)| == 3 && 0 !in SS.Itoa(n)
  {
  }

  lemma WriteResponseKeeps(s: SS.Server, code: int, subcode: int, slack: nat)
    requires Inv(s, slack) && 4 <= HeaderRoom(slack) && code % 256 < 4 && subcode % 256 < 64
    ensures Inv(SS.WriteResponse(s, code, subcode), slack) && SS.WriteResponse(s, code, subcode).id == s.id
  {
    hide Travels, SS.WithStatus, FramesSurvive, SS.Cleared, SS.WpToHttp, SS.Itoa;
    if !s.wroteResponse {
      var status := SS.Itoa(SS.WpToHttp(code, subcode));
      var flags := if SS.Bodiless(code, subcode) then FLAG_FINISH else 0;
      var h := SS.WithStatus(s.header, status);
      ItoaPlain(SS.WpToHttp(code, subcode));
      ResponseSurvives(s, flags, code % 256, subcode % 256, status, slack);
      SurviveMore(s.out, [Response(flags, 0, s.id, code % 256, subcode % 256, h)], slack);
      WithStatusTravels(s.header, status, HeaderRoom(slack));
      TravelsNamed(h, HeaderRoom(slack) + STATUS_SIZE);
      ClearedTravels(h, HeaderRoom(slack));
    }
  }

  lemma KnownCodes(code: int)
    ensures 0 <= SS.HttpToWp(code).0 < 4 && 0 <= SS.HttpToWp(code).1 < 64
  {
  }

  lemma WriteHeaderKeeps(s: SS.Server, code: int, slack: nat)
    requires Inv(s, slack) && 4 <= HeaderRoom(slack)
    ensures Inv(SS.WriteHeader(s, code), slack) && SS.WriteHeader(s, code).id == s.id
  {
    hide Travels, FramesSurvive, SS.WriteResponse, SS.HttpToWp;
    KnownCodes(code);
    WriteResponseKeeps(s.(wroteHeader := true), SS.HttpToWp(code).0, SS.HttpToWp(code).1, slack);
  }

  lemma ChunkSurvives(id: uint32, data: Bytes, slack: nat)
    requires Numbered(id) && |data| <= MAX_LENGTH
    ensures FramesSurvive(Chunking.DataFrames(id, Chunking.Chunks(data, MAX_DATA_SIZE)), slack)
  {
    assert Chunking.Chunks(data, MAX_DATA_SIZE) == if data == [] then [] else [data];
  }

  lemma WriteKeeps(s: SS.Server, data: Bytes, slack: nat)
    requires Inv(s, slack) && 4 <= HeaderRoom(slack) && |data| <= MAX_LENGTH
    ensures Inv(SS.Write(s, data), slack) && SS.Write(s, data).id == s.id
  {
    hide Travels, FramesSurvive, SS.WriteHeader, SS.Flush, Chunking.Chunks, Chunking.DataFrames;
    if SS.Writable(s) {
      var r := SS.WriteHeader(s, 200);
      WriteHeaderKeeps(s, 200, slack);
      FlushKeeps(r, slack);
      ChunkSurvives(s.id, data, slack);
      SurviveMore(SS.Flush(r).out, Chunking.DataFrames(s.id, Chunking.Chunks(data, MAX_DATA_SIZE)), slack);
    }
  }

  lemma ExecKeeps(s: SS.Server, op: SS.Op, slack: nat)
    requires Inv(s, slack) && 4 <= HeaderRoom(slack) && Modest(op, slack)
    ensures Inv(SS.Exec(s, op), slack) && SS.Exec(s, op).id == s.id
  {
    hide Travels, FramesSurvive, SS.WriteResponse, SS.WriteHeader, SS.Write;
    match op
    case SetHeader(_) =>
    case CallWriteHeader(code) => WriteHeaderKeeps(s, code, slack);
    case CallWriteResponse(code, subcode) => WriteResponseKeeps(s, code, subcode, slack);
    case CallWrite(data, stopped) => WriteKeeps(s, data, slack);
  }

  lemma {:induction false} ProgramKeeps(s: SS.Server, ops: seq<SS.Op>, slack: nat)
    requires Inv(s, slack) && 4 <= HeaderRoom(slack) && AllModest(ops, slack)
    ensures Inv(SS.ExecAll(s, ops), slack) && SS.ExecAll(s, ops).id == s.id
    decreases ops
  {
    hide Inv, SS.Exec, Modest;
    if ops != [] {
      ExecKeeps(s, ops[0], slack);
      ProgramKeeps(SS.Exec(s, ops[0]), ops[1..], slack);
    }
  }

  lemma EpilogueSurvives(s: SS.Server, slack: nat)
    requires Inv(s, slack)
    ensures FramesSurvive(SS.Epilogue(s).out, slack)
  {
    hide Travels, FramesSurvive, SS.WithStatus;
    assert |Ascii("200")| == 3 && 0 !in Ascii("200");
    ResponseSurvives(s, FLAG_FINISH, 0, 0, Ascii("200"), slack);
    OneSurvives(Data(FLAG_FINISH, s.id, []), slack);
    SurviveMore(s.out, [Response(FLAG_FINISH, 0, s.id, 0, 0, SS.WithStatus(s.header, Ascii("200")))], slack);
    SurviveMore(s.out, [Data(FLAG_FINISH, s.id, [])], slack);
    assert s.out + [] == s.out;
  }

  /** Every frame that a program of such calls emits is one the wire carries. */
  lemma ModestProgramsSurvive(id: uint32, flags: byte, ops: seq<SS.Op>, slack: nat)
    requires Numbered(id) && AllModest(ops, slack) && 4 <= HeaderRoom(slack)
    ensures FramesSurvive(SS.Emitted(id, flags, ops), slack)
  {
    hide AllModest, SS.Epilogue, SS.ExecAll, Travels;
    NothingTravels(HeaderRoom(slack));
    ProgramKeeps(SS.Accept(id, flags), ops, slack);
    EpilogueSurvives(SS.ExecAll(SS.Accept(id, flags), ops), slack);
  }

  // --------------------------------------------------------------------- long writes

  /** A Write of more than 0xffff bytes and at most MAX_DATA_SIZE goes out as one DATA
      frame, whose length field keeps the last two bytes of its length: the reader takes
      that much for the frame, and the rest of the data for frames that follow. */
  lemma LongWriteIsCut(s: SS.Server, data: Bytes, rest: Bytes)
    requires SS.Writable(s) && 0xffff < |data| <= MAX_DATA_SIZE
    ensures var sent := SS.Write(s, data).out;
      && sent != [] && sent[|sent| - 1] == Data(0, s.id, data)
      && var n := |data| % 0x1_0000;
         Decode(Encode(Data(0, s.id, data)) + rest) == Ok(Read(Data(0, s.id, data[..n]), 8 + n))
         && n < |data|
  {
    hide SS.Flush, SS.WriteHeader;
    assert Chunking.Chunks(data, MAX_DATA_SIZE) == [data];
    var t := SS.Flush(SS.WriteHeader(s, 200));
    KeepsID(s);
    assert Chunking.DataFrames(s.id, [data]) == [Data(0, s.id, data)];
    assert SS.Write(s, data).out == t.out + [Data(0, s.id, data)];
    DecodeLayout(Data(0, s.id, data), rest);
    assert (data + rest)[..|data| % 0x1_0000] == data[..|data| % 0x1_0000];
    hide Decode, Encode;
  }

  lemma KeepsID(s: SS.Server)
    ensures SS.Flush(SS.WriteHeader(s, 200)).id == s.id
  {
    hide SS.WithStatus, SS.Cleared;
  }
}
