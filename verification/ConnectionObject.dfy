// conn of conn.go as an object: its fields, the handlers and the API calls that update
// them in place, and the main loop that reads frames off the connection.

module ConnectionObject {
  import opened Protocol
  import S = StreamStates
  import C = Connection
  import Wire
  import WireIO
  import P = Pipeline
  import Demux

  type F = C.F

  class Conn {
    const server: bool
    const hasReceiver: bool
    var streams: map<uint32, C.Stream>
    var pushRequests: set<uint32>
    var lastRequestStreamID: uint32
    var lastPushStreamID: uint32
    var nextPingID: uint32
    var pings: map<uint32, nat>
    var tickets: nat
    var pongs: seq<nat>
    var numBenignErrors: nat
    var closed: bool
    var crashed: bool
    var output: seq<C.Sent>
    var calls: seq<C.Call>

    function Abs(): C.Conn
      reads this
    {
      C.Conn(server, hasReceiver, streams, pushRequests, lastRequestStreamID, lastPushStreamID, nextPingID, pings,
             tickets, pongs, numBenignErrors, closed, crashed, output, calls)
    }

    constructor (server: bool, hasReceiver: bool, seed: uint32)
      ensures Abs() == C.Fresh(server, hasReceiver, seed)
    {
      this.server, this.hasReceiver := server, hasReceiver;
      streams, pushRequests, lastRequestStreamID, lastPushStreamID := map[], {}, 0, 0;
      nextPingID, pings, tickets, pongs := seed, map[], 0, [];
      numBenignErrors, closed, crashed, output, calls := 0, false, false, [], [];
    }

    // ---------------------------------------------------------------- API calls

    method Ping() returns (ticket: Option<nat>)
      modifies this
      ensures (Abs(), ticket) == C.StartPing(old(Abs()))
    {
      if closed {
        return None;
      }
      var pid := nextPingID;
      if pid as int + 2 >= 0x1_0000_0000 {
        if pid % 2 == 0 {
          nextPingID := 2;
        } else {
          nextPingID := 1;
        }
      } else {
        nextPingID := nextPingID + 2;
      }
      output := output + [C.Sent(0, Frame.Ping(0, pid))];
      ticket := Some(tickets);
      pings := pings[pid := tickets];
      tickets := tickets + 1;
    }

    method Push(assoc: uint32, urlOk: bool, header: Header) returns (id: Option<uint32>)
      modifies this
      ensures (Abs(), id) == C.StartPush(old(Abs()), assoc, urlOk, header)
    {
      if closed || !server || !urlOk {
        return None;
      }
      lastPushStreamID := (lastPushStreamID + 2) % 0x1_0000_0000;
      if lastPushStreamID > MAX_STREAM_ID {
        return None;
      }
      var newID := lastPushStreamID;
      output := output + [C.Sent(0, Frame.Push(0, 7, newID, assoc, header))];
      streams := streams[newID := C.PushStream(Some(S.OPEN))];
      id := Some(newID);
    }

    method Request(a: C.Asked) returns (id: Option<uint32>)
      modifies this
      ensures (Abs(), id) == C.StartRequest(old(Abs()), a)
    {
      hide C.RequestFrames, C.BodyFrames;
      if closed || server || a.priority > 7 || !a.urlOk {
        return None;
      }
      var chunks := if a.body.Some? then a.body.value else [];
      var flags: byte := if chunks == [] then FLAG_FINISH else 0;
      if lastRequestStreamID == 0 {
        lastRequestStreamID := 1;
      } else {
        lastRequestStreamID := (lastRequestStreamID + 2) % 0x1_0000_0000;
      }
      if lastRequestStreamID > MAX_STREAM_ID {
        return None;
      }
      var newID := lastRequestStreamID;
      ghost var before := output;
      output := output + [C.Sent(0, Frame.Request(flags, a.priority, newID, a.header))];
      SendBody(newID, chunks);
      WholeRequest(before, a, newID, flags, chunks);
      var state := new S.StreamState();
      state.CloseHere();
      streams := streams[newID := C.ClientStream(Some(state.s))];
      id := Some(newID);
    }

    /** The frames of a request body, the last with FINISH. */
    method SendBody(id: uint32, chunks: seq<Bytes>)
      modifies this`output
      ensures output == old(output) + C.BodyFrames(id, chunks)
    {
      assert chunks[0..] == chunks;
      for k := 0 to |chunks|
        invariant output + C.BodyFrames(id, chunks[k..]) == old(output) + C.BodyFrames(id, chunks)
      {
        assert chunks[k..][1..] == chunks[k + 1..] && chunks[k..][0] == chunks[k];
        var frame := C.Sent(0, Frame.Data(if k + 1 == |chunks| then FLAG_FINISH else 0, id, chunks[k]));
        ghost var rest := C.BodyFrames(id, chunks[k + 1..]);
        assert output + ([frame] + rest) == output + [frame] + rest;
        output := output + [frame];
      }
      assert output + C.BodyFrames(id, chunks[|chunks|..]) == output;
    }

    // ------------------------------------------------------------------ closing

    method Close()
      modifies this
      ensures Abs() == C.Close(old(Abs()))
    {
      if !closed {
        closed := true;
        streams := map[];
      }
    }

    method ProtocolError(id: uint32)
      modifies this
      ensures Abs() == C.ProtocolError(old(Abs()), id)
    {
      output := output + [C.Sent(0, Frame.Error(id, PROTOCOL_ERROR))];
      Close();
    }

    method CloseStream(id: uint32)
      modifies this`streams
      ensures Abs() == C.CloseStream(old(Abs()), id)
    {
      if id in streams {
        streams := streams[id := streams[id].(state := None)];
      }
    }

    // ----------------------------------------------------------------- handlers

    /** The check that the stream is open, and its ReceiveFrame. */
    method Deliver(id: uint32, frame: F) returns (v: C.Verdict)
      modifies this
      ensures (Abs(), v) == C.Deliver(old(Abs()), id, frame)
    {
      if id !in streams {
        numBenignErrors := numBenignErrors + 1;
        return C.NotOpen;
      }
      var stream := streams[id];
      if stream.state.None? {
        closed, crashed, streams := true, true, map[];
        return C.Crash;
      }
      if S.ClosedThere(stream.state.value) {
        numBenignErrors := numBenignErrors + 1;
        return C.NotOpen;
      }
      v := if stream.PushStream? then C.Discarded else C.Delivered;
      match stream {
        case ClientStream(state) =>
          calls := calls + C.Callbacks(frame);
          var next := state.value;
          if C.Ends(frame) {
            next := S.CloseThere(next);
            calls := calls + [C.Completed(id)];
          } else {
            assert calls + [] == calls;
          }
          streams := streams[id := C.ClientStream(Some(next))];
        case ServerStream(state, inbox) =>
          streams := streams[id := C.ServerStream(state, inbox + [frame])];
        case PushStream(_) =>
      }
    }

    method HandleClientData(frame: F) returns (v: C.Verdict)
      requires frame.Data?
      modifies this
      ensures (Abs(), v) == C.HandleClientData(old(Abs()), frame)
    {
      hide C.Deliver;
      if !server {
        numBenignErrors := numBenignErrors + 1;
        return C.WrongRole;
      }
      if frame.id % 2 != 0 {
        numBenignErrors := numBenignErrors + 1;
        return C.WrongParity;
      }
      if frame.id > MAX_STREAM_ID {
        ProtocolError(frame.id);
        return C.OutOfRange;
      }
      v := Deliver(frame.id, frame);
    }

    method HandleServerData(frame: F) returns (v: C.Verdict)
      requires frame.Data?
      modifies this
      ensures (Abs(), v) == C.HandleServerData(old(Abs()), frame)
    {
      hide C.Deliver;
      if frame.id % 2 == 0 {
        if frame.id in pushRequests && hasReceiver {
          calls := calls + [C.PushData(frame.id, frame.data, Finish(frame.flags))];
          return C.Routed;
        }
        return C.Ignored;
      }
      v := Deliver(frame.id, frame);
    }

    method HandleHeaders(frame: F) returns (v: C.Verdict)
      requires frame.Headers?
      modifies this
      ensures (Abs(), v) == C.HandleHeaders(old(Abs()), frame)
    {
      hide C.Deliver;
      if frame.id % 2 == 0 && !server {
        if frame.id in pushRequests && hasReceiver {
          calls := calls + [C.PushHeader(frame.id, frame.header)];
          return C.Routed;
        }
        return C.Ignored;
      }
      v := Deliver(frame.id, frame);
    }

    method HandleResponse(frame: F) returns (v: C.Verdict)
      requires frame.Response?
      modifies this
      ensures (Abs(), v) == C.HandleResponse(old(Abs()), frame)
    {
      hide C.Deliver;
      if server {
        numBenignErrors := numBenignErrors + 1;
        return C.WrongRole;
      }
      if frame.id % 2 == 0 {
        numBenignErrors := numBenignErrors + 1;
        return C.WrongParity;
      }
      if frame.id > MAX_STREAM_ID {
        ProtocolError(frame.id);
        return C.OutOfRange;
      }
      v := Deliver(frame.id, frame);
    }

    method HandleRequest(frame: F, parses: bool) returns (v: C.Verdict)
      requires frame.Request?
      modifies this
      ensures (Abs(), v) == C.HandleRequest(old(Abs()), frame, parses)
    {
      if closed {
        return C.Ignored;
      }
      var sid := frame.id;
      if !server {
        return C.WrongRole;
      }
      if sid % 2 == 0 {
        numBenignErrors := numBenignErrors + 1;
        return C.WrongParity;
      }
      if sid <= lastRequestStreamID && lastRequestStreamID != 0 {
        numBenignErrors := numBenignErrors + 1;
        return C.OutOfOrder;
      }
      if sid > MAX_STREAM_ID {
        ProtocolError(sid);
        return C.OutOfRange;
      }
      if frame.priority > 7 {
        ProtocolError(sid);
        return C.BadPriority;
      }
      var state := new S.StreamState();
      if Finish(frame.flags) {
        state.CloseThere();
      }
      if !parses {
        return C.Unparsable;
      }
      streams := streams[sid := C.ServerStream(Some(state.s), [])];
      lastRequestStreamID := sid;
      v := C.Accepted;
    }

    method HandlePush(frame: F, parses: bool, wants: bool) returns (v: C.Verdict)
      requires frame.Push?
      modifies this
      ensures (Abs(), v) == C.HandlePush(old(Abs()), frame, parses, wants)
    {
      if closed {
        return C.Ignored;
      }
      var sid := frame.id;
      if server {
        return C.WrongRole;
      }
      if sid % 2 != 0 {
        numBenignErrors := numBenignErrors + 1;
        return C.WrongParity;
      }
      if sid <= lastPushStreamID {
        numBenignErrors := numBenignErrors + 1;
        return C.OutOfOrder;
      }
      if sid > MAX_STREAM_ID {
        ProtocolError(sid);
        return C.OutOfRange;
      }
      if frame.priority > 7 {
        ProtocolError(sid);
        return C.BadPriority;
      }
      if !parses {
        return C.Unparsable;
      }
      if hasReceiver {
        calls := calls + [C.PushRequest(sid)];
        if !wants {
          output := output + [C.Sent(0, Frame.Error(sid, REFUSED_STREAM))];
          return C.Refused;
        }
      }
      if hasReceiver {
        calls := calls + [C.PushHeader(sid, frame.header)];
        pushRequests := pushRequests + {sid};
        lastPushStreamID := sid;
        return C.Accepted;
      }
      v := C.Ignored;
    }

    /** The switch of handleError, and the fatal codes before it. */
    method HandleError(frame: F) returns (v: C.Verdict)
      requires frame.Error?
      modifies this
      ensures (Abs(), v) == C.HandleError(old(Abs()), frame)
    {
      hide C.CloseStream;
      if frame.status == PROTOCOL_ERROR || frame.status == INTERNAL_ERROR {
        Close();
        return C.Fatal;
      }
      if frame.status == INVALID_STREAM || frame.status == STREAM_CLOSED {
        CloseStream(frame.id);
        numBenignErrors := numBenignErrors + 1;
        return C.StreamClosed;
      }
      if frame.status == REFUSED_STREAM || frame.status == FINISH_STREAM {
        CloseStream(frame.id);
        return C.StreamClosed;
      }
      ProtocolError(frame.id);
      v := C.UnknownStatus;
    }

    method HandlePing(frame: F) returns (v: C.Verdict)
      requires frame.Ping?
      modifies this
      ensures (Abs(), v) == C.HandlePing(old(Abs()), frame)
    {
      if frame.pid % 2 == nextPingID % 2 {
        if frame.pid !in pings {
          numBenignErrors := numBenignErrors + 1;
          return C.PingUnknown;
        }
        pongs := pongs + [pings[frame.pid]];
        pings := pings - {frame.pid};
        return C.PingDone;
      }
      if !Finish(frame.flags) {
        output := output + [C.Sent(0, Frame.Ping(FLAG_FINISH, frame.pid))];
        return C.PingAnswered;
      }
      v := C.Ignored;
    }

    /** The frame switch of readFrames. */
    method Dispatch(frame: F, choice: C.Choice) returns (v: C.Verdict)
      modifies this
      ensures (Abs(), v) == C.Handle(old(Abs()), frame, choice)
    {
      hide C.HandleRequest, C.HandleResponse, C.HandleClientData, C.HandleServerData, C.HandleError, C.HandleHeaders,
        C.HandlePush, C.HandlePing;
      match frame {
        case Request(_, _, _, _) => v := HandleRequest(frame, choice.parses);
        case Response(_, _, _, _, _, _) => v := HandleResponse(frame);
        case Data(_, _, _) =>
          if server {
            v := HandleClientData(frame);
          } else {
            v := HandleServerData(frame);
          }
        case Error(_, _) => v := HandleError(frame);
        case Headers(_, _, _) => v := HandleHeaders(frame);
        case Push(_, _, _, _, _) => v := HandlePush(frame, choice.parses, choice.wants);
        case Ping(_, _) => v := HandlePing(frame);
      }
    }
  
    /** readFrames: until the connection closes, which the end of the bytes, an unreadable
        frame or too many errors also bring about. What comes with the k-th frame, from
        parsing it and from the push receiver, is given. */
    method ReadFrames(reader: WireIO.Reader, d: P.Decompressor, choices: nat -> C.Choice)
      modifies this, reader, d
      ensures Abs() == ReadAll(old(Abs()), d.zlib, old(d.state), old(reader.Contents()), choices, 0)
    {
      hide C.Handle, Wire.Decode, P.Decompressed;
      ghost var whole := ReadAll(Abs(), d.zlib, d.state, reader.Contents(), choices, 0);
      var k: nat := 0;
      while !closed
        invariant ReadAll(Abs(), d.zlib, d.state, reader.Contents(), choices, k) == whole
        decreases |reader.Contents()|, closed
      {
        if numBenignErrors > MAX_BENIGN_ERRORS {
          ProtocolError(0);
          return;
        }
        var f := WireIO.ReadFrame(reader);
        if f.Err? {
          Close();
          return;
        }
        var r := d.DecompressFrame(f.value);
        if r.Unreadable? {
          if r.panics {
            closed, crashed, streams := true, true, map[];
          } else {
            ProtocolError(0);
          }
          return;
        }
        var v := Dispatch(r.frame, choices(k));
        k := k + 1;
      }
    }
  }

  lemma WholeRequest(before: seq<C.Sent>, a: C.Asked, id: uint32, flags: byte, chunks: seq<Bytes>)
    requires chunks == if a.body.Some? then a.body.value else []
    requires flags == if chunks == [] then FLAG_FINISH else 0
    ensures before + [C.Sent(0, Frame.Request(flags, a.priority, id, a.header))] + C.BodyFrames(id, chunks)
         == before + C.RequestFrames(id, a)
  {
    var first := [C.Sent(0, Frame.Request(flags, a.priority, id, a.header))];
    assert before + first + C.BodyFrames(id, chunks) == before + (first + C.BodyFrames(id, chunks));
    assert first + [] == first;
  }

  /** The main loop over a byte stream. */
  function ReadAll(c: C.Conn, z: P.Zlib, st: P.Inflater, bs: Bytes, choices: nat -> C.Choice, k: nat): C.Conn
    decreases |bs|
  {
    if c.closed then c
    else if c.benign > MAX_BENIGN_ERRORS then C.ProtocolError(c, 0)
    else
      match Wire.Decode(bs)
      case Err(_) => C.Close(c)
      case Ok(Read(f, n)) =>
        match P.Decompressed(z, st, f)
        case Unreadable(panics) => if panics then C.CrashNow(c) else C.ProtocolError(c, 0)
        case Arrived(frame, next) => ReadAll(C.Handle(c, frame, choices(k)).0, z, next, bs[n..], choices, k + 1)
  }

  function Inputs(fs: seq<F>, choices: nat -> C.Choice, k: nat): (inputs: seq<C.Input>)
    decreases fs
  {
    if fs == [] then [] else [C.Inbound(fs[0], choices(k))] + Inputs(fs[1..], choices, k + 1)
  }

  /** It is a run over the frames that the pipeline makes of the bytes: the same calls,
      completed pings and accepted streams, and then the connection is closed. */
  lemma {:induction false} ReadIsRun(c: C.Conn, z: P.Zlib, st: P.Inflater, bs: Bytes, choices: nat -> C.Choice, k: nat)
    ensures var read := ReadAll(c, z, st, bs, choices, k);
      var run := C.Run(c, Inputs(P.Inbound(z, st, bs).frames, choices, k));
      && read.closed && read.calls == run.calls && read.pongs == run.pongs && read.pushRequests == run.pushRequests
      && read.lastRequest == run.lastRequest && read.lastPush == run.lastPush
    decreases |bs|
  {
    hide Wire.Decode, P.Decompressed, C.Handle;
    var fs := P.Inbound(z, st, bs).frames;
    var inputs := Inputs(fs, choices, k);
    C.ProtocolErrorCloses(c, 0);
    if c.closed {
      Demux.ClosedStays(c, inputs);
    } else if c.benign > MAX_BENIGN_ERRORS {
      if fs != [] {
        Demux.ClosedStays(C.ProtocolError(c, 0), inputs[1..]);
      }
    } else if Wire.Decode(bs).Ok? {
      var Read(f, n) := Wire.Decode(bs).value;
      var r := P.Decompressed(z, st, f);
      if r.Arrived? {
        var d := C.Handle(c, r.frame, choices(k)).0;
        ReadIsRun(d, z, r.next, bs[n..], choices, k + 1);
        assert fs == [r.frame] + P.Inbound(z, r.next, bs[n..]).frames;
        assert fs[1..] == P.Inbound(z, r.next, bs[n..]).frames;
        assert inputs[0] == C.Inbound(r.frame, choices(k));
        assert inputs[1..] == Inputs(fs[1..], choices, k + 1);
      }
    }
  }

  /** Why a byte stream yields no more frames: it ends there, or goes on with no frame; or
      a frame's block cannot be read, which may be a panic. */
  datatype Stop = NoFrame | BadBlock(panics: bool)

  function StopOf(z: P.Zlib, st: P.Inflater, bs: Bytes): Stop
    decreases |bs|
  {
    match Wire.Decode(bs)
    case Err(_) => NoFrame
    case Ok(Read(f, n)) =>
      match P.Decompressed(z, st, f)
      case Unreadable(panics) => BadBlock(panics)
      case Arrived(_, next) => StopOf(z, next, bs[n..])
  }

  /** What the loop does at its end, from the state in which the run over the frames leaves
      it: nothing if it is closed; an ERROR if there were more than ten benign errors, or for
      a bad block; a crash if reading that block panics; and otherwise it just closes. */
  ghost predicate EndsFor(run: C.Conn, stop: Stop, read: C.Conn) {
    var failed := C.Sent(0, Frame.Error(0, PROTOCOL_ERROR));
    if run.closed then read == run
    else if run.benign > 10 then read == run.(closed := true, streams := map[], out := run.out + [failed])
    else if stop == BadBlock(true) then read == run.(closed := true, crashed := true, streams := map[])
    else if stop == BadBlock(false) then read == run.(closed := true, streams := map[], out := run.out + [failed])
    else read == run.(closed := true, streams := map[])
  }

  lemma {:induction false} ReadEndsExactly(c: C.Conn, z: P.Zlib, st: P.Inflater, bs: Bytes, choices: nat -> C.Choice,
                                          k: nat)
    ensures EndsFor(C.Run(c, Inputs(P.Inbound(z, st, bs).frames, choices, k)), StopOf(z, st, bs),
                    ReadAll(c, z, st, bs, choices, k))
    decreases |bs|
  {
    hide Wire.Decode, P.Decompressed, C.Handle;
    var fs := P.Inbound(z, st, bs).frames;
    var inputs := Inputs(fs, choices, k);
    if c.closed {
      Demux.ClosedStays(c, inputs);
    } else if c.benign > MAX_BENIGN_ERRORS {
      if fs != [] {
        Demux.ClosedStays(C.ProtocolError(c, 0), inputs[1..]);
      }
    } else if Wire.Decode(bs).Ok? {
      var Read(f, n) := Wire.Decode(bs).value;
      var r := P.Decompressed(z, st, f);
      if r.Arrived? {
        var d := C.Handle(c, r.frame, choices(k)).0;
        ReadEndsExactly(d, z, r.next, bs[n..], choices, k + 1);
        assert fs == [r.frame] + P.Inbound(z, r.next, bs[n..]).frames;
        assert fs[1..] == P.Inbound(z, r.next, bs[n..]).frames;
        assert inputs[0] == C.Inbound(r.frame, choices(k));
        assert inputs[1..] == Inputs(fs[1..], choices, k + 1);
      }
    }
  }
}
