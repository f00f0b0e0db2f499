// pushStream of push_stream.go: what a server push puts on its output channel.

module PushStreams {
  import opened Protocol
  import opened StreamStates
  import opened Chunking
  import SS = ServerStreams

  type F = SS.F

  /** `live` is false once Close has cleared the fields. */
  datatype Pushing = Pushing(id: uint32, header: Header, state: State, live: bool, crashed: bool, out: seq<F>)

  /** The stream that Conn.Push makes. */
  function Open(id: uint32): Pushing {
    Pushing(id, map[], OPEN, true, false, [])
  }

  function Flush(p: Pushing): Pushing {
    if p.header == map[] then p
    else p.(header := SS.Cleared(p.header), out := p.out + [Headers(0, p.id, p.header)])
  }

  /** `origin` is the state of the stream that the push answers, None once that stream
      has been closed: then its StreamState is nil, and asking it ends the program; `stopped`
      is whether the connection has been stopped. */
  datatype Op =
    | SetHeader(header: Header)
    | CallWriteHeader
    | CallWrite(data: Bytes, origin: Option<State>, stopped: bool)
    | CallClose

  /** Whether Write accepts its input. */
  predicate Writable(p: Pushing, origin: Option<State>) {
    p.live && !p.crashed && !ClosedHere(p.state) && origin.Some? && !ClosedHere(origin.value)
  }

  function Write(p: Pushing, data: Bytes, origin: Option<State>): Pushing {
    if !p.live || p.crashed || ClosedHere(p.state) then p
    else if origin.None? then p.(crashed := true)
    else if ClosedHere(origin.value) then p
    else
      var t := Flush(p);
      t.(out := t.out + DataFrames(t.id, Chunks(data, MAX_DATA_SIZE)))
  }

  function AfterClose(p: Pushing): Pushing {
    Flush(p).(header := map[], state := CLOSED, live := false)
  }

  function Exec(p: Pushing, op: Op): Pushing {
    if p.crashed then p
    else
      match op
      case SetHeader(h) => if p.live then p.(header := h) else p
      case CallWriteHeader => if p.live then Flush(p) else p
      case CallWrite(data, origin, stopped) => if stopped then p else Write(p, data, origin)
      case CallClose => if p.live then AfterClose(p) else p
  }

  /** Whether a call is a Write that is accepted. */
  predicate Accepts(p: Pushing, op: Op) {
    op.CallWrite? && !op.stopped && Writable(p, op.origin)
  }

  function ExecAll(p: Pushing, ops: seq<Op>): Pushing
    decreases ops
  {
    if ops == [] then p else ExecAll(Exec(p, ops[0]), ops[1..])
  }

  function Accepted(p: Pushing, ops: seq<Op>): (bs: Bytes)
    decreases ops
  {
    if ops == [] then []
    else
      (if Accepts(p, ops[0]) then ops[0].data else [])
      + Accepted(Exec(p, ops[0]), ops[1..])
  }

  /** HEADERS and DATA of the stream, and never a FINISH. */
  ghost predicate Endless(id: uint32, fs: seq<F>) {
    forall i {:trigger fs[i]} :: 0 <= i < |fs| ==> OnStream(fs[i], id) && !fs[i].Response? && !Finish(SS.FlagsOf(fs[i]))
  }

  lemma EndlessAppend(id: uint32, fs: seq<F>, more: seq<F>)
    requires Endless(id, fs) && Endless(id, more)
    ensures Endless(id, fs + more)
  {
  }

  lemma FlushKeepsEndless(p: Pushing)
    requires Endless(p.id, p.out)
    ensures Endless(p.id, Flush(p).out) && SS.Body(Flush(p).out) == SS.Body(p.out)
  {
    if p.header != map[] {
      var sent := [Headers(0, p.id, p.header)];
      EndlessAppend(p.id, p.out, sent);
      SS.BodyAppend(p.out, sent);
      SS.NoBody(sent);
      assert SS.Body(p.out) + [] == SS.Body(p.out);
    }
  }

  lemma WriteKeepsEndless(p: Pushing, data: Bytes, origin: Option<State>)
    requires Endless(p.id, p.out)
    ensures Endless(p.id, Write(p, data, origin).out)
    ensures SS.Body(Write(p, data, origin).out) == SS.Body(p.out) + if Writable(p, origin) then data else []
  {
    if Writable(p, origin) {
      var chunks := Chunks(data, MAX_DATA_SIZE);
      FlushKeepsEndless(p);
      assert Endless(p.id, DataFrames(p.id, chunks));
      EndlessAppend(p.id, Flush(p).out, DataFrames(p.id, chunks));
      SS.BodyAppend(Flush(p).out, DataFrames(p.id, chunks));
      SS.BodyOfChunks(p.id, chunks);
      ChunksAreLossless(data, MAX_DATA_SIZE);
      hide Flush, Endless, SS.Body, Chunks;
    } else {
      assert SS.Body(p.out) + [] == SS.Body(p.out);
    }
  }

  /** For every program, and whatever becomes of the origin: nothing that a push sends
      carries FINISH, not even when it is closed, and its body is what the accepted
      writes were given. So the push receiver is never told that data is final. */
  lemma {:induction false} PushNeverFinishes(p: Pushing, ops: seq<Op>)
    requires Endless(p.id, p.out)
    ensures var t := ExecAll(p, ops);
      && t.id == p.id && Endless(p.id, t.out)
      && SS.Body(t.out) == SS.Body(p.out) + Accepted(p, ops)
    decreases ops
  {
    hide Endless, SS.Body;
    if ops == [] {
      assert SS.Body(p.out) + [] == SS.Body(p.out);
    } else {
      var q := Exec(p, ops[0]);
      var first := if Accepts(p, ops[0]) then ops[0].data else [];
      ExecKeepsEndless(p, ops[0]);
      hide Exec;
      PushNeverFinishes(q, ops[1..]);
      assert SS.Body(p.out) + first + Accepted(q, ops[1..]) == SS.Body(p.out) + (first + Accepted(q, ops[1..]));
    }
  }

  lemma ExecKeepsEndless(p: Pushing, op: Op)
    requires Endless(p.id, p.out)
    ensures Exec(p, op).id == p.id && Endless(p.id, Exec(p, op).out)
    ensures SS.Body(Exec(p, op).out)
         == SS.Body(p.out) + if Accepts(p, op) then op.data else []
  {
    FlushKeepsEndless(p);
    hide Endless, SS.Body;
    assert SS.Body(p.out) + [] == SS.Body(p.out);
    if op.CallWrite? {
      WriteKeepsEndless(p, op.data, op.origin);
    }
  }

  // -------------------------------------------------------------------------- object

  class PushStream {
    const streamID: uint32
    var header: Header
    var state: StreamState?
    var output: seq<F>
    var crashed: bool

    function Abs(): Pushing
      reads this, state
    {
      Pushing(streamID, header, if state == null then CLOSED else state.s, state != null, crashed, output)
    }

    constructor (id: uint32)
      ensures fresh(state) && Abs() == Open(id)
    {
      streamID := id;
      header, output, crashed := map[], [], false;
      state := new StreamState();
    }

    /** writeHeader. */
    method FlushHeader()
      modifies this`header, this`output
      ensures Abs() == Flush(old(Abs()))
    {
      if header == map[] {
        return;
      }
      output := output + [Headers(0, streamID, header)];
      header := SS.Cleared(header);
    }

    /** Write; `origin` is the StreamState of the origin stream, `stopped` whether the
        stop channel of the connection is closed. */
    method Write(data: Bytes, origin: StreamState?, stopped: bool) returns (n: nat, ok: bool)
      requires !crashed
      modifies this`header, this`output, this`crashed
      ensures var op := CallWrite(data, if origin == null then None else Some(origin.s), stopped);
        Abs() == Exec(old(Abs()), op) && (ok <==> Accepts(old(Abs()), op))
      ensures n == if ok then |data| else 0
    {
      if state == null || stopped || ClosedHere(state.s) {
        return 0, false;
      }
      if origin == null {
        crashed := true;
        return 0, false;
      }
      if ClosedHere(origin.s) {
        return 0, false;
      }
      FlushHeader();
      var sent;
      sent, n := SendChunks(streamID, data, MAX_DATA_SIZE);
      output := output + sent;
      ok := true;
    }

    method Close()
      requires state != null && !crashed
      modifies this, state
      ensures state == null && Abs() == Exec(old(Abs()), CallClose)
    {
      FlushHeader();
      state.Close();
      state := null;
      header := map[];
    }
  }
}
