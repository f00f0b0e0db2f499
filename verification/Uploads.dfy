// Request bodies, as written. The server's handler of DATA frames tests the parity of
// the stream ID the wrong way around: the frames of a request body carry the odd ID of
// their request, and it is the odd ones that are turned away.

module Uploads {
  import opened Protocol
  import S = StreamStates
  import opened Connection
  import opened Freshness
  import Demux

  /** No DATA frame reaches a handler, whatever its ID. */
  lemma NoUploadArrives(c: Conn, f: F, choice: Choice)
    requires Tidy(c) && c.server && f.Data?
    ensures var (d, v) := Receive(c, f, choice);
      v != Delivered && (d.closed || d.streams == c.streams)
  {
    ProtocolErrorCloses(c, 0);
    ProtocolErrorCloses(c, f.id);
    hide ProtocolError, HandleRequest, HandlePush, HandleError, HandlePing, HandleHeaders, HandleResponse;
  }

  /** The frames of a request body, arriving one after another. */
  predicate IsBody(inputs: seq<Input>) {
    forall i :: 0 <= i < |inputs| ==> inputs[i].Inbound? && inputs[i].frame.Data? && Odd(inputs[i].frame.id)
  }

  lemma OneLost(c: Conn, input: Input)
    requires c.server && !c.closed && IsBody([input])
    ensures c.benign > MAX_BENIGN_ERRORS ==> Step(c, input).closed
    ensures c.benign <= MAX_BENIGN_ERRORS ==> Step(c, input) == Benign(c)
  {
    assert [input][0] == input;
    ProtocolErrorCloses(c, 0);
    hide ProtocolError, HandleRequest, HandlePush, HandleError, HandlePing, HandleHeaders, HandleResponse;
  }

  /** A body of n chunks: each is one benign error, and the connection survives it
      exactly when there are not more of them than the bound leaves room for. */
  lemma {:induction false} BodyIsLost(c: Conn, inputs: seq<Input>)
    requires c.server && !c.closed && c.benign <= MAX_BENIGN_ERRORS + 1 && IsBody(inputs)
    ensures var d := Run(c, inputs);
      && (d.closed <==> inputs != [] && c.benign + |inputs| > MAX_BENIGN_ERRORS + 1)
      && (!d.closed ==> d == c.(benign := c.benign + |inputs|))
    decreases inputs
  {
    hide Step;
    if inputs != [] {
      assert IsBody([inputs[0]]);
      OneLost(c, inputs[0]);
      if c.benign > MAX_BENIGN_ERRORS {
        Demux.ClosedStays(Step(c, inputs[0]), inputs[1..]);
      } else {
        BodyIsLost(Step(c, inputs[0]), inputs[1..]);
      }
    }
  }

  /** The source's handler with its message's test: DATA with an odd ID goes on. */
  function AsIntended(c: Conn, f: F): (Conn, Verdict)
    requires f.Data? && c.server
  {
    if !Odd(f.id) then (Benign(c), WrongParity)
    else if !ValidID(f.id) then (ProtocolError(c, f.id), OutOfRange)
    else Deliver(c, f.id, f)
  }

  /** With that test, the frames of a body are received exactly while the client has
      not finished, in order; as written, never. */
  lemma IntendedDelivers(c: Conn, f: F)
    requires Tidy(c) && c.server && f.Data? && Odd(f.id) && ValidID(f.id)
    requires f.id in c.streams && c.streams[f.id].state.Some?
    ensures var (d, v) := AsIntended(c, f);
      var stream := c.streams[f.id];
      && (v == Delivered <==> !S.ClosedThere(stream.state.value))
      && (v == Delivered ==> d.streams == c.streams[f.id := ServerStream(stream.state, stream.inbox + [f])])
    ensures HandleClientData(c, f) == (Benign(c), WrongParity)
  {
    assert c.streams[f.id].ServerStream?;
    hide Tidy;
  }
}
