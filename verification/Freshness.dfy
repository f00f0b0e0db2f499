// What the stream map and the counters of a connection look like in every reachable
// state: no insertion ever replaces an entry, and accepted IDs only increase.

module Freshness {
  import opened Protocol
  import opened Connection

  ghost predicate Tidy(c: Conn) {
    && (c.lastRequest == 0 || Odd(c.lastRequest)) && !Odd(c.lastPush)
    && (forall id :: id in c.streams && Odd(id) ==> id <= c.lastRequest)
    && (forall id :: id in c.streams && !Odd(id) ==> c.server && 0 < id <= c.lastPush)
    && (forall id :: id in c.pushRequests ==> !c.server && 0 < id <= c.lastPush && !Odd(id))
    && (forall id :: id in c.streams ==>
          (c.streams[id].ClientStream? <==> !c.server) && (c.streams[id].ServerStream? <==> c.server && Odd(id)))
  }

  /** The ID under which a step inserts into `streams` or `pushRequests`. */
  function Inserted(c: Conn, input: Input): Option<uint32> {
    match input
    case Inbound(f, choice) =>
      if (f.Request? || f.Push?) && Receive(c, f, choice).1 == Accepted then Some(f.id) else None
    case CallRequest(a) => StartRequest(c, a).1
    case CallPush(assoc, urlOk, header) => StartPush(c, assoc, urlOk, header).1
    case CallPing => None
    case CallClose(_) => None
  }

  /** The same entries, whatever their states, or none after closing. */
  ghost predicate SameEntries(c: Conn, d: Conn) {
    && d.server == c.server && d.lastRequest == c.lastRequest && d.lastPush == c.lastPush
    && d.pushRequests == c.pushRequests
    && (SameKinds(c.streams, d.streams) || (d.closed && d.streams == map[]))
  }

  ghost predicate SameKinds(s: map<uint32, Stream>, t: map<uint32, Stream>) {
    && t.Keys == s.Keys
    && forall id :: id in s ==>
         (t[id].ClientStream? <==> s[id].ClientStream?) && (t[id].ServerStream? <==> s[id].ServerStream?)
  }

  lemma SameEntriesTidy(c: Conn, d: Conn)
    requires Tidy(c) && SameEntries(c, d)
    ensures Tidy(d)
  {
  }

  lemma UpdateKeepsKinds(s: map<uint32, Stream>, id: uint32, stream: Stream)
    requires id in s
    requires stream.ClientStream? <==> s[id].ClientStream?
    requires stream.ServerStream? <==> s[id].ServerStream?
    ensures SameKinds(s, s[id := stream])
  {
  }

  lemma DeliverKeepsEntries(c: Conn, id: uint32, f: F)
    ensures SameEntries(c, Deliver(c, id, f).0)
  {
    hide Callbacks, Ends, SameKinds;
    SameKindsReflexive(c.streams);
    var (d, v) := Deliver(c, id, f);
    if v == Delivered {
      UpdateKeepsKinds(c.streams, id, d.streams[id]);
    }
  }

  lemma SameKindsReflexive(s: map<uint32, Stream>)
    ensures SameKinds(s, s)
  {
  }

  lemma CloseStreamKeepsEntries(c: Conn, id: uint32)
    ensures SameEntries(c, CloseStream(c, id))
  {
  }

  /** A frame that opens nothing leaves the same entries. */
  lemma InboundKeepsEntries(c: Conn, f: F, choice: Choice)
    requires Receive(c, f, choice).1 != Accepted
    ensures SameEntries(c, Receive(c, f, choice).0)
  {
    hide Deliver, CloseStream, SameEntries;
    SameEntriesReflexive(c);
    if c.closed {
    } else if c.benign > MAX_BENIGN_ERRORS {
      ProtocolErrorKeepsEntries(c, 0);
    } else if f.Ping? {
      PingKeepsEntries(c, f);
    } else if f.Error? {
      ErrorKeepsEntries(c, f);
    } else if f.Request? {
      RequestKeepsEntries(c, f, choice);
    } else if f.Push? {
      PushKeepsEntries(c, f, choice);
    } else {
      StreamedKeepsEntries(c, f);
    }
    hide HandlePing, HandleError, HandleRequest, HandlePush, HandleClientData, HandleServerData, HandleHeaders,
      HandleResponse, ProtocolError;
  }

  lemma SameEntriesReflexive(c: Conn)
    ensures SameEntries(c, c)
  {
  }

  lemma ProtocolErrorKeepsEntries(c: Conn, id: uint32)
    requires !c.closed
    ensures SameEntries(c, ProtocolError(c, id))
  {
  }

  lemma PingKeepsEntries(c: Conn, f: F)
    requires f.Ping?
    ensures SameEntries(c, HandlePing(c, f).0)
  {
    hide SameKinds;
    SameKindsReflexive(c.streams);
  }

  lemma ErrorKeepsEntries(c: Conn, f: F)
    requires f.Error? && !c.closed
    ensures SameEntries(c, HandleError(c, f).0)
  {
    hide CloseStream, ProtocolError, SameEntries;
    CloseStreamKeepsEntries(c, f.id);
    SameEntriesCount(c, CloseStream(c, f.id));
    ProtocolErrorKeepsEntries(c, f.id);
    CloseKeepsEntries(c);
  }

  lemma CloseKeepsEntries(c: Conn)
    requires !c.closed
    ensures SameEntries(c, Close(c))
  {
  }

  lemma SameEntriesCount(c: Conn, d: Conn)
    requires SameEntries(c, d)
    ensures SameEntries(c, Benign(d))
  {
    hide SameKinds;
  }

  lemma RequestKeepsEntries(c: Conn, f: F, choice: Choice)
    requires f.Request? && HandleRequest(c, f, choice.parses).1 != Accepted
    ensures SameEntries(c, HandleRequest(c, f, choice.parses).0)
  {
    SameKindsReflexive(c.streams);
    hide SameKinds;
  }

  lemma PushKeepsEntries(c: Conn, f: F, choice: Choice)
    requires f.Push? && HandlePush(c, f, choice.parses, choice.wants).1 != Accepted
    ensures SameEntries(c, HandlePush(c, f, choice.parses, choice.wants).0)
  {
    SameKindsReflexive(c.streams);
    hide SameKinds;
  }

  lemma StreamedKeepsEntries(c: Conn, f: F)
    requires f.Data? || f.Headers? || f.Response?
    requires !c.closed
    ensures SameEntries(c, Handle(c, f, Choice(false, false)).0)
  {
    DeliverKeepsEntries(c, f.id, f);
    SameKindsReflexive(c.streams);
    hide SameKinds, Deliver;
  }

  /** What accepting a frame changes. */
  ghost predicate AcceptEffect(c: Conn, f: F, d: Conn) {
    if f.Request? then
      && c.server && Odd(f.id) && (c.lastRequest < f.id || c.lastRequest == 0) && ValidID(f.id)
      && f.id in d.streams && d.streams[f.id].ServerStream?
      && d == c.(streams := c.streams[f.id := d.streams[f.id]], lastRequest := f.id)
    else
      && f.Push? && !c.server && !Odd(f.id) && c.lastPush < f.id && ValidID(f.id)
      && d == c.(calls := d.calls, pushRequests := c.pushRequests + {f.id}, lastPush := f.id)
  }

  lemma AcceptedEffect(c: Conn, f: F, choice: Choice)
    requires Receive(c, f, choice).1 == Accepted
    ensures AcceptEffect(c, f, Receive(c, f, choice).0)
  {
  }

  lemma InboundIsTidy(c: Conn, f: F, choice: Choice)
    requires Tidy(c)
    ensures Tidy(Receive(c, f, choice).0)
    ensures c.lastRequest <= Receive(c, f, choice).0.lastRequest && c.lastPush <= Receive(c, f, choice).0.lastPush
  {
    hide Receive;
    if Receive(c, f, choice).1 != Accepted {
      InboundKeepsEntries(c, f, choice);
      SameEntriesTidy(c, Receive(c, f, choice).0);
    } else {
      AcceptedEffect(c, f, choice);
    }
  }

  /** What an API call changes of the entries and counters. */
  ghost predicate CallEffect(c: Conn, id: Option<uint32>, d: Conn) {
    && d.server == c.server && d.pushRequests == c.pushRequests
    && (d.lastRequest == c.lastRequest ||
          (!c.server && d.lastRequest == if c.lastRequest == 0 then 1 else c.lastRequest + 2))
    && (d.lastPush == c.lastPush || (c.server && d.lastPush == c.lastPush + 2))
    && (id.None? ==> d.streams == c.streams)
    && (id.Some? ==>
          && id.value in d.streams && d.streams == c.streams[id.value := d.streams[id.value]]
          && (d.streams[id.value].ClientStream? <==> !c.server) && !d.streams[id.value].ServerStream?
          && id.value == (if c.server then d.lastPush else d.lastRequest) && ValidID(id.value)
          && id.value > (if c.server then c.lastPush else c.lastRequest))
  }

  lemma CallsEffect(c: Conn, input: Input)
    requires !Wraps(c, input) && !input.Inbound? && !input.CallClose?
    ensures CallEffect(c, Inserted(c, input), Step(c, input))
  {
    hide Receive, RequestFrames, NextPingID, CloseStream;
  }

  lemma CallIsTidy(c: Conn, input: Input)
    requires Tidy(c) && !Wraps(c, input) && !input.Inbound?
    ensures Tidy(Step(c, input))
    ensures c.lastRequest <= Step(c, input).lastRequest && c.lastPush <= Step(c, input).lastPush
  {
    hide Step, Inserted, SameEntries, CloseStream;
    if input.CallClose? {
      CloseStreamKeepsEntries(c, input.id);
      SameEntriesTidy(c, CloseStream(c, input.id));
      SameEntriesReflexive(c);
      StepCloses(c, input);
    } else {
      CallsEffect(c, input);
      EffectIsTidy(c, Inserted(c, input), Step(c, input));
    }
  }

  lemma StepCloses(c: Conn, input: Input)
    requires input.CallClose?
    ensures Step(c, input) == c || Step(c, input) == CloseStream(c, input.id)
    ensures Step(c, input).lastRequest == c.lastRequest && Step(c, input).lastPush == c.lastPush
  {
  }

  lemma EffectIsTidy(c: Conn, id: Option<uint32>, d: Conn)
    requires Tidy(c) && CallEffect(c, id, d)
    ensures Tidy(d) && c.lastRequest <= d.lastRequest && c.lastPush <= d.lastPush
  {
  }

  /** Insertion: the ID is new to both maps, above every earlier ID of its kind, and
      becomes the last of its kind. */
  lemma InsertionIsFresh(c: Conn, input: Input)
    requires Tidy(c) && !Wraps(c, input) && Inserted(c, input).Some?
    ensures var id := Inserted(c, input).value;
      && id !in c.streams && id !in c.pushRequests && 0 < id <= MAX_STREAM_ID
      && (Odd(id) ==> c.lastRequest < id == Step(c, input).lastRequest)
      && (!Odd(id) ==> c.lastPush < id == Step(c, input).lastPush)
      && (id in Step(c, input).streams || id in Step(c, input).pushRequests)
  {
    hide Step, Inserted, Receive;
    InsertedWhen(c, input);
    if input.Inbound? {
      AcceptedEffect(c, input.frame, input.choice);
    } else {
      CallsEffect(c, input);
    }
  }

  lemma InsertedWhen(c: Conn, input: Input)
    requires Inserted(c, input).Some?
    ensures !input.CallClose?
    ensures input.Inbound? ==>
      var (d, v) := Receive(c, input.frame, input.choice);
      && v == Accepted && d == Step(c, input)
      && (input.frame.Request? || input.frame.Push?) && Inserted(c, input).value == input.frame.id
  {
    hide Receive;
  }

  /** No step changes the keys in any other way, unless it closes the connection. */
  lemma KeysOnlyGrow(c: Conn, input: Input)
    requires !Wraps(c, input)
    ensures var d := Step(c, input);
      d.closed || d.streams.Keys + d.pushRequests
        == c.streams.Keys + c.pushRequests + if Inserted(c, input).Some? then {Inserted(c, input).value} else {}
  {
    if input.Inbound? {
      if Receive(c, input.frame, input.choice).1 != Accepted {
        hide Receive;
        InboundKeepsEntries(c, input.frame, input.choice);
      } else {
        hide Receive;
        AcceptedEffect(c, input.frame, input.choice);
      }
    } else if input.CallClose? {
      CloseStreamKeepsEntries(c, input.id);
    } else {
      hide Step, Inserted;
      CallsEffect(c, input);
    }
  }

  lemma RoleStays(c: Conn, input: Input)
    ensures Step(c, input).server == c.server
  {
    if input.Inbound? {
      if Receive(c, input.frame, input.choice).1 == Accepted {
        AcceptedEffect(c, input.frame, input.choice);
      } else {
        InboundKeepsEntries(c, input.frame, input.choice);
      }
      hide Receive, SameKinds;
    } else {
      hide Receive;
    }
  }

  /** Every reachable state before a counter wraps. */
  lemma {:induction false} ReachableIsTidy(c: Conn, inputs: seq<Input>)
    requires Tidy(c) && NeverWraps(c, inputs)
    ensures Tidy(Run(c, inputs))
    ensures c.lastRequest <= Run(c, inputs).lastRequest && c.lastPush <= Run(c, inputs).lastPush
    decreases inputs
  {
    if inputs != [] {
      if inputs[0].Inbound? {
        InboundIsTidy(c, inputs[0].frame, inputs[0].choice);
      } else {
        CallIsTidy(c, inputs[0]);
      }
      ReachableIsTidy(Step(c, inputs[0]), inputs[1..]);
    }
  }

  lemma FreshIsTidy(server: bool, hasReceiver: bool, seed: uint32)
    ensures Tidy(Fresh(server, hasReceiver, seed))
  {
  }

  /** Two insertions in one run never share an ID. */
  lemma InsertionsDiffer(c: Conn, first: Input, between: seq<Input>, second: Input)
    requires Tidy(c) && !Wraps(c, first) && Inserted(c, first).Some?
    requires var d := Step(c, first);
      NeverWraps(d, between) && !Wraps(Run(d, between), second) && Inserted(Run(d, between), second).Some?
    ensures Inserted(c, first).value != Inserted(Run(Step(c, first), between), second).value
  {
    InsertionIsFresh(c, first);
    if first.Inbound? {
      InboundIsTidy(c, first.frame, first.choice);
    } else {
      CallIsTidy(c, first);
    }
    ReachableIsTidy(Step(c, first), between);
    InsertionIsFresh(Run(Step(c, first), between), second);
  }
}
