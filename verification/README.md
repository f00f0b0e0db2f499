# A model of the WP endpoint

This project models one endpoint of WP/2, a multiplexed protocol in the style of SPDY, and
two endpoints joined by FIFO links, and proves what the protocol promises of every run.

It is layered as the repository is.

| files | what they model |
|---|---|
| `Protocol`, `Bitwise`, `Wire`, `WireIO` | frames and their byte form, the readers and writers that move them over a connection that delivers arbitrary fragments |
| `HeaderBlock`, `HeaderParse`, `Pipeline` | the name/value block (section 2.6.10 of SPDY Protocol Draft 3), the serialiser's two passes over an unordered map, the bounded parser; compression and framing composed, zlib being any pair of stateful functions of which one inverts the other |
| `StreamStates`, `Chunking`, `ServerStreams`, `ClientStreams`, `PushStreams`, `Responses`, `HandlerHeaders` | the stream objects, the chunk loop of their `Write` methods, the receiver that builds an `http.Response`, and what becomes of the headers that a handler sets |
| `Connection`, `ConnectionObject` | the handlers, the API calls and the main loop of `conn`, as functions on its state and as an object proved against them |
| `Openings`, `Freshness`, `Allocation`, `Demux`, `Completion`, `Uploads`, `Crashes`, `Tolerance` | what holds of one connection over all its runs |
| `Endpoints`, `Agreement`, `Pings`, `Delivery`, `ByteDelivery`, `Peace` | two endpoints: stream IDs, pings, end-to-end delivery |
| `SendLoop`, `Schedule` | the priority send loop with its closing handshake, and that loop under the two endpoints |
| `Programs`, `Assembly` | which handler programs the wire carries, and all layers put together, from those programs to the receivers |
| `Transport` | the connection slots of a `Transport` |

Code that works in place is modelled in place: `Reader`, `Writer`, `Compressor`,
`Decompressor`, the three streams, `StreamState`, `Conn`, `Sender`, `Client` (a
`Transport`) and `Collector` (a `response`) are classes, and the serialiser fills an array.
Each of their methods is proved equal to a function of the old state, and the theorems are
about those functions. One handler or API call is one step of a connection; a run is any
finite sequence of steps. Machine integers wrap where the source's do. `dafny verify
dfyconfig.toml` checks the whole project.

## Where the code departs from its documentation

The code is modelled as written, with two exceptions, and the condition under which it does
what it says is proved exactly. The exceptions are the chunk loops, and the links of
`Endpoints`, which carry PING and ERROR frames whole: all of `Pings`, and `Peace` for runs
with pings, are about a writer that gets those frames right.

- The length field has 16 bits (frames.go:91, frames.go:414-415): a frame comes back
  exactly when its fields fit theirs, `Wire.RoundTripExactly`. `MAX_DATA_SIZE` does not
  keep a Write within them: `Programs.LongWriteIsCut`.
- ERROR frames are written as DATA (frames.go:497) and PING frames with length 6
  (frames.go:863): `Wire.MiswrittenFrames`. This is why `Pipeline` leaves them out. What
  becomes of an ERROR on an open stream is proved, `ByteDelivery.ErrorBecomesBody`.
- The serialiser sizes its buffer without the NUL separators (compression.go:141-147): it
  overruns exactly when some header has several values, `HeaderBlock.FillOverruns`.
- The chunk loops never advance (server_stream.go:61-68, client_stream.go:51-58,
  push_stream.go:52-59): as written they end exactly for inputs within the limit,
  `Chunking.LoopEndsExactly`. The three `Write` methods use `Chunking.SendChunks`, which
  has the missing assignment.
- `handleClientData` turns odd stream IDs away (conn.go:323-324), so no request body ever
  arrives: module `Uploads`. `Peace` therefore speaks of requests without a body.
- Both constructors seed `nextPingID` with 2 (client_conn.go:45, server_conn.go:45): the
  seed is a parameter; the exchange works with opposite parities, and with equal ones no
  ping is ever answered, `Pings.SameSeedsNeverAnswer`, `Pings.FalseCompletion`. `Peace`
  holds for all seeds, and asks for opposite parities only of runs that send pings.
- A closed stream stays in the map with a nil `StreamState` (client_stream.go:87-90), and
  asking it ends the program: the verdict `Crash`, after which nothing happens on any
  stream (`Crashes.CrashSilences`). A run comes to this exactly when a frame is handled
  that asks a stream after an ERROR on it, or a Close of it: `Crashes.RunCrashesExactly`.
- `dial` waits for a connection slot with the transport locked (transport.go:95), while an
  idle connection keeps its slot (transport.go:119-120): a trip that waits can go on exactly
  as long as there is a token or an exchange under way, `Transport.WaitsExactly`.

## Model

| member | source | states |
|---|---|---|
| Bitwise.FlagsAreBitwise | frames.go:154-158 | the byte shared by flags and priority, computed with masks and shifts, is the arithmetic form used everywhere else, for all operands |
| Bitwise.CodeIsBitwise | frames.go:306-307 | the same for the byte shared by code and subcode |
| Wire.RoundTripExactly | frames.go:78-176 | a written frame, followed by anything, is read back as itself with length+8 bytes consumed if and only if every field fits its bits |
| Wire.MiswrittenFrames | frames.go:492-515 | an ERROR frame arrives as a one-byte DATA frame on the same ID, and a PING not at all |
| Wire.DecodeIsCanonical | frames.go:217-329 | writing an accepted frame again reproduces exactly the bytes it was read from |
| Wire.DecodeIsInjective | frames.go:683-800 | two byte strings that decode to the same frame are the same, other than for ERROR |
| Wire.ErrorFlagsAreForgotten | frames.go:450-477 | the exception: the flags byte of an ERROR frame is lost |
| Wire.DecodeIgnoresWhatFollows | frames.go:12-39 | frames are self-delimiting: what follows one changes neither it nor its length |
| Wire.StreamRoundTrip | frames.go:403-440 | frames written one after another are read back one after another |
| Wire.EncodedBytes | frames.go:403-440 | what is on the wire, byte by byte: length, type and stream ID, big-endian, and the payload |
| Wire.RefusedExactly | frames.go:403-412 | which frames a writer refuses, exactly |
| Wire.AcceptedExactly | frames.go:12-39 | which bytes begin with a frame that is accepted, exactly, and how many of them it takes |
| WireIO.Reader.ReadFull | interfaces.go:336-351 | from a reader that returns arbitrary short pieces, exactly the next n bytes or the end |
| WireIO.Writer.WriteFull | interfaces.go:353-365 | through a writer that takes arbitrary short pieces, exactly the data is appended |
| WireIO.ReadFrame | frames.go:12-39 | the imperative reader returns what decoding the concatenated fragments returns, and consumes as much |
| WireIO.ReadFrames | frames.go:12-39 | so every fragmentation of the same bytes gives the same frames |
| WireIO.WriteTo | frames.go:139-176 | each writer appends the frame's encoding, or refuses a bad stream ID and writes nothing |
| HeaderBlock.ReturnedIsStable | compression.go:166-168 | a name that has made the trip once makes it unchanged ever after |
| HeaderBlock.ReturnedUnchanged | compression.go:166-168 | which names come back as they were: canonical tokens, and others only in lower case |
| HeaderBlock.TokenBytes | compression.go:96-99 | the bytes of a header name that canonicalisation takes for a token are the visible ones that are no separators |
| HeaderBlock.StripExactly | compression.go:133-136 | of the canonical names Compress drops exactly those whose lower-case form is "connection", "keep-alive", "proxy-connection" or "transfer-encoding" |
| HeaderBlock.SplitInvertsJoin | compression.go:96-99 | splitting on NUL inverts joining exactly for non-empty lists of NUL-free values |
| HeaderBlock.SizedAnyOrder | compression.go:138-148 | the sizing pass computes the same length in every iteration order |
| HeaderBlock.FillOverruns | compression.go:156-189 | the fill pass writes as many bytes more than were allocated as there are separators: it stays in bounds iff every header has one value |
| HeaderBlock.SizePass | compression.go:138-148 | the sizing loops compute the length and the lens of every name |
| HeaderBlock.Serialise | compression.go:138-189 | the two passes in place, in any two orders: the block, or an overrun exactly when some header has several values |
| HeaderParse.ParseBlock | compression.go:44-102 | the parsing loop with its running bound computes the parse of the block, its errors and its panics |
| HeaderParse.MergedExactly | compression.go:96-99 | adding the split values back gives the original header set iff names and values are ones that return |
| HeaderParse.BlockRoundTrip | compression.go:24-103 | for every key order, and whatever follows, parsing a serialised block gives the header set |
| HeaderParse.BlockRoundTripExactly | compression.go:53-85 | and it does so only for header sets whose names and values return and whose lengths keep within the bound |
| HeaderParse.DecodeStaysInBounds | compression.go:53-85 | whatever the bytes, the pairs accepted are framed in exactly the bytes consumed, and their names and values never add up to more than the bound |
| HeaderParse.ChecksPassExactly | compression.go:64-85 | for any framed pairs, whoever wrote them, the running checks pass if and only if the total is within the bound |
| HeaderParse.BlockGathers | compression.go:44-102 | any block of well-formed pairs, whoever wrote it, is accepted if and only if it is within the bound, and each name then has the values of all its pairs, split, in their order |
| HeaderParse.StopsExactly | compression.go:53-94 | after any well-formed pairs, a malformed one is a panic exactly if the bytes end inside a name or where the length of its values should be, and an error otherwise |
| Pipeline.FrameRoundTrip | frames.go:50-76 | with equal histories, decompressing a compressed frame gives it back without the four hop-by-hop headers, and the histories stay equal |
| Pipeline.HeadersArrive | compression.go:133-136 | the trip of a header set: a canonical name arrives, with its values, if and only if it was sent and is none of the four of one hop, and no other field of the frame changes |
| Pipeline.UnreadableExactly | frames.go:64-76 | when a frame cannot be decompressed, and when the attempt panics |
| Pipeline.AllHeadersArrive | conn.go:894-932 | the same for every frame of a sequence, over the bytes |
| Pipeline.PipelineRoundTrip | conn.go:894-932 | a sequence of frames, compressed in write order and written, is read and decompressed as the same sequence, with equal histories at the end |
| Pipeline.Compressor.Compress | compression.go:117-198 | the result is a view of the shared buffer, which holds the deflated block |
| Pipeline.CompressTwo | compression.go:130 | compressing a second frame before the first is written replaces the first frame's block |
| Pipeline.SendAll | conn.go:896-931 | compressing and writing frame by frame, the bytes written are those of the pipeline: no frame goes out with another's block |
| Pipeline.Decompressor.DecompressFrame | frames.go:64-76 | inflating and parsing with what the parser had left over |
| Pipeline.ReceiveAll | conn.go:730-750 | reading and decompressing from fragments gives the frames of the pipeline |
| StreamStates.RefinesTwoBooleans | interfaces.go:204-274 | over any run of transitions each side is closed iff it was or some transition closed it, and the two sides are all there is to a state |
| StreamStates.StreamState.CloseHere | interfaces.go:255-263 | the object makes the transition of the model |
| Chunking.ChunksAreLossless | server_stream.go:58-80 | chunks are non-empty, within the limit, and concatenate to the input |
| Chunking.SendChunks | server_stream.go:58-80 | the loop, with `data` advanced, ends, sends those chunks and returns the input's length |
| Chunking.LoopEndsExactly | server_stream.go:58-80 | the loop as written ends iff the input is within the limit |
| ServerStreams.HandlerKeepsGrammar | server_stream.go:217-279 | after any handler calls: one RESPONSE first, no FINISH before the last frame, ClosedHere iff FINISH is out, and the body is what accepted writes were given |
| ServerStreams.StreamGrammar | server_stream.go:165-206 | after Run as well: exactly one FINISH, on the last frame, for every handler program |
| ServerStreams.ServerStream.Write | server_stream.go:42-80 | the object's Write sends headers, response and chunks as the model does, or refuses, also when the connection has stopped |
| ServerStreams.ServerStream.WriteResponse | server_stream.go:217-248 | the object's WriteResponse |
| ServerStreams.ServerStream.FinishRun | server_stream.go:181-205 | the object's end of Run: the closing frame, or the end of the program if the stream was closed while its handler ran |
| ServerStreams.ServerStream.Close | server_stream.go:98-116 | the object's Close: pending headers go out, then nothing is accepted |
| ClientStreams.NeverSendsData | client_stream.go:37-71 | for every program a client stream sends HEADERS without FINISH and nothing else, refuses every Write, and closes `finished` at most once |
| ClientStreams.RefinesEntry | client_stream.go:112-157 | the stream object changes under a frame as the connection's map entry does |
| ClientStreams.ClientStream.Receive | client_stream.go:112-157 | the object's ReceiveFrame |
| ClientStreams.EndOfRunIsIdle | client_stream.go:163-170 | the end of Run changes nothing, since the stream was born closed on this side, unless the stream was closed after its last frame: then it ends the program |
| ClientStreams.ClientStream.Write | client_stream.go:37-71 | the object's Write, refused when the stream is closed or the connection stopped |
| PushStreams.PushNeverFinishes | push_stream.go:34-72 | for every program and whatever its origin does, a push sends HEADERS and DATA without FINISH, and its body is what accepted writes were given |
| PushStreams.PushStream.Write | push_stream.go:34-72 | the object's Write, refused when the push is closed or the connection stopped, or when its origin is closed on this side; if the origin was closed altogether its state is nil, and asking it ends the program |
| Responses.UpdateHeader | interfaces.go:293-303 | the nested loops over names and values, in any order |
| Responses.UpdatedAnyOrder | interfaces.go:293-303 | for canonical names the order is immaterial: newer values replace older ones as a whole |
| Responses.StatusRoundTrip | transport.go:314-328 | the status parser reads back what strconv.Itoa wrote |
| Responses.ParseStatusExactly | transport.go:314-328 | what it accepts in general: white space, then digits, all of which it takes |
| Responses.StatusTables | constants.go:310-408 | the two status tables, one after the other, for every number: which statuses are kept, and what any other becomes |
| Responses.CodeTables | constants.go:310-408 | and the other way around, for any pair of codes |
| Responses.LastHeaderWins | transport.go:316-349 | over any calls, the header in the end has under each name the values of the last call that gave it any, and its first ones if none did; under ":response", which a RESPONSE gives as well, the codes of the last RESPONSE unless a header set came later |
| Responses.CodesRead | transport.go:348 | ":response" reads back as the two codes |
| Responses.StatusOfResponse | transport.go:316-332 | for every handler program the status of the http.Response is the last number that a HEADERS after the RESPONSE carries as ":status", or else the one the handler answered with; so the answered status arrives if and only if there is no such number or the last one is that status |
| Responses.StatusArrives | transport.go:316-332 | a handler that never sets ":status" itself gets the status of its answer through |
| Responses.StatusIsOverridden | transport.go:321-328 | a handler program that answers 200 and whose client sees 404 |
| Responses.BodyIsWritten | transport.go:307-312 | the body of the http.Response is what the handler's accepted writes were given |
| HandlerHeaders.ResponseCarries | server_stream.go:217-248 | the RESPONSE of an answer: its codes, ":status" and ":version", every header the handler has with its values and no other, FINISH exactly if it has no body; what stays are the names that are not canonical forms of sent ones |
| HandlerHeaders.EpilogueCarries | server_stream.go:181-205 | the same for the frame at the end of Run |
| HandlerHeaders.HeaderGoesOut | server_stream.go:217-279 | for every program: the header set that a handler leaves goes out whole with the next frame that has one, unless the handler replaces it before |
| HandlerHeaders.NothingElseGoesOut | server_stream.go:217-279 | and whatever a RESPONSE or HEADERS carries, ":status" and ":version" apart, the handler has set, with these values |
| HandlerHeaders.FinalIsLast | transport.go:316-332 | over a whole response, the http.Response has under each name that travels the values of the last RESPONSE or HEADERS that gave any |
| HandlerHeaders.HeaderArrives | transport.go:316-332 | so what a handler sets, sends and does not set again is in the header of the http.Response, with its values |
| HandlerHeaders.NothingElseArrives | transport.go:316-332 | and nothing is there that the handler did not set |
| HandlerHeaders.AnswerGoesOut | server_stream.go:165-248 | for every program: the first frame has the codes, ":status" and ":version" of the handler's answer, and is the only one, with FINISH, exactly if the answer has no body or there is none |
| HandlerHeaders.CodesArrive | transport.go:341-349 | the receiver is told these codes first, and the http.Response has them under ":response" if the handler leaves that name alone |
| HandlerHeaders.CloseSendsHeader | server_stream.go:98-116 | closing a stream sends what its handler has prepared, and it then accepts nothing |
| HandlerHeaders.PushHeaderGoesOut | push_stream.go:34-72 | the header set of a push goes out whole, once, with the next accepted Write or when asked for |
| HandlerHeaders.ClientHeaderGoesOut | client_stream.go:73-97 | the same of a client stream, whose Writes are never accepted |
| ConnectionObject.Conn.Request | conn.go:187-280 | Request on the object: ID allocation, the frames of request and body, the new entry |
| ConnectionObject.Conn.Push | conn.go:133-184 | Push on the object |
| ConnectionObject.Conn.Ping | conn.go:104-129 | Ping on the object, with the wrap of the counter |
| ConnectionObject.Conn.Deliver | conn.go:600-611 | the open check and the stream's ReceiveFrame |
| ConnectionObject.Conn.HandleClientData | conn.go:310-348 | the handler, its errors in their order |
| ConnectionObject.Conn.HandleServerData | conn.go:585-612 | the handler, pushes included |
| ConnectionObject.Conn.HandleHeaders | conn.go:351-378 | the handler |
| ConnectionObject.Conn.HandleResponse | conn.go:615-651 | the handler |
| ConnectionObject.Conn.HandleRequest | conn.go:477-543 | the handler and newStream |
| ConnectionObject.Conn.HandlePush | conn.go:381-474 | the handler |
| ConnectionObject.Conn.HandleError | conn.go:546-582 | the handler and the fatal codes |
| ConnectionObject.Conn.HandlePing | conn.go:786-802 | the ping branch of the main loop |
| ConnectionObject.Conn.ReadFrames | conn.go:717-808 | the main loop over a fragmented connection, with its three ways to end |
| ConnectionObject.ReadIsRun | conn.go:717-808 | the main loop over bytes is a run over the frames the pipeline makes of them: same calls, completed pings and accepted streams, and then the connection is closed |
| Openings.RequestHandsOver | conn.go:209-280 | an accepted Request hands over the REQUEST that was asked for and the chunks of its body, all on the new ID, one FINISH, on the last frame, and enters the stream as closed on this side; a refused one hands over nothing |
| Openings.BodyIsWhole | conn.go:212-239 | so the data is the body |
| Openings.AcceptOpens | conn.go:654-667 | accepting a REQUEST enters its stream in the state in which the handler's starts, closed by the other side exactly if it carried FINISH |
| Openings.RequestEndsItself | conn.go:351-378 | and so it stays, in every run without an ERROR on the stream or a Close of it: a later HEADERS is rejected as closed, and counted, exactly then |
| Openings.FirstIDs | conn.go:246-250 | the first request of a connection is 1, the first push 2 |
| Openings.PushOpens | conn.go:158-183 | a push hands over its PUSH and enters its stream as open, so that what comes on it is dropped, not rejected |
| ConnectionObject.ReadEndsExactly | conn.go:717-750 | how the loop ends, from the state of that run: with an ERROR after more than ten benign errors or for a block that cannot be read, in a crash if reading it panics, and silently otherwise |
| Freshness.ReachableIsTidy | conn.go:398-539 | in every state reachable before a counter wraps: odd keys are at most the last request ID, even keys at most the last push ID and on servers only, push requests on clients only |
| Freshness.InsertionIsFresh | conn.go:277 | an insertion's ID is in neither map, in range, and above every earlier ID of its kind |
| Freshness.KeysOnlyGrow | conn.go:538-539 | the keys of the two maps change by insertions only, unless the connection closes |
| Freshness.InsertionsDiffer | conn.go:181 | no two insertions of a run share an ID |
| Allocation.RequestCounterIs | conn.go:246-250 | the k-th request computes 2k-1 modulo 2^32 |
| Allocation.PushCounterIs | conn.go:160 | the k-th push computes 2k modulo 2^32 |
| Allocation.ValidExactly | conn.go:251-254 | within one period, which of them pass the range check: the first 2^30 requests, and the first 2^30-1 pushes and the 2^31st |
| Allocation.IDsRepeatExactly | conn.go:246-255 | two allocations compute the same ID iff they are a multiple of 2^31 apart |
| Allocation.WrappedIDsPass | conn.go:161-165 | after that the counters start again and pass the check again |
| Allocation.RunCounts | conn.go:245-255 | in any run the counter is where that many allocations take it, whatever frames arrive |
| Allocation.NextAllocation | conn.go:245-255 | and the next one succeeds iff its ID is in range |
| Allocation.WrapReplaces | conn.go:277 | a wrapped counter does replace an entry |
| Allocation.ShortRunsNeverWrap | conn.go:160-165 | runs of fewer than 2^31 steps never wrap |
| Demux.StreamIsProjection | conn.go:585-651 | in any run without an ERROR on the stream or a Close of it, its receiver's calls are those of the inbound frames on its ID up to the first DATA or RESPONSE with FINISH |
| Demux.StreamEndsExactly | client_stream.go:133-150 | in the same runs the other side of the stream is closed if and only if it was or a DATA or RESPONSE with FINISH has come, and no HEADERS closes it, whatever its flags |
| Demux.PushIsProjection | conn.go:591-598 | in any run the push receiver is told of every frame on an accepted push, with no cut |
| Demux.Isolation | conn.go:351-378 | a frame on one ID, ERROR included, changes no other ID's stream and calls no other receiver |
| Demux.StepOnStream | client_stream.go:120-157 | one step, as seen from one stream: its state and its calls |
| Completion.CompletedOnce | client_stream.go:133-145 | in every run, ERROR frames and Close included, `finished` is closed at most once, by the last call on the stream |
| Completion.DoneIsFinal | conn.go:600-605 | after completion, Close or an ERROR frame there is no further call on the stream |
| Completion.FreshCompletes | client_stream.go:112-157 | both for every run of a new connection |
| Completion.ClosedIsDone | client_stream.go:83-97 | closing a stream is such an end |
| Uploads.NoUploadArrives | conn.go:323-327 | no DATA frame reaches a server stream |
| Uploads.BodyIsLost | conn.go:724-727 | each chunk of a body is one benign error, and the connection survives iff there are not too many of them |
| Uploads.IntendedDelivers | conn.go:322-347 | with the test that the message speaks of, a body's frames are received while the client is open |
| Crashes.StepCrashesExactly | conn.go:600-606 | a step crashes if and only if it handles a frame that passes its handler's tests of role, parity and range and whose stream is in the map with a nil state |
| Crashes.StepOnNil | conn.go:546-582 | a step leaves exactly those nil entries that it makes, by a Close or an ERROR on a stream in the map, and those that were there and are not opened anew |
| Crashes.RunCrashesExactly | conn.go:600-606 | every run crashes if and only if, at some point, a frame is handled that asks a stream which an ERROR or a Close has closed in the map and which has not been opened anew since |
| Crashes.BeforeWrap | conn.go:277 | and before a counter wraps no stream is opened anew, so that an ERROR or a Close and a later frame are enough |
| Crashes.WithoutClosing | conn.go:549-575 | so a run with no Close and no such ERROR never crashes |
| Crashes.OwnCloseCrashes | client_stream.go:83-97 | a client that closes its stream crashes on a frame already on its way |
| Crashes.PeerCrashes | conn.go:560-570 | a peer that refuses a stream, with an ERROR that arrives as one, and then sends on it crashes the client, without one error being counted |
| Crashes.CrashSilences | conn.go:600-611 | a frame that would have been delivered to another stream no longer is |
| Tolerance.FrameJudged | conn.go:310-651 | a frame is counted as a benign error if and only if it is misplaced, and ends the connection if and only if it is one of those listed |
| Tolerance.FrameAnswered | conn.go:546-582 | what goes out in answer to a frame, exactly: an ERROR when it ends the connection, unless it is one that says so; a refusal; a reply to a ping; or nothing |
| Tolerance.RunSurvivesExactly | conn.go:717-727 | every run leaves the connection open if and only if no frame came after more than ten misplaced ones or ends a connection by itself, and the count is then that of the misplaced ones |
| Endpoints.InboundEmits | conn.go:704-711 | what a frame may be answered with: nothing, a ping's reply, or an ERROR, with which a server closes the connection |
| Endpoints.CallEmits | conn.go:256-260 | what a call hands to the send loop |
| Agreement.RunKeepsAgreement | conn.go:158-168 | in every run of two endpoints, REQUEST IDs in flight are odd, rising, above what the server accepted and at most what the client allocated; PUSH IDs likewise |
| Agreement.RequestIsNeverRejected | conn.go:493-522 | a REQUEST that reaches a server that is open, and within its error bound, is accepted iff its URL and version parse |
| Agreement.PushIsNeverRejected | conn.go:398-426 | a PUSH that reaches such a client is dropped if it does not parse or there is no receiver, and otherwise accepted or refused as the receiver wants, never rejected |
| Agreement.OpeningsAreNeverRejected | conn.go:398-426 | both, after any run, refusals and unparsable URLs included |
| Pings.NextPingKeeps | conn.go:112-122 | the ping counter keeps its parity and is never 0, across its wrap |
| Pings.RunKeepsExchange | conn.go:786-802 | with opposite parities and no ID reused while outstanding, in every run each outstanding ping has exactly one frame in flight, flagged as its direction demands, and no other ping is |
| Pings.ArrivalsAreExpected | conn.go:788-801 | so a ping that arrives completes an outstanding one or is answered; no reply is ever answered, no ping unknown |
| Pings.PingsCompleteOnce | conn.go:795-797 | in any run no ping completes twice, and while no ID is reused none is lost |
| Pings.AnsweredExactly | conn.go:788 | an end answers a ping iff its parity is not its own |
| Pings.SameSeedsNeverAnswer | client_conn.go:45 | with the seeds as written no ping is answered in any run |
| Pings.FalseCompletion | server_conn.go:45 | and a request of the peer completes a ping it knows nothing of |
| Delivery.Outcome | server_stream.go:165-206 | what the receiver of a whole response is told: its code first, the written bytes, one completion, last |
| Delivery.FinalOfReply | client_stream.go:131-136 | and none of the data is called final but that of the frame that ends the response |
| Delivery.DoAllKeepsInv | conn.go:585-651 | the invariant of two endpoints, any number of requests, any handler programs and any interleaving: each receiver has been told exactly a beginning of its response, the rest is on the way or not yet sent |
| Delivery.EndToEnd | conn.go:846-932 | at any moment of any run with an open client, each receiver has a prefix of its response, and when nothing is left of it all of it, byte for byte |
| Delivery.NeverRejected | conn.go:600-605 | no frame of a response is rejected as closed |
| ByteDelivery.OverBytes | conn.go:717-784 | over bytes: if a server writes, in any interleaving, a beginning of what a handler emits on one stream, and the bytes reach a client that may do anything else meanwhile, that stream's receiver is told a beginning of the response, and all of it if and only if the frames handled before the connection closed have all of it |
| ByteDelivery.MainLoopDelivers | conn.go:717-808 | the same of the main loop over those bytes, whatever it handles or stops at: all of the response if and only if all was written and the loop was still open at its last frame |
| ByteDelivery.ReadToEnd | conn.go:717-808 | and of the connection object reading them in fragments |
| ByteDelivery.ErrorBecomesBody | frames.go:492-515 | an ERROR written on an open stream closes nothing: it is read as DATA, and its status becomes a byte of the body |
| Peace.RunIsCalm | conn.go:717-808 | endpoints with any ping seeds, requests without bodies, streams not closed from outside, and pings sent only between opposite parities: neither ever counts an error or closes, in any run before an ID wraps |
| Peace.EveryResponseArrives | conn.go:585-651 | so in every such run of a new connection each receiver has a prefix of its response, and all of it when nothing is left on the way |
| Peace.CanAlwaysFinish | conn.go:894-932 | and from every reachable state every accepted request's response can still arrive whole |
| Schedule.LoopKeepsOrder | conn.go:525 | in every run of the loop that drops nothing, what a stream has on the wire, in hand and on the channel of its priority is what it has sent, in its order |
| Schedule.LoopIsAdmitted | conn.go:525 | with each response sent in order on the channel of its request's priority, and nothing dropped, the order in which the send loop puts stream frames on the wire is one that the model of the two endpoints admits |
| Schedule.OrderIsAdmitted | conn.go:894-932 | as is every interleaving that keeps each response in order |
| Programs.ModestProgramsSurvive | server_stream.go:217-279 | a condition on each call of a handler by itself (headers that return, with single values and a bounded block; writes of at most 0xffff bytes; codes that fit their bits) makes every frame it emits one that the wire carries |
| Programs.SurvivesTransports | frames.go:50-76 | such a frame is transportable after any history and in any order of its keys, for any zlib that expands blocks by a bounded amount |
| Programs.LongWriteIsCut | frames.go:403-440 | a Write of more than 0xffff bytes, up to MAX_DATA_SIZE, is one DATA frame of which the reader takes the length modulo 0x10000, and takes the rest of the data for frames |
| Assembly.ProgramsDeliver | conn.go:717-808 | any number of such programs, their frames written in any interleaving: over the bytes and the main loop each receiver is told a beginning of its response, and all of it if and only if all was written and handled |
| Assembly.PrioritiesAreChannels | conn.go:499-525 | the priorities of the requests accepted in a run are channels of the send loop |
| Assembly.HandlesAll | conn.go:717-784 | a client at peace handles every frame on its way, to the last |
| Assembly.LoopDelivers | conn.go:846-932 | programs, send loop, bytes, main loop and receivers in one: after any run of endpoints at peace, and for any run of the loop that drops nothing, each stream sending on the channel of its own request's priority, each receiver is told a beginning of its response, and all of it, byte for byte, if and only if its stream has sent all of it and none of that is left in the loop |
| SendLoop.RunKeepsInv | conn.go:846-932 | in every run: frames handed over are those written or dropped plus at most one in hand, each channel is first in first out, and a frame taken from a channel was preceded, in its scan, by finding every channel below empty |
| SendLoop.DrainedMeans | conn.go:863-866 | when `sending` is closed nothing is in hand and the last scan found every channel empty |
| SendLoop.OverIsFinal | conn.go:899-902 | after that nothing is handed over |
| SendLoop.OverExactly | conn.go:904-930 | after a frame the loop is over if and only if its write failed; one that cannot be compressed is dropped |
| SendLoop.RunEndsRightly | conn.go:846-932 | in every run the loop ends undrained only after a failed write or when the connection has stopped, drained only when asked to, and no frame is dealt with after a failed write |
| SendLoop.StopIsFinal | conn.go:846-849 | once the connection has stopped, a loop between two frames never takes another |
| SendLoop.StreamOrder | conn.go:851-858 | a stream's frames are handed over in the order in which they were sent |
| SendLoop.WireOrder | conn.go:914-930 | and reach the wire in it if nothing is dropped |
| SendLoop.PushGoesFirst | conn.go:167-181 | a PUSH goes ahead of every frame of its stream, though that writes to another channel |
| SendLoop.QuietScan | conn.go:852-858 | a scan nothing arrives during takes from the first channel that has a frame |
| SendLoop.Sender.Select | conn.go:846-865 | the imperative scan, with arrivals between its tries, is the model's |
| SendLoop.Sender.Await | conn.go:868-888 | the final select |
| SendLoop.Sender.Dispatch | conn.go:904-930 | what becomes of the frame in hand |
| Transport.RunKeepsInv | transport.go:94-257 | for every host in every run: tokens, idle connections, connections in use or being dialed, slots held by WP and slots lost add up to the limit |
| Transport.Accounts | transport.go:94-257 | and each on its own account: slots are lost by failed dials, handshakes and exchanges and by nothing else, go to WP by its connections alone, tokens are those given back less those taken, and the pool is first in first out |
| Transport.PlainStaysPlain | transport.go:186-189 | a trip that asked for plain HTTP is never put on a WP connection it did not dial |
| Transport.SecureJoins | transport.go:186-189 | a trip over HTTPS joins the WP connection of its host at once, if there is one and no idle connection |
| Transport.ErrorLeavesLock | transport.go:246-249 | after an error of NewClientConn no other trip ever starts or goes on to dial, in any run |
| Transport.SendsNeverBlock | transport.go:119-123 | so the sends on the two channels always find room |
| Transport.LiveIsBounded | transport.go:165-171 | and live connections never exceed the limit |
| Transport.LostStaysLost | transport.go:189-215 | a host that has lost all its slots never has a connection again |
| Transport.WaitsUntilClose | transport.go:94-95 | a trip that waits without a token goes on waiting, and no other starts, until an exchange with its host ends in a close |
| Transport.StuckForever | transport.go:119-123 | once no token is left and no exchange under way, it waits in every run, and no trip to any host ever starts |
| Transport.WaitsExactly | transport.go:94-123 | and only then: otherwise some run takes it on |
| Transport.DefaultStarves | transport.go:162-171 | with the default limit, two exchanges that keep their connections alive and a third trip are enough |
| Transport.NeverShared | transport.go:174-184 | no two round trips ever use one connection at once, nor one to another host |
| Transport.Client.Acquire | transport.go:150-187 | the object's start of a round trip |
| Transport.Client.Negotiate | transport.go:189-260 | the object after dialing |
| Transport.Client.Return | transport.go:119-128 | the object at the end of an exchange, neither channel overflowing |

## Left out

- Sockets, TLS, protocol negotiation, deadlines and `http.Server`: a connection is a FIFO of bytes in fragments, or of frames.
- zlib and its dictionary: an arbitrary pair of functions with the inverse law; reads from the decompressor are full reads.
- URL and HTTP-version parsing, dispatch to handlers, the receivers' policy: arbitrary answers, given with each step.
- Mutexes, goroutine scheduling and `runtime.Goexit`: a handler that calls `protocolError` emits its ERROR and closes within its step; whether `Close` returns is not modelled.
- API calls on a closed connection: they change nothing in the model, while the source may block or panic on a closed channel.
- Frames that streams flush when the connection closes: closing a connection drops its streams in one step.
- The race between Request or Push and the main loop: conn.go:256-277 and conn.go:167-181 send the opening frame and release the lock before they insert the stream, so a fast answer can find it unopened; here the call is one step.
- The same race of Ping: conn.go:124-126 sends the frame before it enters the ID in `pings`, and conn.go:786-802 reads that map without the lock; here the call is one step, on which `Pings.ArrivalsAreExpected` rests.
- Handlers that go on after their stream was closed: what `Write` and the end of Run do then is modelled; WriteHeader and WriteResponse, which then set a header in a nil map, ask for an open stream.
- WireIO.Writer.WriteFull: an error from the connection's Write is not modelled; nor is it in the writers that use it.
- WireIO.WriteTo: the same write error is left out.
- ConnectionObject.Conn.Request: the header fields that the source adds, and errors of reading the body, come with the caller's arguments.
- ConnectionObject.Conn.Push: so does the header that the source builds from the URL.
- ConnectionObject.Conn.HandleError: the HEADERS frame that closing a stream may flush is not emitted by the connection; `ServerStreams.ServerStream.Close` has it.
- Header names outside ASCII.
- ServerStreams.ServerStream.SetHeader: a handler may leave any header set, which also covers what `updateHeader` merges into it from inbound HEADERS; inbound frames are otherwise only collected.
- ConnectionObject.Conn.Deliver: the connection's map holds streams as values, so aliasing between the map and a caller's stream is not modelled, and what a server stream does with a frame is only to collect it; `ClientStreams.RefinesEntry` relates the two for clients.
- SendLoop.Sender.Select: the frame a receive on a channel takes is that of the sender that has waited longest, and arrivals happen only between two channel operations.
- Transport.Client.Negotiate: dialing, the handshake and host name checks are one outcome; `MaxIdleConnsPerHost` does not change; the three maps of a host are one entry.
- Responses.Collector.ReceiveHeader: header sets are those a decompressor makes, with canonical names; the optional second receiver is not called.
- `String` methods, logging, versions, `DefaultPriority`, the status tables and the wrappers around `Push` and `Ping`: they would only add easy members.
