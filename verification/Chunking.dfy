// The chunk loop that the Write methods of the three streams share.

module Chunking {
  import opened Protocol

  /** Consecutive chunks of at most `limit` bytes, none of them empty. */
  function Chunks(data: Bytes, limit: nat): (cs: seq<Bytes>)
    requires limit > 0
    decreases |data|
  {
    if |data| > limit then [data[..limit]] + Chunks(data[limit..], limit)
    else if data == [] then []
    else [data]
  }

  function Concat(cs: seq<Bytes>): Bytes {
    if cs == [] then [] else cs[0] + Concat(cs[1..])
  }

  /** Chunking loses nothing, and every chunk is non-empty and within the limit. */
  lemma {:induction false} ChunksAreLossless(data: Bytes, limit: nat)
    requires limit > 0
    ensures Concat(Chunks(data, limit)) == data
    ensures forall i :: 0 <= i < |Chunks(data, limit)| ==> 0 < |Chunks(data, limit)[i]| <= limit
    decreases |data|
  {
    if |data| > limit {
      ChunksAreLossless(data[limit..], limit);
      assert data == data[..limit] + data[limit..];
      assert Chunks(data, limit)[1..] == Chunks(data[limit..], limit);
    } else if data != [] {
      assert Concat([data]) == data + Concat([]);
    }
  }

  /** The DATA frames of chunks, on one stream. */
  function DataFrames(id: uint32, cs: seq<Bytes>): (fs: seq<Frame<Header>>)
    ensures |fs| == |cs|
    ensures forall i :: 0 <= i < |fs| ==> fs[i] == Data(0, id, cs[i])
  {
    if cs == [] then [] else [Data(0, id, cs[0])] + DataFrames(id, cs[1..])
  }

  /** The frames still to send for `data`. */
  function Frames(id: uint32, data: Bytes, limit: nat): seq<Frame<Header>>
    requires limit > 0
  {
    DataFrames(id, Chunks(data, limit))
  }

  lemma FramesFirst(id: uint32, data: Bytes, limit: nat)
    requires limit > 0
    ensures |data| > limit ==>
      Frames(id, data, limit) == [Data(0, id, data[..limit])] + Frames(id, data[limit..], limit)
    ensures 0 < |data| <= limit ==> Frames(id, data, limit) == [Data(0, id, data)]
    ensures data == [] ==> Frames(id, data, limit) == []
  {
    if |data| > limit {
      assert Chunks(data, limit)[1..] == Chunks(data[limit..], limit);
    }
  }

  lemma Append(a: seq<Frame<Header>>, f: Frame<Header>, b: seq<Frame<Header>>)
    ensures a + ([f] + b) == a + [f] + b
  {
  }

  /** The loop with `data` advanced past each chunk it sends. It returns the length
      of its input. */
  method SendChunks(id: uint32, input: Bytes, limit: nat) returns (sent: seq<Frame<Header>>, written: nat)
    requires limit > 0
    ensures sent == DataFrames(id, Chunks(input, limit))
    ensures written == |input|
  {
    hide DataFrames, Chunks;
    var data := input;
    sent := [];
    written := 0;
    ghost var whole := Frames(id, input, limit);
    while |data| > limit
      invariant written + |data| == |input|
      invariant sent + Frames(id, data, limit) == whole
      decreases |data|
    {
      hide Frames;
      FramesFirst(id, data, limit);
      Append(sent, Data(0, id, data[..limit]), Frames(id, data[limit..], limit));
      sent := sent + [Data(0, id, data[..limit])];
      data := data[limit..];
      written := written + limit;
    }
    FramesFirst(id, data, limit);
    if data == [] {
      assert sent + [] == sent;
      return;
    }
    sent := sent + [Data(0, id, data)];
    written := written + |data|;
  }

  // ---------------------------------------------------------- as it is written

  /** The variables of the loop as the source has it: `data` stays as it is. */
  datatype Loop = Loop(data: Bytes, written: nat, sent: seq<Bytes>)

  predicate Guard(l: Loop) {
    |l.data| > MAX_DATA_SIZE
  }

  function Turn(l: Loop): Loop {
    if Guard(l) then Loop(l.data, l.written + MAX_DATA_SIZE, l.sent + [l.data[..MAX_DATA_SIZE]]) else l
  }

  function Turns(l: Loop, n: nat): Loop {
    if n == 0 then l else Turn(Turns(l, n - 1))
  }

  lemma {:induction false} TurnsKeepData(l: Loop, n: nat)
    ensures Turns(l, n).data == l.data
    ensures Guard(l) ==> |Turns(l, n).sent| == |l.sent| + n
    ensures Guard(l) ==> forall i :: |l.sent| <= i < |l.sent| + n ==> Turns(l, n).sent[i] == l.data[..MAX_DATA_SIZE]
  {
    if n > 0 {
      TurnsKeepData(l, n - 1);
    }
  }

  /** As written, the loop ends exactly for inputs of at most MAX_DATA_SIZE bytes, and
      then without a turn; for any other it sends its first chunk for ever. */
  lemma LoopEndsExactly(data: Bytes)
    ensures (exists n :: !Guard(Turns(Loop(data, 0, []), n))) <==> |data| <= MAX_DATA_SIZE
    ensures |data| <= MAX_DATA_SIZE ==> Chunks(data, MAX_DATA_SIZE) == if data == [] then [] else [data]
    ensures |data| > MAX_DATA_SIZE ==> forall n: nat :: |Turns(Loop(data, 0, []), n).sent| == n
  {
    var l := Loop(data, 0, []);
    forall n: nat ensures Turns(l, n).data == data && (Guard(l) ==> |Turns(l, n).sent| == n) {
      TurnsKeepData(l, n);
    }
    if |data| <= MAX_DATA_SIZE {
      assert !Guard(Turns(l, 0));
    }
  }
}
