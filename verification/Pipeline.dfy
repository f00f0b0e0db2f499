// The outbound and inbound pipelines of conn.go: stateful compression, the frame
// codec, and their inverses on the other side of the connection. zlib (RFC 1950) is
// a parameter: two functions of the plaintext blocks each side has handled so far.

module Pipeline {
  import opened Protocol
  import opened Wire
  import opened HeaderBlock
  import opened HeaderParse
  import opened WireIO

  datatype Zlib = Zlib(
    deflate: (seq<Bytes>, Bytes) -> Bytes,
    inflate: (seq<Bytes>, Bytes) -> Option<Bytes>)

  /** Decompression inverts compression when both sides have the same history. */
  ghost predicate Lawful(z: Zlib) {
    forall history: seq<Bytes>, block: Bytes ::
      z.inflate(history, z.deflate(history, block)) == Some(block)
  }

  predicate HasHeader<H>(f: Frame<H>) {
    f.Request? || f.Response? || f.Headers? || f.Push?
  }

  /** The frame with its name/value block in another form. */
  function WithBlock<G, H>(f: Frame<G>, header: H): (r: Frame<H>)
  {
    match f
    case Request(flags, p, id, _) => Request(flags, p, id, header)
    case Response(flags, p, id, code, subcode, _) => Response(flags, p, id, code, subcode, header)
    case Data(flags, id, data) => Data(flags, id, data)
    case Error(id, status) => Error(id, status)
    case Headers(flags, id, _) => Headers(flags, id, header)
    case Push(flags, p, id, assoc, _) => Push(flags, p, id, assoc, header)
    case Ping(flags, pid) => Ping(flags, pid)
  }

  // ----------------------------------------------------------------- outbound

  /** A frame on its way out, with the order in which Go happens to visit its keys. */
  datatype Outgoing = Outgoing(frame: Frame<Header>, order: seq<Bytes>)

  ghost function PlainBlock(o: Outgoing): Bytes
    requires HasHeader(o.frame) && Order(o.order, Strip(o.frame.header))
  {
    Block(Strip(o.frame.header), o.order)
  }

  /** The order is one of the header set that is left to send. */
  ghost predicate Ordered(o: Outgoing) {
    HasHeader(o.frame) ==> Order(o.order, Strip(o.frame.header))
  }

  /** The frame as Compress leaves it. */
  ghost function Compressed(z: Zlib, history: seq<Bytes>, o: Outgoing): WireFrame
    requires Ordered(o)
  {
    WithBlock(o.frame, if HasHeader(o.frame) then z.deflate(history, PlainBlock(o)) else [])
  }

  ghost function NextHistory(history: seq<Bytes>, o: Outgoing): seq<Bytes>
    requires Ordered(o)
  {
    if HasHeader(o.frame) then history + [PlainBlock(o)] else history
  }

  /** The bytes the send loop writes for a sequence of frames. */
  ghost function Outbound(z: Zlib, history: seq<Bytes>, os: seq<Outgoing>): Bytes
    requires forall i :: 0 <= i < |os| ==> Ordered(os[i])
    decreases os
  {
    if os == [] then []
    else Encode(Compressed(z, history, os[0])) + Outbound(z, NextHistory(history, os[0]), os[1..])
  }

  ghost function FinalHistory(history: seq<Bytes>, os: seq<Outgoing>): seq<Bytes>
    requires forall i :: 0 <= i < |os| ==> Ordered(os[i])
    decreases os
  {
    if os == [] then history else FinalHistory(NextHistory(history, os[0]), os[1..])
  }

  // ------------------------------------------------------------------ inbound

  /** The state of a Decompressor: what it has inflated, and what of it the parser has
      not read yet. */
  datatype Inflater = Inflater(history: seq<Bytes>, pending: Bytes)

  datatype Arrived = Arrived(frame: Frame<Header>, next: Inflater) | Unreadable(panics: bool)

  function Decompressed(z: Zlib, st: Inflater, f: WireFrame): (r: Arrived) {
    if !HasHeader(f) then Arrived(WithBlock(f, map[]), st)
    else
      match z.inflate(st.history, f.header)
      case None => Unreadable(false)
      case Some(plain) =>
        match Parse(st.pending + plain)
        case Failed => Unreadable(false)
        case Panicked => Unreadable(true)
        case Parsed(h, rest) => Arrived(WithBlock(f, h), Inflater(st.history + [plain], rest))
  }

  datatype Inbox = Inbox(frames: seq<Frame<Header>>, final: Inflater)

  /** The frames a reader makes of a byte stream, up to the first it cannot read or
      decompress, and the state its decompressor is then in. */
  function Inbound(z: Zlib, st: Inflater, bs: Bytes): (r: Inbox)
    decreases |bs|
  {
    match Decode(bs)
    case Err(_) => Inbox([], st)
    case Ok(Read(f, n)) =>
      match Decompressed(z, st, f)
      case Unreadable(_) => Inbox([], st)
      case Arrived(frame, next) =>
        var rest := Inbound(z, next, bs[n..]);
        Inbox([frame] + rest.frames, rest.final)
  }

  // --------------------------------------------------------------- round trip

  /** The header set arrives in full: it is one Compress can serialise, one that the
      name/value block returns, and the compressed frame fits its length field. */
  ghost predicate Transportable(z: Zlib, history: seq<Bytes>, o: Outgoing) {
    && Ordered(o)
    && !o.frame.Error? && !o.frame.Ping?
    && (HasHeader(o.frame) ==>
          var h := Strip(o.frame.header);
          Returns(h) && Carry(h, o.order) <= HEADER_BOUND && forall name :: name in h ==> |h[name]| == 1)
    && Sendable(Compressed(z, history, o))
  }

  ghost predicate AllTransportable(z: Zlib, history: seq<Bytes>, os: seq<Outgoing>)
    decreases os
  {
    os == [] ||
    (Transportable(z, history, os[0]) && AllTransportable(z, NextHistory(history, os[0]), os[1..]))
  }

  lemma {:induction false} TransportableOrdered(z: Zlib, history: seq<Bytes>, os: seq<Outgoing>)
    requires AllTransportable(z, history, os)
    ensures forall i :: 0 <= i < |os| ==> Ordered(os[i])
    decreases os
  {
    if os != [] {
      TransportableOrdered(z, NextHistory(history, os[0]), os[1..]);
      forall i | 0 < i < |os| ensures Ordered(os[i]) {
        assert os[i] == os[1..][i - 1];
      }
    }
  }

  /** What a frame arrives as: itself, without the hop-by-hop headers. */
  function Delivered(f: Frame<Header>): Frame<Header> {
    WithBlock(f, if HasHeader(f) then Strip(f.header) else map[])
  }

  function DeliveredAll(os: seq<Outgoing>): (r: seq<Frame<Header>>)
    ensures |r| == |os|
  {
    if os == [] then [] else [Delivered(os[0].frame)] + DeliveredAll(os[1..])
  }

  lemma FrameRoundTrip(z: Zlib, history: seq<Bytes>, o: Outgoing)
    requires Lawful(z) && Transportable(z, history, o)
    ensures Decompressed(z, Inflater(history, []), Compressed(z, history, o))
         == Arrived(Delivered(o.frame), Inflater(NextHistory(history, o), []))
  {
    hide Sendable, Returns, Carry, Block, Parse, Order, Strip;
    if HasHeader(o.frame) {
      var h := Strip(o.frame.header);
      BlockRoundTrip(h, o.order, []);
      assert [] + Block(h, o.order) == Block(h, o.order) + [];
      assert z.inflate(history, z.deflate(history, PlainBlock(o))) == Some(PlainBlock(o));
    }
  }

  /** The canonical names and their values, without the headers of one hop. */
  ghost predicate SameButHops(sent: Header, arrived: Header) {
    forall name :: Canonical(name) == name ==>
      && (name in arrived <==> name in sent && !HopByHop(name))
      && (name in arrived ==> arrived[name] == sent[name])
  }

  /** The other fields of a frame with a header. */
  predicate SameFields(f: Frame<Header>, g: Frame<Header>) {
    match f
    case Request(flags, p, id, _) => g == Request(flags, p, id, if g.Request? then g.header else map[])
    case Response(flags, p, id, code, subcode, _) =>
      g == Response(flags, p, id, code, subcode, if g.Response? then g.header else map[])
    case Headers(flags, id, _) => g == Headers(flags, id, if g.Headers? then g.header else map[])
    case Push(flags, p, id, assoc, _) => g == Push(flags, p, id, assoc, if g.Push? then g.header else map[])
    case _ => g == f
  }

  lemma StripSame(h: Header)
    ensures SameButHops(h, Strip(h))
  {
    hide Strip, Canonical, HopByHop;
    forall name | Canonical(name) == name
      ensures name in Strip(h) <==> name in h && !HopByHop(name)
      ensures name in Strip(h) ==> Strip(h)[name] == h[name]
    {
      StripExactly(h, name);
    }
  }

  lemma DeliveredSame(f: Frame<Header>)
    ensures SameFields(f, Delivered(f)) && HasHeader(f) == HasHeader(Delivered(f))
    ensures HasHeader(f) ==> SameButHops(f.header, Delivered(f).header)
  {
    hide Strip, SameButHops;
    if HasHeader(f) {
      StripSame(f.header);
    }
  }

  /** The trip of a header set: of the canonical names all arrive, with their values, but
      for the four of one hop; and no other field of the frame changes. */
  lemma HeadersArrive(z: Zlib, history: seq<Bytes>, o: Outgoing)
    requires Lawful(z) && Transportable(z, history, o) && HasHeader(o.frame)
    ensures var r := Decompressed(z, Inflater(history, []), Compressed(z, history, o));
      && r.Arrived? && SameFields(o.frame, r.frame)
      && HasHeader(r.frame) && SameButHops(o.frame.header, r.frame.header)
  {
    hide Decompressed, Compressed, Delivered, SameButHops, SameFields;
    FrameRoundTrip(z, history, o);
    DeliveredSame(o.frame);
  }

  /** The whole way: a sequence of frames, compressed in write order and written, is
      read back and decompressed as the same sequence, and the two histories are
      equal when it ends (and so, for each prefix, after every frame). */
  lemma {:induction false} PipelineRoundTrip(z: Zlib, history: seq<Bytes>, os: seq<Outgoing>)
    requires Lawful(z) && AllTransportable(z, history, os)
    ensures forall i :: 0 <= i < |os| ==> Ordered(os[i])
    ensures Inbound(z, Inflater(history, []), Outbound(z, history, os))
         == Inbox(DeliveredAll(os), Inflater(FinalHistory(history, os), []))
    decreases os
  {
    TransportableOrdered(z, history, os);
    if os == [] {
      assert Decode([]).Err?;
    } else {
      var f, next := Compressed(z, history, os[0]), NextHistory(history, os[0]);
      var rest := Outbound(z, next, os[1..]);
      RoundTripExactly(f, rest);
      assert (Encode(f) + rest)[|Encode(f)|..] == rest;
      FrameRoundTrip(z, history, os[0]);
      PipelineRoundTrip(z, next, os[1..]);
    }
  }

  /** When a frame cannot be decompressed, and when the attempt panics. */
  lemma UnreadableExactly(z: Zlib, st: Inflater, f: WireFrame)
    ensures var r := Decompressed(z, st, f);
      && (r.Unreadable? <==>
            HasHeader(f) && (z.inflate(st.history, f.header).None?
                             || !Parse(st.pending + z.inflate(st.history, f.header).value).Parsed?))
      && (r == Unreadable(true) <==>
            HasHeader(f) && z.inflate(st.history, f.header).Some?
            && Parse(st.pending + z.inflate(st.history, f.header).value).Panicked?)
  {
    hide Parse;
  }

  /** The same for every frame of an outbound sequence. */
  lemma AllHeadersArrive(z: Zlib, history: seq<Bytes>, os: seq<Outgoing>, k: nat)
    requires Lawful(z) && AllTransportable(z, history, os) && k < |os|
    ensures forall i :: 0 <= i < |os| ==> Ordered(os[i])
    ensures var fs := Inbound(z, Inflater(history, []), Outbound(z, history, os)).frames;
      && |fs| == |os| && SameFields(os[k].frame, fs[k])
      && (HasHeader(os[k].frame) ==> HasHeader(fs[k]) && SameButHops(os[k].frame.header, fs[k].header))
  {
    hide Inbound, Outbound, Delivered, SameButHops, SameFields, AllTransportable;
    PipelineRoundTrip(z, history, os);
    DeliveredAt(os, k);
    DeliveredSame(os[k].frame);
  }

  lemma {:induction false} DeliveredAt(os: seq<Outgoing>, k: nat)
    requires k < |os|
    ensures DeliveredAll(os)[k] == Delivered(os[k].frame)
  {
    hide Delivered;
    if k > 0 {
      DeliveredAt(os[1..], k - 1);
    }
  }

  // ----------------------------------------------------------------- aliasing

  /** The bytes.Buffer of a Compressor. What Compress returns is a view of it. */
  class SharedBuffer {
    var bytes: Bytes

    constructor ()
      ensures bytes == []
    {
      bytes := [];
    }
  }

  /** A frame in the send loop; `rawHeader` is such a view, once there is one. */
  class OutFrame {
    const out: Outgoing
    var rawHeader: SharedBuffer?

    constructor (out: Outgoing)
      ensures this.out == out && rawHeader == null
    {
      this.out := out;
      rawHeader := null;
    }

    /** The frame WriteTo would write now. */
    function Current(): WireFrame
      requires HasHeader(out.frame) ==> rawHeader != null
      reads this, rawHeader
    {
      WithBlock(out.frame, if HasHeader(out.frame) then rawHeader.bytes else [])
    }
  }

  class Compressor {
    const zlib: Zlib
    const buf: SharedBuffer
    var history: seq<Bytes>

    constructor (zlib: Zlib)
      ensures this.zlib == zlib && history == [] && fresh(buf)
    {
      this.zlib := zlib;
      buf := new SharedBuffer();
      history := [];
    }

    /** Compress: strip, serialise in whatever orders Go picks, deflate into the shared
        buffer. A header with several values overruns the serialiser's buffer. */
    method Compress(h: Header, sizing: seq<Bytes>, filling: seq<Bytes>) returns (view: SharedBuffer?)
      requires Order(sizing, Strip(h)) && Order(filling, Strip(h))
      modifies this, buf
      ensures view == null <==> exists name :: name in Strip(h) && |Strip(h)[name]| > 1
      ensures view != null ==> view == buf
      ensures view != null ==> buf.bytes == zlib.deflate(old(history), Block(Strip(h), filling))
      ensures view != null ==> history == old(history) + [Block(Strip(h), filling)]
    {
      buf.bytes := [];
      var r := Serialise(Strip(h), sizing, filling);
      if r.Overrun? {
        return null;
      }
      buf.bytes := zlib.deflate(history, r.bytes);
      history := history + [r.bytes];
      view := buf;
    }

    /** The Compress methods of the frames. */
    method CompressFrame(f: OutFrame)
      requires Ordered(f.out) && f.rawHeader == null
      requires HasHeader(f.out.frame) ==>
        forall name :: name in Strip(f.out.frame.header) ==> |Strip(f.out.frame.header)[name]| <= 1
      modifies this, buf, f
      ensures HasHeader(f.out.frame) ==> f.rawHeader == buf
      ensures f.Current() == Compressed(zlib, old(history), f.out)
      ensures history == NextHistory(old(history), f.out)
      ensures !HasHeader(f.out.frame) ==> buf.bytes == old(buf.bytes)
    {
      if HasHeader(f.out.frame) {
        var view := Compress(f.out.frame.header, f.out.order, f.out.order);
        f.rawHeader := view;
      }
    }
  }

  /** Why each frame is written before the next Compress: compress two frames first,
      and the first of them has the block of the second. */
  method CompressTwo(c: Compressor, f: OutFrame, g: OutFrame)
    requires f != g && Ordered(f.out) && Ordered(g.out) && f.rawHeader == null && g.rawHeader == null
    requires HasHeader(f.out.frame) && HasHeader(g.out.frame)
    requires forall name :: name in Strip(f.out.frame.header) ==> |Strip(f.out.frame.header)[name]| <= 1
    requires forall name :: name in Strip(g.out.frame.header) ==> |Strip(g.out.frame.header)[name]| <= 1
    modifies c, c.buf, f, g
    ensures f.rawHeader != null
    ensures f.Current()
         == WithBlock(f.out.frame, c.zlib.deflate(NextHistory(old(c.history), f.out), PlainBlock(g.out)))
  {
    hide PlainBlock, Strip, Order;
    c.CompressFrame(f);
    c.CompressFrame(g);
  }

  /** The send loop's work on one frame after another: compress, then write at once.
      The shared buffer never reaches the wire with another frame's block in it. */
  method SendAll(c: Compressor, writer: Writer, os: seq<Outgoing>)
    requires AllTransportable(c.zlib, c.history, os)
    requires forall i :: 0 <= i < |os| ==> Ordered(os[i])
    modifies c, c.buf, writer
    ensures writer.written == old(writer.written) + Outbound(c.zlib, old(c.history), os)
    ensures c.history == FinalHistory(old(c.history), os)
  {
    hide Encode, Block, Strip, Returns, Carry, Order;
    assert os[0..] == os;
    for k := 0 to |os|
      invariant AllTransportable(c.zlib, c.history, os[k..])
      invariant writer.written + Outbound(c.zlib, c.history, os[k..])
             == old(writer.written) + Outbound(c.zlib, old(c.history), os)
      invariant FinalHistory(c.history, os[k..]) == FinalHistory(old(c.history), os)
    {
      assert os[k..][1..] == os[k + 1..] && os[k..][0] == os[k];
      ghost var before, history := writer.written, c.history;
      var f := new OutFrame(os[k]);
      c.CompressFrame(f);
      var frame := WithBlock(f.out.frame, if f.rawHeader == null then [] else f.rawHeader.bytes);
      var r := WriteTo(frame, writer);
      Regroup(before, Encode(Compressed(c.zlib, history, os[k])), Outbound(c.zlib, c.history, os[k + 1..]));
    }
    assert os[|os|..] == [];
  }

  /** The receiving side: frames read and decompressed one after another, from bytes
      that arrive in any fragments. */
  class Decompressor {
    const zlib: Zlib
    var state: Inflater

    constructor (zlib: Zlib)
      ensures this.zlib == zlib && state == Inflater([], [])
    {
      this.zlib := zlib;
      state := Inflater([], []);
    }

    /** The Decompress methods of the frames. */
    method DecompressFrame(f: WireFrame) returns (r: Arrived)
      modifies this
      ensures r == Decompressed(zlib, old(state), f)
      ensures state == if r.Arrived? then r.next else old(state)
    {
      if !HasHeader(f) {
        return Arrived(WithBlock(f, map[]), state);
      }
      var plain := zlib.inflate(state.history, f.header);
      if plain.None? {
        return Unreadable(false);
      }
      var parsed := ParseBlock(state.pending + plain.value);
      match parsed {
        case Failed => r := Unreadable(false);
        case Panicked => r := Unreadable(true);
        case Parsed(h, rest) =>
          state := Inflater(state.history + [plain.value], rest);
          r := Arrived(WithBlock(f, h), state);
      }
    }
  }

  lemma InboundStops(z: Zlib, st: Inflater, bs: Bytes)
    requires Decode(bs).Err? || Decompressed(z, st, Decode(bs).value.frame).Unreadable?
    ensures Inbound(z, st, bs) == Inbox([], st)
  {
    hide Decode, Decompressed;
  }

  lemma InboundGoesOn(z: Zlib, st: Inflater, bs: Bytes, got: seq<Frame<Header>>)
    requires Decode(bs).Ok? && Decompressed(z, st, Decode(bs).value.frame).Arrived?
    ensures var r := Decompressed(z, st, Decode(bs).value.frame);
      var all, rest := Inbound(z, st, bs), Inbound(z, r.next, bs[Decode(bs).value.consumed..]);
      got + all.frames == got + [r.frame] + rest.frames && all.final == rest.final
  {
    hide Decode, Decompressed;
  }

  method ReceiveAll(d: Decompressor, reader: Reader) returns (frames: seq<Frame<Header>>)
    modifies d, reader
    ensures frames == Inbound(d.zlib, old(d.state), old(reader.Contents())).frames
    ensures d.state == Inbound(d.zlib, old(d.state), old(reader.Contents())).final
  {
    hide Decode, Decompressed, Inbound;
    frames := [];
    ghost var whole := Inbound(d.zlib, d.state, reader.Contents());
    while true
      invariant whole == Inbox(frames + Inbound(d.zlib, d.state, reader.Contents()).frames,
                               Inbound(d.zlib, d.state, reader.Contents()).final)
      decreases |reader.Contents()|
    {
      ghost var before, st := reader.Contents(), d.state;
      var f := ReadFrame(reader);
      if f.Err? {
        InboundStops(d.zlib, st, before);
        assert frames + [] == frames;
        return;
      }
      var r := d.DecompressFrame(f.value);
      if r.Unreadable? {
        InboundStops(d.zlib, st, before);
        assert frames + [] == frames;
        return;
      }
      InboundGoesOn(d.zlib, st, before, frames);
      frames := frames + [r.frame];
    }
  }
}
