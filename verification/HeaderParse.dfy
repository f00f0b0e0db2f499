// The bounded parser of Decompress, and the round trip of the name/value block.

module HeaderParse {
  import opened Protocol
  import opened Wire
  import opened HeaderBlock

  const HEADER_BOUND := MAX_FRAME_SIZE - 12

  /** A name and its values as the block holds them, and as headers.Add gets them. */
  type Pair = (Bytes, Bytes)
  type Item = (Bytes, seq<Bytes>)

  datatype FieldResult = Field(bytes: Bytes, rest: Bytes) | NoLength | TooLong | Short

  /** One length and as many bytes, of which `bounds` are allowed. */
  function TakeField(bs: Bytes, bounds: int): (r: FieldResult)
    ensures r.Field? ==> |r.bytes| <= bounds && |bs| == 4 + |r.bytes| + |r.rest|
  {
    if |bs| < 4 then NoLength
    else
      var n := FromU32(bs[..4]);
      if n > bounds then TooLong
      else if |bs| < 4 + n then Short
      else Field(bs[4..4 + n], bs[4 + n..])
  }

  datatype EntryResult = Got(pair: Pair, rest: Bytes) | Bad(panics: bool)

  /** The next entry of `bs`, with `bounds` bytes of names and values allowed. A panic
      is what the source does when the bytes end inside a name or before a value
      length; every other malformed entry is an error. */
  function ParseOne(bs: Bytes, bounds: int): (r: EntryResult)
    ensures r.Got? ==> |r.pair.0| + |r.pair.1| <= bounds
    ensures r.Got? ==> |bs| == 8 + |r.pair.0| + |r.pair.1| + |r.rest|
  {
    match TakeField(bs, bounds)
    case NoLength => Bad(false)
    case TooLong => Bad(false)
    case Short => Bad(true)
    case Field(name, tail) =>
      match TakeField(tail, bounds - |name|)
      case NoLength => Bad(true)
      case TooLong => Bad(false)
      case Short => Bad(false)
      case Field(values, rest) => Got((name, values), rest)
  }

  function Size(p: Pair): nat {
    |p.0| + |p.1|
  }

  datatype PairsResult = Pairs(pairs: seq<Pair>, rest: Bytes) | NoPairs(panics: bool)

  function Prepend(pair: Pair, r: PairsResult): PairsResult {
    if r.Pairs? then Pairs([pair] + r.pairs, r.rest) else r
  }

  /** `num` entries from `bs`. */
  function ParsePairs(num: nat, bs: Bytes, bounds: int): (r: PairsResult)
    decreases num
  {
    if num == 0 then Pairs([], bs)
    else
      match ParseOne(bs, bounds)
      case Bad(panics) => NoPairs(panics)
      case Got(pair, rest) => Prepend(pair, ParsePairs(num - 1, rest, bounds - Size(pair)))
  }

  lemma PairsStep(num: nat, bs: Bytes, bounds: int, pair: Pair, rest: Bytes)
    requires num > 0 && ParseOne(bs, bounds) == Got(pair, rest)
    ensures ParsePairs(num, bs, bounds) == Prepend(pair, ParsePairs(num - 1, rest, bounds - Size(pair)))
  {
  }

  /** headers.Add of a canonical name, for each of the values in turn. */
  function AddAll(h: Header, item: Item): Header {
    h[item.0 := (if item.0 in h then h[item.0] else []) + item.1]
  }

  function ItemOf(p: Pair): Item {
    (Canonical(p.0), Split(p.1))
  }

  function Items(pairs: seq<Pair>): (r: seq<Item>)
    ensures |r| == |pairs|
  {
    if pairs == [] then [] else [ItemOf(pairs[0])] + Items(pairs[1..])
  }

  function Merge(h: Header, items: seq<Item>): Header
    decreases items
  {
    if items == [] then h else Merge(AddAll(h, items[0]), items[1..])
  }

  datatype ParseResult = Parsed(header: Header, rest: Bytes) | Failed | Panicked

  function Parse(bs: Bytes): (r: ParseResult) {
    if |bs| < 4 then Failed
    else
      match ParsePairs(FromU32(bs[..4]), bs[4..], HEADER_BOUND)
      case NoPairs(panics) => if panics then Panicked else Failed
      case Pairs(pairs, rest) => Parsed(Merge(map[], Items(pairs)), rest)
  }

  /** Whether the rest of the parsing loop, from its current variables, ends in `r`. */
  ghost predicate LoopEndsIn(r: ParseResult, num: nat, left: Bytes, bounds: int, headers: Header) {
    match ParsePairs(num, left, bounds)
    case NoPairs(panics) => r == if panics then Panicked else Failed
    case Pairs(pairs, rest) => r == Parsed(Merge(headers, Items(pairs)), rest)
  }

  lemma LoopStep(r: ParseResult, num: nat, left: Bytes, bounds: int, headers: Header, pair: Pair, rest: Bytes)
    requires num > 0 && ParseOne(left, bounds) == Got(pair, rest)
    ensures LoopEndsIn(r, num, left, bounds, headers)
       <==> LoopEndsIn(r, num - 1, rest, bounds - Size(pair), AddAll(headers, ItemOf(pair)))
  {
    hide ParseOne, ParsePairs, ItemOf, AddAll;
    PairsStep(num, left, bounds, pair, rest);
    match ParsePairs(num - 1, rest, bounds - Size(pair))
    case NoPairs(_) =>
    case Pairs(pairs, _) => MergeFirst(headers, pair, pairs);
  }

  lemma MergeFirst(h: Header, pair: Pair, pairs: seq<Pair>)
    ensures Merge(h, Items([pair] + pairs)) == Merge(AddAll(h, ItemOf(pair)), Items(pairs))
  {
    hide ItemOf, AddAll;
    assert ([pair] + pairs)[1..] == pairs;
    assert Items([pair] + pairs) == [ItemOf(pair)] + Items(pairs);
    assert ([ItemOf(pair)] + Items(pairs))[1..] == Items(pairs);
  }

  /** Reads a length, checks it, and reads as many bytes. */
  method ReadField(bs: Bytes, bounds: int) returns (r: FieldResult)
    ensures r == TakeField(bs, bounds)
  {
    if |bs| < 4 { return NoLength; }
    var length := FromU32(bs[..4]);
    if length > bounds { return TooLong; }
    if |bs| < 4 + length { return Short; }
    r := Field(bs[4..4 + length], bs[4 + length..]);
  }

  /** One turn of the parsing loop: the name, then the values. */
  method ReadEntry(bs: Bytes, bounds: int) returns (r: EntryResult)
    ensures r == ParseOne(bs, bounds)
  {
    var name := ReadField(bs, bounds);
    if !name.Field? {
      return Bad(name.Short?);
    }
    var values := ReadField(name.rest, bounds - |name.bytes|);
    if !values.Field? {
      return Bad(values.NoLength?);
    }
    r := Got((name.bytes, values.bytes), values.rest);
  }

  /** The parsing loop of Decompress over the bytes the decompressor delivers. */
  method ParseBlock(bs: Bytes) returns (r: ParseResult)
    ensures r == Parse(bs)
  {
    if |bs| < 4 { return Failed; }
    var num := FromU32(bs[..4]);
    var left := bs[4..];
    var headers: Header := map[];
    var bounds := HEADER_BOUND;
    var i := 0;
    while i < num
      invariant 0 <= i <= num
      invariant LoopEndsIn(Parse(bs), num - i, left, bounds, headers)
    {
      var entry := ReadEntry(left, bounds);
      if entry.Bad? {
        return if entry.panics then Panicked else Failed;
      }
      LoopStep(Parse(bs), num - i, left, bounds, headers, entry.pair, entry.rest);
      left := entry.rest;
      bounds := bounds - Size(entry.pair);
      headers := AddAll(headers, ItemOf(entry.pair));
      i := i + 1;
    }
    r := Parsed(headers, left);
  }

  // ------------------------------------------------- parsing what was written

  /** The bytes of names and values that the decoder counts against its bound. */
  function Carry(h: Header, order: seq<Bytes>): (n: int)
    requires forall name :: name in order ==> name in h
  {
    if order == [] then 0 else |order[0]| + Lens(h[order[0]]) + Carry(h, order[1..])
  }

  /** The pairs the block of a header set holds. */
  function Written(h: Header, order: seq<Bytes>): (r: seq<Pair>)
    requires forall name :: name in order ==> name in h
    ensures |r| == |order|
  {
    if order == [] then []
    else [(Lower(order[0]), Join(h[order[0]]))] + Written(h, order[1..])
  }

  /** Every length the block states fits the 32-bit field it is stated in. */
  ghost predicate Fits(h: Header) {
    |h| < 0x1_0000_0000 &&
    forall name :: name in h ==> |name| < 0x1_0000_0000 && Lens(h[name]) < 0x1_0000_0000
  }

  lemma BE32Fits(n: int)
    requires 0 <= n < 0x1_0000_0000
    ensures FromU32(BE32(n)) == n
  {
    U32RoundTrip(n);
    assert BE32(n) == U32(n);
  }

  lemma TakeWritten(length: Bytes, bytes: Bytes, rest: Bytes, bounds: int)
    requires |length| == 4 && FromU32(length) == |bytes|
    ensures TakeField(length + bytes + rest, bounds) == if |bytes| > bounds then TooLong else Field(bytes, rest)
  {
    var bs := length + bytes + rest;
    assert bs[..4] == length && bs[4..4 + |bytes|] == bytes && bs[4 + |bytes|..] == rest;
  }

  /** The length -1 of an empty list reads as four gigabytes. */
  lemma TakeUnlisted(rest: Bytes, bounds: int)
    requires bounds <= HEADER_BOUND
    ensures TakeField(BE32(-1) + rest, bounds) == TooLong
  {
    assert BE32(-1) == [255, 255, 255, 255];
    assert (BE32(-1) + rest)[..4] == BE32(-1);
  }

  /** One entry is read back whole, or refused for its bound or its empty list. */
  lemma ParseEntry(name: Bytes, values: seq<Bytes>, rest: Bytes, bounds: int)
    requires 0 <= bounds <= HEADER_BOUND
    requires |name| < 0x1_0000_0000 && Lens(values) < 0x1_0000_0000
    ensures ParseOne(Entry(name, values) + rest, bounds)
         == if values == [] || |name| + Lens(values) > bounds then Bad(false)
            else Got((Lower(name), Join(values)), rest)
    ensures values != [] ==> |Join(values)| == Lens(values)
  {
    var tail := BE32(Lens(values)) + Join(values) + rest;
    assert Entry(name, values) + rest == BE32(|name|) + Lower(name) + tail;
    BE32Fits(|name|);
    TakeWritten(BE32(|name|), Lower(name), tail, bounds);
    JoinLength(values);
    if values == [] {
      assert tail == BE32(-1) + rest;
      TakeUnlisted(rest, bounds - |name|);
    } else {
      BE32Fits(Lens(values));
      TakeWritten(BE32(Lens(values)), Join(values), rest, bounds - |name|);
    }
  }

  ghost predicate Named(h: Header, order: seq<Bytes>) {
    forall name :: name in order ==>
      name in h && |name| < 0x1_0000_0000 && Lens(h[name]) < 0x1_0000_0000
  }

  /** No list is empty. */
  predicate Listed(h: Header, order: seq<Bytes>)
    requires forall name :: name in order ==> name in h
  {
    order == [] || (h[order[0]] != [] && Listed(h, order[1..]))
  }

  lemma {:induction false} ListedMeans(h: Header, order: seq<Bytes>)
    requires forall name :: name in order ==> name in h
    ensures Listed(h, order) <==> forall name :: name in order ==> h[name] != []
  {
    if order != [] {
      ListedMeans(h, order[1..]);
      assert order[0] in order;
    }
  }

  lemma {:induction false} CarryIsPositive(h: Header, order: seq<Bytes>)
    requires forall name :: name in order ==> name in h
    requires Listed(h, order)
    ensures Carry(h, order) >= 0
  {
    if order != [] {
      CarryIsPositive(h, order[1..]);
    }
  }

  /** The first entry of several: what its reading contributes to the whole. */
  lemma ParseFirst(name: Bytes, values: seq<Bytes>, others: Bytes, num: nat, bounds: int)
    requires 0 <= bounds <= HEADER_BOUND && num > 0
    requires |name| < 0x1_0000_0000 && Lens(values) < 0x1_0000_0000
    ensures ParsePairs(num, Entry(name, values) + others, bounds)
         == if values == [] || |name| + Lens(values) > bounds then NoPairs(false)
            else Prepend((Lower(name), Join(values)), ParsePairs(num - 1, others, bounds - |name| - Lens(values)))
  {
    ParseEntry(name, values, others, bounds);
    if values != [] && |name| + Lens(values) <= bounds {
      PairsStep(num, Entry(name, values) + others, bounds, (Lower(name), Join(values)), others);
    }
  }

  /** Parsing the entries of a header set, characterised for every input: the running
      checks pass exactly when no list is empty and the total fits the bound. */
  lemma {:induction false} ParseOfEntries(h: Header, order: seq<Bytes>, rest: Bytes, bounds: int)
    requires Named(h, order)
    requires 0 <= bounds <= HEADER_BOUND
    ensures ParsePairs(|order|, Entries(h, order) + rest, bounds)
         == if Listed(h, order) && Carry(h, order) <= bounds then Pairs(Written(h, order), rest)
            else NoPairs(false)
  {
    hide ParseOne, Entry, Lower, Join, Lens;
    if order == [] {
      assert Entries(h, order) + rest == rest;
    } else {
      var name, values, others := order[0], h[order[0]], order[1..];
      Regroup(Entry(name, values), Entries(h, others), rest);
      ParseFirst(name, values, Entries(h, others) + rest, |order|, bounds);
      assert name in order;
      if values != [] && |name| + Lens(values) <= bounds {
        ParseOfEntries(h, others, rest, bounds - |name| - Lens(values));
      } else if Listed(h, order) {
        CarryIsPositive(h, others);
      }
    }
  }

  // -------------------------------------------------- what the decoder merges

  lemma {:induction false} MergeAbsent(acc: Header, items: seq<Item>, key: Bytes)
    requires forall i :: 0 <= i < |items| ==> items[i].0 != key
    ensures key in Merge(acc, items) <==> key in acc
    ensures key in acc ==> Merge(acc, items)[key] == acc[key]
    decreases items
  {
    if items != [] {
      MergeAbsent(AddAll(acc, items[0]), items[1..], key);
    }
  }

  lemma {:induction false} MergePresent(acc: Header, items: seq<Item>, i: nat)
    requires i < |items| && items[i].0 !in acc
    requires forall j :: 0 <= j < |items| && j != i ==> items[j].0 != items[i].0
    ensures items[i].0 in Merge(acc, items) && Merge(acc, items)[items[i].0] == items[i].1
    decreases items
  {
    var next := AddAll(acc, items[0]);
    if i == 0 {
      assert [] + items[0].1 == items[0].1;
      MergeAbsent(next, items[1..], items[0].0);
    } else {
      MergePresent(next, items[1..], i - 1);
    }
  }

  lemma {:induction false} MergeKeys(acc: Header, items: seq<Item>, key: Bytes)
    requires key in Merge(acc, items)
    ensures key in acc || exists i :: 0 <= i < |items| && items[i].0 == key
    decreases items
  {
    if items != [] {
      MergeKeys(AddAll(acc, items[0]), items[1..], key);
      if i :| 0 <= i < |items| - 1 && items[1..][i].0 == key {
        assert items[i + 1].0 == key;
      }
    }
  }

  ghost predicate Returns(h: Header) {
    forall name :: name in h ==> Returned(name) == name && Plain(h[name])
  }

  /** The header set with every list joined and split again. */
  function Resplit(h: Header): Header {
    map name | name in h :: Split(Join(h[name]))
  }

  lemma {:induction false} ItemsReturned(h: Header, order: seq<Bytes>, i: nat)
    requires i < |order| && forall name :: name in order ==> name in h
    ensures order[i] in h
    ensures Items(Written(h, order))[i] == (Returned(order[i]), Split(Join(h[order[i]])))
  {
    assert order[i] in order;
    var pair := (Lower(order[0]), Join(h[order[0]]));
    assert Items([pair] + Written(h, order[1..])) == [ItemOf(pair)] + Items(Written(h, order[1..])) by {
      assert ([pair] + Written(h, order[1..]))[1..] == Written(h, order[1..]);
    }
    if i > 0 {
      ItemsReturned(h, order[1..], i - 1);
    }
  }

  lemma MergedHas(h: Header, order: seq<Bytes>, i: nat)
    requires i < |order| && Order(order, h) && forall name :: name in h ==> Returned(name) == name
    ensures var m := Merge(map[], Items(Written(h, order)));
      order[i] in m && order[i] in h && m[order[i]] == Split(Join(h[order[i]]))
  {
    var items := Items(Written(h, order));
    forall j | 0 <= j < |order| ensures items[j].0 == order[j] {
      ItemsReturned(h, order, j);
    }
    ItemsReturned(h, order, i);
    MergePresent(map[], items, i);
  }

  lemma MergedAt(h: Header, order: seq<Bytes>, name: Bytes)
    requires Order(order, h) && forall name :: name in h ==> Returned(name) == name
    ensures var m := Merge(map[], Items(Written(h, order)));
      (name in m <==> name in h) && (name in h ==> m[name] == Split(Join(h[name])))
  {
    var items := Items(Written(h, order));
    if name in h {
      var i :| 0 <= i < |order| && order[i] == name;
      MergedHas(h, order, i);
    } else if name in Merge(map[], items) {
      MergeKeys(map[], items, name);
      var i :| 0 <= i < |order| && items[i].0 == name;
      ItemsReturned(h, order, i);
    }
  }

  lemma SameMap(m: Header, n: Header)
    requires forall name :: name in m <==> name in n
    requires forall name :: name in m ==> m[name] == n[name]
    ensures m == n
  {
  }

  lemma MergedBack(h: Header, order: seq<Bytes>)
    requires Order(order, h) && forall name :: name in h ==> Returned(name) == name
    ensures Merge(map[], Items(Written(h, order))) == Resplit(h)
  {
    var m := Merge(map[], Items(Written(h, order)));
    forall name ensures (name in m <==> name in h) && (name in h ==> m[name] == Split(Join(h[name]))) {
      MergedAt(h, order, name);
    }
    SameMap(m, Resplit(h));
  }

  lemma MergedNamesReturn(h: Header, order: seq<Bytes>)
    requires Order(order, h) && Merge(map[], Items(Written(h, order))) == h
    ensures forall name :: name in h ==> Returned(name) == name
  {
    forall name | name in h ensures Returned(name) == name {
      var items := Items(Written(h, order));
      MergeKeys(map[], items, name);
      var i :| 0 <= i < |items| && items[i].0 == name;
      ItemsReturned(h, order, i);
      ReturnedIsStable(order[i]);
    }
  }

  lemma ResplitExactly(h: Header)
    ensures Resplit(h) == h <==> forall name :: name in h ==> Plain(h[name])
  {
    forall name | name in h ensures Resplit(h)[name] == h[name] <==> Plain(h[name]) {
      SplitInvertsJoin(h[name]);
    }
  }

  /** What the decoder merges is the original exactly when every name returns
      unchanged and every list is non-empty and NUL-free. */
  lemma MergedExactly(h: Header, order: seq<Bytes>)
    requires Order(order, h)
    ensures Merge(map[], Items(Written(h, order))) == h <==> Returns(h)
  {
    ResplitExactly(h);
    if Merge(map[], Items(Written(h, order))) == h {
      MergedNamesReturn(h, order);
      MergedBack(h, order);
    } else if Returns(h) {
      MergedBack(h, order);
    }
  }

  // -------------------------------------------------------------- round trip

  lemma {:induction false} NamesCount(h: Header, order: seq<Bytes>)
    requires forall name :: name in order ==> name in h && h[name] != []
    requires Distinct(order)
    ensures |order| - (if [] in order then 1 else 0) <= Carry(h, order)
    ensures forall name :: name in order ==> |name| + Lens(h[name]) <= Carry(h, order)
  {
    if order != [] {
      DistinctRemove(order, 0);
      assert order[1..] == Without(order, 0);
      assert order[0] in order;
      NamesCount(h, order[1..]);
      ListedMeans(h, order[1..]);
      CarryIsPositive(h, order[1..]);
    }
  }

  lemma ParseCount(n: nat, body: Bytes)
    requires n < 0x1_0000_0000
    ensures (BE32(n) + body)[4..] == body && FromU32((BE32(n) + body)[..4]) == n
  {
    BE32Fits(n);
    assert (BE32(n) + body)[..4] == BE32(n);
  }

  lemma ParseWhole(h: Header, order: seq<Bytes>, rest: Bytes)
    requires Order(order, h) && Fits(h)
    ensures Parse(Block(h, order) + rest)
         == if (forall name :: name in h ==> h[name] != []) && Carry(h, order) <= HEADER_BOUND
            then Parsed(Merge(map[], Items(Written(h, order))), rest) else Failed
  {
    OrderLength(h, order);
    Regroup(BE32(|h|), Entries(h, order), rest);
    ParseCount(|h|, Entries(h, order) + rest);
    ParseOfEntries(h, order, rest, HEADER_BOUND);
    ListedMeans(h, order);
  }

  /** For every order of the keys: a header set whose names return unchanged, whose
      lists are non-empty and NUL-free and whose total fits, comes back as it was. */
  lemma BlockRoundTrip(h: Header, order: seq<Bytes>, rest: Bytes)
    requires Order(order, h) && Returns(h) && Carry(h, order) <= HEADER_BOUND
    ensures Parse(Block(h, order) + rest) == Parsed(h, rest)
  {
    NamesCount(h, order);
    OrderLength(h, order);
    ParseWhole(h, order, rest);
    MergedExactly(h, order);
  }

  /** And only such a header set does. */
  lemma BlockRoundTripExactly(h: Header, order: seq<Bytes>)
    requires Order(order, h) && Fits(h)
    ensures Parse(Block(h, order)) == Parsed(h, []) <==> Returns(h) && Carry(h, order) <= HEADER_BOUND
  {
    assert Block(h, order) + [] == Block(h, order);
    ParseWhole(h, order, []);
    MergedExactly(h, order);
    assert forall name :: name in h && Plain(h[name]) ==> h[name] != [];
  }

  // ------------------------------------------------------------------ bounds

  function Total(pairs: seq<Pair>): (n: nat) {
    if pairs == [] then 0 else Size(pairs[0]) + Total(pairs[1..])
  }

  lemma TotalFirst(pairs: seq<Pair>)
    requires pairs != []
    ensures Total(pairs) == Size(pairs[0]) + Total(pairs[1..])
  {
  }

  /** One pair as a block holds it, whatever wrote the block. */
  function FramedPair(pair: Pair): (bs: Bytes) {
    BE32(|pair.0|) + pair.0 + (BE32(|pair.1|) + pair.1)
  }

  function Framed(pairs: seq<Pair>): (bs: Bytes) {
    if pairs == [] then [] else FramedPair(pairs[0]) + Framed(pairs[1..])
  }

  /** Lengths that fit their fields. */
  ghost predicate Framable(pairs: seq<Pair>) {
    forall i :: 0 <= i < |pairs| ==> |pairs[i].0| < 0x1_0000_0000 && |pairs[i].1| < 0x1_0000_0000
  }

  /** What a field takes is its length and as many bytes. */
  lemma FieldIsFramed(bs: Bytes, bounds: int)
    ensures var r := TakeField(bs, bounds);
      r.Field? ==> |r.bytes| < 0x1_0000_0000 && bs == BE32(|r.bytes|) + r.bytes + r.rest
  {
    if TakeField(bs, bounds).Field? {
      var n := FromU32(bs[..4]);
      FromU32RoundTrip(bs[..4]);
      assert BE32(n) == U32(n);
      hide FromU32, U32, BE32;
      assert bs == bs[..4] + bs[4..4 + n] + bs[4 + n..];
    }
  }

  lemma OneIsFramed(bs: Bytes, bounds: int, pair: Pair, rest: Bytes)
    requires ParseOne(bs, bounds) == Got(pair, rest)
    ensures Size(pair) <= bounds && Framable([pair]) && bs == FramedPair(pair) + rest
  {
    hide TakeField, BE32;
    FieldIsFramed(bs, bounds);
    var tail := TakeField(bs, bounds).rest;
    FieldIsFramed(tail, bounds - |pair.0|);
    assert BE32(|pair.0|) + pair.0 + (BE32(|pair.1|) + pair.1 + rest)
        == BE32(|pair.0|) + pair.0 + (BE32(|pair.1|) + pair.1) + rest;
  }

  /** One framed pair is read back, or refused because it is over the bound. */
  lemma FramedIsRead(pair: Pair, rest: Bytes, bounds: int)
    requires Framable([pair]) && bounds >= 0
    ensures ParseOne(FramedPair(pair) + rest, bounds) == if Size(pair) <= bounds then Got(pair, rest) else Bad(false)
  {
    hide TakeField, BE32;
    assert |[pair][0].0| < 0x1_0000_0000 && |[pair][0].1| < 0x1_0000_0000;
    BE32Fits(|pair.0|);
    BE32Fits(|pair.1|);
    var tail := BE32(|pair.1|) + pair.1 + rest;
    assert FramedPair(pair) + rest == BE32(|pair.0|) + pair.0 + tail;
    TakeWritten(BE32(|pair.0|), pair.0, tail, bounds);
    TakeWritten(BE32(|pair.1|), pair.1, rest, bounds - |pair.0|);
  }

  /** Whatever the bytes: those consumed are the framing of the pairs accepted, and the
      names and values of these never exceed the bound. */
  lemma {:induction false} DecodeStaysInBounds(num: nat, bs: Bytes, bounds: int, pairs: seq<Pair>, rest: Bytes)
    requires ParsePairs(num, bs, bounds) == Pairs(pairs, rest) && bounds >= 0
    ensures |pairs| == num && Total(pairs) <= bounds
    ensures Framable(pairs) && bs == Framed(pairs) + rest
    decreases num
  {
    hide ParseOne, FramedPair;
    if num == 0 {
      assert Framed([]) + bs == bs;
    } else {
      var Got(pair, left) := ParseOne(bs, bounds);
      PairsStep(num, bs, bounds, pair, left);
      OneIsFramed(bs, bounds, pair, left);
      var others := ParsePairs(num - 1, left, bounds - Size(pair)).pairs;
      DecodeStaysInBounds(num - 1, left, bounds - Size(pair), others, rest);
      assert pairs[0] == pair && pairs[1..] == others;
      TotalFirst(pairs);
      FramableCons(pair, others);
      Regroup(FramedPair(pair), Framed(others), rest);
    }
  }

  lemma FramableCons(pair: Pair, others: seq<Pair>)
    ensures Framable([pair] + others) <==> Framable([pair]) && Framable(others)
  {
    assert Framable([pair] + others) ==> Framable(others) by {
      if Framable([pair] + others) {
        forall i | 0 <= i < |others|
          ensures |others[i].0| < 0x1_0000_0000 && |others[i].1| < 0x1_0000_0000
        {
          assert others[i] == ([pair] + others)[i + 1];
        }
      }
    }
    assert Framable([pair] + others) ==> Framable([pair]) by {
      assert ([pair] + others)[0] == pair;
    }
  }

  /** And the running checks refuse nothing else: for any pairs in a block, whoever wrote
      them, they pass exactly when the total is within the bound. */
  lemma {:induction false} ChecksPassExactly(pairs: seq<Pair>, rest: Bytes, bounds: int)
    requires Framable(pairs) && bounds >= 0
    ensures ParsePairs(|pairs|, Framed(pairs) + rest, bounds)
         == if Total(pairs) <= bounds then Pairs(pairs, rest) else NoPairs(false)
    decreases pairs
  {
    hide ParseOne, FramedPair;
    if pairs == [] {
      assert Framed([]) + rest == rest;
    } else {
      var pair, others := pairs[0], pairs[1..];
      var left := Framed(others) + rest;
      assert pairs == [pair] + others;
      FramableCons(pair, others);
      TotalFirst(pairs);
      Regroup(FramedPair(pair), Framed(others), rest);
      FramedIsRead(pair, left, bounds);
      if Size(pair) <= bounds {
        PairsStep(|pairs|, FramedPair(pair) + left, bounds, pair, left);
        ChecksPassExactly(others, rest, bounds - Size(pair));
      }
    }
  }

  // ------------------------------------------------------------------ malformed blocks

  /** What begins with no entry, with `bounds` bytes allowed: the end or too great a length
      in place of a name, the end inside a name or in place of the second length, too great
      a second length, or the end inside the values. */
  datatype Malformed = NoName | LongName | CutName | NoValues | LongValues | CutValues

  ghost predicate Begins(bs: Bytes, bounds: int, m: Malformed) {
    if |bs| < 4 then m == NoName
    else
      var n := Big(bs[..4]);
      if n > bounds then m == LongName
      else if n > |bs| - 4 then m == CutName
      else
        var tail := bs[4 + n..];
        if |tail| < 4 then m == NoValues
        else if Big(tail[..4]) > bounds - n then m == LongValues
        else Big(tail[..4]) > |tail| - 4 && m == CutValues
  }

  lemma BeginsBadly(bs: Bytes, bounds: int, m: Malformed)
    requires Begins(bs, bounds, m)
    ensures ParseOne(bs, bounds) == Bad(m.CutName? || m.NoValues?)
  {
    if |bs| >= 4 {
      BigFour(bs[..4]);
      var n := Big(bs[..4]);
      if n <= bounds && n <= |bs| - 4 {
        var tail := bs[4 + n..];
        if |tail| >= 4 {
          BigFour(tail[..4]);
        }
      }
    }
    hide Big, FromU32;
  }

  /** A block of which the first pairs are well-formed and the next is not: a panic exactly
      if the bytes end inside a name or where the length of its values should be, and an
      error otherwise. */
  lemma {:induction false} StopsExactly(pairs: seq<Pair>, num: nat, rest: Bytes, bounds: int, m: Malformed)
    requires Framable(pairs) && |pairs| < num && Total(pairs) <= bounds
    requires Begins(rest, bounds - Total(pairs), m)
    ensures ParsePairs(num, Framed(pairs) + rest, bounds) == NoPairs(m.CutName? || m.NoValues?)
    decreases pairs
  {
    hide ParseOne, FramedPair, Begins;
    if pairs == [] {
      assert Framed([]) + rest == rest;
      BeginsBadly(rest, bounds, m);
    } else {
      var pair, others := pairs[0], pairs[1..];
      var left := Framed(others) + rest;
      assert pairs == [pair] + others;
      FramableCons(pair, others);
      TotalFirst(pairs);
      Regroup(FramedPair(pair), Framed(others), rest);
      FramedIsRead(pair, left, bounds);
      PairsStep(num, FramedPair(pair) + left, bounds, pair, left);
      StopsExactly(others, num - 1, rest, bounds - Size(pair), m);
    }
  }

  // ------------------------------------------------------------------ what is gathered

  /** The values that a block gives a name: those of all its pairs with the name, in their
      order, each split at its NULs. */
  function Gathered(pairs: seq<Pair>, name: Bytes): (values: seq<Bytes>) {
    if pairs == [] then []
    else (if Canonical(pairs[0].0) == name then Split(pairs[0].1) else []) + Gathered(pairs[1..], name)
  }

  lemma AddGathers(h: Header, pair: Pair, name: Bytes)
    ensures var g := AddAll(h, ItemOf(pair));
      && (name in g <==> name in h || Canonical(pair.0) == name)
      && (name in g ==>
            g[name] == (if name in h then h[name] else []) + if Canonical(pair.0) == name then Split(pair.1) else [])
  {
    hide Canonical, Split;
    if name in h {
      assert h[name] + [] == h[name];
    }
  }

  lemma {:induction false} MergeGathers(h: Header, pairs: seq<Pair>, name: Bytes)
    ensures var g := Merge(h, Items(pairs));
      && (name in g <==> name in h || exists i :: 0 <= i < |pairs| && Canonical(pairs[i].0) == name)
      && (name in g ==> g[name] == (if name in h then h[name] else []) + Gathered(pairs, name))
    decreases pairs
  {
    hide Canonical, Split, AddAll, ItemOf;
    var had := if name in h then h[name] else [];
    if pairs == [] {
      assert had + [] == had;
    } else {
      var next := AddAll(h, ItemOf(pairs[0]));
      var first := if Canonical(pairs[0].0) == name then Split(pairs[0].1) else [];
      AddGathers(h, pairs[0], name);
      assert pairs == [pairs[0]] + pairs[1..];
      MergeFirst(h, pairs[0], pairs[1..]);
      MergeGathers(next, pairs[1..], name);
      assert had + first + Gathered(pairs[1..], name) == had + (first + Gathered(pairs[1..], name));
      if i :| 0 <= i < |pairs| && Canonical(pairs[i].0) == name {
        assert i > 0 ==> pairs[i] == pairs[1..][i - 1];
      }
      if i :| 0 <= i < |pairs[1..]| && Canonical(pairs[1..][i].0) == name {
        assert pairs[i + 1] == pairs[1..][i];
      }
    }
  }

  /** Any block of well-formed pairs, whoever wrote it: it is accepted if and only if its
      names and values are within the bound, and each canonical name then has all the values
      that the block gives it. */
  lemma BlockGathers(pairs: seq<Pair>, rest: Bytes, name: Bytes)
    requires Framable(pairs) && |pairs| < 0x1_0000_0000
    ensures var r := Parse(U32(|pairs|) + (Framed(pairs) + rest));
      if Total(pairs) > 16777203 then r == Failed
      else
        && r.Parsed? && r.rest == rest
        && (name in r.header <==> exists i :: 0 <= i < |pairs| && Canonical(pairs[i].0) == name)
        && (name in r.header ==> r.header[name] == Gathered(pairs, name))
  {
    hide Canonical, FromU32, ParsePairs, Merge, Gathered, Framed, Total;
    var bs := U32(|pairs|) + (Framed(pairs) + rest);
    U32RoundTrip(|pairs|);
    assert bs[..4] == U32(|pairs|) && bs[4..] == Framed(pairs) + rest;
    ChecksPassExactly(pairs, rest, HEADER_BOUND);
    MergeGathers(map[], pairs, name);
    assert [] + Gathered(pairs, name) == Gathered(pairs, name);
  }
}
