// The name/value block of compression.go, without zlib: the two-pass serialiser
// over a map that Go iterates in no particular order, and the bounded parser.

module HeaderBlock {
  import opened Protocol
  import opened Wire

  // ------------------------------------------------------------------- names

  predicate UpperCase(b: byte) { 65 <= b <= 90 }

  predicate LowerCase(b: byte) { 97 <= b <= 122 }

  function LowerByte(b: byte): byte {
    if UpperCase(b) then b + 32 else b
  }

  function UpperByte(b: byte): byte {
    if LowerCase(b) then b - 32 else b
  }

  /** strings.ToLower on ASCII. */
  function Lower(name: Bytes): (r: Bytes)
    ensures |r| == |name|
    ensures forall i :: 0 <= i < |name| ==> r[i] == LowerByte(name[i])
  {
    if name == [] then [] else [LowerByte(name[0])] + Lower(name[1..])
  }

  /** The bytes a header field name may hold; a name with any other byte is left
      as it is by http.CanonicalHeaderKey. */
  predicate TokenByte(b: byte) {
    || UpperCase(b) || LowerCase(b) || 48 <= b <= 57
    || b == 33 || 35 <= b <= 39 || b == 42 || b == 43 || b == 45 || b == 46
    || 94 <= b <= 96 || b == 124 || b == 126
  }

  predicate Token(name: Bytes) {
    forall i :: 0 <= i < |name| ==> TokenByte(name[i])
  }

  function Capitalise(name: Bytes, upper: bool): (r: Bytes)
    ensures Lower(r) == Lower(name)
  {
    if name == [] then []
    else
      var b := if upper then UpperByte(name[0]) else LowerByte(name[0]);
      [b] + Capitalise(name[1..], name[0] == 45)
  }

  /** Those are the visible ASCII characters that are no separators (section 2.2 of RFC
      2616). */
  lemma TokenBytes(b: byte)
    ensures TokenByte(b) <==>
      33 <= b <= 126 && b as char !in "()<>@,;:\\\"/[]?={}"
  {
  }

  /** http.CanonicalHeaderKey: upper case at the start and after each hyphen. */
  function Canonical(name: Bytes): Bytes {
    if Token(name) then Capitalise(name, true) else name
  }

  /** The name a header comes back under after a trip through the block. */
  function Returned(name: Bytes): Bytes {
    Canonical(Lower(name))
  }

  lemma ReturnedIsStable(name: Bytes)
    ensures Returned(Returned(name)) == Returned(name)
  {
    assert Lower(Lower(name)) == Lower(name);
    assert Lower(Returned(name)) == Lower(Lower(name));
  }

  lemma {:induction false} CapitaliseFolds(a: Bytes, b: Bytes, upper: bool)
    requires Lower(a) == Lower(b)
    ensures Capitalise(a, upper) == Capitalise(b, upper)
  {
    assert |Lower(a)| == |Lower(b)|;
    if a != [] {
      assert Lower(a)[0] == Lower(b)[0];
      assert Lower(a)[1..] == Lower(a[1..]) && Lower(b)[1..] == Lower(b[1..]);
      CapitaliseFolds(a[1..], b[1..], a[0] == 45);
    }
  }

  /** A canonical name returns as it was when it is a proper field name; any other
      returns as it was only if it has no upper-case letter, like ":path". */
  lemma ReturnedUnchanged(name: Bytes)
    ensures Token(name) ==> (Returned(name) == name <==> Canonical(name) == name)
    ensures !Token(name) ==> (Returned(name) == name <==> Lower(name) == name)
  {
    assert Token(Lower(name)) <==> Token(name) by {
      forall i | 0 <= i < |name| ensures TokenByte(Lower(name)[i]) <==> TokenByte(name[i]) {}
    }
    assert Lower(Lower(name)) == Lower(name);
    CapitaliseFolds(Lower(name), name, true);
  }

  function Ascii(s: string): (r: Bytes)
    requires forall i :: 0 <= i < |s| ==> s[i] < 128 as char
  {
    seq(|s|, i requires 0 <= i < |s| => s[i] as int)
  }

  /** Compress drops the four hop-by-hop headers before it looks at the rest. */
  function Strip(h: Header): Header {
    h - {Ascii("Connection"), Ascii("Keep-Alive"), Ascii("Proxy-Connection"), Ascii("Transfer-Encoding")}
  }

  /** Where http.CanonicalHeaderKey writes upper case. */
  predicate Upper(name: Bytes, upper: bool, i: nat)
    requires i < |name|
  {
    if i == 0 then upper else name[i - 1] == 45
  }

  lemma {:induction false} CapitaliseAt(name: Bytes, upper: bool, i: nat)
    requires i < |name|
    ensures |Capitalise(name, upper)| == |name|
    ensures Capitalise(name, upper)[i] == if Upper(name, upper, i) then UpperByte(name[i]) else LowerByte(name[i])
  {
    hide UpperByte, LowerByte;
    if |name| > 1 {
      CapitaliseAt(name[1..], name[0] == 45, if i == 0 then 0 else i - 1);
    }
  }

  /** `cap` is `low` with upper case at the start and after each hyphen. */
  predicate Capitals(low: Bytes, cap: Bytes) {
    |cap| == |low| && forall i :: 0 <= i < |low| ==>
      cap[i] == if Upper(low, true, i) then UpperByte(low[i]) else LowerByte(low[i])
  }

  lemma CapitaliseIs(low: Bytes, cap: Bytes)
    requires Capitals(low, cap) && low != []
    ensures Capitalise(low, true) == cap
  {
    hide Capitalise, UpperByte, LowerByte, Upper;
    CapitaliseAt(low, true, 0);
    forall i | 0 <= i < |low| ensures Capitalise(low, true)[i] == cap[i] {
      CapitaliseAt(low, true, i);
    }
  }

  lemma TokenFolds(name: Bytes)
    ensures Token(Lower(name)) <==> Token(name)
  {
    forall i | 0 <= i < |name| ensures TokenByte(Lower(name)[i]) <==> TokenByte(name[i]) {}
  }

  /** A canonical name is determined by its lower-case form. */
  lemma CanonicalFrom(name: Bytes, low: Bytes, cap: Bytes)
    requires Canonical(name) == name && Token(low) && low != [] && Capitals(low, cap) && Lower(cap) == low
    ensures Lower(name) == low <==> name == cap
  {
    hide Capitalise, Lower, Token, Capitals;
    if Lower(name) == low {
      TokenFolds(name);
      ReturnedUnchanged(name);
      CapitaliseIs(low, cap);
    }
  }

  /** Lower case and capitals of one name. */
  predicate Spelled(low: Bytes, cap: Bytes) {
    low != [] && Token(low) && Capitals(low, cap) && Lower(cap) == low
  }

  lemma ConnectionIs()
    ensures Ascii("connection") == [99, 111, 110, 110, 101, 99, 116, 105, 111, 110]
    ensures Ascii("Connection") == [67, 111, 110, 110, 101, 99, 116, 105, 111, 110]
  {
  }

  lemma ConnectionSpelled()
    ensures Spelled(Ascii("connection"), Ascii("Connection"))
  {
    hide Ascii, Capitalise, Lower;
    var low: Bytes := [99, 111, 110, 110, 101, 99, 116, 105, 111, 110];
    var cap: Bytes := [67, 111, 110, 110, 101, 99, 116, 105, 111, 110];
    ConnectionIs();
    forall i | 0 <= i < |low|
      ensures cap[i] == if Upper(low, true, i) then UpperByte(low[i]) else LowerByte(low[i])
      ensures LowerByte(cap[i]) == low[i] && TokenByte(low[i])
    {
      assert Upper(low, true, i) <==> i == 0;
    }
    hide UpperByte, LowerByte, TokenByte, Upper;
    assert Lower(cap) == low;
  }

  lemma KeepAliveIs()
    ensures Ascii("keep-alive") == [107, 101, 101, 112, 45, 97, 108, 105, 118, 101]
    ensures Ascii("Keep-Alive") == [75, 101, 101, 112, 45, 65, 108, 105, 118, 101]
  {
  }

  lemma KeepAliveSpelled()
    ensures Spelled(Ascii("keep-alive"), Ascii("Keep-Alive"))
  {
    hide Ascii, Capitalise, Lower;
    var low: Bytes := [107, 101, 101, 112, 45, 97, 108, 105, 118, 101];
    var cap: Bytes := [75, 101, 101, 112, 45, 65, 108, 105, 118, 101];
    KeepAliveIs();
    forall i | 0 <= i < |low|
      ensures cap[i] == if Upper(low, true, i) then UpperByte(low[i]) else LowerByte(low[i])
      ensures LowerByte(cap[i]) == low[i] && TokenByte(low[i])
    {
      assert Upper(low, true, i) <==> i == 0 || i == 5;
    }
    hide UpperByte, LowerByte, TokenByte, Upper;
    assert Lower(cap) == low;
  }

  lemma ProxyConnectionIs()
    ensures Ascii("proxy-connection") == [112, 114, 111, 120, 121, 45, 99, 111, 110, 110, 101, 99, 116, 105, 111, 110]
    ensures Ascii("Proxy-Connection") == [80, 114, 111, 120, 121, 45, 67, 111, 110, 110, 101, 99, 116, 105, 111, 110]
  {
  }

  lemma ProxyConnectionSpelled()
    ensures Spelled(Ascii("proxy-connection"), Ascii("Proxy-Connection"))
  {
    hide Ascii, Capitalise, Lower;
    var low: Bytes := [112, 114, 111, 120, 121, 45, 99, 111, 110, 110, 101, 99, 116, 105, 111, 110];
    var cap: Bytes := [80, 114, 111, 120, 121, 45, 67, 111, 110, 110, 101, 99, 116, 105, 111, 110];
    ProxyConnectionIs();
    forall i | 0 <= i < |low|
      ensures cap[i] == if Upper(low, true, i) then UpperByte(low[i]) else LowerByte(low[i])
      ensures LowerByte(cap[i]) == low[i] && TokenByte(low[i])
    {
      assert Upper(low, true, i) <==> i == 0 || i == 6;
    }
    hide UpperByte, LowerByte, TokenByte, Upper;
    assert Lower(cap) == low;
  }

  lemma TransferEncodingIs()
    ensures Ascii("transfer-encoding")
         == [116, 114, 97, 110, 115, 102, 101, 114, 45, 101, 110, 99, 111, 100, 105, 110, 103]
    ensures Ascii("Transfer-Encoding")
         == [84, 114, 97, 110, 115, 102, 101, 114, 45, 69, 110, 99, 111, 100, 105, 110, 103]
  {
  }

  lemma TransferEncodingSpelled()
    ensures Spelled(Ascii("transfer-encoding"), Ascii("Transfer-Encoding"))
  {
    hide Ascii, Capitalise, Lower;
    var low: Bytes := [116, 114, 97, 110, 115, 102, 101, 114, 45, 101, 110, 99, 111, 100, 105, 110, 103];
    var cap: Bytes := [84, 114, 97, 110, 115, 102, 101, 114, 45, 69, 110, 99, 111, 100, 105, 110, 103];
    TransferEncodingIs();
    forall i | 0 <= i < |low|
      ensures cap[i] == if Upper(low, true, i) then UpperByte(low[i]) else LowerByte(low[i])
      ensures LowerByte(cap[i]) == low[i] && TokenByte(low[i])
    {
      assert Upper(low, true, i) <==> i == 0 || i == 9;
    }
    hide UpperByte, LowerByte, TokenByte, Upper;
    assert Lower(cap) == low;
  }

  /** The headers of one hop, by their names in lower case. */
  predicate HopByHop(name: Bytes) {
    Lower(name) in {Ascii("connection"), Ascii("keep-alive"), Ascii("proxy-connection"), Ascii("transfer-encoding")}
  }

  /** What is dropped, of all canonical names: those and no others. */
  lemma StripExactly(h: Header, name: Bytes)
    requires Canonical(name) == name
    ensures name in Strip(h) <==> name in h && !HopByHop(name)
    ensures name in Strip(h) ==> Strip(h)[name] == h[name]
  {
    hide Ascii, Canonical, Lower, Spelled;
    ConnectionSpelled();
    KeepAliveSpelled();
    ProxyConnectionSpelled();
    TransferEncodingSpelled();
    SpelledName(name, Ascii("connection"), Ascii("Connection"));
    SpelledName(name, Ascii("keep-alive"), Ascii("Keep-Alive"));
    SpelledName(name, Ascii("proxy-connection"), Ascii("Proxy-Connection"));
    SpelledName(name, Ascii("transfer-encoding"), Ascii("Transfer-Encoding"));
  }

  lemma SpelledName(name: Bytes, low: Bytes, cap: Bytes)
    requires Canonical(name) == name && Spelled(low, cap)
    ensures Lower(name) == low <==> name == cap
  {
    CanonicalFrom(name, low, cap);
    hide Canonical, Lower, Capitals, Token;
  }

  // ------------------------------------------------------------------ values

  function Join(values: seq<Bytes>): Bytes {
    if values == [] then []
    else if |values| == 1 then values[0]
    else values[0] + [0] + Join(values[1..])
  }

  /** bytes.Split on NUL: never empty, no piece holds a NUL. */
  function Split(bs: Bytes): (r: seq<Bytes>)
    ensures |r| >= 1
    ensures forall i :: 0 <= i < |r| ==> 0 !in r[i]
  {
    if bs == [] then [[]]
    else
      var rest := Split(bs[1..]);
      if bs[0] == 0 then [[]] + rest else [[bs[0]] + rest[0]] + rest[1..]
  }

  predicate Plain(values: seq<Bytes>) {
    values != [] && forall i :: 0 <= i < |values| ==> 0 !in values[i]
  }

  lemma {:induction false} SplitPrefix(a: Bytes, b: Bytes)
    requires 0 !in a
    ensures Split(a + b) == [a + Split(b)[0]] + Split(b)[1..]
  {
    if a == [] {
      assert a + b == b && a + Split(b)[0] == Split(b)[0];
    } else {
      assert (a + b)[1..] == a[1..] + b;
      SplitPrefix(a[1..], b);
      assert [a[0]] + (a[1..] + Split(b)[0]) == a + Split(b)[0];
    }
  }

  lemma SplitAtNul(value: Bytes, rest: Bytes)
    requires 0 !in value
    ensures Split(value + [0] + rest) == [value] + Split(rest)
  {
    var tail := [0] + rest;
    assert tail[1..] == rest;
    assert Split(tail) == [[]] + Split(rest);
    SplitPrefix(value, tail);
    assert value + tail == value + [0] + rest;
    assert Split(tail)[1..] == Split(rest);
    assert value + Split(tail)[0] == value;
  }

  lemma {:induction false} SplitJoined(values: seq<Bytes>)
    requires Plain(values)
    ensures Split(Join(values)) == values
  {
    if |values| == 1 {
      SplitPrefix(values[0], []);
      assert values[0] + [] == values[0];
    } else {
      var rest := values[1..];
      assert Plain(rest) by {
        forall i | 0 <= i < |rest| ensures 0 !in rest[i] { assert rest[i] == values[i + 1]; }
      }
      SplitJoined(rest);
      SplitAtNul(values[0], Join(rest));
    }
  }

  /** Splitting on NUL undoes joining with NUL exactly for the non-empty lists of
      NUL-free values. */
  lemma SplitInvertsJoin(values: seq<Bytes>)
    ensures Split(Join(values)) == values <==> Plain(values)
  {
    if Plain(values) {
      SplitJoined(values);
    }
  }

  // ------------------------------------------------------------- serialising

  /** An order in which Go may iterate the map: each key once. */
  ghost predicate Order(order: seq<Bytes>, h: Header) {
    && (forall name :: name in h <==> name in order)
    && Distinct(order)
  }

  /** The four big-endian bytes the code writes of an int, negative ones included. */
  function BE32(n: int): (bs: Bytes)
    ensures |bs| == 4
  {
    [(n / 0x100_0000) % 0x100, (n / 0x1_0000) % 0x100, (n / 0x100) % 0x100, n % 0x100]
  }

  function Length(values: seq<Bytes>): nat {
    if values == [] then 0 else |values[0]| + Length(values[1..])
  }

  /** `lens[name]`: the value bytes and the separators between them. */
  function Lens(values: seq<Bytes>): (n: int)
    ensures n < 0 <==> values == []
  {
    |values| - 1 + Length(values)
  }

  lemma {:induction false} JoinLength(values: seq<Bytes>)
    ensures |Join(values)| == if values == [] then 0 else Lens(values)
  {
    if |values| > 1 {
      JoinLength(values[1..]);
    } else if |values| == 1 {
      assert Length(values[1..]) == 0;
    }
  }

  function Entry(name: Bytes, values: seq<Bytes>): (bs: Bytes) {
    BE32(|name|) + Lower(name) + BE32(Lens(values)) + Join(values)
  }

  function Entries(h: Header, order: seq<Bytes>): (bs: Bytes)
    requires forall name :: name in order ==> name in h
  {
    if order == [] then [] else Entry(order[0], h[order[0]]) + Entries(h, order[1..])
  }

  /** The block the fill pass writes when it has the room. */
  ghost function Block(h: Header, order: seq<Bytes>): Bytes
    requires Order(order, h)
  {
    BE32(|h|) + Entries(h, order)
  }

  /** What the sizing pass counts for one header: no separators. */
  function Counted(name: Bytes, values: seq<Bytes>): nat {
    |name| + 8 + Length(values)
  }

  function Sized(h: Header, order: seq<Bytes>): (n: nat)
    requires forall name :: name in order ==> name in h
  {
    if order == [] then 0 else Counted(order[0], h[order[0]]) + Sized(h, order[1..])
  }

  /** The separators of the fill pass that the sizing pass leaves out. */
  function Separators(h: Header, order: seq<Bytes>): (n: nat)
    requires forall name :: name in order ==> name in h
  {
    if order == [] then 0
    else (if |h[order[0]]| > 1 then |h[order[0]]| - 1 else 0) + Separators(h, order[1..])
  }

  lemma {:induction false} EntriesLength(h: Header, order: seq<Bytes>)
    requires forall name :: name in order ==> name in h
    ensures |Entries(h, order)| == Sized(h, order) + Separators(h, order)
  {
    if order != [] {
      JoinLength(h[order[0]]);
      EntriesLength(h, order[1..]);
    }
  }

  lemma {:induction false} SeparatorsZero(h: Header, order: seq<Bytes>)
    requires forall name :: name in order ==> name in h
    ensures Separators(h, order) == 0 <==> forall name :: name in order ==> |h[name]| <= 1
  {
    if order != [] {
      SeparatorsZero(h, order[1..]);
      assert forall name :: name in order <==> name == order[0] || name in order[1..];
    }
  }

  ghost function Without(names: seq<Bytes>, i: nat): (r: seq<Bytes>)
    requires i < |names|
  {
    names[..i] + names[i + 1..]
  }

  ghost predicate Distinct(names: seq<Bytes>) {
    forall i, j :: 0 <= i < j < |names| ==> names[i] != names[j]
  }

  lemma DistinctRemove(names: seq<Bytes>, i: nat)
    requires i < |names| && Distinct(names)
    ensures Distinct(Without(names, i))
    ensures forall name :: name in Without(names, i) <==> name in names && name != names[i]
  {
    forall name | name in names && name != names[i] ensures name in Without(names, i) {
      var j :| 0 <= j < |names| && names[j] == name;
      assert name == Without(names, i)[if j < i then j else j - 1];
    }
  }

  lemma {:induction false} SizedRemove(h: Header, order: seq<Bytes>, i: nat)
    requires i < |order| && forall name :: name in order ==> name in h
    ensures Sized(h, order) == Counted(order[i], h[order[i]]) + Sized(h, Without(order, i))
  {
    var rest := Without(order, i);
    if i == 0 {
      assert rest == order[1..];
    } else {
      SizedRemove(h, order[1..], i - 1);
      assert rest[0] == order[0];
      assert rest[1..] == Without(order[1..], i - 1);
    }
  }

  /** The size does not depend on the order in which the keys are visited. */
  lemma {:induction false} SizedAnyOrder(h: Header, a: seq<Bytes>, b: seq<Bytes>)
    requires forall name :: name in a ==> name in h
    requires forall name :: name in a <==> name in b
    requires Distinct(a) && Distinct(b)
    ensures Sized(h, a) == Sized(h, b)
    decreases |a|
  {
    var first := if b == [] then [] else b[0];
    assert b != [] ==> first in b;
    if a != [] {
      assert a[0] in a;
      var i :| 0 <= i < |b| && b[i] == a[0];
      SizedRemove(h, b, i);
      DistinctRemove(b, i);
      DistinctRemove(a, 0);
      assert a[1..] == Without(a, 0);
      SizedAnyOrder(h, Without(a, 0), Without(b, i));
    }
  }

  lemma {:induction false} OrderLength(h: Header, order: seq<Bytes>)
    requires Order(order, h)
    ensures |order| == |h|
  {
    if order == [] {
      assert h == map[];
    } else {
      DistinctRemove(order, 0);
      var rest := h - {order[0]};
      assert order[0] in order;
      OrderLength(rest, Without(order, 0));
      assert h.Keys == rest.Keys + {order[0]};
      assert |h.Keys| == |rest.Keys| + 1;
    }
  }

  /** The final write offset is 4 + sum of (8 + name + lens), which is past the
      allocated length exactly when some header has more than one value. */
  lemma FillOverruns(h: Header, sizing: seq<Bytes>, filling: seq<Bytes>)
    requires Order(sizing, h) && Order(filling, h)
    ensures |Block(h, filling)| == 4 + Sized(h, sizing) + Separators(h, filling)
    ensures |Block(h, filling)| <= 4 + Sized(h, sizing) <==> forall name :: name in h ==> |h[name]| <= 1
  {
    EntriesLength(h, filling);
    SizedAnyOrder(h, sizing, filling);
    SeparatorsZero(h, filling);
  }

  /** Copies `bs` to `out` byte by byte from `offset`; an index past the end is the
      run-time panic of the source. */
  method Put(out: array<byte>, offset: nat, bs: Bytes) returns (ok: bool)
    requires offset <= out.Length
    modifies out
    ensures ok <==> offset + |bs| <= out.Length
    ensures ok ==> out[..offset + |bs|] == old(out[..offset]) + bs
  {
    var i := 0;
    while i < |bs|
      invariant 0 <= i <= |bs| && offset + i <= out.Length
      invariant out[..offset + i] == old(out[..offset]) + bs[..i]
    {
      if offset + i >= out.Length {
        return false;
      }
      out[offset + i] := bs[i];
      assert out[..offset + i + 1] == out[..offset + i] + [bs[i]];
      i := i + 1;
    }
    return true;
  }

  method PutValues(out: array<byte>, offset: nat, values: seq<Bytes>) returns (ok: bool, next: nat)
    requires offset <= out.Length
    modifies out
    ensures ok <==> offset + |Join(values)| <= out.Length
    ensures ok ==> next == offset + |Join(values)| && out[..next] == old(out[..offset]) + Join(values)
  {
    next := offset;
    ghost var whole := out[..offset] + Join(values);
    var n := 0;
    while n < |values|
      invariant 0 <= n <= |values| && offset <= next <= out.Length
      invariant out[..next] + Join(values[n..]) == whole
    {
      ghost var before := out[..next];
      assert values[n..][1..] == values[n + 1..];
      var value := values[n];
      ok := Put(out, next, value);
      if !ok {
        assert |value| <= |Join(values[n..])|;
        return;
      }
      next := next + |value|;
      if n < |values| - 1 {
        ok := Put(out, next, [0]);
        if !ok {
          assert |value| + 1 <= |Join(values[n..])|;
          return;
        }
        next := next + 1;
        assert before + value + [0] + Join(values[n + 1..]) == before + Join(values[n..]);
      }
      n := n + 1;
    }
    return true, next;
  }

  method PutPieces(out: array<byte>, offset: nat, a: Bytes, b: Bytes, c: Bytes, values: seq<Bytes>)
    returns (ok: bool, next: nat)
    requires offset <= out.Length
    modifies out
    ensures ok <==> offset + |a + b + c + Join(values)| <= out.Length
    ensures ok ==> next == offset + |a + b + c + Join(values)|
    ensures ok ==> out[..next] == old(out[..offset]) + (a + b + c + Join(values))
  {
    next := offset;
    ok := Put(out, next, a);
    if !ok { return; }
    next := next + |a|;
    ok := Put(out, next, b);
    if !ok { return; }
    next := next + |b|;
    ok := Put(out, next, c);
    if !ok { return; }
    next := next + |c|;
    ok, next := PutValues(out, next, values);
  }

  method PutEntry(out: array<byte>, offset: nat, name: Bytes, values: seq<Bytes>, vLen: int)
    returns (ok: bool, next: nat)
    requires offset <= out.Length && vLen == Lens(values)
    modifies out
    ensures ok <==> offset + |Entry(name, values)| <= out.Length
    ensures ok ==> next == offset + |Entry(name, values)|
    ensures ok ==> out[..next] == old(out[..offset]) + Entry(name, values)
  {
    ok, next := PutPieces(out, offset, BE32(|name|), Lower(name), BE32(vLen), values);
  }

  /** The sizing pass: the length to allocate, and the value length of every header. */
  method SizePass(h: Header, order: seq<Bytes>) returns (length: nat, lens: map<Bytes, int>)
    requires Order(order, h)
    ensures length == 4 + Sized(h, order)
    ensures forall name :: name in h ==> name in lens && lens[name] == Lens(h[name])
  {
    length := 4;
    lens := map[];
    for k := 0 to |order|
      invariant length + Sized(h, order[k..]) == 4 + Sized(h, order)
      invariant forall j :: 0 <= j < k ==> order[j] in lens && lens[order[j]] == Lens(h[order[j]])
    {
      var name := order[k];
      assert name in order && order[k..][1..] == order[k + 1..];
      length := length + |name| + 8;
      lens := lens[name := |h[name]| - 1];
      var values := h[name];
      for n := 0 to |values|
        invariant length + Length(values[n..]) + Sized(h, order[k + 1..]) == 4 + Sized(h, order)
        invariant name in lens && lens[name] + Length(values[n..]) == Lens(values)
        invariant forall j :: 0 <= j < k ==> order[j] in lens && lens[order[j]] == Lens(h[order[j]])
      {
        assert values[n..][1..] == values[n + 1..];
        length := length + |values[n]|;
        lens := lens[name := lens[name] + |values[n]|];
      }
    }
  }

  lemma Regroup(a: Bytes, b: Bytes, c: Bytes)
    ensures a + (b + c) == a + b + c
  {
  }

  method FillEntries(h: Header, order: seq<Bytes>, lens: map<Bytes, int>, out: array<byte>, start: nat)
    returns (ok: bool, offset: nat)
    requires forall name :: name in order ==> name in h && name in lens && lens[name] == Lens(h[name])
    requires start <= out.Length
    modifies out
    ensures ok <==> start + |Entries(h, order)| <= out.Length
    ensures ok ==> offset == start + |Entries(h, order)|
    ensures ok ==> out[..offset] == old(out[..start]) + Entries(h, order)
  {
    ok, offset := true, start;
    ghost var whole := out[..start] + Entries(h, order);
    assert order[0..] == order;
    for k := 0 to |order|
      invariant ok && offset <= out.Length
      invariant out[..offset] + Entries(h, order[k..]) == whole
    {
      var name := order[k];
      assert name in order && order[k..][1..] == order[k + 1..];
      ghost var before := out[..offset];
      ghost var entry, rest := Entry(name, h[name]), Entries(h, order[k + 1..]);
      Regroup(before, entry, rest);
      assert |whole| == |before + entry| + |rest|;
      ok, offset := PutEntry(out, offset, name, h[name], lens[name]);
      if !ok {
        return;
      }
    }
    assert Entries(h, order[|order|..]) == [];
    assert out[..offset] == whole;
  }

  /** The fill pass, into a buffer of whatever length: it panics exactly when the
      block of its order does not fit. */
  method FillPass(h: Header, order: seq<Bytes>, lens: map<Bytes, int>, out: array<byte>)
    returns (ok: bool, offset: nat)
    requires Order(order, h) && out.Length >= 4
    requires forall name :: name in h ==> name in lens && lens[name] == Lens(h[name])
    modifies out
    ensures ok <==> |Block(h, order)| <= out.Length
    ensures ok ==> offset == |Block(h, order)| && out[..offset] == Block(h, order)
  {
    ok := Put(out, 0, BE32(|h|));
    assert out[..4] == BE32(|h|);
    ok, offset := FillEntries(h, order, lens, out, 4);
  }

  datatype Serialised = Filled(bytes: Bytes) | Overrun

  /** The two passes of Compress over the stripped header set. Go picks the order of
      each; the second runs out of its buffer exactly when some header has more than
      one value, and otherwise fills it with the block of its order. */
  method Serialise(h: Header, sizing: seq<Bytes>, filling: seq<Bytes>) returns (r: Serialised)
    requires Order(sizing, h) && Order(filling, h)
    ensures r.Overrun? <==> exists name :: name in h && |h[name]| > 1
    ensures r.Filled? ==> r.bytes == Block(h, filling)
  {
    var length, lens := SizePass(h, sizing);
    var out := new byte[length];
    var ok, offset := FillPass(h, filling, lens, out);
    FillOverruns(h, sizing, filling);
    if !ok {
      return Overrun;
    }
    assert out[..] == out[..offset];
    r := Filled(out[..]);
  }
}
