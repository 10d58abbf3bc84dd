/**
 * What MessagePack stands for: data that know no headers, and the bytes that represent them, with
 * every header byte and size field written out. A sender may choose among several forms.
 */
module MsgPackData {
  import opened Common
  import opened StreamDecoder
  import opened MsgPackCodec

  datatype Data =
    | Nil
    | Bool(b: bool)
    | Int(n: int)
    | Float32(bits: Bytes)
    | Float64(bits: Bytes)
    | Text(utf8: Bytes)
    | Binary(bytes: Bytes)
    | Ext(kind: byte, bytes: Bytes)
    | Array(items: seq<Data>)
    | Map(entries: seq<Entry>)

  datatype Entry = Entry(key: Data, value: Data)

  // ---------------------------------------------------------------------------------------
  // The format
  // ---------------------------------------------------------------------------------------

  function U8(n: nat): Bytes
    requires n < 0x100
  {
    [n as byte]
  }

  function U16(n: nat): Bytes
    requires n < 0x1_0000
  {
    U8(n / 0x100) + U8(n % 0x100)
  }

  function U32(n: nat): Bytes
    requires n < 0x1_0000_0000
  {
    U16(n / 0x1_0000) + U16(n % 0x1_0000)
  }

  function U64(n: nat): Bytes
    requires n < 0x1_0000_0000_0000_0000
  {
    U32(n / 0x1_0000_0000) + U32(n % 0x1_0000_0000)
  }

  predicate InHeader(n: int, b: Bytes) {
    || (0 <= n < 0x80 && b == [n as byte])
    || (-0x20 <= n < 0 && b == [(0x100 + n) as byte])
  }

  predicate UnsignedBytes(n: int, b: Bytes) {
    || (0 <= n < 0x100 && b == [0xcc] + U8(n))
    || (0 <= n < 0x1_0000 && b == [0xcd] + U16(n))
    || (0 <= n < 0x1_0000_0000 && b == [0xce] + U32(n))
    || (0 <= n < 0x1_0000_0000_0000_0000 && b == [0xcf] + U64(n))
  }

  predicate SignedBytes(n: int, b: Bytes) {
    || (-0x80 <= n < 0x80 && b == [0xd0] + U8(n % 0x100))
    || (-0x8000 <= n < 0x8000 && b == [0xd1] + U16(n % 0x1_0000))
    || (-0x8000_0000 <= n < 0x8000_0000 && b == [0xd2] + U32(n % 0x1_0000_0000))
    || (-0x8000_0000_0000_0000 <= n < 0x8000_0000_0000_0000
        && b == [0xd3] + U64(n % 0x1_0000_0000_0000_0000))
  }

  predicate IntegerBytes(n: int, b: Bytes) { InHeader(n, b) || UnsignedBytes(n, b) || SignedBytes(n, b) }

  predicate TextHead(n: nat, b: Bytes) {
    || (n < 0x20 && b == [(0xa0 + n) as byte])
    || (n < 0x100 && b == [0xd9] + U8(n))
    || (n < 0x1_0000 && b == [0xda] + U16(n))
    || (n < 0x1_0000_0000 && b == [0xdb] + U32(n))
  }

  predicate BinaryHead(n: nat, b: Bytes) {
    || (n < 0x100 && b == [0xc4] + U8(n))
    || (n < 0x1_0000 && b == [0xc5] + U16(n))
    || (n < 0x1_0000_0000 && b == [0xc6] + U32(n))
  }

  predicate ExtHead(n: nat, b: Bytes) {
    || (n == 1 && b == [0xd4])
    || (n == 2 && b == [0xd5])
    || (n == 4 && b == [0xd6])
    || (n == 8 && b == [0xd7])
    || (n == 16 && b == [0xd8])
    || (n < 0x100 && b == [0xc7] + U8(n))
    || (n < 0x1_0000 && b == [0xc8] + U16(n))
    || (n < 0x1_0000_0000 && b == [0xc9] + U32(n))
  }

  predicate ArrayHead(n: nat, b: Bytes) {
    || (n < 0x10 && b == [(0x90 + n) as byte])
    || (n < 0x1_0000 && b == [0xdc] + U16(n))
    || (n < 0x1_0000_0000 && b == [0xdd] + U32(n))
  }

  predicate MapHead(n: nat, b: Bytes) {
    || (n < 0x10 && b == [(0x80 + n) as byte])
    || (n < 0x1_0000 && b == [0xde] + U16(n))
    || (n < 0x1_0000_0000 && b == [0xdf] + U32(n))
  }

  ghost predicate TextBytes(utf8: Bytes, b: Bytes) {
    exists head :: TextHead(|utf8|, head) && b == head + utf8
  }

  ghost predicate BinaryBytes(bytes: Bytes, b: Bytes) {
    exists head :: BinaryHead(|bytes|, head) && b == head + bytes
  }

  ghost predicate ExtBytes(kind: byte, bytes: Bytes, b: Bytes) {
    exists head :: ExtHead(|bytes|, head) && b == head + ([kind] + bytes)
  }

  ghost predicate LeafBytes(d: Data, b: Bytes) {
    match d
    case Nil => b == [0xc0]
    case Bool(t) => b == [if t then 0xc3 else 0xc2]
    case Int(n) => IntegerBytes(n, b)
    case Float32(bits) => |bits| == 4 && b == [0xca] + bits
    case Float64(bits) => |bits| == 8 && b == [0xcb] + bits
    case Text(utf8) => TextBytes(utf8, b)
    case Binary(bytes) => BinaryBytes(bytes, b)
    case Ext(kind, bytes) => ExtBytes(kind, bytes, b)
    case _ => false
  }

  /** These bytes represent this. */
  ghost predicate Represents(b: Bytes, d: Data)
    decreases d, 0
  {
    match d
    case Array(items) =>
      exists head, body :: ArrayHead(|items|, head) && RepresentAll(body, items) && b == head + body
    case Map(entries) =>
      exists head, body :: MapHead(|entries|, head) && RepresentEntries(body, entries) && b == head + body
    case _ => LeafBytes(d, b)
  }

  ghost predicate RepresentAll(b: Bytes, items: seq<Data>)
    decreases items, 1
  {
    if items == [] then b == [] else
      exists first, others ::
        Represents(first, items[0]) && RepresentAll(others, items[1..]) && b == first + others
  }

  ghost predicate RepresentsEntry(b: Bytes, entry: Entry)
    decreases entry, 1
  {
    exists key, value ::
      Represents(key, entry.key) && Represents(value, entry.value) && b == key + value
  }

  ghost predicate RepresentEntries(b: Bytes, entries: seq<Entry>)
    decreases entries, 1
  {
    if entries == [] then b == [] else
      exists first, others ::
        RepresentsEntry(first, entries[0]) && RepresentEntries(others, entries[1..]) && b == first + others
  }

  // ---------------------------------------------------------------------------------------
  // What a decoded value stands for
  // ---------------------------------------------------------------------------------------

  function DataOf(v: Value): Data
    decreases v, 0
  {
    match v
    case Leaf(tag, data) => LeafData(tag as int, data)
    case Node(tag, items) =>
      if tag < 0x90 || 0xde <= tag then Map(Pairs(DataOfAll(items))) else Array(DataOfAll(items))
  }

  function DataOfAll(vs: seq<Value>): (ds: seq<Data>)
    ensures |ds| == |vs|
    decreases vs, 1
  {
    if vs == [] then [] else [DataOf(vs[0])] + DataOfAll(vs[1..])
  }

  function Pairs(ds: seq<Data>): (entries: seq<Entry>)
    ensures |entries| == |ds| / 2
  {
    if |ds| < 2 then [] else [Entry(ds[0], ds[1])] + Pairs(ds[2..])
  }

  function Signed(u: nat, bound: nat): int { if u < bound then u else u - 2 * bound }

  function LeafData(h: int, data: Bytes): Data {
    if h < 0x80 then Int(h)
    else if h < 0xc0 then Text(data)
    else if h == 0xc0 then Nil
    else if h < 0xc4 then Bool(h == 0xc3)
    else if h < 0xc7 then Binary(data)
    else if h < 0xca then ExtOf(data)
    else if h == 0xca then Float32(data)
    else if h == 0xcb then Float64(data)
    else if h < 0xd0 then Int(FromBigEndian(data))
    else if h == 0xd0 then Int(Signed(FromBigEndian(data), 0x80))
    else if h == 0xd1 then Int(Signed(FromBigEndian(data), 0x8000))
    else if h == 0xd2 then Int(Signed(FromBigEndian(data), 0x8000_0000))
    else if h == 0xd3 then Int(Signed(FromBigEndian(data), 0x8000_0000_0000_0000))
    else if h < 0xd9 then ExtOf(data)
    else if h < 0xe0 then Text(data)
    else Int(h - 0x100)
  }

  function ExtOf(data: Bytes): Data { if data == [] then Nil else Ext(data[0], data[1..]) }

  // ---------------------------------------------------------------------------------------
  // Heads
  // ---------------------------------------------------------------------------------------

  lemma Constants()
    ensures Power(0) == 1 && Power(1) == 2 && Power(2) == 4 && Power(3) == 8 && Power(4) == 16
    ensures Range(1) == 0x100 && Range(2) == 0x1_0000 && Range(4) == 0x1_0000_0000
    ensures Range(8) == 0x1_0000_0000_0000_0000
  {
    assert Range(3) == 0x100_0000;
    assert Range(6) == 0x1_0000_0000_0000 && Range(7) == 0x100_0000_0000_0000;
  }

  lemma Twice(width: nat, n: nat)
    requires width > 0 && n < 0x1_0000 * Range(width - 1)
    ensures n < Range(width + 1) && n / 0x1_0000 < Range(width - 1)
    ensures BigEndian(width + 1, n) == BigEndian(width - 1, n / 0x1_0000) + U16(n % 0x1_0000)
  {
    assert n / 0x100 / 0x100 == n / 0x1_0000;
    assert n % 0x1_0000 / 0x100 == n / 0x100 % 0x100 && n % 0x1_0000 % 0x100 == n % 0x100;
  }

  lemma FieldU16(n: nat)
    requires n < 0x1_0000
    ensures n < Range(2) && BigEndian(2, n) == U16(n)
  {
    Twice(1, n);
  }

  lemma FieldU32(n: nat)
    requires n < 0x1_0000_0000
    ensures n < Range(4) && BigEndian(4, n) == U32(n)
  {
    Constants();
    Twice(3, n);
    FieldU16(n / 0x1_0000);
  }

  lemma LowHalf(n: nat)
    ensures n / 0x1_0000 / 0x1_0000 == n / 0x1_0000_0000
    ensures var low := n % 0x1_0000_0000;
      low / 0x1_0000 == n / 0x1_0000 % 0x1_0000 && low % 0x1_0000 == n % 0x1_0000
  {}

  lemma FieldU64(n: nat)
    requires n < 0x1_0000_0000_0000_0000
    ensures n < Range(8) && BigEndian(8, n) == U64(n)
  {
    assert 0x1_0000 * Range(6) == 0x1_0000_0000_0000_0000 && 0x1_0000 * Range(4) == Range(6) by { Constants(); }
    Twice(7, n);
    Twice(5, n / 0x1_0000);
    LowHalf(n);
    FieldU32(n / 0x1_0000_0000);
    var a, b, c := U32(n / 0x1_0000_0000), U16(n / 0x1_0000 % 0x1_0000), U16(n % 0x1_0000);
    assert a + b + c == a + (b + c);
  }

  /** The header byte and size field that `Encode` puts in front of n bytes or values. */
  predicate Heads(tag: byte, n: nat, head: Bytes) {
    Fits(ShapeOf(tag), n) && head == [tag] + Field(ShapeOf(tag), n)
  }

  lemma HeadsSized(tag: byte, n: nat, field: Bytes)
    requires 0xc4 <= tag <= 0xc9 || 0xd9 <= tag <= 0xdb
    requires var m := if 0xc7 <= tag <= 0xc9 then n - 1 else n;
      m >= 0 &&
      if tag == 0xc4 || tag == 0xc7 || tag == 0xd9 then m < 0x100 && field == U8(m)
      else if tag == 0xc5 || tag == 0xc8 || tag == 0xda then m < 0x1_0000 && field == U16(m)
      else m < 0x1_0000_0000 && field == U32(m)
    ensures IsLeaf(tag) && Heads(tag, n, [tag] + field)
  {
    Constants();
    var m := if 0xc7 <= tag <= 0xc9 then n - 1 else n;
    if m < 0x100 { assert BigEndian(1, m) == U8(m); }
    if m < 0x1_0000 { FieldU16(m); }
    if m < 0x1_0000_0000 { FieldU32(m); }
  }

  lemma HeadsBranch(tag: byte, n: nat, field: Bytes)
    requires 0xdc <= tag <= 0xdf
    requires if tag == 0xdc || tag == 0xde then n < 0x1_0000 && field == U16(n)
      else n < 0x1_0000_0000 && field == U32(n)
    ensures !IsLeaf(tag) && Heads(tag, if tag < 0xde then n else 2 * n, [tag] + field)
  {
    Constants();
    if n < 0x1_0000 { FieldU16(n); }
    if n < 0x1_0000_0000 { FieldU32(n); }
    assert 2 * n / 2 == n;
  }

  lemma TextHeadIs(n: nat, head: Bytes)
    requires TextHead(n, head)
    ensures head != [] && IsLeaf(head[0]) && Heads(head[0], n, head)
    ensures 0xa0 <= head[0] < 0xc0 || 0xd9 <= head[0] < 0xdc
  {
    if |head| > 1 {
      assert head == [head[0]] + head[1..];
      HeadsSized(head[0], n, head[1..]);
    }
  }

  lemma BinaryHeadIs(n: nat, head: Bytes)
    requires BinaryHead(n, head)
    ensures head != [] && IsLeaf(head[0]) && Heads(head[0], n, head)
    ensures 0xc4 <= head[0] < 0xc7
  {
    assert head == [head[0]] + head[1..];
    HeadsSized(head[0], n, head[1..]);
  }

  lemma ExtHeadIs(n: nat, head: Bytes)
    requires ExtHead(n, head)
    ensures head != [] && IsLeaf(head[0]) && Heads(head[0], n + 1, head)
    ensures 0xc7 <= head[0] < 0xca || 0xd4 <= head[0] < 0xd9
  {
    if |head| > 1 {
      assert head == [head[0]] + head[1..];
      HeadsSized(head[0], n + 1, head[1..]);
    } else {
      Constants();
    }
  }

  lemma ArrayHeadIs(n: nat, head: Bytes)
    requires ArrayHead(n, head)
    ensures head != [] && !IsLeaf(head[0]) && Heads(head[0], n, head)
    ensures 0x90 <= head[0] < 0xde
  {
    if |head| > 1 {
      assert head == [head[0]] + head[1..];
      HeadsBranch(head[0], n, head[1..]);
    }
  }

  lemma MapHeadIs(n: nat, head: Bytes)
    requires MapHead(n, head)
    ensures head != [] && !IsLeaf(head[0]) && Heads(head[0], 2 * n, head)
    ensures head[0] < 0x90 || 0xde <= head[0]
  {
    if |head| > 1 {
      assert head == [head[0]] + head[1..];
      HeadsBranch(head[0], n, head[1..]);
    }
  }

  // ---------------------------------------------------------------------------------------
  // What represents something is what `Encode` makes of a value that stands for it
  // ---------------------------------------------------------------------------------------

  ghost predicate StandsFor(v: Value, b: Bytes, d: Data) {
    Ok(v) && Encode(v) == b && DataOf(v) == d
  }

  /** Eight, 16, 32 or 64 bits in big-endian order. */
  predicate IsField(width: nat, u: nat, field: Bytes) {
    || (width == 1 && u < 0x100 && field == U8(u))
    || (width == 2 && u < 0x1_0000 && field == U16(u))
    || (width == 4 && u < 0x1_0000_0000 && field == U32(u))
    || (width == 8 && u < 0x1_0000_0000_0000_0000 && field == U64(u))
  }

  lemma FieldIsBigEndian(width: nat, u: nat)
    requires width == 1 || width == 2 || width == 4 || width == 8
    requires u < Range(width)
    ensures IsField(width, u, BigEndian(width, u))
  {
    Constants();
    if width == 1 { assert BigEndian(1, u) == U8(u); }
    else if width == 2 { FieldU16(u); }
    else if width == 4 { FieldU32(u); }
    else { FieldU64(u); }
  }

  lemma OneField(width: nat, u: nat, field: Bytes, other: Bytes)
    requires IsField(width, u, field) && IsField(width, u, other)
    ensures field == other && u < Range(width)
  {
    Constants();
  }

  lemma FieldIs(width: nat, u: nat, field: Bytes)
    requires width == 1 || width == 2 || width == 4 || width == 8
    ensures IsField(width, u, field) <==> |field| == width && FromBigEndian(field) == u
  {
    if |field| == width && FromBigEndian(field) == u {
      BigEndianOnto(field);
      FieldIsBigEndian(width, u);
    }
    if IsField(width, u, field) {
      OneField(width, u, field, field);
      FieldIsBigEndian(width, u);
      OneField(width, u, field, BigEndian(width, u));
      BigEndianRoundTrip(width, u);
    }
  }

  /** The header bytes of integers with a field, and its width. */
  lemma IntegerTags(tag: byte)
    requires 0xcc <= tag <= 0xd3
    ensures ShapeOf(tag) == Fixed([1, 2, 4, 8, 1, 2, 4, 8][tag as int - 0xcc])
  {
    Constants();
  }

  lemma UnsignedIs(tag: byte, u: nat, field: Bytes)
    requires 0xcc <= tag <= 0xcf && IsField([1, 2, 4, 8][tag as int - 0xcc], u, field)
    ensures StandsFor(Leaf(tag, field), [tag] + field, Int(u))
  {
    IntegerTags(tag);
    FieldIs([1, 2, 4, 8][tag as int - 0xcc], u, field);
  }

  function Half(tag: byte): (bound: int)
    ensures bound > 0
  {
    if tag == 0xd0 then 0x80 else if tag == 0xd1 then 0x8000 else if tag == 0xd2 then 0x8000_0000
    else 0x8000_0000_0000_0000
  }

  /** Two's complement. */
  function Wrapped(n: int, bound: int): nat
    requires -bound <= n < bound
  {
    if n < 0 then n + 2 * bound else n
  }

  lemma SignedIs(tag: byte, n: int, field: Bytes)
    requires 0xd0 <= tag <= 0xd3 && -Half(tag) <= n < Half(tag)
    requires IsField([1, 2, 4, 8][tag as int - 0xd0], Wrapped(n, Half(tag)), field)
    ensures StandsFor(Leaf(tag, field), [tag] + field, Int(n))
  {
    IntegerTags(tag);
    FieldIs([1, 2, 4, 8][tag as int - 0xd0], Wrapped(n, Half(tag)), field);
    assert LeafData(tag as int, field) == Int(Signed(FromBigEndian(field), Half(tag)));
  }

  lemma UnsignedFields(n: int, tag: byte, field: Bytes)
    ensures UnsignedBytes(n, [tag] + field) <==>
      n >= 0 && 0xcc <= tag <= 0xcf && IsField([1, 2, 4, 8][tag as int - 0xcc], n, field)
  {
    var b := [tag] + field;
    assert b[0] == tag && b[1..] == field;
  }

  lemma SignedFields(n: int, tag: byte, field: Bytes)
    ensures SignedBytes(n, [tag] + field) <==>
      && 0xd0 <= tag <= 0xd3 && -Half(tag) <= n < Half(tag)
      && IsField([1, 2, 4, 8][tag as int - 0xd0], Wrapped(n, Half(tag)), field)
  {
    var b := [tag] + field;
    assert b[0] == tag && b[1..] == field;
    if 0xd0 <= tag <= 0xd3 && -Half(tag) <= n < Half(tag) {
      Modulo(n, tag);
    }
  }

  lemma Modulo(n: int, tag: byte)
    requires 0xd0 <= tag <= 0xd3 && -Half(tag) <= n < Half(tag)
    ensures Wrapped(n, Half(tag)) ==
      if tag == 0xd0 then n % 0x100 else if tag == 0xd1 then n % 0x1_0000
      else if tag == 0xd2 then n % 0x1_0000_0000 else n % 0x1_0000_0000_0000_0000
  {}

  lemma IntegerIs(n: int, b: Bytes) returns (v: Value)
    requires IntegerBytes(n, b)
    ensures StandsFor(v, b, Int(n))
  {
    v := Leaf(b[0], b[1..]);
    assert b == [b[0]] + b[1..];
    UnsignedFields(n, b[0], b[1..]);
    SignedFields(n, b[0], b[1..]);
    if UnsignedBytes(n, b) {
      UnsignedIs(b[0], n, b[1..]);
    } else if SignedBytes(n, b) {
      SignedIs(b[0], n, b[1..]);
    }
  }

  lemma LeafHeads(tag: byte, head: Bytes, data: Bytes)
    requires IsLeaf(tag) && Heads(tag, |data|, head)
    ensures StandsFor(Leaf(tag, data), head + data, LeafData(tag as int, data))
  {}

  lemma LeafIs(b: Bytes, d: Data) returns (v: Value)
    requires LeafBytes(d, b)
    ensures StandsFor(v, b, d)
  {
    match d
    case Int(n) => v := IntegerIs(n, b);
    case Text(utf8) => v := TextIs(b, utf8);
    case Binary(bytes) => v := BinaryIs(b, bytes);
    case Ext(kind, bytes) => v := ExtIs(b, kind, bytes);
    case Nil => v := Leaf(0xc0, []);
    case Bool(_) => v := Leaf(b[0], []);
    case Float32(bits) => v := Leaf(0xca, bits);
    case Float64(bits) => v := Leaf(0xcb, bits);
  }

  lemma TextIs(b: Bytes, utf8: Bytes) returns (v: Value)
    requires TextBytes(utf8, b)
    ensures StandsFor(v, b, Text(utf8))
  {
    var head :| TextHead(|utf8|, head) && b == head + utf8;
    TextHeadIs(|utf8|, head);
    LeafHeads(head[0], head, utf8);
    v := Leaf(head[0], utf8);
  }

  lemma BinaryIs(b: Bytes, bytes: Bytes) returns (v: Value)
    requires BinaryBytes(bytes, b)
    ensures StandsFor(v, b, Binary(bytes))
  {
    var head :| BinaryHead(|bytes|, head) && b == head + bytes;
    BinaryHeadIs(|bytes|, head);
    LeafHeads(head[0], head, bytes);
    v := Leaf(head[0], bytes);
  }

  lemma ExtIs(b: Bytes, kind: byte, bytes: Bytes) returns (v: Value)
    requires ExtBytes(kind, bytes, b)
    ensures StandsFor(v, b, Ext(kind, bytes))
  {
    var data := [kind] + bytes;
    var head :| ExtHead(|bytes|, head) && b == head + data;
    ExtHeadIs(|bytes|, head);
    assert data[0] == kind && data[1..] == bytes;
    LeafHeads(head[0], head, data);
    v := Leaf(head[0], data);
  }

  lemma {:induction false} RepresentationIs(b: Bytes, d: Data) returns (v: Value)
    requires Represents(b, d)
    ensures StandsFor(v, b, d)
    decreases d, 0
  {
    match d
    case Array(items) =>
      var head, body :| ArrayHead(|items|, head) && RepresentAll(body, items) && b == head + body;
      ArrayHeadIs(|items|, head);
      var vs := AllAre(body, items);
      v := Node(head[0], vs);
    case Map(entries) =>
      var head, body :| MapHead(|entries|, head) && RepresentEntries(body, entries) && b == head + body;
      MapHeadIs(|entries|, head);
      var vs := EntriesAre(body, entries);
      v := Node(head[0], vs);
    case _ => v := LeafIs(b, d);
  }

  lemma {:induction false} AllAre(b: Bytes, items: seq<Data>) returns (vs: seq<Value>)
    requires RepresentAll(b, items)
    ensures |vs| == |items| && AllOk(vs) && MsgPackCodec.EncodeAll(vs) == b && DataOfAll(vs) == items
    decreases items, 1
  {
    vs := [];
    if items != [] {
      var first, others :|
        Represents(first, items[0]) && RepresentAll(others, items[1..]) && b == first + others;
      var v := RepresentationIs(first, items[0]);
      var more := AllAre(others, items[1..]);
      vs := [v] + more;
      assert vs[1..] == more;
    }
  }

  lemma {:induction false} EntriesAre(b: Bytes, entries: seq<Entry>) returns (vs: seq<Value>)
    requires RepresentEntries(b, entries)
    ensures |vs| == 2 * |entries| && AllOk(vs) && MsgPackCodec.EncodeAll(vs) == b && Pairs(DataOfAll(vs)) == entries
    decreases entries, 1
  {
    vs := [];
    if entries != [] {
      var first, others :|
        RepresentsEntry(first, entries[0]) && RepresentEntries(others, entries[1..]) && b == first + others;
      var k, v := EntryIs(first, entries[0]);
      var more := EntriesAre(others, entries[1..]);
      vs := [k] + ([v] + more);
      TwoEncoded(k, v, more);
      TwoInFront(k, v, more);
    }
  }

  lemma {:induction false} EntryIs(b: Bytes, entry: Entry) returns (k: Value, v: Value)
    requires RepresentsEntry(b, entry)
    ensures Ok(k) && Ok(v) && b == Encode(k) + Encode(v) && entry == Entry(DataOf(k), DataOf(v))
    decreases entry, 1
  {
    var key, value :| Represents(key, entry.key) && Represents(value, entry.value) && b == key + value;
    k := RepresentationIs(key, entry.key);
    v := RepresentationIs(value, entry.value);
  }

  lemma TwoEncoded(k: Value, v: Value, more: seq<Value>)
    requires Ok(k) && Ok(v) && AllOk(more)
    ensures AllOk([k] + ([v] + more))
    ensures MsgPackCodec.EncodeAll([k] + ([v] + more)) == Encode(k) + Encode(v) + MsgPackCodec.EncodeAll(more)
  {
    var rest := MsgPackCodec.EncodeAll(more);
    EncodeCons(v, more);
    EncodeCons(k, [v] + more);
    assert Encode(k) + (Encode(v) + rest) == Encode(k) + Encode(v) + rest;
  }

  lemma TwoInFront(k: Value, v: Value, more: seq<Value>)
    ensures DataOfAll([k] + ([v] + more)) == [DataOf(k), DataOf(v)] + DataOfAll(more)
    ensures Pairs(DataOfAll([k] + ([v] + more))) == [Entry(DataOf(k), DataOf(v))] + Pairs(DataOfAll(more))
  {
    var all := [k] + ([v] + more);
    assert all[1..] == [v] + more && all[1..][1..] == more;
    assert ([DataOf(k), DataOf(v)] + DataOfAll(more))[2..] == DataOfAll(more);
  }

  // ---------------------------------------------------------------------------------------
  // And what `Encode` makes of a value represents what the value stands for
  // ---------------------------------------------------------------------------------------

  lemma SizedHeads(tag: byte, n: nat)
    requires (0xc4 <= tag <= 0xc9 || 0xd9 <= tag <= 0xdb) && Fits(ShapeOf(tag), n)
    ensures var m := if 0xc7 <= tag <= 0xc9 then n - 1 else n;
      && m >= 0
      && (tag == 0xc4 || tag == 0xc7 || tag == 0xd9 ==>
            m < 0x100 && [tag] + Field(ShapeOf(tag), n) == [tag] + U8(m))
      && (tag == 0xc5 || tag == 0xc8 || tag == 0xda ==>
            m < 0x1_0000 && [tag] + Field(ShapeOf(tag), n) == [tag] + U16(m))
      && (tag == 0xc6 || tag == 0xc9 || tag == 0xdb ==>
            m < 0x1_0000_0000 && [tag] + Field(ShapeOf(tag), n) == [tag] + U32(m))
  {
    Constants();
    var m := if 0xc7 <= tag <= 0xc9 then n - 1 else n;
    if m < 0x100 { assert BigEndian(1, m) == U8(m); }
    if m < 0x1_0000 { FieldU16(m); }
    if m < 0x1_0000_0000 { FieldU32(m); }
  }

  lemma HeadsText(tag: byte, n: nat)
    requires (0xa0 <= tag < 0xc0 || 0xd9 <= tag < 0xdc) && Fits(ShapeOf(tag), n)
    ensures TextHead(n, [tag] + Field(ShapeOf(tag), n))
  {
    if 0xd9 <= tag { SizedHeads(tag, n); }
  }

  lemma HeadsBinary(tag: byte, n: nat)
    requires 0xc4 <= tag < 0xc7 && Fits(ShapeOf(tag), n)
    ensures BinaryHead(n, [tag] + Field(ShapeOf(tag), n))
  {
    SizedHeads(tag, n);
  }

  lemma HeadsExt(tag: byte, n: nat)
    requires (0xc7 <= tag < 0xca || 0xd4 <= tag < 0xd9) && Fits(ShapeOf(tag), n)
    ensures n > 0 && ExtHead(n - 1, [tag] + Field(ShapeOf(tag), n))
  {
    if tag < 0xca { SizedHeads(tag, n); } else { Constants(); }
  }

  lemma HeadsArray(tag: byte, n: nat)
    requires 0x90 <= tag < 0xde && !IsLeaf(tag) && Fits(ShapeOf(tag), n)
    ensures ArrayHead(n, [tag] + Field(ShapeOf(tag), n))
  {
    if tag >= 0xdc {
      Constants();
      if tag == 0xdc { FieldU16(n); } else { FieldU32(n); }
    }
  }

  lemma HeadsMap(tag: byte, n: nat)
    requires (tag < 0x90 || 0xde <= tag) && !IsLeaf(tag) && Fits(ShapeOf(tag), n)
    ensures n % 2 == 0 && MapHead(n / 2, [tag] + Field(ShapeOf(tag), n))
  {
    if tag >= 0xde {
      Constants();
      if tag == 0xde { FieldU16(n / 2); } else { FieldU32(n / 2); }
    }
  }

  lemma IntegerRepresents(tag: byte, data: Bytes)
    requires 0xcc <= tag < 0xd4 && Ok(Leaf(tag, data))
    ensures LeafBytes(LeafData(tag as int, data), [tag] + data)
  {
    IntegerTags(tag);
    FieldIs(|data|, FromBigEndian(data), data);
    if tag < 0xd0 { UnsignedRepresents(tag, data); } else { SignedRepresents(tag, data); }
  }

  lemma UnsignedRepresents(tag: byte, data: Bytes)
    requires 0xcc <= tag < 0xd0 && IsField([1, 2, 4, 8][tag as int - 0xcc], FromBigEndian(data), data)
    ensures LeafBytes(LeafData(tag as int, data), [tag] + data)
  {
    UnsignedFields(FromBigEndian(data), tag, data);
  }

  lemma SignedRepresents(tag: byte, data: Bytes)
    requires 0xd0 <= tag < 0xd4 && IsField([1, 2, 4, 8][tag as int - 0xd0], FromBigEndian(data), data)
    ensures LeafBytes(LeafData(tag as int, data), [tag] + data)
  {
    var u := FromBigEndian(data);
    assert LeafData(tag as int, data) == Int(Signed(u, Half(tag)));
    assert u < 2 * Half(tag) && Wrapped(Signed(u, Half(tag)), Half(tag)) == u;
    SignedFields(Signed(u, Half(tag)), tag, data);
  }

  lemma BytesRepresent(tag: byte, data: Bytes)
    requires 0xa0 <= tag < 0xc0 || 0xc4 <= tag < 0xc7 || 0xd9 <= tag < 0xdc
    requires Fits(ShapeOf(tag), |data|)
    ensures var b := [tag] + Field(ShapeOf(tag), |data|) + data;
      if 0xc4 <= tag < 0xc7 then BinaryBytes(data, b) else TextBytes(data, b)
  {
    if 0xc4 <= tag < 0xc7 { HeadsBinary(tag, |data|); } else { HeadsText(tag, |data|); }
  }

  lemma ExtRepresents(tag: byte, data: Bytes)
    requires (0xc7 <= tag < 0xca || 0xd4 <= tag < 0xd9) && Fits(ShapeOf(tag), |data|)
    ensures |data| > 0 && ExtBytes(data[0], data[1..], [tag] + Field(ShapeOf(tag), |data|) + data)
  {
    HeadsExt(tag, |data|);
    assert data == [data[0]] + data[1..] && |data[1..]| == |data| - 1;
  }

  lemma BareRepresents(tag: byte, data: Bytes)
    requires tag < 0xa0 || tag == 0xc0 || tag == 0xc2 || tag == 0xc3 || tag >= 0xe0 || tag == 0xca || tag == 0xcb
    requires Ok(Leaf(tag, data))
    ensures LeafBytes(LeafData(tag as int, data), [tag] + data)
  {}

  lemma LeafRepresents(tag: byte, data: Bytes)
    requires Ok(Leaf(tag, data))
    ensures LeafBytes(LeafData(tag as int, data), [tag] + Field(ShapeOf(tag), |data|) + data)
  {
    if 0xa0 <= tag < 0xc0 || 0xc4 <= tag < 0xc7 || 0xd9 <= tag < 0xdc {
      BytesRepresent(tag, data);
    } else if 0xc7 <= tag < 0xca || 0xd4 <= tag < 0xd9 {
      ExtRepresents(tag, data);
    } else {
      assert Field(ShapeOf(tag), |data|) == [];
      assert [tag] + [] + data == [tag] + data;
      if 0xcc <= tag < 0xd4 { IntegerRepresents(tag, data); } else { BareRepresents(tag, data); }
    }
  }

  lemma {:induction false} ValueRepresents(v: Value)
    ensures Represented(v)
    decreases v, 0
  {
    if Ok(v) {
      match v
      case Leaf(tag, data) => LeafRepresents(tag, data);
      case Node(tag, items) =>
        if tag < 0x90 || 0xde <= tag {
          HeadsMap(tag, |items|);
          EntriesRepresent(items);
          MapRepresents(tag, items);
        } else {
          HeadsArray(tag, |items|);
          AllRepresent(items);
          ArrayRepresents(tag, items);
        }
    }
  }

  lemma MapRepresents(tag: byte, items: seq<Value>)
    requires Ok(Node(tag, items)) && (tag < 0x90 || 0xde <= tag) && EntriesRepresented(items)
    ensures Represented(Node(tag, items))
  {
    HeadsMap(tag, |items|);
    assert RepresentEntries(MsgPackCodec.EncodeAll(items), Pairs(DataOfAll(items)));
  }

  lemma ArrayRepresents(tag: byte, items: seq<Value>)
    requires Ok(Node(tag, items)) && 0x90 <= tag < 0xde && AllRepresented(items)
    ensures Represented(Node(tag, items))
  {
    HeadsArray(tag, |items|);
    assert RepresentAll(MsgPackCodec.EncodeAll(items), DataOfAll(items));
  }

  ghost predicate AllRepresented(vs: seq<Value>) {
    AllOk(vs) ==> RepresentAll(MsgPackCodec.EncodeAll(vs), DataOfAll(vs))
  }

  lemma {:induction false} AllRepresent(vs: seq<Value>)
    ensures AllRepresented(vs)
    decreases vs, 1
  {
    if vs != [] && AllOk(vs) {
      ValueRepresents(vs[0]);
      AllRepresent(vs[1..]);
      assert DataOfAll(vs)[1..] == DataOfAll(vs[1..]);
    }
  }

  /** What is to be shown of a value, and of keys and values in turn. */
  ghost predicate Represented(v: Value) {
    Ok(v) ==> Represents(Encode(v), DataOf(v))
  }

  ghost predicate EntriesRepresented(vs: seq<Value>) {
    AllOk(vs) ==> RepresentEntries(MsgPackCodec.EncodeAll(vs), Pairs(DataOfAll(vs)))
  }

  lemma {:induction false} EntriesRepresent(vs: seq<Value>)
    requires |vs| % 2 == 0
    ensures EntriesRepresented(vs)
    decreases vs, 1
  {
    if vs == [] {
      NoEntries();
    } else {
      var k, v, more := vs[0], vs[1], vs[2..];
      assert vs == [k] + ([v] + more);
      ValueRepresents(k);
      ValueRepresents(v);
      EntriesRepresent(more);
      TwoRepresent(k, v, more);
    }
  }

  lemma NoEntries()
    ensures EntriesRepresented([])
  {}

  lemma TwoRepresent(k: Value, v: Value, more: seq<Value>)
    requires Represented(k) && Represented(v) && EntriesRepresented(more)
    ensures EntriesRepresented([k] + ([v] + more))
  {
    var vs := [k] + ([v] + more);
    if AllOk(vs) {
      assert vs[0] == k && vs[1] == v && vs[2..] == more;
      TwoEncoded(k, v, more);
      TwoInFront(k, v, more);
      OneMoreEntry(Encode(k), DataOf(k), Encode(v), DataOf(v), MsgPackCodec.EncodeAll(more), Pairs(DataOfAll(more)));
    }
  }

  lemma OneMoreEntry(key: Bytes, k: Data, value: Bytes, v: Data, others: Bytes, entries: seq<Entry>)
    requires Represents(key, k) && Represents(value, v) && RepresentEntries(others, entries)
    ensures RepresentEntries(key + value + others, [Entry(k, v)] + entries)
  {
    assert RepresentsEntry(key + value, Entry(k, v));
    assert ([Entry(k, v)] + entries)[1..] == entries;
  }

  // ---------------------------------------------------------------------------------------
  // Main results
  // ---------------------------------------------------------------------------------------

  /**
   * Whatever form the sender chose, the bytes that represent something are decoded as just that,
   * and what follows them is left.
   */
  lemma Decodes(b: Bytes, d: Data, tail: Bytes)
    requires Represents(b, d)
    ensures Decode(b + tail).Done? && Decode(b + tail).rest == tail && DataOf(Decode(b + tail).value) == d
  {
    var v := RepresentationIs(b, d);
    DecodeEncode(v, tail);
  }

  /** And only such bytes are decoded. */
  lemma DecodesExactly(b: Bytes, d: Data, tail: Bytes)
    ensures (Decode(b + tail).Done? && Decode(b + tail).rest == tail && DataOf(Decode(b + tail).value) == d)
      <==> Represents(b, d)
  {
    if Represents(b, d) { Decodes(b, d, tail); }
    var p := Decode(b + tail);
    if p.Done? && p.rest == tail {
      EncodeDecode(b + tail);
      assert (b + tail)[..|b|] == b && (Encode(p.value) + tail)[..|b|] == Encode(p.value);
      ValueRepresents(p.value);
    }
  }

  /** A map of n entries has twice as many values behind its header. */
  lemma MapsHoldPairs(b: Bytes, entries: seq<Entry>, tail: Bytes)
    requires Represents(b, Map(entries))
    ensures Decode(b + tail).Done? && Decode(b + tail).rest == tail
    ensures Decode(b + tail).value.Node? && |Decode(b + tail).value.items| == 2 * |entries|
  {
    var head, body :| MapHead(|entries|, head) && RepresentEntries(body, entries) && b == head + body;
    MapHeadIs(|entries|, head);
    var vs := EntriesAre(body, entries);
    DecodeEncode(Node(head[0], vs), tail);
  }

  /** No bytes begin with representations of two different things. */
  lemma RepresentsOne(a: Bytes, d: Data, b: Bytes, e: Data, tail: Bytes, tail': Bytes)
    requires Represents(a, d) && Represents(b, e) && a + tail == b + tail'
    ensures a == b && d == e
  {
    Decodes(a, d, tail);
    Decodes(b, e, tail');
    assert (a + tail)[..|a|] == a && (b + tail')[..|b|] == b;
  }

  // ---------------------------------------------------------------------------------------
  // Waiting for more
  // ---------------------------------------------------------------------------------------

  function Zeros(n: nat): (b: Bytes)
    ensures |b| == n
  {
    seq(n, _ => 0)
  }

  function Nils(n: nat): (b: Bytes)
    ensures |b| == n
  {
    seq(n, _ => 0xc0)
  }

  lemma NilDecodes(rest: Bytes)
    ensures Decode([0xc0] + rest) == Done(Leaf(0xc0, []), rest)
  {
    var b := [0xc0] + rest;
    assert b[0] == 0xc0 && b[1..] == rest && rest[0..] == rest;
  }

  lemma {:induction false} NilsDecode(n: nat)
    ensures DecodeMany(n, Nils(n)).Done? && DecodeMany(n, Nils(n)).rest == []
  {
    if n > 0 {
      assert Nils(n) == [0xc0] + Nils(n - 1);
      NilDecodes(Nils(n - 1));
      NilsDecode(n - 1);
    }
  }

  lemma FieldCompleted(shape: Shape, b: Bytes) returns (tail: Bytes)
    requires ReadSize(shape, b).More?
    ensures ReadSize(shape, b + tail).Done? && ReadSize(shape, b + tail).rest == []
  {
    tail := Zeros(shape.width - |b|);
    assert (b + tail)[shape.width..] == [];
  }

  /** Nothing is missing behind the size, and nothing too much. */
  predicate BodyIsWhole(leaf: bool, n: nat, body: Bytes) {
    if leaf then Take(n, body).Done? && Take(n, body).rest == []
    else DecodeMany(n, body).Done? && DecodeMany(n, body).rest == []
  }

  predicate IsWhole(shape: Shape, leaf: bool, b: Bytes) {
    ReadSize(shape, b).Done? && BodyIsWhole(leaf, ReadSize(shape, b).value, ReadSize(shape, b).rest)
  }

  lemma WholeValue(tag: byte, b: Bytes)
    requires IsWhole(ShapeOf(tag), IsLeaf(tag), b)
    ensures Decode([tag] + b).Done? && Decode([tag] + b).rest == []
  {
    assert ([tag] + b)[0] == tag && ([tag] + b)[1..] == b;
  }

  /** The body that follows header and size field can be completed from nothing. */
  lemma BodyFromNothing(leaf: bool, n: nat) returns (body: Bytes)
    ensures BodyIsWhole(leaf, n, body)
  {
    body := if leaf then Zeros(n) else Nils(n);
    if !leaf { NilsDecode(n); }
  }

  lemma SizeThen(shape: Shape, b: Bytes, body: Bytes)
    requires ReadSize(shape, b).Done? && ReadSize(shape, b).rest == []
    ensures ReadSize(shape, b + body) == Done(ReadSize(shape, b).value, body)
  {
    SizeMonotone(shape, b, body);
    assert [] + body == body;
  }

  lemma FieldFirst(shape: Shape, leaf: bool, b: Bytes) returns (tail: Bytes)
    requires ReadSize(shape, b).More?
    ensures IsWhole(shape, leaf, b + tail)
  {
    var field := FieldCompleted(shape, b);
    var n := ReadSize(shape, b + field).value;
    var body := BodyFromNothing(leaf, n);
    tail := field + body;
    SizeThen(shape, b + field, body);
    assert b + tail == b + field + body;
    assert ReadSize(shape, b + tail) == Done(n, body);
  }

  lemma RestCompleted(shape: Shape, leaf: bool, b: Bytes, tail: Bytes)
    requires ReadSize(shape, b).Done? && BodyIsWhole(leaf, ReadSize(shape, b).value, ReadSize(shape, b).rest + tail)
    ensures IsWhole(shape, leaf, b + tail)
  {
    SizeMonotone(shape, b, tail);
  }

  /** What the decoder waits for is only more bytes: there are some that complete the value. */
  lemma {:induction false} CanBeCompleted(b: Bytes) returns (tail: Bytes)
    requires Decode(b).More?
    ensures Decode(b + tail).Done? && Decode(b + tail).rest == []
    decreases |b|, 0
  {
    if b == [] {
      tail := [0xc0];
      NilDecodes([]);
      assert [0xc0] + [] == [0xc0] == b + tail;
    } else {
      var tag, t := b[0], b[1..];
      var p := ReadSize(ShapeOf(tag), t);
      if p.More? {
        tail := FieldFirst(ShapeOf(tag), IsLeaf(tag), t);
      } else if IsLeaf(tag) {
        tail := LeafCompleted(b);
      } else {
        tail := ManyCanBeCompleted(p.value, p.rest);
        RestCompleted(ShapeOf(tag), false, t, tail);
      }
      WholeWithTail(b, tail);
    }
  }

  lemma WholeWithTail(b: Bytes, tail: Bytes)
    requires b != [] && IsWhole(ShapeOf(b[0]), IsLeaf(b[0]), b[1..] + tail)
    ensures Decode(b + tail).Done? && Decode(b + tail).rest == []
  {
    WholeValue(b[0], b[1..] + tail);
    assert [b[0]] + (b[1..] + tail) == b + tail;
  }

  lemma LeafCompleted(b: Bytes) returns (tail: Bytes)
    requires b != [] && IsLeaf(b[0]) && Decode(b).More? && ReadSize(ShapeOf(b[0]), b[1..]).Done?
    ensures IsWhole(ShapeOf(b[0]), true, b[1..] + tail)
  {
    var p := ReadSize(ShapeOf(b[0]), b[1..]);
    tail := Zeros(p.value - |p.rest|);
    RestCompleted(ShapeOf(b[0]), true, b[1..], tail);
  }

  lemma {:induction false} ManyCanBeCompleted(n: nat, b: Bytes) returns (tail: Bytes)
    requires DecodeMany(n, b).More?
    ensures DecodeMany(n, b + tail).Done? && DecodeMany(n, b + tail).rest == []
    decreases |b|, 1
  {
    if Decode(b).More? {
      var first := CanBeCompleted(b);
      FirstThenNils(n, b + first);
      tail := first + Nils(n - 1);
      assert b + tail == b + first + Nils(n - 1);
    } else {
      tail := ManyCanBeCompleted(n - 1, Decode(b).rest);
      FirstThenRest(n, b, tail);
    }
  }

  lemma FirstThenRest(n: nat, b: Bytes, tail: Bytes)
    requires n > 0 && Decode(b).Done?
    requires DecodeMany(n - 1, Decode(b).rest + tail).Done? && DecodeMany(n - 1, Decode(b).rest + tail).rest == []
    ensures DecodeMany(n, b + tail).Done? && DecodeMany(n, b + tail).rest == []
  {
    Monotone(b, tail);
  }

  lemma FirstThenNils(n: nat, b: Bytes)
    requires n > 0 && Decode(b).Done? && Decode(b).rest == []
    ensures DecodeMany(n, b + Nils(n - 1)).Done? && DecodeMany(n, b + Nils(n - 1)).rest == []
  {
    NilsDecode(n - 1);
    assert [] + Nils(n - 1) == Nils(n - 1);
    FirstThenRest(n, b, Nils(n - 1));
  }

  /**
   * The decoder waits exactly as long as the bytes are the beginning of something's
   * representation but not yet all of it; otherwise it has a value or fails.
   */
  lemma WaitsExactly(b: Bytes)
    ensures Decode(b).More? <==> exists tail, d :: tail != [] && Represents(b + tail, d)
  {
    if Decode(b).More? {
      var tail := CanBeCompleted(b);
      assert b + [] == b;
      var v := Decode(b + tail).value;
      EncodeDecode(b + tail);
      ValueRepresents(v);
      assert b + tail == Encode(v) + [] == Encode(v);
      assert Represents(b + tail, DataOf(v));
    }
    if tail, d :| tail != [] && Represents(b + tail, d) {
      Decodes(b + tail, d, []);
      assert b + tail + [] == b + tail;
      Monotone(b, tail);
    }
  }

  lemma {:induction false} SameEncoding(vs: seq<Value>)
    requires AllOk(vs)
    ensures StreamDecoder.EncodeAll(Wire, vs) == MsgPackCodec.EncodeAll(vs)
  {
    if vs != [] { SameEncoding(vs[1..]); }
  }

  lemma {:induction false} FramesCount(vs: seq<Value>)
    ensures |FramesOf(Wire, vs)| == |vs|
  {
    if vs != [] { FramesCount(vs[1..]); }
  }

  lemma {:induction false} FrameAt(vs: seq<Value>, i: nat)
    requires i < |vs| && |FramesOf(Wire, vs)| == |vs|
    ensures FramesOf(Wire, vs)[i] == Frame(vs[i], Wire(vs[i]))
  {
    if i > 0 {
      FramesCount(vs[1..]);
      FrameAt(vs[1..], i - 1);
    }
  }

  lemma {:induction false} DataAt(vs: seq<Value>, i: nat)
    requires i < |vs|
    ensures DataOfAll(vs)[i] == DataOf(vs[i])
  {
    if i > 0 { DataAt(vs[1..], i - 1); }
  }

  /**
   * Whoever sends the representations of some items, in whatever forms, and however they are
   * split into reads: as many frames come out, each with bytes that represent its item.
   */
  lemma MessagesArrive(items: seq<Data>, b: Bytes, chunks: seq<Bytes>, i: nat)
    requires RepresentAll(b, items) && Flatten(chunks) == b
    ensures Streaming(Decode)
    ensures var d := Feed(Decode, [], chunks);
      && !d.failed && d.left == [] && |d.frames| == |items|
      && (i < |items| ==> DataOf(d.frames[i].obj) == items[i] && Represents(d.frames[i].vec, items[i]))
  {
    var vs := AllAre(b, items);
    MsgPackStreams();
    SameEncoding(vs);
    var nil := Leaf(0xc0, []);
    assert Wire(nil)[..0] == [] && b + [] == b;
    FramesSurviveAnySplit(Decode, Ok, Wire, vs, nil, 0, chunks);
    FramesCount(vs);
    if i < |items| {
      FrameAt(vs, i);
      DataAt(vs, i);
      ValueRepresents(vs[i]);
    }
  }
}
