/**
 * MessagePack, as its specification lays it out: every header byte says how many bytes or how
 * many values follow, directly or through a big-endian size field.
 */
module MsgPackCodec {
  import opened Common
  import opened StreamDecoder

  /** What follows a header byte; a size field counts bytes beyond `extra`, or `each` values. */
  datatype Shape =
    | Fixed(length: nat)
    | Sized(width: nat, extra: nat)
    | Branch(count: nat)
    | SizedBranch(width: nat, each: nat)
    | Reserved

  function ShapeOf(tag: byte): (shape: Shape)
    ensures shape.SizedBranch? ==> 1 <= shape.each <= 2
  {
    var h := tag as int;
    if h < 0x80 then Fixed(0)                           // positive fixint
    else if h < 0x90 then Branch(2 * (h - 0x80))        // fixmap: keys and values in turn
    else if h < 0xa0 then Branch(h - 0x90)              // fixarray
    else if h < 0xc0 then Fixed(h - 0xa0)               // fixstr
    else if h == 0xc1 then Reserved
    else if h < 0xc4 then Fixed(0)                      // nil, false, true
    else if h < 0xc7 then Sized(Power(h - 0xc4), 0)     // bin 8, 16, 32
    else if h < 0xca then Sized(Power(h - 0xc7), 1)     // ext 8, 16, 32
    else if h == 0xca then Fixed(4)                     // float 32
    else if h == 0xcb then Fixed(8)                     // float 64
    else if h < 0xd0 then Fixed(Power(h - 0xcc))        // uint 8, 16, 32, 64
    else if h < 0xd4 then Fixed(Power(h - 0xd0))        // int 8, 16, 32, 64
    else if h < 0xd9 then Fixed(1 + Power(h - 0xd4))    // fixext 1, 2, 4, 8, 16
    else if h < 0xdc then Sized(Power(h - 0xd9), 0)     // str 8, 16, 32
    else if h < 0xde then SizedBranch(2 * Power(h - 0xdc), 1)   // array 16, 32
    else if h < 0xe0 then SizedBranch(2 * Power(h - 0xde), 2)   // map 16, 32
    else Fixed(0)                                       // negative fixint
  }

  /** Two to the power of k. */
  function Power(k: nat): (n: nat)
    ensures n > 0
  {
    if k == 0 then 1 else 2 * Power(k - 1)
  }

  /** A value with its header; `data` are the bytes after header and size field. */
  datatype Value =
    | Leaf(tag: byte, data: Bytes)
    | Node(tag: byte, items: seq<Value>)

  /** How many different numbers a field of this width holds. */
  function Range(width: nat): (n: nat)
    ensures n > 0
  {
    if width == 0 then 1 else 0x100 * Range(width - 1)
  }

  predicate IsLeaf(tag: byte) { ShapeOf(tag).Fixed? || ShapeOf(tag).Sized? }

  /** Whether n bytes or values can follow a header of this shape. */
  predicate Fits(shape: Shape, n: nat) {
    match shape
    case Fixed(length) => n == length
    case Branch(count) => n == count
    case Sized(width, extra) => extra <= n < extra + Range(width)
    case SizedBranch(width, each) => each > 0 && n % each == 0 && n / each < Range(width)
    case Reserved => false
  }

  predicate Ok(v: Value) {
    match v
    case Leaf(tag, data) => IsLeaf(tag) && Fits(ShapeOf(tag), |data|)
    case Node(tag, items) => !IsLeaf(tag) && Fits(ShapeOf(tag), |items|) && AllOk(items)
  }

  predicate AllOk(vs: seq<Value>) {
    forall i :: 0 <= i < |vs| ==> Ok(vs[i])
  }

  // ---------------------------------------------------------------------------------------
  // Size fields
  // ---------------------------------------------------------------------------------------

  function BigEndian(width: nat, n: nat): (b: Bytes)
    requires n < Range(width)
    ensures |b| == width
  {
    if width == 0 then [] else BigEndian(width - 1, n / 0x100) + [(n % 0x100) as byte]
  }

  function FromBigEndian(b: Bytes): (n: nat)
    ensures n < Range(|b|)
  {
    if b == [] then 0 else FromBigEndian(b[..|b| - 1]) * 0x100 + b[|b| - 1] as nat
  }

  lemma {:induction false} BigEndianRoundTrip(width: nat, n: nat)
    requires n < Range(width)
    ensures FromBigEndian(BigEndian(width, n)) == n
  {
    if width > 0 {
      var b := BigEndian(width, n);
      BigEndianRoundTrip(width - 1, n / 0x100);
      assert b[..width - 1] == BigEndian(width - 1, n / 0x100);
    }
  }

  lemma {:induction false} BigEndianOnto(b: Bytes)
    ensures BigEndian(|b|, FromBigEndian(b)) == b
  {
    if b != [] {
      var front, last := b[..|b| - 1], b[|b| - 1];
      BigEndianOnto(front);
      assert FromBigEndian(b) / 0x100 == FromBigEndian(front) && FromBigEndian(b) % 0x100 == last as nat;
      assert b == front + [last];
    }
  }

  // ---------------------------------------------------------------------------------------
  // Encoding and decoding
  // ---------------------------------------------------------------------------------------

  /** The size field in front of n bytes or values. */
  function Field(shape: Shape, n: nat): Bytes
    requires Fits(shape, n)
  {
    match shape
    case Sized(width, extra) => BigEndian(width, n - extra)
    case SizedBranch(width, each) => BigEndian(width, n / each)
    case _ => []
  }

  function Encode(v: Value): (b: Bytes)
    requires Ok(v)
    ensures b != []
  {
    match v
    case Leaf(tag, data) => [tag] + Field(ShapeOf(tag), |data|) + data
    case Node(tag, items) => [tag] + Field(ShapeOf(tag), |items|) + EncodeAll(items)
  }

  function EncodeAll(vs: seq<Value>): Bytes
    requires AllOk(vs)
  {
    if vs == [] then [] else Encode(vs[0]) + EncodeAll(vs[1..])
  }

  /** The encoding for all values, also those that cannot be encoded. */
  function Wire(v: Value): Bytes {
    if Ok(v) then Encode(v) else []
  }

  function Take(n: nat, b: Bytes): Parse<Bytes> {
    if |b| < n then More else Done(b[..n], b[n..])
  }

  /** The number of bytes or values that follow, behind the size field if there is one. */
  function ReadSize(shape: Shape, b: Bytes): (p: Parse<nat>)
    ensures p.Done? ==> |p.rest| <= |b|
  {
    match shape
    case Fixed(n) => Done(n, b)
    case Branch(n) => Done(n, b)
    case Reserved => Bad
    case Sized(width, extra) =>
      (match Take(width, b) case Done(f, rest) => Done(FromBigEndian(f) + extra, rest) case _ => More)
    case SizedBranch(width, each) =>
      (match Take(width, b) case Done(f, rest) => Done(FromBigEndian(f) * each, rest) case _ => More)
  }

  function Decode(b: Bytes): (p: Parse<Value>)
    ensures p.Done? ==> |p.rest| < |b|
    decreases |b|, 0
  {
    if b == [] then More else
      match ReadSize(ShapeOf(b[0]), b[1..])
      case More => More
      case Bad => Bad
      case Done(n, t) =>
        if IsLeaf(b[0]) then
          match Take(n, t)
          case Done(data, rest) => Done(Leaf(b[0], data), rest)
          case _ => More
        else
          match DecodeMany(n, t)
          case Done(items, rest) => Done(Node(b[0], items), rest)
          case More => More
          case Bad => Bad
  }

  function DecodeMany(n: nat, b: Bytes): (p: Parse<seq<Value>>)
    ensures p.Done? ==> |p.rest| <= |b| && |p.value| == n
    decreases |b|, 1
  {
    if n == 0 then Done([], b) else
      match Decode(b)
      case Done(v, rest) =>
        (match DecodeMany(n - 1, rest)
         case Done(vs, rest') => Done([v] + vs, rest')
         case More => More
         case Bad => Bad)
      case More => More
      case Bad => Bad
  }

  // ---------------------------------------------------------------------------------------
  // The decoder reads from front to back
  // ---------------------------------------------------------------------------------------

  lemma TakeMonotone(n: nat, b: Bytes, tail: Bytes)
    requires n <= |b|
    ensures Take(n, b + tail) == Done(b[..n], b[n..] + tail)
  {
    assert (b + tail)[..n] == b[..n] && (b + tail)[n..] == b[n..] + tail;
  }

  lemma SizeMonotone(shape: Shape, b: Bytes, tail: Bytes)
    ensures ReadSize(shape, b).Done? ==>
      ReadSize(shape, b + tail) == Done(ReadSize(shape, b).value, ReadSize(shape, b).rest + tail)
    ensures ReadSize(shape, b).Bad? ==> ReadSize(shape, b + tail).Bad?
  {
    if (shape.Sized? || shape.SizedBranch?) && shape.width <= |b| { TakeMonotone(shape.width, b, tail); }
  }

  /** Bytes that follow never change what was decoded, nor turn an error into anything else. */
  lemma {:induction false} Monotone(b: Bytes, tail: Bytes)
    ensures Decode(b).Done? ==> Decode(b + tail) == Done(Decode(b).value, Decode(b).rest + tail)
    ensures Decode(b).Bad? ==> Decode(b + tail).Bad?
    decreases |b|, 0
  {
    if b != [] {
      assert (b + tail)[0] == b[0] && (b + tail)[1..] == b[1..] + tail;
      SizeMonotone(ShapeOf(b[0]), b[1..], tail);
      var p := ReadSize(ShapeOf(b[0]), b[1..]);
      if p.Done? {
        if !IsLeaf(b[0]) {
          MonotoneMany(p.value, p.rest, tail);
        } else if p.value <= |p.rest| {
          TakeMonotone(p.value, p.rest, tail);
        }
      }
    }
  }

  lemma {:induction false} MonotoneMany(n: nat, b: Bytes, tail: Bytes)
    ensures DecodeMany(n, b).Done? ==>
      DecodeMany(n, b + tail) == Done(DecodeMany(n, b).value, DecodeMany(n, b).rest + tail)
    ensures DecodeMany(n, b).Bad? ==> DecodeMany(n, b + tail).Bad?
    decreases |b|, 1
  {
    if n > 0 {
      Monotone(b, tail);
      if Decode(b).Done? {
        MonotoneMany(n - 1, Decode(b).rest, tail);
      }
    }
  }

  // ---------------------------------------------------------------------------------------
  // Round trips
  // ---------------------------------------------------------------------------------------

  lemma TakeAll(b: Bytes, tail: Bytes)
    ensures Take(|b|, b + tail) == Done(b, tail)
  {
    assert (b + tail)[..|b|] == b && (b + tail)[|b|..] == tail;
  }

  lemma Whole(n: nat, each: nat)
    requires each > 0 && n % each == 0
    ensures n / each * each == n
  {}

  lemma FieldReadsBack(shape: Shape, n: nat, tail: Bytes)
    requires Fits(shape, n)
    ensures ReadSize(shape, Field(shape, n) + tail) == Done(n, tail)
  {
    var field := Field(shape, n);
    if field == [] { assert field + tail == tail; }
    match shape {
      case Sized(width, extra) =>
        TakeAll(field, tail);
        BigEndianRoundTrip(width, n - extra);
      case SizedBranch(width, each) =>
        TakeAll(field, tail);
        BigEndianRoundTrip(width, n / each);
        Whole(n, each);
      case _ =>
    }
  }

  lemma Assemble(tag: byte, field: Bytes, body: Bytes, rest: Bytes)
    ensures [tag] + field + body + rest == [tag] + (field + (body + rest))
  {}

  /** Decoding undoes encoding, whatever follows. */
  lemma {:induction false} DecodeEncode(v: Value, tail: Bytes)
    requires Ok(v)
    ensures Decode(Encode(v) + tail) == Done(v, tail)
    decreases v, 0
  {
    match v
    case Leaf(tag, data) =>
      var field := Field(ShapeOf(tag), |data|);
      Assemble(tag, field, data, tail);
      FieldReadsBack(ShapeOf(tag), |data|, data + tail);
      TakeAll(data, tail);
    case Node(tag, items) =>
      var field := Field(ShapeOf(tag), |items|);
      Assemble(tag, field, EncodeAll(items), tail);
      FieldReadsBack(ShapeOf(tag), |items|, EncodeAll(items) + tail);
      DecodeEncodeAll(items, tail);
  }

  lemma {:induction false} DecodeEncodeAll(vs: seq<Value>, tail: Bytes)
    requires AllOk(vs)
    ensures DecodeMany(|vs|, EncodeAll(vs) + tail) == Done(vs, tail)
    decreases vs, 1
  {
    if vs == [] {
      assert [] + tail == tail;
    } else {
      assert EncodeAll(vs) + tail == Encode(vs[0]) + (EncodeAll(vs[1..]) + tail);
      DecodeEncode(vs[0], EncodeAll(vs[1..]) + tail);
      DecodeEncodeAll(vs[1..], tail);
      assert [vs[0]] + vs[1..] == vs;
    }
  }

  lemma Multiple(n: nat, each: nat)
    requires 1 <= each <= 2
    ensures (n * each) % each == 0 && n * each / each == n
  {
    if each == 2 { assert n * each == n + n; }
  }

  /** The size field consumed is the one in front of that many bytes or values. */
  lemma SizeWasField(shape: Shape, b: Bytes)
    requires ReadSize(shape, b).Done? && (shape.SizedBranch? ==> 1 <= shape.each <= 2)
    ensures var n := ReadSize(shape, b).value;
      Fits(shape, n) && b == Field(shape, n) + ReadSize(shape, b).rest
  {
    match shape {
      case Sized(width, _) =>
        BigEndianOnto(b[..width]);
        assert b == b[..width] + b[width..];
      case SizedBranch(width, each) =>
        BigEndianOnto(b[..width]);
        Multiple(FromBigEndian(b[..width]), each);
        assert b == b[..width] + b[width..];
      case _ =>
    }
  }

  /** Whatever is decoded was encoded: the bytes consumed are the encoding of the value. */
  lemma {:induction false} EncodeDecode(b: Bytes)
    requires Decode(b).Done?
    ensures Ok(Decode(b).value)
    ensures b == Encode(Decode(b).value) + Decode(b).rest
    decreases |b|, 0
  {
    var tag, p := b[0], ReadSize(ShapeOf(b[0]), b[1..]);
    var field := (SizeWasField(ShapeOf(tag), b[1..]); Field(ShapeOf(tag), p.value));
    assert b == [tag] + b[1..];
    match Decode(b).value
    case Leaf(_, data) =>
      assert p.rest == data + Decode(b).rest;
      Assemble(tag, field, data, Decode(b).rest);
    case Node(_, items) =>
      EncodeDecodeMany(p.value, p.rest);
      Assemble(tag, field, EncodeAll(items), Decode(b).rest);
  }

  lemma EncodeCons(v: Value, vs: seq<Value>)
    requires Ok(v) && AllOk(vs)
    ensures AllOk([v] + vs) && EncodeAll([v] + vs) == Encode(v) + EncodeAll(vs)
  {
    assert ([v] + vs)[1..] == vs;
  }

  lemma EncodeTwo(v: Value, vs: seq<Value>, b: Bytes, rest: Bytes, rest': Bytes)
    requires Ok(v) && b == Encode(v) + rest
    requires AllOk(vs) && rest == EncodeAll(vs) + rest'
    ensures AllOk([v] + vs) && b == EncodeAll([v] + vs) + rest'
  {
    EncodeCons(v, vs);
    assert Encode(v) + (EncodeAll(vs) + rest') == Encode(v) + EncodeAll(vs) + rest';
  }

  lemma {:induction false} EncodeDecodeMany(n: nat, b: Bytes)
    requires DecodeMany(n, b).Done?
    ensures AllOk(DecodeMany(n, b).value)
    ensures b == EncodeAll(DecodeMany(n, b).value) + DecodeMany(n, b).rest
    decreases |b|, 1
  {
    if n > 0 {
      EncodeDecode(b);
      var v, rest := Decode(b).value, Decode(b).rest;
      EncodeDecodeMany(n - 1, rest);
      EncodeTwo(v, DecodeMany(n - 1, rest).value, b, rest, DecodeMany(n - 1, rest).rest);
    }
  }

  /** So all that is known about streaming decoders holds for MessagePack. */
  lemma MsgPackStreams()
    ensures Streaming(Decode)
    ensures Inverts(Decode, Ok, Wire)
  {
    forall b, tail ensures StreamingAt(Decode, b, tail) {
      Monotone(b, tail);
      if Decode(b).Done? { EncodeDecode(b); }
    }
    forall v, tail ensures InvertsAt(Decode, Ok, Wire, v, tail) {
      if Ok(v) { DecodeEncode(v, tail); }
    }
  }
}
