/**
 * Taking values off a stream of bytes that arrives in pieces, for any decoder that looks at the
 * bytes from front to back.
 */
module StreamDecoder {
  import opened Common

  type Bytes = seq<byte>

  /** `More` stands for the errors that mean an unexpected end of the bytes read so far. */
  datatype Parse<+V> = Done(value: V, rest: Bytes) | More | Bad

  /** What follows `b` changes neither a value that was decoded nor an error. */
  ghost predicate StreamingAt<V(!new)>(decode: Bytes -> Parse<V>, b: Bytes, tail: Bytes) {
    match decode(b)
    case Done(v, rest) =>
      && |rest| < |b| && b[|b| - |rest|..] == rest
      && decode(b + tail) == Done(v, rest + tail)
    case Bad => decode(b + tail).Bad?
    case More => true
  }

  /** The decoder makes progress, and its verdicts are final. */
  ghost predicate Streaming<V(!new)>(decode: Bytes -> Parse<V>) {
    forall b, tail :: StreamingAt(decode, b, tail)
  }

  // ---------------------------------------------------------------------------------------
  // The decode loop
  // ---------------------------------------------------------------------------------------

  /** A value and the bytes it was decoded from. */
  datatype Frame<V> = Frame(obj: V, vec: Bytes)

  datatype Drained<V> = Drained(frames: seq<Frame<V>>, left: Bytes, failed: bool)

  /** Everything the decode loop gets out of a buffer, and what it leaves there. */
  function Drain<V(!new)>(decode: Bytes -> Parse<V>, b: Bytes): Drained<V>
    requires Streaming(decode)
    decreases |b|
  {
    match decode(b)
    case More => Drained([], b, false)
    case Bad => Drained([], b, true)
    case Done(v, rest) =>
      assert StreamingAt(decode, b, []);
      Prepend([Frame(v, b[..|b| - |rest|])], Drain(decode, rest))
  }

  /** The result for `b`, with frames in front that were taken off earlier. */
  function Prepend<V>(frames: seq<Frame<V>>, d: Drained<V>): Drained<V> {
    d.(frames := frames + d.frames)
  }

  lemma PrependTwice<V>(f: seq<Frame<V>>, g: seq<Frame<V>>, d: Drained<V>)
    ensures Prepend(f, Prepend(g, d)) == Prepend(f + g, d)
  {
    assert f + (g + d.frames) == (f + g) + d.frames;
  }

  lemma PrependNothing<V>(d: Drained<V>)
    ensures Prepend([], d) == d
  {
    assert [] + d.frames == d.frames;
  }

  lemma {:induction false} DrainConcat<V(!new)>(decode: Bytes -> Parse<V>, a: Bytes, b: Bytes)
    requires Streaming(decode)
    ensures var d := Drain(decode, a);
      if d.failed then Drain(decode, a + b).failed && Drain(decode, a + b).frames == d.frames
      else Drain(decode, a + b) == Prepend(d.frames, Drain(decode, d.left + b))
    decreases |a|
  {
    assert StreamingAt(decode, a, b);
    match decode(a)
    case More => PrependNothing(Drain(decode, a + b));
    case Bad =>
    case Done(v, rest) =>
      var first := [Frame(v, a[..|a| - |rest|])];
      assert (a + b)[..|a| - |rest|] == a[..|a| - |rest|];
      DrainConcat(decode, rest, b);
      var d := Drain(decode, rest);
      assert Drain(decode, a + b) == Prepend(first, Drain(decode, rest + b));
      if !d.failed { PrependTwice(first, d.frames, Drain(decode, d.left + b)); }
  }

  /** What the transport makes of a sequence of reads: it stops at the first decoding error. */
  function Feed<V(!new)>(decode: Bytes -> Parse<V>, buf: Bytes, chunks: seq<Bytes>): Drained<V>
    requires Streaming(decode)
    decreases |chunks|
  {
    if chunks == [] then Drained([], buf, false) else
      var d := Drain(decode, buf + chunks[0]);
      if d.failed then d else Prepend(d.frames, Feed(decode, d.left, chunks[1..]))
  }

  lemma {:induction false} DrainLeft<V(!new)>(decode: Bytes -> Parse<V>, b: Bytes)
    requires Streaming(decode)
    ensures !Drain(decode, b).failed ==> decode(Drain(decode, b).left).More?
    decreases |b|
  {
    assert StreamingAt(decode, b, []);
    if decode(b).Done? { DrainLeft(decode, decode(b).rest); }
  }

  /**
   * How the bytes are split into reads makes no difference, for any decoder of this kind and any
   * bytes: the frames and whether decoding fails depend on the concatenation only, and so does
   * what is left over.
   */
  lemma {:induction false} ReadsDoNotMatter<V(!new)>(decode: Bytes -> Parse<V>, buf: Bytes, chunks: seq<Bytes>)
    requires Streaming(decode) && decode(buf).More?
    ensures var whole, fed := Drain(decode, buf + Flatten(chunks)), Feed(decode, buf, chunks);
      && fed.frames == whole.frames
      && fed.failed == whole.failed
      && (!whole.failed ==> fed.left == whole.left)
    decreases |chunks|
  {
    if chunks == [] {
      assert buf + Flatten<byte>([]) == buf;
    } else {
      var now, later := buf + chunks[0], Flatten(chunks[1..]);
      assert buf + Flatten(chunks) == now + later;
      DrainConcat(decode, now, later);
      if !Drain(decode, now).failed {
        DrainLeft(decode, now);
        ReadsDoNotMatter(decode, Drain(decode, now).left, chunks[1..]);
      }
    }
  }

  // ---------------------------------------------------------------------------------------
  // Encodings
  // ---------------------------------------------------------------------------------------

  /** Decoding gives back every value of the encoding, whatever follows it. */
  ghost predicate Inverts<V(!new)>(decode: Bytes -> Parse<V>, ok: V -> bool, encode: V -> Bytes) {
    forall v, tail :: InvertsAt(decode, ok, encode, v, tail)
  }

  ghost predicate InvertsAt<V(!new)>(decode: Bytes -> Parse<V>, ok: V -> bool, encode: V -> Bytes, v: V, tail: Bytes) {
    ok(v) ==> decode(encode(v) + tail) == Done(v, tail)
  }

  /** No encoding is empty or the beginning of another value's. */
  ghost predicate PrefixFree<V(!new)>(ok: V -> bool, encode: V -> Bytes) {
    && (forall v :: ok(v) ==> encode(v) != [])
    && (forall v, w :: ok(v) && ok(w) && encode(v) <= encode(w) ==> v == w)
  }

  /** A cut-off value is always seen as cut off. */
  lemma CutOffValueNeedsMore<V(!new)>(decode: Bytes -> Parse<V>, ok: V -> bool, encode: V -> Bytes, v: V, k: nat)
    requires Streaming(decode) && Inverts(decode, ok, encode)
    requires ok(v) && k < |encode(v)|
    ensures decode(encode(v)[..k]).More?
  {
    var b, tail := encode(v)[..k], encode(v)[k..];
    assert b + tail == encode(v) + [];
    assert InvertsAt(decode, ok, encode, v, []);
    assert StreamingAt(decode, b, tail);
  }

  /** An encoding that such a decoder inverts is prefix-free. */
  lemma InvertedIsPrefixFree<V(!new)>(decode: Bytes -> Parse<V>, ok: V -> bool, encode: V -> Bytes)
    requires Streaming(decode) && Inverts(decode, ok, encode)
    ensures PrefixFree(ok, encode)
  {
    forall v | ok(v) ensures encode(v) != [] {
      assert InvertsAt(decode, ok, encode, v, []);
      assert encode(v) + [] == encode(v);
      assert StreamingAt(decode, encode(v), []);
    }
    forall v, w | ok(v) && ok(w) && encode(v) <= encode(w) ensures v == w {
      var tail := encode(w)[|encode(v)|..];
      assert encode(v) + tail == encode(w) + [];
      assert InvertsAt(decode, ok, encode, v, tail) && InvertsAt(decode, ok, encode, w, []);
    }
  }

  /** The decoder of a prefix-free encoding, as its specification. */
  ghost function Reference<V(!new)>(ok: V -> bool, encode: V -> Bytes, b: Bytes): Parse<V> {
    if v :| ok(v) && encode(v) <= b then
      var v :| ok(v) && encode(v) <= b; Done(v, b[|encode(v)|..])
    else if exists v :: ok(v) && b < encode(v) then More
    else Bad
  }

  lemma BeginsTheSame(x: Bytes, b: Bytes, tail: Bytes)
    requires x <= b + tail || b + tail < x
    ensures x <= b || b < x
  {
    if |x| <= |b| {
      assert x == (b + tail)[..|x|] == b[..|x|];
    } else {
      assert x[..|b|] == (b + tail)[..|b|] == b;
    }
  }

  lemma ReferenceStreams<V(!new)>(ok: V -> bool, encode: V -> Bytes, b: Bytes, tail: Bytes)
    requires PrefixFree(ok, encode)
    ensures StreamingAt(x => Reference(ok, encode, x), b, tail)
  {
    var p, q := Reference(ok, encode, b), Reference(ok, encode, b + tail);
    if p.Done? {
      var v := p.value;
      assert ok(v) && encode(v) <= b && encode(v) <= b + tail;
      var w := q.value;
      assert encode(v) <= encode(w) || encode(w) <= encode(v) by {
        assert encode(v) == (b + tail)[..|encode(v)|] && encode(w) == (b + tail)[..|encode(w)|];
      }
      assert (b + tail)[|encode(v)|..] == b[|encode(v)|..] + tail;
    } else if q.Done? {
      BeginsTheSame(encode(q.value), b, tail);
    } else if q.More? {
      var v :| ok(v) && b + tail < encode(v);
      BeginsTheSame(encode(v), b, tail);
    }
  }

  /** So a prefix-free encoding has such a decoder: these are exactly the encodings covered. */
  lemma PrefixFreeIsInverted<V(!new)>(ok: V -> bool, encode: V -> Bytes)
    requires PrefixFree(ok, encode)
    ensures var decode := x => Reference(ok, encode, x);
      Streaming(decode) && Inverts(decode, ok, encode)
  {
    var decode := x => Reference(ok, encode, x);
    forall b, tail ensures StreamingAt(decode, b, tail) {
      ReferenceStreams(ok, encode, b, tail);
    }
    forall v, tail ensures InvertsAt(decode, ok, encode, v, tail) {
      if ok(v) {
        var b := encode(v) + tail;
        assert encode(v) <= b;
        var w := Reference(ok, encode, b).value;
        assert encode(v) == b[..|encode(v)|] && encode(w) == b[..|encode(w)|];
        assert encode(v) <= encode(w) || encode(w) <= encode(v);
      }
    }
  }

  ghost function EncodeAll<V(!new)>(encode: V -> Bytes, vs: seq<V>): Bytes {
    if vs == [] then [] else encode(vs[0]) + EncodeAll(encode, vs[1..])
  }

  ghost function FramesOf<V(!new)>(encode: V -> Bytes, vs: seq<V>): seq<Frame<V>> {
    if vs == [] then [] else [Frame(vs[0], encode(vs[0]))] + FramesOf(encode, vs[1..])
  }

  lemma {:induction false} DrainEncoded<V(!new)>(decode: Bytes -> Parse<V>, ok: V -> bool, encode: V -> Bytes,
                                                 vs: seq<V>, partial: Bytes)
    requires Streaming(decode) && Inverts(decode, ok, encode)
    requires (forall v :: v in vs ==> ok(v)) && decode(partial).More?
    ensures Drain(decode, EncodeAll(encode, vs) + partial) == Drained(FramesOf(encode, vs), partial, false)
  {
    var b := EncodeAll(encode, vs) + partial;
    if vs == [] {
      assert b == partial;
    } else {
      var tail := EncodeAll(encode, vs[1..]) + partial;
      assert b == encode(vs[0]) + tail;
      assert InvertsAt(decode, ok, encode, vs[0], tail);
      DrainEncoded(decode, ok, encode, vs[1..], partial);
      assert b[..|b| - |tail|] == encode(vs[0]);
    }
  }

  /**
   * However a stream of encoded values, cut off inside a further value, is split into reads,
   * the loop yields exactly those values with exactly their bytes, and keeps the cut-off rest.
   */
  lemma FramesSurviveAnySplit<V(!new)>(decode: Bytes -> Parse<V>, ok: V -> bool, encode: V -> Bytes,
                                       vs: seq<V>, v: V, k: nat, chunks: seq<Bytes>)
    requires Streaming(decode) && Inverts(decode, ok, encode)
    requires (forall w :: w in vs ==> ok(w)) && ok(v) && k < |encode(v)|
    requires Flatten(chunks) == EncodeAll(encode, vs) + encode(v)[..k]
    ensures Feed(decode, [], chunks) == Drained(FramesOf(encode, vs), encode(v)[..k], false)
  {
    CutOffValueNeedsMore(decode, ok, encode, v, k);
    CutOffValueNeedsMore(decode, ok, encode, v, 0);
    assert encode(v)[..0] == [];
    ReadsDoNotMatter(decode, [], chunks);
    assert [] + Flatten(chunks) == Flatten(chunks);
    DrainEncoded(decode, ok, encode, vs, encode(v)[..k]);
  }

  // ---------------------------------------------------------------------------------------
  // The codec and its buffer
  // ---------------------------------------------------------------------------------------

  datatype Step<V> = Item(frame: Frame<V>) | Wait | Fail

  /** What a step makes of the buffer it leaves. */
  ghost function After<V(!new)>(decode: Bytes -> Parse<V>, r: Step<V>, src: Bytes): Drained<V>
    requires Streaming(decode)
  {
    if r.Item? then Prepend([r.frame], Drain(decode, src)) else Drained([], src, r.Fail?)
  }

  /** The codec, with the buffer that it advances in place. */
  class Decoder<V(!new)> {
    const decode: Bytes -> Parse<V>
    var src: Bytes

    constructor (decode: Bytes -> Parse<V>)
      ensures this.decode == decode && src == []
    {
      this.decode := decode;
      src := [];
    }

    /** One call of `decode`: only a complete value moves the buffer forward, past its own bytes. */
    method DecodeOne() returns (r: Step<V>)
      requires Streaming(decode)
      modifies this
      ensures match decode(old(src)) {
          case More => r == Wait && src == old(src)
          case Bad => r == Fail && src == old(src)
          case Done(v, rest) => r.Item? && r.frame.obj == v && src == rest && old(src) == r.frame.vec + src
        }
      ensures Drain(decode, old(src)) == After(decode, r, src)
    {
      match decode(src) {
        case More => r := Wait;
        case Bad => r := Fail;
        case Done(obj, rest) =>
          assert StreamingAt(decode, src, []);
          var len := |src| - |rest|;
          var vec := src[..len];
          src := src[len..];
          r := Item(Frame(obj, vec));
      }
    }

    /** One read: the bytes are appended, and frames are taken off until one is incomplete. */
    method Read(bytes: Bytes) returns (frames: seq<Frame<V>>, failed: bool)
      requires Streaming(decode)
      modifies this
      ensures Drained(frames, src, failed) == Drain(decode, old(src) + bytes)
    {
      src := src + bytes;
      frames := [];
      ghost var whole := src;
      var r := DecodeOne();
      PrependNothing(Drain(decode, whole));
      while r.Item?
        invariant Drain(decode, whole) == Prepend(frames, After(decode, r, src))
        decreases |src|, if r.Item? then 1 else 0
      {
        PrependTwice(frames, [r.frame], Drain(decode, src));
        frames := frames + [r.frame];
        r := DecodeOne();
      }
      failed := r.Fail?;
    }

    /** The reads of a connection, up to the first decoding error. */
    method ReadAll(chunks: seq<Bytes>) returns (frames: seq<Frame<V>>, failed: bool)
      requires Streaming(decode) && decode(src).More?
      modifies this
      ensures var whole := Drain(decode, old(src) + Flatten(chunks));
        && frames == whole.frames && failed == whole.failed && (!failed ==> src == whole.left)
    {
      ReadsDoNotMatter(decode, src, chunks);
      frames, failed := [], false;
      var i := 0;
      ghost var all := Feed(decode, src, chunks);
      PrependNothing(all);
      while i < |chunks| && !failed
        invariant 0 <= i <= |chunks|
        invariant failed ==> all.frames == frames && all.failed
        invariant !failed ==> all == Prepend(frames, Feed(decode, src, chunks[i..]))
      {
        var got;
        assert chunks[i..][0] == chunks[i] && chunks[i..][1..] == chunks[i + 1..];
        got, failed := Read(chunks[i]);
        if !failed { PrependTwice(frames, got, Feed(decode, src, chunks[i + 1..])); }
        frames := frames + got;
        i := i + 1;
      }
      assert !failed ==> chunks[i..] == [];
    }
  }
}
