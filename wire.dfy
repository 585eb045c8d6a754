/** Binary serialization of Telegram's type language (TL), restricted to what the
    persisted-session schema uses: little-endian fixed-width integers (`int`,
    `long`, the flags word `#`), raw `int128`, length-prefixed `bytes`/`string`,
    the boxed `Bool` and the boxed `Vector`. Every decoder reads from the front of
    a byte sequence and returns the value together with the bytes left over. */
module Wire {

  type byte = b: int | 0 <= b < 0x100
  /** TL `#` and constructor ids: unsigned 32-bit. */
  type u32 = x: int | 0 <= x < 0x1_0000_0000
  /** TL `int`: signed 32-bit. */
  type i32 = x: int | -0x8000_0000 <= x < 0x8000_0000
  /** TL `long`: signed 64-bit. */
  type i64 = x: int | -0x8000_0000_0000_0000 <= x < 0x8000_0000_0000_0000
  /** TL `int128`: sixteen raw bytes. */
  type Int128 = s: seq<byte> | |s| == 16
    witness [0, 0, 0, 0, 0, 0, 0, 0, 0, 0, 0, 0, 0, 0, 0, 0]
  /** TL `bytes` (and the bytes of a `string`): the length prefix has 24 bits. */
  type Blob = s: seq<byte> | |s| < 0x100_0000
  /** TL `Vector<T>`: the element count is a 32-bit `#`. */
  type Vector<T> = s: seq<T> | |s| < 0x1_0000_0000 witness []

  const BoolTrueId: u32 := 0x997275b5
  const BoolFalseId: u32 := 0xbc799737
  const VectorId: u32 := 0x1cb5c415

  datatype Option<T> = None | Some(value: T)

  datatype DecodeError =
    | UnexpectedEof
    | UnexpectedConstructor(id: u32)
    | InvalidLengthMarker

  /** A decoded value and the input that follows it. */
  datatype Parsed<T> = Parsed(value: T, rest: seq<byte>)

  datatype Result<T> = Success(value: T) | Failure(error: DecodeError) {
    predicate IsFailure() {
      Failure?
    }

    function PropagateFailure<U>(): Result<U>
      requires Failure?
    {
      Failure(error)
    }

    function Extract(): T
      requires Success?
    {
      value
    }
  }

  type Decoded<T> = Result<Parsed<T>>

  /** The outcome expected from decoding the encoding of `x` followed by `rest`:
      `x` and `rest` back when `ok` holds, a failure otherwise. */
  ghost predicate Yields<T>(r: Decoded<T>, ok: bool, x: T, rest: seq<byte>) {
    if ok then r == Success(Parsed(x, rest)) else r.Failure?
  }

  // ----- little-endian integers -----

  function Pow256(n: nat): (p: nat)
    ensures 0 < p
  {
    if n == 0 then 1 else 256 * Pow256(n - 1)
  }

  function LittleEndian(x: nat, n: nat): (r: seq<byte>)
    ensures |r| == n
  {
    if n == 0 then [] else [x % 256] + LittleEndian(x / 256, n - 1)
  }

  function FromLittleEndian(s: seq<byte>): (x: nat)
    ensures x < Pow256(|s|)
  {
    if s == [] then 0 else s[0] + 256 * FromLittleEndian(s[1..])
  }

  lemma {:induction false} LittleEndianRoundTrip(x: nat, n: nat)
    requires x < Pow256(n)
    ensures FromLittleEndian(LittleEndian(x, n)) == x
  {
    if n > 0 {
      var e := LittleEndian(x, n);
      LittleEndianRoundTrip(x / 256, n - 1);
      assert e[1..] == LittleEndian(x / 256, n - 1);
    }
  }

  lemma {:induction false} LittleEndianCanonical(s: seq<byte>)
    ensures LittleEndian(FromLittleEndian(s), |s|) == s
  {
    if s != [] {
      var x := FromLittleEndian(s);
      assert x % 256 == s[0] && x / 256 == FromLittleEndian(s[1..]);
      LittleEndianCanonical(s[1..]);
    }
  }

  lemma Pow256Values()
    ensures Pow256(3) == 0x100_0000 && Pow256(4) == 0x1_0000_0000
    ensures Pow256(8) == 0x1_0000_0000_0000_0000
  {
  }

  /** Each part of a four-way concatenation, found by its offset. */
  lemma Parts(a: seq<byte>, b: seq<byte>, c: seq<byte>, d: seq<byte>)
    ensures var s := a + b + c + d;
            && |s| == |a| + |b| + |c| + |d|
            && s[..|a|] == a && s[|a|..|a| + |b|] == b && s[|a| + |b|..|a| + |b| + |c|] == c
            && s[|a| + |b| + |c|..] == d
  {
    var s := a + b + c + d;
    assert s == a + (b + c + d);
    assert s == (a + b) + c + d;
    assert s == (a + b + c) + d;
  }

  /** A word at the front of `a + (b + c)` and the word after it. */
  lemma Words(a: seq<byte>, b: seq<byte>, c: seq<byte>)
    requires |a| == 4 && |b| == 4
    ensures var s := a + (b + c);
            s[..4] == a && s[4..8] == b
  {
    var s := a + (b + c);
    assert s[4..] == b + c;
    assert s[4..8] == s[4..][..4];
  }

  /** A word followed by five parts, then `rest`, regrouped from the right. */
  lemma RightNested(w: seq<byte>, a: seq<byte>, b: seq<byte>, c: seq<byte>, d: seq<byte>, e: seq<byte>,
                    rest: seq<byte>)
    ensures w + (a + b + c + d + e) + rest == w + (a + (b + (c + (d + (e + rest)))))
  {
    assert a + b + c + d + e + rest == a + (b + (c + (d + (e + rest))));
  }

  /** A word followed by three parts, then `rest`, regrouped from the right. */
  lemma RightNested3(w: seq<byte>, a: seq<byte>, b: seq<byte>, c: seq<byte>, rest: seq<byte>)
    ensures w + (a + b + c) + rest == w + (a + (b + (c + rest)))
  {
  }

  /** Five parts nested from the right, regrouped from the left. */
  lemma LeftNested(a: seq<byte>, b: seq<byte>, c: seq<byte>, d: seq<byte>, e: seq<byte>)
    ensures a + (b + (c + (d + e))) == (a + b) + c + d + e
  {
  }

  /** Two words before a body of `n` then four parts, regrouped around the
      second and third parts. */
  lemma AroundMiddle(w: seq<byte>, f: seq<byte>, n: seq<byte>, a: seq<byte>, b: seq<byte>, p: seq<byte>,
                     e: seq<byte>)
    ensures w + (f + (n + a + b + p + e)) == (w + f + n) + (a + b) + p + e
  {
    assert n + a + b + p + e == n + ((a + b) + p + e);
  }

  /** Two words before a body of `n` then two parts, regrouped around the second. */
  lemma AroundSecond(w: seq<byte>, f: seq<byte>, n: seq<byte>, u: seq<byte>, e: seq<byte>)
    ensures w + (f + (n + u + e)) == (w + f + n) + u + e
  {
  }

  // ----- `#` and constructor ids -----

  function EncodeU32(x: u32): (r: seq<byte>)
    ensures |r| == 4 && FromLittleEndian(r) == x
  {
    Pow256Values();
    LittleEndianRoundTrip(x, 4);
    LittleEndian(x, 4)
  }

  function DecodeU32(s: seq<byte>): (r: Decoded<u32>)
    ensures r.Success? <==> |s| >= 4
    ensures r.Success? ==> r.value.value == FromLittleEndian(s[..4]) && r.value.rest == s[4..]
  {
    if |s| < 4 then Failure(UnexpectedEof)
    else
      Pow256Values();
      Success(Parsed(FromLittleEndian(s[..4]), s[4..]))
  }

  lemma U32RoundTrip(x: u32, rest: seq<byte>)
    ensures DecodeU32(EncodeU32(x) + rest) == Success(Parsed(x, rest))
  {
    Pow256Values();
    LittleEndianRoundTrip(x, 4);
    assert (EncodeU32(x) + rest)[..4] == EncodeU32(x);
  }

  // ----- flags words -----

  function Pow2(n: nat): (p: nat)
    ensures 0 < p
  {
    if n == 0 then 1 else 2 * Pow2(n - 1)
  }

  /** Bit `n` of a flags word is set. */
  predicate HasBit(flags: nat, n: nat) {
    (flags / Pow2(n)) % 2 == 1
  }

  /** The contribution of an optional field guarded by bit `n`. */
  function BitIf(present: bool, n: nat): nat {
    if present then Pow2(n) else 0
  }

  // ----- `int` and `long` (two's complement, little-endian) -----

  function EncodeInt(x: i32): (r: seq<byte>)
    ensures |r| == 4 && FromLittleEndian(r) == if x < 0 then x + 0x1_0000_0000 else x
  {
    EncodeU32(if x < 0 then x + 0x1_0000_0000 else x)
  }

  function DecodeInt(s: seq<byte>): (r: Decoded<i32>)
    ensures r.Success? <==> |s| >= 4
    ensures r.Success? ==> r.value.rest == s[4..]
  {
    var u :- DecodeU32(s);
    Success(Parsed(if u.value < 0x8000_0000 then u.value else u.value - 0x1_0000_0000, u.rest))
  }

  lemma IntRoundTrip(x: i32, rest: seq<byte>)
    ensures DecodeInt(EncodeInt(x) + rest) == Success(Parsed(x, rest))
  {
    U32RoundTrip(if x < 0 then x + 0x1_0000_0000 else x, rest);
  }

  function EncodeLong(x: i64): (r: seq<byte>)
    ensures |r| == 8 && FromLittleEndian(r) == if x < 0 then x + 0x1_0000_0000_0000_0000 else x
  {
    Pow256Values();
    LittleEndianRoundTrip(if x < 0 then x + 0x1_0000_0000_0000_0000 else x, 8);
    LittleEndian(if x < 0 then x + 0x1_0000_0000_0000_0000 else x, 8)
  }

  function DecodeLong(s: seq<byte>): (r: Decoded<i64>)
    ensures r.Success? <==> |s| >= 8
    ensures r.Success? ==> r.value.rest == s[8..]
  {
    if |s| < 8 then Failure(UnexpectedEof)
    else
      Pow256Values();
      var u := FromLittleEndian(s[..8]);
      Success(Parsed(if u < 0x8000_0000_0000_0000 then u else u - 0x1_0000_0000_0000_0000, s[8..]))
  }

  lemma LongRoundTrip(x: i64, rest: seq<byte>)
    ensures DecodeLong(EncodeLong(x) + rest) == Success(Parsed(x, rest))
  {
    Pow256Values();
    LittleEndianRoundTrip(if x < 0 then x + 0x1_0000_0000_0000_0000 else x, 8);
    assert (EncodeLong(x) + rest)[..8] == EncodeLong(x);
  }

  // ----- `int128` -----

  function EncodeInt128(x: Int128): (r: seq<byte>)
    ensures |r| == 16
  {
    x
  }

  function DecodeInt128(s: seq<byte>): (r: Decoded<Int128>)
    ensures r.Success? <==> |s| >= 16
    ensures r.Success? ==> r.value.rest == s[16..]
  {
    if |s| < 16 then Failure(UnexpectedEof) else Success(Parsed(s[..16], s[16..]))
  }

  lemma Int128RoundTrip(x: Int128, rest: seq<byte>)
    ensures DecodeInt128(EncodeInt128(x) + rest) == Success(Parsed(x, rest))
  {
    assert (x + rest)[..16] == x;
  }

  // ----- `bytes` and `string` -----

  /** Zero bytes appended so that a byte string ends on a 4-byte boundary. */
  function PaddingLength(n: nat): (p: nat)
    ensures p < 4 && (n + p) % 4 == 0
  {
    (4 - n % 4) % 4
  }

  /** One length byte up to 253; otherwise the marker 254 and three length bytes. */
  function BytesHeader(len: nat): (h: seq<byte>)
    requires len < 0x100_0000
    ensures |h| == if len <= 253 then 1 else 4
  {
    if len <= 253 then [len] else [254] + LittleEndian(len, 3)
  }

  function EncodeBytes(b: Blob): (r: seq<byte>)
    ensures |r| % 4 == 0 && |b| < |r| <= |b| + 7
  {
    var h := BytesHeader(|b|);
    h + b + seq(PaddingLength(|h| + |b|), _ => 0)
  }

  function DecodeBytes(s: seq<byte>): (r: Decoded<Blob>)
    ensures r.Success? ==> |r.value.rest| < |s| && (|s| - |r.value.rest|) % 4 == 0
    ensures |s| > 0 && s[0] == 255 ==> r == Failure(InvalidLengthMarker)
  {
    if |s| < 1 then Failure(UnexpectedEof)
    else if s[0] == 255 then Failure(InvalidLengthMarker)
    else
      var headerLength := if s[0] == 254 then 4 else 1;
      if |s| < headerLength then Failure(UnexpectedEof)
      else
        Pow256Values();
        var len := if s[0] == 254 then FromLittleEndian(s[1..4]) else s[0];
        var end := headerLength + len;
        var padded := end + PaddingLength(end);
        if |s| < padded then Failure(UnexpectedEof)
        else Success(Parsed(s[headerLength..end], s[padded..]))
  }

  lemma BytesRoundTrip(b: Blob, rest: seq<byte>)
    ensures DecodeBytes(EncodeBytes(b) + rest) == Success(Parsed(b, rest))
  {
    var h := BytesHeader(|b|);
    var pad := seq(PaddingLength(|h| + |b|), _ => 0);
    var s := EncodeBytes(b) + rest;
    Parts(h, b, pad, rest);
    if |b| > 253 {
      Pow256Values();
      assert s[1..4] == h[1..4] == LittleEndian(|b|, 3);
      LittleEndianRoundTrip(|b|, 3);
    }
  }

  // ----- boxed `Bool` -----

  function EncodeBool(b: bool): (r: seq<byte>)
    ensures |r| == 4 && FromLittleEndian(r) == if b then BoolTrueId else BoolFalseId
  {
    EncodeU32(if b then BoolTrueId else BoolFalseId)
  }

  function DecodeBool(s: seq<byte>): (r: Decoded<bool>)
    ensures r.Success? <==> |s| >= 4 && FromLittleEndian(s[..4]) in {BoolTrueId, BoolFalseId}
    ensures r.Success? ==> r.value.value == (FromLittleEndian(s[..4]) == BoolTrueId) && r.value.rest == s[4..]
  {
    var id :- DecodeU32(s);
    if id.value == BoolTrueId then Success(Parsed(true, id.rest))
    else if id.value == BoolFalseId then Success(Parsed(false, id.rest))
    else Failure(UnexpectedConstructor(id.value))
  }

  lemma BoolRoundTrip(b: bool, rest: seq<byte>)
    ensures DecodeBool(EncodeBool(b) + rest) == Success(Parsed(b, rest))
  {
    U32RoundTrip(if b then BoolTrueId else BoolFalseId, rest);
  }

  // ----- optional fields guarded by a flags bit -----

  function EncodeOptional<T>(enc: T -> seq<byte>, o: Option<T>): (r: seq<byte>)
    ensures o.None? ==> r == []
    ensures o.Some? ==> |r| == |enc(o.value)|
  {
    match o
    case None => []
    case Some(x) => enc(x)
  }

  function DecodeOptional<T>(present: bool, dec: seq<byte> -> Decoded<T>, s: seq<byte>): (r: Decoded<Option<T>>)
    ensures !present ==> r == Success(Parsed(None, s))
    ensures r.Success? ==> (r.value.value.Some? <==> present)
  {
    if !present then Success(Parsed(None, s))
    else
      var x :- dec(s);
      Success(Parsed(Some(x.value), x.rest))
  }

  lemma OptionalRoundTrip<T>(enc: T -> seq<byte>, dec: seq<byte> -> Decoded<T>, ok: bool, o: Option<T>, rest: seq<byte>)
    requires o.Some? ==> Yields(dec(enc(o.value) + rest), ok, o.value, rest)
    ensures Yields(DecodeOptional(o.Some?, dec, EncodeOptional(enc, o) + rest), o.Some? ==> ok, o, rest)
  {
    if o.None? {
      assert EncodeOptional(enc, o) + rest == rest;
    }
  }

  // ----- boxed `Vector` -----

  /** The elements in order, the first one first. */
  function EncodeElements<T>(enc: T -> seq<byte>, xs: seq<T>): (r: seq<byte>)
    ensures xs == [] ==> r == []
    ensures xs != [] ==> |enc(xs[0])| <= |r| && r[..|enc(xs[0])|] == enc(xs[0])
  {
    if xs == [] then [] else
      var first, others := enc(xs[0]), EncodeElements(enc, xs[1..]);
      assert (first + others)[..|first|] == first;
      first + others
  }

  function EncodeVector<T>(enc: T -> seq<byte>, xs: Vector<T>): (r: seq<byte>)
    ensures |r| >= 8 && FromLittleEndian(r[..4]) == VectorId && FromLittleEndian(r[4..8]) == |xs|
  {
    Words(EncodeU32(VectorId), EncodeU32(|xs|), EncodeElements(enc, xs));
    EncodeU32(VectorId) + (EncodeU32(|xs|) + EncodeElements(enc, xs))
  }

  function DecodeElements<T>(dec: seq<byte> -> Decoded<T>, count: nat, s: seq<byte>): (r: Decoded<seq<T>>)
    ensures r.Success? ==> |r.value.value| == count
  {
    if count == 0 then Success(Parsed([], s))
    else
      var first :- dec(s);
      var others :- DecodeElements(dec, count - 1, first.rest);
      Success(Parsed([first.value] + others.value, others.rest))
  }

  function DecodeVector<T>(dec: seq<byte> -> Decoded<T>, s: seq<byte>): (r: Decoded<Vector<T>>)
    ensures |s| >= 4 && FromLittleEndian(s[..4]) != VectorId ==> r.Failure?
    ensures r.Success? ==> |s| >= 8 && |r.value.value| == FromLittleEndian(s[4..8])
  {
    var id :- DecodeU32(s);
    if id.value != VectorId then Failure(UnexpectedConstructor(id.value))
    else
      var count :- DecodeU32(id.rest);
      var items :- DecodeElements(dec, count.value, count.rest);
      assert id.rest[..4] == s[4..8];
      Success(Parsed(items.value, items.rest))
  }

  /** Elements followed by `rest`: the first element, then the others. */
  lemma ElementsParts<T>(enc: T -> seq<byte>, xs: seq<T>, rest: seq<byte>)
    requires xs != []
    ensures EncodeElements(enc, xs) + rest == enc(xs[0]) + (EncodeElements(enc, xs[1..]) + rest)
  {
  }

  /** Decoding `count` elements: the first one, then `count - 1` more. */
  lemma ElementsStep<T>(dec: seq<byte> -> Decoded<T>, count: nat, s: seq<byte>)
    requires count > 0
    ensures dec(s).Failure? ==> DecodeElements(dec, count, s).Failure?
    ensures dec(s).Success? ==>
              var others := DecodeElements(dec, count - 1, dec(s).value.rest);
              && (others.Failure? ==> DecodeElements(dec, count, s).Failure?)
              && (others.Success? ==>
                    DecodeElements(dec, count, s) == Success(Parsed([dec(s).value.value] + others.value.value, others.value.rest)))
  {
  }

  /** Every element satisfies `ok`. */
  ghost predicate All<T>(ok: T -> bool, xs: seq<T>) {
    forall x | x in xs :: ok(x)
  }

  lemma AllOfFirstAndOthers<T>(ok: T -> bool, xs: seq<T>)
    requires xs != []
    ensures All(ok, xs) <==> ok(xs[0]) && All(ok, xs[1..])
  {
    assert xs == [xs[0]] + xs[1..];
  }

  /** Every element of `xs`, followed by any bytes, decodes as `ok` says. */
  ghost predicate ElementsYield<T>(enc: T -> seq<byte>, dec: seq<byte> -> Decoded<T>, ok: T -> bool, xs: seq<T>) {
    forall x, t | x in xs :: Yields(dec(enc(x) + t), ok(x), x, t)
  }

  lemma FirstAndOthersYield<T>(enc: T -> seq<byte>, dec: seq<byte> -> Decoded<T>, ok: T -> bool,
                               xs: seq<T>, t: seq<byte>)
    requires xs != [] && ElementsYield(enc, dec, ok, xs)
    ensures Yields(dec(enc(xs[0]) + t), ok(xs[0]), xs[0], t)
    ensures ElementsYield(enc, dec, ok, xs[1..])
  {
    assert forall x | x in xs[1..] :: x in xs;
  }

  lemma {:induction false} ElementsRoundTrip<T>(enc: T -> seq<byte>, dec: seq<byte> -> Decoded<T>, ok: T -> bool,
                                                 xs: seq<T>, rest: seq<byte>)
    requires ElementsYield(enc, dec, ok, xs)
    ensures Yields(DecodeElements(dec, |xs|, EncodeElements(enc, xs) + rest), All(ok, xs), xs, rest)
  {
    if xs != [] {
      var tail := EncodeElements(enc, xs[1..]) + rest;
      ElementsParts(enc, xs, rest);
      FirstAndOthersYield(enc, dec, ok, xs, tail);
      ElementsStep(dec, |xs|, enc(xs[0]) + tail);
      ElementsRoundTrip(enc, dec, ok, xs[1..], rest);
      AllOfFirstAndOthers(ok, xs);
      assert [xs[0]] + xs[1..] == xs;
    } else {
      assert EncodeElements(enc, xs) + rest == rest;
    }
  }

  lemma VectorRoundTrip<T>(enc: T -> seq<byte>, dec: seq<byte> -> Decoded<T>, ok: T -> bool,
                           xs: Vector<T>, rest: seq<byte>)
    requires ElementsYield(enc, dec, ok, xs)
    ensures Yields(DecodeVector(dec, EncodeVector(enc, xs) + rest), All(ok, xs), xs, rest)
  {
    var body := EncodeElements(enc, xs) + rest;
    var s := EncodeVector(enc, xs) + rest;
    assert s == EncodeU32(VectorId) + (EncodeU32(|xs|) + body);
    U32RoundTrip(VectorId, EncodeU32(|xs|) + body);
    U32RoundTrip(|xs|, body);
    ElementsRoundTrip(enc, dec, ok, xs, rest);
  }
}
