/** The wire primitives of src/nanopb/pb_encode.c and src/nanopb/pb_decode.c as functions on
    byte sequences. */
module PbWire {
  import opened Basics

  const TWO32: nat := 0x1_0000_0000
  const TWO64: nat := 0x1_0000_0000_0000_0000

  /** The outcome of reading from a stream; both cases say where the stream stands after. */
  datatype Read<T> = Got(value: T, rest: Bytes) | Bad(rest: Bytes)

  // ----- variable length integers --------------------------------------------------------

  function Varint(v: nat): (b: Bytes)
    ensures |b| >= 1
  {
    if v < 128 then [v] else [v % 128 + 128] + Varint(v / 128)
  }

  /** The number written in base 128, lowest digit first, top bits aside. */
  function Base128(b: Bytes): nat { if b == [] then 0 else b[0] % 128 + 128 * Base128(b[1..]) }

  /** The encoding of Protocol Buffers varints: base 128, a top bit on every byte but the last,
      and no longer than needed. */
  lemma {:induction false} VarintIs(v: nat)
    ensures Base128(Varint(v)) == v
    ensures forall i :: 0 <= i < |Varint(v)| ==> (Varint(v)[i] >= 128 <==> i < |Varint(v)| - 1)
    ensures |Varint(v)| > 1 ==> Varint(v)[|Varint(v)| - 1] > 0
  {
    var b := Varint(v);
    if v < 128 {
      assert b[1..] == [];
    } else {
      VarintIs(v / 128);
      assert b[1..] == Varint(v / 128);
    }
  }

  /** At most k groups of seven bits, lowest first. */
  function Groups(b: Bytes, k: nat): (r: Read<nat>)
    ensures r.Got? ==> |r.rest| < |b|
    ensures |r.rest| <= |b|
    decreases k
  {
    if k == 0 || b == [] then Bad(b)
    else if b[0] < 128 then Got(b[0], b[1..])
    else match Groups(b[1..], k - 1)
      case Got(v, rest) => Got(b[0] - 128 + 128 * v, rest)
      case Bad(rest) => Bad(rest)
  }

  /** The value modulo m. */
  function Wrapped(r: Read<nat>, m: nat): (w: Read<nat>)
    requires m > 0
    ensures w.rest == r.rest && w.Got? == r.Got?
  {
    match r
    case Got(v, rest) => Got(if v < m then v else v % m, rest)
    case Bad(rest) => Bad(rest)
  }

  /** pb_decode_varint: ten groups, shifted into 64 bits */
  function Varint64(b: Bytes): Read<nat> { Wrapped(Groups(b, 10), TWO64) }

  /** pb_decode_varint32: five groups, shifted into 32 bits */
  function Varint32(b: Bytes): Read<nat> { Wrapped(Groups(b, 5), TWO32) }

  /** The largest number of k groups, plus one. */
  function Span(k: nat): nat { if k == 0 then 1 else 128 * Span(k - 1) }

  lemma {:induction false} GroupsOfVarint(v: nat, k: nat, rest: Bytes)
    requires 0 < k && v < Span(k)
    ensures Groups(Varint(v) + rest, k) == Got(v, rest)
    decreases k
  {
    var b := Varint(v) + rest;
    if v < 128 {
      assert b[1..] == rest;
    } else {
      assert b[1..] == Varint(v / 128) + rest;
      GroupsOfVarint(v / 128, k - 1, rest);
    }
  }

  lemma WrappedBack(v: nat, k: nat, m: nat, rest: Bytes)
    requires 0 < k && v < m <= Span(k)
    ensures Wrapped(Groups(Varint(v) + rest, k), m) == Got(v, rest)
  {
    GroupsOfVarint(v, k, rest);
  }

  lemma Spans()
    ensures TWO32 <= Span(5) && TWO64 <= Span(10)
  {
    assert Span(3) == 128 * 128 * 128;
    assert Span(5) == 128 * 128 * Span(3);
    assert Span(8) == 128 * 128 * 128 * Span(5);
    assert Span(10) == 128 * 128 * Span(8);
  }

  lemma Varint64Back(v: nat, rest: Bytes)
    requires v < TWO64
    ensures Varint64(Varint(v) + rest) == Got(v, rest)
  {
    Spans();
    WrappedBack(v, 10, TWO64, rest);
  }

  lemma Varint32Back(v: nat, rest: Bytes)
    requires v < TWO32
    ensures Varint32(Varint(v) + rest) == Got(v, rest)
  {
    Spans();
    WrappedBack(v, 5, TWO32, rest);
  }

  /** pb_encode_svarint's mapping of signed numbers, for 64-bit arguments */
  function ZigZag(n: int): nat { if n < 0 then -2 * n - 1 else 2 * n }

  /** pb_decode_svarint's mapping back */
  function UnZigZag(v: nat): int { if v % 2 == 1 then -(v / 2) - 1 else v / 2 }

  lemma ZigZagBack(n: int)
    ensures UnZigZag(ZigZag(n)) == n
  {
  }

  // ----- fixed width ---------------------------------------------------------------------

  function Le(v: nat, n: nat): (b: Bytes)
    ensures |b| == n
    decreases n
  {
    if n == 0 then [] else [v % 256] + Le(v / 256, n - 1)
  }

  function LeValue(b: Bytes): nat {
    if b == [] then 0 else b[0] + 256 * LeValue(b[1..])
  }

  function Fixed(b: Bytes, n: nat): Read<nat> {
    if |b| < n then Bad(b) else Got(LeValue(b[..n]), b[n..])
  }

  function Span8(n: nat): nat { if n == 0 then 1 else 256 * Span8(n - 1) }

  lemma {:induction false} LeBack(v: nat, n: nat)
    requires v < Span8(n)
    ensures LeValue(Le(v, n)) == v
    decreases n
  {
    if n > 0 { LeBack(v / 256, n - 1); }
  }

  lemma FixedBack(v: nat, n: nat, rest: Bytes)
    requires v < Span8(n)
    ensures Fixed(Le(v, n) + rest, n) == Got(v, rest)
  {
    var b := Le(v, n) + rest;
    assert b[..n] == Le(v, n) && b[n..] == rest;
    LeBack(v, n);
  }

  lemma Spans8()
    ensures Span8(4) == TWO32 && Span8(8) == TWO64
  {
    assert Span8(4) == 256 * 256 * 256 * 256;
    assert Span8(8) == 256 * 256 * 256 * 256 * Span8(4);
  }

  // ----- length-delimited bodies ---------------------------------------------------------

  /** pb_encode_string, and the framing of submessages and packed arrays */
  function Delimited(body: Bytes): Bytes { Varint(|body|) + body }

  /** A body whose length was read as len. */
  function Body(len: Read<nat>): (r: Read<Bytes>)
    ensures r.Got? ==> len.Got? && |r.value| == len.value && len.rest == r.value + r.rest
  {
    match len
    case Bad(r) => Bad(r)
    case Got(n, r) => if |r| < n then Bad(r) else Got(r[..n], r[n..])
  }

  lemma BodyBack(len: Read<nat>, body: Bytes, rest: Bytes)
    requires len == Got(|body|, body + rest)
    ensures Body(len) == Got(body, rest)
  {
    assert (body + rest)[..|body|] == body && (body + rest)[|body|..] == rest;
  }

  lemma Delimited32(body: Bytes, rest: Bytes)
    requires |body| < TWO32
    ensures Body(Varint32(Delimited(body) + rest)) == Got(body, rest)
  {
    assert Delimited(body) + rest == Varint(|body|) + (body + rest);
    Varint32Back(|body|, body + rest);
    BodyBack(Varint32(Delimited(body) + rest), body, rest);
  }

  lemma Delimited64(body: Bytes, rest: Bytes)
    requires |body| < TWO64
    ensures Body(Varint64(Delimited(body) + rest)) == Got(body, rest)
  {
    assert Delimited(body) + rest == Varint(|body|) + (body + rest);
    Varint64Back(|body|, body + rest);
    BodyBack(Varint64(Delimited(body) + rest), body, rest);
  }

  // ----- tags ----------------------------------------------------------------------------

  /** pb_wire_type_t */
  const VARINT := 0
  const BITS64 := 1
  const STRING := 2
  const BITS32 := 5

  datatype Tag = Tag(number: nat, wire: nat)

  function TagBytes(number: nat, wire: nat): (b: Bytes)
    ensures |b| >= 1
  {
    Varint(8 * number + wire)
  }

  /** pb_decode_tag; a zero ends a message */
  function ReadTag(b: Bytes): (r: Read<Tag>)
    ensures r.Got? ==> |r.rest| < |b|
  {
    match Varint32(b)
    case Bad(r) => Bad(r)
    case Got(t, r) => if t == 0 then Bad(r) else Got(Tag(t / 8, t % 8), r)
  }

  lemma TagBack(number: nat, wire: nat, rest: Bytes)
    requires 1 <= number < 0x2000_0000 && wire < 8
    ensures ReadTag(TagBytes(number, wire) + rest) == Got(Tag(number, wire), rest)
  {
    Varint32Back(8 * number + wire, rest);
  }

  // ----- skipping ------------------------------------------------------------------------

  /** pb_skip_varint: no limit on the number of bytes */
  function SkipVarint(b: Bytes): (r: Read<()>)
    ensures |r.rest| <= |b|
  {
    if b == [] then Bad([]) else if b[0] < 128 then Got((), b[1..]) else SkipVarint(b[1..])
  }

  function SkipBytes(b: Bytes, n: nat): Read<()> { if |b| < n then Bad(b) else Got((), b[n..]) }

  /** pb_skip_field */
  function SkipField(b: Bytes, wire: nat): (r: Read<()>)
    ensures r.Got? ==> |r.rest| <= |b|
  {
    if wire == VARINT then SkipVarint(b)
    else if wire == BITS64 then SkipBytes(b, 8)
    else if wire == STRING then
      match Body(Varint32(b))
      case Bad(r) => Bad(r)
      case Got(_, r) => Got((), r)
    else if wire == BITS32 then SkipBytes(b, 4)
    else Bad(b)
  }

  lemma {:induction false} SkipVarintBack(v: nat, rest: Bytes)
    ensures SkipVarint(Varint(v) + rest) == Got((), rest)
  {
    var b := Varint(v) + rest;
    if v < 128 {
      assert b[1..] == rest;
    } else {
      assert b[1..] == Varint(v / 128) + rest;
      SkipVarintBack(v / 128, rest);
    }
  }

  lemma SkipBytesBack(body: Bytes, rest: Bytes)
    ensures SkipBytes(body + rest, |body|) == Got((), rest)
  {
    assert (body + rest)[|body|..] == rest;
  }
}
