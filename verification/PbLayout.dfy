/** The byte form of messages, type by type: what cf_pb_encode puts out (src/pb/cuttle-pb.c:529-605),
    and which bytes cf_pb_decode refuses. */
module PbLayout {
  import opened Basics
  import opened PbWire
  import opened PbCodec

  // ----- the form of values --------------------------------------------------------------

  /** v is a value that storage of type t can hold. */
  predicate Holds(t: Type, v: Value) {
    match t
    case Int32 => v.Num? && -0x8000_0000 <= v.n < 0x8000_0000
    case Int64 => v.Num? && -0x8000_0000_0000_0000 <= v.n < 0x8000_0000_0000_0000
    case Bool => v.Num? && 0 <= v.n < 2
    case UInt64 => v.Num? && 0 <= v.n < 0x1_0000_0000_0000_0000
    case Fixed64 => v.Num? && 0 <= v.n < 0x1_0000_0000_0000_0000
    case SFixed64 => v.Num? && 0 <= v.n < 0x1_0000_0000_0000_0000
    case Double => v.Num? && 0 <= v.n < 0x1_0000_0000_0000_0000
    case UInt32 => v.Num? && 0 <= v.n < 0x1_0000_0000
    case Fixed32 => v.Num? && 0 <= v.n < 0x1_0000_0000
    case SFixed32 => v.Num? && 0 <= v.n < 0x1_0000_0000
    case Float => v.Num? && 0 <= v.n < 0x1_0000_0000
    case Str => v.Raw?
    case Blob => v.Raw?
    case Message(_) => v.Sub?
  }

  /** Four and eight bytes, lowest first */
  function Four(n: nat): Bytes { [n % 256, n / 256 % 256, n / 0x1_0000 % 256, n / 0x100_0000 % 256] }

  function Eight(n: nat): Bytes { Four(n) + Four(n / 0x1_0000_0000) }

  /** A number as its type puts it on the wire */
  function Number(t: Type, n: int): Bytes
    requires Holds(t, Num(n))
  {
    match t
    case Int32 => Varint(if n < 0 then -2 * n - 1 else 2 * n)
    case Int64 => Varint(if n < 0 then -2 * n - 1 else 2 * n)
    case UInt32 => Varint(n)
    case UInt64 => Varint(n)
    case Bool => Varint(n)
    case Fixed32 => Four(n)
    case SFixed32 => Four(n)
    case Float => Four(n)
    case Fixed64 => Eight(n)
    case SFixed64 => Eight(n)
    case Double => Eight(n)
  }

  /** The wire type of each type, as the Protocol Buffers encoding has it */
  function Kind(t: Type): nat {
    match t
    case Int32 => 0
    case UInt32 => 0
    case Int64 => 0
    case UInt64 => 0
    case Bool => 0
    case Fixed64 => 1
    case SFixed64 => 1
    case Double => 1
    case Str => 2
    case Blob => 2
    case Message(_) => 2
    case Fixed32 => 5
    case SFixed32 => 5
    case Float => 5
  }

  lemma LeStep(n: nat, k: nat)
    ensures Le(n, k + 1) == [n % 256] + Le(n / 256, k)
  {
  }

  lemma Digits(n: nat)
    ensures n / 256 / 256 == n / 0x1_0000 && n / 0x1_0000 / 256 == n / 0x100_0000 && n / 0x100_0000 / 256 == n / 0x1_0000_0000
  {
  }

  lemma LeFour(n: nat, k: nat)
    ensures Le(n, k + 4) == Four(n) + Le(n / 0x1_0000_0000, k)
  {
    Digits(n);
    LeStep(n, k + 3);
    LeStep(n / 256, k + 2);
    LeStep(n / 0x1_0000, k + 1);
    LeStep(n / 0x100_0000, k);
    Digit(n % 256, n / 256 % 256, n / 0x1_0000 % 256, n / 0x100_0000 % 256, Le(n / 0x1_0000_0000, k));
  }

  lemma Digit(a: Byte, b: Byte, c: Byte, d: Byte, rest: Bytes)
    ensures [a] + ([b] + ([c] + ([d] + rest))) == [a, b, c, d] + rest
  {
  }

  lemma FourIs(n: nat)
    ensures Le(n, 4) == Four(n)
  {
    LeFour(n, 0);
  }

  lemma EightIs(n: nat)
    ensures Le(n, 8) == Eight(n)
  {
    LeFour(n, 4);
    FourIs(n / 0x1_0000_0000);
  }

  lemma NumberIs(t: Type, n: int)
    requires Numeric(t) && Holds(t, Num(n))
    ensures NumBytes(t, n) == Number(t, n)
  {
    if t.Fixed32? || t.SFixed32? || t.Float? {
      FourIs(n);
    } else if t.Fixed64? || t.SFixed64? || t.Double? {
      EightIs(n);
    }
  }

  // ----- the form of fields --------------------------------------------------------------

  /** A body behind its length */
  function Sized(b: Bytes): Bytes { Varint(|b|) + b }

  /** One value behind its key */
  function Single(env: Schema, f: Field, v: Value): Bytes
    requires Holds(f.typ, v)
  {
    Varint(8 * f.tag + Kind(f.typ)) +
    match v
    case Num(n) => Number(f.typ, n)
    case Raw(b) => Sized(b)
    case Sub(m) => Sized(Encode(env, f.typ.index, m, 0))
  }

  /** Pieces put together */
  function Concat(pieces: seq<Bytes>): Bytes { if pieces == [] then [] else pieces[0] + Concat(pieces[1..]) }

  predicate AllHold(t: Type, items: seq<Value>) { forall k :: 0 <= k < |items| ==> Holds(t, items[k]) }

  /** The types whose arrays are sent as one field: integers, varint or fixed, of 32 and 64 bits */
  predicate Together(t: Type) {
    match t
    case Int32 => true
    case UInt32 => true
    case Int64 => true
    case UInt64 => true
    case Fixed32 => true
    case SFixed32 => true
    case Fixed64 => true
    case SFixed64 => true
    case Float => false
    case Double => false
    case Bool => false
    case Str => false
    case Blob => false
    case Message(_) => false
  }

  /** A field with what it is stored as: nothing if unset or empty, otherwise one value, one field
      with all numbers, or one field per element */
  function Laid(env: Schema, f: Field, s: Slot): Bytes
    requires Stored(f.typ, s)
  {
    match s
    case One(v) => Single(env, f, v)
    case Opt(has, v) => if has then Single(env, f, v) else []
    case Many(items) =>
      if items == [] then []
      else if Together(f.typ) then
        Varint(8 * f.tag + 2) + Sized(Concat(seq(|items|, k requires 0 <= k < |items| => Number(f.typ, items[k].n))))
      else Concat(seq(|items|, k requires 0 <= k < |items| => Single(env, f, items[k])))
  }

  predicate Stored(t: Type, s: Slot) {
    match s
    case One(v) => Holds(t, v)
    case Opt(has, v) => has ==> Holds(t, v)
    case Many(items) => AllHold(t, items)
  }

  lemma SingleIs(env: Schema, f: Field, v: Value)
    requires Holds(f.typ, v)
    ensures Tagged(env, f, v) == Single(env, f, v)
  {
    if v.Num? { NumberIs(f.typ, v.n); }
  }

  lemma {:induction false} PackedIs(t: Type, items: seq<Value>, all: seq<Bytes>)
    requires Together(t) && AllHold(t, items) && |all| == |items|
    requires forall k :: 0 <= k < |all| ==> all[k] == Number(t, items[k].n)
    ensures Packed(t, items) == Concat(all)
    decreases |items|
  {
    if items != [] {
      NumberIs(t, items[0].n);
      PackedIs(t, items[1..], all[1..]);
    }
  }

  lemma {:induction false} UnpackedIs(env: Schema, f: Field, s: Slot, j: nat, all: seq<Bytes>)
    requires s.Many? && AllHold(f.typ, s.items) && j <= |s.items| == |all|
    requires forall k :: 0 <= k < |all| ==> all[k] == Single(env, f, s.items[k])
    ensures Unpacked(env, f, s, j) == Concat(all[j..])
    decreases |s.items| - j
  {
    if j < |s.items| {
      SingleIs(env, f, s.items[j]);
      UnpackedIs(env, f, s, j + 1, all);
      assert all[j..][1..] == all[j + 1..];
    }
  }

  /** What the encoder puts out for a field. */
  lemma FieldIs(env: Schema, f: Field, s: Slot)
    requires Stored(f.typ, s)
    ensures SlotBytes(env, f, s) == Laid(env, f, s)
  {
    match s
    case One(v) => SingleIs(env, f, v);
    case Opt(has, v) => if has { SingleIs(env, f, v); }
    case Many(items) =>
      if Together(f.typ) {
        PackedIs(f.typ, items, seq(|items|, k requires 0 <= k < |items| => Number(f.typ, items[k].n)));
      } else {
        var all := seq(|items|, k requires 0 <= k < |items| => Single(env, f, items[k]));
        UnpackedIs(env, f, s, 0, all);
        assert all[0..] == all;
      }
  }

  /** The slots of m hold values of their fields' types. */
  ghost predicate WellStored(env: Schema, i: nat, m: Msg) {
    forall j :: 0 <= j < |Fields(env, i)| && j < |m.slots| ==> Stored(Fields(env, i)[j].typ, m.slots[j])
  }

  /** A message is its fields in the order of their table, for every schema and every message. */
  lemma {:induction false} MessageIs(env: Schema, i: nat, m: Msg, j: nat, all: seq<Bytes>)
    requires WellStored(env, i, m) && |all| == |m.slots| == |Fields(env, i)| && j <= |all|
    requires forall k :: 0 <= k < |all| ==> all[k] == Laid(env, Fields(env, i)[k], m.slots[k])
    ensures Encode(env, i, m, j) == Concat(all[j..])
    decreases |all| - j
  {
    if j < |all| {
      FieldIs(env, Fields(env, i)[j], m.slots[j]);
      MessageIs(env, i, m, j + 1, all);
      assert all[j..][1..] == all[j + 1..];
    }
  }

  // ----- what the decoder takes ----------------------------------------------------------

  /** The number a zigzag code stands for: 0, -1, 1, -2, ... */
  function Signed(v: nat): int { if v % 2 == 0 then v / 2 else -((v + 1) / 2) }

  /** Varint types: which numbers on the wire are taken, and as what. */
  lemma VarintTaken(t: Type, v: nat, rest: Bytes)
    requires Kind(t) == 0 && v < 0x1_0000_0000_0000_0000
    ensures ReadNum(t, Varint(v) + rest) ==
            match t
            case Int32 => if v < 0x1_0000_0000 then Got(Num(Signed(v)), rest) else Bad(rest)
            case UInt32 => if v < 0x1_0000_0000 then Got(Num(v), rest) else Bad(rest)
            case Int64 => Got(Num(Signed(v)), rest)
            case Bool => Got(Num(if v == 0 then 0 else 1), rest)
            case _ => Got(Num(v), rest)
  {
    Varint64Back(v, rest);
  }

  /** Types of fixed width take what lies there, lowest byte first, and nothing that is cut off. */
  lemma FixedTaken(t: Type, b: Bytes)
    requires Kind(t) == 1 || Kind(t) == 5
    ensures var n := if Kind(t) == 1 then 8 else 4;
            ReadNum(t, b) == if |b| < n then Bad(b) else Got(Num(LeValue(b[..n])), b[n..])
  {
  }

  /** A field that is not an array is refused behind a key of another wire type. */
  lemma OtherKindRefused(env: Schema, mem: Memory, i: nat, j: nat, w: nat, rest: Bytes, m: Msg)
    requires j < |Fields(env, i)| && w < 8 && w != Kind(Fields(env, i)[j].typ) && !Fields(env, i)[j].store.Array?
    requires var tag := Fields(env, i)[j].tag; 1 <= tag < 0x2000_0000 && Find(Fields(env, i), tag) == Found(j)
    ensures Decode(env, mem, i, Varint(8 * Fields(env, i)[j].tag + w) + rest, m) == None
  {
    TagBack(Fields(env, i)[j].tag, w, rest);
    KindIs(Fields(env, i)[j].typ);
    Refused(env, mem, i, j, Varint(8 * Fields(env, i)[j].tag + w) + rest, Tag(Fields(env, i)[j].tag, w), rest, m);
  }

  lemma KindIs(t: Type)
    ensures Wire(t) == Kind(t)
  {
  }

  lemma Refused(env: Schema, mem: Memory, i: nat, j: nat, b: Bytes, t: Tag, rest: Bytes, m: Msg)
    requires b != [] && ReadTag(b) == Got(t, rest) && Find(Fields(env, i), t.number) == Found(j) && j < |Fields(env, i)|
    requires t.wire != Wire(Fields(env, i)[j].typ) && !Fields(env, i)[j].store.Array?
    ensures Decode(env, mem, i, b, m) == None
  {
  }

  /** A zero where a key is expected ends the message, which must be its last byte. */
  lemma ZeroEnds(env: Schema, mem: Memory, i: nat, rest: Bytes, m: Msg)
    ensures Decode(env, mem, i, [0] + rest, m) == if rest == [] then Some(m) else None
  {
    assert ([0] + rest)[1..] == rest;
    assert Groups([0] + rest, 5) == Got(0, rest);
  }

  /** A string ends at its first zero byte. */
  lemma {:induction false} StringEnds(b: Bytes)
    ensures CString(b) <= b && 0 !in CString(b) && (CString(b) == b || b[|CString(b)|] == 0)
    decreases |b|
  {
    if b != [] && b[0] != 0 { StringEnds(b[1..]); }
  }

  /** Strings are taken up to their first zero byte, byte buffers of up to 65536 bytes as they are. */
  lemma BytesTaken(env: Schema, mem: Memory, b: Bytes, rest: Bytes, was: Value)
    requires |b| < 0x1_0000_0000_0000_0000
    ensures ReadValue(env, mem, Str, Sized(b) + rest, was) == Got(Raw(CString(b)), rest)
    ensures var r := ReadValue(env, mem, Blob, Sized(b) + rest, was); if |b| <= 65536 then r == Got(Raw(b), rest) else r.Bad?
  {
    Delimited64(b, rest);
  }
}
