/** What decoding an encoded message does to any memory, for any two schemas that agree on the
    tags they share. */
module PbRoundTrip {
  import opened Basics
  import opened PbWire
  import opened PbCodec

  // ----- which messages and schemas ------------------------------------------------------

  /** A tag used by both schemas means the same field. */
  ghost predicate Agree(env: Schema, env': Schema) {
    forall i: nat, a: nat, b: nat {:trigger Fields(env, i)[a], Fields(env', i)[b]} ::
      a < |Fields(env, i)| && b < |Fields(env', i)| && Fields(env, i)[a].tag == Fields(env', i)[b].tag ==>
      Fields(env, i)[a] == Fields(env', i)[b]
  }

  /** Field numbers are 1..2^29-1. */
  ghost predicate TagsOk(env: Schema) {
    forall i: nat, a: nat {:trigger Fields(env, i)[a]} ::
      a < |Fields(env, i)| ==> 1 <= Fields(env, i)[a].tag < 0x2000_0000
  }

  /** v is a value of C type t, no length in it exceeds what the decoder of its field takes
      (for a field the reader knows) or what pb_skip_string takes (for one it does not). */
  ghost predicate ValueFits(env: Schema, env': Schema, t: Type, known: bool, v: Value)
    decreases v, 0
  {
    match t
    case Str => v.Raw? && CString(v.b) == v.b && |v.b| < (if known then TWO64 else TWO32)
    case Blob => v.Raw? && if known then |v.b| <= 65536 else |v.b| < TWO32
    case Message(i) => v.Sub? && |Encode(env, i, v.msg, 0)| < TWO32 && (known ==> Fits(env, env', i, v.msg))
    case _ => v.Num? && NumOk(t, v.n)
  }

  ghost predicate SlotFits(env: Schema, env': Schema, f: Field, known: bool, s: Slot)
    decreases s, 0
  {
    match s
    case One(v) => f.store.Required? && ValueFits(env, env', f.typ, known, v)
    case Opt(has, v) => (f.store.Optional? || f.store.OneOf?) && (has ==> ValueFits(env, env', f.typ, known, v))
    case Many(items) =>
      f.store.Array? &&
      (Packable(f.typ) ==> |Packed(f.typ, items)| < TWO32) &&
      forall k :: 0 <= k < |items| ==> ValueFits(env, env', f.typ, known, items[k])
  }

  /** No two members of a union are set: they share one tag variable. */
  ghost predicate OnePerGroup(fs: seq<Field>, m: Msg) {
    forall a, b :: 0 <= a < b < |fs| && b < |m.slots| && fs[a].store.OneOf? && fs[a].store == fs[b].store ==>
      !(m.slots[a].Opt? && m.slots[a].has && m.slots[b].Opt? && m.slots[b].has)
  }

  /** Every field of the message fits. */
  ghost predicate Fits(env: Schema, env': Schema, i: nat, m: Msg)
    decreases m, 0
  {
    |m.slots| == |Fields(env, i)| && OnePerGroup(Fields(env, i), m) &&
    forall j :: 0 <= j < |m.slots| ==>
      SlotFits(env, env', Fields(env, i)[j], Find(Fields(env', i), Fields(env, i)[j].tag).Found?, m.slots[j])
  }

  // ----- what the memory holds afterwards ------------------------------------------------

  function OntoValue(env: Schema, env': Schema, mem: Memory, t: Type, v: Value, was: Value): Value
    decreases v, 0
  {
    if v.Sub? && t.Message? then Sub(Onto(env, env', mem, t.index, v.msg, 0, MsgOf(was))) else v
  }

  /** A scalar value laid over field j of m. */
  function OntoScalar(env: Schema, env': Schema, mem: Memory, fs: seq<Field>, j: nat, f: Field, v: Value, m: Msg): Msg
    decreases v, 1
  {
    Put(fs, j, m, Full(f, OntoValue(env, env', Within(mem, f.tag, 0), f.typ, v, Place(mem, f, SlotAt(m, j), InUse(fs, j, m)))))
  }

  /** One element more at field j of m. */
  function OntoItem(env: Schema, env': Schema, mem: Memory, fs: seq<Field>, j: nat, f: Field, v: Value, m: Msg): Msg
    decreases v, 1
  {
    var was := ItemsOf(SlotAt(m, j));
    Put(fs, j, m, Many(was + [OntoValue(env, env', Within(mem, f.tag, |was|), f.typ, v, Fresh(mem, f, |was|))]))
  }

  function OntoItems(env: Schema, env': Schema, mem: Memory, fs: seq<Field>, j: nat, f: Field, s: Slot, k: nat, m: Msg): Msg
    requires s.Many? && k <= |s.items|
    decreases s, |s.items| - k
  {
    if k == |s.items| then m
    else OntoItems(env, env', mem, fs, j, f, s, k + 1, OntoItem(env, env', mem, fs, j, f, s.items[k], m))
  }

  /** Field j of m after the encoding of slot s has been decoded. */
  function OntoSlot(env: Schema, env': Schema, mem: Memory, fs: seq<Field>, j: nat, f: Field, s: Slot, m: Msg): Msg
    decreases s, if s.Many? then |s.items| + 1 else 0
  {
    match s
    case One(v) => OntoScalar(env, env', mem, fs, j, f, v, m)
    case Opt(has, v) => if has then OntoScalar(env, env', mem, fs, j, f, v, m) else m
    case Many(items) =>
      if items == [] then m
      else if Packable(f.typ) then Put(fs, j, m, Many(items))
      else OntoItems(env, env', mem, fs, j, f, s, 0, m)
  }

  function OntoField(env: Schema, env': Schema, mem: Memory, i: nat, f: Field, s: Slot, m: Msg): Msg
    decreases s, if s.Many? then |s.items| + 2 else 1
  {
    match Find(Fields(env', i), f.tag)
    case Unknown => m
    case Found(j) => OntoSlot(env, env', mem, Fields(env', i), j, f, s, m)
  }

  /** The memory r after the fields of m from j on have been decoded over it. */
  function Onto(env: Schema, env': Schema, mem: Memory, i: nat, m: Msg, j: nat, r: Msg): Msg
    decreases m, |m.slots| - j
  {
    if j < |Fields(env, i)| && j < |m.slots| then
      Onto(env, env', mem, i, m, j + 1, OntoField(env, env', mem, i, Fields(env, i)[j], m.slots[j], r))
    else r
  }

  // ----- one step of the decode loop -----------------------------------------------------

  lemma StepKnown(env: Schema, mem: Memory, i: nat, b: Bytes, m: Msg, t: Tag, r: Bytes, j: nat, s: Slot, rest: Bytes)
    requires ReadTag(b) == Got(t, r)
    requires Find(Fields(env, i), t.number) == Found(j) && j < |Fields(env, i)|
    requires ReadField(env, mem, Fields(env, i)[j], t.wire, r, SlotAt(m, j), InUse(Fields(env, i), j, m)) == Got(s, rest)
    ensures Decode(env, mem, i, b, m) == Decode(env, mem, i, rest, Put(Fields(env, i), j, m, s))
  {
  }

  lemma StepUnknown(env: Schema, mem: Memory, i: nat, b: Bytes, m: Msg, t: Tag, r: Bytes, rest: Bytes)
    requires ReadTag(b) == Got(t, r)
    requires Find(Fields(env, i), t.number) == Unknown
    requires SkipField(r, t.wire) == Got((), rest)
    ensures Decode(env, mem, i, b, m) == Decode(env, mem, i, rest, m)
  {
  }

  /** A known field is read and stored. */
  lemma FieldRead(env: Schema, mem: Memory, i: nat, j: nat, f: Field, wire: nat, d: Bytes, rest: Bytes, m: Msg, s: Slot)
    requires Find(Fields(env, i), f.tag) == Found(j) && j < |Fields(env, i)| && Fields(env, i)[j] == f
    requires 1 <= f.tag < 0x2000_0000 && wire < 8
    requires ReadField(env, mem, f, wire, d + rest, SlotAt(m, j), InUse(Fields(env, i), j, m)) == Got(s, rest)
    ensures Decode(env, mem, i, TagBytes(f.tag, wire) + d + rest, m) == Decode(env, mem, i, rest, Put(Fields(env, i), j, m, s))
  {
    TagBack(f.tag, wire, d + rest);
    var b := TagBytes(f.tag, wire) + d + rest;
    assert b == TagBytes(f.tag, wire) + (d + rest);
    StepKnown(env, mem, i, b, m, Tag(f.tag, wire), d + rest, j, s, rest);
  }

  lemma ScalarRead(env: Schema, mem: Memory, i: nat, j: nat, f: Field, d: Bytes, rest: Bytes, m: Msg, w: Value)
    requires Find(Fields(env, i), f.tag) == Found(j) && j < |Fields(env, i)| && Fields(env, i)[j] == f
    requires 1 <= f.tag < 0x2000_0000 && !f.store.Array?
    requires ReadValue(env, Within(mem, f.tag, 0), f.typ, d + rest, Place(mem, f, SlotAt(m, j), InUse(Fields(env, i), j, m))) ==
             Got(w, rest)
    ensures Decode(env, mem, i, TagBytes(f.tag, Wire(f.typ)) + d + rest, m) ==
            Decode(env, mem, i, rest, Put(Fields(env, i), j, m, Full(f, w)))
  {
    var was, used := SlotAt(m, j), InUse(Fields(env, i), j, m);
    assert ReadField(env, mem, f, Wire(f.typ), d + rest, was, used) == Got(Full(f, w), rest);
    FieldRead(env, mem, i, j, f, Wire(f.typ), d, rest, m, Full(f, w));
  }

  lemma ItemRead(env: Schema, mem: Memory, i: nat, j: nat, f: Field, d: Bytes, rest: Bytes, m: Msg, was: seq<Value>, w: Value)
    requires Find(Fields(env, i), f.tag) == Found(j) && j < |Fields(env, i)| && Fields(env, i)[j] == f
    requires 1 <= f.tag < 0x2000_0000 && f.store.Array? && !Packable(f.typ) && was == ItemsOf(SlotAt(m, j))
    requires ReadValue(env, Within(mem, f.tag, |was|), f.typ, d + rest, Fresh(mem, f, |was|)) == Got(w, rest)
    ensures Decode(env, mem, i, TagBytes(f.tag, Wire(f.typ)) + d + rest, m) ==
            Decode(env, mem, i, rest, Put(Fields(env, i), j, m, Many(was + [w])))
  {
    assert ReadArray(env, mem, f, Wire(f.typ), d + rest, was) == Got(Many(was + [w]), rest);
    FieldRead(env, mem, i, j, f, Wire(f.typ), d, rest, m, Many(was + [w]));
  }

  lemma PackedRead(env: Schema, mem: Memory, i: nat, j: nat, f: Field, d: Bytes, rest: Bytes, m: Msg, body: Bytes, items: seq<Value>)
    requires Find(Fields(env, i), f.tag) == Found(j) && j < |Fields(env, i)| && Fields(env, i)[j] == f
    requires 1 <= f.tag < 0x2000_0000 && f.store.Array? && Packable(f.typ)
    requires Body(Varint32(d + rest)) == Got(body, rest) && ReadPacked(f.typ, body) == Items(items, [])
    ensures Decode(env, mem, i, TagBytes(f.tag, STRING) + d + rest, m) ==
            Decode(env, mem, i, rest, Put(Fields(env, i), j, m, Many(items)))
  {
    assert ReadArray(env, mem, f, STRING, d + rest, ItemsOf(SlotAt(m, j))) == Got(Many(items), rest);
    FieldRead(env, mem, i, j, f, STRING, d, rest, m, Many(items));
  }

  // ----- skipping one value --------------------------------------------------------------

  lemma SkipDelimited(body: Bytes, rest: Bytes)
    requires |body| < TWO32
    ensures SkipField(Delimited(body) + rest, STRING) == Got((), rest)
  {
    Delimited32(body, rest);
  }

  /** pb_skip_field consumes exactly what the encoder emits for a value. */
  lemma ValueSkipped(env: Schema, env': Schema, t: Type, v: Value, rest: Bytes)
    requires ValueFits(env, env', t, false, v)
    ensures SkipField(ValueBytes(env, t, v) + rest, Wire(t)) == Got((), rest)
  {
    if Numeric(t) {
      NumSkipped(t, v.n, rest);
    } else if t.Message? {
      SkipDelimited(Encode(env, t.index, v.msg, 0), rest);
    } else {
      SkipDelimited(v.b, rest);
    }
  }

  lemma NumSkipped(t: Type, n: int, rest: Bytes)
    requires Numeric(t)
    ensures SkipField(NumBytes(t, n) + rest, Wire(t)) == Got((), rest)
  {
    if Wire(t) == VARINT {
      SkipVarintBack(if t.Int32? || t.Int64? then ZigZag(n) else Magnitude(n), rest);
    } else {
      SkipBytesBack(NumBytes(t, n), rest);
    }
  }

  // ----- packed arrays -------------------------------------------------------------------

  lemma {:induction false} PackedBack(env: Schema, env': Schema, t: Type, items: seq<Value>)
    requires Packable(t) && forall k :: 0 <= k < |items| ==> ValueFits(env, env', t, true, items[k])
    ensures ReadPacked(t, Packed(t, items)) == Items(items, [])
    decreases |items|
  {
    if items != [] {
      assert ValueFits(env, env', t, true, items[0]);
      PackedBack(env, env', t, items[1..]);
      PackedCons(t, items[0].n, Packed(t, items[1..]), items[1..]);
      assert items == [Num(items[0].n)] + items[1..];
    }
  }

  lemma PackedCons(t: Type, n: int, body: Bytes, items: seq<Value>)
    requires Packable(t) && NumOk(t, n) && ReadPacked(t, body) == Items(items, [])
    ensures ReadPacked(t, NumBytes(t, n) + body) == Items([Num(n)] + items, [])
  {
    NumBack(t, n, body);
  }

  // ----- one value, one field, a whole message -------------------------------------------

  lemma {:induction false} ValueBack(env: Schema, env': Schema, mem: Memory, t: Type, v: Value, rest: Bytes, was: Value)
    requires TagsOk(env) && Agree(env, env') && ValueFits(env, env', t, true, v)
    ensures ReadValue(env', mem, t, ValueBytes(env, t, v) + rest, was) == Got(OntoValue(env, env', mem, t, v, was), rest)
    decreases v, 0
  {
    match t
    case Str => Delimited64(v.b, rest);
    case Blob => Delimited64(v.b, rest);
    case Message(i) =>
      Delimited32(Encode(env, i, v.msg, 0), rest);
      DecodeBack(env, env', mem, i, v.msg, 0, MsgOf(was));
    case _ => NumBack(t, v.n, rest);
  }

  lemma {:induction false} ScalarBack(env: Schema, env': Schema, mem: Memory, i: nat, j: nat, f: Field, v: Value, rest: Bytes, m: Msg)
    requires TagsOk(env) && Agree(env, env') && ValueFits(env, env', f.typ, true, v)
    requires Find(Fields(env', i), f.tag) == Found(j) && j < |Fields(env', i)| && Fields(env', i)[j] == f
    requires 1 <= f.tag < 0x2000_0000 && !f.store.Array?
    ensures Decode(env', mem, i, Tagged(env, f, v) + rest, m) ==
            Decode(env', mem, i, rest, OntoScalar(env, env', mem, Fields(env', i), j, f, v, m))
    decreases v, 1
  {
    var was, inner := Place(mem, f, SlotAt(m, j), InUse(Fields(env', i), j, m)), Within(mem, f.tag, 0);
    var w := OntoValue(env, env', inner, f.typ, v, was);
    ValueBack(env, env', inner, f.typ, v, rest, was);
    ScalarRead(env', mem, i, j, f, ValueBytes(env, f.typ, v), rest, m, w);
  }

  lemma {:induction false} ItemBack(env: Schema, env': Schema, mem: Memory, i: nat, j: nat, f: Field, v: Value, rest: Bytes, m: Msg)
    requires TagsOk(env) && Agree(env, env') && ValueFits(env, env', f.typ, true, v)
    requires Find(Fields(env', i), f.tag) == Found(j) && j < |Fields(env', i)| && Fields(env', i)[j] == f
    requires 1 <= f.tag < 0x2000_0000 && f.store.Array? && !Packable(f.typ)
    ensures Decode(env', mem, i, Tagged(env, f, v) + rest, m) ==
            Decode(env', mem, i, rest, OntoItem(env, env', mem, Fields(env', i), j, f, v, m))
    decreases v, 1
  {
    var was := ItemsOf(SlotAt(m, j));
    var elem, inner := Fresh(mem, f, |was|), Within(mem, f.tag, |was|);
    ValueBack(env, env', inner, f.typ, v, rest, elem);
    ItemRead(env', mem, i, j, f, ValueBytes(env, f.typ, v), rest, m, was, OntoValue(env, env', inner, f.typ, v, elem));
  }

  lemma {:induction false} ItemsBack(env: Schema, env': Schema, mem: Memory, i: nat, j: nat, f: Field, s: Slot, k: nat, rest: Bytes, m: Msg)
    requires TagsOk(env) && Agree(env, env') && s.Many? && k <= |s.items|
    requires forall n :: 0 <= n < |s.items| ==> ValueFits(env, env', f.typ, true, s.items[n])
    requires Find(Fields(env', i), f.tag) == Found(j) && j < |Fields(env', i)| && Fields(env', i)[j] == f
    requires 1 <= f.tag < 0x2000_0000 && f.store.Array? && !Packable(f.typ)
    ensures Decode(env', mem, i, Unpacked(env, f, s, k) + rest, m) ==
            Decode(env', mem, i, rest, OntoItems(env, env', mem, Fields(env', i), j, f, s, k, m))
    decreases s, |s.items| - k
  {
    if k == |s.items| {
      assert Unpacked(env, f, s, k) + rest == rest;
    } else {
      var more := Unpacked(env, f, s, k + 1);
      assert Unpacked(env, f, s, k) + rest == Tagged(env, f, s.items[k]) + (more + rest);
      ItemBack(env, env', mem, i, j, f, s.items[k], more + rest, m);
      ItemsBack(env, env', mem, i, j, f, s, k + 1, rest, OntoItem(env, env', mem, Fields(env', i), j, f, s.items[k], m));
    }
  }

  lemma PackedFieldBack(env: Schema, env': Schema, mem: Memory, i: nat, j: nat, f: Field, items: seq<Value>, rest: Bytes, m: Msg)
    requires |Packed(f.typ, items)| < TWO32
    requires forall n :: 0 <= n < |items| ==> ValueFits(env, env', f.typ, true, items[n])
    requires Find(Fields(env', i), f.tag) == Found(j) && j < |Fields(env', i)| && Fields(env', i)[j] == f
    requires 1 <= f.tag < 0x2000_0000 && f.store.Array? && Packable(f.typ)
    ensures Decode(env', mem, i, TagBytes(f.tag, STRING) + Delimited(Packed(f.typ, items)) + rest, m) ==
            Decode(env', mem, i, rest, Put(Fields(env', i), j, m, Many(items)))
  {
    var body := Packed(f.typ, items);
    Delimited32(body, rest);
    PackedBack(env, env', f.typ, items);
    PackedRead(env', mem, i, j, f, Delimited(body), rest, m, body, items);
  }

  lemma {:induction false} KnownBack(env: Schema, env': Schema, mem: Memory, i: nat, j: nat, f: Field, s: Slot, rest: Bytes, m: Msg)
    requires TagsOk(env) && Agree(env, env') && SlotFits(env, env', f, true, s)
    requires Find(Fields(env', i), f.tag) == Found(j) && j < |Fields(env', i)| && Fields(env', i)[j] == f
    requires 1 <= f.tag < 0x2000_0000
    ensures Decode(env', mem, i, SlotBytes(env, f, s) + rest, m) ==
            Decode(env', mem, i, rest, OntoSlot(env, env', mem, Fields(env', i), j, f, s, m))
    decreases s, if s.Many? then |s.items| + 1 else 0
  {
    match s
    case One(v) => ScalarBack(env, env', mem, i, j, f, v, rest, m);
    case Opt(has, v) =>
      if has { ScalarBack(env, env', mem, i, j, f, v, rest, m); } else { assert [] + rest == rest; }
    case Many(items) =>
      if items == [] {
        assert [] + rest == rest;
      } else if Packable(f.typ) {
        PackedFieldBack(env, env', mem, i, j, f, items, rest, m);
      } else {
        ItemsBack(env, env', mem, i, j, f, s, 0, rest, m);
      }
  }

  lemma FieldSkipped(env: Schema, mem: Memory, i: nat, tag: nat, wire: nat, d: Bytes, rest: Bytes, m: Msg)
    requires SkipField(d + rest, wire) == Got((), rest) && Find(Fields(env, i), tag).Unknown?
    requires 1 <= tag < 0x2000_0000 && wire < 8
    ensures Decode(env, mem, i, TagBytes(tag, wire) + d + rest, m) == Decode(env, mem, i, rest, m)
  {
    TagBack(tag, wire, d + rest);
    var b := TagBytes(tag, wire) + d + rest;
    assert b == TagBytes(tag, wire) + (d + rest);
    StepUnknown(env, mem, i, b, m, Tag(tag, wire), d + rest, rest);
  }

  lemma TaggedSkipped(env: Schema, env': Schema, mem: Memory, i: nat, f: Field, v: Value, rest: Bytes, m: Msg)
    requires ValueFits(env, env', f.typ, false, v) && Find(Fields(env', i), f.tag).Unknown?
    requires 1 <= f.tag < 0x2000_0000
    ensures Decode(env', mem, i, Tagged(env, f, v) + rest, m) == Decode(env', mem, i, rest, m)
  {
    ValueSkipped(env, env', f.typ, v, rest);
    FieldSkipped(env', mem, i, f.tag, Wire(f.typ), ValueBytes(env, f.typ, v), rest, m);
  }

  lemma {:induction false} ItemsSkipped(env: Schema, env': Schema, mem: Memory, i: nat, f: Field, s: Slot, k: nat, rest: Bytes, m: Msg)
    requires s.Many? && k <= |s.items| && forall n :: 0 <= n < |s.items| ==> ValueFits(env, env', f.typ, false, s.items[n])
    requires Find(Fields(env', i), f.tag).Unknown? && 1 <= f.tag < 0x2000_0000
    ensures Decode(env', mem, i, Unpacked(env, f, s, k) + rest, m) == Decode(env', mem, i, rest, m)
    decreases |s.items| - k
  {
    if k == |s.items| {
      assert Unpacked(env, f, s, k) + rest == rest;
    } else {
      var more := Unpacked(env, f, s, k + 1);
      assert Unpacked(env, f, s, k) + rest == Tagged(env, f, s.items[k]) + (more + rest);
      TaggedSkipped(env, env', mem, i, f, s.items[k], more + rest, m);
      ItemsSkipped(env, env', mem, i, f, s, k + 1, rest, m);
    }
  }

  lemma PackedSkipped(env': Schema, mem: Memory, i: nat, f: Field, body: Bytes, rest: Bytes, m: Msg)
    requires |body| < TWO32 && Find(Fields(env', i), f.tag).Unknown? && 1 <= f.tag < 0x2000_0000
    ensures Decode(env', mem, i, TagBytes(f.tag, STRING) + Delimited(body) + rest, m) == Decode(env', mem, i, rest, m)
  {
    SkipDelimited(body, rest);
    FieldSkipped(env', mem, i, f.tag, STRING, Delimited(body), rest, m);
  }

  lemma UnknownBack(env: Schema, env': Schema, mem: Memory, i: nat, f: Field, s: Slot, rest: Bytes, m: Msg)
    requires SlotFits(env, env', f, false, s) && Find(Fields(env', i), f.tag).Unknown?
    requires 1 <= f.tag < 0x2000_0000
    ensures Decode(env', mem, i, SlotBytes(env, f, s) + rest, m) == Decode(env', mem, i, rest, m)
  {
    match s
    case One(v) => TaggedSkipped(env, env', mem, i, f, v, rest, m);
    case Opt(has, v) =>
      if has { TaggedSkipped(env, env', mem, i, f, v, rest, m); } else { assert [] + rest == rest; }
    case Many(items) =>
      if items == [] {
        assert [] + rest == rest;
      } else if Packable(f.typ) {
        PackedSkipped(env', mem, i, f, Packed(f.typ, items), rest, m);
      } else {
        ItemsSkipped(env, env', mem, i, f, s, 0, rest, m);
      }
  }

  /** Decoding what was encoded succeeds, consumes every byte and lays the message over the
      memory: for every message, every memory, and every pair of schemas that agree on the tags
      they share.  Fields the reader does not know are skipped, fields the writer does not know
      are left alone. */
  lemma {:induction false} DecodeBack(env: Schema, env': Schema, mem: Memory, i: nat, m: Msg, j: nat, r: Msg)
    requires TagsOk(env) && Agree(env, env') && Fits(env, env', i, m)
    ensures Decode(env', mem, i, Encode(env, i, m, j), r) == Some(Onto(env, env', mem, i, m, j, r))
    decreases m, |m.slots| - j, 1
  {
    if j < |m.slots| {
      var r' := OntoField(env, env', mem, i, Fields(env, i)[j], m.slots[j], r);
      FieldBack(env, env', mem, i, m, j, r, Encode(env, i, m, j + 1), r');
      DecodeBack(env, env', mem, i, m, j + 1, r');
    }
  }

  /** One field. */
  lemma FieldBack(env: Schema, env': Schema, mem: Memory, i: nat, m: Msg, j: nat, r: Msg, rest: Bytes, r': Msg)
    requires TagsOk(env) && Agree(env, env') && Fits(env, env', i, m) && j < |m.slots|
    requires rest == Encode(env, i, m, j + 1) && r' == OntoField(env, env', mem, i, Fields(env, i)[j], m.slots[j], r)
    ensures Decode(env', mem, i, Encode(env, i, m, j), r) == Decode(env', mem, i, rest, r')
    decreases m, |m.slots| - j, 0
  {
    var f, s := Fields(env, i)[j], m.slots[j];
    match Find(Fields(env', i), f.tag) {
      case Unknown => UnknownBack(env, env', mem, i, f, s, rest, r);
      case Found(k) => KnownBack(env, env', mem, i, k, f, s, rest, r);
    }
  }
}
