/** The schema-driven codec of src/pb/cuttle-pb.c: messages, their encoding and the decoder, as
    functions. */
module PbCodec {
  import opened Basics
  import opened PbWire

  // ----- schemas -------------------------------------------------------------------------

  /** cf_pb_field_type; a message type names its field table by number */
  datatype Type =
    | Int32 | UInt32 | Int64 | UInt64 | Fixed32 | SFixed32 | Fixed64 | SFixed64
    | Float | Double | Bool | Str | Blob | Message(index: nat)

  /** How a field is stored: a scalar without or with has-flag, a ccarray_t, or a member of the
      union whose tag variable is shared by the group. */
  datatype Store = Required | Optional | Array | OneOf(group: nat)

  datatype Field = Field(tag: nat, typ: Type, store: Store)

  /** The field tables of all message types. */
  type Schema = seq<seq<Field>>

  function Fields(env: Schema, i: nat): seq<Field> { if i < |env| then env[i] else [] }

  /** cf_pb_wire_type */
  function Wire(t: Type): nat {
    match t
    case Int32 => VARINT
    case UInt32 => VARINT
    case Int64 => VARINT
    case UInt64 => VARINT
    case Bool => VARINT
    case Fixed32 => BITS32
    case SFixed32 => BITS32
    case Float => BITS32
    case Fixed64 => BITS64
    case SFixed64 => BITS64
    case Double => BITS64
    case Str => STRING
    case Blob => STRING
    case Message(_) => STRING
  }

  /** cf_pb_type_packable: bool, float and double arrays are not packed */
  predicate Packable(t: Type) {
    t.Int32? || t.UInt32? || t.Int64? || t.UInt64? || t.Fixed32? || t.SFixed32? || t.Fixed64? || t.SFixed64?
  }

  predicate Numeric(t: Type) { !t.Str? && !t.Blob? && !t.Message? }

  // ----- messages ------------------------------------------------------------------------

  /** Numbers (for fixed, float and double their bit patterns), strings and byte buffers, and
      embedded messages. */
  datatype Value = Num(n: int) | Raw(b: Bytes) | Sub(msg: Msg)

  /** The storage of one field.  The value of an unset slot is whatever the memory holds. */
  datatype Slot = One(v: Value) | Opt(has: bool, v: Value) | Many(items: seq<Value>)

  /** The storage of a message: one slot per field of its table. */
  datatype Msg = Msg(slots: seq<Slot>)

  // ----- numbers -------------------------------------------------------------------------

  function Magnitude(n: int): nat { if n < 0 then 0 else n }

  /** The encoders of numeric types; signed ones are always zigzag coded. */
  function NumBytes(t: Type, n: int): (b: Bytes)
    ensures Wire(t) != STRING ==> |b| >= 1
  {
    if t.Int32? || t.Int64? then Varint(ZigZag(n))
    else if Wire(t) == BITS32 then Le(Magnitude(n), 4)
    else if Wire(t) == BITS64 then Le(Magnitude(n), 8)
    else Varint(Magnitude(n))
  }

  /** The decoders of numeric types. */
  function ReadNum(t: Type, b: Bytes): (r: Read<Value>)
    requires Numeric(t)
    ensures r.Got? ==> |r.rest| < |b|
    ensures |r.rest| <= |b|
  {
    if Wire(t) == BITS32 then NumberOf(Fixed(b, 4))
    else if Wire(t) == BITS64 then NumberOf(Fixed(b, 8))
    else match Varint64(b)
      case Bad(r) => Bad(r)
      case Got(v, r) =>
        match t
        case Int32 => if -0x8000_0000 <= UnZigZag(v) < 0x8000_0000 then Got(Num(UnZigZag(v)), r) else Bad(r)
        case UInt32 => if v < TWO32 then Got(Num(v), r) else Bad(r)
        case Int64 => Got(Num(UnZigZag(v)), r)
        case Bool => Got(Num(if v != 0 then 1 else 0), r)
        case _ => Got(Num(v), r)
  }

  function NumberOf(r: Read<nat>): Read<Value> {
    match r
    case Bad(rest) => Bad(rest)
    case Got(v, rest) => Got(Num(v), rest)
  }

  /** The values a C variable of the type can hold. */
  predicate NumOk(t: Type, n: int) {
    match t
    case Int32 => -0x8000_0000 <= n < 0x8000_0000
    case Int64 => -0x8000_0000_0000_0000 <= n < 0x8000_0000_0000_0000
    case Bool => 0 <= n < 2
    case UInt64 => 0 <= n < TWO64
    case Fixed64 => 0 <= n < TWO64
    case SFixed64 => 0 <= n < TWO64
    case Double => 0 <= n < TWO64
    case _ => 0 <= n < TWO32
  }

  lemma NumBack(t: Type, n: int, rest: Bytes)
    requires Numeric(t) && NumOk(t, n)
    ensures ReadNum(t, NumBytes(t, n) + rest) == Got(Num(n), rest)
  {
    Spans8();
    if Wire(t) == BITS32 {
      FixedBack(n, 4, rest);
    } else if Wire(t) == BITS64 {
      FixedBack(n, 8, rest);
    } else if t.Int32? || t.Int64? {
      ZigZagBack(n);
      Varint64Back(ZigZag(n), rest);
    } else {
      Varint64Back(n, rest);
    }
  }

  // ----- encoding ------------------------------------------------------------------------

  /** What an encoder function of cf_pb_encfunc puts out for one value. */
  function ValueBytes(env: Schema, t: Type, v: Value): Bytes
    decreases v, 0
  {
    match v
    case Num(n) => NumBytes(t, n)
    case Raw(b) => Delimited(b)
    case Sub(m) => Delimited(if t.Message? then Encode(env, t.index, m, 0) else [])
  }

  /** cf_pb_encode_scalar */
  function Tagged(env: Schema, f: Field, v: Value): Bytes
    decreases v, 1
  {
    TagBytes(f.tag, Wire(f.typ)) + ValueBytes(env, f.typ, v)
  }

  /** cf_pb_encode_field behind cf_pb_field_has_data */
  function SlotBytes(env: Schema, f: Field, s: Slot): Bytes
    decreases s, if s.Many? then |s.items| + 1 else 0
  {
    match s
    case One(v) => Tagged(env, f, v)
    case Opt(has, v) => if has then Tagged(env, f, v) else []
    case Many(items) =>
      if items == [] then []
      else if Packable(f.typ) then TagBytes(f.tag, STRING) + Delimited(Packed(f.typ, items))
      else Unpacked(env, f, s, 0)
  }

  /** The body of a packed array. */
  function Packed(t: Type, items: seq<Value>): Bytes {
    if items == [] then []
    else (if items[0].Num? then NumBytes(t, items[0].n) else []) + Packed(t, items[1..])
  }

  /** The elements from k on, each behind its own tag. */
  function Unpacked(env: Schema, f: Field, s: Slot, k: nat): Bytes
    requires s.Many? && k <= |s.items|
    decreases s, |s.items| - k
  {
    if k == |s.items| then [] else Tagged(env, f, s.items[k]) + Unpacked(env, f, s, k + 1)
  }

  /** cf_pb_encode, from field j on */
  function Encode(env: Schema, i: nat, m: Msg, j: nat): Bytes
    decreases m, |m.slots| - j
  {
    if j < |Fields(env, i)| && j < |m.slots| then
      SlotBytes(env, Fields(env, i)[j], m.slots[j]) + Encode(env, i, m, j + 1)
    else []
  }

  // ----- decoding ------------------------------------------------------------------------

  /** A place in the storage of a message: which element of the field with which tag, and so on
      inwards. */
  type Where = seq<(nat, nat)>

  /** What the memory at a place holds, for a message of a type, before anything is decoded there:
      ccarray_t storage comes from malloc, and unions are reused. */
  type Memory = (nat, Where) -> Msg

  /** The memory inside element k of the field with a tag. */
  function Within(mem: Memory, tag: nat, k: nat): Memory { (t: nat, w: Where) => mem(t, [(tag, k)] + w) }

  /** The memory an array element is decoded into. */
  function Fresh(mem: Memory, f: Field, k: nat): Value {
    if f.typ.Message? then Sub(mem(f.typ.index, [(f.tag, k)])) else Num(0)
  }

  datatype Found = Found(at: nat) | Unknown

  /** cf_pb_find_tag */
  function Find(fs: seq<Field>, tag: nat): (r: Found)
    ensures r.Found? ==> r.at < |fs| && fs[r.at].tag == tag
    ensures r.Unknown? ==> forall k :: 0 <= k < |fs| ==> fs[k].tag != tag
  {
    FindFrom(fs, tag, 0)
  }

  function FindFrom(fs: seq<Field>, tag: nat, k: nat): (r: Found)
    requires k <= |fs|
    ensures r.Found? ==> k <= r.at < |fs| && fs[r.at].tag == tag
    ensures r.Unknown? ==> forall i :: k <= i < |fs| ==> fs[i].tag != tag
    decreases |fs| - k
  {
    if k == |fs| then Unknown else if fs[k].tag == tag then Found(k) else FindFrom(fs, tag, k + 1)
  }

  /** A C string ends at its first zero byte. */
  function CString(b: Bytes): Bytes {
    if b == [] || b[0] == 0 then [] else [b[0]] + CString(b[1..])
  }

  function MsgOf(v: Value): Msg { if v.Sub? then v.msg else Msg([]) }

  function ItemsOf(s: Slot): seq<Value> { if s.Many? then s.items else [] }

  /** What a decoder function of cf_pb_decfunc reads; an embedded message is decoded over the
      one already there. */
  function ReadValue(env: Schema, mem: Memory, t: Type, b: Bytes, was: Value): (r: Read<Value>)
    ensures r.Got? ==> |r.rest| < |b|
    decreases |b|, 0
  {
    match t
    case Str =>
      (match Body(Varint64(b))
       case Bad(r) => Bad(r)
       case Got(s, r) => Got(Raw(CString(s)), r))
    case Blob =>
      (match Body(Varint64(b))
       case Bad(r) => Bad(r)
       case Got(s, r) => if |s| > 65536 then Bad(r) else Got(Raw(s), r))
    case Message(i) =>
      (match Body(Varint32(b))
       case Bad(r) => Bad(r)
       case Got(s, r) =>
         match Decode(env, mem, i, s, MsgOf(was))
         case None => Bad(r)
         case Some(m) => Got(Sub(m), r))
    case _ => ReadNum(t, b)
  }

  datatype Items = Items(items: seq<Value>, rest: Bytes)

  /** The loop over a packed body: it stops at the first element that does not decode. */
  function ReadPacked(t: Type, b: Bytes): Items
    requires Numeric(t)
    decreases |b|
  {
    if b == [] then Items([], [])
    else match ReadNum(t, b)
      case Bad(r) => Items([], r)
      case Got(v, r) => var more := ReadPacked(t, r); Items([v] + more.items, more.rest)
  }

  /** cf_pb_decode_array: a packed body replaces the array, anything else is one element more */
  function ReadArray(env: Schema, mem: Memory, f: Field, wire: nat, b: Bytes, was: seq<Value>): (r: Read<Slot>)
    ensures r.Got? ==> |r.rest| < |b|
    decreases |b|, 1
  {
    if wire == STRING && Packable(f.typ) then
      match Body(Varint32(b))
      case Bad(r) => Bad(r)
      case Got(s, r) => var p := ReadPacked(f.typ, s); if p.rest != [] then Bad(r) else Got(Many(p.items), r)
    else
      match ReadValue(env, Within(mem, f.tag, |was|), f.typ, b, Fresh(mem, f, |was|))
      case Bad(r) => Bad(r)
      case Got(v, r) => Got(Many(was + [v]), r)
  }

  /** cf_pb_decode_field for field f whose slot holds was; inUse says that the union of f
      currently holds another member. */
  function ReadField(env: Schema, mem: Memory, f: Field, wire: nat, b: Bytes, was: Slot, inUse: bool): (r: Read<Slot>)
    ensures r.Got? ==> |r.rest| < |b|
    decreases |b|, 2
  {
    if f.store.Array? then ReadArray(env, mem, f, wire, b, ItemsOf(was))
    else if wire != Wire(f.typ) then Bad(b)
    else
      match ReadValue(env, Within(mem, f.tag, 0), f.typ, b, Place(mem, f, was, inUse))
      case Bad(r) => Bad(r)
      case Got(v, r) => Got(Full(f, v), r)
  }

  /** The memory a scalar is decoded into. */
  function Place(mem: Memory, f: Field, was: Slot, inUse: bool): Value {
    if inUse && f.typ.Message? then Fresh(mem, f, 0) else if was.Many? then Num(0) else was.v
  }

  /** A slot that has just received a value. */
  function Full(f: Field, v: Value): Slot { if f.store.Required? then One(v) else Opt(true, v) }

  /** Some other member of the group of field j is set. */
  predicate InUse(fs: seq<Field>, j: nat, m: Msg) {
    j < |fs| && fs[j].store.OneOf? &&
    exists k :: 0 <= k < |fs| && k < |m.slots| && k != j && fs[k].store == fs[j].store && m.slots[k].Opt? && m.slots[k].has
  }

  /** Storing into field j.  Setting a union member unsets the others of its group, because the
      tag variable is shared. */
  function Put(fs: seq<Field>, j: nat, m: Msg, s: Slot): (r: Msg)
    ensures |r.slots| == |m.slots|
  {
    Msg(seq(|m.slots|, k requires 0 <= k < |m.slots| =>
      if k == j then s
      else if j < |fs| && k < |fs| && fs[j].store.OneOf? && fs[k].store == fs[j].store && m.slots[k].Opt? then m.slots[k].(has := false)
      else m.slots[k]))
  }

  function SlotAt(m: Msg, j: nat): Slot { if j < |m.slots| then m.slots[j] else Many([]) }

  /** cf_pb_decode into the memory m; a message ends at the end of the stream, or where no tag
      can be read any more provided that nothing is left */
  function Decode(env: Schema, mem: Memory, i: nat, b: Bytes, m: Msg): Option<Msg>
    decreases |b|, 3
  {
    if b == [] then Some(m)
    else
      match ReadTag(b)
      case Bad(r) => if r == [] then Some(m) else None
      case Got(t, r) =>
        var fs := Fields(env, i);
        match Find(fs, t.number)
        case Unknown =>
          (match SkipField(r, t.wire)
           case Bad(_) => None
           case Got(_, rest) => Decode(env, mem, i, rest, m))
        case Found(j) =>
          match ReadField(env, mem, fs[j], t.wire, r, SlotAt(m, j), InUse(fs, j, m))
          case Bad(_) => None
          case Got(s, rest) => Decode(env, mem, i, rest, Put(fs, j, m, s))
  }
}
