/** Output streams: the encoder of src/pb/cuttle-pb.c as it runs, over pb_ostream_t of
    src/nanopb/pb_encode.c.  A sizing stream only counts, a writing stream fills a buffer of
    limited size. */
module PbOutput {
  import opened Basics
  import opened PbWire
  import opened PbCodec

  datatype Error = NoError | StreamFull | SizeChanged

  class OStream {
    const writing: bool       // callback != NULL
    const maxSize: nat
    var written: nat
    var buffer: Bytes         // everything in front of the write position
    var error: Error

    constructor (writing: bool, maxSize: nat, buffer: Bytes)
      ensures this.writing == writing && this.maxSize == maxSize && this.buffer == buffer
      ensures written == 0 && error == NoError
    {
      this.writing, this.maxSize, this.buffer := writing, maxSize, buffer;
      written, error := 0, NoError;
    }

    /** No error so far, and the limit is respected. */
    predicate Fine()
      reads this
    {
      error == NoError && (writing ==> written <= maxSize)
    }

    /** n more bytes can be put out. */
    predicate Room(n: nat)
      reads this
    {
      !writing || written + n <= maxSize
    }

    /** The state after b went out where it was w and t. */
    predicate Out(b: Bytes, w: nat, t: Bytes)
      reads this
    {
      written == w + |b| && buffer == (if writing then t + b else t) && error == NoError
    }

    /** pb_write */
    method Write(b: Bytes) returns (ok: bool)
      requires Fine()
      modifies this
      ensures ok == old(Room(|b|))
      ensures if ok then Out(b, old(written), old(buffer)) else error == StreamFull
    {
      if writing {
        if written + |b| > maxSize {
          error := StreamFull;
          return false;
        }
        buffer := buffer + b;
      }
      written := written + |b|;
      return true;
    }

    /** pb_write of n bytes that a sizing stream never looks at */
    method Count(n: nat)
      requires !writing && Fine()
      modifies this
      ensures written == old(written) + n && buffer == old(buffer) && error == NoError
    {
      written := written + n;
    }

    /** pb_encode_varint */
    method EncodeVarint(v: nat) returns (ok: bool)
      requires Fine()
      modifies this
      ensures ok == old(Room(|Varint(v)|))
      ensures if ok then Out(Varint(v), old(written), old(buffer)) else error == StreamFull
    {
      if v <= 0x7F {
        ok := Write([v]);
        return;
      }
      var bytes := VarintBytes(v);
      ok := Write(bytes);
    }

    /** cf_pb_encode_int32 to cf_pb_encode_double */
    method EncodeNum(t: Type, n: int) returns (ok: bool)
      requires Fine()
      modifies this
      ensures ok == old(Room(|NumBytes(t, n)|))
      ensures if ok then Out(NumBytes(t, n), old(written), old(buffer)) else error == StreamFull
    {
      if t.Int32? || t.Int64? {
        ok := EncodeVarint(ZigZag(n));
      } else if Wire(t) == BITS32 {
        ok := Write(Le(Magnitude(n), 4));
      } else if Wire(t) == BITS64 {
        ok := Write(Le(Magnitude(n), 8));
      } else {
        ok := EncodeVarint(Magnitude(n));
      }
    }

    /** pb_encode_string */
    method EncodeString(b: Bytes) returns (ok: bool)
      requires Fine()
      modifies this
      ensures ok == old(Room(|Delimited(b)|))
      ensures if ok then Out(Delimited(b), old(written), old(buffer)) else error == StreamFull
    {
      ok := EncodeVarint(|b|);
      if ok {
        ghost var t := buffer;
        ok := Write(b);
        Joins(old(buffer), Varint(|b|), b);
      }
    }
  }

  /** The bytes with the top bit of the last one taken away. */
  function Trimmed(b: Bytes): Bytes
    requires b != [] && b[|b| - 1] >= 128
  {
    b[..|b| - 1] + [b[|b| - 1] - 128]
  }

  /** The loop of pb_encode_varint: groups are collected with their top bits set, then the last
      top bit is taken away */
  method VarintBytes(v: nat) returns (bytes: Bytes)
    requires v > 0
    ensures bytes == Varint(v)
  {
    var value: nat := v;
    bytes := [];
    while value > 0
      invariant value > 0 ==> Varint(v) == bytes + Varint(value)
      invariant value == 0 ==> bytes != [] && bytes[|bytes| - 1] >= 128 && Varint(v) == Trimmed(bytes)
    {
      GroupOut(bytes, value, Varint(value), Varint(value / 128));
      bytes := bytes + [value % 128 + 128];
      value := value / 128;
    }
    bytes := Trimmed(bytes);
  }

  lemma GroupOut(b: Bytes, v: nat, w: Bytes, more: Bytes)
    requires w == if v < 128 then [v] else [v % 128 + 128] + more
    ensures v >= 128 ==> b + w == b + [v % 128 + 128] + more
    ensures v < 128 ==> b + w == Trimmed(b + [v % 128 + 128])
  {
    if v < 128 {
      assert (b + [v + 128])[..|b|] == b;
    }
  }

  lemma Joins(t: Bytes, a: Bytes, b: Bytes)
    ensures t + a + b == t + (a + b)
  {
  }

  // ----- the encoder ---------------------------------------------------------------------

  /** Only message fields hold messages, and packed arrays hold numbers. */
  ghost predicate ValueTyped(env: Schema, t: Type, v: Value)
    decreases v, 0
  {
    v.Sub? ==> t.Message? && Typed(env, t.index, v.msg)
  }

  ghost predicate SlotTyped(env: Schema, t: Type, s: Slot)
    decreases s, 0
  {
    match s
    case Many(items) =>
      forall k :: 0 <= k < |items| ==> ValueTyped(env, t, items[k]) && (Packable(t) ==> items[k].Num?)
    case One(v) => ValueTyped(env, t, v)
    case Opt(has, v) => has ==> ValueTyped(env, t, v)
  }

  ghost predicate Typed(env: Schema, i: nat, m: Msg)
    decreases m, 0
  {
    |m.slots| == |Fields(env, i)| &&
    forall j :: 0 <= j < |m.slots| ==> SlotTyped(env, Fields(env, i)[j].typ, m.slots[j])
  }

  /** cf_pb_encfunc */
  method EncodeValue(s: OStream, env: Schema, t: Type, v: Value) returns (ok: bool)
    requires s.Fine() && ValueTyped(env, t, v)
    modifies s
    ensures ok == old(s.Room(|ValueBytes(env, t, v)|))
    ensures if ok then s.Out(ValueBytes(env, t, v), old(s.written), old(s.buffer)) else s.error == StreamFull
    decreases v, 0
  {
    match v
    case Num(n) => ok := s.EncodeNum(t, n);
    case Raw(b) => ok := s.EncodeString(b);
    case Sub(m) => ok := EncodeSubmessage(s, env, t.index, m);
  }

  /** cf_pb_encode_submessage: a sizing pass, the size, then the message itself on a substream
      that admits exactly that size */
  method EncodeSubmessage(s: OStream, env: Schema, i: nat, m: Msg) returns (ok: bool)
    requires s.Fine() && Typed(env, i, m)
    modifies s
    ensures ok == old(s.Room(|Delimited(Encode(env, i, m, 0))|))
    ensures if ok then s.Out(Delimited(Encode(env, i, m, 0)), old(s.written), old(s.buffer)) else s.error == StreamFull
    decreases m, |m.slots| + 1
  {
    ghost var body := Encode(env, i, m, 0);
    var sizing := new OStream(false, 0, []);
    ok := EncodeMessage(sizing, env, i, m);
    var size := sizing.written;
    assert ok && size == |body|;
    ok := s.EncodeVarint(size);
    if !ok { return; }
    if !s.writing {
      s.Count(size);
      return;
    }
    if s.written + size > s.maxSize {
      s.error := StreamFull;
      return false;
    }
    var sub := new OStream(true, size, s.buffer);
    ok := EncodeMessage(sub, env, i, m);
    s.written := s.written + sub.written;
    s.buffer := sub.buffer;
    s.error := if ok && sub.written != size then SizeChanged else sub.error;
    ok := ok && sub.written == size;
    Joins(old(s.buffer), Varint(size), body);
  }

  /** pb_encode_tag and a value */
  method EncodeTagged(s: OStream, env: Schema, f: Field, v: Value) returns (ok: bool)
    requires s.Fine() && ValueTyped(env, f.typ, v)
    modifies s
    ensures ok == old(s.Room(|Tagged(env, f, v)|))
    ensures if ok then s.Out(Tagged(env, f, v), old(s.written), old(s.buffer)) else s.error == StreamFull
    decreases v, 1
  {
    ok := s.EncodeVarint(8 * f.tag + Wire(f.typ));
    if ok {
      ok := EncodeValue(s, env, f.typ, v);
      Joins(old(s.buffer), TagBytes(f.tag, Wire(f.typ)), ValueBytes(env, f.typ, v));
    }
  }

  /** The unpacked case of cf_pb_encode_array */
  method EncodeUnpacked(s: OStream, env: Schema, f: Field, slot: Slot) returns (ok: bool)
    requires s.Fine() && slot.Many? && SlotTyped(env, f.typ, slot)
    modifies s
    ensures ok == old(s.Room(|Unpacked(env, f, slot, 0)|))
    ensures if ok then s.Out(Unpacked(env, f, slot, 0), old(s.written), old(s.buffer)) else s.error == StreamFull
    decreases slot, 0
  {
    ghost var done: Bytes := [];
    var k := 0;
    while k < |slot.items|
      invariant 0 <= k <= |slot.items|
      invariant s.Out(done, old(s.written), old(s.buffer)) && s.Fine()
      invariant done + Unpacked(env, f, slot, k) == Unpacked(env, f, slot, 0)
    {
      ghost var one, more := Tagged(env, f, slot.items[k]), Unpacked(env, f, slot, k + 1);
      Joins(done, one, more);
      ok := EncodeTagged(s, env, f, slot.items[k]);
      if !ok { return; }
      Joins(old(s.buffer), done, one);
      done := done + one;
      k := k + 1;
    }
    return true;
  }

  /** The sizing loop over a packed array, as cf_pb_encode_array runs it on its own stream, and
      the writing loop */
  method EncodePacked(s: OStream, t: Type, items: seq<Value>) returns (ok: bool)
    requires s.Fine() && forall k :: 0 <= k < |items| ==> items[k].Num?
    modifies s
    ensures ok == old(s.Room(|Packed(t, items)|))
    ensures if ok then s.Out(Packed(t, items), old(s.written), old(s.buffer)) else s.error == StreamFull
  {
    ghost var done: Bytes := [];
    var k := 0;
    while k < |items|
      invariant 0 <= k <= |items|
      invariant s.Out(done, old(s.written), old(s.buffer)) && s.Fine()
      invariant done + Packed(t, items[k..]) == Packed(t, items)
    {
      ghost var one, more := NumBytes(t, items[k].n), Packed(t, items[k + 1..]);
      assert items[k..][1..] == items[k + 1..];
      Joins(done, one, more);
      ok := s.EncodeNum(t, items[k].n);
      if !ok { return; }
      Joins(old(s.buffer), done, one);
      done := done + one;
      k := k + 1;
    }
    return true;
  }

  lemma {:induction false} PackedFixedSize(t: Type, items: seq<Value>, n: nat)
    requires forall k :: 0 <= k < |items| ==> items[k].Num?
    requires (n == 4 && Wire(t) == BITS32) || (n == 8 && Wire(t) == BITS64)
    ensures |Packed(t, items)| == n * |items|
    decreases |items|
  {
    if items != [] { PackedFixedSize(t, items[1..], n); }
  }

  /** cf_pb_encode_array */
  method EncodeArray(s: OStream, env: Schema, f: Field, slot: Slot) returns (ok: bool)
    requires s.Fine() && slot.Many? && SlotTyped(env, f.typ, slot)
    modifies s
    ensures ok == old(s.Room(|SlotBytes(env, f, slot)|))
    ensures if ok then s.Out(SlotBytes(env, f, slot), old(s.written), old(s.buffer)) else s.error == StreamFull
    decreases slot, 1
  {
    if slot.items == [] { return true; }
    if !Packable(f.typ) {
      ok := EncodeUnpacked(s, env, f, slot);
      return;
    }
    ghost var tag, body := TagBytes(f.tag, STRING), Packed(f.typ, slot.items);
    ok := s.EncodeVarint(8 * f.tag + STRING);
    if !ok { return; }
    ok := EncodePackedBody(s, f.typ, slot.items);
    Joins(old(s.buffer), tag, Delimited(body));
  }

  /** Size and contents of a packed array */
  method EncodePackedBody(s: OStream, t: Type, items: seq<Value>) returns (ok: bool)
    requires s.Fine() && items != [] && forall k :: 0 <= k < |items| ==> items[k].Num?
    modifies s
    ensures ok == old(s.Room(|Delimited(Packed(t, items))|))
    ensures if ok then s.Out(Delimited(Packed(t, items)), old(s.written), old(s.buffer)) else s.error == StreamFull
  {
    ghost var body := Packed(t, items);
    var size;
    if Wire(t) == BITS32 {
      size := 4 * |items|;
      PackedFixedSize(t, items, 4);
    } else if Wire(t) == BITS64 {
      size := 8 * |items|;
      PackedFixedSize(t, items, 8);
    } else {
      var sizing := new OStream(false, 0, []);
      var _ := EncodePacked(sizing, t, items);
      size := sizing.written;
    }
    assert size == |body|;
    ok := s.EncodeVarint(size);
    if !ok { return; }
    if !s.writing {
      s.Count(size);
      return;
    }
    ok := EncodePacked(s, t, items);
    Joins(old(s.buffer), Varint(size), body);
  }

  /** cf_pb_field_has_data and cf_pb_encode_field */
  method EncodeField(s: OStream, env: Schema, f: Field, slot: Slot) returns (ok: bool)
    requires s.Fine() && SlotTyped(env, f.typ, slot)
    modifies s
    ensures ok == old(s.Room(|SlotBytes(env, f, slot)|))
    ensures if ok then s.Out(SlotBytes(env, f, slot), old(s.written), old(s.buffer)) else s.error == StreamFull
    decreases slot, 2
  {
    match slot
    case One(v) => ok := EncodeTagged(s, env, f, v);
    case Opt(has, v) => if has { ok := EncodeTagged(s, env, f, v); } else { ok := true; }
    case Many(_) => ok := EncodeArray(s, env, f, slot);
  }

  /** cf_pb_encode */
  method EncodeMessage(s: OStream, env: Schema, i: nat, m: Msg) returns (ok: bool)
    requires s.Fine() && Typed(env, i, m)
    modifies s
    ensures ok == old(s.Room(|Encode(env, i, m, 0)|))
    ensures if ok then s.Out(Encode(env, i, m, 0), old(s.written), old(s.buffer)) else s.error == StreamFull
    decreases m, |m.slots|
  {
    ghost var done: Bytes := [];
    var j := 0;
    while j < |Fields(env, i)|
      invariant 0 <= j <= |m.slots|
      invariant s.Out(done, old(s.written), old(s.buffer)) && s.Fine()
      invariant done + Encode(env, i, m, j) == Encode(env, i, m, 0)
    {
      ghost var one, more := SlotBytes(env, Fields(env, i)[j], m.slots[j]), Encode(env, i, m, j + 1);
      Joins(done, one, more);
      ok := EncodeField(s, env, Fields(env, i)[j], m.slots[j]);
      if !ok { return; }
      Joins(old(s.buffer), done, one);
      done := done + one;
      j := j + 1;
    }
    return true;
  }

  /** cf_pb_get_encoded_size */
  method EncodedSize(env: Schema, i: nat, m: Msg) returns (size: nat)
    requires Typed(env, i, m)
    ensures size == |Encode(env, i, m, 0)|
  {
    var s := new OStream(false, 0, []);
    var _ := EncodeMessage(s, env, i, m);
    size := s.written;
  }

  datatype Packing = Null | Buffer(bytes: Bytes)

  /** cf_pb_pack: the buffer of the size found by the sizing pass is exactly filled by the
      writing pass, so neither "stream full" nor "submsg size changed" can happen; an empty
      message gives no buffer. */
  method Pack(env: Schema, i: nat, m: Msg) returns (size: nat, packing: Packing)
    requires Typed(env, i, m)
    ensures size == |Encode(env, i, m, 0)|
    ensures packing == if size == 0 then Null else Buffer(Encode(env, i, m, 0))
  {
    size := EncodedSize(env, i, m);
    var s := new OStream(true, size, []);
    var ok := EncodeMessage(s, env, i, m);
    assert ok && s.error == NoError;
    size := s.written;
    packing := if size == 0 then Null else Buffer(s.buffer);
  }
}
