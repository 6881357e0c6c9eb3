/** Input streams: the decoder of src/pb/cuttle-pb.c as it runs, over pb_istream_t of
    src/nanopb/pb_decode.c. */
module PbInput {
  import opened Basics
  import opened PbWire
  import opened PbCodec

  class IStream {
    const data: Bytes
    var pos: nat      // state
    var left: nat     // bytes_left

    predicate Valid()
      reads this
    {
      pos + left <= |data|
    }

    /** The bytes still to be read. */
    function Rest(): (r: Bytes)
      requires Valid()
      reads this
      ensures |r| == left
    {
      data[pos..pos + left]
    }

    constructor (data: Bytes, pos: nat, left: nat)
      requires pos + left <= |data|
      ensures this.data == data && this.pos == pos && this.left == left
    {
      this.data, this.pos, this.left := data, pos, left;
    }

    /** pb_readbyte */
    method ReadByte() returns (ok: bool, b: Byte)
      requires Valid()
      modifies this
      ensures Valid() && pos + left == old(pos + left)
      ensures ok == (old(Rest()) != [])
      ensures if ok then b == old(Rest())[0] && Rest() == old(Rest())[1..] else Rest() == []
    {
      if left == 0 { return false, 0; }
      b := data[pos];
      pos, left := pos + 1, left - 1;
      return true, b;
    }

    /** pb_read */
    method Read(n: nat) returns (ok: bool, b: Bytes)
      requires Valid()
      modifies this
      ensures Valid() && pos + left == old(pos + left)
      ensures ok == (n <= old(left))
      ensures if ok then b == old(Rest())[..n] && Rest() == old(Rest())[n..] else Rest() == old(Rest())
    {
      if left < n { return false, []; }
      b := data[pos..pos + n];
      pos, left := pos + n, left - n;
      return true, b;
    }

    /** The loops of pb_decode_varint and pb_decode_varint32: at most k groups, shifted into a
        register below m */
    method DecodeGroups(k: nat, m: nat) returns (ok: bool, v: nat)
      requires Valid() && m > 0 && k > 0
      modifies this
      ensures Valid() && pos + left == old(pos + left)
      ensures ok == Wrapped(Groups(old(Rest()), k), m).Got?
      ensures Rest() == Groups(old(Rest()), k).rest
      ensures ok ==> v == Wrapped(Groups(old(Rest()), k), m).value
    {
      ghost var all := Groups(Rest(), k);
      var result: nat, scale: nat, groups := 0, 1, k;
      GroupsStart(all);
      var more := true;
      while more
        invariant Valid() && pos + left == old(pos + left)
        invariant groups <= k
        invariant more ==> all == Continued(result, scale, Groups(Rest(), groups))
        invariant !more ==> all == Got(result, Rest())
        decreases more, groups
      {
        ghost var before := Rest();
        GroupsEnd(result, scale, before, groups, all);
        if groups == 0 { return false, 0; }
        var b;
        ok, b := ReadByte();
        if !ok { return false, 0; }
        groups := groups - 1;
        result, scale := AddGroup(result, scale, b, before, groups, all);
        more := b >= 128;
      }
      return true, if result < m then result else result % m;
    }

    /** pb_decode_varint */
    method DecodeVarint() returns (ok: bool, v: nat)
      requires Valid()
      modifies this
      ensures Valid() && pos + left == old(pos + left)
      ensures ok == Varint64(old(Rest())).Got?
      ensures Rest() == Varint64(old(Rest())).rest
      ensures ok ==> v == Varint64(old(Rest())).value
    {
      ok, v := DecodeGroups(10, TWO64);
    }

    /** pb_decode_varint32 */
    method DecodeVarint32() returns (ok: bool, v: nat)
      requires Valid()
      modifies this
      ensures Valid() && pos + left == old(pos + left)
      ensures ok == Varint32(old(Rest())).Got?
      ensures Rest() == Varint32(old(Rest())).rest
      ensures ok ==> v == Varint32(old(Rest())).value
    {
      ok, v := DecodeGroups(5, TWO32);
    }

    /** pb_skip_varint */
    method SkipOneVarint() returns (ok: bool)
      requires Valid()
      modifies this
      ensures Valid() && pos + left == old(pos + left)
      ensures ok == SkipVarint(old(Rest())).Got? && Rest() == SkipVarint(old(Rest())).rest
    {
      var more := true;
      while more
        invariant Valid() && pos + left == old(pos + left)
        invariant more ==> SkipVarint(old(Rest())) == SkipVarint(Rest())
        invariant !more ==> SkipVarint(old(Rest())) == Got((), Rest())
        decreases more, left
      {
        var b;
        ok, b := ReadByte();
        if !ok { return; }
        more := b >= 128;
      }
      return true;
    }

    /** pb_decode_tag */
    method DecodeTag() returns (ok: bool, t: Tag)
      requires Valid()
      modifies this
      ensures Valid() && pos + left == old(pos + left)
      ensures ok == ReadTag(old(Rest())).Got?
      ensures Rest() == ReadTag(old(Rest())).rest
      ensures ok ==> t == ReadTag(old(Rest())).value
    {
      var v;
      t := Tag(0, 0);
      ok, v := DecodeVarint32();
      if ok {
        if v == 0 { return false, t; }
        t := Tag(v / 8, v % 8);
      }
    }

    /** pb_skip_field */
    method Skip(wire: nat) returns (ok: bool)
      requires Valid()
      modifies this
      ensures Valid() && pos + left == old(pos + left)
      ensures ok == SkipField(old(Rest()), wire).Got?
      ensures ok ==> Rest() == SkipField(old(Rest()), wire).rest
    {
      var skipped;
      if wire == VARINT {
        ok := SkipOneVarint();
      } else if wire == BITS64 {
        ok, skipped := Read(8);
      } else if wire == STRING {
        var n;
        ok, n := DecodeVarint32();
        if ok { ok, skipped := Read(n); }
      } else if wire == BITS32 {
        ok, skipped := Read(4);
      } else {
        ok := false;
      }
    }

    /** pb_make_string_substream: the substream starts where this one stands; this one no longer
        counts its bytes */
    method MakeSubstream() returns (ok: bool, sub: IStream)
      requires Valid()
      modifies this
      ensures Valid() && sub.Valid() && (ok ==> fresh(sub) && sub.data == data)
      ensures pos + left <= old(pos + left)
      ensures ok == Body(Varint32(old(Rest()))).Got?
      ensures ok ==> left == |Body(Varint32(old(Rest()))).rest| && sub.Rest() == Body(Varint32(old(Rest()))).value
      ensures ok ==> pos == sub.pos && sub.pos + sub.left + left == old(pos + left)
      ensures ok ==> data[sub.pos + sub.left..sub.pos + sub.left + left] == Body(Varint32(old(Rest()))).rest
    {
      sub := this;
      var n;
      ok, n := DecodeVarint32();
      if !ok { return; }
      if left < n { return false, this; }
      ghost var r := Rest();
      sub := new IStream(data, pos, n);
      left := left - n;
      assert sub.Rest() == r[..n] && data[pos + n..pos + n + left] == r[n..];
    }
  }

  /** pb_close_string_substream: reading goes on where the substream stands */
  method Close(s: IStream, sub: IStream, ghost end: nat, ghost rest: Bytes)
    requires sub.data == s.data && sub.pos <= end && end + s.left <= |s.data| && s != sub
    requires s.data[end..end + s.left] == rest
    modifies s
    ensures s.Valid() && s.pos == sub.pos && s.left == old(s.left)
    ensures sub.pos == end ==> s.Rest() == rest
  {
    s.pos := sub.pos;
  }

  /** Groups read so far continued by the outcome of the remaining ones. */
  function Continued(result: nat, scale: nat, r: Read<nat>): Read<nat> {
    match r
    case Got(v, rest) => Got(result + scale * v, rest)
    case Bad(rest) => Bad(rest)
  }

  lemma GroupsStart(all: Read<nat>)
    ensures Continued(0, 1, all) == all
  {
  }

  lemma GroupsEnd(result: nat, scale: nat, b: Bytes, k: nat, all: Read<nat>)
    requires all == Continued(result, scale, Groups(b, k))
    ensures k == 0 || b == [] ==> all == Bad(b)
  {
  }

  /** One round of the loops: the low seven bits of a byte are added above the groups before it */
  method AddGroup(result: nat, scale: nat, b: Byte, ghost before: Bytes, ghost k: nat, ghost all: Read<nat>)
    returns (result': nat, scale': nat)
    requires before != [] && before[0] == b && all == Continued(result, scale, Groups(before, k + 1))
    ensures b < 128 ==> all == Got(result', before[1..])
    ensures b >= 128 ==> all == Continued(result', scale', Groups(before[1..], k))
  {
    GroupStep(result, scale, before, k + 1);
    result', scale' := result + scale * (b % 128), 128 * scale;
  }

  lemma GroupStep(result: nat, scale: nat, b: Bytes, k: nat)
    requires k > 0 && b != []
    ensures Continued(result, scale, Groups(b, k)) ==
            if b[0] < 128 then Got(result + scale * (b[0] % 128), b[1..])
            else Continued(result + scale * (b[0] % 128), 128 * scale, Groups(b[1..], k - 1))
  {
    if b[0] >= 128 {
      match Groups(b[1..], k - 1)
      case Bad(_) =>
      case Got(v, _) => Distribute(scale, b[0] - 128, v);
    }
  }

  lemma Distribute(s: nat, d: nat, v: nat)
    ensures s * (d + 128 * v) == s * d + 128 * s * v
  {
  }

  // ----- the decoder ---------------------------------------------------------------------

  /** cf_pb_decode_int32 to cf_pb_decode_double */
  method DecodeNum(s: IStream, t: Type) returns (ok: bool, v: Value)
    requires s.Valid() && Numeric(t)
    modifies s
    ensures s.Valid() && s.pos + s.left == old(s.pos + s.left)
    ensures ok == ReadNum(t, old(s.Rest())).Got? && s.Rest() == ReadNum(t, old(s.Rest())).rest
    ensures ok ==> v == ReadNum(t, old(s.Rest())).value
  {
    v := Num(0);
    if Wire(t) == BITS32 || Wire(t) == BITS64 {
      var b;
      ok, b := s.Read(if Wire(t) == BITS32 then 4 else 8);
      if ok { v := Num(LeValue(b)); }
      return;
    }
    var n;
    ok, n := s.DecodeVarint();
    if !ok { return; }
    match t
    case Int32 =>
      var x := UnZigZag(n);
      if -0x8000_0000 <= x < 0x8000_0000 { v := Num(x); } else { ok := false; }
    case UInt32 => if n < TWO32 { v := Num(n); } else { ok := false; }
    case Int64 => v := Num(UnZigZag(n));
    case Bool => v := Num(if n != 0 then 1 else 0);
    case _ => v := Num(n);
  }

  /** cf_pb_decode_string and cf_pb_decode_bytes */
  method DecodeBytes(s: IStream, limited: bool) returns (ok: bool, b: Bytes)
    requires s.Valid()
    modifies s
    ensures s.Valid() && s.pos + s.left == old(s.pos + s.left)
    ensures var r := Body(Varint64(old(s.Rest())));
            ok == (r.Got? && (limited ==> |r.value| <= 65536)) && (ok ==> b == r.value && s.Rest() == r.rest)
  {
    var n;
    b := [];
    ok, n := s.DecodeVarint();
    if !ok { return; }
    if limited && n > 64 * 1024 { return false, []; }
    ok, b := s.Read(n);
  }

  /** cf_pb_decfunc */
  method DecodeValue(s: IStream, env: Schema, mem: Memory, t: Type, was: Value) returns (ok: bool, v: Value)
    requires s.Valid()
    modifies s
    ensures s.Valid() && s.pos + s.left <= old(s.pos + s.left) && (ok ==> s.pos + s.left == old(s.pos + s.left))
    ensures ok == ReadValue(env, mem, t, old(s.Rest()), was).Got?
    ensures ok ==> Got(v, s.Rest()) == ReadValue(env, mem, t, old(s.Rest()), was)
    decreases s.left, 2
  {
    v := Num(0);
    if t.Str? || t.Blob? {
      var b;
      ok, b := DecodeBytes(s, t.Blob?);
      if ok { v := Raw(if t.Str? then CString(b) else b); }
    } else if t.Message? {
      ok, v := DecodeSubmessage(s, env, mem, t, was);
    } else {
      ok, v := DecodeNum(s, t);
    }
  }

  lemma SubValue(env: Schema, mem: Memory, t: Type, b: Bytes, was: Value, body: Read<Bytes>)
    requires t.Message? && body == Body(Varint32(b))
    ensures body.Bad? ==> ReadValue(env, mem, t, b, was).Bad?
    ensures body.Got? && Decode(env, mem, t.index, body.value, MsgOf(was)).None? ==> ReadValue(env, mem, t, b, was).Bad?
    ensures body.Got? && Decode(env, mem, t.index, body.value, MsgOf(was)).Some? ==>
              ReadValue(env, mem, t, b, was) == Got(Sub(Decode(env, mem, t.index, body.value, MsgOf(was)).value), body.rest)
  {
  }

  /** cf_pb_decode_submessage */
  method DecodeSubmessage(s: IStream, env: Schema, mem: Memory, t: Type, was: Value) returns (ok: bool, v: Value)
    requires s.Valid() && t.Message?
    modifies s
    ensures s.Valid() && s.pos + s.left <= old(s.pos + s.left) && (ok ==> s.pos + s.left == old(s.pos + s.left))
    ensures ok == ReadValue(env, mem, t, old(s.Rest()), was).Got?
    ensures ok ==> Got(v, s.Rest()) == ReadValue(env, mem, t, old(s.Rest()), was)
    decreases s.left, 1
  {
    SubValue(env, mem, t, s.Rest(), was, Body(Varint32(s.Rest())));
    var m;
    ok, m := DecodeBody(s, env, mem, t.index, MsgOf(was), Body(Varint32(s.Rest())));
    v := Sub(m);
  }

  /** A length-delimited message on its own substream */
  method DecodeBody(s: IStream, env: Schema, mem: Memory, i: nat, into: Msg, ghost body: Read<Bytes>) returns (ok: bool, m: Msg)
    requires s.Valid() && body == Body(Varint32(s.Rest()))
    modifies s
    ensures s.Valid() && s.pos + s.left <= old(s.pos + s.left) && (ok ==> s.pos + s.left == old(s.pos + s.left))
    ensures ok == (body.Got? && Decode(env, mem, i, body.value, into).Some?)
    ensures ok ==> m == Decode(env, mem, i, body.value, into).value && s.Rest() == body.rest
    decreases s.left, 0
  {
    m := into;
    var sub;
    ok, sub := s.MakeSubstream();
    if !ok { return; }
    ghost var end := sub.pos + sub.left;
    assert sub.Rest() == body.value;
    ok, m := DecodeMessage(sub, env, mem, i, into);
    Close(s, sub, end, body.rest);
  }

  /** Items already read in front of those still to come. */
  function After(items: seq<Value>, r: Items): Items { Items(items + r.items, r.rest) }

  lemma PackedStep(t: Type, b: Bytes, items: seq<Value>)
    requires Packable(t) && b != []
    ensures var r := ReadNum(t, b);
            After(items, ReadPacked(t, b)) == if r.Got? then After(items + [r.value], ReadPacked(t, r.rest)) else Items(items, r.rest)
  {
    var r := ReadNum(t, b);
    if r.Got? {
      var more := ReadPacked(t, r.rest).items;
      assert items + ([r.value] + more) == items + [r.value] + more;
    }
  }

  /** The loop over the elements of a packed array */
  method DecodeItems(s: IStream, t: Type) returns (items: seq<Value>)
    requires s.Valid() && Packable(t)
    modifies s
    ensures s.Valid() && s.pos + s.left == old(s.pos + s.left)
    ensures Items(items, s.Rest()) == ReadPacked(t, old(s.Rest()))
  {
    items := [];
    var ok := true;
    while ok && s.left != 0
      invariant s.Valid() && s.pos + s.left == old(s.pos + s.left)
      invariant ok ==> ReadPacked(t, old(s.Rest())) == After(items, ReadPacked(t, s.Rest()))
      invariant !ok ==> ReadPacked(t, old(s.Rest())) == Items(items, s.Rest())
      decreases ok, s.left
    {
      var v;
      PackedStep(t, s.Rest(), items);
      ok, v := DecodeNum(s, t);
      if ok { items := items + [v]; }
    }
  }

  /** The packed case of cf_pb_decode_array, of which body is read */
  method DecodePacked(s: IStream, t: Type, ghost body: Read<Bytes>) returns (ok: bool, items: seq<Value>)
    requires s.Valid() && Packable(t) && body == Body(Varint32(s.Rest()))
    modifies s
    ensures s.Valid() && s.pos + s.left <= old(s.pos + s.left) && (ok ==> s.pos + s.left == old(s.pos + s.left))
    ensures ok == (body.Got? && ReadPacked(t, body.value).rest == [])
    ensures ok ==> items == ReadPacked(t, body.value).items && s.Rest() == body.rest
  {
    items := [];
    var sub;
    ok, sub := s.MakeSubstream();
    if !ok { return; }
    ok, items := DecodeSubstream(s, sub, t, sub.pos + sub.left, body.value, body.rest);
  }

  /** The loop over the substream, and its end: it must have been read up. */
  method DecodeSubstream(s: IStream, sub: IStream, t: Type, ghost end: nat, ghost b: Bytes, ghost rest: Bytes)
    returns (ok: bool, items: seq<Value>)
    requires sub.Valid() && s != sub && Packable(t) && sub.Rest() == b && end == sub.pos + sub.left
    requires sub.data == s.data && end + s.left <= |s.data| && s.data[end..end + s.left] == rest
    modifies s, sub
    ensures s.Valid() && s.left == old(s.left) && s.pos + s.left <= end + s.left && (ok ==> s.pos == end)
    ensures ok == (ReadPacked(t, b).rest == [])
    ensures ok ==> items == ReadPacked(t, b).items && s.Rest() == rest
  {
    items := DecodeItems(sub, t);
    Close(s, sub, end, rest);
    ok := sub.left == 0;
  }

  /** cf_pb_decode_array */
  method DecodeArray(s: IStream, env: Schema, mem: Memory, f: Field, wire: nat, was: seq<Value>) returns (ok: bool, items: seq<Value>)
    requires s.Valid()
    modifies s
    ensures s.Valid() && s.pos + s.left <= old(s.pos + s.left) && (ok ==> s.pos + s.left == old(s.pos + s.left))
    ensures ok == ReadArray(env, mem, f, wire, old(s.Rest()), was).Got?
    ensures ok ==> Got(Many(items), s.Rest()) == ReadArray(env, mem, f, wire, old(s.Rest()), was)
    decreases s.left, 3
  {
    if wire == STRING && Packable(f.typ) {
      ok, items := DecodePacked(s, f.typ, Body(Varint32(s.Rest())));
    } else {
      var v;
      items := was;
      ok, v := DecodeValue(s, env, Within(mem, f.tag, |was|), f.typ, Fresh(mem, f, |was|));
      if ok { items := was + [v]; }
    }
  }

  /** cf_pb_decode_field, with the flag or tag that cf_pb_decode sets after it */
  method DecodeField(s: IStream, env: Schema, mem: Memory, f: Field, wire: nat, was: Slot, inUse: bool) returns (ok: bool, slot: Slot)
    requires s.Valid()
    modifies s
    ensures s.Valid() && s.pos + s.left <= old(s.pos + s.left) && (ok ==> s.pos + s.left == old(s.pos + s.left))
    ensures ok == ReadField(env, mem, f, wire, old(s.Rest()), was, inUse).Got?
    ensures ok ==> Got(slot, s.Rest()) == ReadField(env, mem, f, wire, old(s.Rest()), was, inUse)
    decreases s.left, 4
  {
    slot := was;
    if f.store.Array? {
      var items;
      ok, items := DecodeArray(s, env, mem, f, wire, ItemsOf(was));
      if ok { slot := Many(items); }
    } else if wire != Wire(f.typ) {
      ok := false;
    } else {
      var v;
      ok, v := DecodeValue(s, env, Within(mem, f.tag, 0), f.typ, Place(mem, f, was, inUse));
      if ok { slot := Full(f, v); }
    }
  }

  /** cf_pb_decode */
  method DecodeMessage(s: IStream, env: Schema, mem: Memory, i: nat, into: Msg) returns (ok: bool, m: Msg)
    requires s.Valid()
    modifies s
    ensures s.Valid() && s.pos + s.left <= old(s.pos + s.left) && (ok ==> s.left == 0 && s.pos == old(s.pos + s.left))
    ensures ok == Decode(env, mem, i, old(s.Rest()), into).Some?
    ensures ok ==> m == Decode(env, mem, i, old(s.Rest()), into).value
    decreases s.left, 5
  {
    m := into;
    var fs := Fields(env, i);
    while s.left != 0
      invariant s.Valid() && s.pos + s.left == old(s.pos + s.left)
      invariant Decode(env, mem, i, s.Rest(), m) == Decode(env, mem, i, old(s.Rest()), into)
      decreases s.left
    {
      var t;
      ok, t := s.DecodeTag();
      if !ok { break; }
      var at := Find(fs, t.number);
      if at.Unknown? {
        ok := s.Skip(t.wire);
        if !ok { return; }
      } else {
        var slot;
        ok, slot := DecodeField(s, env, mem, fs[at.at], t.wire, SlotAt(m, at.at), InUse(fs, at.at, m));
        if !ok { return; }
        m := Put(fs, at.at, m, slot);
      }
    }
    ok := s.left == 0;
  }

  /** cf_pb_unpack */
  method Unpack(data: Bytes, env: Schema, mem: Memory, i: nat, into: Msg) returns (ok: bool, m: Msg)
    ensures ok == Decode(env, mem, i, data, into).Some?
    ensures ok ==> m == Decode(env, mem, i, data, into).value
  {
    var s := new IStream(data, 0, |data|);
    assert s.Rest() == data;
    ok, m := DecodeMessage(s, env, mem, i, into);
  }
}
