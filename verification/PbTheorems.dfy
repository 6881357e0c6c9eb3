/** Round trip and compatibility between schemas. */
module PbTheorems {
  import opened Basics
  import opened PbWire
  import opened PbCodec
  import opened PbRoundTrip
  import opened PbMeaning

  // ----- memories ------------------------------------------------------------------------

  ghost predicate ValueForm(env: Schema, t: Type, v: Value, blank: bool)
    decreases v, 0
  {
    t.Message? ==> v.Sub? && Form(env, t.index, v.msg, blank)
  }

  ghost predicate SlotForm(env: Schema, f: Field, s: Slot, blank: bool)
    decreases s, 0
  {
    match s
    case One(v) => f.store.Required? && ValueForm(env, f.typ, v, blank)
    case Opt(has, v) => (f.store.Optional? || f.store.OneOf?) && (blank ==> !has) && ValueForm(env, f.typ, v, blank)
    case Many(items) => f.store.Array? && (blank ==> items == [])
  }

  /** r is storage for a message of type i; blank storage has every flag unset and every array
      empty, as the generated initialisers leave it. */
  ghost predicate Form(env: Schema, i: nat, r: Msg, blank: bool)
    decreases r, 0
  {
    |r.slots| == |Fields(env, i)| && OnePerGroup(Fields(env, i), r) &&
    forall b :: 0 <= b < |r.slots| ==> SlotForm(env, Fields(env, i)[b], r.slots[b], blank)
  }

  /** Elements of arrays and reused unions start as storage of the right type with any contents. */
  ghost predicate AnyMemory(env: Schema, mem: Memory) {
    forall t: nat, w: Where {:trigger mem(t, w)} :: Form(env, t, mem(t, w), false)
  }

  lemma AnyWithin(env: Schema, mem: Memory, tag: nat, k: nat)
    requires AnyMemory(env, mem)
    ensures AnyMemory(env, Within(mem, tag, k))
  {
    var inner := Within(mem, tag, k);
    forall t: nat, w: Where ensures Form(env, t, inner(t, w), false) { assert inner(t, w) == mem(t, [(tag, k)] + w); }
  }

  // ----- messages that come through whatever the memory holds ----------------------------

  ghost predicate ValueSound(env: Schema, env': Schema, t: Type, v: Value, blank: bool)
    decreases v, 0
  {
    v.Sub? && t.Message? ==> Sound(env, env', t.index, v.msg, blank)
  }

  ghost predicate SlotSound(env: Schema, env': Schema, t: Type, s: Slot, hit: bool, blank: bool)
    decreases s, 0
  {
    match s
    case One(v) => ValueSound(env, env', t, v, blank)
    case Opt(has, v) => if has then ValueSound(env, env', t, v, blank) else blank || hit
    case Many(items) =>
      if items == [] then blank
      else Packable(t) || (blank && forall k :: 0 <= k < |items| ==> ValueSound(env, env', t, items[k], false))
  }

  /** Decoded over blank storage: every array element that is a message sets each of its
      optional fields and each of its unions, and has no array that is empty or unpacked.
      Over any other storage the message itself has to. */
  ghost predicate Sound(env: Schema, env': Schema, i: nat, m: Msg, blank: bool)
    decreases m, 0
  {
    forall a :: 0 <= a < |m.slots| && a < |Fields(env, i)| ==>
      var b := Find(Fields(env', i), Fields(env, i)[a].tag);
      b.Found? ==> SlotSound(env, env', Fields(env, i)[a].typ, m.slots[a], Hit(Fields(env, i), Fields(env', i), m, 0, b.at), blank)
  }

  lemma {:induction false} ValueSoundReady(env: Schema, env': Schema, mem: Memory, t: Type, v: Value, was: Value, blank: bool)
    requires Agree(env, env') && AnyMemory(env', mem) && ValueFits(env, env', t, true, v)
    requires ValueForm(env', t, was, blank) && ValueSound(env, env', t, v, blank)
    ensures ValueReady(env, env', mem, t, v, was)
    decreases v, 0
  {
    if v.Sub? && t.Message? { SoundReady(env, env', mem, t.index, v.msg, was.msg, blank); }
  }

  lemma {:induction false} SlotSoundReady(env: Schema, env': Schema, mem: Memory, f: Field, s: Slot, was: Slot,
      inUse: bool, hit: bool, blank: bool)
    requires Agree(env, env') && AnyMemory(env', mem) && SlotFits(env, env', f, true, s)
    requires SlotForm(env', f, was, blank) && SlotSound(env, env', f.typ, s, hit, blank) && (blank ==> !inUse)
    ensures SlotReady(env, env', mem, f, s, was, inUse, hit)
    decreases s, 0
  {
    match s
    case One(v) =>
      PlaceForm(env', mem, f, was, inUse, blank);
      AnyWithin(env', mem, f.tag, 0);
      ValueSoundReady(env, env', Within(mem, f.tag, 0), f.typ, v, Place(mem, f, was, inUse), blank);
    case Opt(has, v) =>
      if has {
        PlaceForm(env', mem, f, was, inUse, blank);
        AnyWithin(env', mem, f.tag, 0);
        ValueSoundReady(env, env', Within(mem, f.tag, 0), f.typ, v, Place(mem, f, was, inUse), blank);
      }
    case Many(items) =>
      if !Packable(f.typ) && items != [] {
        forall k | 0 <= k < |items| ensures ItemReady(env, env', mem, f, items[k], k) {
          AnyWithin(env', mem, f.tag, k);
          ValueSoundReady(env, env', Within(mem, f.tag, k), f.typ, items[k], Fresh(mem, f, k), false);
        }
      }
  }

  lemma PlaceForm(env: Schema, mem: Memory, f: Field, was: Slot, inUse: bool, blank: bool)
    requires AnyMemory(env, mem) && SlotForm(env, f, was, blank) && !f.store.Array? && (blank ==> !inUse)
    ensures ValueForm(env, f.typ, Place(mem, f, was, inUse), blank)
  {
  }

  lemma {:induction false} SoundReady(env: Schema, env': Schema, mem: Memory, i: nat, m: Msg, r: Msg, blank: bool)
    requires Agree(env, env') && AnyMemory(env', mem) && Fits(env, env', i, m)
    requires Form(env', i, r, blank) && Sound(env, env', i, m, blank)
    ensures Ready(env, env', mem, i, m, r)
    decreases m, 0
  {
    var fs, fs' := Fields(env, i), Fields(env', i);
    forall a | 0 <= a < |m.slots| && Find(fs', fs[a].tag).Found?
      ensures var b := Find(fs', fs[a].tag).at;
              SlotReady(env, env', mem, fs[a], m.slots[a], r.slots[b], InUse(fs', b, r), Hit(fs, fs', m, 0, b))
    {
      var b := Find(fs', fs[a].tag).at;
      assert fs'[b] == fs[a];
      if blank { NoneInUse(env', i, r, b); }
      SlotSoundReady(env, env', mem, fs[a], m.slots[a], r.slots[b], InUse(fs', b, r), Hit(fs, fs', m, 0, b), blank);
    }
  }

  lemma NoneInUse(env: Schema, i: nat, r: Msg, b: nat)
    requires Form(env, i, r, true)
    ensures !InUse(Fields(env, i), b, r)
  {
    forall k | 0 <= k < |r.slots| && r.slots[k].Opt? ensures !r.slots[k].has {
      assert SlotForm(env, Fields(env, i)[k], r.slots[k], true);
    }
  }

  // ----- equal messages have equal encodings ---------------------------------------------

  lemma {:induction false} FindSelf(fs: seq<Field>, a: nat, k: nat)
    requires TagsDiffer(fs) && k <= a < |fs|
    ensures FindFrom(fs, fs[a].tag, k) == Found(a)
    decreases a - k
  {
    if k < a { FindSelf(fs, a, k + 1); }
  }

  lemma {:induction false} ValueSame(env: Schema, t: Type, v: Value, w: Value)
    requires Distinct(env) && ValueFits(env, env, t, true, v) && ValueShows(env, env, t, v, w)
    ensures ValueBytes(env, t, w) == ValueBytes(env, t, v)
    decreases v, 0
  {
    if v.Sub? && t.Message? { EncodeSame(env, t.index, v.msg, w.msg, 0); }
  }

  lemma {:induction false} ItemsSame(env: Schema, f: Field, s: Slot, w: Slot, k: nat)
    requires Distinct(env) && SlotFits(env, env, f, true, s) && SlotShows(env, env, f.typ, s, w) && s.Many? && k <= |s.items|
    ensures Unpacked(env, f, w, k) == Unpacked(env, f, s, k)
    decreases s, |s.items| - k
  {
    if k < |s.items| {
      ValueSame(env, f.typ, s.items[k], w.items[k]);
      ItemsSame(env, f, s, w, k + 1);
    }
  }

  lemma {:induction false} SlotSame(env: Schema, f: Field, s: Slot, w: Slot)
    requires Distinct(env) && SlotFits(env, env, f, true, s) && SlotShows(env, env, f.typ, s, w)
    ensures SlotBytes(env, f, w) == SlotBytes(env, f, s)
    decreases s, if s.Many? then |s.items| + 1 else 0
  {
    match s
    case One(v) => ValueSame(env, f.typ, v, w.v);
    case Opt(has, v) => if has { ValueSame(env, f.typ, v, w.v); }
    case Many(items) =>
      if Packable(f.typ) {
        assert w.items == items;
      } else {
        ItemsSame(env, f, s, w, 0);
      }
  }

  /** A memory that shows a message encodes to the bytes of that message. */
  lemma {:induction false} EncodeSame(env: Schema, i: nat, m: Msg, w: Msg, j: nat)
    requires Distinct(env) && Fits(env, env, i, m) && Shows(env, env, i, m, w)
    ensures Encode(env, i, w, j) == Encode(env, i, m, j)
    decreases m, |m.slots| - j
  {
    if j < |m.slots| {
      var fs := Fields(env, i);
      FindSelf(fs, j, 0);
      SlotSame(env, fs[j], m.slots[j], w.slots[j]);
      EncodeSame(env, i, m, w, j + 1);
    }
  }

  /** The examples of the Protocol Buffers encoding guide: field 1 holding 150, field 2 holding
      "testing", and a message holding the first in its field 3. */
  lemma GuideScalars()
    ensures Encode([[Field(1, UInt32, Required)]], 0, Msg([One(Num(150))]), 0) == [0x08, 0x96, 0x01]
    ensures Encode([[Field(2, Str, Required)]], 0, Msg([One(Raw([0x74, 0x65, 0x73, 0x74, 0x69, 0x6e, 0x67]))]), 0) ==
            [0x12, 0x07, 0x74, 0x65, 0x73, 0x74, 0x69, 0x6e, 0x67]
  {
    assert Varint(150) == [0x96, 0x01];
  }

  lemma GuideNested()
    ensures Encode([[Field(1, UInt32, Required)], [Field(3, Message(0), Required)]], 1, Msg([One(Sub(Msg([One(Num(150))])))]), 0) ==
            [0x1a, 0x03, 0x08, 0x96, 0x01]
  {
    assert Varint(150) == [0x96, 0x01];
    var env := [[Field(1, UInt32, Required)], [Field(3, Message(0), Required)]];
    assert Encode(env, 0, Msg([One(Num(150))]), 0) == [0x08, 0x96, 0x01];
  }

  // ----- theorems ------------------------------------------------------------------------

  /** For schemas that agree on shared tags, with fields known to one side only in both
      directions: decoding succeeds and shows exactly the shared part of the message, if and
      only if the storage was ready for it. */
  lemma DecodeShowsIffReady(env: Schema, env': Schema, mem: Memory, i: nat, m: Msg, r: Msg)
    requires TagsOk(env) && Agree(env, env') && Distinct(env) && Fits(env, env', i, m)
    ensures Decode(env', mem, i, Encode(env, i, m, 0), r).Some?
    ensures Shows(env, env', i, m, Decode(env', mem, i, Encode(env, i, m, 0), r).value) <==> Ready(env, env', mem, i, m, r)
  {
    DecodeBack(env, env', mem, i, m, 0, r);
    ShowsIffReady(env, env', mem, i, m, r);
  }

  /** Compatibility: into blank storage, whatever malloc returns. */
  lemma Compatible(env: Schema, env': Schema, mem: Memory, i: nat, m: Msg, r: Msg)
    requires TagsOk(env) && Agree(env, env') && Distinct(env) && Fits(env, env', i, m)
    requires Form(env', i, r, true) && AnyMemory(env', mem) && Sound(env, env', i, m, true)
    ensures Decode(env', mem, i, Encode(env, i, m, 0), r).Some?
    ensures Shows(env, env', i, m, Decode(env', mem, i, Encode(env, i, m, 0), r).value)
  {
    SoundReady(env, env', mem, i, m, r, true);
    DecodeShowsIffReady(env, env', mem, i, m, r);
  }

  /** Round trip: decoding an encoding into blank storage gives the same message back, and
      encoding the result gives the same bytes. */
  lemma RoundTrip(env: Schema, mem: Memory, i: nat, m: Msg, r: Msg)
    requires TagsOk(env) && Distinct(env) && Fits(env, env, i, m)
    requires Form(env, i, r, true) && AnyMemory(env, mem) && Sound(env, env, i, m, true)
    ensures Decode(env, mem, i, Encode(env, i, m, 0), r).Some?
    ensures Shows(env, env, i, m, Decode(env, mem, i, Encode(env, i, m, 0), r).value)
    ensures Encode(env, i, Decode(env, mem, i, Encode(env, i, m, 0), r).value, 0) == Encode(env, i, m, 0)
  {
    Compatible(env, env, mem, i, m, r);
    EncodeSame(env, i, m, Decode(env, mem, i, Encode(env, i, m, 0), r).value, 0);
  }

  /** Array elements are not cleared before they are decoded: if element k of the array in
      field a leaves its field x unset, and its memory has x set, the message does not come
      back. */
  lemma UnsetElementFieldSpoils(env: Schema, env': Schema, mem: Memory, i: nat, m: Msg, r: Msg, a: nat, k: nat, x: nat, t: nat)
    requires TagsOk(env) && Agree(env, env') && Distinct(env) && Fits(env, env', i, m)
    requires a < |m.slots| && Fields(env, i)[a].typ == Message(t) && m.slots[a].Many? && k < |m.slots[a].items|
    requires Find(Fields(env', i), Fields(env, i)[a].tag).Found? && m.slots[a].items[k].Sub?
    requires var e, was := m.slots[a].items[k].msg, mem(t, [(Fields(env, i)[a].tag, k)]);
             x < |e.slots| && x < |Fields(env, t)| && e.slots[x].Opt? && !e.slots[x].has &&
             var y := Find(Fields(env', t), Fields(env, t)[x].tag);
             y.Found? && !Hit(Fields(env, t), Fields(env', t), e, 0, y.at) &&
             y.at < |was.slots| && was.slots[y.at].Opt? && was.slots[y.at].has
    ensures Decode(env', mem, i, Encode(env, i, m, 0), r).Some?
    ensures !Shows(env, env', i, m, Decode(env', mem, i, Encode(env, i, m, 0), r).value)
  {
    var f, e := Fields(env, i)[a], m.slots[a].items[k].msg;
    var was, inner := mem(t, [(f.tag, k)]), Within(mem, f.tag, k);
    var y := Find(Fields(env', t), Fields(env, t)[x].tag).at;
    assert !SlotReady(env, env', inner, Fields(env, t)[x], e.slots[x], was.slots[y], InUse(Fields(env', t), y, was), false);
    assert !Ready(env, env', inner, t, e, was);
    assert !ItemReady(env, env', mem, f, m.slots[a].items[k], k);
    DecodeShowsIffReady(env, env', mem, i, m, r);
  }
}
