/** The condition of PbTheorems.Compatible is exact: a message that does not meet it fails to
    come through for some contents of the memory that array elements are decoded into. */
module PbExact {
  import opened Basics
  import opened PbWire
  import opened PbCodec
  import opened PbRoundTrip
  import opened PbMeaning
  import opened PbTheorems

  // ----- memory in which everything is set -----------------------------------------------

  /** Every flag is set and every array has an element; of a union only member b of message type
      t is set. */
  ghost predicate ValueDirty(env: Schema, f: Field, v: Value, t: nat, b: nat)
    decreases v, 0
  {
    f.typ.Message? ==> v.Sub? && Dirty(env, f.typ.index, v.msg, t, b)
  }

  ghost predicate SlotDirty(env: Schema, f: Field, s: Slot, set_: bool, t: nat, b: nat)
    decreases s, 0
  {
    match s
    case One(v) => f.store.Required? && ValueDirty(env, f, v, t, b)
    case Opt(has, v) =>
      (f.store.Optional? || f.store.OneOf?) && ValueDirty(env, f, v, t, b) && (f.store.Optional? || set_ ==> has) &&
      (has ==> f.store.Optional? || set_)
    case Many(items) => f.store.Array? && items != []
  }

  ghost predicate Dirty(env: Schema, i: nat, r: Msg, t: nat, b: nat)
    decreases r, 0
  {
    |r.slots| == |Fields(env, i)| &&
    forall j :: 0 <= j < |r.slots| ==> SlotDirty(env, Fields(env, i)[j], r.slots[j], i == t && j == b, t, b)
  }

  /** Any storage can be filled like that. */
  ghost function SoilValue(env: Schema, f: Field, v: Value, t: nat, b: nat): Value
    decreases v, 0
  {
    if f.typ.Message? && v.Sub? then Sub(Soil(env, f.typ.index, v.msg, t, b)) else v
  }

  ghost function SoilSlot(env: Schema, f: Field, s: Slot, set_: bool, t: nat, b: nat): Slot
    decreases s, 0
  {
    match s
    case One(v) => One(SoilValue(env, f, v, t, b))
    case Opt(_, v) => Opt(f.store.Optional? || set_, SoilValue(env, f, v, t, b))
    case Many(_) => Many([Num(0)])
  }

  ghost function Soil(env: Schema, i: nat, r: Msg, t: nat, b: nat): Msg
    decreases r, 0
  {
    Msg(seq(|r.slots|, j requires 0 <= j < |r.slots| =>
      if j < |Fields(env, i)| then SoilSlot(env, Fields(env, i)[j], r.slots[j], i == t && j == b, t, b) else r.slots[j]))
  }

  lemma {:induction false} SoilValueOk(env: Schema, f: Field, v: Value, t: nat, b: nat)
    requires ValueForm(env, f.typ, v, false)
    ensures ValueDirty(env, f, SoilValue(env, f, v, t, b), t, b) && ValueForm(env, f.typ, SoilValue(env, f, v, t, b), false)
    decreases v, 0
  {
    if f.typ.Message? { SoilOk(env, f.typ.index, v.msg, t, b); }
  }

  lemma {:induction false} SoilSlotOk(env: Schema, f: Field, s: Slot, set_: bool, t: nat, b: nat)
    requires SlotForm(env, f, s, false)
    ensures SlotDirty(env, f, SoilSlot(env, f, s, set_, t, b), set_, t, b) && SlotForm(env, f, SoilSlot(env, f, s, set_, t, b), false)
    decreases s, 0
  {
    match s
    case One(v) => SoilValueOk(env, f, v, t, b);
    case Opt(_, v) => SoilValueOk(env, f, v, t, b);
    case Many(_) =>
  }

  lemma {:induction false} SoilOk(env: Schema, i: nat, r: Msg, t: nat, b: nat)
    requires Form(env, i, r, false)
    ensures Dirty(env, i, Soil(env, i, r, t, b), t, b) && Form(env, i, Soil(env, i, r, t, b), false)
    decreases r, 0
  {
    var fs, w := Fields(env, i), Soil(env, i, r, t, b);
    forall j | 0 <= j < |r.slots|
      ensures SlotDirty(env, fs[j], w.slots[j], i == t && j == b, t, b) && SlotForm(env, fs[j], w.slots[j], false)
    {
      SoilSlotOk(env, fs[j], r.slots[j], i == t && j == b, t, b);
    }
    assert OnePerGroup(fs, w);
  }

  ghost predicate AllDirty(env: Schema, mem: Memory, t: nat, b: nat) {
    forall x: nat, w: Where {:trigger mem(x, w)} :: Dirty(env, x, mem(x, w), t, b)
  }

  lemma DirtyWithin(env: Schema, mem: Memory, t: nat, b: nat, tag: nat, k: nat)
    requires AllDirty(env, mem, t, b)
    ensures AllDirty(env, Within(mem, tag, k), t, b)
  {
    var inner := Within(mem, tag, k);
    forall x: nat, w: Where ensures Dirty(env, x, inner(x, w), t, b) { assert inner(x, w) == mem(x, [(tag, k)] + w); }
  }

  ghost function Soiled(env: Schema, mem: Memory, t: nat, b: nat): Memory { (x: nat, w: Where) => Soil(env, x, mem(x, w), t, b) }

  lemma SoiledOk(env: Schema, mem: Memory, t: nat, b: nat)
    requires AnyMemory(env, mem)
    ensures AnyMemory(env, Soiled(env, mem, t, b)) && AllDirty(env, Soiled(env, mem, t, b), t, b)
  {
    var soiled := Soiled(env, mem, t, b);
    forall x: nat, w: Where ensures Form(env, x, soiled(x, w), false) && Dirty(env, x, soiled(x, w), t, b) {
      SoilOk(env, x, mem(x, w), t, b);
    }
  }

  // ----- which field goes wrong ----------------------------------------------------------

  datatype Spot = At(t: nat, b: nat)

  ghost predicate SlotFails(env: Schema, env': Schema, i: nat, m: Msg, blank: bool, a: nat) {
    a < |m.slots| && a < |Fields(env, i)| &&
    var b := Find(Fields(env', i), Fields(env, i)[a].tag);
    b.Found? && !SlotSound(env, env', Fields(env, i)[a].typ, m.slots[a], Hit(Fields(env, i), Fields(env', i), m, 0, b.at), blank)
  }

  /** A field of m, or of a message inside it, that does not meet the condition. */
  ghost function Culprit(env: Schema, env': Schema, i: nat, m: Msg, blank: bool): Spot
    decreases m, 0
  {
    if a: nat :| SlotFails(env, env', i, m, blank, a) then
      CulpritIn(env, env', i, Find(Fields(env', i), Fields(env, i)[a].tag).at, Fields(env, i)[a].typ, m.slots[a], blank)
    else At(i, 0)
  }

  ghost function CulpritIn(env: Schema, env': Schema, i: nat, b: nat, t: Type, s: Slot, blank: bool): Spot
    decreases s, 0
  {
    match s
    case One(v) => if v.Sub? && t.Message? then Culprit(env, env', t.index, v.msg, blank) else At(i, b)
    case Opt(has, v) => if has && v.Sub? && t.Message? then Culprit(env, env', t.index, v.msg, blank) else At(i, b)
    case Many(items) =>
      if blank && t.Message? && exists k: nat :: k < |items| && items[k].Sub? && !Sound(env, env', t.index, items[k].msg, false) then
        var k: nat :| k < |items| && items[k].Sub? && !Sound(env, env', t.index, items[k].msg, false);
        Culprit(env, env', t.index, items[k].msg, false)
      else At(i, b)
  }

  /** The storage a message is decoded over: blank, or dirty. */
  ghost predicate Over(env: Schema, i: nat, r: Msg, blank: bool, c: Spot) {
    if blank then Form(env, i, r, true) else Dirty(env, i, r, c.t, c.b)
  }

  lemma SomeFails(env: Schema, env': Schema, i: nat, m: Msg, blank: bool)
    requires !Sound(env, env', i, m, blank)
    ensures exists a: nat :: SlotFails(env, env', i, m, blank, a)
  {
    var a :| 0 <= a < |m.slots| && a < |Fields(env, i)| &&
      var b := Find(Fields(env', i), Fields(env, i)[a].tag);
      b.Found? && !SlotSound(env, env', Fields(env, i)[a].typ, m.slots[a], Hit(Fields(env, i), Fields(env', i), m, 0, b.at), blank);
    assert SlotFails(env, env', i, m, blank, a);
  }

  /** With memory that is dirty at the culprit, the message is not ready. */
  lemma {:induction false} CulpritSpoils(env: Schema, env': Schema, mem: Memory, i: nat, m: Msg, r: Msg, blank: bool, c: Spot)
    requires Agree(env, env') && Fits(env, env', i, m) && !Sound(env, env', i, m, blank)
    requires c == Culprit(env, env', i, m, blank) && AllDirty(env', mem, c.t, c.b) && Over(env', i, r, blank, c)
    ensures !Ready(env, env', mem, i, m, r)
    decreases m, 0
  {
    var fs, fs' := Fields(env, i), Fields(env', i);
    SomeFails(env, env', i, m, blank);
    var a: nat :| SlotFails(env, env', i, m, blank, a) &&
      c == CulpritIn(env, env', i, Find(fs', fs[a].tag).at, fs[a].typ, m.slots[a], blank);
    var b := Find(fs', fs[a].tag).at;
    assert fs'[b] == fs[a];
    if blank { NoneInUse(env', i, r, b); }
    SlotSpoils(env, env', mem, i, fs[a], m.slots[a], r.slots[b], InUse(fs', b, r), Hit(fs, fs', m, 0, b), blank, c, b);
  }

  lemma {:induction false} SlotSpoils(env: Schema, env': Schema, mem: Memory, i: nat, f: Field, s: Slot, was: Slot,
      inUse: bool, hit: bool, blank: bool, c: Spot, b: nat)
    requires Agree(env, env') && SlotFits(env, env', f, true, s) && !SlotSound(env, env', f.typ, s, hit, blank)
    requires c == CulpritIn(env, env', i, b, f.typ, s, blank) && AllDirty(env', mem, c.t, c.b)
    requires if blank then SlotForm(env', f, was, true) && !inUse else SlotDirty(env', f, was, i == c.t && b == c.b, c.t, c.b)
    ensures !SlotReady(env, env', mem, f, s, was, inUse, hit)
    decreases s, 1
  {
    match s
    case One(v) => ValueSpoils(env, env', mem, f, v, was, inUse, blank, c);
    case Opt(has, v) => if has { ValueSpoils(env, env', mem, f, v, was, inUse, blank, c); }
    case Many(items) => if blank && items != [] { ItemsSpoil(env, env', mem, i, f, s, c, b); }
  }

  lemma {:induction false} ItemsSpoil(env: Schema, env': Schema, mem: Memory, i: nat, f: Field, s: Slot, c: Spot, b: nat)
    requires Agree(env, env') && SlotFits(env, env', f, true, s) && s.Many? && s.items != [] && !SlotSound(env, env', f.typ, s, false, true)
    requires c == CulpritIn(env, env', i, b, f.typ, s, true) && AllDirty(env', mem, c.t, c.b)
    ensures !Packable(f.typ) && exists k :: 0 <= k < |s.items| && !ItemReady(env, env', mem, f, s.items[k], k)
    decreases s, 0
  {
    var items := s.items;
    assert exists k: nat :: k < |items| && items[k].Sub? && !Sound(env, env', f.typ.index, items[k].msg, false);
    var k: nat :| k < |items| && items[k].Sub? && !Sound(env, env', f.typ.index, items[k].msg, false) &&
      c == Culprit(env, env', f.typ.index, items[k].msg, false);
    ItemSpoils(env, env', mem, f, items[k], k, c);
  }

  lemma {:induction false} ItemSpoils(env: Schema, env': Schema, mem: Memory, f: Field, v: Value, k: nat, c: Spot)
    requires Agree(env, env') && f.typ.Message? && v.Sub? && ValueFits(env, env', f.typ, true, v)
    requires !Sound(env, env', f.typ.index, v.msg, false) && c == Culprit(env, env', f.typ.index, v.msg, false)
    requires AllDirty(env', mem, c.t, c.b)
    ensures !ItemReady(env, env', mem, f, v, k)
    decreases v, 0
  {
    DirtyWithin(env', mem, c.t, c.b, f.tag, k);
    CulpritSpoils(env, env', Within(mem, f.tag, k), f.typ.index, v.msg, mem(f.typ.index, [(f.tag, k)]), false, c);
  }

  lemma {:induction false} ValueSpoils(env: Schema, env': Schema, mem: Memory, f: Field, v: Value, was: Slot,
      inUse: bool, blank: bool, c: Spot)
    requires Agree(env, env') && ValueFits(env, env', f.typ, true, v) && !ValueSound(env, env', f.typ, v, blank) &&
             !f.store.Array? && !was.Many?
    requires c == Culprit(env, env', f.typ.index, v.msg, blank) && AllDirty(env', mem, c.t, c.b)
    requires if blank then ValueForm(env', f.typ, was.v, true) && !inUse else ValueDirty(env', f, was.v, c.t, c.b)
    ensures !ValueReady(env, env', Within(mem, f.tag, 0), f.typ, v, Place(mem, f, was, inUse))
    decreases v, 0
  {
    DirtyWithin(env', mem, c.t, c.b, f.tag, 0);
    CulpritSpoils(env, env', Within(mem, f.tag, 0), f.typ.index, v.msg, MsgOf(Place(mem, f, was, inUse)), blank, c);
  }

  // ----- theorem -------------------------------------------------------------------------

  /** A message comes through into blank storage for all contents of malloc's memory if and only
      if it meets the condition Sound. */
  lemma ComesThroughIffSound(env: Schema, env': Schema, mem0: Memory, i: nat, m: Msg, r: Msg)
    requires TagsOk(env) && Agree(env, env') && Distinct(env) && Fits(env, env', i, m)
    requires Form(env', i, r, true) && AnyMemory(env', mem0)
    ensures Sound(env, env', i, m, true) <==>
            forall mem: Memory {:trigger AnyMemory(env', mem)} :: AnyMemory(env', mem) ==>
              var d := Decode(env', mem, i, Encode(env, i, m, 0), r);
              d.Some? && Shows(env, env', i, m, d.value)
  {
    if Sound(env, env', i, m, true) {
      forall mem: Memory | AnyMemory(env', mem)
        ensures var d := Decode(env', mem, i, Encode(env, i, m, 0), r); d.Some? && Shows(env, env', i, m, d.value)
      {
        Compatible(env, env', mem, i, m, r);
      }
    } else {
      var c := Culprit(env, env', i, m, true);
      var mem := Soiled(env', mem0, c.t, c.b);
      SoiledOk(env', mem0, c.t, c.b);
      CulpritSpoils(env, env', mem, i, m, r, true, c);
      DecodeShowsIffReady(env, env', mem, i, m, r);
    }
  }
}
