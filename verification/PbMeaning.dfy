/** When the decoded memory shows the message that was encoded. */
module PbMeaning {
  import opened PbWire
  import opened PbCodec
  import opened PbRoundTrip

  ghost predicate Distinct(env: Schema) {
    forall i: nat, a: nat, b: nat {:trigger Fields(env, i)[a], Fields(env, i)[b]} ::
      a < b < |Fields(env, i)| ==> Fields(env, i)[a].tag != Fields(env, i)[b].tag
  }

  // ----- showing a message ---------------------------------------------------------------

  /** Memory w of the reader shows value v: equal numbers and bytes, and a message field by
      field. */
  ghost predicate ValueShows(env: Schema, env': Schema, t: Type, v: Value, w: Value)
    decreases v, 0
  {
    if v.Sub? && t.Message? then w.Sub? && Shows(env, env', t.index, v.msg, w.msg) else w == v
  }

  ghost predicate SlotShows(env: Schema, env': Schema, t: Type, s: Slot, w: Slot)
    decreases s, 0
  {
    match s
    case One(v) => w.One? && ValueShows(env, env', t, v, w.v)
    case Opt(has, v) => w.Opt? && w.has == has && (has ==> ValueShows(env, env', t, v, w.v))
    case Many(items) => w.Many? && |w.items| == |items| && forall k :: 0 <= k < |items| ==> ValueShows(env, env', t, items[k], w.items[k])
  }

  /** Every field of m that the reader's schema has too is shown by w: set or unset alike, and
      with the same contents when set. */
  ghost predicate Shows(env: Schema, env': Schema, i: nat, m: Msg, w: Msg)
    decreases m, 0
  {
    |w.slots| == |Fields(env', i)| &&
    forall a :: 0 <= a < |m.slots| && a < |Fields(env, i)| ==>
      var b := Find(Fields(env', i), Fields(env, i)[a].tag);
      b.Found? ==> SlotShows(env, env', Fields(env, i)[a].typ, m.slots[a], w.slots[b.at])
  }

  // ----- the condition on the memory -----------------------------------------------------

  ghost predicate ValueReady(env: Schema, env': Schema, mem: Memory, t: Type, v: Value, was: Value)
    decreases v, 0
  {
    v.Sub? && t.Message? ==> Ready(env, env', mem, t.index, v.msg, MsgOf(was))
  }

  /** A member other than b of the union of b is set in m and known to the reader. */
  ghost predicate Hit(fs: seq<Field>, fs': seq<Field>, m: Msg, from: nat, b: nat) {
    b < |fs'| && fs'[b].store.OneOf? &&
    exists a :: from <= a < |fs| && a < |m.slots| && fs[a].store == fs'[b].store && m.slots[a].Opt? && m.slots[a].has &&
      Find(fs', fs[a].tag).Found? && Find(fs', fs[a].tag).at != b
  }

  /** Slot was of the memory does not spoil the decoding of s: an unset field is unset there or
      gets unset, an array that will not be replaced is empty, and embedded messages are
      decoded over memory that is ready for them. */
  ghost predicate SlotReady(env: Schema, env': Schema, mem: Memory, f: Field, s: Slot, was: Slot, inUse: bool, hit: bool)
    decreases s, 0
  {
    match s
    case One(v) => ValueReady(env, env', Within(mem, f.tag, 0), f.typ, v, Place(mem, f, was, inUse))
    case Opt(has, v) =>
      if has then ValueReady(env, env', Within(mem, f.tag, 0), f.typ, v, Place(mem, f, was, inUse))
      else was.Opt? && (was.has ==> hit)
    case Many(items) =>
      if items == [] then was == Many([])
      else if Packable(f.typ) then true
      else ItemsOf(was) == [] && forall k :: 0 <= k < |items| ==> ItemReady(env, env', mem, f, items[k], k)
  }

  /** Element k of an array, in the memory it is decoded into. */
  ghost predicate ItemReady(env: Schema, env': Schema, mem: Memory, f: Field, v: Value, k: nat)
    decreases v, 1
  {
    ValueReady(env, env', Within(mem, f.tag, k), f.typ, v, Fresh(mem, f, k))
  }

  ghost predicate Ready(env: Schema, env': Schema, mem: Memory, i: nat, m: Msg, r: Msg)
    decreases m, 0
  {
    |r.slots| == |Fields(env', i)| &&
    forall a :: 0 <= a < |m.slots| && a < |Fields(env, i)| ==>
      var b := Find(Fields(env', i), Fields(env, i)[a].tag);
      b.Found? ==> SlotReady(env, env', mem, Fields(env, i)[a], m.slots[a], r.slots[b.at],
        InUse(Fields(env', i), b.at, r), Hit(Fields(env, i), Fields(env', i), m, 0, b.at))
  }

  // ----- slot by slot --------------------------------------------------------------------

  predicate Emits(s: Slot) { s.One? || (s.Opt? && s.has) || (s.Many? && s.items != []) }

  function Unset(s: Slot): Slot { if s.Opt? then s.(has := false) else s }

  /** The new items of an unpacked array that starts as was. */
  function NewItems(env: Schema, env': Schema, mem: Memory, f: Field, items: seq<Value>, n: nat): seq<Value> {
    seq(|items|, k requires 0 <= k < |items| => NewItem(env, env', mem, f, items[k], n + k))
  }

  function NewItem(env: Schema, env': Schema, mem: Memory, f: Field, v: Value, k: nat): Value {
    OntoValue(env, env', Within(mem, f.tag, k), f.typ, v, Fresh(mem, f, k))
  }

  /** Slot b after the encoding of s was decoded into it. */
  function NewSlot(env: Schema, env': Schema, mem: Memory, fs: seq<Field>, b: nat, f: Field, s: Slot, r: Msg): Slot
    requires Emits(s)
  {
    match s
    case Many(items) =>
      if Packable(f.typ) then s
      else Many(ItemsOf(SlotAt(r, b)) + NewItems(env, env', mem, f, items, |ItemsOf(SlotAt(r, b))|))
    case _ => Full(f, OntoValue(env, env', Within(mem, f.tag, 0), f.typ, s.v, Place(mem, f, SlotAt(r, b), InUse(fs, b, r))))
  }

  lemma PutAt(fs: seq<Field>, j: nat, m: Msg, s: Slot, k: nat)
    requires j < |fs| && k < |m.slots| && k < |fs|
    ensures SlotAt(Put(fs, j, m, s), k) ==
            if k == j then s else if fs[j].store.OneOf? && fs[k].store == fs[j].store then Unset(m.slots[k]) else m.slots[k]
  {
  }

  lemma {:induction false} ItemsAt(env: Schema, env': Schema, mem: Memory, fs: seq<Field>, j: nat, f: Field, s: Slot, k: nat, m: Msg,
                                   items: seq<Value>, was: seq<Value>)
    requires s.Many? && k <= |s.items| && j < |m.slots| && j < |fs| && fs[j].store.Array?
    requires items == s.items[k..] && was == ItemsOf(SlotAt(m, j)) && items != []
    ensures OntoItems(env, env', mem, fs, j, f, s, k, m) == Put(fs, j, m, Many(was + NewItems(env, env', mem, f, items, |was|)))
    decreases |s.items| - k
  {
    var v := NewItem(env, env', mem, f, s.items[k], |was|);
    var m1 := OntoItem(env, env', mem, fs, j, f, s.items[k], m);
    var new1 := NewItems(env, env', mem, f, items, |was|);
    var rest := s.items[k + 1..];
    var new2 := NewItems(env, env', mem, f, rest, |was| + 1);
    assert m1 == Put(fs, j, m, Many(was + [v])) && SlotAt(m1, j) == Many(was + [v]);
    assert new1 == [v] + new2;
    assert was + [v] + new2 == was + new1;
    if k + 1 < |s.items| {
      ItemsAt(env, env', mem, fs, j, f, s, k + 1, m1, rest, was + [v]);
      PutPut(fs, j, m, Many(was + [v]), Many(was + new1));
    } else {
      assert new2 == [] && was + new1 == was + [v];
      assert OntoItems(env, env', mem, fs, j, f, s, k + 1, m1) == m1;
    }
  }

  lemma PutPut(fs: seq<Field>, j: nat, m: Msg, s: Slot, s': Slot)
    requires j < |fs| && fs[j].store.Array?
    ensures Put(fs, j, Put(fs, j, m, s), s') == Put(fs, j, m, s')
  {
  }

  lemma SlotIsPut(env: Schema, env': Schema, mem: Memory, fs: seq<Field>, b: nat, f: Field, s: Slot, r: Msg)
    requires Emits(s) && b < |r.slots| && b < |fs| && fs[b] == f && (s.Many? <==> f.store.Array?)
    ensures OntoSlot(env, env', mem, fs, b, f, s, r) == Put(fs, b, r, NewSlot(env, env', mem, fs, b, f, s, r))
  {
    if s.Many? && !Packable(f.typ) {
      assert s.items[0..] == s.items;
      ItemsAt(env, env', mem, fs, b, f, s, 0, r, s.items, ItemsOf(SlotAt(r, b)));
    }
  }

  /** Slots are of the kinds their fields ask for. */
  ghost predicate Kinds(fs: seq<Field>, m: Msg) {
    |m.slots| == |fs| &&
    forall a :: 0 <= a < |fs| ==> (m.slots[a].Many? <==> fs[a].store.Array?) && (m.slots[a].One? <==> fs[a].store.Required?)
  }

  /** Found fields are the same field. */
  ghost predicate Meets(fs: seq<Field>, fs': seq<Field>) {
    forall a :: 0 <= a < |fs| && Find(fs', fs[a].tag).Found? ==> fs'[Find(fs', fs[a].tag).at] == fs[a]
  }

  ghost predicate TagsDiffer(fs: seq<Field>) {
    forall a, b :: 0 <= a < b < |fs| ==> fs[a].tag != fs[b].tag
  }

  lemma FieldStep(env: Schema, env': Schema, mem: Memory, i: nat, f: Field, s: Slot, r: Msg)
    requires |r.slots| == |Fields(env', i)| && (s.Many? <==> f.store.Array?)
    requires Find(Fields(env', i), f.tag).Found? ==> Fields(env', i)[Find(Fields(env', i), f.tag).at] == f
    ensures OntoField(env, env', mem, i, f, s, r) ==
            if Emits(s) && Find(Fields(env', i), f.tag).Found? then
              var b := Find(Fields(env', i), f.tag).at;
              Put(Fields(env', i), b, r, NewSlot(env, env', mem, Fields(env', i), b, f, s, r))
            else r
  {
    if Emits(s) && Find(Fields(env', i), f.tag).Found? {
      SlotIsPut(env, env', mem, Fields(env', i), Find(Fields(env', i), f.tag).at, f, s, r);
    }
  }

  /** No field from j on is decoded into slot b. */
  ghost predicate Avoids(fs: seq<Field>, fs': seq<Field>, m: Msg, j: nat, b: nat) {
    forall a :: j <= a < |fs| && a < |m.slots| && Emits(m.slots[a]) ==> Find(fs', fs[a].tag) != Found(b)
  }

  lemma {:induction false} Untouched(env: Schema, env': Schema, mem: Memory, i: nat, m: Msg, j: nat, r: Msg, b: nat,
      fs: seq<Field>, fs': seq<Field>)
    requires fs == Fields(env, i) && fs' == Fields(env', i)
    requires Kinds(fs, m) && Meets(fs, fs') && |r.slots| == |fs'| && b < |fs'| && Avoids(fs, fs', m, j, b)
    ensures |Onto(env, env', mem, i, m, j, r).slots| == |r.slots|
    ensures Onto(env, env', mem, i, m, j, r).slots[b] == if Hit(fs, fs', m, j, b) then Unset(r.slots[b]) else r.slots[b]
    decreases |m.slots| - j
  {
    if j < |m.slots| {
      FieldStep(env, env', mem, i, fs[j], m.slots[j], r);
      var r1 := OntoField(env, env', mem, i, fs[j], m.slots[j], r);
      Untouched(env, env', mem, i, m, j + 1, r1, b, fs, fs');
      var k := Find(fs', fs[j].tag);
      if Emits(m.slots[j]) && k.Found? {
        PutAt(fs', k.at, r, NewSlot(env, env', mem, fs', k.at, fs[j], m.slots[j], r), b);
        HitStep(fs, fs', m, j, b, k.at);
      } else {
        HitSame(fs, fs', m, j, b);
      }
    }
  }

  lemma HitStep(fs: seq<Field>, fs': seq<Field>, m: Msg, j: nat, b: nat, k: nat)
    requires Kinds(fs, m) && Meets(fs, fs') && j < |fs| && b < |fs'| && Find(fs', fs[j].tag) == Found(k) && k != b && Emits(m.slots[j])
    ensures Hit(fs, fs', m, j, b) <==> Hit(fs, fs', m, j + 1, b) || (fs'[b].store.OneOf? && fs'[k].store == fs'[b].store)
  {
  }

  lemma HitSame(fs: seq<Field>, fs': seq<Field>, m: Msg, j: nat, b: nat)
    requires |m.slots| == |fs| && j < |fs| && b < |fs'|
    requires !Emits(m.slots[j]) || Find(fs', fs[j].tag).Unknown?
    ensures Hit(fs, fs', m, j, b) <==> Hit(fs, fs', m, j + 1, b)
  {
  }

  /** A field the writer emits ends up in its slot as if it were decoded first. */
  lemma {:induction false} Touched(env: Schema, env': Schema, mem: Memory, i: nat, m: Msg, j: nat, r: Msg, a: nat,
      b: nat, fs: seq<Field>, fs': seq<Field>)
    requires fs == Fields(env, i) && fs' == Fields(env', i)
    requires Kinds(fs, m) && Meets(fs, fs') && |r.slots| == |fs'| && TagsDiffer(fs) && OnePerGroup(fs, m)
    requires j <= a < |fs| && Emits(m.slots[a]) && Find(fs', fs[a].tag) == Found(b) && b < |fs'|
    ensures |Onto(env, env', mem, i, m, j, r).slots| == |r.slots|
    ensures Onto(env, env', mem, i, m, j, r).slots[b] == NewSlot(env, env', mem, fs', b, fs[a], m.slots[a], r)
    decreases |m.slots| - j
  {
    FieldStep(env, env', mem, i, fs[j], m.slots[j], r);
    var r1 := OntoField(env, env', mem, i, fs[j], m.slots[j], r);
    if j == a {
      NotHit(fs, fs', m, a, b);
      Untouched(env, env', mem, i, m, j + 1, r1, b, fs, fs');
    } else {
      Touched(env, env', mem, i, m, j + 1, r1, a, b, fs, fs');
      var k := Find(fs', fs[j].tag);
      if Emits(m.slots[j]) && k.Found? {
        OtherGroup(fs, fs', m, j, k.at, a, b);
        PutElsewhere(fs', k.at, r, NewSlot(env, env', mem, fs', k.at, fs[j], m.slots[j], r), b);
      }
    }
  }

  lemma NotHit(fs: seq<Field>, fs': seq<Field>, m: Msg, a: nat, b: nat)
    requires Kinds(fs, m) && Meets(fs, fs') && TagsDiffer(fs) && OnePerGroup(fs, m)
    requires a < |fs| && Emits(m.slots[a]) && Find(fs', fs[a].tag) == Found(b) && b < |fs'|
    ensures !Hit(fs, fs', m, a + 1, b) && Avoids(fs, fs', m, a + 1, b)
  {
  }

  lemma OtherGroup(fs: seq<Field>, fs': seq<Field>, m: Msg, j: nat, k: nat, a: nat, b: nat)
    requires Kinds(fs, m) && Meets(fs, fs') && TagsDiffer(fs) && OnePerGroup(fs, m)
    requires j < a < |fs| && Emits(m.slots[a]) && Find(fs', fs[a].tag) == Found(b) && b < |fs'|
    requires Emits(m.slots[j]) && Find(fs', fs[j].tag) == Found(k) && k < |fs'|
    ensures k != b && !(fs'[k].store.OneOf? && fs'[b].store == fs'[k].store)
  {
  }

  lemma PutElsewhere(fs: seq<Field>, k: nat, r: Msg, s: Slot, b: nat)
    requires |r.slots| == |fs| && k < |fs| && b < |fs| && k != b && !(fs[k].store.OneOf? && fs[b].store == fs[k].store)
    ensures SlotAt(Put(fs, k, r, s), b) == SlotAt(r, b) && InUse(fs, b, Put(fs, k, r, s)) == InUse(fs, b, r)
  {
    var r' := Put(fs, k, r, s);
    assert forall x :: 0 <= x < |fs| && fs[x].store == fs[b].store && fs[b].store.OneOf? ==> r'.slots[x] == r.slots[x];
  }

  lemma OnlyOne(fs: seq<Field>, fs': seq<Field>, m: Msg, a: nat, b: nat)
    requires Kinds(fs, m) && Meets(fs, fs') && TagsDiffer(fs) && a < |fs| && !Emits(m.slots[a]) &&
             Find(fs', fs[a].tag) == Found(b) && b < |fs'|
    ensures Avoids(fs, fs', m, 0, b)
  {
  }

  lemma Basics(env: Schema, env': Schema, i: nat, m: Msg)
    requires Agree(env, env') && Distinct(env) && Fits(env, env', i, m)
    ensures Kinds(Fields(env, i), m) && Meets(Fields(env, i), Fields(env', i)) && TagsDiffer(Fields(env, i)) &&
            OnePerGroup(Fields(env, i), m)
  {
  }

  // ----- the theorem ---------------------------------------------------------------------

  lemma {:induction false} ValueIff(env: Schema, env': Schema, mem: Memory, t: Type, v: Value, was: Value)
    requires Agree(env, env') && Distinct(env) && ValueFits(env, env', t, true, v)
    ensures ValueShows(env, env', t, v, OntoValue(env, env', mem, t, v, was)) <==> ValueReady(env, env', mem, t, v, was)
    decreases v, 0
  {
    if v.Sub? && t.Message? { ShowsIffReady(env, env', mem, t.index, v.msg, MsgOf(was)); }
  }

  /** An array is shown exactly if it started empty and every element was ready. */
  lemma {:induction false} ItemsIff(env: Schema, env': Schema, mem: Memory, f: Field, s: Slot, was: seq<Value>)
    requires Agree(env, env') && Distinct(env) && s.Many?
    requires forall k :: 0 <= k < |s.items| ==> ValueFits(env, env', f.typ, true, s.items[k])
    ensures SlotShows(env, env', f.typ, s, Many(was + NewItems(env, env', mem, f, s.items, |was|))) <==>
            was == [] && forall k :: 0 <= k < |s.items| ==> ItemReady(env, env', mem, f, s.items[k], k)
    decreases s, 0
  {
    if was == [] {
      var new1 := NewItems(env, env', mem, f, s.items, 0);
      assert was + new1 == new1;
      forall k | 0 <= k < |s.items|
        ensures ValueShows(env, env', f.typ, s.items[k], new1[k]) <==> ItemReady(env, env', mem, f, s.items[k], k)
      {
        ValueIff(env, env', Within(mem, f.tag, k), f.typ, s.items[k], Fresh(mem, f, k));
      }
    }
  }

  lemma {:induction false} NewSlotIff(env: Schema, env': Schema, mem: Memory, fs: seq<Field>, b: nat, f: Field, s: Slot, r: Msg, hit: bool)
    requires Agree(env, env') && Distinct(env) && SlotFits(env, env', f, true, s) && Emits(s) && b < |r.slots|
    ensures SlotShows(env, env', f.typ, s, NewSlot(env, env', mem, fs, b, f, s, r)) <==>
            SlotReady(env, env', mem, f, s, r.slots[b], InUse(fs, b, r), hit)
    decreases s, 1
  {
    match s
    case One(v) => ValueIff(env, env', Within(mem, f.tag, 0), f.typ, v, Place(mem, f, r.slots[b], InUse(fs, b, r)));
    case Opt(_, v) => ValueIff(env, env', Within(mem, f.tag, 0), f.typ, v, Place(mem, f, r.slots[b], InUse(fs, b, r)));
    case Many(items) => if !Packable(f.typ) { ItemsIff(env, env', mem, f, s, ItemsOf(r.slots[b])); }
  }

  lemma {:induction false} FieldIff(env: Schema, env': Schema, mem: Memory, i: nat, m: Msg, r: Msg, a: nat, b: nat,
      fs: seq<Field>, fs': seq<Field>)
    requires fs == Fields(env, i) && fs' == Fields(env', i)
    requires Agree(env, env') && Distinct(env) && Fits(env, env', i, m) && |r.slots| == |fs'|
    requires a < |m.slots| && Find(fs', fs[a].tag) == Found(b) && b < |fs'|
    ensures |Onto(env, env', mem, i, m, 0, r).slots| == |r.slots|
    ensures SlotShows(env, env', fs[a].typ, m.slots[a], Onto(env, env', mem, i, m, 0, r).slots[b]) <==>
            SlotReady(env, env', mem, fs[a], m.slots[a], r.slots[b], InUse(fs', b, r), Hit(fs, fs', m, 0, b))
    decreases m, 0
  {
    var s, hit := m.slots[a], Hit(fs, fs', m, 0, b);
    Basics(env, env', i, m);
    if Emits(s) {
      Touched(env, env', mem, i, m, 0, r, a, b, fs, fs');
      NewSlotIff(env, env', mem, fs', b, fs[a], s, r, hit);
    } else {
      OnlyOne(fs, fs', m, a, b);
      Untouched(env, env', mem, i, m, 0, r, b, fs, fs');
    }
  }

  /** The memory after decoding shows the encoded message exactly if it was ready for it. */
  lemma {:induction false} ShowsIffReady(env: Schema, env': Schema, mem: Memory, i: nat, m: Msg, r: Msg)
    requires Agree(env, env') && Distinct(env) && Fits(env, env', i, m)
    ensures Shows(env, env', i, m, Onto(env, env', mem, i, m, 0, r)) <==> Ready(env, env', mem, i, m, r)
    decreases m, 1
  {
    var fs, fs', w := Fields(env, i), Fields(env', i), Onto(env, env', mem, i, m, 0, r);
    OntoLength(env, env', mem, i, m, 0, r);
    if |r.slots| == |fs'| {
      forall a | 0 <= a < |m.slots| && Find(fs', fs[a].tag).Found?
        ensures var b := Find(fs', fs[a].tag).at;
                SlotShows(env, env', fs[a].typ, m.slots[a], w.slots[b]) <==>
                SlotReady(env, env', mem, fs[a], m.slots[a], r.slots[b], InUse(fs', b, r), Hit(fs, fs', m, 0, b))
      {
        FieldIff(env, env', mem, i, m, r, a, Find(fs', fs[a].tag).at, fs, fs');
      }
    }
  }

  lemma {:induction false} OntoLength(env: Schema, env': Schema, mem: Memory, i: nat, m: Msg, j: nat, r: Msg)
    ensures |Onto(env, env', mem, i, m, j, r).slots| == |r.slots|
    decreases |m.slots| - j
  {
    if j < |Fields(env, i)| && j < |m.slots| {
      var f, s := Fields(env, i)[j], m.slots[j];
      FieldLength(env, env', mem, i, f, s, r);
      OntoLength(env, env', mem, i, m, j + 1, OntoField(env, env', mem, i, f, s, r));
    }
  }

  lemma FieldLength(env: Schema, env': Schema, mem: Memory, i: nat, f: Field, s: Slot, r: Msg)
    ensures |OntoField(env, env', mem, i, f, s, r).slots| == |r.slots|
  {
    var k := Find(Fields(env', i), f.tag);
    if k.Found? {
      assert OntoField(env, env', mem, i, f, s, r) == OntoSlot(env, env', mem, Fields(env', i), k.at, f, s, r);
      if s.Many? {
        ItemsLength(env, env', mem, Fields(env', i), k.at, f, s, 0, r);
      } else {
        assert |OntoScalar(env, env', mem, Fields(env', i), k.at, f, s.v, r).slots| == |r.slots|;
      }
    }
  }

  lemma {:induction false} ItemsLength(env: Schema, env': Schema, mem: Memory, fs: seq<Field>, j: nat, f: Field, s: Slot, k: nat, m: Msg)
    requires s.Many? && k <= |s.items|
    ensures |OntoItems(env, env', mem, fs, j, f, s, k, m).slots| == |m.slots|
    decreases |s.items| - k
  {
    if k < |s.items| {
      ItemsLength(env, env', mem, fs, j, f, s, k + 1, OntoItem(env, env', mem, fs, j, f, s.items[k], m));
    }
  }
}
