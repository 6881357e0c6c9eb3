/** Which packed arrays cf_pb_decode_array accepts (src/pb/cuttle-pb.c:609-640). */
module PbPacked {
  import opened Basics
  import opened PbWire
  import opened PbCodec

  // ----- reading depends only on what is read --------------------------------------------

  lemma {:induction false} GroupsExtend(a: Bytes, x: Bytes, k: nat)
    requires Groups(a, k).Got?
    ensures Groups(a + x, k) == Got(Groups(a, k).value, Groups(a, k).rest + x)
    decreases k
  {
    if a[0] < 128 {
      assert (a + x)[1..] == a[1..] + x;
    } else {
      GroupsExtend(a[1..], x, k - 1);
      assert (a + x)[1..] == a[1..] + x;
    }
  }

  /** The bytes read are a number by themselves. */
  lemma {:induction false} GroupsExact(b: Bytes, k: nat, c: nat)
    requires Groups(b, k).Got? && c == |b| - |Groups(b, k).rest|
    ensures b[c..] == Groups(b, k).rest && Groups(b[..c], k) == Got(Groups(b, k).value, [])
    decreases k
  {
    if b[0] < 128 {
      assert b[..c] == [b[0]];
    } else {
      GroupsExact(b[1..], k - 1, c - 1);
      assert b[..c][1..] == b[1..][..c - 1] && b[1..][c - 1..] == b[c..];
    }
  }

  /** Nothing is left of a number that cannot be read exactly if it is a run of continuation bytes
      that ends too early. */
  lemma {:induction false} GroupsCut(b: Bytes, k: nat)
    ensures Groups(b, k) == Bad([]) <==> |b| <= k && forall i :: 0 <= i < |b| ==> b[i] >= 128
    decreases k
  {
    if k > 0 && b != [] && b[0] >= 128 {
      GroupsCut(b[1..], k - 1);
      assert forall i :: 1 <= i < |b| ==> b[i] == b[1..][i - 1];
      assert forall i :: 0 <= i < |b| - 1 ==> b[1..][i] == b[i + 1];
    }
  }

  lemma NumExtends(t: Type, a: Bytes, x: Bytes)
    requires Packable(t) && ReadNum(t, a).Got?
    ensures ReadNum(t, a + x) == Got(ReadNum(t, a).value, ReadNum(t, a).rest + x)
  {
    if Wire(t) == VARINT {
      GroupsExtend(a, x, 10);
    } else {
      var n := if Wire(t) == BITS32 then 4 else 8;
      assert (a + x)[..n] == a[..n] && (a + x)[n..] == a[n..] + x;
    }
  }

  lemma NumExact(t: Type, b: Bytes, c: nat)
    requires Packable(t) && ReadNum(t, b).Got? && c == |b| - |ReadNum(t, b).rest|
    ensures b[c..] == ReadNum(t, b).rest && ReadNum(t, b[..c]) == Got(ReadNum(t, b).value, [])
  {
    if Wire(t) == VARINT {
      GroupsExact(b, 10, c);
    } else {
      assert b[..c][..c] == b[..c];
    }
  }

  // ----- whole elements and what may follow ----------------------------------------------

  /** Nothing but whole elements in range. */
  ghost predicate Whole(t: Type, b: Bytes)
    requires Packable(t)
    decreases |b|
  {
    b == [] || (ReadNum(t, b).Got? && Whole(t, ReadNum(t, b).rest))
  }

  /** What may follow them without being noticed: nothing, a varint that is cut off by the end, or a
      last varint that is out of range. */
  ghost predicate Unnoticed(t: Type, tail: Bytes)
    requires Packable(t)
  {
    || tail == []
    || (Wire(t) == VARINT && |tail| <= 10 && forall i :: 0 <= i < |tail| ==> tail[i] >= 128)
    || (Wire(t) == VARINT && Varint64(tail).Got? && Varint64(tail).rest == [] && ReadNum(t, tail).Bad?)
  }

  lemma UnnoticedIs(t: Type, tail: Bytes)
    requires Packable(t) && tail != []
    ensures Unnoticed(t, tail) <==> ReadNum(t, tail) == Bad([])
  {
    if Wire(t) == VARINT { GroupsCut(tail, 10); }
  }

  /** Such a tail is dropped. */
  lemma {:induction false} TailDropped(t: Type, w: Bytes, tail: Bytes)
    requires Packable(t) && Whole(t, w) && Unnoticed(t, tail)
    ensures ReadPacked(t, w + tail) == Items(ReadPacked(t, w).items, [])
    decreases |w|
  {
    if w == [] {
      assert w + tail == tail;
      if tail != [] { UnnoticedIs(t, tail); }
    } else {
      NumExtends(t, w, tail);
      TailDropped(t, ReadNum(t, w).rest, tail);
    }
  }

  /** The first k bytes are whole elements, and the rest goes unnoticed. */
  ghost predicate Splits(t: Type, b: Bytes, k: nat)
    requires Packable(t)
  {
    k <= |b| && Whole(t, b[..k]) && Unnoticed(t, b[k..])
  }

  lemma BadSplits(t: Type, b: Bytes)
    requires Packable(t) && b != [] && ReadNum(t, b) == Bad([])
    ensures Splits(t, b, 0)
  {
    UnnoticedIs(t, b);
    assert b[0..] == b && b[..0] == [];
  }

  lemma PackedRest(t: Type, b: Bytes)
    requires Packable(t) && b != [] && ReadPacked(t, b).rest == []
    ensures ReadNum(t, b).Bad? ==> ReadNum(t, b) == Bad([])
    ensures ReadNum(t, b).Got? ==> |ReadNum(t, b).rest| < |b| && ReadPacked(t, ReadNum(t, b).rest).rest == []
  {
  }

  lemma StillSplits(t: Type, b: Bytes, k: nat, r: Bytes, j: nat)
    requires Packable(t) && Splits(t, r, j) && k <= |b| && Whole(t, b[..k]) && b[k..] == r[j..]
    ensures Splits(t, b, k)
  {
  }

  /** Nothing else is. */
  lemma {:induction false} OnlyTailDropped(t: Type, b: Bytes) returns (k: nat)
    requires Packable(t) && ReadPacked(t, b).rest == []
    ensures Splits(t, b, k)
    decreases |b|
  {
    k := 0;
    if b == [] { return; }
    PackedRest(t, b);
    if ReadNum(t, b).Bad? {
      BadSplits(t, b);
    } else {
      var r := ReadNum(t, b).rest;
      var j := OnlyTailDropped(t, r);
      k := |b| - |r| + j;
      OneMore(t, b, |b| - |r|, r, j);
      StillSplits(t, b, k, r, j);
    }
  }

  lemma OneMore(t: Type, b: Bytes, c: nat, r: Bytes, j: nat)
    requires Packable(t) && b != [] && ReadNum(t, b).Got? && r == ReadNum(t, b).rest && c == |b| - |r|
    requires j <= |r| && Whole(t, r[..j])
    ensures Whole(t, b[..c + j]) && b[c + j..] == r[j..]
  {
    NumExact(t, b, c);
    Slices(b, c, r, j);
    NumExtends(t, b[..c], r[..j]);
    assert [] + r[..j] == r[..j];
  }

  lemma Slices(b: Bytes, c: nat, r: Bytes, j: nat)
    requires c <= |b| && r == b[c..] && j <= |r|
    ensures b[..c + j] == b[..c] + r[..j] && b[c + j..] == r[j..]
  {
    forall i | 0 <= i < c + j ensures b[i] == (b[..c] + r[..j])[i] {
    }
  }

  /** A packed body is accepted if and only if it consists of whole elements in range and a tail that
      goes unnoticed. */
  lemma AcceptedIff(t: Type, b: Bytes)
    requires Packable(t)
    ensures ReadPacked(t, b).rest == [] <==> exists k: nat :: Splits(t, b, k)
  {
    if ReadPacked(t, b).rest == [] {
      var k := OnlyTailDropped(t, b);
      assert Splits(t, b, k);
    }
    if k: nat :| Splits(t, b, k) { SplitAccepted(t, b, k); }
  }

  lemma SplitAccepted(t: Type, b: Bytes, k: nat)
    requires Packable(t) && Splits(t, b, k)
    ensures ReadPacked(t, b) == Items(ReadPacked(t, b[..k]).items, [])
  {
    TailDropped(t, b[..k], b[k..]);
    assert b == b[..k] + b[k..];
  }

  /** So is a packed array on the wire, and what is stored are the whole elements. */
  lemma ArrayAcceptedIff(env: Schema, mem: Memory, f: Field, b: Bytes, was: seq<Value>)
    requires Packable(f.typ)
    ensures var body := Body(Varint32(b));
            ReadArray(env, mem, f, STRING, b, was).Got? <==> body.Got? && exists k: nat :: Splits(f.typ, body.value, k)
    ensures forall k: nat :: Body(Varint32(b)).Got? && Splits(f.typ, Body(Varint32(b)).value, k) ==>
              ReadArray(env, mem, f, STRING, b, was) ==
              Got(Many(ReadPacked(f.typ, Body(Varint32(b)).value[..k]).items), Body(Varint32(b)).rest)
  {
    var body := Body(Varint32(b));
    if body.Got? {
      AcceptedIff(f.typ, body.value);
      forall k: nat | Splits(f.typ, body.value, k)
        ensures ReadPacked(f.typ, body.value) == Items(ReadPacked(f.typ, body.value[..k]).items, [])
      {
        SplitAccepted(f.typ, body.value, k);
      }
    }
  }

  /** A partial element of fixed width never goes unnoticed. */
  lemma FixedIsWhole(t: Type, b: Bytes)
    requires Packable(t) && Wire(t) != VARINT && ReadPacked(t, b).rest == []
    ensures Whole(t, b)
  {
    var k := OnlyTailDropped(t, b);
    assert b[..k] == b;
  }

  /** A uint32 array of 5 and a second element that is cut off, and one whose second element is
      2^32: both decode to 5 alone. */
  lemma LastElementsLost()
    ensures ReadPacked(UInt32, [5, 0x80]) == Items([Num(5)], [])
    ensures ReadPacked(UInt32, [5, 0x80, 0x80, 0x80, 0x80, 0x10]) == Items([Num(5)], [])
  {
    FiveFirst([0x80]);
    GroupsCut([0x80], 10);
    var tail: Bytes := [0x80, 0x80, 0x80, 0x80, 0x10];
    TooLarge(tail);
    FiveFirst(tail);
  }

  lemma FiveFirst(tail: Bytes)
    requires Unnoticed(UInt32, tail)
    ensures ReadPacked(UInt32, [5] + tail) == Items([Num(5)], [])
  {
    var five: Bytes := [5];
    assert five[1..] == [];
    assert Groups(five, 10) == Got(5, []);
    assert ReadNum(UInt32, five) == Got(Num(5), []);
    TailDropped(UInt32, five, tail);
  }

  lemma TooLarge(tail: Bytes)
    requires tail == [0x80, 0x80, 0x80, 0x80, 0x10]
    ensures Unnoticed(UInt32, tail)
  {
    assert Varint(TWO32) == tail;
    assert tail + [] == tail;
    Varint64Back(TWO32, []);
  }
}
