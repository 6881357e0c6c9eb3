/** A name that is written wrong.  dns_d_comp (src/dns/dns.c:2285-2316) goes on with the label that a
    comparison has left: pushed behind "a.x" and "b.b", the name "a.b" becomes a pointer to "b.b". */
module DnsStaleLabel {
  import opened Basics
  import opened DnsNames
  import opened DnsCompress
  import opened DnsNameWriter

  const A: Bytes := [97]
  const B: Bytes := [98]
  const X: Bytes := [120]

  /** Labels are the same if they are equal. */
  function Equal(): Same { (x: Bytes, y: Bytes) => x == y }

  lemma FlatOfTwo(x: Bytes, y: Bytes)
    requires |x| == 1 && |y| == 1
    ensures Proper([x, y]) && Flat([x, y]) == [1, x[0], 1, y[0], 0] && Stem([x, y][..1]) == [1, x[0]] &&
            Stem([x, y][..2]) == [1, x[0], 1, y[0]]
  {
    assert [x, y][1..] == [y] && [y][1..] == [] && [x, y][..1] == [x] && [x][1..] == [] && [x, y][..2] == [x, y];
    assert Stem([y]) == [1, y[0]];
  }

  // ----- the positions in the packet -----------------------------------------------------

  /** A label of one byte at p. */
  ghost predicate Letter(d: Bytes, p: nat, x: Byte) { p + 2 < |d| && d[p] == 1 && d[p + 1] == x }

  lemma LetterIs(d: Bytes, n: nat, p: nat, bound: nat, x: Byte)
    requires Letter(d, p, x) && Sound(d, p + 2, bound)
    ensures Sound(d, p, bound) && LExpand(d, p, n) == Label([x], p + 2)
    ensures Along(d, n, p, bound) == [p] + Along(d, n, p + 2, bound) && Spell(d, p, bound) == [[x]] + Spell(d, p + 2, bound)
  {
    assert d[p + 1..p + 2] == [x];
  }

  lemma EndIs(d: Bytes, n: nat, p: nat, bound: nat)
    requires p < |d| && d[p] == 0
    ensures Sound(d, p, bound) && LExpand(d, p, n) == Label([], p + 1) && Along(d, n, p, bound) == [] && Spell(d, p, bound) == []
  {
    assert d[p + 1..p + 1] == [];
  }

  /** Two letters and an end at p. */
  ghost predicate Two(d: Bytes, p: nat, x: Byte, y: Byte) { Letter(d, p, x) && Letter(d, p + 2, y) && d[p + 4] == 0 }

  lemma TwoIs(d: Bytes, n: nat, p: nat, x: Byte, y: Byte)
    requires Two(d, p, x, y)
    ensures Sound(d, p, p) && Along(d, n, p, p) == [p, p + 2] && Spell(d, p, p) == [[x], [y]]
    ensures LExpand(d, p, n) == Label([x], p + 2) && LExpand(d, p + 2, n) == Label([y], p + 4) && LExpand(d, p + 4, n) == Label([], p + 5)
  {
    EndIs(d, n, p + 4, p);
    LetterIs(d, n, p + 2, p, y);
    LetterIs(d, n, p, p, x);
  }

  lemma OneEntry(d: Bytes, n: nat, p: nat, x: Byte, y: Byte)
    requires Two(d, p, x, y)
    ensures Starts(d, [p]) && Positions(d, n, [p]) == [p, p + 2]
  {
    TwoIs(d, n, p, x, y);
    assert [p][1..] == [] && Positions(d, n, []) == [];
  }

  lemma TwoEntries(d: Bytes, n: nat, p: nat, q: nat, x: Byte, y: Byte, z: Byte, w: Byte)
    requires Two(d, p, x, y) && Two(d, q, z, w)
    ensures Starts(d, [p, q]) && Positions(d, n, [p, q]) == [p, p + 2, q, q + 2]
  {
    TwoIs(d, n, p, x, y);
    OneEntry(d, n, q, z, w);
    assert [p, q][1..] == [q];
  }

  // ----- the comparisons -----------------------------------------------------------------

  /** The flat name "a.b" or "b.b", and the first comparison of a label with one at p. */
  lemma Unequal(d: Bytes, n: nat, dst: Bytes, ax: nat, a: Bytes, p: nat, b: Bytes, next: nat)
    requires Sound(dst, ax, 0) && LExpand(d, p, n) == Label(b, next) && a != b && a != []
    ensures !Matches(d, n, Equal(), dst, ax, a, p) && Left(d, n, Equal(), dst, ax, a, p) == a
  {
  }

  /** "b.b" finds nothing in a packet with "a.x". */
  lemma SecondIsWhole(d: Bytes, n: nat, p: nat, labels: Labels)
    requires Two(d, p, 97, 120) && labels == [B, B] && Proper(labels)
    ensures SearchFrom(d, n, Equal(), [p, p + 2], labels, 0) == Whole
  {
    TwoIs(d, n, p, 97, 120);
    forall k: nat | k < 2 ensures Scan(d, n, Equal(), Flat(labels), Behind(labels, k), labels[k], [p, p + 2]) == Miss(B) {
      var dst, ax := Flat(labels), Behind(labels, k);
      Unequal(d, n, dst, ax, B, p, A, p + 2);
      Unequal(d, n, dst, ax, B, p + 2, X, p + 4);
      assert [p, p + 2][1..] == [p + 2] && [p + 2][1..] == [];
      assert Scan(d, n, Equal(), dst, ax, B, []) == Miss(B);
      assert Scan(d, n, Equal(), dst, ax, B, [p + 2]) == Miss(B);
    }
    assert SearchFrom(d, n, Equal(), [p, p + 2], labels, 2) == Whole;
    assert SearchFrom(d, n, Equal(), [p, p + 2], labels, 1) == Whole;
  }

  /** "a.b" against "a.x" leaves the label "b". */
  lemma LeavesB(d: Bytes, n: nat, p: nat, dst: Bytes)
    requires Two(d, p, 97, 120) && dst == [1, 97, 1, 98, 0] && Sound(dst, 2, 0)
    ensures !Matches(d, n, Equal(), dst, 2, A, p) && Left(d, n, Equal(), dst, 2, A, p) == B
  {
    TwoIs(d, n, p, 97, 120);
    assert Two(dst, 0, 97, 98);
    TwoIs(dst, n, 0, 97, 98);
    EndIs(dst, n, 4, 0);
    assert CompareTo(d, dst, Equal(), n, 4, B, p + 4, X) == (B, X);
  }

  /** From the label "b", "a.b" runs through "b.b". */
  lemma RunsThrough(d: Bytes, n: nat, q: nat, dst: Bytes)
    requires Two(d, q, 98, 98) && dst == [1, 97, 1, 98, 0] && Sound(dst, 2, 0) && q <= 0x3fff
    ensures Matches(d, n, Equal(), dst, 2, B, q)
  {
    TwoIs(d, n, q, 98, 98);
    assert Two(dst, 0, 97, 98);
    TwoIs(dst, n, 0, 97, 98);
    EndIs(dst, n, 4, 0);
    assert CompareTo(d, dst, Equal(), n, 5, [], q + 5, []) == ([], []);
    assert CompareTo(d, dst, Equal(), n, 4, B, q + 4, B) == ([], []);
  }

  /** So "a.b" becomes a pointer to "b.b", and the search was neither clean nor right. */
  lemma ThirdIsWrong(d: Bytes, n: nat, p: nat, q: nat, labels: Labels)
    requires Two(d, p, 97, 120) && Two(d, q, 98, 98) && q <= 0x3fff && labels == [A, B] && Proper(labels)
    ensures SearchFrom(d, n, Equal(), [p, p + 2, q, q + 2], labels, 0) == Point(0, q, B)
    ensures !Right(d, n, Equal(), labels, Point(0, q, B))
    ensures !Clean(d, n, Equal(), Flat(labels), Behind(labels, 0), A, [p, p + 2, q, q + 2])
  {
    FlatOfTwo(A, B);
    var dst, ps := Flat(labels), [p, p + 2, q, q + 2];
    assert Behind(labels, 0) == 2;
    TwoIs(d, n, p, 97, 120);
    TwoIs(d, n, q, 98, 98);
    LeavesB(d, n, p, dst);
    Unequal(d, n, dst, 2, B, p + 2, X, p + 4);
    RunsThrough(d, n, q, dst);
    assert ps[1..] == [p + 2, q, q + 2] && ps[1..][1..] == [q, q + 2];
    assert Scan(d, n, Equal(), dst, 2, B, [q, q + 2]) == Hit(q, B);
    assert Scan(d, n, Equal(), dst, 2, B, [p + 2, q, q + 2]) == Hit(q, B);
    assert p in Before(d, n, Equal(), dst, 2, A, ps);
  }

  // ----- the run -------------------------------------------------------------------------

  lemma NothingToFind(d: Bytes, n: nat, same: Same, labels: Labels, k: nat)
    requires Proper(labels) && k <= |labels|
    ensures SearchFrom(d, n, same, [], labels, k) == Whole
    decreases |labels| - k
  {
    if k < |labels| { NothingToFind(d, n, same, labels, k + 1); }
  }

  lemma NoTail(d: Bytes, p: nat, x: Byte, y: Byte)
    requires Two(d, p, x, y) && |d| == p + 5
    ensures TailOf(d, p, p) == NoPointer
  {
    assert TailOf(d, p, p + 5) == NoPointer;
    assert TailOf(d, p, p + 4) == NoPointer;
    assert TailOf(d, p, p + 2) == NoPointer;
  }

  /** "a.x" is written whole into a packet without names. */
  method PushFirst(w: NameWriter)
    requires w.Valid() && w.dict == [] && |w.data| == 12 && w.size >= 64
    modifies w
    ensures w.Valid() && w.data == old(w.data) + [1, 97, 1, 120, 0] && w.dict == [12]
  {
    FlatOfTwo(A, X);
    NothingToFind(w.data, w.maxPtrs, Equal(), [A, X], 0);
    var _ := w.PushName([A, X], Equal());
    assert Two(w.data, 12, 97, 120);
    NoTail(w.data, 12, 97, 120);
  }

  /** "b.b" is written whole behind it. */
  method PushSecond(w: NameWriter)
    requires w.Valid() && w.dict == [12] && |w.data| == 21 && w.size >= 64 && Two(w.data, 12, 97, 120)
    modifies w
    ensures w.Valid() && w.data == old(w.data) + [1, 98, 1, 98, 0] && w.dict == [12, 21]
  {
    FlatOfTwo(B, B);
    OneEntry(w.data, w.maxPtrs, 12, 97, 120);
    SecondIsWhole(w.data, w.maxPtrs, 12, [B, B]);
    var _ := w.PushName([B, B], Equal());
    assert Two(w.data, 21, 98, 98);
    NoTail(w.data, 21, 98, 98);
  }

  /** "a.b" is written as a pointer to "b.b", and that is what it spells. */
  method PushThird(w: NameWriter)
    requires w.Valid() && w.dict == [12, 21] && |w.data| == 30 && w.size >= 64 && w.maxPtrs >= 1
    requires Two(w.data, 12, 97, 120) && Two(w.data, 21, 98, 98)
    modifies w
    ensures w.Valid() && w.data == old(w.data) + [0xC0, 21] && 30 in w.starts
    ensures Sound(w.data, 30, 30) && Spell(w.data, 30, 30) == [B, B]
  {
    FlatOfTwo(A, B);
    TwoEntries(w.data, w.maxPtrs, 12, 21, 97, 120, 98, 98);
    ThirdIsWrong(w.data, w.maxPtrs, 12, 21, [A, B]);
    ghost var d := w.data;
    NoStem();
    var _ := w.PushName([A, B], Equal());
    SpellsB(d, w.data, w.maxPtrs);
  }

  lemma SpellsB(d: Bytes, w: Bytes, n: nat)
    requires |d| == 30 && Two(d, 21, 98, 98) && w == d + [0xC0, 21]
    ensures Sound(w, 30, 30) && Spell(w, 30, 30) == [B, B]
  {
    NoStem();
    TwoIs(d, n, 21, 98, 98);
    PointerSpells(d, [A, B], 0, 21, w, n);
  }

  lemma NoStem()
    ensures Proper([A, B]) && Stem([A, B][..0]) == [] && Pointer(21) == [0xC0, 21] && NameOf([A, B], Point(0, 21, B)) == [0xC0, 21]
    ensures [A, B][..0] + [B, B] == [B, B]
  {
    assert [A, B][..0] == [];
  }

  /** Three questions are pushed into a fresh packet, each a name with its type and class (kind).
      The name of the last is "a.b", and it spells "b.b". */
  method WritesWrong(header: Bytes, kind: Bytes, size: nat, maxPtrs: nat) returns (w: NameWriter)
    requires |header| == 12 && |kind| == 4 && size >= 64 && maxPtrs >= 1
    ensures w.Valid() && w.data == header + [1, 97, 1, 120, 0] + kind + [1, 98, 1, 98, 0] + kind + [0xC0, 21] + kind
    ensures Sound(w.data, 30, 30) && Spell(w.data, 30, 30) == [B, B] && !Spelled([A, B], Spell(w.data, 30, 30), Equal())
  {
    w := new NameWriter(header, size, maxPtrs);
    PushFirst(w);
    w.Append(kind);
    assert Two(w.data, 12, 97, 120);
    PushSecond(w);
    w.Append(kind);
    assert Two(w.data, 12, 97, 120) && Two(w.data, 21, 98, 98);
    PushThird(w);
    SpellLonger(w.data, kind, 30, 30);
    w.Append(kind);
    NotSpelled();
  }

  lemma NotSpelled()
    ensures !Spelled([A, B], [B, B], Equal())
  {
    assert !Like(Equal(), [A, B][0], [B, B][0]);
  }
}
