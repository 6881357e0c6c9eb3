/** Names in packets: dns_l_expand and what dns_d_expand spells (src/dns/dns.c).  A position is sound
    if pointers from it only ever lead backwards, so that following them ends. */
module DnsNames {
  import opened Basics
  import DnsPacket
  import DnsBuild

  // ----- names on the wire ---------------------------------------------------------------

  function Target(d: Bytes, p: nat): nat
    requires p + 2 <= |d| && d[p] >= 0xC0
  {
    256 * (d[p] - 0xC0) as int + d[p + 1] as int
  }

  /** From p on there are labels and then a zero, or a pointer to a position below bound from
      where the same is true again, with that position as the bound. */
  ghost predicate Sound(d: Bytes, p: nat, bound: nat)
    decreases bound, |d| - p
  {
    p < |d| &&
    if d[p] == 0 then true
    else if d[p] < 0x40 then Sound(d, p + 1 + d[p] as int, bound)
    else d[p] >= 0xC0 && p + 2 <= |d| && Target(d, p) < bound && Sound(d, Target(d, p), Target(d, p))
  }

  lemma {:induction false} SoundWider(d: Bytes, p: nat, bound: nat, bound': nat)
    requires Sound(d, p, bound) && bound <= bound'
    ensures Sound(d, p, bound')
    decreases |d| - p
  {
    if 0 < d[p] < 0x40 { SoundWider(d, p + 1 + d[p] as int, bound, bound'); }
  }

  /** What is appended does not matter. */
  lemma {:induction false} SoundLonger(d: Bytes, more: Bytes, p: nat, bound: nat)
    requires Sound(d, p, bound)
    ensures Sound(d + more, p, bound)
    decreases bound, |d| - p
  {
    if 0 < d[p] < 0x40 {
      SoundLonger(d, more, p + 1 + d[p] as int, bound);
    } else if d[p] != 0 {
      SoundLonger(d, more, Target(d, p), Target(d, p));
    }
  }

  // ----- one label -----------------------------------------------------------------------

  datatype Label = Label(bytes: Bytes, next: nat)

  /** dns_l_expand: the label at p, or at the end of at most n pointers from p; an empty label
      stands for a failure too */
  function LExpand(d: Bytes, p: nat, n: nat): (l: Label)
    ensures l.bytes != [] ==> p < |d|
    decreases n
  {
    if p >= |d| then Label([], |d|)
    else if d[p] < 0x40 then
      var len := d[p] as int;
      if |d| - (p + 1) < len then Label([], |d|) else Label(d[p + 1..p + 1 + len], p + 1 + len)
    else if d[p] < 0xC0 || n == 0 || |d| - p < 2 then Label([], |d|)
    else LExpand(d, Target(d, p), n - 1)
  }

  /** Behind the label found from a sound position the position is sound again, for a bound that
      is no larger, and it comes later unless the bound went down. */
  lemma {:induction false} LabelSound(d: Bytes, p: nat, bound: nat, n: nat) returns (bound': nat)
    requires Sound(d, p, bound) && LExpand(d, p, n).bytes != []
    ensures bound' <= bound && Sound(d, LExpand(d, p, n).next, bound')
    ensures bound <= p ==> bound' <= LExpand(d, p, n).next
    ensures bound' < bound || p < LExpand(d, p, n).next
    decreases n
  {
    if d[p] < 0x40 {
      bound' := bound;
    } else {
      var t := Target(d, p);
      bound' := LabelSound(d, t, t, n - 1);
    }
  }

  // ----- flat names ----------------------------------------------------------------------

  type Labels = seq<Bytes>

  /** Labels of 1..63 bytes. */
  predicate Proper(labels: Labels) {
    forall i :: 0 <= i < |labels| ==> 1 <= |labels[i]| < 0x40
  }

  /** A label behind its length. */
  function Sized(b: Bytes): Bytes
    requires |b| < 0x40
  {
    [|b|] + b
  }

  /** The labels without an end. */
  function Stem(labels: Labels): Bytes
    requires Proper(labels)
  {
    if labels == [] then [] else Sized(labels[0]) + Stem(labels[1..])
  }

  /** The name without compression. */
  function Flat(labels: Labels): Bytes
    requires Proper(labels)
  {
    Stem(labels) + [0]
  }

  /** A pointer. */
  function Pointer(t: nat): Bytes
    requires t <= 0x3fff
  {
    [0xC0 + t / 256, t % 256]
  }

  lemma {:induction false} StemSound(d: Bytes, labels: Labels, tail: Bytes, bound: nat)
    requires Proper(labels) && Sound(d + Stem(labels) + tail, |d| + |Stem(labels)|, bound)
    ensures Sound(d + Stem(labels) + tail, |d|, bound)
    decreases |labels|
  {
    if labels == [] {
      assert d + Stem(labels) == d;
    } else {
      var s := Sized(labels[0]);
      var d' := d + s;
      assert d' + Stem(labels[1..]) + tail == d + Stem(labels) + tail;
      StemSound(d', labels[1..], tail, bound);
      assert (d + Stem(labels) + tail)[|d|] == |labels[0]|;
    }
  }

  /** A name without pointer is sound. */
  lemma FlatSound(d: Bytes, labels: Labels)
    requires Proper(labels)
    ensures Sound(d + Flat(labels), |d|, |d|)
  {
    assert d + Flat(labels) == d + Stem(labels) + [0];
    assert (d + Stem(labels) + [0])[|d| + |Stem(labels)|] == 0;
    StemSound(d, labels, [0], |d|);
  }

  /** Labels and a pointer to a sound position below them are sound. */
  lemma PointedSound(d: Bytes, labels: Labels, t: nat)
    requires Proper(labels) && t <= 0x3fff && t < |d| && Sound(d, t, t)
    ensures Sound(d + (Stem(labels) + Pointer(t)), |d|, |d|)
  {
    var w := d + Stem(labels) + Pointer(t);
    assert w == d + (Stem(labels) + Pointer(t));
    var p := |d| + |Stem(labels)|;
    assert w[p] == 0xC0 + t / 256 && w[p + 1] == t % 256;
    assert Target(w, p) == t;
    SoundLonger(d, Stem(labels) + Pointer(t), t, t);
    StemSound(d, labels, Pointer(t), |d|);
  }

  // ----- what a name spells --------------------------------------------------------------

  /** The labels from p on, through all pointers. */
  ghost function Spell(d: Bytes, p: nat, bound: nat): Labels
    requires Sound(d, p, bound)
    decreases bound, |d| - p
  {
    if d[p] == 0 then []
    else if d[p] < 0x40 then
      var e := p + 1 + d[p] as int;
      assert Sound(d, e, bound);
      [d[p + 1..e]] + Spell(d, e, bound)
    else Spell(d, Target(d, p), Target(d, p))
  }

  /** From p to e there are these labels. */
  ghost predicate Lays(w: Bytes, p: nat, labels: Labels, e: nat)
    decreases |labels|
  {
    if labels == [] then p == e
    else
      var n := |labels[0]|;
      0 < n < 0x40 && p + 1 + n <= |w| && w[p] == n && w[p + 1..p + 1 + n] == labels[0] && Lays(w, p + 1 + n, labels[1..], e)
  }

  lemma {:induction false} StemLays(w: Bytes, p: nat, e: nat, labels: Labels)
    requires Proper(labels) && p <= e <= |w| && w[p..e] == Stem(labels)
    ensures Lays(w, p, labels, e)
    decreases |labels|
  {
    if labels == [] {
      Empty(w, p, e);
    } else {
      LabelAt(w, p, e, labels);
      StemLays(w, p + 1 + |labels[0]|, e, labels[1..]);
    }
  }

  lemma {:induction false} SpellLays(w: Bytes, p: nat, e: nat, labels: Labels, bound: nat, tail: Labels)
    requires Lays(w, p, labels, e) && Sound(w, e, bound) && Spell(w, e, bound) == tail
    ensures Sound(w, p, bound) && Spell(w, p, bound) == labels + tail
    decreases |labels|
  {
    if labels != [] {
      var n := |labels[0]|;
      SpellLays(w, p + 1 + n, e, labels[1..], bound, tail);
      SpellLabel(w, p, bound, n);
      FirstAndRest(labels, tail);
    }
  }

  lemma Empty(w: Bytes, p: nat, e: nat)
    requires p <= e <= |w| && w[p..e] == []
    ensures p == e
  {
    assert |w[p..e]| == e - p;
  }

  lemma SpellLabel(w: Bytes, p: nat, bound: nat, n: nat)
    requires p < |w| && 0 < n < 0x40 && w[p] == n && Sound(w, p + 1 + n, bound)
    ensures Sound(w, p, bound) && Spell(w, p, bound) == [w[p + 1..p + 1 + n]] + Spell(w, p + 1 + n, bound)
  {
  }

  lemma FirstAndRest(labels: Labels, more: Labels)
    requires labels != []
    ensures [labels[0]] + (labels[1..] + more) == labels + more
  {
  }

  lemma LabelAt(w: Bytes, p: nat, e: nat, labels: Labels)
    requires Proper(labels) && p <= e <= |w| && w[p..e] == Stem(labels) && labels != []
    ensures p + 1 + |labels[0]| <= e && w[p] == |labels[0]| && w[p + 1..p + 1 + |labels[0]|] == labels[0]
    ensures w[p + 1 + |labels[0]|..e] == Stem(labels[1..])
  {
    SizedAt(w, p, e, labels[0], Stem(labels[1..]));
  }

  lemma SizedAt(w: Bytes, p: nat, e: nat, first: Bytes, rest: Bytes)
    requires |first| < 0x40 && p <= e <= |w| && w[p..e] == Sized(first) + rest
    ensures p + 1 + |first| <= e && w[p] == |first| && w[p + 1..p + 1 + |first|] == first
    ensures w[p + 1 + |first|..e] == rest
  {
    var v, n := w[p..e], 1 + |first|;
    assert v[0] == |first| && v[1..n] == first && v[n..|v|] == rest;
    DnsBuild.Slice(w, p, e, 1, n);
    DnsBuild.Slice(w, p, e, n, |v|);
  }

  /** An uncompressed name spells its labels. */
  lemma SpellFlat(d: Bytes, labels: Labels, w: Bytes)
    requires Proper(labels) && w == d + Flat(labels)
    ensures Sound(w, |d|, |d|) && Spell(w, |d|, |d|) == labels
  {
    var e := |d| + |Stem(labels)|;
    Halves(d, Stem(labels), w);
    StemLays(w, |d|, e, labels);
    SpellWhole(w, |d|, e, labels);
  }

  lemma SpellWhole(w: Bytes, p: nat, e: nat, labels: Labels)
    requires Lays(w, p, labels, e) && e < |w| && w[e] == 0
    ensures Sound(w, p, p) && Spell(w, p, p) == labels
  {
    EndsAt(w, e, p);
    SpellLays(w, p, e, labels, p, []);
    assert labels + [] == labels;
  }

  lemma EndsAt(w: Bytes, e: nat, bound: nat)
    requires e < |w| && w[e] == 0
    ensures Sound(w, e, bound) && Spell(w, e, bound) == []
  {
  }

  lemma Halves(d: Bytes, s: Bytes, w: Bytes)
    requires w == d + (s + [0])
    ensures |w| == |d| + |s| + 1 && w[|d| + |s|] == 0 && w[|d|..|d| + |s|] == s
  {
  }

  /** On the way from p, where k pointers have just been followed in a row, some run of pointers
      is longer than most. */
  ghost predicate LongRun(d: Bytes, p: nat, bound: nat, k: nat, most: nat)
    requires Sound(d, p, bound)
    decreases bound, |d| - p
  {
    if d[p] == 0 then false
    else if d[p] < 0x40 then LongRun(d, p + 1 + d[p] as int, bound, 0, most)
    else k + 1 > most || LongRun(d, Target(d, p), Target(d, p), k + 1, most)
  }

  lemma {:induction false} SpellLonger(d: Bytes, more: Bytes, p: nat, bound: nat)
    requires Sound(d, p, bound)
    ensures Sound(d + more, p, bound) && Spell(d + more, p, bound) == Spell(d, p, bound)
    decreases bound, |d| - p
  {
    SoundLonger(d, more, p, bound);
    if 0 < d[p] < 0x40 {
      var e := p + 1 + d[p] as int;
      assert (d + more)[p + 1..e] == d[p + 1..e];
      SpellLonger(d, more, e, bound);
    } else if d[p] != 0 {
      SpellLonger(d, more, Target(d, p), Target(d, p));
    }
  }

  // ----- runs of pointers ---------------------------------------------------------------

  lemma FlatLabel(dst: Bytes, y: nat, n: nat)
    requires Sound(dst, y, 0) && LExpand(dst, y, n).bytes != []
    ensures Sound(dst, LExpand(dst, y, n).next, 0) && y < LExpand(dst, y, n).next
  {
    ghost var _ := LabelSound(dst, y, 0, n);
  }

  lemma {:induction false} SpellBound(d: Bytes, p: nat, x: nat, y: nat)
    requires Sound(d, p, x) && Sound(d, p, y)
    ensures Spell(d, p, x) == Spell(d, p, y)
    ensures forall k: nat, most: nat :: LongRun(d, p, x, k, most) == LongRun(d, p, y, k, most)
    decreases |d| - p
  {
    if 0 < d[p] < 0x40 { SpellBound(d, p + 1 + d[p] as int, x, y); }
  }

  /** dns_l_expand finds the first label that a name spells, and the rest behind it, unless too
      many pointers follow each other. */
  lemma {:induction false} ExpandSpells(d: Bytes, p: nat, bound: nat, k: nat, most: nat) returns (bound': nat)
    requires Sound(d, p, bound) && k <= most && !LongRun(d, p, bound, k, most)
    ensures var l, s := LExpand(d, p, most - k), Spell(d, p, bound);
            if s == [] then l.bytes == []
            else l.bytes == s[0] && l.bytes != [] && Sound(d, l.next, bound') && Spell(d, l.next, bound') == s[1..] &&
                 !LongRun(d, l.next, bound', 0, most)
    decreases bound, |d| - p
  {
    bound' := bound;
    if d[p] >= 0x40 {
      var t := Target(d, p);
      bound' := ExpandSpells(d, t, t, k + 1, most);
    } else if d[p] > 0 {
      assert Sound(d, p + 1 + d[p] as int, bound);
    }
  }

  lemma {:induction false} FlatHasNoRun(dst: Bytes, p: nat, k: nat, most: nat)
    requires Sound(dst, p, 0)
    ensures !LongRun(dst, p, 0, k, most)
    decreases |dst| - p
  {
    if dst[p] > 0 { FlatHasNoRun(dst, p + 1 + dst[p] as int, 0, most); }
  }

  lemma {:induction false} FewerPointers(d: Bytes, p: nat, bound: nat, k: nat, most: nat)
    requires Sound(d, p, bound) && !LongRun(d, p, bound, k + 1, most)
    ensures !LongRun(d, p, bound, k, most)
    decreases bound, |d| - p
  {
    if d[p] >= 0xC0 { FewerPointers(d, Target(d, p), Target(d, p), k + 1, most); }
  }

  /** Labels in front do not shorten a run of pointers. */
  lemma {:induction false} RunBehind(w: Bytes, p: nat, e: nat, labels: Labels, bound: nat, j: nat, most: nat)
    requires Lays(w, p, labels, e) && Sound(w, e, bound) && Sound(w, p, bound) && !LongRun(w, p, bound, j, most) && j == 0
    ensures !LongRun(w, e, bound, 0, most)
    decreases |labels|
  {
    if labels != [] { RunBehind(w, p + 1 + |labels[0]|, e, labels[1..], bound, 0, most); }
  }

  lemma {:induction false} RunLonger(d: Bytes, more: Bytes, p: nat, bound: nat, k: nat, most: nat)
    requires Sound(d, p, bound)
    ensures Sound(d + more, p, bound) && LongRun(d + more, p, bound, k, most) == LongRun(d, p, bound, k, most)
    decreases bound, |d| - p
  {
    SoundLonger(d, more, p, bound);
    if 0 < d[p] < 0x40 {
      RunLonger(d, more, p + 1 + d[p] as int, bound, 0, most);
    } else if d[p] != 0 {
      RunLonger(d, more, Target(d, p), Target(d, p), k + 1, most);
    }
  }

  // ----- parts of flat names -------------------------------------------------------------

  /** The label at position |Stem(labels[..k])| of a flat name. */
  lemma {:induction false} StemStep(labels: Labels, k: nat)
    requires Proper(labels) && k < |labels|
    ensures Stem(labels[..k + 1]) == Stem(labels[..k]) + Sized(labels[k])
    decreases k
  {
    if k == 0 {
      assert labels[..1] == [labels[0]] && labels[..1][1..] == [];
    } else {
      assert labels[..k + 1][1..] == labels[1..][..k] && labels[..k][1..] == labels[1..][..k - 1];
      StemStep(labels[1..], k - 1);
    }
  }

  lemma {:induction false} StemSplit(labels: Labels, k: nat)
    requires Proper(labels) && k <= |labels|
    ensures Stem(labels) == Stem(labels[..k]) + Stem(labels[k..])
    decreases k
  {
    if k == 0 {
      assert labels[..0] == [] && labels[0..] == labels;
    } else {
      StemSplit(labels[1..], k - 1);
      assert labels[..k][1..] == labels[1..][..k - 1] && labels[1..][k - 1..] == labels[k..];
      assert labels[..k][0] == labels[0];
      Regroup(Sized(labels[0]), Stem(labels[..k][1..]), Stem(labels[k..]));
    }
  }

  lemma Regroup(a: Bytes, b: Bytes, c: Bytes)
    ensures a + (b + c) == a + b + c
  {
  }

  lemma StemPrefix(labels: Labels, k: nat)
    requires Proper(labels) && k <= |labels|
    ensures |Stem(labels[..k])| <= |Stem(labels)| && Stem(labels)[..|Stem(labels[..k])|] == Stem(labels[..k])
    ensures Stem(labels) == Stem(labels[..k]) + Stem(labels[k..])
  {
    StemSplit(labels, k);
  }

  lemma NoLabelAtEnd(labels: Labels, dst: Bytes, n: nat)
    requires Proper(labels) && dst == Flat(labels)
    ensures LExpand(dst, |Stem(labels)|, n).bytes == []
  {
    assert dst[|Stem(labels)|] == 0;
  }

  /** k labels end at ap. */
  ghost predicate Boundary(labels: Labels, k: nat, ap: nat) {
    Proper(labels) && k <= |labels| && ap == |Stem(labels[..k])|
  }

  lemma AtFirst(labels: Labels, dst: Bytes)
    requires Proper(labels) && dst == Flat(labels)
    ensures Boundary(labels, 0, 0) && Sound(dst, 0, 0)
  {
    FlatSound([], labels);
    assert [] + dst == dst;
  }

  lemma Stepped(labels: Labels, k: nat, ap: nat, dst: Bytes, n: nat)
    requires Boundary(labels, k, ap) && dst == Flat(labels) && LExpand(dst, ap, n).bytes != []
    ensures k < |labels| && Boundary(labels, k + 1, LExpand(dst, ap, n).next) && LExpand(dst, ap, n).bytes == labels[k]
    ensures Sound(dst, LExpand(dst, ap, n).next, 0) && [labels[k]] + Spell(dst, LExpand(dst, ap, n).next, 0) == labels[k..]
  {
    if k == |labels| {
      assert labels[..k] == labels;
      NoLabelAtEnd(labels, dst, n);
    } else {
      LabelInFlat(labels, k, ap, dst);
      LabelRead(dst, ap, labels[k], n);
      SpellRest(labels, k + 1, dst, ap + 1 + |labels[k]|);
      assert [labels[k]] + labels[k + 1..] == labels[k..];
    }
  }

  lemma LabelInFlat(labels: Labels, k: nat, ap: nat, dst: Bytes)
    requires Boundary(labels, k, ap) && dst == Flat(labels) && k < |labels|
    ensures var e := ap + 1 + |labels[k]|;
            e < |dst| && dst[ap..e] == Sized(labels[k]) && Boundary(labels, k + 1, e)
  {
    var e := ap + 1 + |labels[k]|;
    StemStep(labels, k);
    StemPrefix(labels, k + 1);
    var stem := Stem(labels[..k + 1]);
    assert stem[ap..e] == Sized(labels[k]);
    assert dst[..e] == stem;
    assert dst[ap..e] == dst[..e][ap..e];
  }

  lemma LabelRead(dst: Bytes, ap: nat, b: Bytes, n: nat)
    requires 1 <= |b| < 0x40 && ap + 1 + |b| <= |dst| && dst[ap..ap + 1 + |b|] == Sized(b)
    ensures LExpand(dst, ap, n) == Label(b, ap + 1 + |b|)
  {
    var v := dst[ap..ap + 1 + |b|];
    assert dst[ap] == v[0] && v[1..] == b;
    DnsBuild.Slice(dst, ap, ap + 1 + |b|, 1, 1 + |b|);
  }

  lemma SpellRest(labels: Labels, k: nat, dst: Bytes, p: nat)
    requires Proper(labels) && k <= |labels| && dst == Flat(labels) && p == |Stem(labels[..k])|
    ensures Sound(dst, p, 0) && Spell(dst, p, 0) == labels[k..]
  {
    StemPrefix(labels, k);
    var e := |Stem(labels)|;
    assert dst[p..e] == Stem(labels[k..]) && dst[e] == 0;
    StemLays(dst, p, e, labels[k..]);
    EndsAt(dst, e, 0);
    SpellLays(dst, p, e, labels[k..], 0, []);
    assert labels[k..] + [] == labels[k..];
  }

  /** Labels in front of a well-formed end are a well-formed name, in the sense in which pushed
      records need one. */
  lemma {:induction false} StemIsName(labels: Labels, tail: Bytes)
    requires Proper(labels) && DnsBuild.IsName(tail)
    ensures DnsBuild.IsName(Stem(labels) + tail)
    decreases |labels|
  {
    var b := Stem(labels) + tail;
    if labels == [] {
      assert b == tail;
    } else {
      StemIsName(labels[1..], tail);
      assert b == Sized(labels[0]) + (Stem(labels[1..]) + tail);
      assert b[1 + |labels[0]|..] == Stem(labels[1..]) + tail;
    }
  }
}
