/** Name compression in src/dns/dns.c: the search of dns_d_comp through the dictionary, dns_d_push,
    dns_p_dictadd and dns_d_expand.  What the search finds is a function of the packet, the
    dictionary and the name. */
module DnsCompress {
  import opened Basics
  import opened DnsNames
  import DnsBuild

  /** strcasecmp() == 0 on labels, or any other comparison */
  type Same = (Bytes, Bytes) -> bool

  // ----- comparing names -----------------------------------------------------------------

  /** Label for label the same. */
  ghost predicate SameNames(x: Labels, y: Labels, same: Same) {
    |x| == |y| && forall i :: 0 <= i < |x| ==> same(x[i], y[i])
  }

  /** The comparison loop of dns_d_comp: labels a of the new name and b of an earlier one, and
      those behind them; what remains are the labels it stops at. */
  ghost function CompareTo(d: Bytes, dst: Bytes, same: Same, n: nat, ya: nat, a: Bytes, yb: nat, b: Bytes): (Bytes, Bytes)
    requires a != [] ==> Sound(dst, ya, 0)
    decreases if a != [] then 1 else 0, |dst| - ya
  {
    if a == [] || b == [] || !same(a, b) then (a, b)
    else
      var l, r := LExpand(dst, ya, n), LExpand(d, yb, n);
      assert l.bytes != [] ==> Sound(dst, l.next, 0) && ya < l.next by { if l.bytes != [] { FlatLabel(dst, ya, n); } }
      CompareTo(d, dst, same, n, l.next, l.bytes, r.next, r.bytes)
  }

  /** The names still to be compared: a label and what is spelled behind it. */
  ghost predicate Facing(d: Bytes, y: nat, a: Bytes, bound: nat, most: nat, names: Labels) {
    if a == [] then names == []
    else Sound(d, y, bound) && !LongRun(d, y, bound, 0, most) && names == [a] + Spell(d, y, bound)
  }

  lemma NextFacing(d: Bytes, y: nat, a: Bytes, bound: nat, most: nat, names: Labels) returns (bound': nat)
    requires a != [] && Facing(d, y, a, bound, most, names)
    ensures Facing(d, LExpand(d, y, most).next, LExpand(d, y, most).bytes, bound', most, names[1..])
  {
    bound' := ExpandSpells(d, y, bound, 0, most);
    assert names[1..] == Spell(d, y, bound);
    var s := names[1..];
    if s != [] { assert s == [s[0]] + s[1..]; }
  }

  /** If a comparison that starts at the right labels runs to the end of both names, they are the
      same. */
  lemma {:induction false} CompareSpells(d: Bytes, dst: Bytes, same: Same, n: nat, ya: nat, a: Bytes,
                                         yb: nat, b: Bytes, bound: nat, x: Labels, y: Labels)
    requires a != [] ==> Sound(dst, ya, 0)
    requires Facing(dst, ya, a, 0, n, x) && Facing(d, yb, b, bound, n, y)
    requires CompareTo(d, dst, same, n, ya, a, yb, b) == ([], [])
    ensures SameNames(x, y, same)
    decreases |x|
  {
    if a != [] && b != [] && same(a, b) {
      var l, r := LExpand(dst, ya, n), LExpand(d, yb, n);
      var zero := NextFacing(dst, ya, a, 0, n, x);
      var bound' := NextFacing(d, yb, b, bound, n, y);
      if l.bytes != [] { FlatLabel(dst, ya, n); SpellBound(dst, l.next, zero, 0); }
      CompareSpells(d, dst, same, n, l.next, l.bytes, r.next, r.bytes, bound', x[1..], y[1..]);
      assert x == [a] + x[1..] && y == [b] + y[1..];
    }
  }

  /** What a match from position bp on says, begun with label a and the labels from ax on. */
  lemma MatchSpells(d: Bytes, dst: Bytes, same: Same, n: nat, ax: nat, a: Bytes, bp: nat)
    requires Sound(dst, ax, 0) && a != [] && Sound(d, bp, bp) && !LongRun(d, bp, bp, 0, n)
    requires LExpand(d, bp, n).bytes != []
    requires CompareTo(d, dst, same, n, ax, a, LExpand(d, bp, n).next, LExpand(d, bp, n).bytes) == ([], [])
    ensures SameNames([a] + Spell(dst, ax, 0), Spell(d, bp, bp), same)
  {
    var b, y := LExpand(d, bp, n), Spell(d, bp, bp);
    FlatHasNoRun(dst, ax, 0, n);
    var bound' := ExpandSpells(d, bp, bp, 0, n);
    assert y == [y[0]] + y[1..];
    CompareSpells(d, dst, same, n, ax, a, b.next, b.bytes, bound', [a] + Spell(dst, ax, 0), y);
  }

  // ----- the positions that are looked at ------------------------------------------------

  /** The bound that holds behind the label found from p. */
  ghost function Lower(d: Bytes, p: nat, bound: nat, n: nat): nat
    requires Sound(d, p, bound) && LExpand(d, p, n).bytes != []
    decreases n
  {
    if d[p] < 0x40 then bound else Lower(d, Target(d, p), Target(d, p), n - 1)
  }

  lemma {:induction false} LowerIs(d: Bytes, p: nat, bound: nat, n: nat)
    requires Sound(d, p, bound) && LExpand(d, p, n).bytes != []
    ensures var next, lower := LExpand(d, p, n).next, Lower(d, p, bound, n);
            lower <= bound && Sound(d, next, lower) && (bound <= p ==> lower <= next) && (lower < bound || p < next)
    decreases n
  {
    if d[p] >= 0x40 { LowerIs(d, Target(d, p), Target(d, p), n - 1); }
  }

  /** The loop of dns_d_comp along an earlier name: each position from which there is a label. */
  ghost function Along(d: Bytes, n: nat, p: nat, bound: nat): seq<nat>
    requires Sound(d, p, bound)
    decreases bound, |d| - p
  {
    var b := LExpand(d, p, n);
    if b.bytes == [] then []
    else
      LowerIs(d, p, bound, n);
      [p] + Along(d, n, b.next, Lower(d, p, bound, n))
  }

  /** Every entry is the start of a name. */
  ghost predicate Starts(d: Bytes, dict: seq<nat>) { forall i :: 0 <= i < |dict| ==> Sound(d, dict[i], dict[i]) }

  ghost function Positions(d: Bytes, n: nat, dict: seq<nat>): seq<nat>
    requires Starts(d, dict)
    decreases |dict|
  {
    if dict == [] then [] else Along(d, n, dict[0], dict[0]) + Positions(d, n, dict[1..])
  }

  /** A position where a name can be continued. */
  ghost predicate Usable(d: Bytes, n: nat, p: nat) { p < |d| && Sound(d, p, p) && LExpand(d, p, n).bytes != [] }

  lemma {:induction false} AlongUsable(d: Bytes, n: nat, p: nat, bound: nat, x: nat)
    requires Sound(d, p, bound) && bound <= p && x in Along(d, n, p, bound)
    ensures Usable(d, n, x)
    decreases bound, |d| - p
  {
    LowerIs(d, p, bound, n);
    if x == p {
      SoundWider(d, p, bound, p);
    } else {
      AlongUsable(d, n, LExpand(d, p, n).next, Lower(d, p, bound, n), x);
    }
  }

  lemma {:induction false} PositionsUsable(d: Bytes, n: nat, dict: seq<nat>, x: nat)
    requires Starts(d, dict) && x in Positions(d, n, dict)
    ensures Usable(d, n, x)
    decreases |dict|
  {
    if x in Along(d, n, dict[0], dict[0]) {
      AlongUsable(d, n, dict[0], dict[0], x);
    } else {
      PositionsUsable(d, n, dict[1..], x);
    }
  }

  // ----- the search ----------------------------------------------------------------------

  /** A match at a position, with the label it was begun with, or the label that is left. */
  datatype Scanned = Hit(at: nat, with: Bytes) | Miss(left: Bytes)

  /** The comparison begun with label a at position p runs through. */
  ghost predicate Matches(d: Bytes, n: nat, same: Same, dst: Bytes, ax: nat, a: Bytes, p: nat)
    requires Sound(dst, ax, 0)
  {
    var b := LExpand(d, p, n);
    CompareTo(d, dst, same, n, ax, a, b.next, b.bytes) == ([], []) && p <= 0x3fff
  }

  /** The label a comparison at p leaves behind. */
  ghost function Left(d: Bytes, n: nat, same: Same, dst: Bytes, ax: nat, a: Bytes, p: nat): Bytes
    requires Sound(dst, ax, 0)
  {
    var b := LExpand(d, p, n);
    CompareTo(d, dst, same, n, ax, a, b.next, b.bytes).0
  }

  /** Looking at positions one after the other.  The label of the new name is not restored after a
      comparison. */
  ghost function Scan(d: Bytes, n: nat, same: Same, dst: Bytes, ax: nat, a: Bytes, ps: seq<nat>): Scanned
    requires Sound(dst, ax, 0)
    decreases |ps|
  {
    if ps == [] then Miss(a)
    else if Matches(d, n, same, dst, ax, a, ps[0]) then Hit(ps[0], a)
    else Scan(d, n, same, dst, ax, Left(d, n, same, dst, ax, a, ps[0]), ps[1..])
  }

  /** The positions looked at before the match. */
  ghost function Before(d: Bytes, n: nat, same: Same, dst: Bytes, ax: nat, a: Bytes, ps: seq<nat>): seq<nat>
    requires Sound(dst, ax, 0)
    decreases |ps|
  {
    if ps == [] || Matches(d, n, same, dst, ax, a, ps[0]) then []
    else [ps[0]] + Before(d, n, same, dst, ax, Left(d, n, same, dst, ax, a, ps[0]), ps[1..])
  }

  lemma {:induction false} ScanSplit(d: Bytes, n: nat, same: Same, dst: Bytes, ax: nat, a: Bytes, ps: seq<nat>, qs: seq<nat>)
    requires Sound(dst, ax, 0)
    ensures Scan(d, n, same, dst, ax, a, ps + qs) ==
            match Scan(d, n, same, dst, ax, a, ps)
            case Hit(p, w) => Hit(p, w)
            case Miss(l) => Scan(d, n, same, dst, ax, l, qs)
    decreases |ps|
  {
    if ps == [] {
      assert ps + qs == qs;
    } else {
      assert (ps + qs)[1..] == ps[1..] + qs;
      ScanSplit(d, n, same, dst, ax, Left(d, n, same, dst, ax, a, ps[0]), ps[1..], qs);
    }
  }

  lemma {:induction false} HitIs(d: Bytes, n: nat, same: Same, dst: Bytes, ax: nat, a: Bytes, ps: seq<nat>)
    requires Sound(dst, ax, 0) && Scan(d, n, same, dst, ax, a, ps).Hit?
    requires forall i :: 0 <= i < |ps| ==> LExpand(d, ps[i], n).bytes != []
    ensures var h := Scan(d, n, same, dst, ax, a, ps); h.at in ps && Matches(d, n, same, dst, ax, h.with, h.at) && h.with != []
    decreases |ps|
  {
    if !Matches(d, n, same, dst, ax, a, ps[0]) { HitIs(d, n, same, dst, ax, Left(d, n, same, dst, ax, a, ps[0]), ps[1..]); }
  }

  /** No position looked at before the match begins with a label like the one looked for. */
  ghost predicate Clean(d: Bytes, n: nat, same: Same, dst: Bytes, ax: nat, a: Bytes, ps: seq<nat>)
    requires Sound(dst, ax, 0)
  {
    forall p :: p in Before(d, n, same, dst, ax, a, ps) ==> !same(a, LExpand(d, p, n).bytes)
  }

  /** Then the label is still the right one at the match. */
  lemma {:induction false} CleanKeepsLabel(d: Bytes, n: nat, same: Same, dst: Bytes, ax: nat, a: Bytes, ps: seq<nat>)
    requires Sound(dst, ax, 0) && a != [] && Clean(d, n, same, dst, ax, a, ps)
    requires forall i :: 0 <= i < |ps| ==> LExpand(d, ps[i], n).bytes != []
    ensures var h := Scan(d, n, same, dst, ax, a, ps); (if h.Hit? then h.with else h.left) == a
    decreases |ps|
  {
    if ps != [] && !Matches(d, n, same, dst, ax, a, ps[0]) {
      var before := Before(d, n, same, dst, ax, a, ps);
      assert before[0] == ps[0] && ps[0] in before;
      assert Left(d, n, same, dst, ax, a, ps[0]) == a;
      assert before[1..] == Before(d, n, same, dst, ax, a, ps[1..]);
      CleanKeepsLabel(d, n, same, dst, ax, a, ps[1..]);
    }
  }

  /** Write the name whole, or keep some labels and point to a position. */
  datatype Choice = Whole | Point(keep: nat, at: nat, with: Bytes)

  /** Where the labels behind label k start in the flat name. */
  ghost function Behind(labels: Labels, k: nat): (p: nat)
    requires Proper(labels) && k < |labels|
    ensures Sound(Flat(labels), p, 0)
  {
    SpellRest(labels, k + 1, Flat(labels), |Stem(labels[..k + 1])|);
    |Stem(labels[..k + 1])|
  }

  /** The search of dns_d_comp from label k on */
  ghost function SearchFrom(d: Bytes, n: nat, same: Same, ps: seq<nat>, labels: Labels, k: nat): Choice
    requires Proper(labels) && k <= |labels|
    decreases |labels| - k
  {
    if k == |labels| then Whole
    else
      match Scan(d, n, same, Flat(labels), Behind(labels, k), labels[k], ps)
      case Hit(p, w) => Point(k, p, w)
      case Miss(_) => SearchFrom(d, n, same, ps, labels, k + 1)
  }

  /** dns_d_comp: the search takes place only if the flat name leaves room */
  ghost function Chosen(d: Bytes, n: nat, same: Same, dict: seq<nat>, labels: Labels, lim: int): Choice
    requires Starts(d, dict) && Proper(labels)
  {
    if |Flat(labels)| < lim then SearchFrom(d, n, same, Positions(d, n, dict), labels, 0) else Whole
  }

  /** What is written for a choice. */
  ghost function NameOf(labels: Labels, c: Choice): Bytes
    requires Proper(labels) && (c.Point? ==> c.keep <= |labels| && c.at <= 0x3fff)
  {
    if c.Whole? then Flat(labels) else Stem(labels[..c.keep]) + Pointer(c.at)
  }

  /** What the search can find. */
  ghost predicate Found(d: Bytes, n: nat, same: Same, labels: Labels, c: Choice)
    requires Proper(labels)
  {
    c.Point? ==>
      c.keep < |labels| && c.at <= 0x3fff && Usable(d, n, c.at) && c.with != [] &&
      Matches(d, n, same, Flat(labels), Behind(labels, c.keep), c.with, c.at)
  }

  lemma {:induction false} SearchFinds(d: Bytes, n: nat, same: Same, ps: seq<nat>, labels: Labels, k: nat)
    requires Proper(labels) && k <= |labels| && forall i :: 0 <= i < |ps| ==> Usable(d, n, ps[i])
    ensures Found(d, n, same, labels, SearchFrom(d, n, same, ps, labels, k))
    decreases |labels| - k
  {
    if k < |labels| {
      var ax := Behind(labels, k);
      if Scan(d, n, same, Flat(labels), ax, labels[k], ps).Hit? {
        HitIs(d, n, same, Flat(labels), ax, labels[k], ps);
      } else {
        SearchFinds(d, n, same, ps, labels, k + 1);
      }
    }
  }

  lemma ChosenIs(d: Bytes, n: nat, same: Same, dict: seq<nat>, labels: Labels, lim: int)
    requires Starts(d, dict) && Proper(labels)
    ensures Found(d, n, same, labels, Chosen(d, n, same, dict, labels, lim))
  {
    var ps := Positions(d, n, dict);
    forall i | 0 <= i < |ps| ensures Usable(d, n, ps[i]) { PositionsUsable(d, n, dict, ps[i]); }
    SearchFinds(d, n, same, ps, labels, 0);
  }

  // ----- what the written name spells ----------------------------------------------------

  predicate Like(same: Same, x: Bytes, y: Bytes) { x == y || same(x, y) }

  /** s are the labels, as far as comparing them can tell. */
  ghost predicate Spelled(labels: Labels, s: Labels, same: Same) {
    |s| == |labels| && forall i :: 0 <= i < |s| ==> Like(same, labels[i], s[i])
  }

  /** Behind the first label everything is as it should be, whatever label the match was begun
      with. */
  lemma PointSpells(d: Bytes, n: nat, same: Same, labels: Labels, c: Choice)
    requires Proper(labels) && c.Point? && Found(d, n, same, labels, c) && !LongRun(d, c.at, c.at, 0, n)
    ensures SameNames([c.with] + labels[c.keep + 1..], Spell(d, c.at, c.at), same)
    ensures Spell(d, c.at, c.at) != [] && Spell(d, c.at, c.at)[0] == LExpand(d, c.at, n).bytes
  {
    var ax := Behind(labels, c.keep);
    MatchSpells(d, Flat(labels), same, n, ax, c.with, c.at);
    SpellRest(labels, c.keep + 1, Flat(labels), ax);
    var _ := ExpandSpells(d, c.at, c.at, 0, n);
  }

  /** A name with a pointer spells the labels kept and what the pointer leads to. */
  lemma PointerSpells(d: Bytes, labels: Labels, k: nat, t: nat, w: Bytes, most: nat)
    requires Proper(labels) && k <= |labels| && t <= 0x3fff && t < |d| && Sound(d, t, t)
    requires w == d + (Stem(labels[..k]) + Pointer(t))
    ensures Sound(w, |d|, |d|) && Spell(w, |d|, |d|) == labels[..k] + Spell(d, t, t)
    ensures !LongRun(w, |d|, |d|, 0, most) ==> !LongRun(d, t, t, 0, most)
  {
    var stem := Stem(labels[..k]);
    var p := |d| + |stem|;
    PointedSound(d, labels[..k], t);
    AtPointer(d, stem, t, w, p);
    SpellLonger(d, stem + Pointer(t), t, t);
    RunLonger(d, stem + Pointer(t), t, t, 1, most);
    StemLays(w, |d|, p, labels[..k]);
    SpellLays(w, |d|, p, labels[..k], |d|, Spell(d, t, t));
    if !LongRun(w, |d|, |d|, 0, most) {
      RunBehind(w, |d|, p, labels[..k], |d|, 0, most);
      FewerPointers(d, t, t, 0, most);
    }
  }

  lemma AtPointer(d: Bytes, stem: Bytes, t: nat, w: Bytes, p: nat)
    requires t <= 0x3fff && w == d + (stem + Pointer(t)) && p == |d| + |stem|
    ensures p + 2 == |w| && w[|d|..p] == stem && w[p] >= 0xC0 && Target(w, p) == t
  {
    assert w[p] == 0xC0 + t / 256 && w[p + 1] == t % 256;
  }

  /** The pointer leads to a name whose first label is like the one it stands for. */
  ghost predicate Right(d: Bytes, n: nat, same: Same, labels: Labels, c: Choice) {
    c.Point? ==> c.keep < |labels| && Like(same, labels[c.keep], LExpand(d, c.at, n).bytes)
  }

  /** The written name, if it can be expanded, spells the labels it was made from if and only if
      the search was right about one label. */
  lemma SpelledIffRight(d: Bytes, n: nat, same: Same, dict: seq<nat>, labels: Labels, lim: int, w: Bytes)
    requires Starts(d, dict) && Proper(labels)
    requires var c := Chosen(d, n, same, dict, labels, lim);
             Found(d, n, same, labels, c) && w == d + NameOf(labels, c) && Sound(w, |d|, |d|) && !LongRun(w, |d|, |d|, 0, n)
    ensures Spelled(labels, Spell(w, |d|, |d|), same) <==> Right(d, n, same, labels, Chosen(d, n, same, dict, labels, lim))
  {
    var c := Chosen(d, n, same, dict, labels, lim);
    if c.Whole? {
      SpellFlat(d, labels, w);
    } else {
      PointerSpells(d, labels, c.keep, c.at, w, n);
      PointSpells(d, n, same, labels, c);
      OneLabelDecides(labels, c.keep, c.with, Spell(d, c.at, c.at), same);
    }
  }

  lemma OneLabelDecides(labels: Labels, k: nat, a: Bytes, t: Labels, same: Same)
    requires k < |labels| && t != [] && SameNames([a] + labels[k + 1..], t, same)
    ensures Spelled(labels, labels[..k] + t, same) <==> Like(same, labels[k], t[0])
  {
    var s := labels[..k] + t;
    assert |s| == |labels| && s[k] == t[0];
    forall i | k < i < |labels| ensures same(labels[i], s[i]) {
      assert ([a] + labels[k + 1..])[i - k] == labels[i] && s[i] == t[i - k];
    }
    if Like(same, labels[k], t[0]) {
      forall i | 0 <= i < |s| ensures Like(same, labels[i], s[i]) {
        if i == k { assert s[i] == t[0]; }
      }
    }
  }

  /** A clean search is right. */
  lemma CleanIsRight(d: Bytes, n: nat, same: Same, ps: seq<nat>, labels: Labels, k: nat)
    requires Proper(labels) && k < |labels| && forall i :: 0 <= i < |ps| ==> Usable(d, n, ps[i])
    requires Scan(d, n, same, Flat(labels), Behind(labels, k), labels[k], ps).Hit?
    requires Clean(d, n, same, Flat(labels), Behind(labels, k), labels[k], ps)
    ensures same(labels[k], LExpand(d, Scan(d, n, same, Flat(labels), Behind(labels, k), labels[k], ps).at, n).bytes)
  {
    var dst, ax := Flat(labels), Behind(labels, k);
    CleanKeepsLabel(d, n, same, dst, ax, labels[k], ps);
    HitIs(d, n, same, dst, ax, labels[k], ps);
  }

  /** No label of the name is like the label at a position looked at in vain before its match. */
  ghost predicate AllClean(d: Bytes, n: nat, same: Same, ps: seq<nat>, labels: Labels)
    requires Proper(labels)
  {
    forall k :: 0 <= k < |labels| ==> Clean(d, n, same, Flat(labels), Behind(labels, k), labels[k], ps)
  }

  lemma {:induction false} CleanSearchIsRight(d: Bytes, n: nat, same: Same, ps: seq<nat>, labels: Labels, k: nat)
    requires Proper(labels) && k <= |labels| && forall i :: 0 <= i < |ps| ==> Usable(d, n, ps[i])
    requires AllClean(d, n, same, ps, labels)
    ensures Right(d, n, same, labels, SearchFrom(d, n, same, ps, labels, k))
    decreases |labels| - k
  {
    if k < |labels| {
      if Scan(d, n, same, Flat(labels), Behind(labels, k), labels[k], ps).Hit? {
        CleanIsRight(d, n, same, ps, labels, k);
      } else {
        CleanSearchIsRight(d, n, same, ps, labels, k + 1);
      }
    }
  }

  /** What a caller can tell before the push: a name all of whose labels are clean is written so
      that it spells them, if it can be expanded. */
  lemma CleanIsSpelled(d: Bytes, n: nat, same: Same, dict: seq<nat>, labels: Labels, lim: int, w: Bytes)
    requires Starts(d, dict) && Proper(labels) && AllClean(d, n, same, Positions(d, n, dict), labels)
    requires var c := Chosen(d, n, same, dict, labels, lim);
             Found(d, n, same, labels, c) && w == d + NameOf(labels, c) && Sound(w, |d|, |d|) && !LongRun(w, |d|, |d|, 0, n)
    ensures Spelled(labels, Spell(w, |d|, |d|), same)
  {
    var ps := Positions(d, n, dict);
    forall i | 0 <= i < |ps| ensures Usable(d, n, ps[i]) { PositionsUsable(d, n, dict, ps[i]); }
    CleanSearchIsRight(d, n, same, ps, labels, 0);
    SpelledIffRight(d, n, same, dict, labels, lim, w);
  }

  // ----- what is written -----------------------------------------------------------------

  /** w is d with a name behind it that keeps k labels and points to t, which lies below. */
  ghost predicate Pointed(d: Bytes, w: Bytes, labels: Labels, k: nat, t: nat) {
    Proper(labels) && k <= |labels| && t < |d| && t <= 0x3fff && w == d + (Stem(labels[..k]) + Pointer(t)) && Sound(d, t, t)
  }

  /** The name written behind d is whole, or keeps some labels and ends in a pointer to a sound
      position strictly below it. */
  ghost predicate Written(d: Bytes, w: Bytes, labels: Labels) {
    Proper(labels) && (w == d + Flat(labels) || exists k: nat, t: nat :: Pointed(d, w, labels, k, t))
  }

  /** Whatever PushName writes is such a name. */
  lemma WrittenIsName(d: Bytes, w: Bytes, labels: Labels)
    requires Written(d, w, labels)
    ensures |d| <= |w| && w[..|d|] == d && DnsBuild.IsName(w[|d|..])
  {
    if w == d + Flat(labels) {
      StemIsName(labels, [0]);
      assert w[|d|..] == Flat(labels);
    } else {
      var k: nat, t: nat :| Pointed(d, w, labels, k, t);
      StemIsName(labels[..k], Pointer(t));
      assert w[|d|..] == Stem(labels[..k]) + Pointer(t);
    }
  }

  lemma NameIsWritten(d: Bytes, n: nat, same: Same, labels: Labels, c: Choice)
    requires Proper(labels) && Found(d, n, same, labels, c)
    ensures Written(d, d + NameOf(labels, c), labels) && Sound(d + NameOf(labels, c), |d|, |d|)
  {
    if c.Whole? {
      FlatSound(d, labels);
    } else {
      PointedSound(d, labels[..c.keep], c.at);
      assert Pointed(d, d + NameOf(labels, c), labels, c.keep, c.at);
    }
  }
}
