/** When compression takes place, and what the dictionary remembers (src/dns/dns.c:1711-1740,
    2278-2313). */
module DnsReuse {
  import opened Basics
  import opened DnsNames
  import opened DnsCompress
  import opened DnsNameWriter

  // ----- equal names match ---------------------------------------------------------------

  /** A comparison of names that are the same label for label runs to the end of both. */
  lemma {:induction false} CompareRuns(d: Bytes, dst: Bytes, same: Same, n: nat, ya: nat, a: Bytes,
                                       yb: nat, b: Bytes, bound: nat, x: Labels, y: Labels)
    requires a != [] ==> Sound(dst, ya, 0)
    requires Facing(dst, ya, a, 0, n, x) && Facing(d, yb, b, bound, n, y) && SameNames(x, y, same)
    ensures CompareTo(d, dst, same, n, ya, a, yb, b) == ([], [])
    decreases |x|
  {
    if a != [] && b != [] {
      assert x[0] == a && y[0] == b;
      var l, r := LExpand(dst, ya, n), LExpand(d, yb, n);
      var zero := NextFacing(dst, ya, a, 0, n, x);
      var bound' := NextFacing(d, yb, b, bound, n, y);
      if l.bytes != [] { FlatLabel(dst, ya, n); SpellBound(dst, l.next, zero, 0); }
      CompareRuns(d, dst, same, n, l.next, l.bytes, r.next, r.bytes, bound', x[1..], y[1..]);
    }
  }

  /** A position matches if and only if what it spells is the same as the label looked for and those
      behind it, and a pointer can reach it. */
  lemma MatchIff(d: Bytes, dst: Bytes, same: Same, n: nat, ax: nat, a: Bytes, p: nat)
    requires Sound(dst, ax, 0) && a != [] && Usable(d, n, p) && !LongRun(d, p, p, 0, n)
    ensures Matches(d, n, same, dst, ax, a, p) <==> p <= 0x3fff && SameNames([a] + Spell(dst, ax, 0), Spell(d, p, p), same)
  {
    var b, x, y := LExpand(d, p, n), [a] + Spell(dst, ax, 0), Spell(d, p, p);
    if Matches(d, n, same, dst, ax, a, p) { MatchSpells(d, dst, same, n, ax, a, p); }
    if SameNames(x, y, same) {
      FlatHasNoRun(dst, ax, 0, n);
      var bound' := ExpandSpells(d, p, p, 0, n);
      assert y == [y[0]] + y[1..];
      CompareRuns(d, dst, same, n, ax, a, b.next, b.bytes, bound', x, y);
    }
  }

  // ----- the first label that matches ----------------------------------------------------

  /** A clean scan finds something if one of its positions matches. */
  lemma {:induction false} ScanFinds(d: Bytes, n: nat, same: Same, dst: Bytes, ax: nat, a: Bytes, ps: seq<nat>, i: nat)
    requires Sound(dst, ax, 0) && a != [] && Clean(d, n, same, dst, ax, a, ps) && i < |ps|
    requires Matches(d, n, same, dst, ax, a, ps[i])
    requires forall j :: 0 <= j < |ps| ==> LExpand(d, ps[j], n).bytes != []
    ensures Scan(d, n, same, dst, ax, a, ps).Hit?
    decreases |ps|
  {
    if !Matches(d, n, same, dst, ax, a, ps[0]) {
      var before := Before(d, n, same, dst, ax, a, ps);
      assert before[0] == ps[0] && ps[0] in before;
      assert Left(d, n, same, dst, ax, a, ps[0]) == a;
      assert before[1..] == Before(d, n, same, dst, ax, a, ps[1..]);
      ScanFinds(d, n, same, dst, ax, a, ps[1..], i - 1);
    }
  }

  /** The search settles for the first label, and so for the longest end of the name, for which a scan
      finds something. */
  lemma {:induction false} ChosenIsFirst(d: Bytes, n: nat, same: Same, ps: seq<nat>, labels: Labels, k: nat, j: nat)
    requires Proper(labels) && k <= j < |labels|
    requires Scan(d, n, same, Flat(labels), Behind(labels, j), labels[j], ps).Hit?
    ensures SearchFrom(d, n, same, ps, labels, k).Point? && SearchFrom(d, n, same, ps, labels, k).keep <= j
    decreases j - k
  {
    if k < j && Scan(d, n, same, Flat(labels), Behind(labels, k), labels[k], ps).Miss? {
      ChosenIsFirst(d, n, same, ps, labels, k + 1, j);
    }
  }

  /** A name whose end from label j on stands in the packet, at a position along an entry of the
      dictionary, is never written again from there: if the scan for label j is clean, at most j labels
      are kept in front of a pointer. */
  lemma EndIsReused(d: Bytes, n: nat, same: Same, dict: seq<nat>, labels: Labels, lim: int, j: nat, p: nat)
    requires Starts(d, dict) && Proper(labels) && j < |labels| && |Flat(labels)| < lim && p <= 0x3fff
    requires p in Positions(d, n, dict) && Sound(d, p, p) && !LongRun(d, p, p, 0, n) && SameNames(labels[j..], Spell(d, p, p), same)
    requires Clean(d, n, same, Flat(labels), Behind(labels, j), labels[j], Positions(d, n, dict))
    ensures Chosen(d, n, same, dict, labels, lim).Point? && Chosen(d, n, same, dict, labels, lim).keep <= j
  {
    var ps, ax := Positions(d, n, dict), Behind(labels, j);
    forall i | 0 <= i < |ps| ensures Usable(d, n, ps[i]) { PositionsUsable(d, n, dict, ps[i]); }
    var i :| 0 <= i < |ps| && ps[i] == p;
    SpellRest(labels, j + 1, Flat(labels), ax);
    assert labels[j..] == [labels[j]] + labels[j + 1..];
    MatchIff(d, Flat(labels), same, n, ax, labels[j], p);
    ScanFinds(d, n, same, Flat(labels), ax, labels[j], ps, i);
    ChosenIsFirst(d, n, same, ps, labels, 0, j);
  }

  // ----- pointers in a row ---------------------------------------------------------------

  /** From each position but the last a pointer leads to the next, and the last is the root. */
  ghost predicate Chain(d: Bytes, ps: seq<nat>) {
    ps != [] && (forall i :: 0 <= i < |ps| ==> ps[i] < |d|) && d[ps[|ps| - 1]] == 0 &&
    forall i, j {:trigger ps[i], ps[j]} :: 0 <= i && j == i + 1 < |ps| ==> d[ps[i]] >= 0xC0 && ps[i] + 2 <= |d| && Target(d, ps[i]) == ps[j]
  }

  /** Pointers that follow each other directly are allowed up to the limit, which is 127, and not
      beyond. */
  lemma {:induction false} ChainLimit(d: Bytes, ps: seq<nat>, j: nat, bound: nat, k: nat, most: nat)
    requires Chain(d, ps) && j < |ps| && Sound(d, ps[j], bound) && k <= most
    ensures LongRun(d, ps[j], bound, k, most) <==> k + (|ps| - 1 - j) > most
    decreases |ps| - j
  {
    if j + 1 < |ps| {
      var i := j + 1;
      assert ps[i] < |d| && d[ps[j]] >= 0xC0;
      if k + 1 <= most { ChainLimit(d, ps, i, ps[i], k + 1, most); }
    }
  }

  // ----- the dictionary ------------------------------------------------------------------

  /** Labels are stepped over. */
  lemma {:induction false} TailBehind(w: Bytes, dn: nat, p: nat, labels: Labels, e: nat)
    requires Lays(w, p, labels, e) && e < |w|
    ensures TailOf(w, dn, p) == TailOf(w, dn, e)
    decreases |labels|
  {
    if labels != [] {
      var q := p + 1 + |labels[0]|;
      LaysBefore(w, q, labels[1..], e);
      TailBehind(w, dn, q, labels[1..], e);
    }
  }

  lemma {:induction false} LaysBefore(w: Bytes, p: nat, labels: Labels, e: nat)
    requires Lays(w, p, labels, e)
    ensures p <= e
    decreases |labels|
  {
    if labels != [] { LaysBefore(w, p + 1 + |labels[0]|, labels[1..], e); }
  }

  /** A name written whole takes the next free place of the 16, if there is one. */
  lemma WholeIsEntered(d: Bytes, dict: seq<nat>, labels: Labels, w: Bytes)
    requires Proper(labels) && w == d + Flat(labels)
    ensures DictAfter(w, dict, |d|) == if |dict| < 16 then dict + [|d|] else dict
  {
    var e := |d| + |Stem(labels)|;
    assert w[|d|..e] == Stem(labels) && w[e] == 0;
    StemLays(w, |d|, e, labels);
    TailBehind(w, |d|, |d|, labels, e);
    assert TailOf(w, |d|, e) == NoPointer;
  }

  /** A name that keeps some labels in front of a pointer to an entry takes the place of that entry,
      so that it is looked at instead; one that is a pointer only, or points elsewhere, takes the next
      free place. */
  lemma PointedIsEntered(d: Bytes, dict: seq<nat>, labels: Labels, k: nat, t: nat, w: Bytes)
    requires Pointed(d, w, labels, k, t)
    ensures k > 0 && t in dict ==>
              exists i :: 0 <= i < |dict| && dict[i] == t && t !in dict[..i] && DictAfter(w, dict, |d|) == dict[i := |d|]
    ensures k == 0 || t !in dict ==> DictAfter(w, dict, |d|) == if |dict| < 16 then dict + [|d|] else dict
  {
    var e := |d| + |Stem(labels[..k])|;
    AtPointer(d, Stem(labels[..k]), t, w, e);
    StemLays(w, |d|, e, labels[..k]);
    TailBehind(w, |d|, |d|, labels[..k], e);
    if k == 0 {
      assert TailOf(w, |d|, e) == TailOf(w, |d|, |w|);
    } else {
      StemGrows(labels[..k]);
      assert TailOf(w, |d|, e) == Tail(t);
    }
    if k > 0 && t in dict {
      var i := IndexOf(dict, t);
      assert dict[i] == t && t !in dict[..i];
    }
  }

  lemma StemGrows(labels: Labels)
    requires Proper(labels) && labels != []
    ensures |Stem(labels)| > 0
  {
  }
}
