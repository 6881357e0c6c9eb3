/** The packet as names are pushed into it and expanded: the loops of dns_d_comp, dns_d_push,
    dns_p_dictadd and dns_d_expand (src/dns/dns.c). */
module DnsNameWriter {
  import opened Basics
  import opened DnsNames
  import opened DnsCompress

  // ----- the dictionary ------------------------------------------------------------------

  const DICTSIZE: nat := 16

  /** dns_l_skip */
  function LSkip(d: Bytes, p: nat): (q: nat)
    requires p < |d|
    ensures p < q <= |d|
  {
    var len := d[p] as int;
    if 0 < len < 0x40 && |d| - (p + 1) >= len then p + 1 + len else |d|
  }

  datatype Tail = Tail(target: nat) | NoPointer

  /** The pointer at the end of the name at dn, from label position p on; one at the very start does
      not count. */
  function TailOf(d: Bytes, dn: nat, p: nat): Tail
    decreases |d| - p
  {
    if p >= |d| then NoPointer
    else if d[p] >= 0xC0 && |d| - p >= 2 && p != dn then Tail(Target(d, p))
    else TailOf(d, dn, LSkip(d, p))
  }

  function IndexOf(dict: seq<nat>, t: nat): (i: nat)
    ensures i <= |dict| && (i < |dict| ==> dict[i] == t) && forall k :: 0 <= k < i ==> dict[k] != t
  {
    if dict == [] || dict[0] == t then 0 else 1 + IndexOf(dict[1..], t)
  }

  /** dns_p_dictadd: a name that ends in a pointer to an entry takes the place of that entry, any
      other name takes the next free place, if there is one */
  function DictAfter(d: Bytes, dict: seq<nat>, dn: nat): seq<nat> {
    var t := TailOf(d, dn, dn);
    if t.Tail? && t.target in dict then dict[IndexOf(dict, t.target) := dn]
    else if |dict| < DICTSIZE then dict + [dn] else dict
  }

  lemma DictKeeps(d: Bytes, dict: seq<nat>, dn: nat)
    ensures forall i :: 0 <= i < |DictAfter(d, dict, dn)| ==> DictAfter(d, dict, dn)[i] == dn || DictAfter(d, dict, dn)[i] in dict
    ensures |dict| <= DICTSIZE ==> |DictAfter(d, dict, dn)| <= DICTSIZE
  {
  }

  // ----- the packet ----------------------------------------------------------------------

  /** P->data up to P->end and P->dict; starts collects where names begin. */
  class NameWriter {
    var data: Bytes
    var dict: seq<nat>
    const size: nat
    const maxPtrs: nat       // DNS_D_MAXPTRS
    ghost var starts: set<nat>

    ghost predicate Valid()
      reads this
    {
      |dict| <= DICTSIZE && (forall s :: s in starts ==> Sound(data, s, s)) && forall i :: 0 <= i < |dict| ==> dict[i] in starts
    }

    constructor (header: Bytes, size: nat, maxPtrs: nat)
      ensures Valid() && data == header && dict == [] && starts == {} && this.size == size && this.maxPtrs == maxPtrs
    {
      data, dict, this.size, this.maxPtrs, starts := header, [], size, maxPtrs, {};
    }

    /** Anything that is not a name: header fields, type, class, ttl, lengths, addresses. */
    method Append(raw: Bytes)
      requires Valid()
      modifies this`data
      ensures Valid() && data == old(data) + raw
    {
      forall s | s in starts ensures Sound(data + raw, s, s) { SoundLonger(data, raw, s, s); }
      data := data + raw;
    }

    /** The comparison loop of dns_d_comp */
    method Compare(dst: Bytes, y: nat, a0: Bytes, z: nat, b0: Bytes, same: Same) returns (a: Bytes, b: Bytes)
      requires Sound(dst, y, 0)
      ensures (a, b) == CompareTo(data, dst, same, maxPtrs, y, a0, z, b0)
    {
      a, b := a0, b0;
      var ya: nat, yb: nat := y, z;
      while a != [] && b != [] && same(a, b)
        invariant a != [] ==> Sound(dst, ya, 0)
        invariant CompareTo(data, dst, same, maxPtrs, ya, a, yb, b) == CompareTo(data, dst, same, maxPtrs, y, a0, z, b0)
        decreases a != [], |dst| - ya
      {
        var l, r := LExpand(dst, ya, maxPtrs), LExpand(data, yb, maxPtrs);
        if l.bytes != [] { FlatLabel(dst, ya, maxPtrs); }
        a, ya := l.bytes, l.next;
        b, yb := r.bytes, r.next;
      }
    }

    /** The loop of dns_d_comp over one dictionary entry */
    method SearchEntry(dst: Bytes, ax: nat, a0: Bytes, entry: nat, same: Same) returns (found: bool, bp: nat, a: Bytes)
      requires Sound(data, entry, entry) && Sound(dst, ax, 0)
      ensures var h := Scan(data, maxPtrs, same, dst, ax, a0, Along(data, maxPtrs, entry, entry));
              found == h.Hit? && if found then bp == h.at else a == h.left
    {
      a, bp := a0, entry;
      ghost var bound: nat := entry;
      var b := LExpand(data, bp, maxPtrs);
      while b.bytes != []
        invariant b == LExpand(data, bp, maxPtrs) && Sound(data, bp, bound)
        invariant Scan(data, maxPtrs, same, dst, ax, a, Along(data, maxPtrs, bp, bound)) ==
                  Scan(data, maxPtrs, same, dst, ax, a0, Along(data, maxPtrs, entry, entry))
        decreases bound, |data| - bp
      {
        ghost var ps := Along(data, maxPtrs, bp, bound);
        LowerIs(data, bp, bound, maxPtrs);
        bound := Lower(data, bp, bound, maxPtrs);
        assert ps[0] == bp && ps[1..] == Along(data, maxPtrs, b.next, bound);
        var b';
        a, b' := Compare(dst, ax, a, b.next, b.bytes, same);
        if a == [] && b' == [] && bp <= 0x3fff { return true, bp, a; }
        bp := b.next;
        b := LExpand(data, bp, maxPtrs);
      }
      found := false;
    }

    /** The loop of dns_d_comp over the dictionary */
    method SearchEntries(dst: Bytes, ax: nat, a0: Bytes, same: Same) returns (found: bool, bp: nat)
      requires Starts(data, dict) && Sound(dst, ax, 0)
      ensures var h := Scan(data, maxPtrs, same, dst, ax, a0, Positions(data, maxPtrs, dict));
              found == h.Hit? && (found ==> bp == h.at)
    {
      var a := a0;
      found, bp := false, 0;
      var i := 0;
      while i < |dict|
        invariant 0 <= i <= |dict|
        invariant Scan(data, maxPtrs, same, dst, ax, a, Positions(data, maxPtrs, dict[i..])) ==
                  Scan(data, maxPtrs, same, dst, ax, a0, Positions(data, maxPtrs, dict))
      {
        assert dict[i..][0] == dict[i] && dict[i..][1..] == dict[i + 1..];
        ScanSplit(data, maxPtrs, same, dst, ax, a, Along(data, maxPtrs, dict[i], dict[i]), Positions(data, maxPtrs, dict[i + 1..]));
        found, bp, a := SearchEntry(dst, ax, a, dict[i], same);
        if found { return; }
        i := i + 1;
      }
      assert dict[i..] == [];
    }

    /** The search of dns_d_comp: how many labels to keep, and where the pointer leads */
    method Search(dst: Bytes, labels: Labels, same: Same) returns (found: bool, keep: nat, bp: nat)
      requires Starts(data, dict) && Proper(labels) && dst == Flat(labels)
      ensures var c := SearchFrom(data, maxPtrs, same, Positions(data, maxPtrs, dict), labels, 0);
              found == c.Point? && (found ==> keep == c.keep && bp == c.at)
    {
      ghost var ps := Positions(data, maxPtrs, dict);
      var ap: nat := 0;
      found, keep, bp := false, 0, 0;
      AtFirst(labels, dst);
      var a := LExpand(dst, ap, maxPtrs);
      while a.bytes != []
        invariant a == LExpand(dst, ap, maxPtrs) && Sound(dst, ap, 0) && Boundary(labels, keep, ap) && !found
        invariant SearchFrom(data, maxPtrs, same, ps, labels, keep) == SearchFrom(data, maxPtrs, same, ps, labels, 0)
        decreases |dst| - ap
      {
        FlatLabel(dst, ap, maxPtrs);
        Stepped(labels, keep, ap, dst, maxPtrs);
        assert a.next == Behind(labels, keep);
        found, bp := SearchEntries(dst, a.next, a.bytes, same);
        if found { return; }
        ap := a.next;
        keep := keep + 1;
        a := LExpand(dst, ap, maxPtrs);
      }
      NoLabelOnlyAtEnd(labels, keep, ap, dst, maxPtrs);
    }

    /** dns_d_comp and dns_d_push: the name is written as the search decides, and refused exactly if
        it does not fit */
    method PushName(labels: Labels, same: Same) returns (ok: bool)
      requires Valid() && Proper(labels)
      modifies this
      ensures Valid() && starts == if ok then old(starts) + {old(|data|)} else old(starts)
      ensures Starts(old(data), old(dict))
      ensures var c := Chosen(old(data), maxPtrs, same, old(dict), labels, size - old(|data|));
              Found(old(data), maxPtrs, same, labels, c) && ok == (old(|data|) + |NameOf(labels, c)| <= size) &&
              (ok ==> data == old(data) + NameOf(labels, c) && dict == DictAfter(data, old(dict), old(|data|)))
      ensures !ok ==> data == old(data) && dict == old(dict)
      ensures ok ==> Written(old(data), data, labels) && Sound(data, old(|data|), old(|data|))
      ensures ok && AllClean(old(data), maxPtrs, same, Positions(old(data), maxPtrs, old(dict)), labels) &&
              !LongRun(data, old(|data|), old(|data|), 0, maxPtrs) ==>
              Spelled(labels, Spell(data, old(|data|), old(|data|)), same)
    {
      var name := Flat(labels);
      var lim := size - |data|;
      ghost var c := Chosen(data, maxPtrs, same, dict, labels, lim);
      ChosenIs(data, maxPtrs, same, dict, labels, lim);
      NameIsWritten(data, maxPtrs, same, labels, c);
      if |name| < lim {
        var found, keep, bp := Search(name, labels, same);
        if found { name := Stem(labels[..keep]) + Pointer(bp); }
      }
      assert name == NameOf(labels, c);
      if |name| > lim { return false; }
      forall s | s in starts ensures Sound(data + name, s, s) { SoundLonger(data, name, s, s); }
      var dp := |data|;
      CleanPush(data, maxPtrs, same, dict, labels, lim, data + name);
      data := data + name;
      starts := starts + {dp};
      DictAdd(dp);
      ok := true;
    }

    /** dns_p_dictadd */
    method DictAdd(dn: nat)
      requires Valid() && dn in starts
      modifies this`dict
      ensures Valid() && dict == DictAfter(data, old(dict), dn)
    {
      DictKeeps(data, dict, dn);
      var lp := dn;
      while lp < |data|
        invariant dict == old(dict)
        invariant TailOf(data, dn, lp) == TailOf(data, dn, dn) ||
                  (TailOf(data, dn, dn).Tail? && TailOf(data, dn, dn).target !in dict && lp >= |data|)
        decreases |data| - lp
      {
        if data[lp] >= 0xC0 && |data| - lp >= 2 && lp != dn {
          var i := FindEntry(Target(data, lp));
          if i < |dict| {
            dict := dict[i := dn];
            return;
          }
        }
        lp := LSkip(data, lp);
      }
      if |dict| < DICTSIZE { dict := dict + [dn]; }
    }

    method FindEntry(t: nat) returns (i: nat)
      ensures i == IndexOf(dict, t)
    {
      i := 0;
      while i < |dict| && dict[i] != t
        invariant i <= |dict| && IndexOf(dict, t) == i + IndexOf(dict[i..], t)
      {
        assert dict[i..][1..] == dict[i + 1..];
        i := i + 1;
      }
    }

    /** dns_d_expand: on every name it ends, with the labels the name spells; it fails exactly on
        more than maxPtrs pointers in a row */
    method Expand(s: nat) returns (ok: bool, labels: Labels)
      requires Valid() && s in starts
      ensures Sound(data, s, s) && (ok <==> !LongRun(data, s, s, 0, maxPtrs))
      ensures ok ==> labels == Spell(data, s, s)
    {
      var p: nat, nptrs: nat := s, 0;
      labels := [];
      ghost var bound: nat := s;
      while true
        invariant Sound(data, p, bound) && labels + Spell(data, p, bound) == Spell(data, s, s)
        invariant LongRun(data, p, bound, nptrs, maxPtrs) == LongRun(data, s, s, 0, maxPtrs)
        decreases bound, |data| - p
      {
        if data[p] == 0 { return true, labels; }
        if data[p] < 0x40 {
          var len := data[p] as int;
          labels := labels + [data[p + 1..p + 1 + len]];
          p := p + 1 + len;
          nptrs := 0;
        } else {
          nptrs := nptrs + 1;
          if nptrs > maxPtrs { return false, []; }
          p := Target(data, p);
          bound := p;
        }
      }
    }
  }

  lemma CleanPush(d: Bytes, n: nat, same: Same, dict: seq<nat>, labels: Labels, lim: int, w: Bytes)
    requires Starts(d, dict) && Proper(labels)
    requires var c := Chosen(d, n, same, dict, labels, lim);
             Found(d, n, same, labels, c) && w == d + NameOf(labels, c) && Sound(w, |d|, |d|)
    ensures AllClean(d, n, same, Positions(d, n, dict), labels) && !LongRun(w, |d|, |d|, 0, n) ==>
              Spelled(labels, Spell(w, |d|, |d|), same)
  {
    if AllClean(d, n, same, Positions(d, n, dict), labels) && !LongRun(w, |d|, |d|, 0, n) {
      CleanIsSpelled(d, n, same, dict, labels, lim, w);
    }
  }

  lemma NoLabelOnlyAtEnd(labels: Labels, k: nat, ap: nat, dst: Bytes, n: nat)
    requires Boundary(labels, k, ap) && dst == Flat(labels) && LExpand(dst, ap, n).bytes == []
    ensures k == |labels|
  {
    if k < |labels| {
      LabelInFlat(labels, k, ap, dst);
      LabelRead(dst, ap, labels[k], n);
    }
  }
}
