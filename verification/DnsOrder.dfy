/** What an iteration asks for and in which order, told by the numbers of the records in the packet
    and not by what the memo says; and what the walk over records does with bytes that are none. */
module DnsOrder {
  import opened Basics
  import opened DnsPacket
  import opened DnsBuild
  import opened DnsShuffle
  import opened DnsRecords
  import opened DnsIteration

  // ----- sections ------------------------------------------------------------------------

  /** With a blank memo or a studied one, record k of any packet is in the section its number says. */
  lemma SectionIs(d: Bytes, c: Counts, m: Memo, k: nat)
    requires 12 <= |d| && BlankOrStudied(d, c, m) && Nth(d, c, k) < |d|
    ensures SectionOf(d, c, m, Nth(d, c, k)) == SectionAt(c, k)
  {
    MemoIsRecount(d, c, k, m.opt);
  }

  /** What matches: a record that can be parsed, lies in one of the sections asked for (or none are
      named), and passes the other checks. */
  lemma MatchIs(d: Bytes, c: Counts, m: Memo, mask: set<Section>, other: nat -> bool, k: nat)
    requires 12 <= |d| && BlankOrStudied(d, c, m) && Nth(d, c, k) < |d|
    ensures var rp := Nth(d, c, k);
            Match(d, c, m, mask, other)(rp) <==>
            Parse(d, QEnd(d, c.qd), rp).Some? && (mask == {} || SectionAt(c, k) in mask) && other(rp)
  {
    SectionIs(d, c, m, k);
  }

  /** An iteration delivers exactly the records asked for. */
  lemma DeliveredAsked(d: Bytes, c: Counts, m: Memo, mask: set<Section>, other: nat -> bool, key: nat -> int, out: seq<nat>, k: nat)
    requires 12 <= |d| && BlankOrStudied(d, c, m) && Nth(d, c, k) < |d|
    requires Delivered(d, c, Match(d, c, m, mask, other), key, out)
    ensures var rp := Nth(d, c, k);
            rp in out <==> Parse(d, QEnd(d, c.qd), rp).Some? && (mask == {} || SectionAt(c, k) in mask) && other(rp)
  {
    MatchIs(d, c, m, mask, other, k);
    HitsAreRecords(d, c, Match(d, c, m, mask, other), Nth(d, c, k));
  }

  /** And nothing but records. */
  lemma DeliveredRecords(d: Bytes, c: Counts, hit: nat -> bool, key: nat -> int, out: seq<nat>, rp: nat) returns (k: nat)
    requires 12 <= |d| && Delivered(d, c, hit, key, out) && rp in out
    ensures Nth(d, c, k) == rp < |d|
  {
    HitsAreRecords(d, c, hit, rp);
    k :| Nth(d, c, k) == rp;
  }

  /** The shuffled order: records of different sections come in the order of the packet, records of one
      section in the order of dns_k_shuffle16 of their positions. */
  lemma ShuffledOrder(d: Bytes, c: Counts, m: Memo, j: nat, k: nat, seed: seq<bv8>)
    requires 12 <= |d| <= 65535 && BlankOrStudied(d, c, m) && Nth(d, c, j) < |d| && Nth(d, c, k) < |d|
    requires j < Total(c) && k < Total(c)
    ensures var x, y, key := Nth(d, c, j), Nth(d, c, k), ShuffleKey(d, c, m, Ranking(seed));
            key(x) < key(y) <==> if SectionAt(c, j) == SectionAt(c, k) then Shuffle(x, seed) < Shuffle(y, seed) else j < k
  {
    KeyIs(d, c, m, j, seed);
    KeyIs(d, c, m, k, seed);
    BySection(SectionAt(c, j), SectionAt(c, k), Shuffle(Nth(d, c, j), seed), Shuffle(Nth(d, c, k), seed));
    if SectionAt(c, j) != SectionAt(c, k) { ByNumber(c, j, k); }
  }

  lemma KeyIs(d: Bytes, c: Counts, m: Memo, k: nat, seed: seq<bv8>)
    requires 12 <= |d| <= 65535 && BlankOrStudied(d, c, m) && Nth(d, c, k) < |d|
    ensures ShuffleKey(d, c, m, Ranking(seed))(Nth(d, c, k)) == 65536 * Bit(SectionAt(c, k)) + Shuffle(Nth(d, c, k), seed)
    ensures 0 <= Shuffle(Nth(d, c, k), seed) < 65536
  {
    SectionIs(d, c, m, k);
    ShuffleRange(Nth(d, c, k), seed);
  }

  lemma ByNumber(c: Counts, j: nat, k: nat)
    requires SectionAt(c, j) != SectionAt(c, k)
    ensures Place(SectionAt(c, j)) < Place(SectionAt(c, k)) <==> j < k
  {
    if j <= k { InOrder(c, j, k); } else { InOrder(c, k, j); }
  }

  function Place(s: Section): nat {
    match s
    case QD => 0
    case AN => 1
    case NS => 2
    case AR => 3
    case NoSection => 4
  }

  lemma InOrder(c: Counts, j: nat, k: nat)
    requires j <= k
    ensures Place(SectionAt(c, j)) <= Place(SectionAt(c, k))
  {
  }

  lemma BySection(s: Section, t: Section, a: int, b: int)
    requires s != NoSection && t != NoSection && 0 <= a < 65536 && 0 <= b < 65536
    ensures 65536 * Bit(s) + a < 65536 * Bit(t) + b <==> Place(s) < Place(t) || (s == t && a < b)
  {
  }

  // ----- the OPT record ------------------------------------------------------------------

  /** Record k is an OPT record of the additional section. */
  predicate IsOpt(d: Bytes, c: Counts, k: nat)
    requires 12 <= |d|
  {
    Nth(d, c, k) < |d| && SectionAt(c, k) == AR && Parse(d, QEnd(d, c.qd), Nth(d, c, k)).Some? &&
    Parse(d, QEnd(d, c.qd), Nth(d, c, k)).value.typ == 41
  }

  lemma NthNext(d: Bytes, c: Counts, k: nat)
    requires 12 <= |d| && Nth(d, c, k) < |d|
    ensures Nth(d, c, k + 1) == Skip(d, QEnd(d, c.qd), Nth(d, c, k))
  {
    AheadAdds(d, QEnd(d, c.qd), 12, k, 1);
    assert Ahead(d, QEnd(d, c.qd), Skip(d, QEnd(d, c.qd), Nth(d, c, k)), 0) == Skip(d, QEnd(d, c.qd), Nth(d, c, k));
  }

  /** On any packet, the study remembers the first OPT record of the additional section, with its class
      and ttl. */
  lemma {:induction false} OptIsFirst(d: Bytes, c: Counts, m: Memo, k: nat, j: nat)
    requires 12 <= |d| && BlankOrStudied(d, c, m) && k <= j && IsOpt(d, c, j)
    requires forall i: nat :: k <= i < j ==> !IsOpt(d, c, i)
    ensures var r := Parse(d, QEnd(d, c.qd), Nth(d, c, j)).value;
            FindOpt(d, c, m, Nth(d, c, k)) == OptMemo(Nth(d, c, j), r.class_, r.ttl)
    decreases j - k
  {
    if k < j { EarlierStarts(d, c, k, j); }
    SectionIs(d, c, m, k);
    if k < j {
      assert !IsOpt(d, c, k);
      NthNext(d, c, k);
      OptIsFirst(d, c, m, k + 1, j);
    }
  }

  lemma EarlierStarts(d: Bytes, c: Counts, k: nat, j: nat)
    requires 12 <= |d| && k < j && Nth(d, c, j) < |d|
    ensures Nth(d, c, k) < |d|
  {
    AheadAdds(d, QEnd(d, c.qd), 12, k, j - k);
  }

  // ----- bytes that are no record --------------------------------------------------------

  /** Stepping over a name that ends before the packet does steps over a name: labels of at most 63
      bytes and a zero, or a pointer.  Anything else, a reserved label type or a label that is cut off,
      leads to the end. */
  lemma {:induction false} SkippedIsName(d: Bytes, s: nat)
    requires s < |d| && DSkip(d, s) < |d|
    ensures IsName(d[s..DSkip(d, s)])
    decreases |d| - s
  {
    var e := DSkip(d, s);
    var n := d[s..e];
    if 0 < d[s] < 0x40 {
      var t := s + 1 + d[s] as int;
      SkippedIsName(d, t);
      Slice(d, s, e, 1 + d[s] as int, |n|);
    }
  }

  /** A record that cannot be parsed ends the walk over the packet. */
  lemma UnparsedIsLast(d: Bytes, q: nat, s: nat)
    requires s < |d| && Parse(d, q, s).None?
    ensures Skip(d, q, s) == |d|
  {
  }

  /** A record behind the questions that can be parsed ends where its name, its ten fixed bytes and its
      data end. */
  lemma ParsedEnds(d: Bytes, q: nat, s: nat)
    requires q <= s < |d| && Parse(d, q, s).Some?
    ensures var p := DSkip(d, s);
            p + 10 <= |d| && Skip(d, q, s) == p + 10 + 256 * (d[p + 8] as nat) + d[p + 9] as nat
  {
  }
}
