/** What the record iterator delivers on any packet, with a blank memo or a studied one. */
module DnsIteration {
  import opened Basics
  import opened DnsPacket
  import opened NextInOrder
  import opened DnsShuffle
  import opened DnsRecords

  // ----- matching and order --------------------------------------------------------------

  /** dns_rr_parse and dns_rr_i_match: mask are the sections asked for (none means all), other
      stands for the checks of type, class, name and data */
  function Match(d: Bytes, c: Counts, m: Memo, mask: set<Section>, other: nat -> bool): nat -> bool
    requires 12 <= |d|
  {
    (rp: nat) => rp < |d| && Parse(d, QEnd(d, c.qd), rp).Some? && (mask == {} || SectionOf(d, c, m, rp) in mask) && other(rp)
  }

  /** The values of enum dns_section */
  function Bit(s: Section): nat {
    match s
    case QD => 1
    case AN => 2
    case NS => 4
    case AR => 8
    case NoSection => 0
  }

  /** What dns_rr_i_packet compares */
  function OffsetKey(): nat -> int { (rp: nat) => rp }

  /** What dns_rr_i_shuffle compares; rank is dns_k_shuffle16 for the iterator's seed */
  function ShuffleKey(d: Bytes, c: Counts, m: Memo, rank: Short -> int): nat -> int
    requires 12 <= |d|
  {
    (rp: nat) => if rp < 65536 then 65536 * Bit(SectionOf(d, c, m, rp)) + rank(rp) else -1
  }

  /** Where dns_rr_i_start begins */
  function StartAt(m: Memo, mask: set<Section>): nat {
    if QD in mask && m.qd.base != 0 then m.qd.base
    else if AN in mask && m.an.base != 0 then m.an.base
    else if NS in mask && m.ns.base != 0 then m.ns.base
    else if AR in mask && m.ar.base != 0 then m.ar.base
    else 12
  }

  ghost predicate BlankOrStudied(d: Bytes, c: Counts, m: Memo)
    requires 12 <= |d|
  {
    m == BLANK || m == Ranges(d, c, m.opt)
  }

  // ----- record starts -------------------------------------------------------------------

  lemma {:induction false} MissesSkipped(d: Bytes, q: nat, hit: nat -> bool, base: nat, n: nat)
    requires base <= |d|
    requires forall k: nat {:trigger Ahead(d, q, base, k)} :: k < n && Ahead(d, q, base, k) < |d| ==> !hit(Ahead(d, q, base, k))
    ensures Hits(d, q, hit, Ahead(d, q, base, n)) == Hits(d, q, hit, base)
    decreases n
  {
    if n > 0 && base < |d| {
      assert Ahead(d, q, base, 0) == base;
      var next := Skip(d, q, base);
      forall k: nat | k < n - 1 && Ahead(d, q, next, k) < |d| ensures !hit(Ahead(d, q, next, k)) {
        assert Ahead(d, q, base, k + 1) == Ahead(d, q, next, k);
      }
      MissesSkipped(d, q, hit, next, n - 1);
    }
  }

  lemma {:induction false} HitsCover(d: Bytes, q: nat, hit: nat -> bool, base: nat, k: nat)
    requires base <= |d| && Ahead(d, q, base, k) < |d| && hit(Ahead(d, q, base, k))
    ensures Ahead(d, q, base, k) in Hits(d, q, hit, base)
    decreases k
  {
    if k > 0 { HitsCover(d, q, hit, Skip(d, q, base), k - 1); }
  }

  lemma {:induction false} HitsOnly(d: Bytes, q: nat, hit: nat -> bool, base: nat, rp: nat) returns (k: nat)
    requires base <= |d| && rp in Hits(d, q, hit, base)
    ensures Ahead(d, q, base, k) == rp < |d| && hit(rp)
    decreases |d| - base
  {
    if rp == base && hit(base) {
      k := 0;
    } else {
      k := HitsOnly(d, q, hit, Skip(d, q, base), rp);
      k := k + 1;
    }
  }

  /** The matches are exactly the record starts that match. */
  lemma HitsAreRecords(d: Bytes, c: Counts, hit: nat -> bool, rp: nat)
    requires 12 <= |d|
    ensures rp in Hits(d, QEnd(d, c.qd), hit, 12) <==> rp < |d| && hit(rp) && exists k: nat :: Nth(d, c, k) == rp
  {
    var q := QEnd(d, c.qd);
    if rp in Hits(d, q, hit, 12) {
      var k := HitsOnly(d, q, hit, 12, rp);
      assert Nth(d, c, k) == rp;
    }
    if k: nat :| Nth(d, c, k) == rp && rp < |d| && hit(rp) { HitsCover(d, q, hit, 12, k); }
  }

  // ----- starting at the memo loses nothing ----------------------------------------------

  /** With a mask that excludes the sections in front, no record in front matches. */
  lemma NoneInFront(d: Bytes, c: Counts, m: Memo, mask: set<Section>, other: nat -> bool, n: nat)
    requires 12 <= |d| && mask != {} && m == Ranges(d, c, m.opt)
    requires forall k: nat :: k < n ==> SectionAt(c, k) !in mask
    ensures Hits(d, QEnd(d, c.qd), Match(d, c, m, mask, other), Nth(d, c, n)) ==
            Hits(d, QEnd(d, c.qd), Match(d, c, m, mask, other), 12)
  {
    var q, hit := QEnd(d, c.qd), Match(d, c, m, mask, other);
    forall k: nat | k < n && Ahead(d, q, 12, k) < |d| ensures !hit(Ahead(d, q, 12, k)) {
      assert Nth(d, c, k) == Ahead(d, q, 12, k);
      MemoIsRecount(d, c, k, m.opt);
    }
    MissesSkipped(d, q, hit, 12, n);
  }

  lemma StartLosesNothing(d: Bytes, c: Counts, m: Memo, mask: set<Section>, other: nat -> bool)
    requires 12 <= |d| && BlankOrStudied(d, c, m) && NoSection !in mask
    ensures StartAt(m, mask) <= |d|
    ensures Hits(d, QEnd(d, c.qd), Match(d, c, m, mask, other), StartAt(m, mask)) ==
            Hits(d, QEnd(d, c.qd), Match(d, c, m, mask, other), 12)
  {
    if m != BLANK && mask != {} && QD !in mask {
      var a, n := c.qd + c.an, c.qd + c.an + c.ns;
      RangesAreRuns(d, c, m.opt, a, n, n + c.ar);
      var k := if AN in mask then c.qd else if NS in mask then a else n;
      NoneInFront(d, c, m, mask, other, k);
      if AN !in mask && NS !in mask && AR !in mask { OnlyNone(mask); }
    }
  }

  lemma OnlyNone(mask: set<Section>)
    requires QD !in mask && AN !in mask && NS !in mask && AR !in mask && NoSection !in mask
    ensures mask == {}
  {
    forall s: Section ensures s !in mask {
      match s
      case QD =>
      case AN =>
      case NS =>
      case AR =>
      case NoSection =>
    }
  }

  // ----- keys are different --------------------------------------------------------------

  lemma OffsetsDiffer(d: Bytes, q: nat, hit: nat -> bool)
    requires 12 <= |d|
    ensures AllDifferent(Keys(Hits(d, q, hit, 12), OffsetKey()))
  {
    HitsRise(d, q, hit, 12);
  }

  lemma ShufflesDiffer(d: Bytes, c: Counts, m: Memo, hit: nat -> bool, rank: Short -> int)
    requires 12 <= |d| <= 65535 && Ranks(rank)
    ensures AllDifferent(Keys(Hits(d, QEnd(d, c.qd), hit, 12), ShuffleKey(d, c, m, rank)))
  {
    var hits, key := Hits(d, QEnd(d, c.qd), hit, 12), ShuffleKey(d, c, m, rank);
    HitsRise(d, QEnd(d, c.qd), hit, 12);
    forall i, j | 0 <= i < j < |hits| ensures key(hits[i]) != key(hits[j]) {
      ShuffleKeyDiffers(hits[i], hits[j], Bit(SectionOf(d, c, m, hits[i])), Bit(SectionOf(d, c, m, hits[j])), rank);
    }
  }

  lemma ShuffleKeyDiffers(x: nat, y: nat, s: nat, t: nat, rank: Short -> int)
    requires x < y < 65536 && Ranks(rank)
    ensures 65536 * s + rank(x) != 65536 * t + rank(y)
  {
  }

  // ----- theorem -------------------------------------------------------------------------

  /** Iterating to the end delivers each matching record of the packet exactly once, and nothing
      else, in increasing order of the keys. */
  ghost predicate Delivered(d: Bytes, c: Counts, hit: nat -> bool, key: nat -> int, out: seq<nat>)
    requires 12 <= |d|
  {
    (forall i, j :: 0 <= i < j < |out| ==> out[i] != out[j] && key(out[i]) < key(out[j])) &&
    forall rp :: rp in out <==> rp in Hits(d, QEnd(d, c.qd), hit, 12)
  }

  lemma RestDelivers(d: Bytes, c: Counts, hit: nat -> bool, key: nat -> int, hits: seq<nat>, w: seq<nat>)
    requires 12 <= |d| && hits == Hits(d, QEnd(d, c.qd), hit, 12) && AllDifferent(Keys(hits, key))
    requires Exact(Keys(hits, key), w)
    ensures Delivered(d, c, hit, key, Visited(hits, w))
  {
    var keys, out := Keys(hits, key), Visited(hits, w);
    HitsRise(d, QEnd(d, c.qd), hit, 12);
    forall i, j | 0 <= i < j < |out| ensures out[i] != out[j] && key(out[i]) < key(out[j]) {
      assert keys[w[i]] < keys[w[j]];
    }
    forall rp | rp in hits ensures rp in out {
      var p: nat :| p < |hits| && hits[p] == rp;
      assert p in w;
      var i :| 0 <= i < |w| && w[i] == p;
      assert out[i] == rp;
    }
    forall rp | rp in out ensures rp in hits {
      var i :| 0 <= i < |out| && out[i] == rp;
      assert rp == hits[w[i]];
    }
  }

  /** On any packet of at most 65535 bytes, with a blank or studied memo and whatever the match
      asks for: in packet order the matches come in the order of their positions. */
  lemma PacketOrderIsExact(d: Bytes, c: Counts, m: Memo, mask: set<Section>, other: nat -> bool)
    requires 12 <= |d| && BlankOrStudied(d, c, m)
    ensures var hit, key := Match(d, c, m, mask, other), OffsetKey();
            var hits := Hits(d, QEnd(d, c.qd), hit, 12);
            Delivered(d, c, hit, key, Rest(hits, key, First(Keys(hits, key))))
  {
    var hit, key := Match(d, c, m, mask, other), OffsetKey();
    var hits := Hits(d, QEnd(d, c.qd), hit, 12);
    OffsetsDiffer(d, QEnd(d, c.qd), hit);
    WalkIsExact(Keys(hits, key));
    RestDelivers(d, c, hit, key, hits, Walk(Keys(hits, key), First(Keys(hits, key))));
  }

  /** In shuffled order they come section by section, in the order of dns_k_shuffle16 within
      each, whatever the seed. */
  lemma ShuffledOrderIsExact(d: Bytes, c: Counts, m: Memo, mask: set<Section>, other: nat -> bool, seed: seq<bv8>)
    requires 12 <= |d| <= 65535 && BlankOrStudied(d, c, m)
    ensures var hit, key := Match(d, c, m, mask, other), ShuffleKey(d, c, m, Ranking(seed));
            var hits := Hits(d, QEnd(d, c.qd), hit, 12);
            Delivered(d, c, hit, key, Rest(hits, key, First(Keys(hits, key))))
  {
    var hit, key := Match(d, c, m, mask, other), ShuffleKey(d, c, m, Ranking(seed));
    var hits := Hits(d, QEnd(d, c.qd), hit, 12);
    RankingRanks(seed);
    ShufflesDiffer(d, c, m, hit, Ranking(seed));
    WalkIsExact(Keys(hits, key));
    RestDelivers(d, c, hit, key, hits, Walk(Keys(hits, key), First(Keys(hits, key))));
  }

  /** A whole iteration, asking for lim records at a time, as callers of dns_rr_grep do. */
  method Iterate(d: Bytes, c: Counts, m: Memo, mask: set<Section>, other: nat -> bool, seed: seq<bv8>, shuffled: bool, lim: nat)
    returns (out: seq<nat>)
    requires 12 <= |d| <= 65535 && BlankOrStudied(d, c, m) && NoSection !in mask && lim > 0
    ensures Delivered(d, c, Match(d, c, m, mask, other), if shuffled then ShuffleKey(d, c, m, Ranking(seed)) else OffsetKey(), out)
  {
    var q, hit := QEnd(d, c.qd), Match(d, c, m, mask, other);
    var key := if shuffled then ShuffleKey(d, c, m, Ranking(seed)) else OffsetKey();
    StartLosesNothing(d, c, m, mask, other);
    if shuffled {
      RankingRanks(seed);
      ShufflesDiffer(d, c, m, hit, Ranking(seed));
      ShuffledOrderIsExact(d, c, m, mask, other, seed);
    } else {
      OffsetsDiffer(d, q, hit);
      PacketOrderIsExact(d, c, m, mask, other);
    }
    var i := new RecordIterator(d, q, hit, key, !shuffled, StartAt(m, mask));
    ghost var hits := Hits(d, q, hit, 12);
    assert i.Remaining() == Rest(hits, key, First(Keys(hits, key)));
    out := Drain(i, lim);
  }

  lemma DrainStep(all: seq<nat>, out: seq<nat>, rest: seq<nat>, some: seq<nat>, rest': seq<nat>, lim: nat)
    requires out + rest == all && some == Take(rest, lim) && rest' == rest[|some|..] && lim > 0
    ensures out + some + rest' == all && (some == [] ==> rest' == []) && (some != [] ==> |rest'| < |rest|)
  {
  }

  method Drain(i: RecordIterator, lim: nat) returns (out: seq<nat>)
    requires i.Valid() && lim > 0
    modifies i
    ensures out == old(i.Remaining())
  {
    out := [];
    var more := true;
    while more
      invariant i.Valid() && out + i.Remaining() == old(i.Remaining()) && (!more ==> i.Remaining() == [])
      decreases more, |i.Remaining()|
    {
      ghost var rest := i.Remaining();
      var some := i.Grep(lim);
      DrainStep(old(i.Remaining()), out, rest, some, i.Remaining(), lim);
      out := out + some;
      more := some != [];
    }
  }
}
