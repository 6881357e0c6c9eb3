/** struct dns_packet and the loops of src/dns/dns.c that walk and fill it. */
module DnsPacketObject {
  import opened Basics
  import opened DnsPacket
  import opened DnsBuild
  import opened DnsMemo

  class PacketObject {
    var data: Bytes        // P->data up to P->end
    var counts: Counts
    var memo: Memo
    const size: nat

    ghost predicate Valid()
      reads this
    {
      12 <= |data|
    }

    function State(): Packet
      reads this
    {
      Packet(data, counts, memo, size)
    }

    /** dns_p_init */
    constructor (size: nat)
      requires 12 <= size <= 65535
      ensures Valid() && Fresh(State())
    {
      this.size := size;
      data := seq(12, _ => 0);
      counts := Counts(0, 0, 0, 0);
      memo := BLANK;
    }

    /** dns_d_skip */
    method SkipName(src: nat) returns (r: nat)
      requires src <= |data|
      ensures r == DSkip(data, src)
    {
      r := src;
      while r < |data|
        invariant src <= r <= |data| && DSkip(data, r) == DSkip(data, src)
        decreases |data| - r
      {
        var b := data[r];
        if b < 0x40 {
          r := r + 1;
          if b == 0 { return r; }
          if |data| - r <= b { return |data|; }
          r := r + b;
        } else if b < 0xC0 || |data| - r < 2 {
          return |data|;
        } else {
          return r + 2;
        }
      }
    }

    /** dns_p_qend */
    method QuestionEnd() returns (q: nat)
      requires Valid()
      ensures q == QEnd(data, counts.qd)
    {
      q := 12;
      var i := 0;
      while i < counts.qd && q < |data|
        invariant i <= counts.qd && 12 <= q <= |data|
        invariant QEndFrom(data, q, counts.qd - i) == QEnd(data, counts.qd)
      {
        q := SkipName(q);
        if q == |data| || |data| - q < 4 { return |data|; }
        q := q + 4;
        i := i + 1;
      }
    }

    /** dns_rr_len and dns_rr_skip */
    method SkipRecord(src: nat) returns (r: nat)
      requires Valid() && src <= |data|
      ensures r == Skip(data, QEnd(data, counts.qd), src)
    {
      r := SkipName(src);
      if |data| - r < 4 { return |data|; }
      r := r + 4;
      var q := QuestionEnd();
      if r <= q { return; }
      if |data| - r < 6 { return |data|; }
      r := r + 6;
      var rdlen := Word(data, r - 2);
      if |data| - r < rdlen { return |data|; }
      r := r + rdlen;
    }

    /** dns_s_study */
    method StudySection(base: nat, count: nat) returns (rp: nat)
      requires Valid() && base <= |data|
      ensures rp == Ahead(data, QEnd(data, counts.qd), base, count)
    {
      rp := base;
      var n: nat := count;
      while n > 0 && rp < |data|
        invariant base <= rp <= |data|
        invariant Ahead(data, QEnd(data, counts.qd), rp, n) == Ahead(data, QEnd(data, counts.qd), base, count)
        decreases n
      {
        rp := SkipRecord(rp);
        n := n - 1;
      }
    }

    /** dns_rr_section */
    method FindSection(src: nat) returns (s: Section)
      requires Valid()
      ensures s == SectionOf(data, counts, memo, src)
    {
      if memo.qd.Has(src) { return QD; }
      if memo.an.Has(src) { return AN; }
      if memo.ns.Has(src) { return NS; }
      if memo.ar.Has(src) { return AR; }
      var rp, index := 12, 0;
      while rp < src && rp < |data|
        invariant 12 <= rp <= |data|
        invariant index + Index(data, QEnd(data, counts.qd), rp, src) == Index(data, QEnd(data, counts.qd), 12, src)
        decreases |data| - rp
      {
        rp := SkipRecord(rp);
        index := index + 1;
      }
      // sections are tried in order, each adding its count
      var section, count := QD, counts.qd;
      while index >= count && section != NoSection
        invariant count == Through(counts, section)
        invariant SectionAt(counts, index) == if index >= count then SectionAfter(counts, index, section) else section
        decreases Rank(section)
      {
        section := Next(section);
        count := Through(counts, section);
      }
      s := section;
    }

    /** dns_m_study */
    method Study()
      requires Valid()
      modifies this`memo
      ensures memo == DnsPacket.Study(data, counts)
    {
      var qe := StudySection(12, counts.qd);
      var ae := StudySection(qe, counts.an);
      var ne := StudySection(ae, counts.ns);
      var re := StudySection(ne, counts.ar);
      memo := Memo(Range(12, qe), Range(qe, ae), Range(ae, ne), Range(ne, re), OptMemo(0, 0, 0));
      assert memo == Ranges(data, counts, OptMemo(0, 0, 0));
      var opt := FirstOptFrom(ne);
      memo := memo.(opt := opt);
    }

    /** The dns_rr_foreach of dns_m_study */
    method FirstOptFrom(base: nat) returns (opt: OptMemo)
      requires Valid() && base <= |data|
      ensures opt == FindOpt(data, counts, memo, base)
    {
      var rp := base;
      while rp < |data|
        invariant base <= rp <= |data|
        invariant FindOpt(data, counts, memo, rp) == FindOpt(data, counts, memo, base)
        decreases |data| - rp
      {
        var q := QuestionEnd();
        var r := Parse(data, q, rp);
        var s := FindSection(rp);
        if r.Some? && s == AR && r.value.typ == OPT {
          return OptMemo(rp, r.value.class_, r.value.ttl);
        }
        rp := SkipRecord(rp);
      }
      return OptMemo(0, 0, 0);
    }

    /** dns_p_push */
    method Push(i: Item) returns (ok: bool)
      requires Valid()
      modifies this
      ensures Valid() && State() == After(old(State()), i)
      ensures ok == DnsMemo.Push(old(State()), i).Pushed?
    {
      var end := data;
      if i.name.None? || size < |data| + |i.name.value| + 4 { return false; }
      data := data + i.name.value + WordBytes(i.typ) + WordBytes(i.class_);
      var ttl := 0;
      if i.section != QD {
        if size < |data| + 6 || i.rdata.None? || size < |data| + 6 + |i.rdata.value| {
          data := end;
          return false;
        }
        ttl := Ttl(i.typ, i.ttl);
        data := data + LongBytes(ttl) + WordBytes(|i.rdata.value|) + i.rdata.value;
      }
      if i.section == NoSection || Behind(counts, i.section) > 0 {
        data := end;
        return false;
      }
      if BaseOf(memo, i.section) == 0 { Study(); }
      counts := NewCounts(counts, i.section);
      memo := NewMemo(memo, i.section, |data|, i.typ == OPT, OptMemo(|end|, i.class_, ttl));
      return true;
    }
  }

  function Next(s: Section): Section {
    match s
    case QD => AN
    case AN => NS
    case NS => AR
    case _ => NoSection
  }

  function Rank(s: Section): nat {
    match s
    case QD => 4
    case AN => 3
    case NS => 2
    case AR => 1
    case NoSection => 0
  }

  /** The records of all sections up to s. */
  function Through(c: Counts, s: Section): nat {
    match s
    case QD => c.qd
    case AN => c.qd + c.an
    case NS => c.qd + c.an + c.ns
    case _ => c.qd + c.an + c.ns + c.ar
  }

  /** Where a record lies that does not lie in s or before. */
  function SectionAfter(c: Counts, k: nat, s: Section): Section
    decreases Rank(s)
  {
    if s == NoSection || k < Through(c, s) then s else SectionAfter(c, k, Next(s))
  }
}
