/** Walking a DNS packet (src/dns/dns.c): names, the end of the question section, records,
    sections, and what dns_p_study memorises.  A packet is its bytes up to P->end and the four
    counts of its header; P->end is at least 12 and positions fit in 16 bits. */
module DnsPacket {
  import opened Basics

  /** qdcount, ancount, nscount and arcount of the header */
  datatype Counts = Counts(qd: nat, an: nat, ns: nat, ar: nat)

  // ----- one name, one record ------------------------------------------------------------

  /** dns_d_skip: the position behind the name at src, or the end if there is none */
  function DSkip(d: Bytes, src: nat): (r: nat)
    requires src <= |d|
    ensures src <= r <= |d| && (src < |d| ==> src < r)
    decreases |d| - src
  {
    if src == |d| then |d|
    else
      var b := d[src];
      if b == 0 then src + 1
      else if b < 0x40 then (if |d| - (src + 1) > b then DSkip(d, src + 1 + b) else |d|)
      else if b < 0xC0 || |d| - src < 2 then |d|
      else src + 2
  }

  /** The loop of dns_p_qend over n questions */
  function QEndFrom(d: Bytes, q: nat, n: nat): (r: nat)
    requires q <= |d|
    ensures q <= r <= |d|
    decreases n
  {
    if n == 0 || q == |d| then q
    else
      var s := DSkip(d, q);
      if |d| - s < 4 then |d| else QEndFrom(d, s + 4, n - 1)
  }

  /** dns_p_qend */
  function QEnd(d: Bytes, n: nat): (r: nat)
    requires 12 <= |d|
    ensures 12 <= r <= |d|
  {
    QEndFrom(d, 12, n)
  }

  function Word(d: Bytes, p: nat): nat
    requires p + 2 <= |d|
  {
    256 * (d[p] as int) + d[p + 1] as int
  }

  /** dns_rr_skip, where q is the end of the question section */
  function Skip(d: Bytes, q: nat, src: nat): (r: nat)
    requires src <= |d|
    ensures src <= r <= |d| && (src < |d| ==> src < r)
  {
    var p := DSkip(d, src);
    if |d| - p < 4 then |d|
    else if p + 4 <= q then p + 4
    else if |d| - (p + 4) < 6 then |d|
    else if |d| - (p + 10) < Word(d, p + 8) then |d|
    else p + 10 + Word(d, p + 8)
  }

  datatype Record = Record(typ: nat, class_: nat, ttl: nat)
  const OPT: nat := 41

  function Long(d: Bytes, p: nat): nat
    requires p + 4 <= |d|
  {
    65536 * Word(d, p) + Word(d, p + 2)
  }

  /** DNS_PP_MIN(ttl, 0x7fffffff), but not for OPT */
  function Ttl(typ: nat, ttl: nat): nat { if typ != OPT && ttl > 0x7fff_ffff then 0x7fff_ffff else ttl }

  /** dns_rr_parse: type, class and ttl of the record at src */
  function Parse(d: Bytes, q: nat, src: nat): Option<Record>
    requires src <= |d|
  {
    var p := DSkip(d, src);
    if src == |d| || |d| - p < 4 then None
    else if src < q then Some(Record(Word(d, p), Word(d, p + 2), 0))
    else if |d| - (p + 4) < 6 || |d| - (p + 10) < Word(d, p + 8) then None
    else Some(Record(Word(d, p), Word(d, p + 2), Ttl(Word(d, p), Long(d, p + 4))))
  }

  // ----- sections ------------------------------------------------------------------------

  /** The position n records behind base, or the end: the loop of dns_s_study */
  function Ahead(d: Bytes, q: nat, base: nat, n: nat): (r: nat)
    requires base <= |d|
    ensures base <= r <= |d|
    decreases n
  {
    if n == 0 || base == |d| then base else Ahead(d, q, Skip(d, q, base), n - 1)
  }

  datatype Section = QD | AN | NS | AR | NoSection

  datatype Range = Range(base: nat, end_: nat) {
    predicate Has(p: nat) { base <= p < end_ }
  }

  datatype OptMemo = OptMemo(p: nat, maxudp: nat, ttl: nat)

  datatype Memo = Memo(qd: Range, an: Range, ns: Range, ar: Range, opt: OptMemo)

  /** What memset leaves. */
  const BLANK := Memo(Range(0, 0), Range(0, 0), Range(0, 0), Range(0, 0), OptMemo(0, 0, 0))

  /** The recount of dns_rr_section: how many records lie between rp and src */
  function Index(d: Bytes, q: nat, rp: nat, src: nat): nat
    requires rp <= |d|
    decreases |d| - rp
  {
    if rp < src && rp < |d| then 1 + Index(d, q, Skip(d, q, rp), src) else 0
  }

  /** The section of the record with a given index */
  function SectionAt(c: Counts, k: nat): Section {
    if k < c.qd then QD
    else if k < c.qd + c.an then AN
    else if k < c.qd + c.an + c.ns then NS
    else if k < c.qd + c.an + c.ns + c.ar then AR
    else NoSection
  }

  /** The second half of dns_rr_section */
  function Recount(d: Bytes, c: Counts, src: nat): Section
    requires 12 <= |d|
  {
    SectionAt(c, Index(d, QEnd(d, c.qd), 12, src))
  }

  /** dns_rr_section */
  function SectionOf(d: Bytes, c: Counts, m: Memo, src: nat): Section
    requires 12 <= |d|
  {
    if m.qd.Has(src) then QD
    else if m.an.Has(src) then AN
    else if m.ns.Has(src) then NS
    else if m.ar.Has(src) then AR
    else Recount(d, c, src)
  }

  /** The four ranges of dns_m_study */
  function Ranges(d: Bytes, c: Counts, opt: OptMemo): Memo
    requires 12 <= |d|
  {
    var q := QEnd(d, c.qd);
    var qe := Ahead(d, q, 12, c.qd);
    var ae := Ahead(d, q, qe, c.an);
    var ne := Ahead(d, q, ae, c.ns);
    Memo(Range(12, qe), Range(qe, ae), Range(ae, ne), Range(ne, Ahead(d, q, ne, c.ar)), opt)
  }

  /** The first OPT record of the additional section from rp on */
  function FindOpt(d: Bytes, c: Counts, m: Memo, rp: nat): OptMemo
    requires 12 <= |d| && rp <= |d|
    decreases |d| - rp
  {
    if rp == |d| then OptMemo(0, 0, 0)
    else
      var r := Parse(d, QEnd(d, c.qd), rp);
      if r.Some? && SectionOf(d, c, m, rp) == AR && r.value.typ == OPT then OptMemo(rp, r.value.class_, r.value.ttl)
      else FindOpt(d, c, m, Skip(d, QEnd(d, c.qd), rp))
  }

  /** dns_p_study */
  function Study(d: Bytes, c: Counts): Memo
    requires 12 <= |d|
  {
    var m := Ranges(d, c, OptMemo(0, 0, 0));
    m.(opt := FindOpt(d, c, m, m.ar.base))
  }

  // ----- record starts -------------------------------------------------------------------

  /** The k-th record starts here, if there are that many. */
  function Nth(d: Bytes, c: Counts, k: nat): nat
    requires 12 <= |d|
  {
    Ahead(d, QEnd(d, c.qd), 12, k)
  }

  lemma {:induction false} AheadAdds(d: Bytes, q: nat, base: nat, m: nat, n: nat)
    requires base <= |d|
    ensures Ahead(d, q, Ahead(d, q, base, m), n) == Ahead(d, q, base, m + n)
    decreases m
  {
    if m > 0 && base < |d| { AheadAdds(d, q, Skip(d, q, base), m - 1, n); }
  }

  lemma AheadGrows(d: Bytes, q: nat, base: nat, m: nat, n: nat)
    requires base <= |d| && m < n && Ahead(d, q, base, m) < |d|
    ensures Ahead(d, q, base, m) < Ahead(d, q, base, n)
  {
    AheadAdds(d, q, base, m, n - m);
  }

  lemma {:induction false} IndexOfAhead(d: Bytes, q: nat, base: nat, k: nat)
    requires base <= |d| && Ahead(d, q, base, k) < |d|
    ensures Index(d, q, base, Ahead(d, q, base, k)) == k
    decreases k
  {
    if k > 0 {
      var next := Skip(d, q, base);
      assert Ahead(d, q, base, k) == Ahead(d, q, next, k - 1);
      IndexOfAhead(d, q, next, k - 1);
    }
  }

  /** The four ranges are runs of record starts. */
  lemma RangesAreRuns(d: Bytes, c: Counts, opt: OptMemo, a: nat, n: nat, r: nat)
    requires 12 <= |d| && a == c.qd + c.an && n == a + c.ns && r == n + c.ar
    ensures var m := Ranges(d, c, opt);
            m.qd == Range(12, Nth(d, c, c.qd)) && m.an == Range(Nth(d, c, c.qd), Nth(d, c, a)) &&
            m.ns == Range(Nth(d, c, a), Nth(d, c, n)) && m.ar == Range(Nth(d, c, n), Nth(d, c, r))
  {
    var q := QEnd(d, c.qd);
    var qe := Ahead(d, q, 12, c.qd);
    var ae := Ahead(d, q, qe, c.an);
    var ne := Ahead(d, q, ae, c.ns);
    OneRun(d, q, 12, qe, c.qd, c.an, a);
    OneRun(d, q, 12, ae, a, c.ns, n);
    OneRun(d, q, 12, ne, n, c.ar, r);
  }

  lemma OneRun(d: Bytes, q: nat, base: nat, mid: nat, m: nat, n: nat, sum: nat)
    requires base <= |d| && mid == Ahead(d, q, base, m) && sum == m + n
    ensures Ahead(d, q, mid, n) == Ahead(d, q, base, sum)
  {
    AheadAdds(d, q, base, m, n);
  }

  lemma NthBelow(d: Bytes, c: Counts, k: nat, n: nat)
    requires 12 <= |d| && Nth(d, c, k) < |d|
    ensures Nth(d, c, k) < Nth(d, c, n) <==> k < n
  {
    var q := QEnd(d, c.qd);
    if k < n {
      AheadGrows(d, q, 12, k, n);
    } else {
      AheadAdds(d, q, 12, n, k - n);
    }
  }

  /** On any packet whatsoever that has been studied, looking a record up in the memo and
      counting the records in front of it give the same section, at every record start. */
  lemma MemoIsRecount(d: Bytes, c: Counts, k: nat, opt: OptMemo)
    requires 12 <= |d| && Nth(d, c, k) < |d|
    ensures SectionOf(d, c, Ranges(d, c, opt), Nth(d, c, k)) == Recount(d, c, Nth(d, c, k)) == SectionAt(c, k)
  {
    var a := c.qd + c.an;
    var n := a + c.ns;
    var r := n + c.ar;
    RangesAreRuns(d, c, opt, a, n, r);
    IndexOfAhead(d, QEnd(d, c.qd), 12, k);
    NthBelow(d, c, k, c.qd);
    NthBelow(d, c, k, a);
    NthBelow(d, c, k, n);
    NthBelow(d, c, k, r);
  }
}
