/** dns_p_push, any number of times, succeeding or not: the memo it keeps up to date is what
    dns_p_study computes from the bytes. */
module DnsMemo {
  import opened Basics
  import opened DnsPacket
  import opened DnsBuild

  datatype Packet = Packet(data: Bytes, counts: Counts, memo: Memo, size: nat)

  datatype Error = EILLEGAL | ENOBUFS | EORDER | ESECTION

  /** The arguments of one dns_p_push: the bytes dns_d_comp makes of the name and the type's own
      push function of the data, unless these fail. */
  datatype Item = Item(section: Section, name: Option<Bytes>, typ: nat, class_: nat, ttl: nat, rdata: Option<Bytes>)

  /** What the C types and dns_d_comp guarantee. */
  predicate ItemOk(i: Item) {
    (i.name.Some? ==> IsName(i.name.value)) && i.typ < 65536 && i.class_ < 65536 && i.ttl < 0x1_0000_0000
  }

  datatype Outcome = Pushed(packet: Packet) | Refused(error: Error)

  /** What dns_p_init makes: nothing but a header. */
  ghost predicate Fresh(p: Packet) {
    |p.data| == 12 && p.counts == Counts(0, 0, 0, 0) && p.memo == BLANK && 12 <= p.size <= 65535
  }

  /** Incrementing a 16-bit count. */
  function Plus1(n: nat): nat { if n >= 65535 then 0 else n + 1 }

  function BaseOf(m: Memo, s: Section): nat {
    match s
    case QD => m.qd.base
    case AN => m.an.base
    case NS => m.ns.base
    case _ => m.ar.base
  }

  /** How many records the sections behind s have. */
  function Behind(c: Counts, s: Section): nat {
    match s
    case QD => c.an + c.ns + c.ar
    case AN => c.ns + c.ar
    case NS => c.ar
    case _ => 0
  }

  function NewCounts(c: Counts, s: Section): Counts {
    match s
    case QD => c.(qd := Plus1(c.qd))
    case AN => c.(an := Plus1(c.an))
    case NS => c.(ns := Plus1(c.ns))
    case _ => c.(ar := Plus1(c.ar))
  }

  /** The assignments of the switch in dns_p_push: the section grows to the new end e, and the
      sections behind it become empty there; opt is what an OPT record would leave. */
  function NewMemo(m: Memo, s: Section, e: nat, isOpt: bool, opt: OptMemo): Memo {
    var gap := Range(e, e);
    match s
    case QD => Memo(m.qd.(end_ := e), gap, gap, gap, m.opt)
    case AN => Memo(m.qd, m.an.(end_ := e), gap, gap, m.opt)
    case NS => Memo(m.qd, m.an, m.ns.(end_ := e), gap, m.opt)
    case _ => Memo(m.qd, m.an, m.ns, m.ar.(end_ := e), if isOpt && m.opt.p == 0 then opt else m.opt)
  }

  /** The part of dns_p_push behind the label update: d holds the packet with the new record. */
  function Update(p: Packet, d: Bytes, i: Item, ttl: nat): (o: Outcome)
    requires 12 <= |d|
    ensures o.Pushed? ==> o.packet.data == d
  {
    if i.section == NoSection then Refused(ESECTION)
    else if Behind(p.counts, i.section) > 0 then Refused(EORDER)
    else
      var m := if BaseOf(p.memo, i.section) == 0 then Study(d, p.counts) else p.memo;
      Pushed(Packet(d, NewCounts(p.counts, i.section),
        NewMemo(m, i.section, |d|, i.typ == OPT, OptMemo(|p.data|, i.class_, ttl)), p.size))
  }

  /** dns_p_push; a refused push restores P->end */
  function Push(p: Packet, i: Item): Outcome
    requires 12 <= |p.data|
  {
    if i.name.None? then Refused(EILLEGAL)
    else if p.size < |p.data| + |i.name.value| + 4 then Refused(ENOBUFS)
    else
      var d := p.data + i.name.value + WordBytes(i.typ) + WordBytes(i.class_);
      if i.section == QD then Update(p, d, i, 0)
      else if p.size < |d| + 6 then Refused(ENOBUFS)
      else if i.rdata.None? then Refused(EILLEGAL)
      else if p.size < |d| + 6 + |i.rdata.value| then Refused(ENOBUFS)
      else
        var ttl := Ttl(i.typ, i.ttl);
        Update(p, d + LongBytes(ttl) + WordBytes(|i.rdata.value|) + i.rdata.value, i, ttl)
  }

  /** The packet after a push, refused or not */
  function After(p: Packet, i: Item): (q: Packet)
    requires 12 <= |p.data|
    ensures 12 <= |q.data|
  {
    match Push(p, i)
    case Pushed(q) => q
    case Refused(_) => p
  }

  function AfterAll(p: Packet, items: seq<Item>): (q: Packet)
    requires 12 <= |p.data|
    ensures 12 <= |q.data|
    decreases |items|
  {
    if items == [] then p else AfterAll(After(p, items[0]), items[1..])
  }

  // ----- invariant -----------------------------------------------------------------------

  /** The packet consists of these records, its memo describes them, and nothing has wrapped. */
  ghost predicate Built(p: Packet, recs: seq<Rec>) {
    Laid(p.data, recs) && Sorted(recs, p.counts) && |p.data| <= p.size <= 65535 &&
    p.memo == if recs == [] then BLANK else Bounds(recs, p.counts)
  }

  /** The record a successful push adds. */
  function NewRec(p: Packet, i: Item): Rec
    requires i.name.Some? && (i.section == QD || i.rdata.Some?)
  {
    var question := i.section == QD;
    var rdata := if question then [] else i.rdata.value;
    var ttl := if question then 0 else Ttl(i.typ, i.ttl);
    var n := |i.name.value| + 4 + if question then 0 else 6 + |rdata|;
    Rec(|p.data|, |p.data| + n, i.name.value, i.typ, i.class_, ttl, rdata, question)
  }

  /** A push that gets as far as the switch has appended the bytes of the record. */
  lemma Appended(p: Packet, i: Item)
    requires 12 <= |p.data| && ItemOk(i) && Push(p, i).Pushed? && p.size <= 65535
    ensures i.name.Some? && (i.section == QD || i.rdata.Some?) && i.section != NoSection
    ensures RecOk(NewRec(p, i)) && NewRec(p, i).next == |p.data| + |RecBytes(NewRec(p, i))| <= p.size
    ensures Push(p, i) == Update(p, p.data + RecBytes(NewRec(p, i)), i, NewRec(p, i).ttl)
  {
    var r := NewRec(p, i);
    if i.section == QD {
      JoinQuestion(p.data, i.name.value, WordBytes(i.typ), WordBytes(i.class_));
    } else {
      JoinRecord(p.data, i.name.value, WordBytes(i.typ), WordBytes(i.class_), LongBytes(r.ttl), WordBytes(|r.rdata|), r.rdata);
    }
  }

  lemma JoinQuestion(d: Bytes, n: Bytes, a: Bytes, b: Bytes)
    ensures d + n + a + b == d + (n + a + b + [])
  {
  }

  lemma JoinRecord(d: Bytes, n: Bytes, a: Bytes, b: Bytes, x: Bytes, y: Bytes, z: Bytes)
    ensures d + n + a + b + x + y + z == d + (n + a + b + (x + y + z))
  {
  }

  /** Adding a record behind the others. */
  lemma LaidMore(d: Bytes, recs: seq<Rec>, r: Rec)
    requires Laid(d, recs) && RecOk(r) && r.at == |d| && r.next == |d| + |RecBytes(r)|
    ensures Laid(d + RecBytes(r), recs + [r])
  {
    var d', rs := d + RecBytes(r), recs + [r];
    assert d'[r.at..r.next] == RecBytes(r);
    forall k | 0 <= k < |rs| ensures Placed(d', rs[k]) {
      if k < |recs| {
        assert Placed(d, recs[k]);
        assert d'[recs[k].at..recs[k].next] == d[recs[k].at..recs[k].next];
      }
    }
    ChainMore(recs, r);
  }

  lemma ChainMore(recs: seq<Rec>, r: Rec)
    requires Chain(recs) && r.at == End(recs) && r.at + 5 <= r.next
    ensures Chain(recs + [r]) && End(recs + [r]) == r.next
  {
    var rs := recs + [r];
    forall j, k | 0 <= j < k < |rs| && k == j + 1 ensures rs[j].next == rs[k].at {
      if k < |recs| { assert recs[j].next == recs[k].at; }
    }
  }

  lemma {:induction false} OptMore(recs: seq<Rec>, r: Rec, k: nat)
    requires k <= |recs| && forall j :: 0 <= j < |recs| ==> recs[j].at > 0
    ensures FirstOpt(recs + [r], k) ==
            if FirstOpt(recs, k).p == 0 && r.typ == OPT then OptMemo(r.at, r.class_, r.ttl) else FirstOpt(recs, k)
    decreases |recs| - k
  {
    var rs := recs + [r];
    if k < |recs| {
      assert rs[k] == recs[k];
      if recs[k].typ != OPT { OptMore(recs, r, k + 1); }
    } else {
      assert rs[k] == r && FirstOpt(rs, k + 1) == OptMemo(0, 0, 0);
    }
  }

  lemma StartMore(recs: seq<Rec>, r: Rec, k: nat)
    requires r.at == End(recs)
    ensures Start(recs + [r], k) == if k <= |recs| then Start(recs, k) else r.next
  {
    var rs := recs + [r];
    if k < |recs| { assert rs[k] == recs[k]; } else if k == |recs| { assert rs[k] == r; }
  }

  /** Adding a record changes the bounds as dns_p_push changes the memo. */
  lemma BoundsMore(recs: seq<Rec>, r: Rec, c: Counts, s: Section)
    requires Chain(recs) && r.at == End(recs) && Total(c) == |recs| < 65535 && Behind(c, s) == 0
    ensures Total(NewCounts(c, s)) == |recs| + 1
    ensures Bounds(recs + [r], NewCounts(c, s)) ==
            NewMemo(Bounds(recs, c), s, r.next, r.typ == OPT, OptMemo(r.at, r.class_, r.ttl))
  {
    var c' := NewCounts(c, s);
    var a, b := c'.qd + c'.an, c'.qd + c'.an + c'.ns;
    StartMore(recs, r, c'.qd);
    StartMore(recs, r, a);
    StartMore(recs, r, b);
    assert End(recs + [r]) == r.next;
    OptAfter(recs, r, c, c', s, b);
  }

  lemma OptAfter(recs: seq<Rec>, r: Rec, c: Counts, c': Counts, s: Section, b: nat)
    requires Chain(recs) && Total(c) == |recs| < 65535 && Behind(c, s) == 0 && c' == NewCounts(c, s) && b == c'.qd + c'.an + c'.ns
    ensures FirstOpt(recs + [r], b) ==
            var was := FirstOpt(recs, c.qd + c.an + c.ns);
            if (s == AR || s == NoSection) && r.typ == OPT && was.p == 0 then OptMemo(r.at, r.class_, r.ttl) else was
  {
    if s == AR || s == NoSection {
      forall j | 0 <= j < |recs| ensures recs[j].at > 0 { Grows(recs, 0, j); }
      OptMore(recs, r, b);
    }
  }

  lemma SortedMore(recs: seq<Rec>, r: Rec, c: Counts, s: Section)
    requires Sorted(recs, c) && |recs| < 65535 && Behind(c, s) == 0 && (r.question <==> s == QD)
    ensures Sorted(recs + [r], NewCounts(c, s))
  {
  }

  /** With all counts zero a study finds nothing, whatever the bytes. */
  lemma StudyOfNone(d: Bytes, recs: seq<Rec>, c: Counts, m: Memo)
    requires 12 <= |d| && Total(c) == 0 && recs == [] && m == Ranges(d, c, OptMemo(0, 0, 0))
    ensures Study(d, c) == Bounds(recs, c)
  {
    RangesOfNone(d, recs, c, m);
    NoneStudied(d, recs, c, m);
  }

  lemma RangesOfNone(d: Bytes, recs: seq<Rec>, c: Counts, m: Memo)
    requires 12 <= |d| && Total(c) == 0 && recs == [] && m == Ranges(d, c, OptMemo(0, 0, 0))
    ensures m == Bounds(recs, c).(opt := OptMemo(0, 0, 0))
    ensures m.qd.end_ <= 12 && m.an.end_ <= 12 && m.ns.end_ <= 12 && m.ar.end_ <= 12 && 12 <= m.ar.base <= |d|
  {
  }

  lemma NoneStudied(d: Bytes, recs: seq<Rec>, c: Counts, m: Memo)
    requires 12 <= |d| && Total(c) == 0 && recs == [] && m == Ranges(d, c, OptMemo(0, 0, 0))
    requires m == Bounds(recs, c).(opt := OptMemo(0, 0, 0))
    requires m.qd.end_ <= 12 && m.an.end_ <= 12 && m.ns.end_ <= 12 && m.ar.end_ <= 12 && 12 <= m.ar.base <= |d|
    ensures Study(d, c) == Bounds(recs, c)
  {
    NoOpt(d, c, m, m.ar.base);
    Assemble(d, recs, c, m);
  }

  lemma NoneThere(d: Bytes, c: Counts, m: Memo, rp: nat)
    requires 12 <= |d| && 12 <= rp && Total(c) == 0
    requires m.qd.end_ <= 12 && m.an.end_ <= 12 && m.ns.end_ <= 12 && m.ar.end_ <= 12
    ensures SectionOf(d, c, m, rp) == NoSection
  {
  }

  lemma {:induction false} NoOpt(d: Bytes, c: Counts, m: Memo, rp: nat)
    requires 12 <= |d| && 12 <= rp <= |d| && Total(c) == 0
    requires m.qd.end_ <= 12 && m.an.end_ <= 12 && m.ns.end_ <= 12 && m.ar.end_ <= 12
    ensures FindOpt(d, c, m, rp) == OptMemo(0, 0, 0)
    decreases |d| - rp
  {
    if rp < |d| {
      var next := Skip(d, QEnd(d, c.qd), rp);
      NoneThere(d, c, m, rp);
      NoOpt(d, c, m, next);
    }
  }

  /** The memo that the switch of dns_p_push starts from. */
  lemma Studied(p: Packet, recs: seq<Rec>, d: Bytes, base: nat)
    requires Total(p.counts) == |recs| && p.memo == (if recs == [] then BLANK else Bounds(recs, p.counts))
    requires 12 <= |d| && (base == 0 <==> recs == [])
    ensures (if base == 0 then Study(d, p.counts) else p.memo) == Bounds(recs, p.counts)
  {
    if recs == [] { StudyOfNone(d, recs, p.counts, Ranges(d, p.counts, OptMemo(0, 0, 0))); }
  }

  lemma BasesSet(recs: seq<Rec>, c: Counts)
    requires Chain(recs) && Total(c) == |recs|
    ensures var m := Bounds(recs, c); m.qd.base > 0 && m.an.base > 0 && m.ns.base > 0 && m.ar.base > 0
  {
    Grows(recs, 0, c.qd);
    Grows(recs, 0, c.qd + c.an);
    Grows(recs, 0, c.qd + c.an + c.ns);
  }

  lemma NoWrap(p: Packet, recs: seq<Rec>)
    requires Built(p, recs)
    ensures |recs| < 65535
  {
    Grows(recs, 0, |recs|);
  }

  lemma UpdateKeeps(p: Packet, recs: seq<Rec>, r: Rec, i: Item)
    requires Built(p, recs) && 12 <= |p.data| && i.section != NoSection
    requires RecOk(r) && r.at == |p.data| && r.next == |p.data| + |RecBytes(r)| <= p.size
    requires (r.question <==> i.section == QD) && r.typ == i.typ && r.class_ == i.class_
    requires Update(p, p.data + RecBytes(r), i, r.ttl).Pushed?
    ensures Built(Update(p, p.data + RecBytes(r), i, r.ttl).packet, recs + [r])
  {
    var d, c := p.data + RecBytes(r), p.counts;
    NoWrap(p, recs);
    LaidMore(p.data, recs, r);
    if recs != [] { BasesSet(recs, c); }
    Studied(p, recs, d, BaseOf(p.memo, i.section));
    BoundsMore(recs, r, c, i.section);
    SortedMore(recs, r, c, i.section);
  }

  lemma PushKeeps(p: Packet, recs: seq<Rec>, i: Item)
    requires Built(p, recs) && 12 <= |p.data| && ItemOk(i) && Push(p, i).Pushed?
    ensures i.name.Some? && (i.section == QD || i.rdata.Some?)
    ensures Built(Push(p, i).packet, recs + [NewRec(p, i)])
  {
    Appended(p, i);
    UpdateKeeps(p, recs, NewRec(p, i), i);
  }

  // ----- theorem -------------------------------------------------------------------------

  /** The records of the packet after all pushes: one more for each that succeeds. */
  ghost function Records(p: Packet, items: seq<Item>, recs: seq<Rec>): seq<Rec>
    requires 12 <= |p.data|
    decreases |items|
  {
    if items == [] then recs
    else
      var i := items[0];
      Records(After(p, i), items[1..],
        if Push(p, i).Pushed? && i.name.Some? && (i.section == QD || i.rdata.Some?) then recs + [NewRec(p, i)] else recs)
  }

  lemma {:induction false} AllKept(p: Packet, items: seq<Item>, recs: seq<Rec>)
    requires Built(p, recs) && 12 <= |p.data| && forall k :: 0 <= k < |items| ==> ItemOk(items[k])
    ensures Built(AfterAll(p, items), Records(p, items, recs))
    decreases |items|
  {
    if items != [] {
      var i := items[0];
      if Push(p, i).Pushed? {
        PushKeeps(p, recs, i);
        AllKept(After(p, i), items[1..], recs + [NewRec(p, i)]);
      } else {
        AllKept(p, items[1..], recs);
      }
    }
  }

  /** After any pushes on a packet built by pushes, refused ones included, the memo is exactly
      what dns_p_study would compute from the bytes and the counts, provided that at least one
      push ever succeeded; before that it is blank.  A fresh packet is built from no pushes. */
  lemma MemoIsStudy(f: Packet, items: seq<Item>, recs: seq<Rec>)
    requires Built(f, recs) && 12 <= |f.data| && forall k :: 0 <= k < |items| ==> ItemOk(items[k])
    ensures Built(AfterAll(f, items), Records(f, items, recs))
    ensures AfterAll(f, items).memo ==
            if Records(f, items, recs) == [] then BLANK else Study(AfterAll(f, items).data, AfterAll(f, items).counts)
  {
    AllKept(f, items, recs);
    BuiltStudied(AfterAll(f, items), Records(f, items, recs));
  }

  lemma FreshBuilt(f: Packet, recs: seq<Rec>)
    requires Fresh(f) && recs == []
    ensures Built(f, recs) && 12 <= |f.data|
  {
  }

  /** So it is for every packet made from an initialised one by pushes. */
  lemma FreshMemoIsStudy(f: Packet, items: seq<Item>, none: seq<Rec>)
    requires Fresh(f) && none == [] && forall k :: 0 <= k < |items| ==> ItemOk(items[k])
    ensures 12 <= |f.data| && Built(AfterAll(f, items), Records(f, items, none))
    ensures AfterAll(f, items).memo ==
            if Records(f, items, none) == [] then BLANK else Study(AfterAll(f, items).data, AfterAll(f, items).counts)
  {
    FreshBuilt(f, none);
    MemoIsStudy(f, items, none);
  }

  lemma BuiltStudied(p: Packet, recs: seq<Rec>)
    requires Built(p, recs)
    ensures 12 <= |p.data| && p.memo == if recs == [] then BLANK else Study(p.data, p.counts)
  {
    Grows(recs, 0, |recs|);
    if recs != [] { StudyIs(p.data, recs, p.counts); }
  }
}
