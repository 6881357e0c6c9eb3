/** What a push puts into a packet, read back from its bytes: dns_p_push and dns_rr_parse
    (src/dns/dns.c:1743-1859, 2518-2575). */
module DnsPushed {
  import opened Basics
  import opened DnsPacket
  import opened DnsBuild
  import opened DnsMemo

  /** The sections behind s are empty. */
  predicate InOrder(c: Counts, s: Section) {
    match s
    case QD => c.an == 0 && c.ns == 0 && c.ar == 0
    case AN => c.ns == 0 && c.ar == 0
    case NS => c.ar == 0
    case AR => true
    case NoSection => false
  }

  /** The bytes a record takes. */
  function Length(i: Item): nat
    requires i.name.Some? && (i.section == QD || i.rdata.Some?)
  {
    |i.name.value| + 4 + if i.section == QD then 0 else 6 + |i.rdata.value|
  }

  /** A push succeeds if and only if name and data can be written, no section behind has records, and
      the record fits. */
  lemma PushedIff(p: Packet, i: Item)
    requires 12 <= |p.data|
    ensures Push(p, i).Pushed? <==>
            i.name.Some? && (i.section == QD || i.rdata.Some?) && InOrder(p.counts, i.section) &&
            |p.data| + Length(i) <= p.size
  {
  }

  /** Why it fails otherwise: the first obstacle counts, and the order of sections is looked at last. */
  lemma RefusedWhy(p: Packet, i: Item)
    requires 12 <= |p.data| && Push(p, i).Refused?
    ensures var room := p.size - |p.data|;
            Push(p, i).error ==
            if i.name.None? then EILLEGAL
            else if room < |i.name.value| + (if i.section == QD then 4 else 10) then ENOBUFS
            else if i.section != QD && i.rdata.None? then EILLEGAL
            else if room < Length(i) then ENOBUFS
            else if i.section == NoSection then ESECTION
            else EORDER
  {
  }

  /** The ttl as it is kept: at most 2^31 - 1, except in OPT records, where the field means something
      else. */
  function Kept(typ: nat, ttl: nat): nat { if typ == 41 || ttl < 0x8000_0000 then ttl else 0x7fff_ffff }

  /** Parsing at s gives type, class and ttl of record i, and stepping over it leads to t; q is the
      end of the question section. */
  ghost predicate Parsed(d: Bytes, q: nat, s: nat, i: Item, t: nat) {
    s < t <= |d| && Skip(d, q, s) == t && (s < q <==> i.section == QD) &&
    Parse(d, q, s) == Some(Record(i.typ, i.class_, if i.section == QD then 0 else Kept(i.typ, i.ttl)))
  }

  /** The bytes from s to e are the name of record i, and those before t its data and their number. */
  ghost predicate Spelled(d: Bytes, s: nat, i: Item, e: nat, t: nat)
    requires i.name.Some? && (i.section == QD || i.rdata.Some?)
  {
    s <= e < t <= |d| && d[s..e] == i.name.value &&
    (i.section != QD ==>
       e + 10 <= t && 256 * (d[e + 8] as nat) + d[e + 9] as nat == |i.rdata.value| && d[e + 10..t] == i.rdata.value)
  }

  /** The bytes of the packet from position s on are read as record i. */
  ghost predicate Reads(d: Bytes, c: Counts, s: nat, i: Item)
    requires 12 <= |d|
  {
    i.name.Some? && (i.section == QD || i.rdata.Some?) &&
    Parsed(d, QEnd(d, c.qd), s, i, s + Length(i)) && Spelled(d, s, i, s + |i.name.value|, s + Length(i))
  }

  /** r is the record that item i asks for. */
  predicate Asks(i: Item, r: Rec) {
    i.name.Some? && r.name == i.name.value && r.typ == i.typ && r.class_ == i.class_ && (r.question <==> i.section == QD) &&
    (!r.question ==> i.rdata.Some? && r.ttl == Kept(i.typ, i.ttl) && r.rdata == i.rdata.value)
  }

  lemma NewRecIs(p: Packet, i: Item)
    requires i.name.Some? && (i.section == QD || i.rdata.Some?)
    ensures Asks(i, NewRec(p, i)) && NewRec(p, i).at == |p.data|
  {
  }

  lemma PlacedLength(d: Bytes, r: Rec, i: Item)
    requires Placed(d, r) && Asks(i, r)
    ensures r.at + Length(i) == r.next
  {
  }

  lemma PlacedSpelled(d: Bytes, r: Rec, i: Item, e: nat)
    requires Asks(i, r) && e == r.at + |r.name| && r.next <= |d| && Held(d, r, e)
    ensures Spelled(d, r.at, i, e, r.next)
  {
  }

  lemma HopParsed(d: Bytes, q: nat, r: Rec, i: Item)
    requires Asks(i, r) && Hop(d, q, r) && (r.at < q <==> r.question)
    ensures Parsed(d, q, r.at, i, r.next)
  {
  }

  lemma ReadFrom(d: Bytes, c: Counts, q: nat, s: nat, i: Item, t: nat)
    requires 12 <= |d| && q == QEnd(d, c.qd) && i.name.Some? && (i.section == QD || i.rdata.Some?) && t == s + Length(i)
    requires Parsed(d, q, s, i, t) && Spelled(d, s, i, s + |i.name.value|, t)
    ensures Reads(d, c, s, i)
  {
  }

  /** Every record of a packet is read as what it was made from. */
  lemma RecordIsRead(d: Bytes, c: Counts, rs: seq<Rec>, k: nat, i: Item)
    requires Laid(d, rs) && Sorted(rs, c) && k < |rs| && Asks(i, rs[k])
    ensures 12 <= |d| && Reads(d, c, rs[k].at, i)
  {
    LaidParsed(d, c, rs, k, i);
    LaidSpelled(d, rs, k, i);
    ReadFrom(d, c, QEnd(d, c.qd), rs[k].at, i, rs[k].next);
  }

  lemma LaidParsed(d: Bytes, c: Counts, rs: seq<Rec>, k: nat, i: Item)
    requires Laid(d, rs) && Sorted(rs, c) && k < |rs| && Asks(i, rs[k])
    ensures 12 <= |d| && Parsed(d, QEnd(d, c.qd), rs[k].at, i, rs[k].next)
  {
    LaidScans(d, rs, c);
    assert Hop(d, QEnd(d, c.qd), rs[k]);
    QuestionsFirst(rs, c, k);
    HopParsed(d, QEnd(d, c.qd), rs[k], i);
  }

  lemma LaidSpelled(d: Bytes, rs: seq<Rec>, k: nat, i: Item)
    requires Laid(d, rs) && k < |rs| && Asks(i, rs[k])
    ensures rs[k].at + Length(i) == rs[k].next && Spelled(d, rs[k].at, i, rs[k].at + |i.name.value|, rs[k].next)
  {
    assert Placed(d, rs[k]);
    SpelledFrom(d, rs[k], i, rs[k].at + |rs[k].name|);
  }

  lemma SpelledFrom(d: Bytes, r: Rec, i: Item, e: nat)
    requires Placed(d, r) && Asks(i, r) && e == r.at + |r.name|
    ensures r.at + Length(i) == r.next && Spelled(d, r.at, i, e, r.next)
  {
    PlacedLength(d, r, i);
    Stands(d, r, e);
    PlacedSpelled(d, r, i, e);
  }

  /** A successful push leaves the bytes before as they are, and what stands behind them is read as
      the record that was pushed: its name, type, class, ttl and data. */
  lemma PushIsRead(p: Packet, recs: seq<Rec>, i: Item)
    requires Built(p, recs) && 12 <= |p.data| && ItemOk(i) && Push(p, i).Pushed?
    ensures var q := Push(p, i).packet; 12 <= |q.data| && Reads(q.data, q.counts, |p.data|, i)
  {
    PushKeeps(p, recs, i);
    NewRecIs(p, i);
    var rs := recs + [NewRec(p, i)];
    RecordIsRead(Push(p, i).packet.data, Push(p, i).packet.counts, rs, |recs|, i);
  }

  /** What was there before stays, and exactly one count is larger by one. */
  lemma PushAdds(p: Packet, recs: seq<Rec>, i: Item)
    requires Built(p, recs) && 12 <= |p.data| && ItemOk(i) && Push(p, i).Pushed?
    ensures var q := Push(p, i).packet;
            i.name.Some? && (i.section == QD || i.rdata.Some?) &&
            p.data <= q.data && |q.data| == |p.data| + Length(i) && q.size == p.size &&
            q.counts == match i.section
                        case QD => p.counts.(qd := p.counts.qd + 1)
                        case AN => p.counts.(an := p.counts.an + 1)
                        case NS => p.counts.(ns := p.counts.ns + 1)
                        case _ => p.counts.(ar := p.counts.ar + 1)
  {
    Appended(p, i);
    NoWrap(p, recs);
  }

  // ----- any number of pushes ------------------------------------------------------------

  /** The items of the pushes that succeed. */
  ghost function Succeeding(p: Packet, items: seq<Item>, done: seq<Item>): seq<Item>
    requires 12 <= |p.data|
    decreases |items|
  {
    if items == [] then done
    else Succeeding(After(p, items[0]), items[1..], if Push(p, items[0]).Pushed? then done + [items[0]] else done)
  }

  ghost predicate AllAsk(items: seq<Item>, rs: seq<Rec>) {
    |items| == |rs| && forall k :: 0 <= k < |rs| ==> Asks(items[k], rs[k])
  }

  lemma {:induction false} SucceedingAsk(p: Packet, items: seq<Item>, recs: seq<Rec>, done: seq<Item>)
    requires Built(p, recs) && 12 <= |p.data| && AllAsk(done, recs) && forall k :: 0 <= k < |items| ==> ItemOk(items[k])
    ensures AllAsk(Succeeding(p, items, done), Records(p, items, recs))
    decreases |items|
  {
    if items != [] {
      var i := items[0];
      if Push(p, i).Pushed? {
        PushKeeps(p, recs, i);
        NewRecIs(p, i);
        SucceedingAsk(After(p, i), items[1..], recs + [NewRec(p, i)], done + [i]);
      } else {
        SucceedingAsk(p, items[1..], recs, done);
      }
    }
  }

  /** A packet made by any pushes from an initialised one, refused ones included, has exactly the
      records of the pushes that succeeded, in their order: record k is read as the item of the push
      that succeeded as the k-th. */
  lemma PacketIsRead(f: Packet, items: seq<Item>, none: seq<Rec>, no: seq<Item>, k: nat)
    requires Fresh(f) && none == [] && no == [] && forall j :: 0 <= j < |items| ==> ItemOk(items[j])
    requires k < |Succeeding(f, items, no)|
    ensures var q := AfterAll(f, items);
            Total(q.counts) == |Succeeding(f, items, no)| &&
            Reads(q.data, q.counts, Nth(q.data, q.counts, k), Succeeding(f, items, no)[k])
  {
    FreshBuilt(f, none);
    SucceedingAsk(f, items, none, no);
    AllKept(f, items, none);
    NthIsRead(AfterAll(f, items), Records(f, items, none), k, Succeeding(f, items, no)[k]);
  }

  lemma NthIsRead(q: Packet, rs: seq<Rec>, k: nat, i: Item)
    requires Built(q, rs) && k < |rs| && Asks(i, rs[k]) && 12 <= |q.data|
    ensures Total(q.counts) == |rs| && Reads(q.data, q.counts, Nth(q.data, q.counts, k), i)
  {
    RecordIsRead(q.data, q.counts, rs, k, i);
    LaidScans(q.data, rs, q.counts);
    NthIs(q.data, q.counts, rs, k);
  }

  /** Questions stand in front of the end of their section, other records behind it. */
  lemma QuestionsFirst(rs: seq<Rec>, c: Counts, k: nat)
    requires Chain(rs) && Sorted(rs, c) && k < |rs|
    ensures if rs[k].question then rs[k].at < Start(rs, c.qd) else Start(rs, c.qd) <= rs[k].at
  {
    if k < c.qd { Grows(rs, k, c.qd); } else { Grows(rs, c.qd, k); }
  }

  /** Name and data of a record that holds the bytes up to r.next, its name those up to e. */
  ghost predicate Held(d: Bytes, r: Rec, e: nat)
    requires r.next <= |d|
  {
    r.at <= e < r.next && d[r.at..e] == r.name &&
    (!r.question ==>
       e + 10 + |r.rdata| == r.next && 256 * (d[e + 8] as nat) + d[e + 9] as nat == |r.rdata| && d[e + 10..r.next] == r.rdata)
  }

  lemma Stands(d: Bytes, r: Rec, e: nat)
    requires Placed(d, r) && e == r.at + |r.name|
    ensures Held(d, r, e)
  {
    Pieces(d, r.at, r.next, r.name, WordBytes(r.typ), WordBytes(r.class_), Tail(r));
    if !r.question { TailStands(d, e, r.next, LongBytes(r.ttl), WordBytes(|r.rdata|), r.rdata); }
  }

  lemma TailStands(d: Bytes, e: nat, next: nat, l: Bytes, w: Bytes, rdata: Bytes)
    requires e + 4 <= next <= |d| && d[e + 4..next] == l + w + rdata && |l| == 4 && w == WordBytes(|rdata|) && |rdata| < 65536
    ensures e + 10 + |rdata| == next && 256 * (d[e + 8] as nat) + d[e + 9] as nat == |rdata| && d[e + 10..next] == rdata
  {
    TailPieces(d, e + 4, next, l, w, rdata);
    WordBack(d, e + 8, |rdata|);
    LastPiece(d, e + 4, next, l + w, rdata);
  }

  lemma LastPiece(d: Bytes, s: nat, t: nat, head: Bytes, last: Bytes)
    requires s <= t <= |d| && d[s..t] == head + last
    ensures s + |head| <= t && d[s + |head|..t] == last
  {
    var v := d[s..t];
    assert v[|head|..|v|] == last;
    Slice(d, s, t, |head|, |v|);
  }
}
