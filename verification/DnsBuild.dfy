/** Building a packet with dns_p_push (src/dns/dns.c:1743-1859), and why the memo it keeps is
    the one dns_p_study would compute. */
module DnsBuild {
  import opened Basics
  import opened DnsPacket

  // ----- records as bytes ----------------------------------------------------------------

  /** A name on the wire: labels of 1..63 bytes, then a zero or a pointer. */
  predicate IsName(b: Bytes)
    decreases |b|
  {
    b != [] &&
    if b[0] == 0 then |b| == 1
    else if b[0] < 0x40 then |b| > 1 + b[0] as int && IsName(b[1 + b[0]..])
    else b[0] >= 0xC0 && |b| == 2
  }

  /** A record, with the positions where it starts and ends. */
  datatype Rec = Rec(at: nat, next: nat, name: Bytes, typ: nat, class_: nat, ttl: nat, rdata: Bytes, question: bool)

  predicate RecOk(r: Rec) {
    IsName(r.name) && r.typ < 65536 && r.class_ < 65536 && r.ttl < 0x1_0000_0000 && |r.rdata| < 65536 &&
    Ttl(r.typ, r.ttl) == r.ttl
  }

  function WordBytes(x: nat): (b: Bytes)
    ensures |b| == 2
  {
    [x / 256 % 256, x % 256]
  }

  function LongBytes(x: nat): (b: Bytes)
    ensures |b| == 4
  {
    WordBytes(x / 65536) + WordBytes(x % 65536)
  }

  /** What follows type and class. */
  function Tail(r: Rec): Bytes { if r.question then [] else LongBytes(r.ttl) + WordBytes(|r.rdata|) + r.rdata }

  function RecBytes(r: Rec): (b: Bytes)
    ensures |b| == |r.name| + 4 + |Tail(r)|
  {
    r.name + WordBytes(r.typ) + WordBytes(r.class_) + Tail(r)
  }

  /** The bytes of the packet from r.at on are those of the record. */
  ghost predicate Placed(d: Bytes, r: Rec) {
    RecOk(r) && r.next == r.at + |RecBytes(r)| && r.next <= |d| && d[r.at..r.next] == RecBytes(r)
  }

  function End(recs: seq<Rec>): nat { if recs == [] then 12 else recs[|recs| - 1].next }

  /** Where record k starts, or where one would be added. */
  function Start(recs: seq<Rec>, k: nat): nat { if k < |recs| then recs[k].at else End(recs) }

  /** Each record starts where the one before it ends. */
  ghost predicate Chain(recs: seq<Rec>) {
    Start(recs, 0) == 12 &&
    (forall k :: 0 <= k < |recs| ==> recs[k].at + 5 <= recs[k].next) &&
    forall j, k {:trigger recs[j], recs[k]} :: 0 <= j < k < |recs| && k == j + 1 ==> recs[j].next == recs[k].at
  }

  lemma NextIs(recs: seq<Rec>, k: nat)
    requires Chain(recs) && k < |recs|
    ensures recs[k].next == Start(recs, k + 1)
  {
  }

  // ----- scanning one record -------------------------------------------------------------

  lemma {:induction false} NameSkipped(d: Bytes, s: nat, n: Bytes)
    requires IsName(n) && s + |n| <= |d| && d[s..s + |n|] == n
    ensures DSkip(d, s) == s + |n|
    decreases |n|
  {
    assert d[s] == d[s..s + |n|][0];
    if 0 < n[0] < 0x40 {
      var k := 1 + n[0] as int;
      assert d[s + k..s + k + (|n| - k)] == n[k..];
      NameSkipped(d, s + k, n[k..]);
    }
  }

  lemma WordBack(d: Bytes, p: nat, x: nat)
    requires p + 2 <= |d| && x < 65536 && d[p..p + 2] == WordBytes(x)
    ensures Word(d, p) == x
  {
    assert d[p] == d[p..p + 2][0] && d[p + 1] == d[p..p + 2][1];
  }

  lemma LongBack(d: Bytes, p: nat, x: nat)
    requires p + 4 <= |d| && x < 0x1_0000_0000 && d[p..p + 4] == LongBytes(x)
    ensures Long(d, p) == x
  {
    var v := d[p..p + 4];
    assert d[p..p + 2] == v[..2] && d[p + 2..p + 4] == v[2..];
    assert v[..2] == WordBytes(x / 65536) && v[2..] == WordBytes(x % 65536);
    WordBack(d, p, x / 65536);
    WordBack(d, p + 2, x % 65536);
  }

  lemma Slice(d: Bytes, s: nat, e: nat, a: nat, b: nat)
    requires s <= e <= |d| && a <= b <= e - s
    ensures d[s..e][a..b] == d[s + a..s + b]
  {
    var x, y := d[s..e][a..b], d[s + a..s + b];
    forall i | 0 <= i < |x| ensures x[i] == y[i] {
    }
  }

  /** The pieces of a record. */
  lemma Pieces(d: Bytes, s: nat, e: nat, name: Bytes, x: Bytes, y: Bytes, tail: Bytes)
    requires s <= e <= |d| && d[s..e] == name + x + y + tail && |x| == 2 && |y| == 2
    ensures var p := s + |name|;
            p + 4 <= e && d[s..p] == name && d[p..p + 2] == x && d[p + 2..p + 4] == y && d[p + 4..e] == tail
  {
    var v, n := d[s..e], |name|;
    assert v[..n] == name && v[n..n + 2] == x && v[n + 2..n + 4] == y && v[n + 4..] == tail;
    Slice(d, s, e, 0, n);
    Slice(d, s, e, n, n + 2);
    Slice(d, s, e, n + 2, n + 4);
    Slice(d, s, e, n + 4, |v|);
  }

  lemma TailPieces(d: Bytes, p: nat, e: nat, l: Bytes, w: Bytes, rdata: Bytes)
    requires p <= e <= |d| && d[p..e] == l + w + rdata && |l| == 4 && |w| == 2
    ensures e == p + 6 + |rdata| && d[p..p + 4] == l && d[p + 4..p + 6] == w
  {
    var v := d[p..e];
    assert v[..4] == l && v[4..6] == w;
    Slice(d, p, e, 0, 4);
    Slice(d, p, e, 4, 6);
  }

  function Head(r: Rec): Record { Record(r.typ, r.class_, if r.question then 0 else r.ttl) }

  /** A record in its place is stepped over and parsed as what it is. */
  lemma RecScanned(d: Bytes, q: nat, r: Rec)
    requires Placed(d, r) && if r.question then r.next <= q else q <= r.at
    ensures Skip(d, q, r.at) == r.next && Parse(d, q, r.at) == Some(Head(r))
  {
    var p := r.at + |r.name|;
    Pieces(d, r.at, r.next, r.name, WordBytes(r.typ), WordBytes(r.class_), Tail(r));
    NameSkipped(d, r.at, r.name);
    WordBack(d, p, r.typ);
    WordBack(d, p + 2, r.class_);
    if !r.question {
      TailPieces(d, p + 4, r.next, LongBytes(r.ttl), WordBytes(|r.rdata|), r.rdata);
      LongBack(d, p + 4, r.ttl);
      WordBack(d, p + 8, |r.rdata|);
    }
  }

  lemma QuestionScanned(d: Bytes, r: Rec)
    requires Placed(d, r) && r.question
    ensures DSkip(d, r.at) == r.next - 4 && r.at < r.next
  {
    Pieces(d, r.at, r.next, r.name, WordBytes(r.typ), WordBytes(r.class_), Tail(r));
    NameSkipped(d, r.at, r.name);
  }

  // ----- scanning a built packet ---------------------------------------------------------

  function Total(c: Counts): nat { c.qd + c.an + c.ns + c.ar }

  /** Records and counts agree, and exactly the first qd records are questions. */
  ghost predicate Sorted(recs: seq<Rec>, c: Counts) {
    Total(c) == |recs| && forall k :: 0 <= k < |recs| ==> (recs[k].question <==> k < c.qd)
  }

  /** The packet is its header and these records. */
  ghost predicate Laid(d: Bytes, recs: seq<Rec>) {
    |d| == End(recs) && Chain(recs) && forall k {:trigger Placed(d, recs[k])} :: 0 <= k < |recs| ==> Placed(d, recs[k])
  }

  /** Stepping through the packet finds these records. */
  ghost predicate Scans(d: Bytes, q: nat, recs: seq<Rec>) {
    |d| == End(recs) && Chain(recs) && forall k {:trigger Hop(d, q, recs[k])} :: 0 <= k < |recs| ==> Hop(d, q, recs[k])
  }

  /** The record at r.at is parsed as r and stepped over. */
  ghost predicate Hop(d: Bytes, q: nat, r: Rec) {
    r.at < r.next <= |d| && Skip(d, q, r.at) == r.next && Parse(d, q, r.at) == Some(Head(r))
  }

  lemma {:induction false} Grows(recs: seq<Rec>, a: nat, b: nat)
    requires Chain(recs) && a <= b <= |recs|
    ensures Start(recs, a) + 5 * (b - a) <= Start(recs, b)
    decreases b - a
  {
    if a < b {
      NextIs(recs, a);
      Grows(recs, a + 1, b);
    }
  }

  ghost predicate QHop(d: Bytes, r: Rec) { r.at < r.next <= |d| && DSkip(d, r.at) == r.next - 4 }

  /** What dns_p_qend sees of the questions. */
  ghost predicate Questions(d: Bytes, recs: seq<Rec>, n: nat) {
    n <= |recs| && |d| == End(recs) && Chain(recs) &&
    forall k {:trigger QHop(d, recs[k])} :: 0 <= k < n ==> QHop(d, recs[k])
  }

  lemma {:induction false} QuestionsScanned(d: Bytes, recs: seq<Rec>, n: nat, k: nat)
    requires Questions(d, recs, n) && k <= n
    ensures Start(recs, k) <= |d| && QEndFrom(d, Start(recs, k), n - k) == Start(recs, n)
    decreases n - k
  {
    Grows(recs, k, |recs|);
    if k < n {
      assert QHop(d, recs[k]);
      NextIs(recs, k);
      QuestionsScanned(d, recs, n, k + 1);
    }
  }

  lemma LaidScans(d: Bytes, recs: seq<Rec>, c: Counts)
    requires Laid(d, recs) && Sorted(recs, c)
    ensures 12 <= |d| && QEnd(d, c.qd) == Start(recs, c.qd) && Scans(d, QEnd(d, c.qd), recs)
  {
    forall k | 0 <= k < c.qd ensures QHop(d, recs[k]) {
      assert Placed(d, recs[k]);
      QuestionScanned(d, recs[k]);
    }
    QuestionsScanned(d, recs, c.qd, 0);
    var q := Start(recs, c.qd);
    forall k | 0 <= k < |recs| ensures Hop(d, q, recs[k]) {
      assert Placed(d, recs[k]);
      NextIs(recs, k);
      if k < c.qd { Grows(recs, k + 1, c.qd); } else { Grows(recs, c.qd, k); }
      RecScanned(d, q, recs[k]);
    }
  }

  lemma {:induction false} AheadIs(d: Bytes, q: nat, recs: seq<Rec>, k: nat, n: nat)
    requires Scans(d, q, recs) && k + n <= |recs|
    ensures Start(recs, k) <= |d| && Ahead(d, q, Start(recs, k), n) == Start(recs, k + n)
    decreases n
  {
    Grows(recs, k, |recs|);
    if n > 0 {
      assert Hop(d, q, recs[k]);
      NextIs(recs, k);
      AheadIs(d, q, recs, k + 1, n - 1);
    }
  }

  lemma NthIs(d: Bytes, c: Counts, recs: seq<Rec>, k: nat)
    requires 12 <= |d| && Scans(d, QEnd(d, c.qd), recs) && k <= |recs|
    ensures Nth(d, c, k) == Start(recs, k)
  {
    AheadIs(d, QEnd(d, c.qd), recs, 0, k);
  }

  // ----- the memo of a built packet ------------------------------------------------------

  /** The first OPT record from k on. */
  function FirstOpt(recs: seq<Rec>, k: nat): OptMemo
    decreases |recs| - k
  {
    if k >= |recs| then OptMemo(0, 0, 0)
    else if recs[k].typ == OPT then OptMemo(recs[k].at, recs[k].class_, recs[k].ttl)
    else FirstOpt(recs, k + 1)
  }

  function Bounds(recs: seq<Rec>, c: Counts): Memo {
    var a := Start(recs, c.qd);
    var b := Start(recs, c.qd + c.an);
    var e := Start(recs, c.qd + c.an + c.ns);
    Memo(Range(12, a), Range(a, b), Range(b, e), Range(e, End(recs)), FirstOpt(recs, c.qd + c.an + c.ns))
  }

  lemma {:induction false} OptFound(d: Bytes, recs: seq<Rec>, c: Counts, m: Memo, k: nat)
    requires 12 <= |d| && Scans(d, QEnd(d, c.qd), recs) && Sorted(recs, c) && c.qd + c.an + c.ns <= k <= |recs|
    requires m == Ranges(d, c, OptMemo(0, 0, 0))
    ensures Start(recs, k) <= |d| && FindOpt(d, c, m, Start(recs, k)) == FirstOpt(recs, k)
    decreases |recs| - k
  {
    Grows(recs, k, |recs|);
    if k < |recs| {
      assert Hop(d, QEnd(d, c.qd), recs[k]);
      NextIs(recs, k);
      NthIs(d, c, recs, k);
      MemoIsRecount(d, c, k, OptMemo(0, 0, 0));
      OptFound(d, recs, c, m, k + 1);
      OptStep(d, c, m, recs[k].at, recs[k].next, Head(recs[k]));
    }
  }

  lemma OptStep(d: Bytes, c: Counts, m: Memo, at: nat, next: nat, h: Record)
    requires 12 <= |d| && at < next <= |d|
    requires Parse(d, QEnd(d, c.qd), at) == Some(h) && Skip(d, QEnd(d, c.qd), at) == next && SectionOf(d, c, m, at) == AR
    ensures FindOpt(d, c, m, at) == if h.typ == OPT then OptMemo(at, h.class_, h.ttl) else FindOpt(d, c, m, next)
  {
  }

  lemma StudyIs(d: Bytes, recs: seq<Rec>, c: Counts)
    requires Laid(d, recs) && Sorted(recs, c)
    ensures 12 <= |d| && Study(d, c) == Bounds(recs, c)
  {
    LaidScans(d, recs, c);
    var m := Ranges(d, c, OptMemo(0, 0, 0));
    RangesAre(d, recs, c, c.qd + c.an, c.qd + c.an + c.ns, m);
    OptFound(d, recs, c, m, c.qd + c.an + c.ns);
    Assemble(d, recs, c, m);
  }

  lemma Assemble(d: Bytes, recs: seq<Rec>, c: Counts, m: Memo)
    requires 12 <= |d| && m == Ranges(d, c, OptMemo(0, 0, 0)) && m == Bounds(recs, c).(opt := OptMemo(0, 0, 0)) && m.ar.base <= |d|
    requires FindOpt(d, c, m, m.ar.base) == FirstOpt(recs, c.qd + c.an + c.ns)
    ensures Study(d, c) == Bounds(recs, c)
  {
  }

  lemma RangesAre(d: Bytes, recs: seq<Rec>, c: Counts, a: nat, b: nat, m: Memo)
    requires 12 <= |d| && Scans(d, QEnd(d, c.qd), recs) && Total(c) == |recs| && m == Ranges(d, c, OptMemo(0, 0, 0))
    requires a == c.qd + c.an && b == a + c.ns
    ensures m == Bounds(recs, c).(opt := OptMemo(0, 0, 0))
  {
    NthIs(d, c, recs, c.qd);
    NthIs(d, c, recs, a);
    NthIs(d, c, recs, b);
    NthIs(d, c, recs, |recs|);
    RangesAreRuns(d, c, OptMemo(0, 0, 0), a, b, |recs|);
  }
}
