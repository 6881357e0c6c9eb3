/** Several writers share one channel: each takes the write lock, puts the pieces of one frame
    on the wire and releases the lock (src/corpc/corpc-channel.c:115-162 and the send_*
    functions).  Any interleaving of their steps is a run. */
module CorpcWriters {
  import opened Basics
  import opened CorpcFrames

  /** A writer between its calls: it does not hold the lock, holds it with nothing sent yet, has
      sent the header of a data frame, or is about to release. */
  datatype Writer = Idle | Holding(msg: Msg) | HalfSent(msg: Msg) | Leaving

  datatype Pending = Nothing | Pending(msg: Msg)

  /** The sending side of a connection: the lock, the writers and the bytes on the wire.  The
      rest records what happened: the messages that went out, the one of which only the header
      is there, how many bytes belong to frames that were given up, and which messages had gone
      out when the first such byte came. */
  datatype Line = Line(lock: bool, writers: seq<Writer>, wire: Bytes, done: seq<Msg>, open: Pending, stray: nat, before: seq<Msg>)

  datatype Act =
    | Acquire(w: nat, m: Msg)
    | SendWhole(w: nat)            // one-piece frame
    | SendHeader(w: nat)           // first piece of a data frame
    | SendPayload(w: nat)          // second piece
    | SendFails(w: nat, k: nat)    // the socket reports an error after k bytes of the piece
    | Release(w: nat)

  predicate Can(c: Summer, l: Line, a: Act) {
    a.w < |l.writers| &&
    var x := l.writers[a.w];
    match a
    case Acquire(_, _) => x.Idle? && !l.lock
    case SendWhole(_) => x.Holding? && !x.msg.Data?
    case SendHeader(_) => x.Holding? && x.msg.Data?
    case SendPayload(_) => x.HalfSent?
    case SendFails(_, k) => (x.Holding? || x.HalfSent?) && k <= |Piece(c, x)|
    case Release(_) => x.Leaving?
  }

  function Head(c: Summer, m: Msg): (h: Bytes)
    ensures |h| == 12
  {
    HeaderOf(m).Wire(SentCrc(c, m))
  }

  /** What the writer hands to co_ssl_socket_send next */
  function Piece(c: Summer, x: Writer): Bytes
    requires x.Holding? || x.HalfSent?
  {
    if x.HalfSent? then WireDetails(x.msg) else if x.msg.Data? then Head(c, x.msg) else Wire(c, x.msg)
  }

  /** A message went out whole. */
  function Finish(l: Line, w: nat, piece: Bytes, m: Msg): Line
    requires w < |l.writers|
  {
    l.(writers := l.writers[w := Leaving], wire := l.wire + piece, done := l.done + [m], open := Nothing,
       before := if l.stray == 0 then l.done + [m] else l.before)
  }

  function Do(c: Summer, l: Line, a: Act): Line
    requires Can(c, l, a)
  {
    var x := l.writers[a.w];
    match a
    case Acquire(w, m) => l.(lock := true, writers := l.writers[w := Holding(m)])
    case SendWhole(w) => Finish(l, w, Piece(c, x), x.msg)
    case SendHeader(w) => l.(writers := l.writers[w := HalfSent(x.msg)], wire := l.wire + Piece(c, x), open := Pending(x.msg))
    case SendPayload(w) => Finish(l, w, Piece(c, x), x.msg)
    case SendFails(w, k) =>
      l.(writers := l.writers[w := Leaving], wire := l.wire + Piece(c, x)[..k], open := Nothing,
         stray := l.stray + k + if x.HalfSent? then 12 else 0)
    case Release(w) => l.(lock := false, writers := l.writers[w := Idle])
  }

  function Start(n: nat): Line { Line(false, seq(n, _ => Idle), [], [], Nothing, 0, []) }

  ghost predicate IsRun(c: Summer, l: Line, acts: seq<Act>)
    decreases |acts|
  {
    acts == [] || (Can(c, l, acts[0]) && IsRun(c, Do(c, l, acts[0]), acts[1..]))
  }

  ghost function After(c: Summer, l: Line, acts: seq<Act>): Line
    requires IsRun(c, l, acts)
    decreases |acts|
  {
    if acts == [] then l else After(c, Do(c, l, acts[0]), acts[1..])
  }

  // ----- invariant -----------------------------------------------------------------------

  /** The lock is taken exactly while one writer is inside, and that writer alone is. */
  ghost predicate Exclusive(lock: bool, ws: seq<Writer>) {
    (lock ==> exists w :: 0 <= w < |ws| && !ws[w].Idle?) &&
    (!lock ==> forall w :: 0 <= w < |ws| ==> ws[w].Idle?) &&
    forall v, w :: 0 <= v < |ws| && 0 <= w < |ws| && !ws[v].Idle? && !ws[w].Idle? ==> v == w
  }

  /** The frame of which only the header went out is the one whose writer is in the middle. */
  ghost predicate Midway(ws: seq<Writer>, open: Pending) {
    (open.Pending? ==> open.msg.Data?) &&
    (forall w :: 0 <= w < |ws| && ws[w].HalfSent? ==> open == Pending(ws[w].msg)) &&
    (open.Pending? ==> exists w :: 0 <= w < |ws| && ws[w].HalfSent?)
  }

  function Stub(c: Summer, open: Pending): Bytes { if open.Pending? then Head(c, open.msg) else [] }

  /** What is on the wire, and how much of it belongs to frames given up. */
  ghost predicate Accounted(c: Summer, l: Line) {
    |l.wire| == |WireAll(c, l.done)| + |Stub(c, l.open)| + l.stray &&
    (l.stray == 0 ==> l.before == l.done && l.wire == WireAll(c, l.done) + Stub(c, l.open)) &&
    WireAll(c, l.before) <= l.wire
  }

  ghost predicate Inv(c: Summer, l: Line) {
    Exclusive(l.lock, l.writers) && Midway(l.writers, l.open) && Accounted(c, l)
  }

  lemma {:induction false} JoinedAppend(ps: seq<Bytes>, p: Bytes)
    ensures Joined(ps + [p]) == Joined(ps) + p
    decreases |ps|
  {
    if ps == [] {
      assert ps + [p] == [p] && [p][1..] == [];
    } else {
      JoinedAppend(ps[1..], p);
      assert (ps + [p])[1..] == ps[1..] + [p];
    }
  }

  lemma WireAllAppend(c: Summer, ms: seq<Msg>, m: Msg)
    ensures WireAll(c, ms + [m]) == WireAll(c, ms) + Wire(c, m)
  {
    var w := Wire(c, m);
    assert Frames(c, ms + [m]) == Frames(c, ms) + [w];
    JoinedAppend(Frames(c, ms), w);
  }

  lemma ActKeeps(c: Summer, l: Line, a: Act)
    requires Inv(c, l) && Can(c, l, a)
    ensures Inv(c, Do(c, l, a))
  {
    ExclusiveKept(c, l, a);
    MidwayKept(c, l, a);
    AccountKept(c, l, a, l.writers[a.w], Do(c, l, a));
  }

  lemma ExclusiveKept(c: Summer, l: Line, a: Act)
    requires Exclusive(l.lock, l.writers) && Can(c, l, a)
    ensures Exclusive(Do(c, l, a).lock, Do(c, l, a).writers)
  {
    var l' := Do(c, l, a);
    if l'.lock {
      assert !l'.writers[a.w].Idle?;
    }
  }

  lemma MidwayKept(c: Summer, l: Line, a: Act)
    requires Exclusive(l.lock, l.writers) && Midway(l.writers, l.open) && Can(c, l, a)
    ensures Midway(Do(c, l, a).writers, Do(c, l, a).open)
  {
    var l' := Do(c, l, a);
    if a.SendHeader? {
      assert l'.writers[a.w].HalfSent?;
    }
  }

  lemma AccountKept(c: Summer, l: Line, a: Act, x: Writer, l': Line)
    requires Inv(c, l) && Can(c, l, a) && x == l.writers[a.w] && l' == Do(c, l, a)
    ensures Accounted(c, l')
  {
    if a.SendWhole? {
      NotMidway(l, a.w);
      Finished(c, l, Piece(c, x), x.msg, l');
    } else if a.SendHeader? {
      NotMidway(l, a.w);
      Pieces(WireAll(c, l.done), Head(c, x.msg), []);
    } else if a.SendPayload? {
      Finished(c, l, Piece(c, x), x.msg, l');
    } else if a.SendFails? {
      if x.Holding? { NotMidway(l, a.w); }
      Pieces(WireAll(c, l.done), [], []);
      assert a.k == 0 ==> l'.wire == l.wire;
    }
  }

  lemma Finished(c: Summer, l: Line, piece: Bytes, m: Msg, l': Line)
    requires Accounted(c, l) && Stub(c, l.open) + piece == Wire(c, m)
    requires l'.wire == l.wire + piece && l'.done == l.done + [m] && l'.open == Nothing && l'.stray == l.stray
    requires l'.before == if l.stray == 0 then l.done + [m] else l.before
    ensures Accounted(c, l')
  {
    WireAllAppend(c, l.done, m);
    Pieces(WireAll(c, l.done), Stub(c, l.open), piece);
    Pieces(WireAll(c, l'.done), [], []);
  }

  lemma Pieces(a: Bytes, b: Bytes, d: Bytes)
    ensures a + b + d == a + (b + d) && a + [] == a && (a + b) + [] == a + b
  {
  }

  lemma NotMidway(l: Line, w: nat)
    requires Exclusive(l.lock, l.writers) && Midway(l.writers, l.open)
    requires w < |l.writers| && l.writers[w].Holding?
    ensures l.open.Nothing?
  {
  }

  // ----- theorems ------------------------------------------------------------------------

  lemma {:induction false} RunKeeps(c: Summer, l: Line, acts: seq<Act>)
    requires Inv(c, l) && IsRun(c, l, acts)
    ensures Inv(c, After(c, l, acts))
    decreases |acts|
  {
    if acts != [] {
      ActKeeps(c, l, acts[0]);
      RunKeeps(c, Do(c, l, acts[0]), acts[1..]);
    }
  }

  lemma RunIs(c: Summer, n: nat, acts: seq<Act>)
    requires IsRun(c, Start(n), acts)
    ensures Inv(c, After(c, Start(n), acts))
  {
    assert WireAll(c, []) == [];
    RunKeeps(c, Start(n), acts);
  }

  /** For every interleaving: never more than one writer is inside; a frame that is begun has its
      writer, who holds the lock; and the wire is exactly the frames of the messages whose sends
      reported success, followed by at most the header of that one, if and only if no failed send
      left bytes of its frame. */
  lemma FramesStayWhole(c: Summer, n: nat, acts: seq<Act>)
    requires IsRun(c, Start(n), acts)
    ensures var l := After(c, Start(n), acts);
            Exclusive(l.lock, l.writers) && (l.open.Pending? ==> l.lock) &&
            (l.wire == WireAll(c, l.done) + Stub(c, l.open) <==> l.stray == 0)
  {
    RunIs(c, n, acts);
  }

  ghost predicate AllSendable(ms: seq<Msg>) { forall k :: 0 <= k < |ms| ==> Sendable(ms[k]) }

  /** As long as no failed send left bytes, the receiver obtains exactly the messages that went
      out, in order; a frame of which only the header is on the wire counts as out exactly if its
      payload is empty. */
  lemma ReceiverGetsDone(c: Summer, n: nat, acts: seq<Act>)
    requires c.Chunks() && IsRun(c, Start(n), acts)
    requires var l := After(c, Start(n), acts);
             l.stray == 0 && AllSendable(l.done) && (l.open.Pending? ==> Sendable(l.open.msg))
    ensures var l := After(c, Start(n), acts);
            RecvAll(c, l.wire) == l.done + if l.open.Pending? && Size(l.open.msg) == 0 then [l.open.msg] else []
  {
    var l := After(c, Start(n), acts);
    RunIs(c, n, acts);
    RecvAllSent(c, l.done, Stub(c, l.open), l.wire);
    if l.open.Pending? { HeaderAlone(c, l.open.msg); }
  }

  /** Whatever fails, and however the writers go on, what had gone out before the first stray byte
      is received first, in order. */
  lemma ReceivedBefore(c: Summer, n: nat, acts: seq<Act>)
    requires c.Chunks() && IsRun(c, Start(n), acts) && AllSendable(After(c, Start(n), acts).before)
    ensures After(c, Start(n), acts).before <= RecvAll(c, After(c, Start(n), acts).wire)
  {
    var l := After(c, Start(n), acts);
    RunIs(c, n, acts);
    PrefixReceived(c, l.before, l.wire, WireAll(c, l.before));
  }

  lemma PrefixReceived(c: Summer, ms: seq<Msg>, wire: Bytes, head: Bytes)
    requires c.Chunks() && AllSendable(ms) && head == WireAll(c, ms) && head <= wire
    ensures ms <= RecvAll(c, wire)
  {
    var tail := wire[|head|..];
    assert wire == head + tail;
    RecvAllSent(c, ms, tail, wire);
  }

  // ----- a message that is lost ----------------------------------------------------------

  /** Writer 0 puts out the header of m and gives up, and then writer 1 sends a. */
  function TornActs(m: Msg, a: Msg): seq<Act> {
    [Acquire(0, m), SendHeader(0), SendFails(0, 0), Release(0), Acquire(1, a), SendWhole(1)]
  }

  /** The line before the act i of that run. */
  function TornLine(c: Summer, m: Msg, a: Msg, i: nat): Line {
    var h := Head(c, m);
    if i == 0 then Start(2)
    else if i == 1 then Line(true, [Holding(m), Idle], [], [], Nothing, 0, [])
    else if i == 2 then Line(true, [HalfSent(m), Idle], h, [], Pending(m), 0, [])
    else if i == 3 then Line(true, [Leaving, Idle], h, [], Nothing, 12, [])
    else if i == 4 then Line(false, [Idle, Idle], h, [], Nothing, 12, [])
    else if i == 5 then Line(true, [Idle, Holding(a)], h, [], Nothing, 12, [])
    else Line(true, [Idle, Leaving], h + Wire(c, a), [a], Nothing, 12, [])
  }

  lemma TornStep(c: Summer, m: Msg, a: Msg, i: nat)
    requires m.Data? && !a.Data? && i < 6
    ensures Can(c, TornLine(c, m, a, i), TornActs(m, a)[i])
    ensures Do(c, TornLine(c, m, a, i), TornActs(m, a)[i]) == TornLine(c, m, a, i + 1)
  {
    if i == 1 || i == 5 { TornSends(c, m, a, i); } else if i == 2 { TornFails(c, m, a); }
  }

  lemma TornSends(c: Summer, m: Msg, a: Msg, i: nat)
    requires m.Data? && !a.Data? && (i == 1 || i == 5)
    ensures Can(c, TornLine(c, m, a, i), TornActs(m, a)[i])
    ensures Do(c, TornLine(c, m, a, i), TornActs(m, a)[i]) == TornLine(c, m, a, i + 1)
  {
    var none: Bytes := [];
    assert none + Head(c, m) == Head(c, m);
  }

  lemma TornFails(c: Summer, m: Msg, a: Msg)
    requires m.Data?
    ensures Can(c, TornLine(c, m, a, 2), SendFails(0, 0))
    ensures Do(c, TornLine(c, m, a, 2), SendFails(0, 0)) == TornLine(c, m, a, 3)
  {
    assert Head(c, m) + WireDetails(m)[..0] == Head(c, m);
  }

  lemma {:induction false} TornRun(c: Summer, m: Msg, a: Msg, i: nat)
    requires m.Data? && !a.Data? && i <= 6
    ensures IsRun(c, TornLine(c, m, a, i), TornActs(m, a)[i..])
    ensures After(c, TornLine(c, m, a, i), TornActs(m, a)[i..]) == TornLine(c, m, a, 6)
    decreases 6 - i
  {
    if i < 6 {
      TornStep(c, m, a, i);
      TornRun(c, m, a, i + 1);
      assert TornActs(m, a)[i..][1..] == TornActs(m, a)[i + 1..];
    }
  }

  /** Stray bytes do harm: a send that fails between header and payload makes the receiver take the
      next frame for a piece of the payload.  The second writer was told that a went out, and the
      receiver gets nothing. */
  lemma SentButLost(c: Summer, m: Msg, a: Msg)
    requires m.Data? && Sendable(m) && !a.Data? && |Wire(c, a)| < Size(m)
    ensures IsRun(c, Start(2), TornActs(m, a))
    ensures var l := After(c, Start(2), TornActs(m, a)); l.done == [a] && RecvAll(c, l.wire) == []
  {
    TornRun(c, m, a, 0);
    assert TornActs(m, a)[0..] == TornActs(m, a);
    Swallowed(c, SentCrc(c, m), HeaderOf(m), Wire(c, a));
  }

  lemma Swallowed(c: Summer, crc: Long, h: Header, tail: Bytes)
    requires |tail| < h.size
    ensures RecvAll(c, h.Wire(crc) + tail) == []
  {
    RecvHeader(c, crc, h, tail);
  }

  /** The header of a data frame alone is a message exactly if the payload is empty. */
  lemma HeaderAlone(c: Summer, m: Msg)
    requires c.Chunks() && m.Data? && Sendable(m)
    ensures RecvAll(c, Head(c, m)) == if Size(m) == 0 then [m] else []
  {
    if Size(m) == 0 { EmptyReceived(c, m); } else { NothingReceived(c, SentCrc(c, m), HeaderOf(m)); }
  }

  lemma NothingReceived(c: Summer, crc: Long, h: Header)
    requires h.size > 0
    ensures RecvAll(c, h.Wire(crc)) == []
  {
    Swallowed(c, crc, h, []);
    assert h.Wire(crc) + [] == h.Wire(crc);
  }

  lemma EmptyReceived(c: Summer, m: Msg)
    requires c.Chunks() && m.Data? && Size(m) == 0
    ensures RecvAll(c, Head(c, m)) == [m]
  {
    RecvSent(c, m, []);
    assert Wire(c, m) + [] == Head(c, m);
    RecvAllFirst(c, Head(c, m), m, []);
  }
}
