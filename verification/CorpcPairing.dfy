/** The clauses of the invariant when a stream is registered or learns its peer. */
module CorpcPairing {
  import opened CorpcChannel
  import opened CorpcSystem
  import opened CorpcInvariant
  import opened CorpcKit
  import opened CorpcEdits
  import opened CorpcFlow

  // ----- a new pair u -> v as seen by the clauses ------------------------------------------

  /** Pairing u with a reader v that nobody wrote to yet starts an empty conversation. */
  lemma NewPairOrdered(ma: Mates, wrote: Logs, got: Logs, rs: seq<Stream>, fwd: seq<Frame>, u: nat, v: nat)
    requires Ordered(ma, wrote, got, rs, fwd) && Fits(ma, rs, fwd) && Untouched(ma, got, rs) && Unpaired(ma, wrote)
    requires u !in ma && !HasWriter(ma, v) && InFlight(fwd, u) == []
    ensures Ordered(ma[u := v], wrote, got, rs, fwd) && Fits(ma[u := v], rs, fwd)
    ensures Untouched(ma[u := v], got, rs) && Unpaired(ma[u := v], wrote)
  {
    var ma' := ma[u := v];
    forall r | HasWriter(ma, r) ensures HasWriter(ma', r) {
      var w :| w in ma && ma[w] == r;
      assert w in ma' && ma'[w] == r;
    }
    forall w, j {:trigger ma'[w], rs[j]} | w in ma' && 0 <= j < |rs| && rs[j].uid == ma'[w]
      ensures Log(wrote, w) == Log(got, ma'[w]) + rs[j].rxq + InFlight(fwd, w)
      ensures |rs[j].rxq| + |InFlight(fwd, w)| <= RING
    {
      if w != u { assert ma[w] == ma'[w]; }
    }
    forall w {:trigger ma'[w]} | w in ma' ensures Log(got, ma'[w]) <= Log(wrote, w) {
      if w != u { assert ma[w] == ma'[w]; }
    }
  }

  /** The books of u, given full credit, with a reader nobody wrote to yet. */
  lemma NewPairBooks(ma: Mates, got: Logs, wr: Writer, ws: seq<Stream>, ws': seq<Stream>, rs: seq<Stream>,
                     fwd: seq<Frame>, bwd: seq<Frame>, i: nat)
    requires Conserved(wr, ws, rs, fwd, bwd) && Bounded(wr, ws, bwd) && Untouched(ma, got, rs)
    requires i < |ws'| && i <= |ws| <= |ws'| && forall k :: 0 <= k < |ws'| && k != i ==> k < |ws| && ws'[k] == ws[k]
    requires !HasWriter(ma, ws'[i].peer) && ws'[i].rwnd == RING && wr != Sent(ws'[i].uid)
    requires InFlight(fwd, ws'[i].uid) == [] && Acks(bwd, ws'[i].uid) == 0
    ensures Conserved(wr, ws', rs, fwd, bwd) && Bounded(wr, ws', bwd)
  {
    forall k | 0 <= k < |ws'| && ws'[k].peer != 0 ensures CreditBound(wr, ws'[k], bwd) {
      if k != i { assert CreditBound(wr, ws[k], bwd); }
    }
    forall k, j | 0 <= k < |ws'| && 0 <= j < |rs| && ws'[k].peer != 0 && rs[j].uid == ws'[k].peer
      ensures CreditSum(wr, ws'[k], rs[j], fwd, bwd) == RING
    {
      if k != i {
        assert CreditSum(wr, ws[k], rs[j], fwd, bwd) == RING;
      } else {
        assert Blank(rs[j]);
      }
    }
  }

  // ----- the stream that got its response --------------------------------------------------

  /** The initiator learns its peer: everything the acceptance frame says is taken over. */
  lemma PairKeeps(s: Sys, i: nat, v: nat)
    requires Core(s) && i < |s.near.streams|
    requires v != 0 && s.near.streams[i].uid !in s.near.mate && s.near.streams[i].state == Opening
    requires v in s.far.mate && s.far.mate[v] == s.near.streams[i].uid
    requires NoAccept(s.inn, s.near.streams[i].uid)
    requires s.far.handler.Responding? && s.far.handler.status == Ok ==> s.far.handler.peer != s.near.streams[i].uid
    ensures Core(s.(near := Put(s.near, i, s.near.streams[i].(state := Established, peer := v, rwnd := RING)).(
                    mate := s.near.mate[s.near.streams[i].uid := v])))
  {
    var a, b := s.near, s.far;
    var st := a.streams[i];
    var u := st.uid;
    var st' := st.(state := Established, peer := v, rwnd := RING);
    var t := s.(near := Put(a, i, st').(mate := a.mate[u := v]));
    assert StreamOk(st, a.drawn, a.mate);
    assert st.pc != Fresh by { assert HasWriter(b.mate, u); }
    assert !HasWriter(a.mate, v);
    NoDataFrom(a.mate, a.drawn, b.mate, b.drawn, s.out, u);
    NoAckFor(b.mate, b.drawn, a.mate, a.drawn, s.inn, u);
    assert !WrittenBy(a.writer, st);
    assert a.writer != Sent(u);
    assert !HandledBy(a.handler, st);
    assert Half(t) by {
      PairLocal(a, i, st', v);
      PairWire(a, b, s.out, u, v);
      FreshPut(a.streams, b.mate, s.out, i, st');
      NewPairOrdered(a.mate, a.wrote, b.got, b.streams, s.out, u, v);
      NewPairBooks(a.mate, b.got, a.writer, a.streams, t.near.streams, b.streams, s.out, s.inn, i);
    }
    PairBack(s, i, v, t);
  }

  lemma PairBack(s: Sys, i: nat, v: nat, t: Sys)
    requires Core(s) && i < |s.near.streams|
    requires v != 0 && s.near.streams[i].uid !in s.near.mate
    requires v in s.far.mate && s.far.mate[v] == s.near.streams[i].uid
    requires NoAccept(s.inn, s.near.streams[i].uid)
    requires s.far.handler.Responding? && s.far.handler.status == Ok ==> s.far.handler.peer != s.near.streams[i].uid
    requires t == s.(near := Put(s.near, i, s.near.streams[i].(state := Established, peer := v, rwnd := RING)).(
                     mate := s.near.mate[s.near.streams[i].uid := v]))
    ensures Half(Flip(t))
  {
    var a, b := s.near, s.far;
    var st' := a.streams[i].(state := Established, peer := v, rwnd := RING);
    PairWireBack(a, b, s.inn, st'.uid, v);
    UntouchedPut(b.mate, a.got, a.streams, i, st');
    OrderedPut(b.mate, b.wrote, a.got, a.streams, s.inn, i, st');
    FitsPut(b.mate, a.streams, s.inn, i, st');
    ConservedPutReader(b.writer, b.streams, a.streams, s.inn, s.out, i, st');
  }

  lemma PairLocal(a: Endpoint, i: nat, st: Stream, v: nat)
    requires Local(a) && i < |a.streams| && st.uid == a.streams[i].uid && st.uid !in a.mate && st.peer == v
    requires v != 0 && st.pc == a.streams[i].pc && st.pc != Fresh && st.unacked == a.streams[i].unacked
    requires !HasWriter(a.mate, v)
    requires !WrittenBy(a.writer, a.streams[i]) && !HandledBy(a.handler, a.streams[i])
    ensures Local(Put(a, i, st).(mate := a.mate[st.uid := v]))
  {
    var mate' := a.mate[st.uid := v];
    var ss' := a.streams[i := st];
    forall k | 0 <= k < |ss'| ensures StreamOk(ss'[k], a.drawn, mate') {
      assert StreamOk(a.streams[k], a.drawn, a.mate);
    }
    WriterPut(a.writer, a.streams, i, st);
    HandlerPut(a.handler, a.streams, i, st);
  }

  /** Frames from the end that learns a new pair. */
  lemma PairWire(a: Endpoint, b: Endpoint, wire: seq<Frame>, u: nat, v: nat)
    requires Cross(a.mate, b.mate, b.drawn) && Cross(b.mate, a.mate, a.drawn) && MatesOk(b.mate, b.drawn)
    requires FramesOk(a.mate, a.drawn, b.mate, b.drawn, wire)
    requires u !in a.mate && v in b.mate && b.mate[v] == u
    ensures Cross(a.mate[u := v], b.mate, b.drawn)
    ensures FramesOk(a.mate[u := v], a.drawn, b.mate, b.drawn, wire)
  {
    forall k | 0 <= k < |wire| ensures FrameOk(a.mate[u := v], a.drawn, b.mate, b.drawn, wire[k]) {
      assert FrameOk(a.mate, a.drawn, b.mate, b.drawn, wire[k]);
    }
  }

  /** Frames to the end that learns a new pair. */
  lemma PairWireBack(a: Endpoint, b: Endpoint, wire: seq<Frame>, u: nat, v: nat)
    requires Cross(b.mate, a.mate, a.drawn) && MatesOk(b.mate, b.drawn) && StreamsOk(b.streams, b.drawn, b.mate)
    requires FramesOk(b.mate, b.drawn, a.mate, a.drawn, wire) && FreshOk(b.streams, a.mate, wire)
    requires AcceptOk(b.handler, a.mate, a.drawn, wire)
    requires u !in a.mate && v in b.mate && b.mate[v] == u && NoAccept(wire, u)
    requires b.handler.Responding? && b.handler.status == Ok ==> b.handler.peer != u
    ensures Cross(b.mate, a.mate[u := v], a.drawn)
    ensures FramesOk(b.mate, b.drawn, a.mate[u := v], a.drawn, wire) && FreshOk(b.streams, a.mate[u := v], wire)
    ensures AcceptOk(b.handler, a.mate[u := v], a.drawn, wire)
  {
    forall k | 0 <= k < |wire| ensures FrameOk(b.mate, b.drawn, a.mate[u := v], a.drawn, wire[k]) {
      assert FrameOk(b.mate, b.drawn, a.mate, a.drawn, wire[k]);
      StillNoWriter(a.mate, u, v, wire[k].src);
    }
    forall k | 0 <= k < |b.streams| && b.streams[k].pc == Fresh
      ensures !HasWriter(a.mate[u := v], b.streams[k].uid)
    {
      assert StreamOk(b.streams[k], b.drawn, b.mate);
      StillNoWriter(a.mate, u, v, b.streams[k].uid);
    }
  }

  lemma StillNoWriter(ma: Mates, u: nat, v: nat, r: nat)
    requires u !in ma
    ensures !HasWriter(ma, r) && r != v ==> !HasWriter(ma[u := v], r)
  {
  }

  // ----- registration ----------------------------------------------------------------------

  /** What makes a requester p acceptable: nothing about p is known here or in flight. */
  ghost predicate Acceptable(s: Sys, p: nat) {
    && 1 <= p <= s.far.drawn && p !in s.far.mate && !HasWriter(s.near.mate, p) && NoReq(s.inn, p)
    && forall k :: 0 <= k < |s.far.streams| && s.far.streams[k].pc == Fresh ==> s.far.streams[k].uid != p
  }

  lemma RegisterKeeps(s: Sys, p: nat, rwnd: nat, pc: Pc)
    requires Core(s)
    requires if p == 0 then pc == Fresh || pc == AwaitResp else Acceptable(s, p) && rwnd == RING && (pc == Live || pc == Unserved)
    ensures Core(s.(near := Register(s.near, p, rwnd, pc)))
  {
    var a, b := s.near, s.far;
    var t := s.(near := Register(a, p, rwnd, pc));
    var u := t.near.drawn;
    var st := t.near.streams[|a.streams|];
    assert u !in a.mate;
    assert !HasWriter(b.mate, u);
    NoDataFrom(a.mate, a.drawn, b.mate, b.drawn, s.out, u);
    NoAckFor(b.mate, b.drawn, a.mate, a.drawn, s.inn, u);
    assert a.writer != Sent(u) && forall k :: 0 <= k < |a.streams| ==> a.streams[k].uid < u by {
      assert forall k :: 0 <= k < |a.streams| ==> StreamOk(a.streams[k], a.drawn, a.mate);
    }
    assert Half(t) by {
      RegisterLocal(a, p, rwnd, pc);
      RegisterWire(a, b, s.out, p, rwnd, pc);
      if p != 0 {
        NewPairOrdered(a.mate, a.wrote, b.got, b.streams, s.out, u, p);
        NewPairBooks(a.mate, b.got, a.writer, a.streams, t.near.streams, b.streams, s.out, s.inn, |a.streams|);
      } else {
        SilentBooks(a.writer, a.streams, b.streams, s.out, s.inn, st);
      }
    }
    assert Half(Flip(t)) by {
      RegisterWireBack(a, b, s.inn, p, rwnd, pc);
      NewReader(b.mate, b.wrote, a.got, a.streams, s.inn, b.writer, b.streams, s.out, st);
    }
  }

  lemma RegisterLocal(a: Endpoint, p: nat, rwnd: nat, pc: Pc)
    requires Local(a) && (p == 0 || !HasWriter(a.mate, p))
    requires if p == 0 then pc == Fresh || pc == AwaitResp else pc == Live || pc == Unserved
    ensures Local(Register(a, p, rwnd, pc))
  {
    var a' := Register(a, p, rwnd, pc);
    forall k | 0 <= k < |a'.streams| ensures StreamOk(a'.streams[k], a'.drawn, a'.mate) {
      if k < |a.streams| { assert StreamOk(a.streams[k], a.drawn, a.mate); }
    }
    if !a.writer.Idle? {
      var k :| 0 <= k < |a.streams| && WrittenBy(a.writer, a.streams[k]);
      assert WrittenBy(a'.writer, a'.streams[k]);
    }
    if !a.handler.Reading? && a.handler.uid != 0 {
      var k :| 0 <= k < |a.streams| && HandledBy(a.handler, a.streams[k]);
      assert HandledBy(a'.handler, a'.streams[k]);
    }
  }

  lemma RegisterWire(a: Endpoint, b: Endpoint, wire: seq<Frame>, p: nat, rwnd: nat, pc: Pc)
    requires Local(a) && Cross(a.mate, b.mate, b.drawn) && Cross(b.mate, a.mate, a.drawn)
    requires FramesOk(a.mate, a.drawn, b.mate, b.drawn, wire) && FreshOk(a.streams, b.mate, wire)
    requires p != 0 ==> p !in b.mate && p <= b.drawn && pc != Fresh
    ensures var a' := Register(a, p, rwnd, pc);
      Cross(a'.mate, b.mate, b.drawn) && FramesOk(a'.mate, a'.drawn, b.mate, b.drawn, wire) && FreshOk(a'.streams, b.mate, wire)
  {
    var a' := Register(a, p, rwnd, pc);
    forall k | 0 <= k < |wire| ensures FrameOk(a'.mate, a'.drawn, b.mate, b.drawn, wire[k]) {
      assert FrameOk(a.mate, a.drawn, b.mate, b.drawn, wire[k]);
    }
    assert !HasWriter(b.mate, a'.drawn);
  }

  lemma RegisterWireBack(a: Endpoint, b: Endpoint, wire: seq<Frame>, p: nat, rwnd: nat, pc: Pc)
    requires Local(a) && Cross(b.mate, a.mate, a.drawn)
    requires FramesOk(b.mate, b.drawn, a.mate, a.drawn, wire) && FreshOk(b.streams, a.mate, wire)
    requires AcceptOk(b.handler, a.mate, a.drawn, wire)
    requires p != 0 ==> NoReq(wire, p) && forall k :: 0 <= k < |b.streams| && b.streams[k].pc == Fresh ==> b.streams[k].uid != p
    ensures var a' := Register(a, p, rwnd, pc);
      && Cross(b.mate, a'.mate, a'.drawn) && FramesOk(b.mate, b.drawn, a'.mate, a'.drawn, wire)
      && FreshOk(b.streams, a'.mate, wire) && AcceptOk(b.handler, a'.mate, a'.drawn, wire)
  {
    var a' := Register(a, p, rwnd, pc);
    forall k | 0 <= k < |wire| ensures FrameOk(b.mate, b.drawn, a'.mate, a'.drawn, wire[k]) {
      assert FrameOk(b.mate, b.drawn, a.mate, a.drawn, wire[k]);
      StillNoWriter(a.mate, a'.drawn, p, wire[k].src);
    }
    forall k | 0 <= k < |b.streams| && b.streams[k].pc == Fresh
      ensures !HasWriter(a'.mate, b.streams[k].uid)
    {
      StillNoWriter(a.mate, a'.drawn, p, b.streams[k].uid);
    }
  }

  /** A stream without a peer has no books. */
  lemma SilentBooks(wr: Writer, ws: seq<Stream>, rs: seq<Stream>, fwd: seq<Frame>, bwd: seq<Frame>, st: Stream)
    requires Conserved(wr, ws, rs, fwd, bwd) && Bounded(wr, ws, bwd) && st.peer == 0
    ensures Conserved(wr, ws + [st], rs, fwd, bwd) && Bounded(wr, ws + [st], bwd)
  {
    var ws' := ws + [st];
    forall k, j | 0 <= k < |ws'| && 0 <= j < |rs| && ws'[k].peer != 0 && rs[j].uid == ws'[k].peer
      ensures CreditSum(wr, ws'[k], rs[j], fwd, bwd) == RING
    {
      assert CreditSum(wr, ws[k], rs[j], fwd, bwd) == RING;
    }
  }

  /** A new reader that nobody writes to. */
  lemma NewReader(ma: Mates, wrote: Logs, got: Logs, rs: seq<Stream>, fwd: seq<Frame>, wr: Writer, ws: seq<Stream>,
      bwd: seq<Frame>, st: Stream)
    requires Untouched(ma, got, rs) && Ordered(ma, wrote, got, rs, fwd) && Fits(ma, rs, fwd)
    requires Conserved(wr, ws, rs, fwd, bwd)
    requires Blank(st) && !HasWriter(ma, st.uid) && forall k :: 0 <= k < |ws| && ws[k].peer != 0 ==> ws[k].peer != st.uid
    ensures Untouched(ma, got, rs + [st]) && Ordered(ma, wrote, got, rs + [st], fwd) && Fits(ma, rs + [st], fwd)
    ensures Conserved(wr, ws, rs + [st], fwd, bwd)
  {
    var rs' := rs + [st];
    forall k, j | 0 <= k < |ws| && 0 <= j < |rs'| && ws[k].peer != 0 && rs'[j].uid == ws[k].peer
      ensures CreditSum(wr, ws[k], rs'[j], fwd, bwd) == RING
    {
      assert CreditSum(wr, ws[k], rs[j], fwd, bwd) == RING;
    }
  }
}
