/** The clauses of the invariant under the edits that move payloads and credit. */
module CorpcFlow {
  import opened CorpcChannel
  import opened CorpcSystem
  import opened CorpcInvariant
  import opened CorpcKit
  import opened CorpcEdits

  // ----- facts about wires -----------------------------------------------------------------

  lemma {:induction false} NoDataFrom(ma: Mates, dA: nat, mb: Mates, dB: nat, wire: seq<Frame>, w: nat)
    requires FramesOk(ma, dA, mb, dB, wire) && w !in ma
    ensures InFlight(wire, w) == []
  {
    if wire != [] {
      assert FrameOk(ma, dA, mb, dB, wire[0]);
      assert forall k :: 0 <= k < |wire[1..]| ==> wire[1..][k] == wire[k + 1];
      NoDataFrom(ma, dA, mb, dB, wire[1..], w);
    }
  }

  lemma {:induction false} NoAckFor(ma: Mates, dA: nat, mb: Mates, dB: nat, wire: seq<Frame>, w: nat)
    requires FramesOk(ma, dA, mb, dB, wire) && w !in mb
    ensures Acks(wire, w) == 0
  {
    if wire != [] {
      assert FrameOk(ma, dA, mb, dB, wire[0]);
      assert forall k :: 0 <= k < |wire[1..]| ==> wire[1..][k] == wire[k + 1];
      NoAckFor(ma, dA, mb, dB, wire[1..], w);
    }
  }

  // ----- data out --------------------------------------------------------------------------

  /** send_data between the send and the decrement */
  lemma SendKeeps(s: Sys, i: nat, p: Payload)
    requires Core(s) && i < |s.near.streams| && s.near.streams[i].pc == Live
    requires s.near.writer == Ready(s.near.streams[i].uid)
    ensures Core(s.(near := SendData(s.near, i, p), out := s.out + [DataFrame(s.near, i, p)]))
  {
    var a, f := s.near, DataFrame(s.near, i, p);
    var t := s.(near := SendData(a, i, p), out := s.out + [f]);
    forall w
      ensures InFlight(t.out, w) == InFlight(s.out, w) + (if w == a.streams[i].uid then [p] else [])
      ensures Acks(t.out, w) == Acks(s.out, w)
    {
      InFlightAppend(s.out, f, w);
      AcksAppend(s.out, f, w);
    }
    SendNear(s, i, p, f, t);
    SendFar(s, i, p, f, t);
  }

  lemma SendNear(s: Sys, i: nat, p: Payload, f: Frame, t: Sys)
    requires Core(s) && i < |s.near.streams| && s.near.streams[i].pc == Live
    requires s.near.writer == Ready(s.near.streams[i].uid) && f == DataFrame(s.near, i, p)
    requires t == s.(near := SendData(s.near, i, p), out := s.out + [f])
    requires forall w :: InFlight(t.out, w) == InFlight(s.out, w) + (if w == s.near.streams[i].uid then [p] else [])
    requires forall w :: Acks(t.out, w) == Acks(s.out, w)
    ensures Half(t)
  {
    var a, b := s.near, s.far;
    assert StreamOk(a.streams[i], a.drawn, a.mate);
    FramesSend(a.mate, a.drawn, b.mate, b.drawn, s.out, f);
    OnceSend(s.out, f);
    FreshSend(a.streams, b.mate, s.out, f);
    AcceptSend(a.handler, b.mate, b.drawn, s.out, f);
    SendOrdered(a.mate, a.wrote, b.got, b.streams, s.out, t.out, a.streams[i].uid, p);
    SendBooks(s, i, p, f, t);
  }

  lemma SendBooks(s: Sys, i: nat, p: Payload, f: Frame, t: Sys)
    requires Half(s) && i < |s.near.streams| && s.near.streams[i].pc == Live
    requires s.near.writer == Ready(s.near.streams[i].uid) && t == s.(near := SendData(s.near, i, p), out := s.out + [f])
    requires forall w :: InFlight(t.out, w) == InFlight(s.out, w) + (if w == s.near.streams[i].uid then [p] else [])
    ensures Local(t.near) && Fits(t.near.mate, t.far.streams, t.out)
    ensures Bounded(t.near.writer, t.near.streams, t.inn)
    ensures Conserved(t.near.writer, t.near.streams, t.far.streams, t.out, t.inn)
  {
    var a, b := s.near, s.far;
    assert StreamOk(a.streams[i], a.drawn, a.mate);
    assert a.streams[i].rwnd >= 1 && WrittenBy(t.near.writer, a.streams[i]) by {
      var k :| 0 <= k < |a.streams| && WrittenBy(a.writer, a.streams[k]);
      assert k == i;
    }
    SendCredit(a.writer, a.streams, b.streams, s.out, s.inn, t.out, a.streams[i]);
    FitsFromCredit(t.near, b, s.out, t.out, s.inn, a.streams[i].uid);
  }

  lemma SendFar(s: Sys, i: nat, p: Payload, f: Frame, t: Sys)
    requires Core(s) && i < |s.near.streams| && t == s.(near := SendData(s.near, i, p), out := s.out + [f])
    requires forall w :: Acks(t.out, w) == Acks(s.out, w)
    ensures Half(Flip(t))
  {
    SameBooks(s.far.writer, s.far.streams, s.near.streams, s.inn, s.out, s.inn, t.out);
  }

  lemma SendOrdered(ma: Mates, wrote: Logs, got: Logs, rs: seq<Stream>, fwd: seq<Frame>, fwd': seq<Frame>, u: nat, p: Payload)
    requires Ordered(ma, wrote, got, rs, fwd)
    requires forall w :: InFlight(fwd', w) == InFlight(fwd, w) + (if w == u then [p] else [])
    ensures Ordered(ma, wrote[u := Log(wrote, u) + [p]], got, rs, fwd')
  {
    var wrote' := wrote[u := Log(wrote, u) + [p]];
    forall w, j {:trigger ma[w], rs[j]} | w in ma && 0 <= j < |rs| && rs[j].uid == ma[w]
      ensures Log(wrote', w) == Log(got, ma[w]) + rs[j].rxq + InFlight(fwd', w)
    {
      assert Log(wrote, w) == Log(got, ma[w]) + rs[j].rxq + InFlight(fwd, w);
      if w == u { AddLast(Log(got, ma[w]), rs[j].rxq, InFlight(fwd, w), p); }
    }
    forall w {:trigger ma[w]} | w in ma
      ensures Log(got, ma[w]) <= Log(wrote', w)
    {
      assert Log(got, ma[w]) <= Log(wrote, w);
    }
  }

  lemma AddLast(g: seq<Payload>, q: seq<Payload>, f: seq<Payload>, p: Payload)
    ensures g + q + f + [p] == g + q + (f + [p])
  {
  }

  lemma SendCredit(wr: Writer, ws: seq<Stream>, rs: seq<Stream>, fwd: seq<Frame>, bwd: seq<Frame>, fwd': seq<Frame>, st: Stream)
    requires Conserved(wr, ws, rs, fwd, bwd) && Bounded(wr, ws, bwd) && wr == Ready(st.uid) && st.rwnd >= 1
    requires forall k :: 0 <= k < |ws| && ws[k].uid == st.uid ==> ws[k] == st
    requires forall w :: |InFlight(fwd', w)| == |InFlight(fwd, w)| + (if w == st.uid then 1 else 0)
    ensures Conserved(Sent(st.uid), ws, rs, fwd', bwd) && Bounded(Sent(st.uid), ws, bwd)
  {
    var wr' := Sent(st.uid);
    forall k, j | 0 <= k < |ws| && 0 <= j < |rs| && ws[k].peer != 0 && rs[j].uid == ws[k].peer
      ensures CreditSum(wr', ws[k], rs[j], fwd', bwd) == RING
    {
      assert CreditSum(wr, ws[k], rs[j], fwd, bwd) == RING;
    }
    forall k | 0 <= k < |ws| && ws[k].peer != 0 ensures CreditBound(wr', ws[k], bwd) {
      assert CreditBound(wr, ws[k], bwd);
    }
  }

  /** After a send the window of the sending stream still fits, because its credit adds up. */
  lemma FitsFromCredit(a: Endpoint, b: Endpoint, fwd: seq<Frame>, fwd': seq<Frame>, bwd: seq<Frame>, u: nat)
    requires Fits(a.mate, b.streams, fwd) && StreamsOk(a.streams, a.drawn, a.mate) && Registered(a.streams, u)
    requires Conserved(a.writer, a.streams, b.streams, fwd', bwd) && Bounded(a.writer, a.streams, bwd)
    requires forall w :: w != u ==> InFlight(fwd', w) == InFlight(fwd, w)
    ensures Fits(a.mate, b.streams, fwd')
  {
    var i :| 0 <= i < |a.streams| && a.streams[i].uid == u;
    assert StreamOk(a.streams[i], a.drawn, a.mate);
    forall w, j {:trigger a.mate[w], b.streams[j]} | w in a.mate && 0 <= j < |b.streams| && b.streams[j].uid == a.mate[w]
      ensures |b.streams[j].rxq| + |InFlight(fwd', w)| <= RING
    {
      if w == u {
        assert CreditSum(a.writer, a.streams[i], b.streams[j], fwd', bwd) == RING;
        assert CreditBound(a.writer, a.streams[i], bwd);
      }
    }
  }

  ghost predicate Registered(ss: seq<Stream>, u: nat) { exists i :: 0 <= i < |ss| && ss[i].uid == u }

  /** the decrement of rwnd, and the release of the lock */
  lemma DebitKeeps(s: Sys, i: nat)
    requires Core(s) && i < |s.near.streams| && s.near.streams[i].pc == Live
    requires s.near.writer == Sent(s.near.streams[i].uid)
    ensures Core(s.(near := Debit(s.near, i)))
  {
    var st' := s.near.streams[i].(rwnd := s.near.streams[i].rwnd - 1);
    DebitHere(s, i, st');
    DebitThere(s, i, st');
  }

  lemma DebitHere(s: Sys, i: nat, st: Stream)
    requires Half(s) && i < |s.near.streams| && s.near.streams[i].pc == Live && s.near.writer == Sent(s.near.streams[i].uid)
    requires st == s.near.streams[i].(rwnd := st.rwnd) && st.rwnd as int == s.near.streams[i].rwnd - 1
    ensures Half(s.(near := Put(s.near, i, st).(writer := Idle)))
    ensures Debit(s.near, i) == Put(s.near, i, st).(writer := Idle)
  {
    var a, b := s.near, s.far;
    assert StreamOk(a.streams[i], a.drawn, a.mate);
    assert CreditBound(a.writer, a.streams[i], s.inn);
    StreamsPut(a.streams, a.drawn, a.mate, i, st);
    HandlerPut(a.handler, a.streams, i, st);
    FreshPut(a.streams, b.mate, s.out, i, st);
    DebitBooks(a.writer, a.streams, b.streams, s.out, s.inn, i, st);
  }

  lemma DebitThere(s: Sys, i: nat, st: Stream)
    requires Half(Flip(s)) && i < |s.near.streams| && st == s.near.streams[i].(rwnd := st.rwnd)
    ensures Half(Flip(s.(near := Put(s.near, i, st).(writer := Idle))))
  {
    var a, b := s.near, s.far;
    UntouchedPut(b.mate, a.got, a.streams, i, st);
    OrderedPut(b.mate, b.wrote, a.got, a.streams, s.inn, i, st);
    FitsPut(b.mate, a.streams, s.inn, i, st);
    ConservedPutReader(b.writer, b.streams, a.streams, s.inn, s.out, i, st);
  }

  lemma DebitBooks(wr: Writer, ws: seq<Stream>, rs: seq<Stream>, fwd: seq<Frame>, bwd: seq<Frame>, i: nat, st: Stream)
    requires Conserved(wr, ws, rs, fwd, bwd) && Bounded(wr, ws, bwd) && i < |ws| && wr == Sent(st.uid)
    requires ws[i].rwnd >= 1 && st == ws[i].(rwnd := ws[i].rwnd - 1)
    requires forall j, k :: 0 <= j < k < |ws| ==> ws[j].uid != ws[k].uid
    ensures Conserved(Idle, ws[i := st], rs, fwd, bwd) && Bounded(Idle, ws[i := st], bwd)
  {
    var ws' := ws[i := st];
    forall k | 0 <= k < |ws'| && ws'[k].peer != 0 ensures CreditBound(Idle, ws'[k], bwd) {
      assert CreditBound(wr, ws[k], bwd);
    }
    forall k, j | 0 <= k < |ws'| && 0 <= j < |rs| && ws'[k].peer != 0 && rs[j].uid == ws'[k].peer
      ensures CreditSum(Idle, ws'[k], rs[j], fwd, bwd) == RING
    {
      assert CreditSum(wr, ws[k], rs[j], fwd, bwd) == RING;
    }
  }

  // ----- data in ---------------------------------------------------------------------------

  lemma ReadKeeps(s: Sys, i: nat)
    requires Core(s) && i < |s.near.streams| && s.near.streams[i].pc == Live && s.near.streams[i].rxq != []
    ensures Core(s.(near := Pop(s.near, i)))
  {
    var a, b := s.near, s.far;
    var st := a.streams[i];
    var t := s.(near := Pop(a, i));
    var st' := t.near.streams[i];
    assert StreamOk(st, a.drawn, a.mate);
    assert HasWriter(b.mate, st.uid) by { assert !Blank(st); }
    assert Half(t) by {
      StreamsPut(a.streams, a.drawn, a.mate, i, st');
      WriterPut(a.writer, a.streams, i, st');
      HandlerPut(a.handler, a.streams, i, st');
      FreshPut(a.streams, b.mate, s.out, i, st');
      assert st.peer != 0 ==> CreditBound(a.writer, st, s.inn);
      BoundedPut(a.writer, a.streams, s.inn, i, st');
      ConservedPut(a.writer, a.streams, b.streams, s.out, s.inn, i, st');
    }
    assert Half(Flip(t)) by {
      UntouchedPut(b.mate, a.got, a.streams, i, st');
      ReadOrdered(b.mate, b.wrote, a.got, a.streams, s.inn, i, st');
      FitsPut(b.mate, a.streams, s.inn, i, st');
      ConservedPutReader(b.writer, b.streams, a.streams, s.inn, s.out, i, st');
    }
  }

  lemma ReadOrdered(ma: Mates, wrote: Logs, got: Logs, rs: seq<Stream>, fwd: seq<Frame>, i: nat, st: Stream)
    requires Ordered(ma, wrote, got, rs, fwd) && i < |rs| && st.uid == rs[i].uid
    requires forall j, k :: 0 <= j < k < |rs| ==> rs[j].uid != rs[k].uid
    requires rs[i].rxq != [] && st.rxq == rs[i].rxq[1..]
    ensures Ordered(ma, wrote, got[st.uid := Log(got, st.uid) + [rs[i].rxq[0]]], rs[i := st], fwd)
  {
    var got' := got[st.uid := Log(got, st.uid) + [rs[i].rxq[0]]];
    var rs' := rs[i := st];
    forall w, j {:trigger ma[w], rs'[j]} | w in ma && 0 <= j < |rs'| && rs'[j].uid == ma[w]
      ensures Log(wrote, w) == Log(got', ma[w]) + rs'[j].rxq + InFlight(fwd, w)
    {
      assert Log(wrote, w) == Log(got, ma[w]) + rs[j].rxq + InFlight(fwd, w);
      if j == i { MoveHead(Log(got, ma[w]), rs[i].rxq, InFlight(fwd, w)); }
    }
    forall w {:trigger ma[w]} | w in ma
      ensures Log(got', ma[w]) <= Log(wrote, w)
    {
      assert Log(got, ma[w]) <= Log(wrote, w);
      if ma[w] == st.uid {
        assert Log(wrote, w) == Log(got, ma[w]) + rs[i].rxq + InFlight(fwd, w);
        MoveHead(Log(got, ma[w]), rs[i].rxq, InFlight(fwd, w));
      }
    }
  }

  lemma MoveHead(g: seq<Payload>, q: seq<Payload>, f: seq<Payload>)
    requires q != []
    ensures g + q + f == (g + [q[0]]) + q[1..] + f
    ensures g + [q[0]] <= g + q + f
  {
    assert q == [q[0]] + q[1..];
  }

  /** The acknowledgement is not sent: the credit is lost. */
  lemma AckLostKeeps(s: Sys, i: nat)
    requires Core(s) && i < |s.near.streams| && s.near.streams[i].pc == Live && s.near.streams[i].unacked > 0
    ensures Core(s.(near := Acknowledge(s.near, i, false)))
  {
    var a, b := s.near, s.far;
    var st := a.streams[i];
    var t := s.(near := Acknowledge(a, i, false));
    var st' := t.near.streams[i];
    assert StreamOk(st, a.drawn, a.mate);
    assert !Blank(st);
    assert Half(t) by {
      StreamsPut(a.streams, a.drawn, a.mate, i, st');
      WriterPut(a.writer, a.streams, i, st');
      HandlerPut(a.handler, a.streams, i, st');
      FreshPut(a.streams, b.mate, s.out, i, st');
      assert CreditBound(a.writer, st, s.inn);
      BoundedPut(a.writer, a.streams, s.inn, i, st');
      ConservedPut(a.writer, a.streams, b.streams, s.out, s.inn, i, st');
    }
    assert Half(Flip(t)) by {
      UntouchedPut(b.mate, a.got, a.streams, i, st');
      OrderedPut(b.mate, b.wrote, a.got, a.streams, s.inn, i, st');
      FitsPut(b.mate, a.streams, s.inn, i, st');
      ConservedPutReader(b.writer, b.streams, a.streams, s.inn, s.out, i, st');
    }
  }

  /** The acknowledgement goes out. */
  lemma AckKeeps(s: Sys, i: nat)
    requires Core(s) && i < |s.near.streams| && s.near.streams[i].pc == Live && s.near.streams[i].unacked > 0
    ensures Core(s.(near := Acknowledge(s.near, i, true), out := s.out + [Ack(s.near.streams[i].uid, s.near.streams[i].peer)]))
  {
    var a, b := s.near, s.far;
    var st := a.streams[i];
    var f := Ack(st.uid, st.peer);
    var t := s.(near := Acknowledge(a, i, true), out := s.out + [f]);
    var st' := t.near.streams[i];
    assert StreamOk(st, a.drawn, a.mate);
    assert st.peer in b.mate && b.mate[st.peer] == st.uid by {
      assert !Blank(st);
      assert HasWriter(b.mate, st.uid);
      var w :| w in b.mate && b.mate[w] == st.uid;
      assert a.mate[st.uid] == w;
    }
    forall w
      ensures InFlight(t.out, w) == InFlight(s.out, w)
      ensures Acks(t.out, w) == Acks(s.out, w) + (if w == st.peer then 1 else 0)
    {
      InFlightAppend(s.out, f, w);
      AcksAppend(s.out, f, w);
    }
    assert Half(t) by {
      StreamsPut(a.streams, a.drawn, a.mate, i, st');
      WriterPut(a.writer, a.streams, i, st');
      HandlerPut(a.handler, a.streams, i, st');
      FreshPut(a.streams, b.mate, s.out, i, st');
      FramesSend(a.mate, a.drawn, b.mate, b.drawn, s.out, f);
      OnceSend(s.out, f);
      FreshSend(t.near.streams, b.mate, s.out, f);
      AcceptSend(a.handler, b.mate, b.drawn, s.out, f);
      SameOrder(a.mate, a.wrote, b.got, b.streams, s.out, t.out);
      SameFit(a.mate, b.streams, s.out, t.out);
      assert CreditBound(a.writer, st, s.inn);
      BoundedPut(a.writer, a.streams, s.inn, i, st');
      ConservedPut(a.writer, a.streams, b.streams, s.out, s.inn, i, st');
      SameBooks(a.writer, t.near.streams, b.streams, s.out, s.inn, t.out, s.inn);
    }
    assert Half(Flip(t)) by {
      UntouchedPut(b.mate, a.got, a.streams, i, st');
      OrderedPut(b.mate, b.wrote, a.got, a.streams, s.inn, i, st');
      FitsPut(b.mate, a.streams, s.inn, i, st');
      AckCredit(b, a, s.inn, s.out, t.out, i, st');
    }
  }

  /** The books of the writers at a when reader i of b acknowledges one message. */
  lemma AckCredit(a: Endpoint, b: Endpoint, fwd: seq<Frame>, bwd: seq<Frame>, bwd': seq<Frame>, i: nat, st: Stream)
    requires Conserved(a.writer, a.streams, b.streams, fwd, bwd) && Bounded(a.writer, a.streams, bwd)
    requires StreamsOk(a.streams, a.drawn, a.mate) && MatesOk(a.mate, a.drawn)
    requires i < |b.streams| && b.streams[i].unacked > 0 && st == b.streams[i].(unacked := b.streams[i].unacked - 1)
    requires forall j, k :: 0 <= j < k < |b.streams| ==> b.streams[j].uid != b.streams[k].uid
    requires st.peer in a.mate && a.mate[st.peer] == st.uid
    requires forall w :: Acks(bwd', w) == Acks(bwd, w) + (if w == st.peer then 1 else 0)
    ensures Conserved(a.writer, a.streams, b.streams[i := st], fwd, bwd') && Bounded(a.writer, a.streams, bwd')
  {
    var rs' := b.streams[i := st];
    forall k, j | 0 <= k < |a.streams| && 0 <= j < |rs'| && a.streams[k].peer != 0 && rs'[j].uid == a.streams[k].peer
      ensures CreditSum(a.writer, a.streams[k], rs'[j], fwd, bwd') == RING
    {
      assert CreditSum(a.writer, a.streams[k], b.streams[j], fwd, bwd) == RING;
      assert StreamOk(a.streams[k], a.drawn, a.mate);
      assert a.streams[k].uid == st.peer <==> j == i;
    }
    forall k | 0 <= k < |a.streams| && a.streams[k].peer != 0
      ensures CreditBound(a.writer, a.streams[k], bwd')
    {
      assert CreditBound(a.writer, a.streams[k], bwd);
      assert StreamOk(a.streams[k], a.drawn, a.mate);
      if a.streams[k].uid == st.peer {
        assert CreditSum(a.writer, a.streams[k], b.streams[i], fwd, bwd) == RING;
      }
    }
  }
}
