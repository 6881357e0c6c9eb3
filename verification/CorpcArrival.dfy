/** The clauses of the invariant under the receipt of a frame and the registration of a stream. */
module CorpcArrival {
  import opened CorpcChannel
  import opened CorpcSystem
  import opened CorpcInvariant
  import opened CorpcKit
  import opened CorpcEdits
  import opened CorpcFlow

  // ----- taking a frame off the wire -------------------------------------------------------

  lemma TailFrames(ma: Mates, dA: nat, mb: Mates, dB: nat, wire: seq<Frame>, ss: seq<Stream>, h: Handler)
    requires wire != [] && FramesOk(ma, dA, mb, dB, wire) && Once(wire) && FreshOk(ss, mb, wire) && AcceptOk(h, mb, dB, wire)
    ensures FramesOk(ma, dA, mb, dB, wire[1..]) && Once(wire[1..]) && FreshOk(ss, mb, wire[1..]) && AcceptOk(h, mb, dB, wire[1..])
    ensures wire[0].CreateReq? ==> NoReq(wire[1..], wire[0].src)
    ensures IsAccept(wire[0]) ==> NoAccept(wire[1..], wire[0].dst)
  {
    assert forall k :: 0 <= k < |wire[1..]| ==> wire[1..][k] == wire[k + 1];
  }

  /** A frame that is neither data nor an acknowledgement leaves the books as they were. */
  lemma PopQuiet(s: Sys)
    requires Core(s) && s.inn != [] && !s.inn[0].Data? && !s.inn[0].Ack?
    ensures Core(s.(inn := s.inn[1..]))
  {
    var a, b := s.near, s.far;
    var t := s.(inn := s.inn[1..]);
    assert Half(t) by {
      SameBooks(a.writer, a.streams, b.streams, s.out, s.inn, s.out, t.inn);
    }
    assert Half(Flip(t)) by {
      TailFrames(b.mate, b.drawn, a.mate, a.drawn, s.inn, b.streams, b.handler);
      SameOrder(b.mate, b.wrote, a.got, a.streams, s.inn, t.inn);
      SameFit(b.mate, a.streams, s.inn, t.inn);
      SameBooks(b.writer, b.streams, a.streams, s.inn, s.out, t.inn, s.out);
    }
  }

  // ----- acknowledgements ------------------------------------------------------------------

  /** An acknowledgement for a stream that is gone is dropped. */
  lemma AckDropped(s: Sys)
    requires Core(s) && s.inn != [] && s.inn[0].Ack?
    requires forall k :: 0 <= k < |s.near.streams| ==> s.near.streams[k].uid != s.inn[0].dst
    ensures Core(s.(inn := s.inn[1..]))
  {
    var a, b := s.near, s.far;
    var t := s.(inn := s.inn[1..]);
    assert Half(t) by {
      forall k | 0 <= k < |a.streams| && a.streams[k].peer != 0 ensures CreditBound(a.writer, a.streams[k], t.inn) {
        assert CreditBound(a.writer, a.streams[k], s.inn);
      }
      forall k, j | 0 <= k < |a.streams| && 0 <= j < |b.streams| && a.streams[k].peer != 0 && b.streams[j].uid == a.streams[k].peer
        ensures CreditSum(a.writer, a.streams[k], b.streams[j], s.out, t.inn) == RING
      {
        assert CreditSum(a.writer, a.streams[k], b.streams[j], s.out, s.inn) == RING;
      }
    }
    AckTaken(s);
  }

  /** Seen from the end that sent it, taking an acknowledgement off the wire changes nothing. */
  lemma AckTaken(s: Sys)
    requires Half(Flip(s)) && s.inn != [] && s.inn[0].Ack?
    ensures Half(Flip(s.(inn := s.inn[1..])))
  {
    var a, b := s.near, s.far;
    var inn' := s.inn[1..];
    TailFrames(b.mate, b.drawn, a.mate, a.drawn, s.inn, b.streams, b.handler);
    SameOrder(b.mate, b.wrote, a.got, a.streams, s.inn, inn');
    SameFit(b.mate, a.streams, s.inn, inn');
    SameBooks(b.writer, b.streams, a.streams, s.inn, s.out, inn', s.out);
  }

  /** An acknowledgement becomes a credit; the 16-bit counter cannot wrap. */
  lemma AckArrives(s: Sys, i: nat)
    requires Core(s) && s.inn != [] && s.inn[0].Ack?
    requires i < |s.near.streams| && s.near.streams[i].uid == s.inn[0].dst
    ensures Core(s.(near := OnAckAt(s.near, i), inn := s.inn[1..]))
  {
    AckNoWrap(s, i);
    AckCredited(s, i, s.near.streams[i].(rwnd := s.near.streams[i].rwnd + 1));
    AckTaken(s);
    AckBack(s.(inn := s.inn[1..]), i, s.near.streams[i].(rwnd := s.near.streams[i].rwnd + 1));
  }

  lemma AckNoWrap(s: Sys, i: nat)
    requires Half(s) && Half(Flip(s)) && s.inn != [] && s.inn[0].Ack?
    requires i < |s.near.streams| && s.near.streams[i].uid == s.inn[0].dst
    ensures s.near.streams[i].peer != 0
    ensures OnAckAt(s.near, i).streams[i] == s.near.streams[i].(rwnd := s.near.streams[i].rwnd + 1)
  {
    assert FrameOk(s.far.mate, s.far.drawn, s.near.mate, s.near.drawn, s.inn[0]);
    assert StreamOk(s.near.streams[i], s.near.drawn, s.near.mate);
    BelowMax(s.near, i, s.inn);
  }

  lemma BelowMax(e: Endpoint, i: nat, bwd: seq<Frame>)
    requires Bounded(e.writer, e.streams, bwd) && i < |e.streams| && e.streams[i].peer != 0
    ensures e.streams[i].rwnd <= RING + 1
    ensures OnAckAt(e, i).streams[i] == e.streams[i].(rwnd := e.streams[i].rwnd + 1)
  {
    assert CreditBound(e.writer, e.streams[i], bwd);
  }

  lemma AckCredited(s: Sys, i: nat, st: Stream)
    requires Half(s) && s.inn != [] && s.inn[0].Ack?
    requires i < |s.near.streams| && s.near.streams[i].uid == s.inn[0].dst
    requires st == s.near.streams[i].(rwnd := s.near.streams[i].rwnd + 1)
    ensures Half(s.(near := Put(s.near, i, st), inn := s.inn[1..]))
  {
    var a, b := s.near, s.far;
    assert StreamOk(a.streams[i], a.drawn, a.mate);
    StreamsPut(a.streams, a.drawn, a.mate, i, st);
    WriterPut(a.writer, a.streams, i, st);
    HandlerPut(a.handler, a.streams, i, st);
    FreshPut(a.streams, b.mate, s.out, i, st);
    AckBooks(a, b, s.out, s.inn, i, st);
  }

  /** The far end does not see credit. */
  lemma AckBack(s: Sys, i: nat, st: Stream)
    requires Half(Flip(s)) && i < |s.near.streams|
    requires st == s.near.streams[i].(rwnd := st.rwnd)
    ensures Half(Flip(s.(near := Put(s.near, i, st))))
  {
    var a, b := s.near, s.far;
    UntouchedPut(b.mate, a.got, a.streams, i, st);
    OrderedPut(b.mate, b.wrote, a.got, a.streams, s.inn, i, st);
    FitsPut(b.mate, a.streams, s.inn, i, st);
    ConservedPutReader(b.writer, b.streams, a.streams, s.inn, s.out, i, st);
  }

  lemma AckBooks(a: Endpoint, b: Endpoint, fwd: seq<Frame>, bwd: seq<Frame>, i: nat, st: Stream)
    requires Conserved(a.writer, a.streams, b.streams, fwd, bwd) && Bounded(a.writer, a.streams, bwd)
    requires bwd != [] && bwd[0].Ack? && i < |a.streams| && a.streams[i].uid == bwd[0].dst
    requires forall j, k :: 0 <= j < k < |a.streams| ==> a.streams[j].uid != a.streams[k].uid
    requires st == a.streams[i].(rwnd := a.streams[i].rwnd + 1)
    ensures Conserved(a.writer, a.streams[i := st], b.streams, fwd, bwd[1..]) && Bounded(a.writer, a.streams[i := st], bwd[1..])
  {
    var ws' := a.streams[i := st];
    forall k | 0 <= k < |ws'| && ws'[k].peer != 0 ensures CreditBound(a.writer, ws'[k], bwd[1..]) {
      assert CreditBound(a.writer, a.streams[k], bwd);
    }
    forall k, j | 0 <= k < |ws'| && 0 <= j < |b.streams| && ws'[k].peer != 0 && b.streams[j].uid == ws'[k].peer
      ensures CreditSum(a.writer, ws'[k], b.streams[j], fwd, bwd[1..]) == RING
    {
      assert CreditSum(a.writer, a.streams[k], b.streams[j], fwd, bwd) == RING;
    }
  }

  // ----- data ------------------------------------------------------------------------------

  /** The ring of the addressed stream has room. */
  lemma RoomForData(s: Sys, i: nat)
    requires Core(s) && s.inn != [] && s.inn[0].Data?
    requires i < |s.near.streams| && s.near.streams[i].uid == s.inn[0].dst
    ensures |s.near.streams[i].rxq| < RING
  {
    var f := s.inn[0];
    assert FrameOk(s.far.mate, s.far.drawn, s.near.mate, s.near.drawn, f);
    assert s.far.mate[f.src] == s.near.streams[i].uid;
    assert InFlight(s.inn, f.src) == [f.payload] + InFlight(s.inn[1..], f.src);
  }

  lemma DataArrives(s: Sys, i: nat)
    requires Core(s) && s.inn != [] && s.inn[0].Data?
    requires i < |s.near.streams| && s.near.streams[i].uid == s.inn[0].dst
    ensures Core(s.(near := Put(s.near, i, s.near.streams[i].(rxq := s.near.streams[i].rxq + [s.inn[0].payload])), inn := s.inn[1..]))
  {
    var a, b := s.near, s.far;
    var f := s.inn[0];
    var st := a.streams[i];
    var st' := st.(rxq := st.rxq + [f.payload]);
    var t := s.(near := Put(a, i, st'), inn := s.inn[1..]);
    assert FrameOk(b.mate, b.drawn, a.mate, a.drawn, f);
    assert StreamOk(st, a.drawn, a.mate);
    assert Half(t) by {
      StreamsPut(a.streams, a.drawn, a.mate, i, st');
      WriterPut(a.writer, a.streams, i, st');
      HandlerPut(a.handler, a.streams, i, st');
      FreshPut(a.streams, b.mate, s.out, i, st');
      BoundedPut(a.writer, a.streams, s.inn, i, st');
      ConservedPut(a.writer, a.streams, b.streams, s.out, s.inn, i, st');
      SameBooks(a.writer, t.near.streams, b.streams, s.out, s.inn, s.out, t.inn);
    }
    assert Half(Flip(t)) by {
      assert HasWriter(b.mate, st.uid);
      UntouchedPut(b.mate, a.got, a.streams, i, st');
      TailFrames(b.mate, b.drawn, a.mate, a.drawn, s.inn, b.streams, b.handler);
      DataBooks(b, a, s.inn, s.out, i, st');
    }
  }

  lemma DataBooks(a: Endpoint, b: Endpoint, fwd: seq<Frame>, bwd: seq<Frame>, i: nat, st: Stream)
    requires Ordered(a.mate, a.wrote, b.got, b.streams, fwd) && Fits(a.mate, b.streams, fwd)
    requires Conserved(a.writer, a.streams, b.streams, fwd, bwd) && Bounded(a.writer, a.streams, bwd)
    requires StreamsOk(a.streams, a.drawn, a.mate) && MatesOk(a.mate, a.drawn)
    requires forall j, k :: 0 <= j < k < |b.streams| ==> b.streams[j].uid != b.streams[k].uid
    requires fwd != [] && fwd[0].Data? && fwd[0].src in a.mate && a.mate[fwd[0].src] == fwd[0].dst
    requires i < |b.streams| && b.streams[i].uid == fwd[0].dst
    requires st == b.streams[i].(rxq := b.streams[i].rxq + [fwd[0].payload])
    ensures Ordered(a.mate, a.wrote, b.got, b.streams[i := st], fwd[1..]) && Fits(a.mate, b.streams[i := st], fwd[1..])
    ensures Conserved(a.writer, a.streams, b.streams[i := st], fwd[1..], bwd)
  {
    var rs' := b.streams[i := st];
    var f := fwd[0];
    forall w, j {:trigger a.mate[w], rs'[j]} | w in a.mate && 0 <= j < |rs'| && rs'[j].uid == a.mate[w]
      ensures Log(a.wrote, w) == Log(b.got, a.mate[w]) + rs'[j].rxq + InFlight(fwd[1..], w)
      ensures |rs'[j].rxq| + |InFlight(fwd[1..], w)| <= RING
    {
      assert Log(a.wrote, w) == Log(b.got, a.mate[w]) + b.streams[j].rxq + InFlight(fwd, w);
      assert w == f.src <==> j == i;
      if j == i {
        assert InFlight(fwd, w) == [f.payload] + InFlight(fwd[1..], w);
      }
    }
    forall k, j | 0 <= k < |a.streams| && 0 <= j < |rs'| && a.streams[k].peer != 0 && rs'[j].uid == a.streams[k].peer
      ensures CreditSum(a.writer, a.streams[k], rs'[j], fwd[1..], bwd) == RING
    {
      assert CreditSum(a.writer, a.streams[k], b.streams[j], fwd, bwd) == RING;
      assert StreamOk(a.streams[k], a.drawn, a.mate);
      assert a.streams[k].uid == f.src <==> j == i;
    }
  }

  /** Data for a stream that is gone: the channel goes down, nothing else changes. */
  lemma DataDropped(s: Sys)
    requires Core(s) && s.inn != [] && s.inn[0].Data?
    requires forall k :: 0 <= k < |s.near.streams| ==> s.near.streams[k].uid != s.inn[0].dst
    ensures Core(s.(inn := s.inn[1..]))
  {
    DroppedHere(s, s.(inn := s.inn[1..]));
    DroppedThere(s, s.(inn := s.inn[1..]));
  }

  lemma DroppedHere(s: Sys, t: Sys)
    requires Half(s) && s.inn != [] && s.inn[0].Data? && t == s.(inn := s.inn[1..])
    ensures Half(t)
  {
    SameBooks(s.near.writer, s.near.streams, s.far.streams, s.out, s.inn, s.out, t.inn);
  }

  lemma DroppedThere(s: Sys, t: Sys)
    requires Core(s) && s.inn != [] && s.inn[0].Data? && t == s.(inn := s.inn[1..])
    requires forall k :: 0 <= k < |s.near.streams| ==> s.near.streams[k].uid != s.inn[0].dst
    ensures Half(Flip(t))
  {
    var a, b := s.near, s.far;
    assert FrameOk(b.mate, b.drawn, a.mate, a.drawn, s.inn[0]);
    TailFrames(b.mate, b.drawn, a.mate, a.drawn, s.inn, b.streams, b.handler);
    forall w, j {:trigger b.mate[w], a.streams[j]} | w in b.mate && 0 <= j < |a.streams| && a.streams[j].uid == b.mate[w]
      ensures InFlight(s.inn, w) == InFlight(t.inn, w)
    {
    }
    forall k, j | 0 <= k < |b.streams| && 0 <= j < |a.streams| && b.streams[k].peer != 0 && a.streams[j].uid == b.streams[k].peer
      ensures CreditSum(b.writer, b.streams[k], a.streams[j], t.inn, s.out) == RING
    {
      assert CreditSum(b.writer, b.streams[k], a.streams[j], s.inn, s.out) == RING;
      assert StreamOk(b.streams[k], b.drawn, b.mate);
    }
  }
}
