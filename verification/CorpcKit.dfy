/** How each clause of the invariant survives the elementary edits that steps are made of:
    replacing, erasing and appending a stream, and sending or receiving a frame. */
module CorpcKit {
  import opened CorpcChannel
  import opened CorpcSystem
  import opened CorpcInvariant

  // ----- ids -------------------------------------------------------------------------------

  lemma IdsShrink(drawn: nat, mine: seq<Stream>, out: seq<Frame>, inn: seq<Frame>, theirs: seq<Stream>, h: Handler,
                  mine': seq<Stream>, out': seq<Frame>, inn': seq<Frame>, theirs': seq<Stream>, h': Handler)
    requires IdsDistinct(drawn, mine, out, inn, theirs, h)
    requires forall x: nat :: Named(mine', out', inn', theirs', h', x) ==> Named(mine, out, inn, theirs, h, x)
    ensures IdsDistinct(drawn, mine', out', inn', theirs', h')
  {
  }

  /** Replacing a stream by one with the same ids. */
  lemma IdsPut(drawn: nat, mine: seq<Stream>, out: seq<Frame>, inn: seq<Frame>, theirs: seq<Stream>, h: Handler, i: nat, st: Stream)
    requires IdsDistinct(drawn, mine, out, inn, theirs, h)
    requires i < |mine| && st.uid == mine[i].uid
    ensures IdsDistinct(drawn, mine[i := st], out, inn, theirs, h)
  {
    var mine' := mine[i := st];
    forall x: nat | Named(mine', out, inn, theirs, h, x)
      ensures Named(mine, out, inn, theirs, h, x)
    {
      if k :| 0 <= k < |mine'| && mine'[k].uid == x { assert mine[k].uid == x; }
    }
    IdsShrink(drawn, mine, out, inn, theirs, h, mine', out, inn, theirs, h);
  }

  lemma IdsPutTheirs(drawn: nat, mine: seq<Stream>, out: seq<Frame>, inn: seq<Frame>, theirs: seq<Stream>, h: Handler, i: nat, st: Stream)
    requires IdsDistinct(drawn, mine, out, inn, theirs, h)
    requires i < |theirs| && st.peer == theirs[i].peer
    ensures IdsDistinct(drawn, mine, out, inn, theirs[i := st], h)
  {
    var theirs' := theirs[i := st];
    forall x: nat | Named(mine, out, inn, theirs', h, x)
      ensures Named(mine, out, inn, theirs, h, x)
    {
      if k :| 0 <= k < |theirs'| && theirs'[k].peer == x { assert theirs[k].peer == x; }
    }
    IdsShrink(drawn, mine, out, inn, theirs, h, mine, out, inn, theirs', h);
  }

  lemma IdsErase(drawn: nat, mine: seq<Stream>, out: seq<Frame>, inn: seq<Frame>, theirs: seq<Stream>, h: Handler, i: nat)
    requires IdsDistinct(drawn, mine, out, inn, theirs, h) && i < |mine|
    ensures IdsDistinct(drawn, Erase(mine, i), out, inn, theirs, h)
  {
    var mine' := Erase(mine, i);
    forall x: nat | Named(mine', out, inn, theirs, h, x)
      ensures Named(mine, out, inn, theirs, h, x)
    {
      if k :| 0 <= k < |mine'| && mine'[k].uid == x { assert mine[if k < i then k else k + 1].uid == x; }
    }
    IdsShrink(drawn, mine, out, inn, theirs, h, mine', out, inn, theirs, h);
  }

  lemma IdsEraseTheirs(drawn: nat, mine: seq<Stream>, out: seq<Frame>, inn: seq<Frame>, theirs: seq<Stream>, h: Handler, i: nat)
    requires IdsDistinct(drawn, mine, out, inn, theirs, h) && i < |theirs|
    ensures IdsDistinct(drawn, mine, out, inn, Erase(theirs, i), h)
  {
    var theirs' := Erase(theirs, i);
    forall x: nat | Named(mine, out, inn, theirs', h, x)
      ensures Named(mine, out, inn, theirs, h, x)
    {
      if k :| 0 <= k < |theirs'| && theirs'[k].peer == x { assert theirs[if k < i then k else k + 1].peer == x; }
    }
    IdsShrink(drawn, mine, out, inn, theirs, h, mine, out, inn, theirs', h);
  }

  /** Sending a frame whose source, if it names one, is already alive. */
  lemma IdsSend(drawn: nat, mine: seq<Stream>, out: seq<Frame>, inn: seq<Frame>, theirs: seq<Stream>, h: Handler, f: Frame)
    requires IdsDistinct(drawn, mine, out, inn, theirs, h)
    requires (f.CreateReq? || f.CreateResp?) && f.src != 0 ==> Named(mine, out, inn, theirs, h, f.src)
    ensures IdsDistinct(drawn, mine, out + [f], inn, theirs, h)
  {
    forall x: nat | Named(mine, out + [f], inn, theirs, h, x)
      ensures Named(mine, out, inn, theirs, h, x)
    {
      if k :| 0 <= k < |out + [f]| && ((out + [f])[k].CreateReq? || (out + [f])[k].CreateResp?) && (out + [f])[k].src == x {
        if k < |out| { assert out[k].src == x; }
      }
    }
    IdsShrink(drawn, mine, out, inn, theirs, h, mine, out + [f], inn, theirs, h);
  }

  /** The same frame seen from its receiver: its destination must be alive. */
  lemma IdsSentTo(drawn: nat, mine: seq<Stream>, out: seq<Frame>, inn: seq<Frame>, theirs: seq<Stream>, h: Handler, f: Frame)
    requires IdsDistinct(drawn, mine, out, inn, theirs, h)
    requires !f.CreateReq? && f.dst != 0 ==> Named(mine, out, inn, theirs, h, f.dst)
    ensures IdsDistinct(drawn, mine, out, inn + [f], theirs, h)
  {
    forall x: nat | Named(mine, out, inn + [f], theirs, h, x)
      ensures Named(mine, out, inn, theirs, h, x)
    {
      if k :| 0 <= k < |inn + [f]| && !(inn + [f])[k].CreateReq? && (inn + [f])[k].dst == x {
        if k < |inn| { assert inn[k].dst == x; }
      }
    }
    IdsShrink(drawn, mine, out, inn, theirs, h, mine, out, inn + [f], theirs, h);
  }

  // ----- one endpoint ----------------------------------------------------------------------

  lemma StreamsPut(ss: seq<Stream>, drawn: nat, mate: Mates, i: nat, st: Stream)
    requires StreamsOk(ss, drawn, mate) && i < |ss| && st.uid == ss[i].uid && StreamOk(st, drawn, mate)
    ensures StreamsOk(ss[i := st], drawn, mate)
  {
  }

  lemma StreamsErase(ss: seq<Stream>, drawn: nat, mate: Mates, i: nat)
    requires StreamsOk(ss, drawn, mate) && i < |ss|
    ensures StreamsOk(Erase(ss, i), drawn, mate)
  {
  }

  lemma WriterPut(wr: Writer, ss: seq<Stream>, i: nat, st: Stream)
    requires WriterOk(wr, ss) && i < |ss|
    requires WrittenBy(wr, ss[i]) ==> WrittenBy(wr, st)
    ensures WriterOk(wr, ss[i := st])
  {
    if !wr.Idle? {
      var k :| 0 <= k < |ss| && WrittenBy(wr, ss[k]);
      assert WrittenBy(wr, ss[i := st][k]);
    }
  }

  lemma WriterErase(wr: Writer, ss: seq<Stream>, i: nat)
    requires WriterOk(wr, ss) && i < |ss| && !WrittenBy(wr, ss[i])
    ensures WriterOk(wr, Erase(ss, i))
  {
    if !wr.Idle? {
      var k :| 0 <= k < |ss| && WrittenBy(wr, ss[k]);
      assert WrittenBy(wr, Erase(ss, i)[if k < i then k else k - 1]);
    }
  }

  lemma HandlerPut(h: Handler, ss: seq<Stream>, i: nat, st: Stream)
    requires HandlerOk(h, ss) && i < |ss|
    requires HandledBy(h, ss[i]) ==> HandledBy(h, st)
    ensures HandlerOk(h, ss[i := st])
  {
    if !h.Reading? && h.uid != 0 {
      var k :| 0 <= k < |ss| && HandledBy(h, ss[k]);
      assert HandledBy(h, ss[i := st][k]);
    }
  }

  lemma HandlerErase(h: Handler, ss: seq<Stream>, i: nat)
    requires HandlerOk(h, ss) && i < |ss| && !HandledBy(h, ss[i])
    ensures HandlerOk(h, Erase(ss, i))
  {
    if !h.Reading? && h.uid != 0 {
      var k :| 0 <= k < |ss| && HandledBy(h, ss[k]);
      assert HandledBy(h, Erase(ss, i)[if k < i then k else k - 1]);
    }
  }

  // ----- pairing ---------------------------------------------------------------------------

  lemma FreshPut(ss: seq<Stream>, mb: Mates, wire: seq<Frame>, i: nat, st: Stream)
    requires FreshOk(ss, mb, wire) && i < |ss| && (st.pc == Fresh ==> ss[i].pc == Fresh && st.uid == ss[i].uid)
    ensures FreshOk(ss[i := st], mb, wire)
  {
  }

  lemma FreshErase(ss: seq<Stream>, mb: Mates, wire: seq<Frame>, i: nat)
    requires FreshOk(ss, mb, wire) && i < |ss|
    ensures FreshOk(Erase(ss, i), mb, wire)
  {
  }

  lemma FreshSend(ss: seq<Stream>, mb: Mates, wire: seq<Frame>, f: Frame)
    requires FreshOk(ss, mb, wire)
    requires f.CreateReq? ==> forall i :: 0 <= i < |ss| && ss[i].pc == Fresh ==> ss[i].uid != f.src
    ensures FreshOk(ss, mb, wire + [f])
  {
  }

  lemma FramesSend(ma: Mates, drawnA: nat, mb: Mates, drawnB: nat, wire: seq<Frame>, f: Frame)
    requires FramesOk(ma, drawnA, mb, drawnB, wire) && FrameOk(ma, drawnA, mb, drawnB, f)
    ensures FramesOk(ma, drawnA, mb, drawnB, wire + [f])
  {
  }

  lemma OnceSend(wire: seq<Frame>, f: Frame)
    requires Once(wire)
    requires f.CreateReq? ==> NoReq(wire, f.src)
    requires IsAccept(f) ==> NoAccept(wire, f.dst)
    ensures Once(wire + [f])
  {
  }

  lemma AcceptSend(h: Handler, mb: Mates, drawnB: nat, wire: seq<Frame>, f: Frame)
    requires AcceptOk(h, mb, drawnB, wire) && !IsAccept(f)
    ensures AcceptOk(h, mb, drawnB, wire + [f])
  {
  }

  // ----- one direction ---------------------------------------------------------------------

  lemma UntouchedPut(ma: Mates, got: Logs, ss: seq<Stream>, i: nat, st: Stream)
    requires Untouched(ma, got, ss) && i < |ss| && st.uid == ss[i].uid
    requires !Blank(st) ==> HasWriter(ma, st.uid)
    ensures Untouched(ma, got, ss[i := st])
  {
  }

  lemma UntouchedErase(ma: Mates, got: Logs, ss: seq<Stream>, i: nat)
    requires Untouched(ma, got, ss) && i < |ss|
    ensures Untouched(ma, got, Erase(ss, i))
  {
  }

  lemma OrderedPut(ma: Mates, wrote: Logs, got: Logs, ss: seq<Stream>, fwd: seq<Frame>, i: nat, st: Stream)
    requires Ordered(ma, wrote, got, ss, fwd) && i < |ss| && st.uid == ss[i].uid && st.rxq == ss[i].rxq
    ensures Ordered(ma, wrote, got, ss[i := st], fwd)
  {
  }

  lemma OrderedErase(ma: Mates, wrote: Logs, got: Logs, ss: seq<Stream>, fwd: seq<Frame>, i: nat)
    requires Ordered(ma, wrote, got, ss, fwd) && i < |ss|
    ensures Ordered(ma, wrote, got, Erase(ss, i), fwd)
  {
  }

  lemma FitsPut(ma: Mates, ss: seq<Stream>, fwd: seq<Frame>, i: nat, st: Stream)
    requires Fits(ma, ss, fwd) && i < |ss| && st.uid == ss[i].uid && |st.rxq| <= |ss[i].rxq|
    ensures Fits(ma, ss[i := st], fwd)
  {
  }

  lemma FitsErase(ma: Mates, ss: seq<Stream>, fwd: seq<Frame>, i: nat)
    requires Fits(ma, ss, fwd) && i < |ss|
    ensures Fits(ma, Erase(ss, i), fwd)
  {
  }

  lemma SameFit(ma: Mates, ss: seq<Stream>, fwd: seq<Frame>, fwd': seq<Frame>)
    requires Fits(ma, ss, fwd)
    requires forall w :: |InFlight(fwd', w)| == |InFlight(fwd, w)|
    ensures Fits(ma, ss, fwd')
  {
  }

  lemma BoundedPut(wr: Writer, ss: seq<Stream>, bwd: seq<Frame>, i: nat, st: Stream)
    requires Bounded(wr, ss, bwd) && i < |ss|
    requires st.peer != 0 ==> CreditBound(wr, st, bwd)
    ensures Bounded(wr, ss[i := st], bwd)
  {
  }

  lemma BoundedErase(wr: Writer, ss: seq<Stream>, bwd: seq<Frame>, i: nat)
    requires Bounded(wr, ss, bwd) && i < |ss|
    ensures Bounded(wr, Erase(ss, i), bwd)
  {
  }

  /** Replacing a writing stream by one with the same ids and credit. */
  lemma ConservedPut(wr: Writer, ws: seq<Stream>, rs: seq<Stream>, fwd: seq<Frame>, bwd: seq<Frame>, i: nat, st: Stream)
    requires Conserved(wr, ws, rs, fwd, bwd) && i < |ws|
    requires st.uid == ws[i].uid && st.peer == ws[i].peer && st.rwnd == ws[i].rwnd
    ensures Conserved(wr, ws[i := st], rs, fwd, bwd)
  {
    var ws' := ws[i := st];
    forall k, j | 0 <= k < |ws'| && 0 <= j < |rs| && ws'[k].peer != 0 && rs[j].uid == ws'[k].peer
      ensures CreditSum(wr, ws'[k], rs[j], fwd, bwd) == RING
    {
      assert CreditSum(wr, ws[k], rs[j], fwd, bwd) == RING;
    }
  }

  /** Replacing a reading stream by one that accounts for the same number of credits. */
  lemma ConservedPutReader(wr: Writer, ws: seq<Stream>, rs: seq<Stream>, fwd: seq<Frame>, bwd: seq<Frame>, i: nat, st: Stream)
    requires Conserved(wr, ws, rs, fwd, bwd) && i < |rs| && st.uid == rs[i].uid
    requires |st.rxq| + st.unacked + st.lost == |rs[i].rxq| + rs[i].unacked + rs[i].lost
    ensures Conserved(wr, ws, rs[i := st], fwd, bwd)
  {
    var rs' := rs[i := st];
    forall k, j | 0 <= k < |ws| && 0 <= j < |rs'| && ws[k].peer != 0 && rs'[j].uid == ws[k].peer
      ensures CreditSum(wr, ws[k], rs'[j], fwd, bwd) == RING
    {
      assert CreditSum(wr, ws[k], rs[j], fwd, bwd) == RING;
    }
  }

  lemma ConservedErase(wr: Writer, ws: seq<Stream>, rs: seq<Stream>, fwd: seq<Frame>, bwd: seq<Frame>, i: nat)
    requires Conserved(wr, ws, rs, fwd, bwd) && i < |ws|
    ensures Conserved(wr, Erase(ws, i), rs, fwd, bwd)
  {
    var ws' := Erase(ws, i);
    forall k, j | 0 <= k < |ws'| && 0 <= j < |rs| && ws'[k].peer != 0 && rs[j].uid == ws'[k].peer
      ensures CreditSum(wr, ws'[k], rs[j], fwd, bwd) == RING
    {
      assert CreditSum(wr, ws[if k < i then k else k + 1], rs[j], fwd, bwd) == RING;
    }
  }

  lemma ConservedEraseReader(wr: Writer, ws: seq<Stream>, rs: seq<Stream>, fwd: seq<Frame>, bwd: seq<Frame>, i: nat)
    requires Conserved(wr, ws, rs, fwd, bwd) && i < |rs|
    ensures Conserved(wr, ws, Erase(rs, i), fwd, bwd)
  {
    var rs' := Erase(rs, i);
    forall k, j | 0 <= k < |ws| && 0 <= j < |rs'| && ws[k].peer != 0 && rs'[j].uid == ws[k].peer
      ensures CreditSum(wr, ws[k], rs'[j], fwd, bwd) == RING
    {
      assert CreditSum(wr, ws[k], rs[if j < i then j else j + 1], fwd, bwd) == RING;
    }
  }

  /** A frame that is neither data nor an acknowledgement does not change the books. */
  lemma QuietSend(wire: seq<Frame>, f: Frame)
    requires !f.Data? && !f.Ack?
    ensures forall w :: InFlight(wire + [f], w) == InFlight(wire, w)
    ensures forall w :: Acks(wire + [f], w) == Acks(wire, w)
  {
    forall w
      ensures InFlight(wire + [f], w) == InFlight(wire, w) && Acks(wire + [f], w) == Acks(wire, w)
    {
      InFlightAppend(wire, f, w);
      AcksAppend(wire, f, w);
    }
  }

  /** Replacing a wire by one that carries the same data and acknowledgements. */
  lemma SameBooks(wr: Writer, ws: seq<Stream>, rs: seq<Stream>, fwd: seq<Frame>, bwd: seq<Frame>, fwd': seq<Frame>, bwd': seq<Frame>)
    requires Conserved(wr, ws, rs, fwd, bwd) && Bounded(wr, ws, bwd)
    requires forall w :: |InFlight(fwd, w)| == |InFlight(fwd', w)|
    requires forall w :: Acks(bwd, w) == Acks(bwd', w)
    ensures Conserved(wr, ws, rs, fwd', bwd') && Bounded(wr, ws, bwd')
  {
    forall k, j | 0 <= k < |ws| && 0 <= j < |rs| && ws[k].peer != 0 && rs[j].uid == ws[k].peer
      ensures CreditSum(wr, ws[k], rs[j], fwd', bwd') == RING
    {
      assert CreditSum(wr, ws[k], rs[j], fwd, bwd) == RING;
    }
    forall k | 0 <= k < |ws| && ws[k].peer != 0
      ensures CreditBound(wr, ws[k], bwd')
    {
      assert CreditBound(wr, ws[k], bwd);
    }
  }

  lemma SameOrder(ma: Mates, wrote: Logs, got: Logs, ss: seq<Stream>, fwd: seq<Frame>, fwd': seq<Frame>)
    requires Ordered(ma, wrote, got, ss, fwd)
    requires forall w :: InFlight(fwd, w) == InFlight(fwd', w)
    ensures Ordered(ma, wrote, got, ss, fwd')
  {
  }
}
