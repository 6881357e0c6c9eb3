/** The clauses of the invariant other than the ids, under the composite edits. */
module CorpcEdits {
  import opened CorpcChannel
  import opened CorpcSystem
  import opened CorpcInvariant
  import opened CorpcKit

  /** Replacing a stream of `near` without touching its ids, credit or contents. */
  lemma QuietPut(s: Sys, i: nat, st: Stream)
    requires Core(s) && i < |s.near.streams|
    requires var o := s.near.streams[i];
      st == o.(state := st.state, pc := st.pc)
    requires StreamOk(st, s.near.drawn, s.near.mate) && (st.pc == Fresh ==> s.near.streams[i].pc == Fresh)
    requires WrittenBy(s.near.writer, s.near.streams[i]) ==> WrittenBy(s.near.writer, st)
    requires HandledBy(s.near.handler, s.near.streams[i]) ==> HandledBy(s.near.handler, st)
    ensures Core(s.(near := Put(s.near, i, st)))
  {
    var t := s.(near := Put(s.near, i, st));
    var a, b := s.near, s.far;
    assert Half(t) by {
      StreamsPut(a.streams, a.drawn, a.mate, i, st);
      WriterPut(a.writer, a.streams, i, st);
      HandlerPut(a.handler, a.streams, i, st);
      FreshPut(a.streams, b.mate, s.out, i, st);
      BoundedPut(a.writer, a.streams, s.inn, i, st);
      ConservedPut(a.writer, a.streams, b.streams, s.out, s.inn, i, st);
    }
    assert Half(Flip(t)) by {
      UntouchedPut(b.mate, a.got, a.streams, i, st);
      OrderedPut(b.mate, b.wrote, a.got, a.streams, s.inn, i, st);
      FitsPut(b.mate, a.streams, s.inn, i, st);
      ConservedPutReader(b.writer, b.streams, a.streams, s.inn, s.out, i, st);
    }
  }

  lemma EraseKeeps(s: Sys, i: nat)
    requires Core(s) && i < |s.near.streams|
    requires !WrittenBy(s.near.writer, s.near.streams[i]) && !HandledBy(s.near.handler, s.near.streams[i])
    ensures Core(s.(near := s.near.(streams := Erase(s.near.streams, i))))
  {
    var t := s.(near := s.near.(streams := Erase(s.near.streams, i)));
    var a, b := s.near, s.far;
    assert Half(t) by {
      StreamsErase(a.streams, a.drawn, a.mate, i);
      WriterErase(a.writer, a.streams, i);
      HandlerErase(a.handler, a.streams, i);
      FreshErase(a.streams, b.mate, s.out, i);
      BoundedErase(a.writer, a.streams, s.inn, i);
      ConservedErase(a.writer, a.streams, b.streams, s.out, s.inn, i);
    }
    assert Half(Flip(t)) by {
      UntouchedErase(b.mate, a.got, a.streams, i);
      OrderedErase(b.mate, b.wrote, a.got, a.streams, s.inn, i);
      FitsErase(b.mate, a.streams, s.inn, i);
      ConservedEraseReader(b.writer, b.streams, a.streams, s.inn, s.out, i);
    }
  }

  /** Sending a frame other than data or an acknowledgement. */
  lemma QuietFrame(s: Sys, f: Frame)
    requires Core(s) && !f.Data? && !f.Ack?
    requires FrameOk(s.near.mate, s.near.drawn, s.far.mate, s.far.drawn, f)
    requires f.CreateReq? ==> NoReq(s.out, f.src)
    requires f.CreateReq? ==>
               forall i :: 0 <= i < |s.near.streams| && s.near.streams[i].pc == Fresh ==> s.near.streams[i].uid != f.src
    requires IsAccept(f) ==> NoAccept(s.out, f.dst) && !s.near.handler.Responding?
    ensures Core(s.(out := s.out + [f]))
  {
    var t := s.(out := s.out + [f]);
    var a, b := s.near, s.far;
    QuietSend(s.out, f);
    assert Half(t) by {
      FramesSend(a.mate, a.drawn, b.mate, b.drawn, s.out, f);
      OnceSend(s.out, f);
      FreshSend(a.streams, b.mate, s.out, f);
      SameOrder(a.mate, a.wrote, b.got, b.streams, s.out, t.out);
      SameFit(a.mate, b.streams, s.out, t.out);
      SameBooks(a.writer, a.streams, b.streams, s.out, s.inn, t.out, s.inn);
    }
    assert Half(Flip(t)) by {
      SameBooks(b.writer, b.streams, a.streams, s.inn, s.out, s.inn, t.out);
    }
  }

  lemma DropKeeps(s: Sys)
    requires Core(s)
    ensures Core(Do(s, Drop))
  {
  }

  lemma SetHandler(s: Sys, h: Handler)
    requires Core(s) && HandlerOk(h, s.near.streams) && AcceptOk(h, s.far.mate, s.far.drawn, s.out)
    ensures Core(s.(near := s.near.(handler := h)))
  {
  }

  lemma AcquireKeeps(s: Sys, i: nat)
    requires Core(s) && Can(s, Acquire(i))
    ensures Core(Do(s, Acquire(i)))
  {
    var a, b := s.near, s.far;
    var t := Do(s, Acquire(i));
    assert WrittenBy(t.near.writer, a.streams[i]);
    WriterSame(a.writer, t.near.writer, a.streams, b.streams, s.out, s.inn);
  }

  lemma SendFailKeeps(s: Sys)
    requires Core(s) && Can(s, SendFail)
    ensures Core(Do(s, SendFail))
  {
    var a, b := s.near, s.far;
    WriterSame(a.writer, Idle, a.streams, b.streams, s.out, s.inn);
  }

  /** Taking or dropping the lock does not change what is debited. */
  lemma WriterSame(wr: Writer, wr': Writer, ws: seq<Stream>, rs: seq<Stream>, fwd: seq<Frame>, bwd: seq<Frame>)
    requires Bounded(wr, ws, bwd) && Conserved(wr, ws, rs, fwd, bwd) && !wr.Sent? && !wr'.Sent?
    ensures Bounded(wr', ws, bwd) && Conserved(wr', ws, rs, fwd, bwd)
  {
    forall k | 0 <= k < |ws| && ws[k].peer != 0 ensures CreditBound(wr', ws[k], bwd) {
      assert CreditBound(wr, ws[k], bwd);
    }
    forall k, j | 0 <= k < |ws| && 0 <= j < |rs| && ws[k].peer != 0 && rs[j].uid == ws[k].peer
      ensures CreditSum(wr', ws[k], rs[j], fwd, bwd) == RING
    {
      assert CreditSum(wr, ws[k], rs[j], fwd, bwd) == RING;
    }
  }
}
