/** Every action keeps the invariant. */
module CorpcSteps {
  import opened CorpcChannel
  import opened CorpcSystem
  import opened CorpcInvariant
  import opened CorpcKit
  import opened CorpcEdits
  import opened CorpcFlow
  import opened CorpcArrival
  import opened CorpcPairing
  import opened CorpcIds

  // ----- opening ---------------------------------------------------------------------------

  /** An id drawn for another channel is only skipped here. */
  lemma SkipStep(s: Sys, t: Sys)
    requires Inv(s) && t == s.(near := s.near.(drawn := s.near.drawn + 1))
    ensures Inv(t)
  {
    var a, b := s.near, s.far;
    var d := a.drawn + 1;
    assert StreamsOk(a.streams, d, a.mate) by {
      forall k | 0 <= k < |a.streams| ensures StreamOk(a.streams[k], d, a.mate) {
        assert StreamOk(a.streams[k], a.drawn, a.mate);
      }
    }
    LaterFrames(a.mate, a.drawn, b.mate, b.drawn, d, b.drawn, s.out);
    LaterFrames(b.mate, b.drawn, a.mate, a.drawn, b.drawn, d, s.inn);
  }

  lemma LaterFrames(ma: Mates, dA: nat, mb: Mates, dB: nat, dA': nat, dB': nat, wire: seq<Frame>)
    requires FramesOk(ma, dA, mb, dB, wire) && dA <= dA' && dB <= dB'
    ensures FramesOk(ma, dA', mb, dB', wire)
  {
    forall k | 0 <= k < |wire| ensures FrameOk(ma, dA', mb, dB', wire[k]) {
      assert FrameOk(ma, dA, mb, dB, wire[k]);
    }
  }

  lemma OpenStep(s: Sys)
    requires Inv(s) && Can(s, Open)
    ensures Inv(Do(s, Open))
  {
    RegisterKeeps(s, 0, 0, Fresh);
    RegisterIds(s, 0, 0, Fresh);
  }

  ghost function Requesting(s: Sys, i: nat): Sys
    requires i < |s.near.streams|
  {
    s.(near := Put(s.near, i, s.near.streams[i].(pc := AwaitResp)))
  }

  lemma RequestingStep(s: Sys, i: nat)
    requires Inv(s) && Owns(s.near, i, Fresh)
    ensures Inv(Requesting(s, i)) && Blank(s.near.streams[i]) && !HasWriter(s.far.mate, s.near.streams[i].uid)
  {
    var st := s.near.streams[i];
    assert StreamOk(st, s.near.drawn, s.near.mate);
    assert !HasWriter(s.far.mate, st.uid);
    QuietPut(s, i, st.(pc := AwaitResp));
    PutIds(s, i, st.(pc := AwaitResp));
  }

  lemma SendReqStep(s: Sys, i: nat, t: Sys)
    requires Inv(s) && Owns(s.near, i, Fresh)
    requires t == s.(near := Requesting(s, i).near, out := s.out + [CreateReq(s.near.streams[i].uid, FreeSpace(s.near.streams[i]))])
    ensures Inv(t)
  {
    RequestingStep(s, i);
    RequestSent(s, i, Requesting(s, i), CreateReq(s.near.streams[i].uid, FreeSpace(s.near.streams[i])));
  }

  lemma RequestSent(s: Sys, i: nat, m: Sys, f: Frame)
    requires Inv(s) && Owns(s.near, i, Fresh) && m == Requesting(s, i) && Inv(m)
    requires Blank(s.near.streams[i]) && f == CreateReq(s.near.streams[i].uid, FreeSpace(s.near.streams[i]))
    ensures Inv(m.(out := s.out + [f]))
  {
    var u := s.near.streams[i].uid;
    assert StreamOk(s.near.streams[i], s.near.drawn, s.near.mate);
    assert m.near.streams[i].uid == u;
    assert Alive(m, u);
    QuietFrame(m, f);
    SendIds(m, f);
  }

  lemma OpenDoneStep(s: Sys, i: nat)
    requires Inv(s) && Can(s, OpenDone(i))
    ensures Inv(Do(s, OpenDone(i)))
  {
    var st := s.near.streams[i];
    assert StreamOk(st, s.near.drawn, s.near.mate);
    QuietPut(s, i, st.(pc := Live));
    PutIds(s, i, st.(pc := Live));
  }

  lemma EraseStep(s: Sys, i: nat, t: Sys)
    requires Inv(s) && i < |s.near.streams|
    requires s.near.streams[i].pc == Fresh || s.near.streams[i].pc == AwaitResp || s.near.streams[i].pc == Closing
    requires t == s.(near := s.near.(streams := Erase(s.near.streams, i)))
    ensures Inv(t)
  {
    EraseKeeps(s, i);
    EraseIds(s, i);
  }

  // ----- data ------------------------------------------------------------------------------

  lemma SendStep(s: Sys, i: nat, p: Payload)
    requires Inv(s) && Can(s, Send(i, p))
    ensures Inv(Do(s, Send(i, p)))
  {
    var st := s.near.streams[i];
    assert StreamOk(st, s.near.drawn, s.near.mate);
    SendKeeps(s, i, p);
    assert Alive(Flip(s), st.peer) by { assert Flip(s).far.streams[i].peer == st.peer; }
    SendIds(s, DataFrame(s.near, i, p));
  }

  lemma DebitStep(s: Sys, i: nat)
    requires Inv(s) && Can(s, Debited(i))
    ensures Inv(Do(s, Debited(i)))
  {
    DebitKeeps(s, i);
    PutIds(s, i, Debit(s.near, i).streams[i]);
  }

  lemma ReadStep(s: Sys, i: nat)
    requires Inv(s) && Can(s, Read(i))
    ensures Inv(Do(s, Read(i)))
  {
    ReadKeeps(s, i);
    PutIds(s, i, Pop(s.near, i).streams[i]);
  }

  lemma AckedStep(s: Sys, i: nat, ok: bool)
    requires Inv(s) && Can(s, Acked(i, ok))
    ensures Inv(Do(s, Acked(i, ok)))
  {
    var st := s.near.streams[i];
    PutIds(s, i, Acknowledge(s.near, i, ok).streams[i]);
    if ok {
      AckKeeps(s, i);
      var m := s.(near := Acknowledge(s.near, i, ok));
      assert StreamOk(st, s.near.drawn, s.near.mate);
      assert Alive(Flip(m), st.peer) by { assert Flip(m).far.streams[i].peer == st.peer; }
      SendIds(m, Ack(st.uid, st.peer));
    } else {
      AckLostKeeps(s, i);
    }
  }

  // ----- closing ---------------------------------------------------------------------------

  lemma NotifyStep(s: Sys, i: nat, ok: bool)
    requires Inv(s) && Can(s, Notify(i, ok))
    ensures Inv(Do(s, Notify(i, ok)))
  {
    ClosingStep(s, i);
    if ok { CloseSent(s, i); }
  }

  ghost function Leaving(s: Sys, i: nat): Sys
    requires i < |s.near.streams|
  {
    s.(near := Put(s.near, i, s.near.streams[i].(pc := Closing)))
  }

  lemma ClosingStep(s: Sys, i: nat)
    requires Inv(s) && Can(s, Notify(i, false))
    ensures Inv(Leaving(s, i))
  {
    var st := s.near.streams[i].(pc := Closing);
    assert StreamOk(s.near.streams[i], s.near.drawn, s.near.mate);
    QuietPut(s, i, st);
    PutIds(s, i, st);
  }

  lemma CloseSent(s: Sys, i: nat)
    requires Inv(s) && i < |s.near.streams| && s.near.streams[i].pc == Live && Inv(Leaving(s, i))
    ensures Inv(s.(near := Leaving(s, i).near, out := s.out + [Close(s.near.streams[i].uid, s.near.streams[i].peer)]))
  {
    var m, st := Leaving(s, i), s.near.streams[i];
    assert StreamOk(st, s.near.drawn, s.near.mate);
    assert Alive(Flip(m), st.peer) by { assert Flip(m).far.streams[i].peer == st.peer; }
    QuietFrame(m, Close(st.uid, st.peer));
    SendIds(m, Close(st.uid, st.peer));
  }

  lemma DropStep(s: Sys)
    requires Inv(s)
    ensures Inv(s.(near := s.near.(up := false)))
  {
    DropKeeps(s);
  }

  lemma DropTo(s: Sys, t: Sys)
    requires Inv(s) && t == s.(near := s.near.(up := false))
    ensures Inv(t)
  {
    DropStep(s);
  }

  // ----- accepting -------------------------------------------------------------------------

  lemma RequestArrives(s: Sys, o: Outcome)
    requires Inv(s) && Can(s, Deliver(o)) && s.inn[0].CreateReq?
    ensures Inv(Do(s, Deliver(o)))
  {
    RequestOutcome(s, o);
    assert s.inn[0].rwnd == RING by {
      assert FrameOk(s.far.mate, s.far.drawn, s.near.mate, s.near.drawn, s.inn[0]);
    }
    if o.Refuse? {
      RefuseStep(s, o.why);
    } else {
      AcceptStep(s, if o.NoThread? then Unserved else Live,
                 Responding(s.inn[0].src, s.near.drawn + 1, if o.NoThread? then InternalError else Ok));
    }
  }

  lemma RequestOutcome(s: Sys, o: Outcome)
    requires Can(s, Deliver(o)) && s.inn[0].CreateReq?
    ensures Do(s, Deliver(o)) ==
      s.(near := if o.Refuse? then s.near.(handler := Responding(s.inn[0].src, 0, o.why))
                 else Register(s.near, s.inn[0].src, s.inn[0].rwnd, if o.NoThread? then Unserved else Live)
                   .(handler := Responding(s.inn[0].src, s.near.drawn + 1, if o.NoThread? then InternalError else Ok)),
         inn := s.inn[1..])
    ensures !o.Refuse? ==> RoomForId(s)
  {
  }

  lemma RefuseStep(s: Sys, why: Status)
    requires Inv(s) && s.inn != [] && s.inn[0].CreateReq? && why != Ok
    ensures Inv(s.(near := s.near.(handler := Responding(s.inn[0].src, 0, why)), inn := s.inn[1..]))
  {
    assert FrameOk(s.far.mate, s.far.drawn, s.near.mate, s.near.drawn, s.inn[0]);
    PopQuiet(s);
    SetHandler(s.(inn := s.inn[1..]), Responding(s.inn[0].src, 0, why));
    RequestIds(s, 0, why);
  }

  lemma AcceptStep(s: Sys, pc: Pc, h: Handler)
    requires Inv(s) && RoomForId(s) && s.inn != [] && s.inn[0].CreateReq? && s.near.handler.Reading?
    requires s.inn[0].rwnd == RING && h.Responding? && pc == (if h.status == Ok then Live else Unserved)
    requires h == Responding(s.inn[0].src, s.near.drawn + 1, h.status)
    ensures Inv(s.(near := Register(s.near, s.inn[0].src, s.inn[0].rwnd, pc).(handler := h), inn := s.inn[1..]))
  {
    var p := s.inn[0].src;
    assert FrameOk(s.far.mate, s.far.drawn, s.near.mate, s.near.drawn, s.inn[0]);
    TailFrames(s.far.mate, s.far.drawn, s.near.mate, s.near.drawn, s.inn, s.far.streams, s.far.handler);
    PopQuiet(s);
    var m := s.(inn := s.inn[1..]);
    RegisterKeeps(m, p, RING, pc);
    var n := m.(near := Register(m.near, p, RING, pc));
    assert HandledBy(h, n.near.streams[|s.near.streams|]);
    SetHandlerFor(m, p, RING, pc, h);
    assert Alive(Flip(s), p) by { assert Flip(s).out[0].src == p; }
    RegisterIds(s, p, RING, pc);
    RequestIds(s.(near := Register(s.near, p, RING, pc)), h.uid, h.status);
  }

  /** The handler of a freshly accepted stream: its requester has not been answered before. */
  lemma SetHandlerFor(m: Sys, p: nat, rwnd: nat, pc: Pc, h: Handler)
    requires Core(m) && Acceptable(m, p) && h.Responding? && h.peer == p
    requires var n := m.(near := Register(m.near, p, rwnd, pc)); Core(n) && HandlerOk(h, n.near.streams)
    ensures Core(m.(near := Register(m.near, p, rwnd, pc).(handler := h)))
  {
    assert NoAccept(m.out, p) by {
      forall k | 0 <= k < |m.out| && IsAccept(m.out[k]) ensures m.out[k].dst != p {
        assert FrameOk(m.near.mate, m.near.drawn, m.far.mate, m.far.drawn, m.out[k]);
      }
    }
    SetHandler(m.(near := Register(m.near, p, rwnd, pc)), h);
  }

  lemma RespondStep(s: Sys, i: nat, ok: bool)
    requires Inv(s) && Can(s, Respond(i, ok))
    ensures Inv(Do(s, Respond(i, ok)))
  {
    var e := s.near;
    var h := Finishing(e.handler.uid, e.handler.status);
    if e.handler.uid != 0 { HandledIs(s, i); }
    if ok { RespondSent(s, i, h, Response(e, i)); } else { RespondLost(s, i, h); }
  }

  lemma RespondLost(s: Sys, i: nat, h: Handler)
    requires Inv(s) && s.near.handler.Responding? && h == Finishing(s.near.handler.uid, s.near.handler.status)
    requires h.uid != 0 ==> i < |s.near.streams| && HandledBy(s.near.handler, s.near.streams[i])
    ensures Inv(s.(near := s.near.(handler := h)))
  {
    if h.uid != 0 { assert HandledBy(h, s.near.streams[i]); }
    SetHandler(s, h);
    HandlerIds(s, h);
  }

  lemma RespondSent(s: Sys, i: nat, h: Handler, f: Frame)
    requires Inv(s) && s.near.handler.Responding? && h == Finishing(s.near.handler.uid, s.near.handler.status)
    requires h.uid != 0 ==> i < |s.near.streams| && HandledBy(s.near.handler, s.near.streams[i])
    requires f == Response(s.near, i)
    ensures Inv(s.(near := s.near.(handler := h), out := s.out + [f]))
  {
    var e := s.near;
    RespondLost(s, i, h);
    ResponseOk(s, i);
    QuietFrame(s.(near := e.(handler := h)), f);
    assert Alive(Flip(s), e.handler.peer);
    if e.handler.uid != 0 { assert Alive(s, e.streams[i].uid); }
    SendIds(s, f);
    HandlerIds(s.(out := s.out + [f]), h);
  }

  /** The stream index passed to Respond and Finish is the one the handler speaks of. */
  lemma HandledIs(s: Sys, i: nat)
    requires Local(s.near) && !s.near.handler.Reading? && s.near.handler.uid != 0
    requires i < |s.near.streams| && s.near.streams[i].uid == s.near.handler.uid
    ensures HandledBy(s.near.handler, s.near.streams[i])
  {
    var k :| 0 <= k < |s.near.streams| && HandledBy(s.near.handler, s.near.streams[k]);
    assert k == i;
  }

  lemma ResponseOk(s: Sys, i: nat)
    requires Core(s) && s.near.handler.Responding?
    requires s.near.handler.uid != 0 ==> i < |s.near.streams| && HandledBy(s.near.handler, s.near.streams[i])
    ensures FrameOk(s.near.mate, s.near.drawn, s.far.mate, s.far.drawn, Response(s.near, i))
    ensures s.near.handler.status == Ok ==> Response(s.near, i).dst == s.near.handler.peer && NoAccept(s.out, s.near.handler.peer)
  {
    var e := s.near;
    if e.handler.status == Ok {
      var st := e.streams[i];
      assert StreamOk(st, e.drawn, e.mate);
      assert !HasWriter(s.far.mate, st.uid);
      assert Blank(st);
    }
  }

  lemma FinishStep(s: Sys, i: nat)
    requires Inv(s) && Can(s, Finish(i))
    ensures Inv(Do(s, Finish(i)))
  {
    SetHandler(s, Reading);
    HandlerIds(s, Reading);
    if s.near.handler.uid != 0 {
      HandledIs(s, i);
      FinishStream(s, i, s.(near := s.near.(handler := Reading)));
    }
  }

  lemma FinishStream(s: Sys, i: nat, m: Sys)
    requires Inv(s) && i < |s.near.streams| && s.near.handler.Finishing? && HandledBy(s.near.handler, s.near.streams[i])
    requires m == s.(near := s.near.(handler := Reading)) && Inv(m)
    ensures Inv(if s.near.handler.status == Ok then m.(near := Put(m.near, i, m.near.streams[i].(state := Established)))
                else m.(near := m.near.(streams := Erase(m.near.streams, i))))
  {
    var st := s.near.streams[i];
    assert StreamOk(st, s.near.drawn, s.near.mate);
    if s.near.handler.status == Ok {
      QuietPut(m, i, st.(state := Established));
      PutIds(m, i, st.(state := Established));
    } else {
      EraseKeeps(m, i);
      EraseIds(m, i);
    }
  }

  // ----- the other arrivals ----------------------------------------------------------------

  /** The destination of a frame is a real id, so demultiplexing is exact. */
  lemma Demux(s: Sys)
    requires Inv(s) && s.inn != [] && !s.inn[0].CreateReq?
    ensures Meant(s, Find(s.near.streams, s.inn[0].Did()))
  {
    assert FrameOk(s.far.mate, s.far.drawn, s.near.mate, s.near.drawn, s.inn[0]);
    assert forall k :: 0 <= k < |s.near.streams| ==> StreamOk(s.near.streams[k], s.near.drawn, s.near.mate);
    FindIsExact(s);
  }

  /** The stream meant by the frame at the head of the wire, if it is there. */
  ghost predicate Meant(s: Sys, i: nat) {
    s.inn != [] && !s.inn[0].CreateReq? && i == Find(s.near.streams, s.inn[0].Did()) &&
    (i < |s.near.streams| ==> s.near.streams[i].uid == s.inn[0].dst) &&
    (i == |s.near.streams| ==> forall k :: 0 <= k < |s.near.streams| ==> s.near.streams[k].uid != s.inn[0].dst)
  }

  lemma ResponseOutcome(s: Sys, o: Outcome, i: nat)
    requires Can(s, Deliver(o)) && s.inn[0].CreateResp? && i == Find(s.near.streams, s.inn[0].Did())
    ensures i == |s.near.streams| ==> Do(s, Deliver(o)) == s.(near := s.near.(up := false), inn := s.inn[1..])
    ensures i < |s.near.streams| && s.near.streams[i].state != Opening ==> Do(s, Deliver(o)) == s.(inn := s.inn[1..])
    ensures i < |s.near.streams| && s.near.streams[i].state == Opening ==>
      Do(s, Deliver(o)) == if s.inn[0].status == Ok then Adopted(s, i) else Declined(s, i, s.inn[0].status == ProtocolError)
  {
  }

  /** The stream has been accepted by the peer. */
  ghost function Adopted(s: Sys, i: nat): Sys
    requires s.inn != [] && s.inn[0].CreateResp? && i < |s.near.streams|
  {
    var st, f := s.near.streams[i], s.inn[0];
    s.(near := Put(s.near, i, st.(state := Established, peer := f.src, rwnd := f.rwnd)).(mate := s.near.mate[st.uid := f.src]),
       inn := s.inn[1..])
  }

  /** The stream has been refused, and the channel goes down if the protocol was violated. */
  ghost function Declined(s: Sys, i: nat, fatal: bool): Sys
    requires s.inn != [] && i < |s.near.streams|
  {
    var e := Put(s.near, i, s.near.streams[i].(state := Refused));
    s.(near := e.(up := e.up && !fatal), inn := s.inn[1..])
  }

  lemma PopStep(s: Sys)
    requires Inv(s) && s.inn != [] && (s.inn[0].CreateResp? || s.inn[0].Close?)
    ensures Inv(s.(inn := s.inn[1..]))
  {
    PopQuiet(s);
    PopIds(s);
  }

  lemma AdoptStep(s: Sys, i: nat)
    requires Inv(s) && Meant(s, i) && s.inn[0].CreateResp? && s.inn[0].status == Ok && i < |s.near.streams|
    requires s.near.streams[i].state == Opening
    ensures Inv(Adopted(s, i))
  {
    var f, st := s.inn[0], s.near.streams[i];
    assert StreamOk(st, s.near.drawn, s.near.mate);
    assert FrameOk(s.far.mate, s.far.drawn, s.near.mate, s.near.drawn, f);
    TailFrames(s.far.mate, s.far.drawn, s.near.mate, s.near.drawn, s.inn, s.far.streams, s.far.handler);
    PopQuiet(s);
    PairKeeps(s.(inn := s.inn[1..]), i, f.src);
    AdoptIds(s, i, st.(state := Established, peer := f.src, rwnd := f.rwnd));
  }

  lemma DeclineStep(s: Sys, i: nat, fatal: bool)
    requires Inv(s) && s.inn != [] && s.inn[0].CreateResp? && i < |s.near.streams|
    requires s.near.streams[i].state == Opening && s.near.handler.Reading?
    ensures Inv(Declined(s, i, fatal))
  {
    var m, st := s.(inn := s.inn[1..]), s.near.streams[i].(state := Refused);
    PopStep(s);
    assert StreamOk(s.near.streams[i], s.near.drawn, s.near.mate);
    QuietPut(m, i, st);
    PutIds(m, i, st);
    if fatal { DropStep(m.(near := Put(m.near, i, st))); }
  }

  lemma LostStep(s: Sys)
    requires Inv(s) && s.inn != [] && s.inn[0].CreateResp?
    ensures Inv(s.(near := s.near.(up := false), inn := s.inn[1..]))
  {
    PopStep(s);
    DropStep(s.(inn := s.inn[1..]));
  }

  lemma ResponseArrives(s: Sys, o: Outcome)
    requires Inv(s) && Can(s, Deliver(o)) && s.inn[0].CreateResp?
    ensures Inv(Do(s, Deliver(o)))
  {
    var i, t := Find(s.near.streams, s.inn[0].Did()), Do(s, Deliver(o));
    Demux(s);
    ResponseOutcome(s, o, i);
    ResponseStep(s, i, t);
  }

  lemma ResponseStep(s: Sys, i: nat, t: Sys)
    requires Inv(s) && s.inn != [] && s.inn[0].CreateResp? && Meant(s, i) && s.near.handler.Reading?
    requires i == |s.near.streams| ==> t == s.(near := s.near.(up := false), inn := s.inn[1..])
    requires i < |s.near.streams| && s.near.streams[i].state != Opening ==> t == s.(inn := s.inn[1..])
    requires i < |s.near.streams| && s.near.streams[i].state == Opening ==>
      t == if s.inn[0].status == Ok then Adopted(s, i) else Declined(s, i, s.inn[0].status == ProtocolError)
    ensures Inv(t)
  {
    if i == |s.near.streams| {
      LostStep(s);
    } else if s.near.streams[i].state != Opening {
      PopStep(s);
    } else if s.inn[0].status == Ok {
      AdoptStep(s, i);
    } else {
      DeclineStep(s, i, s.inn[0].status == ProtocolError);
    }
  }

  ghost function Closed(s: Sys, i: nat): Sys
    requires s.inn != [] && i < |s.near.streams|
  {
    s.(near := Put(s.near, i, s.near.streams[i].(state := ClosedByPeer)), inn := s.inn[1..])
  }

  lemma CloseOutcome(s: Sys, o: Outcome, i: nat)
    requires Can(s, Deliver(o)) && s.inn[0].Close? && i == Find(s.near.streams, s.inn[0].Did())
    ensures i == |s.near.streams| ==> Do(s, Deliver(o)) == s.(inn := s.inn[1..])
    ensures i < |s.near.streams| ==> Do(s, Deliver(o)) == Closed(s, i)
  {
  }

  lemma ClosedStep(s: Sys, i: nat)
    requires Inv(s) && s.inn != [] && s.inn[0].Close? && i < |s.near.streams| && s.near.handler.Reading?
    ensures Inv(Closed(s, i))
  {
    var m, st := s.(inn := s.inn[1..]), s.near.streams[i].(state := ClosedByPeer);
    PopStep(s);
    assert StreamOk(s.near.streams[i], s.near.drawn, s.near.mate);
    QuietPut(m, i, st);
    PutIds(m, i, st);
  }

  lemma CloseArrives(s: Sys, o: Outcome)
    requires Inv(s) && Can(s, Deliver(o)) && s.inn[0].Close?
    ensures Inv(Do(s, Deliver(o)))
  {
    var i, t := Find(s.near.streams, s.inn[0].Did()), Do(s, Deliver(o));
    CloseOutcome(s, o, i);
    CloseStep(s, i, t);
  }

  lemma CloseStep(s: Sys, i: nat, t: Sys)
    requires Inv(s) && s.inn != [] && s.inn[0].Close? && i <= |s.near.streams| && s.near.handler.Reading?
    requires t == if i == |s.near.streams| then s.(inn := s.inn[1..]) else Closed(s, i)
    ensures Inv(t)
  {
    if i < |s.near.streams| { ClosedStep(s, i); } else { PopStep(s); }
  }

  lemma DataOutcome(s: Sys, o: Outcome, i: nat)
    requires Can(s, Deliver(o)) && s.inn[0].Data? && i == Find(s.near.streams, s.inn[0].Did())
    requires i < |s.near.streams| ==> |s.near.streams[i].rxq| < RING
    ensures Do(s, Deliver(o)) ==
      s.(near := if i == |s.near.streams| then s.near.(up := false)
                 else Put(s.near, i, s.near.streams[i].(rxq := s.near.streams[i].rxq + [s.inn[0].payload])),
         inn := s.inn[1..])
  {
  }

  lemma DataLost(s: Sys)
    requires Inv(s) && s.inn != [] && s.inn[0].Data? && Meant(s, |s.near.streams|)
    ensures Inv(s.(near := s.near.(up := false), inn := s.inn[1..]))
  {
    DataDropped(s);
    PopIds(s);
    DropStep(s.(inn := s.inn[1..]));
  }

  /** Demultiplexing, and the room that the ring has. */
  lemma DataMeant(s: Sys, i: nat)
    requires Inv(s) && s.inn != [] && s.inn[0].Data? && i == Find(s.near.streams, s.inn[0].Did())
    ensures Meant(s, i) && (i < |s.near.streams| ==> |s.near.streams[i].rxq| < RING)
  {
    Demux(s);
    if i < |s.near.streams| { RoomForData(s, i); }
  }

  lemma DataStep(s: Sys, o: Outcome)
    requires Inv(s) && Can(s, Deliver(o)) && s.inn[0].Data?
    ensures Inv(Do(s, Deliver(o)))
  {
    var i := Find(s.near.streams, s.inn[0].Did());
    DataMeant(s, i);
    DataOutcome(s, o, i);
    if i < |s.near.streams| { QueueStep(s, i); } else { DataLost(s); }
  }

  lemma QueueStep(s: Sys, i: nat)
    requires Inv(s) && s.inn != [] && s.inn[0].Data?
    requires i < |s.near.streams| && s.near.streams[i].uid == s.inn[0].dst
    ensures Inv(s.(near := Put(s.near, i, s.near.streams[i].(rxq := s.near.streams[i].rxq + [s.inn[0].payload])), inn := s.inn[1..]))
  {
    DataArrives(s, i);
    PopIds(s);
    PutIds(s.(inn := s.inn[1..]), i, s.near.streams[i].(rxq := s.near.streams[i].rxq + [s.inn[0].payload]));
  }

  lemma AckOutcome(s: Sys, o: Outcome, i: nat)
    requires Can(s, Deliver(o)) && s.inn[0].Ack? && i == Find(s.near.streams, s.inn[0].Did())
    ensures Do(s, Deliver(o)) == s.(near := if i == |s.near.streams| then s.near else OnAckAt(s.near, i), inn := s.inn[1..])
  {
  }

  lemma AckLost(s: Sys)
    requires Inv(s) && s.inn != [] && s.inn[0].Ack? && Meant(s, |s.near.streams|)
    ensures Inv(s.(inn := s.inn[1..]))
  {
    AckDropped(s);
    PopIds(s);
  }

  lemma AckStep(s: Sys, o: Outcome)
    requires Inv(s) && Can(s, Deliver(o)) && s.inn[0].Ack?
    ensures Inv(Do(s, Deliver(o)))
  {
    var i := Find(s.near.streams, s.inn[0].Did());
    Demux(s);
    AckOutcome(s, o, i);
    if i < |s.near.streams| { CreditStep(s, i); } else { AckLost(s); }
  }

  lemma CreditStep(s: Sys, i: nat)
    requires Inv(s) && s.inn != [] && s.inn[0].Ack?
    requires i < |s.near.streams| && s.near.streams[i].uid == s.inn[0].dst
    ensures Inv(s.(near := OnAckAt(s.near, i), inn := s.inn[1..]))
  {
    AckArrives(s, i);
    PopIds(s);
    PutIds(s.(inn := s.inn[1..]), i, OnAckAt(s.near, i).streams[i]);
  }

  // ----- all of them -----------------------------------------------------------------------

  lemma DeliverStep(s: Sys, o: Outcome)
    requires Inv(s) && Can(s, Deliver(o))
    ensures Inv(Do(s, Deliver(o)))
  {
    match s.inn[0]
    case CreateReq(_, _) => RequestArrives(s, o);
    case CreateResp(_, _, _, _) => ResponseArrives(s, o);
    case Close(_, _) => CloseArrives(s, o);
    case Data(_, _, _) => DataStep(s, o);
    case Ack(_, _) => AckStep(s, o);
  }

  lemma OpeningKeeps(s: Sys, a: Action)
    requires Inv(s) && Can(s, a) && (a.Skip? || a.Open? || a.SendReq? || a.OpenDone? || a.OpenFail?)
    ensures Inv(Do(s, a))
  {
    match a
    case Skip => SkipStep(s, Do(s, a));
    case Open => OpenStep(s);
    case SendReq(i) => SendReqStep(s, i, Do(s, a));
    case OpenDone(i) => OpenDoneStep(s, i);
    case OpenFail(i) => EraseStep(s, i, Do(s, a));
  }

  lemma WritingKeeps(s: Sys, a: Action)
    requires Inv(s) && Can(s, a) && (a.Acquire? || a.Send? || a.SendFail? || a.Debited?)
    ensures Inv(Do(s, a))
  {
    match a
    case Acquire(i) => AcquireKeeps(s, i);
    case Send(i, p) => SendStep(s, i, p);
    case SendFail => SendFailKeeps(s);
    case Debited(i) => DebitStep(s, i);
  }

  lemma ReadingKeeps(s: Sys, a: Action)
    requires Inv(s) && Can(s, a) && (a.Read? || a.Acked? || a.Notify? || a.Forget? || a.Drop?)
    ensures Inv(Do(s, a))
  {
    match a
    case Read(i) => ReadStep(s, i);
    case Acked(i, ok) => AckedStep(s, i, ok);
    case Notify(i, ok) => NotifyStep(s, i, ok);
    case Forget(i) => EraseStep(s, i, Do(s, a));
    case Drop => DropTo(s, Do(s, a));
  }

  lemma HandlingKeeps(s: Sys, a: Action)
    requires Inv(s) && Can(s, a) && (a.Deliver? || a.Respond? || a.Finish?)
    ensures Inv(Do(s, a))
  {
    match a
    case Deliver(o) => DeliverStep(s, o);
    case Respond(i, ok) => RespondStep(s, i, ok);
    case Finish(i) => FinishStep(s, i);
  }

  lemma ActKeeps(s: Sys, a: Action)
    requires Inv(s) && Can(s, a)
    ensures Inv(Do(s, a))
  {
    if a.Skip? || a.Open? || a.SendReq? || a.OpenDone? || a.OpenFail? {
      OpeningKeeps(s, a);
    } else if a.Acquire? || a.Send? || a.SendFail? || a.Debited? {
      WritingKeeps(s, a);
    } else if a.Deliver? || a.Respond? || a.Finish? {
      HandlingKeeps(s, a);
    } else {
      ReadingKeeps(s, a);
    }
  }
}
