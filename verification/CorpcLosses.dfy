/** Which reads are never acknowledged: the credit they cost, counted over whole runs. */
module CorpcLosses {
  import opened CorpcChannel
  import opened CorpcSystem
  import opened CorpcInvariant
  import opened CorpcSteps
  import opened CorpcTheorems

  /** The action costs stream u an acknowledgement: sending it fails, or a message is read while the
      channel or the stream is not established. */
  predicate Loses(e: Endpoint, a: Action, u: nat) {
    || (a.Acked? && !a.ok && a.i < |e.streams| && e.streams[a.i].uid == u)
    || (a.Read? && a.i < |e.streams| && e.streams[a.i].uid == u && !(e.up && e.streams[a.i].state == Established))
  }

  function Cost(e: Endpoint, a: Action, u: nat): nat { if Loses(e, a, u) then 1 else 0 }

  /** How often stream u of one side loses an acknowledgement in a run. */
  ghost function Losses(s: Sys, run: seq<Step>, side: bool, u: nat): nat
    requires IsRun(s, run)
    decreases |run|
  {
    if run == [] then 0
    else
      (if run[0].atFar == side then Cost(Side(s, side).near, run[0].act, u) else 0) + Losses(Next(s, run[0]), run[1..], side, u)
  }

  // ----- one step ------------------------------------------------------------------------

  /** st was there before, and has lost what the action costs it; or it is new and has lost
      nothing. */
  ghost predicate Descends(e: Endpoint, a: Action, st: Stream) {
    || (exists k :: 0 <= k < |e.streams| && e.streams[k].uid == st.uid && st.lost == e.streams[k].lost + Cost(e, a, st.uid))
    || (st.uid == e.drawn + 1 && st.lost == 0)
  }

  lemma SameDescends(e: Endpoint, a: Action, k: nat)
    requires k < |e.streams| && !Loses(e, a, e.streams[k].uid)
    ensures Descends(e, a, e.streams[k])
  {
  }

  /** An action that changes one stream, and loses nothing of the others. */
  lemma PutDescends(e: Endpoint, a: Action, i: nat, st: Stream, k: nat)
    requires StreamsOk(e.streams, e.drawn, e.mate) && i < |e.streams| && k < |e.streams|
    requires st.uid == e.streams[i].uid && st.lost == e.streams[i].lost + Cost(e, a, st.uid)
    requires a.Read? || a.Acked? ==> a.i == i
    ensures Descends(e, a, e.streams[i := st][k])
  {
    if k != i { assert e.streams[k].uid != e.streams[i].uid; }
  }

  lemma EraseDescends(e: Endpoint, a: Action, i: nat, k: nat)
    requires i < |e.streams| && k < |e.streams| - 1 && !a.Read? && !a.Acked?
    ensures Descends(e, a, Erase(e.streams, i)[k])
  {
    SameDescends(e, a, if k < i then k else k + 1);
  }

  lemma RegisterDescends(e: Endpoint, a: Action, p: nat, rwnd: nat, pc: Pc, k: nat)
    requires k <= |e.streams| && !a.Read? && !a.Acked?
    ensures Descends(e, a, Register(e, p, rwnd, pc).streams[k])
  {
    if k < |e.streams| { SameDescends(e, a, k); }
  }

  /** e' has the streams of e, perhaps changed otherwise. */
  ghost predicate SameLost(e: Endpoint, e': Endpoint) {
    |e'.streams| == |e.streams| &&
    forall k :: 0 <= k < |e.streams| ==> e'.streams[k].uid == e.streams[k].uid && e'.streams[k].lost == e.streams[k].lost
  }

  lemma RespLost(e: Endpoint, f: Frame)
    requires f.CreateResp?
    ensures SameLost(e, OnCreateResp(e, f))
  {
  }

  lemma CloseLost(e: Endpoint, f: Frame)
    requires f.Close?
    ensures SameLost(e, OnClose(e, f))
  {
  }

  lemma DataLost(e: Endpoint, f: Frame)
    requires f.Data?
    ensures SameLost(e, OnData(e, f))
  {
  }

  lemma AckLost(e: Endpoint, f: Frame)
    requires f.Ack?
    ensures SameLost(e, OnAck(e, f))
  {
  }

  lemma ReceiveLost(e: Endpoint, f: Frame, o: Outcome)
    requires !f.CreateReq?
    ensures SameLost(e, Receive(e, f, o))
  {
    match f
    case CreateResp(_, _, _, _) => RespLost(e, f);
    case Close(_, _) => CloseLost(e, f);
    case Data(_, _, _) => DataLost(e, f);
    case Ack(_, _) => AckLost(e, f);
  }

  lemma ReceiveDescends(e: Endpoint, f: Frame, o: Outcome, a: Action, k: nat, e': Endpoint)
    requires a.Deliver? && e' == Receive(e, f, o) && k < |e'.streams|
    ensures Descends(e, a, e'.streams[k])
  {
    if !f.CreateReq? {
      ReceiveLost(e, f, o);
    } else if o.Refuse? {
      SameDescends(e, a, k);
    } else {
      RegisterDescends(e, a, f.src, f.rwnd, if o.NoThread? then Unserved else Live, k);
    }
  }

  lemma OpeningDescends(s: Sys, a: Action, k: nat, e': Endpoint)
    requires Could(s, a) && StreamsOk(s.near.streams, s.near.drawn, s.near.mate) && e' == Do(s, a).near && k < |e'.streams|
    requires a.Open? || a.SendReq? || a.OpenDone? || a.OpenFail?
    ensures Descends(s.near, a, e'.streams[k])
  {
    var e := s.near;
    match a
    case Open => RegisterDescends(e, a, 0, 0, Fresh, k);
    case SendReq(i) => PutDescends(e, a, i, e.streams[i].(pc := AwaitResp), k);
    case OpenDone(i) => PutDescends(e, a, i, e.streams[i].(pc := Live), k);
    case OpenFail(i) => EraseDescends(e, a, i, k);
  }

  lemma ReadingDescends(s: Sys, a: Action, k: nat, e': Endpoint)
    requires Could(s, a) && StreamsOk(s.near.streams, s.near.drawn, s.near.mate) && e' == Do(s, a).near && k < |e'.streams|
    requires a.Debited? || a.Read? || a.Acked? || a.Notify? || a.Forget?
    ensures Descends(s.near, a, e'.streams[k])
  {
    var e := s.near;
    match a
    case Debited(i) => PutDescends(e, a, i, Debit(e, i).streams[i], k);
    case Read(i) => PutDescends(e, a, i, Pop(e, i).streams[i], k);
    case Acked(i, ok) => PutDescends(e, a, i, Acknowledge(e, i, ok).streams[i], k);
    case Notify(i, _) => PutDescends(e, a, i, e.streams[i].(pc := Closing), k);
    case Forget(i) => EraseDescends(e, a, i, k);
  }

  lemma FinishDescends(s: Sys, a: Action, k: nat, e': Endpoint)
    requires Could(s, a) && StreamsOk(s.near.streams, s.near.drawn, s.near.mate) && e' == Do(s, a).near && k < |e'.streams|
    requires a.Finish?
    ensures Descends(s.near, a, e'.streams[k])
  {
    var e := s.near;
    if e.handler.uid == 0 {
      SameDescends(e, a, k);
    } else if e.handler.status == Ok {
      PutDescends(e, a, a.i, e.streams[a.i].(state := Established), k);
    } else {
      EraseDescends(e, a, a.i, k);
    }
  }

  /** Every stream there is after an action, with what it has lost. */
  lemma ActDescends(s: Sys, a: Action, k: nat, e': Endpoint)
    requires Could(s, a) && StreamsOk(s.near.streams, s.near.drawn, s.near.mate) && e' == Do(s, a).near && k < |e'.streams|
    ensures Descends(s.near, a, e'.streams[k])
  {
    if a.Open? || a.SendReq? || a.OpenDone? || a.OpenFail? {
      OpeningDescends(s, a, k, e');
    } else if a.Debited? || a.Read? || a.Acked? || a.Notify? || a.Forget? {
      ReadingDescends(s, a, k, e');
    } else if a.Deliver? {
      ReceiveDescends(s.near, s.inn[0], a.o, a, k, e');
    } else if a.Finish? {
      FinishDescends(s, a, k, e');
    } else {
      SameDescends(s.near, a, k);
    }
  }

  lemma DrawnStays(s: Sys, a: Action)
    requires Could(s, a)
    ensures s.near.drawn <= Do(s, a).near.drawn && Do(s, a).far == s.far
  {
    if a.Deliver? { ReceiveStays(s.near, s.inn[0], a.o); }
  }

  lemma ReceiveStays(e: Endpoint, f: Frame, o: Outcome)
    ensures e.drawn <= Receive(e, f, o).drawn
  {
  }

  // ----- runs ----------------------------------------------------------------------------

  /** st is a stream of e and has lost n more since, or is new and has lost n */
  ghost predicate CountedAt(e: Endpoint, st: Stream, n: nat) {
    (exists k :: 0 <= k < |e.streams| && e.streams[k].uid == st.uid && st.lost == e.streams[k].lost + n) ||
    (e.drawn < st.uid && st.lost == n)
  }

  /** A stream that is there after a run was there before, or is new; what it has lost beyond what
      it had lost before is what the run cost it. */
  ghost predicate Counted(s: Sys, run: seq<Step>, side: bool, st: Stream)
    requires IsRun(s, run)
  {
    CountedAt(Side(s, side).near, st, Losses(s, run, side, st.uid))
  }

  /** A step of this side. */
  lemma CountedHere(e: Endpoint, a: Action, e': Endpoint, st: Stream, n: nat)
    requires StreamsOk(e.streams, e.drawn, e.mate) && e.drawn <= e'.drawn
    requires forall k :: 0 <= k < |e'.streams| ==> Descends(e, a, e'.streams[k])
    requires CountedAt(e', st, n)
    ensures CountedAt(e, st, Cost(e, a, st.uid) + n)
  {
    NewLosesNothing(e, a, st.uid);
    if k :| 0 <= k < |e'.streams| && e'.streams[k].uid == st.uid && st.lost == e'.streams[k].lost + n {
      assert Descends(e, a, e'.streams[k]);
    }
  }

  lemma CountedNear(s: Sys, a: Action, e': Endpoint, st: Stream, n: nat)
    requires Could(s, a) && StreamsOk(s.near.streams, s.near.drawn, s.near.mate) && e' == Do(s, a).near && CountedAt(e', st, n)
    ensures CountedAt(s.near, st, Cost(s.near, a, st.uid) + n)
  {
    DrawnStays(s, a);
    forall k | 0 <= k < |e'.streams| ensures Descends(s.near, a, e'.streams[k]) { ActDescends(s, a, k, e'); }
    CountedHere(s.near, a, e', st, n);
  }

  lemma CountedStep(s: Sys, run: seq<Step>, side: bool, st: Stream)
    requires Inv(s) && run != [] && IsRun(s, run) && Counted(Next(s, run[0]), run[1..], side, st)
    ensures Counted(s, run, side, st)
  {
    var t := run[0];
    var here, n := Side(s, t.atFar), Losses(Next(s, t), run[1..], side, st.uid);
    if t.atFar == side {
      assert StreamsOk(here.near.streams, here.near.drawn, here.near.mate);
      CountedNear(here, t.act, Side(Next(s, t), side).near, st, n);
    } else {
      DrawnStays(here, t.act);
      assert Side(Next(s, t), side).near == Side(s, side).near;
    }
  }

  lemma NewLosesNothing(e: Endpoint, a: Action, u: nat)
    requires StreamsOk(e.streams, e.drawn, e.mate)
    ensures e.drawn < u ==> Cost(e, a, u) == 0
  {
    if Loses(e, a, u) { assert StreamOk(e.streams[a.i], e.drawn, e.mate); }
  }

  lemma {:induction false} RunCounts(s: Sys, run: seq<Step>, side: bool, j: nat)
    requires Inv(s) && IsRun(s, run) && j < |Side(After(s, run), side).near.streams|
    ensures Counted(s, run, side, Side(After(s, run), side).near.streams[j])
    decreases |run|
  {
    if run != [] {
      ActKeeps(Side(s, run[0].atFar), run[0].act);
      assert Flip(Flip(s)) == s;
      RunCounts(Next(s, run[0]), run[1..], side, j);
      CountedStep(s, run, side, Side(After(s, run), side).near.streams[j]);
    }
  }

  /** In every run, what a stream has lost is what the run cost it: one for each acknowledgement that
      could not be sent, and for each message read while channel or stream was not established. */
  lemma LostIsCounted(run: seq<Step>, side: bool, j: nat)
    requires IsRun(START, run) && j < |Side(After(START, run), side).near.streams|
    ensures var st := Side(After(START, run), side).near.streams[j]; st.lost == Losses(START, run, side, st.uid)
  {
    InitInv();
    RunCounts(START, run, side, j);
  }

  /** A sender out of credit is waiting for something: eight messages or acknowledgements of the pair
      are outstanding, less those that were lost. */
  lemma BlockedSenderIsOwed(run: seq<Step>, side: bool, i: nat, j: nat)
    requires IsRun(START, run)
    requires var s := Side(After(START, run), side);
      && i < |s.near.streams| && j < |s.far.streams| && s.near.streams[i].peer != 0 && s.near.streams[i].peer == s.far.streams[j].uid
      && s.near.streams[i].rwnd == 0
    ensures var s := Side(After(START, run), side);
      |InFlight(s.out, s.near.streams[i].uid)| + |s.far.streams[j].rxq| + s.far.streams[j].unacked +
      Acks(s.inn, s.near.streams[i].uid) == RING - Losses(START, run, !side, s.far.streams[j].uid)
  {
    CreditIsConserved(run, side, i, j);
    LostIsCounted(run, !side, j);
  }

  // ----- runs in which nothing is lost ---------------------------------------------------

  /** No acknowledgement fails, the channel stays up, and no close is delivered. */
  ghost predicate Calm(s: Sys, t: Step)
    requires Enabled(s, t)
  {
    !(t.act.Acked? && !t.act.ok) && Do(Side(s, t.atFar), t.act).near.up &&
    !(t.act.Deliver? && Side(s, t.atFar).inn[0].Close?)
  }

  ghost predicate AllCalm(s: Sys, run: seq<Step>)
    requires IsRun(s, run)
    decreases |run|
  {
    run == [] || (Calm(s, run[0]) && AllCalm(Next(s, run[0]), run[1..]))
  }

  /** A stream in the hands of its user is established, or its request is still being answered and
      nothing has arrived yet. */
  predicate Clear(st: Stream, h: Handler) {
    st.pc == Live ==> st.state == Established || (st.state == Opening && st.rxq == [] && HandlerOn(h, st.uid))
  }

  ghost predicate AllClear(e: Endpoint) { e.up && forall k :: 0 <= k < |e.streams| ==> Clear(e.streams[k], e.handler) }

  lemma PutClear(e: Endpoint, i: nat, st: Stream)
    requires AllClear(e) && i < |e.streams| && Clear(st, e.handler)
    ensures AllClear(Put(e, i, st))
  {
  }

  lemma EraseClear(e: Endpoint, i: nat)
    requires AllClear(e) && i < |e.streams|
    ensures AllClear(e.(streams := Erase(e.streams, i)))
  {
  }

  lemma RequestClear(e: Endpoint, f: Frame, o: Outcome)
    requires AllClear(e) && e.handler.Reading? && f.CreateReq?
    ensures AllClear(OnCreateReq(e, f, o))
  {
    assert forall k :: 0 <= k < |e.streams| && e.streams[k].pc == Live ==> e.streams[k].state == Established;
  }

  lemma RespClear(e: Endpoint, f: Frame)
    requires AllClear(e) && e.handler.Reading? && f.CreateResp? && OnCreateResp(e, f).up
    ensures AllClear(OnCreateResp(e, f))
  {
    var i := Find(e.streams, f.Did());
    if i < |e.streams| { assert Clear(e.streams[i], e.handler); }
  }

  lemma DataClear(e: Endpoint, f: Frame)
    requires AllClear(e) && e.handler.Reading? && f.Data? && OnData(e, f).up
    ensures AllClear(OnData(e, f))
  {
    var i := Find(e.streams, f.Did());
    assert Clear(e.streams[i], e.handler);
  }

  lemma AckClear(e: Endpoint, f: Frame)
    requires AllClear(e) && f.Ack?
    ensures AllClear(OnAck(e, f))
  {
    var i := Find(e.streams, f.Did());
    if i < |e.streams| { assert Clear(e.streams[i], e.handler); }
  }

  lemma ReceiveClear(e: Endpoint, f: Frame, o: Outcome)
    requires AllClear(e) && e.handler.Reading? && !f.Close? && Receive(e, f, o).up
    ensures AllClear(Receive(e, f, o))
  {
    match f
    case CreateReq(_, _) => RequestClear(e, f, o);
    case CreateResp(_, _, _, _) => RespClear(e, f);
    case Data(_, _, _) => DataClear(e, f);
    case Ack(_, _) => AckClear(e, f);
  }

  lemma FinishClear(s: Sys, i: nat)
    requires Local(s.near) && AllClear(s.near) && Could(s, Finish(i))
    ensures AllClear(Do(s, Finish(i)).near)
  {
    var e := s.near;
    forall k | 0 <= k < |e.streams| && e.streams[k].pc == Live && (e.handler.uid == 0 || k != i)
      ensures e.streams[k].state == Established
    {
      assert Clear(e.streams[k], e.handler) && StreamOk(e.streams[k], e.drawn, e.mate);
    }
  }

  lemma UserClear(s: Sys, a: Action, e': Endpoint)
    requires Local(s.near) && AllClear(s.near) && Could(s, a) && e' == Do(s, a).near && e'.up
    requires !a.Deliver? && !a.Finish? && !a.Respond? && !a.Open?
    ensures AllClear(e')
  {
    var e := s.near;
    match a
    case SendReq(i) => PutClear(e, i, e.streams[i].(pc := AwaitResp));
    case OpenDone(i) => PutClear(e, i, e.streams[i].(pc := Live));
    case OpenFail(i) => EraseClear(e, i);
    case Debited(i) => assert Clear(e.streams[i], e.handler); PutClear(e, i, Debit(e, i).streams[i]);
    case Read(i) => assert Clear(e.streams[i], e.handler); PutClear(e, i, Pop(e, i).streams[i]);
    case Acked(i, ok) => assert Clear(e.streams[i], e.handler); PutClear(e, i, Acknowledge(e, i, ok).streams[i]);
    case Notify(i, _) => PutClear(e, i, e.streams[i].(pc := Closing));
    case Forget(i) => EraseClear(e, i);
    case _ =>
  }

  lemma ActClear(s: Sys, a: Action)
    requires Local(s.near) && AllClear(s.near) && Could(s, a) && Do(s, a).near.up && !(a.Deliver? && s.inn[0].Close?)
    ensures AllClear(Do(s, a).near)
  {
    if a.Deliver? {
      ReceiveClear(s.near, s.inn[0], a.o);
    } else if a.Finish? {
      FinishClear(s, a.i);
    } else if !a.Respond? && !a.Open? {
      UserClear(s, a, Do(s, a).near);
    }
  }

  lemma ClearLosesNothing(s: Sys, a: Action, u: nat)
    requires AllClear(s.near) && Could(s, a) && !(a.Acked? && !a.ok)
    ensures Cost(s.near, a, u) == 0
  {
    if a.Read? { assert Clear(s.near.streams[a.i], s.near.handler); }
  }

  lemma {:induction false} CalmCosts(s: Sys, run: seq<Step>, side: bool, u: nat)
    requires Inv(s) && IsRun(s, run) && AllCalm(s, run) && AllClear(s.near) && AllClear(s.far)
    ensures Losses(s, run, side, u) == 0
    decreases |run|
  {
    if run != [] {
      var t := run[0];
      var here := Side(s, t.atFar);
      assert Flip(Flip(s)) == s;
      ActKeeps(here, t.act);
      ActClear(here, t.act);
      DrawnStays(here, t.act);
      ClearLosesNothing(here, t.act, u);
      CalmCosts(Next(s, t), run[1..], side, u);
    }
  }

  /** In a run in which no acknowledgement fails, both channels stay up and no close is delivered,
      nothing is lost: a sender out of credit has all eight outstanding. */
  lemma NothingIsLost(run: seq<Step>, side: bool, u: nat)
    requires IsRun(START, run) && AllCalm(START, run)
    ensures Losses(START, run, side, u) == 0
  {
    InitInv();
    CalmCosts(START, run, side, u);
  }
}
