/** What the channel thread does with a frame, told by the stream the frame is for: the handlers of
    src/corpc/corpc-channel.c:613-832 look it up by its 16-bit id. */
module CorpcHandling {
  import opened CorpcChannel
  import opened CorpcSystem
  import opened CorpcInvariant
  import opened CorpcArrival
  import opened CorpcIds
  import opened CorpcSteps
  import opened CorpcTheorems

  /** The stream a frame was sent to, after it is handled. */
  function Handled(st: Stream, f: Frame): Stream {
    match f
    case CreateReq(_, _) => st
    case CreateResp(src, _, _, status) =>
      if st.state != Opening then st
      else if status == Ok then Stream(st.uid, src, Established, st.pc, 8, st.rxq, st.unacked, st.lost)
      else Stream(st.uid, st.peer, Refused, st.pc, st.rwnd, st.rxq, st.unacked, st.lost)
    case Close(_, _) => Stream(st.uid, st.peer, ClosedByPeer, st.pc, st.rwnd, st.rxq, st.unacked, st.lost)
    case Data(_, _, p) => Stream(st.uid, st.peer, st.state, st.pc, st.rwnd, st.rxq + [p], st.unacked, st.lost)
    case Ack(_, _) => Stream(st.uid, st.peer, st.state, st.pc, st.rwnd + 1, st.rxq, st.unacked, st.lost)
  }

  /** The same endpoint but for its streams, its mates and whether it is up. */
  predicate ElseSame(e: Endpoint, e': Endpoint) {
    e'.drawn == e.drawn && e'.writer == e.writer && e'.handler == e.handler && e'.wrote == e.wrote && e'.got == e.got
  }

  lemma RespHandled(e: Endpoint, f: Frame, i: nat, e': Endpoint)
    requires f.CreateResp? && i == Find(e.streams, f.Did()) && i < |e.streams| && (f.status == Ok ==> f.rwnd == RING)
    requires e' == OnCreateResp(e, f)
    ensures e'.streams == e.streams[i := Handled(e.streams[i], f)] && ElseSame(e, e')
    ensures e'.up == (e.up && !(f.status == ProtocolError && e.streams[i].state == Opening))
  {
  }

  lemma DataHandled(e: Endpoint, f: Frame, i: nat, e': Endpoint)
    requires f.Data? && i == Find(e.streams, f.Did()) && i < |e.streams| && |e.streams[i].rxq| < RING && e' == OnData(e, f)
    ensures e'.streams == e.streams[i := Handled(e.streams[i], f)] && ElseSame(e, e') && e'.up == e.up
  {
  }

  lemma AckHandled(e: Endpoint, f: Frame, i: nat, e': Endpoint)
    requires f.Ack? && i == Find(e.streams, f.Did()) && i < |e.streams| && e' == OnAck(e, f)
    requires OnAckAt(e, i).streams[i] == e.streams[i].(rwnd := e.streams[i].rwnd + 1)
    ensures e'.streams == e.streams[i := Handled(e.streams[i], f)] && ElseSame(e, e') && e'.up == e.up
  {
  }

  /** That stream and no other is changed, as its frame says. */
  ghost predicate AsItSays(e: Endpoint, e': Endpoint, f: Frame, i: nat)
    requires i < |e.streams|
  {
    e'.streams == e.streams[i := Handled(e.streams[i], f)] && ElseSame(e, e') &&
    e'.up == (e.up && !(f.CreateResp? && f.status == ProtocolError && e.streams[i].state == Opening))
  }

  lemma FoundIsHandled(e: Endpoint, f: Frame, o: Outcome, i: nat)
    requires !f.CreateReq? && i == Find(e.streams, f.Did()) && i < |e.streams|
    requires (IsAccept(f) ==> f.rwnd == RING) && (f.Data? ==> |e.streams[i].rxq| < RING)
    requires f.Ack? ==> OnAckAt(e, i).streams[i] == e.streams[i].(rwnd := e.streams[i].rwnd + 1)
    ensures AsItSays(e, Receive(e, f, o), f, i)
  {
    match f
    case CreateResp(_, _, _, _) => RespHandled(e, f, i, OnCreateResp(e, f));
    case Close(_, _) =>
    case Data(_, _, _) => DataHandled(e, f, i, OnData(e, f));
    case Ack(_, _) => AckHandled(e, f, i, OnAck(e, f));
  }

  /** For a stream that is registered. */
  lemma MeantIsHandled(s: Sys, o: Outcome, i: nat)
    requires Inv(s) && s.inn != [] && !s.inn[0].CreateReq? && i < |s.near.streams| && s.near.streams[i].uid == s.inn[0].dst
    ensures AsItSays(s.near, Receive(s.near, s.inn[0], o), s.inn[0], i)
  {
    MeantIsFound(s, i);
    if s.inn[0].Data? { RoomForData(s, i); }
    if s.inn[0].Ack? { AckNoWrap(s, i); }
    FoundIsHandled(s.near, s.inn[0], o, i);
  }

  lemma MeantIsFound(s: Sys, i: nat)
    requires Inv(s) && s.inn != [] && !s.inn[0].CreateReq? && i < |s.near.streams| && s.near.streams[i].uid == s.inn[0].dst
    ensures i == Find(s.near.streams, s.inn[0].Did()) && (IsAccept(s.inn[0]) ==> s.inn[0].rwnd == RING)
  {
    Demux(s);
    OnlyOne(s, i, Find(s.near.streams, s.inn[0].Did()));
    assert FrameOk(s.far.mate, s.far.drawn, s.near.mate, s.near.drawn, s.inn[0]);
  }

  lemma OnlyOne(s: Sys, i: nat, j: nat)
    requires Local(s.near) && Meant(s, j) && i < |s.near.streams| && s.near.streams[i].uid == s.inn[0].dst
    requires s.inn != [] && !s.inn[0].CreateReq?
    ensures i == j
  {
  }

  /** In every run: a frame for a registered stream changes that stream as it says and no other. */
  lemma FrameIsHandled(run: seq<Step>, side: bool, o: Outcome, i: nat)
    requires IsRun(START, run) && Could(Side(After(START, run), side), Deliver(o))
    requires var s := Side(After(START, run), side);
             !s.inn[0].CreateReq? && i < |s.near.streams| && s.near.streams[i].uid == s.inn[0].dst
    ensures var s := Side(After(START, run), side);
            var t, f := Do(s, Deliver(o)), s.inn[0];
            t.near.streams == s.near.streams[i := Handled(s.near.streams[i], f)] && ElseSame(s.near, t.near) &&
            t.near.up == !(f.CreateResp? && f.status == ProtocolError && s.near.streams[i].state == Opening) &&
            t.inn == s.inn[1..] && t.out == s.out && t.far == s.far
  {
    Reached(run, side);
    MeantIsHandled(Side(After(START, run), side), o, i);
  }

  /** In every run: data or a response for a stream that is gone end the channel, other frames for it
      change nothing. */
  lemma FrameForNobody(run: seq<Step>, side: bool, o: Outcome)
    requires IsRun(START, run) && Could(Side(After(START, run), side), Deliver(o))
    requires var s := Side(After(START, run), side);
             !s.inn[0].CreateReq? && forall k :: 0 <= k < |s.near.streams| ==> s.near.streams[k].uid != s.inn[0].dst
    ensures var s := Side(After(START, run), side);
            Do(s, Deliver(o)) == s.(near := s.near.(up := s.inn[0].Close? || s.inn[0].Ack?), inn := s.inn[1..])
  {
    var s := Side(After(START, run), side);
    Reached(run, side);
    Demux(s);
    GoneHandled(s.near, s.inn[0], o);
  }

  lemma GoneHandled(e: Endpoint, f: Frame, o: Outcome)
    requires !f.CreateReq? && Find(e.streams, f.Did()) == |e.streams| && e.up
    ensures Receive(e, f, o) == e.(up := f.Close? || f.Ack?)
  {
  }

  // ----- opening a stream ----------------------------------------------------------------

  /** A request is registered and its answer prepared: with the stream if it is served, without if it
      is refused. */
  lemma RequestIsHandled(s: Sys, o: Outcome)
    requires Could(s, Deliver(o)) && s.inn[0].CreateReq?
    ensures var e, t, f := s.near, Do(s, Deliver(o)), s.inn[0];
            t.inn == s.inn[1..] && t.out == s.out && t.far == s.far && t.near.up == e.up &&
            match o
            case Refuse(why) => t.near.streams == e.streams && t.near.handler == Responding(f.src, 0, why) && t.near.drawn == e.drawn
            case NoThread =>
              t.near.streams == e.streams + [Stream(e.drawn + 1, f.src, Opening, Unserved, f.rwnd, [], 0, 0)] &&
              t.near.handler == Responding(f.src, e.drawn + 1, InternalError) && t.near.drawn == e.drawn + 1
            case Serve =>
              t.near.streams == e.streams + [Stream(e.drawn + 1, f.src, Opening, Live, f.rwnd, [], 0, 0)] &&
              t.near.handler == Responding(f.src, e.drawn + 1, Ok) && t.near.drawn == e.drawn + 1
  {
  }

  /** What the requester is told: the id of the stream if it was created, and otherwise why not; the
      credit is the free space of the stream's ring, if there is one. */
  lemma AnswerIsSent(s: Sys, n: nat)
    requires Could(s, Respond(n, true))
    ensures var h, t := s.near.handler, Do(s, Respond(n, true));
            t.near == s.near.(handler := Finishing(h.uid, h.status)) && t.inn == s.inn && t.far == s.far &&
            |t.out| == |s.out| + 1 && t.out[..|s.out|] == s.out &&
            var f := t.out[|s.out|];
            f.CreateResp? && f.dst == h.peer && f.status == h.status && (f.status == Ok ==> f.src == h.uid) &&
            (f.status != Ok ==> f.src == 0) && (h.uid == 0 ==> f.rwnd == 0) &&
            (h.uid != 0 && |s.near.streams[n].rxq| <= 8 ==> f.rwnd + |s.near.streams[n].rxq| == 8)
  {
  }

  /** Behind the answer the stream is established if it was created for good, and otherwise leaves the
      table again; no other stream is touched. */
  lemma AnswerIsFinished(s: Sys, n: nat)
    requires Could(s, Finish(n))
    ensures var e, t := s.near, Do(s, Finish(n));
            t.out == s.out && t.inn == s.inn && t.far == s.far && ElseSame(e.(handler := Reading), t.near) && t.near.up == e.up &&
            t.near.streams ==
            if e.handler.uid == 0 then e.streams
            else if e.handler.status == Ok then e.streams[n := e.streams[n].(state := Established)]
            else e.streams[..n] + e.streams[n + 1..]
  {
  }

  /** An opener's request carries its id and the free space of its ring, and then it waits. */
  lemma RequestIsSent(s: Sys, i: nat)
    requires Could(s, SendReq(i)) && s.near.streams[i].rxq == []
    ensures var e, t := s.near, Do(s, SendReq(i));
            t.out == s.out + [CreateReq(e.streams[i].uid, 8)] && t.inn == s.inn && t.far == s.far &&
            t.near == e.(streams := e.streams[i := e.streams[i].(pc := AwaitResp)])
  {
  }

  /** The near end can serve the request at the head of its wire. */
  ghost predicate CanServe(s: Sys) {
    Inv(s) && RoomForId(s) && s.near.up && s.near.handler.Reading? && s.near.writer.Idle? && |s.near.streams| < MAX_STREAMS &&
    s.out == [] && s.inn != [] && s.inn[0].CreateReq?
  }

  /** The stream made for a request */
  function Made(s: Sys, state: State): Stream
    requires s.inn != []
  {
    Stream(s.near.drawn + 1, s.inn[0].src, state, Live, 8, [], 0, 0)
  }

  /** s serves the request: it registers the stream, ... */
  lemma ServeFirst(s: Sys) returns (a: Sys)
    requires CanServe(s)
    ensures Could(s, Deliver(Serve)) && a == Do(s, Deliver(Serve)) && Inv(a)
    ensures a.near.streams == s.near.streams + [Made(s, Opening)] && a.near.handler == Responding(s.inn[0].src, s.near.drawn + 1, Ok)
    ensures a.near.up && a.near.writer.Idle? && a.out == [] && a.far == s.far
  {
    a := Do(s, Deliver(Serve));
    RequestIsWhole(s);
    ServeMakes(s);
    ServeKeeps(s);
  }

  lemma ServeMakes(s: Sys)
    requires s.near.up && s.near.handler.Reading? && s.near.writer.Idle? && |s.near.streams| < MAX_STREAMS && s.out == []
    requires s.inn != [] && s.inn[0].CreateReq? && s.inn[0].rwnd == 8
    ensures Could(s, Deliver(Serve))
    ensures var a := Do(s, Deliver(Serve));
            a.near.streams == s.near.streams + [Made(s, Opening)] && a.near.up && a.near.writer.Idle? && a.out == [] && a.far == s.far &&
            a.near.handler == Responding(s.inn[0].src, s.near.drawn + 1, Ok)
  {
    RequestIsHandled(s, Serve);
  }

  lemma ServeKeeps(s: Sys)
    requires CanServe(s)
    ensures Inv(Do(s, Deliver(Serve)))
  {
    ActKeeps(s, Deliver(Serve));
  }

  lemma RequestIsWhole(s: Sys)
    requires Half(Flip(s)) && s.inn != [] && s.inn[0].CreateReq?
    ensures s.inn[0].rwnd == 8
  {
    assert FrameOk(s.far.mate, s.far.drawn, s.near.mate, s.near.drawn, s.inn[0]);
  }

  /** ... sends its id and the whole ring as credit, ... */
  lemma ServeSecond(a: Sys, n: nat, st: Stream) returns (b: Sys)
    requires Inv(a) && a.near.up && a.near.writer.Idle? && n < |a.near.streams| && a.near.streams[n] == st && st.rxq == []
    requires a.near.handler == Responding(st.peer, st.uid, Ok) && a.out == []
    ensures Could(a, Respond(n, true)) && b == Do(a, Respond(n, true)) && Inv(b)
    ensures b == a.(near := a.near.(handler := Finishing(st.uid, Ok)), out := [CreateResp(st.uid, st.peer, 8, Ok)])
  {
    b := Do(a, Respond(n, true));
    RespondKeeps(a, n);
  }

  lemma RespondKeeps(a: Sys, n: nat)
    requires Inv(a) && Could(a, Respond(n, true))
    ensures Inv(Do(a, Respond(n, true)))
  {
    ActKeeps(a, Respond(n, true));
  }

  /** ... and establishes it. */
  lemma ServeThird(b: Sys, n: nat, st: Stream) returns (c: Sys)
    requires Inv(b) && n < |b.near.streams| && b.near.streams[n] == st && b.near.handler == Finishing(st.uid, Ok)
    ensures Could(b, Finish(n)) && c == Do(b, Finish(n)) && Inv(c)
    ensures c.near.streams == b.near.streams[n := st.(state := Established)] && c.out == b.out && c.far == b.far
    ensures c.near.handler.Reading?
  {
    c := Do(b, Finish(n));
    assert StreamOk(st, b.near.drawn, b.near.mate);
    ActKeeps(b, Finish(n));
  }

  /** One step at the near end */
  predicate Goes(s: Sys, a: Action, t: Sys) { Could(s, a) && t == Do(s, a) }

  /** Stream n of near is the one made for the request of s, which is answered. */
  ghost predicate Granted(s: Sys, t: Sys, n: nat, state: State)
    requires s.inn != []
  {
    Inv(t) && n < |t.near.streams| && t.near.streams[n] == Made(s, state) && t.far == s.far &&
    t.out == [CreateResp(s.near.drawn + 1, s.inn[0].src, 8, Ok)] &&
    (state == Opening ==> t.near.handler == Finishing(s.near.drawn + 1, Ok))
  }

  lemma ServeTwo(s: Sys) returns (a: Sys, b: Sys)
    requires CanServe(s)
    ensures Goes(s, Deliver(Serve), a) && Goes(a, Respond(|s.near.streams|, true), b)
    ensures Granted(s, b, |s.near.streams|, Opening)
  {
    a := ServeFirst(s);
    b := ServeSecond(a, |s.near.streams|, Made(s, Opening));
  }

  lemma ServeLast(s: Sys, b: Sys, n: nat) returns (c: Sys)
    requires s.inn != [] && Granted(s, b, n, Opening)
    ensures Goes(b, Finish(n), c) && Granted(s, c, n, Established)
  {
    c := ServeThird(b, n, Made(s, Opening));
  }

  lemma AnswerArrives(s: Sys, c: Sys, n: nat, j: nat)
    requires s.inn != [] && Granted(s, c, n, Established) && s.far.up && s.far.handler.Reading? && j < |s.far.streams|
    requires s.far.streams[j].uid == s.inn[0].src && s.far.streams[j].state == Opening
    ensures Could(Flip(c), Deliver(Serve)) && Connected(Do(Flip(c), Deliver(Serve)), j, n)
  {
    Answered(Flip(c), j, n, Made(s, Established));
  }

  /** A request that is served: the three steps of its handler, and the step in which the requester
      receives the answer, end with the two streams established with each other, each with the whole
      ring of the other as credit. */
  lemma ServedIsConnected(s: Sys, j: nat) returns (a: Sys, b: Sys, c: Sys, d: Sys)
    requires CanServe(s) && s.far.up && s.far.handler.Reading? && j < |s.far.streams|
    requires s.far.streams[j].uid == s.inn[0].src && s.far.streams[j].state == Opening
    ensures var n := |s.near.streams|;
            Goes(s, Deliver(Serve), a) && Goes(a, Respond(n, true), b) && Goes(b, Finish(n), c) &&
            Goes(Flip(c), Deliver(Serve), d) && Connected(d, j, n)
  {
    a, b := ServeTwo(s);
    c := ServeLast(s, b, |s.near.streams|);
    AnswerArrives(s, c, |s.near.streams|, j);
    d := Do(Flip(c), Deliver(Serve));
  }

  lemma Answered(c: Sys, j: nat, n: nat, st: Stream)
    requires Inv(c) && c.near.up && c.near.handler.Reading? && j < |c.near.streams| && c.near.streams[j].state == Opening
    requires n < |c.far.streams| && c.far.streams[n] == st && st.state == Established && st.rwnd == 8
    requires c.inn == [CreateResp(st.uid, st.peer, 8, Ok)] && c.near.streams[j].uid == st.peer
    ensures Could(c, Deliver(Serve)) && Connected(Do(c, Deliver(Serve)), j, n)
  {
    MeantIsHandled(c, Serve, j);
  }

  /** Streams i of near and n of far are established with each other. */
  predicate Connected(s: Sys, i: nat, n: nat) {
    i < |s.near.streams| && n < |s.far.streams| &&
    var x, y := s.near.streams[i], s.far.streams[n];
    x.state == Established && y.state == Established && x.peer == y.uid && y.peer == x.uid && x.rwnd == 8 && y.rwnd == 8
  }

  // ----- closing a stream ----------------------------------------------------------------

  /** A user who closes a stream tells the peer, behind all that was sent before, and then exactly that
      stream leaves the table. */
  lemma ClosingIsTold(s: Sys, i: nat)
    requires Could(s, Notify(i, true))
    ensures var e, t := s.near, Do(s, Notify(i, true));
            t.out == s.out + [Close(e.streams[i].uid, e.streams[i].peer)] && t.inn == s.inn && t.far == s.far &&
            Could(t, Forget(i)) && Do(t, Forget(i)) == t.(near := e.(streams := e.streams[..i] + e.streams[i + 1..]))
  {
    var t := Do(s, Notify(i, true));
    assert t.near.streams[..i] == s.near.streams[..i] && t.near.streams[i + 1..] == s.near.streams[i + 1..];
  }
}
