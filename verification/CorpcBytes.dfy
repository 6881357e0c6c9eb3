/** The wires of the step system as bytes: what module CorpcFrames receives is what the channel
    threads of module CorpcSystem handle. */
module CorpcBytes {
  import opened Basics
  import opened CorpcFrames
  import opened CorpcCrc
  import opened CorpcSystem
  import CorpcChannel

  /** The names a request carries, which no step depends on */
  datatype Request = Request(service: Bytes, method_: Bytes)

  /** The requests of an end, by stream */
  type Requests = nat -> Request

  ghost predicate Short(ask: Requests) {
    forall u: nat :: 6 + |ask(u).service| + |ask(u).method_| <= MAX_PAYLOAD
  }

  /** enum create_stream_responce_code */
  function StatusCode(s: CorpcChannel.Status): Word {
    match s
    case Ok => 0
    case NoResources => 1
    case NoService => 2
    case NoMethod => 3
    case InternalError => 4
    case ProtocolError => 5
  }

  predicate Sized(f: CorpcChannel.Frame) {
    (f.CreateReq? || f.CreateResp? ==> f.rwnd <= CorpcChannel.RING) && (f.Data? ==> |f.payload| <= MAX_PAYLOAD)
  }

  predicate AllSized(wire: seq<CorpcChannel.Frame>) { forall k :: 0 <= k < |wire| ==> Sized(wire[k]) }

  /** The message a frame stands for: ids as 16-bit fields */
  function MsgOf(f: CorpcChannel.Frame, ask: Requests): Msg
    requires Sized(f)
  {
    match f
    case CreateReq(u, rwnd) => CreateStreamReq(f.Sid(), rwnd, ask(u).service, ask(u).method_)
    case CreateResp(_, _, rwnd, status) => CreateStreamResp(f.Sid(), f.Did(), rwnd, StatusCode(status))
    case Close(_, _) => CloseStream(f.Sid(), f.Did(), 0)
    case Data(_, _, p) => Data(f.Sid(), f.Did(), p)
    case Ack(_, _) => DataAck(f.Sid(), f.Did())
  }

  function Msgs(wire: seq<CorpcChannel.Frame>, ask: Requests): seq<Msg>
    requires AllSized(wire)
  {
    seq(|wire|, k requires 0 <= k < |wire| => MsgOf(wire[k], ask))
  }

  // ----- frames have their sizes ---------------------------------------------------------

  lemma ActSized(s: Sys, a: Action)
    requires Could(s, a) && AllSized(s.out) && AllSized(s.inn)
    ensures AllSized(Do(s, a).out) && AllSized(Do(s, a).inn)
  {
  }

  lemma {:induction false} RunSized(s: Sys, run: seq<Step>)
    requires IsCodeRun(s, run) && AllSized(s.out) && AllSized(s.inn)
    ensures AllSized(Ends(s, run).out) && AllSized(Ends(s, run).inn)
    decreases |run|
  {
    if run != [] {
      ActSized(Side(s, run[0].atFar), run[0].act);
      RunSized(Taken(s, run[0]), run[1..]);
    }
  }

  // ----- what is received ----------------------------------------------------------------

  /** In every run of the code, with every wire written out as bytes: the channel thread receives the
      messages of all frames on its wire, in order; and receiving once gives the message of the first
      frame and leaves the bytes of the others. */
  lemma WireIsReceived(run: seq<Step>, side: bool, ask: Requests)
    requires IsCodeRun(START, run) && Short(ask)
    ensures var wire := Side(Ends(START, run), side).inn;
            AllSized(wire) && RecvAll(Crc(), WireAll(Crc(), Msgs(wire, ask))) == Msgs(wire, ask) &&
            (wire != [] ==>
               Recv(Crc(), WireAll(Crc(), Msgs(wire, ask))) == Got(MsgOf(wire[0], ask), WireAll(Crc(), Msgs(wire[1..], ask))))
  {
    RunSized(START, run);
    var wire := Side(Ends(START, run), side).inn;
    MessagesReceived(Crc(), wire, ask, Msgs(wire, ask));
    if wire != [] { FirstReceived(Crc(), wire, ask, Msgs(wire, ask)); }
  }

  lemma MessagesReceived(c: Summer, wire: seq<CorpcChannel.Frame>, ask: Requests, ms: seq<Msg>)
    requires c == Crc() && Short(ask) && AllSized(wire) && ms == Msgs(wire, ask)
    ensures RecvAll(c, WireAll(c, ms)) == ms
  {
    CrcFits();
    forall k | 0 <= k < |ms| ensures Sendable(ms[k]) { MsgSendable(wire[k], ask); }
    assert WireAll(c, ms) == WireAll(c, ms) + [];
    RecvAllSent(c, ms, [], WireAll(c, ms));
    assert RecvAll(c, []) == [];
  }

  lemma FirstReceived(c: Summer, wire: seq<CorpcChannel.Frame>, ask: Requests, ms: seq<Msg>)
    requires c == Crc() && Short(ask) && AllSized(wire) && wire != [] && ms == Msgs(wire, ask)
    ensures Recv(c, WireAll(c, ms)) == Got(MsgOf(wire[0], ask), WireAll(c, Msgs(wire[1..], ask)))
  {
    CrcFits();
    MsgSendable(wire[0], ask);
    assert ms[1..] == Msgs(wire[1..], ask);
    var rest := WireAll(c, ms[1..]);
    assert WireAll(c, ms) + [] == WireAll(c, ms) && rest + [] == rest;
    WireAllFirst(c, ms, []);
    RecvSent(c, ms[0], rest);
  }

  lemma MsgSendable(f: CorpcChannel.Frame, ask: Requests)
    requires Sized(f) && Short(ask)
    ensures Sendable(MsgOf(f, ask))
  {
    if f.CreateReq? { assert 6 + |ask(f.src).service| + |ask(f.src).method_| <= MAX_PAYLOAD; }
  }

  // ----- what a message tells ------------------------------------------------------------

  /** The message of a frame: its ids in 16 bits, its credit, its payload and its status, by the numbers
      of src/corpc/corpc-proto.h. */
  lemma MessageTells(f: CorpcChannel.Frame, ask: Requests)
    requires Sized(f)
    ensures MsgOf(f, ask).sid == f.src % 65536 && (!f.CreateReq? ==> !MsgOf(f, ask).CreateStreamReq? && MsgOf(f, ask).did == f.dst % 65536)
    ensures f.CreateReq? ==> MsgOf(f, ask) == CreateStreamReq(f.src % 65536, f.rwnd, ask(f.src).service, ask(f.src).method_)
    ensures f.Data? ==> MsgOf(f, ask).Data? && MsgOf(f, ask).payload == f.payload
    ensures f.Ack? ==> MsgOf(f, ask).DataAck?
    ensures f.Close? ==> MsgOf(f, ask).CloseStream? && MsgOf(f, ask).status == 0
    ensures f.CreateResp? ==>
              MsgOf(f, ask).CreateStreamResp? && MsgOf(f, ask).rwnd == f.rwnd && MsgOf(f, ask).status < 6 &&
              f.status == [CorpcChannel.Ok, CorpcChannel.NoResources, CorpcChannel.NoService, CorpcChannel.NoMethod,
                           CorpcChannel.InternalError, CorpcChannel.ProtocolError][MsgOf(f, ask).status]
  {
  }

  /** A stream as the code sees it: ids are known in 16 bits only. */
  function Look(st: CorpcChannel.Stream): CorpcChannel.Stream {
    st.(uid := CorpcChannel.Id16(st.uid), peer := CorpcChannel.Id16(st.peer))
  }

  function LookAt(h: CorpcChannel.Handler): CorpcChannel.Handler {
    match h
    case Reading => h
    case Responding(p, u, status) => h.(peer := CorpcChannel.Id16(p), uid := CorpcChannel.Id16(u))
    case Finishing(u, status) => h.(uid := CorpcChannel.Id16(u))
  }

  /** The code sees the same. */
  ghost predicate Alike(x: CorpcChannel.Endpoint, y: CorpcChannel.Endpoint) {
    x.up == y.up && x.drawn == y.drawn && x.writer == y.writer && LookAt(x.handler) == LookAt(y.handler) && x.wrote == y.wrote &&
    x.got == y.got && |x.streams| == |y.streams| && forall k :: 0 <= k < |x.streams| ==> Look(x.streams[k]) == Look(y.streams[k])
  }

  /** Handling a frame depends on its message alone: frames with the same message have the same effect
      on every endpoint, as far as the code can see. */
  lemma SameMessageSameEffect(e: CorpcChannel.Endpoint, f: CorpcChannel.Frame, g: CorpcChannel.Frame,
                              ask: Requests, o: CorpcChannel.Outcome)
    requires Sized(f) && Sized(g) && MsgOf(f, ask) == MsgOf(g, ask)
    ensures Alike(CorpcChannel.Receive(e, f, o), CorpcChannel.Receive(e, g, o))
  {
    SameParts(f, g, ask);
    match f
    case CreateReq(_, _) => RequestsAlike(e, f, g, o);
    case CreateResp(_, _, _, _) => ResponsesAlike(e, f, g);
    case _ =>
  }

  lemma SameParts(f: CorpcChannel.Frame, g: CorpcChannel.Frame, ask: Requests)
    requires Sized(f) && Sized(g) && MsgOf(f, ask) == MsgOf(g, ask)
    ensures f.Sid() == g.Sid() && f.Did() == g.Did() && (f.CreateReq? <==> g.CreateReq?) && (f.CreateResp? <==> g.CreateResp?)
    ensures (f.Close? <==> g.Close?) && (f.Data? <==> g.Data?) && (f.Ack? <==> g.Ack?) && (f.Data? ==> f.payload == g.payload)
    ensures (f.CreateReq? || f.CreateResp? ==> f.rwnd == g.rwnd) && (f.CreateResp? ==> f.status == g.status)
  {
  }

  lemma RequestsAlike(e: CorpcChannel.Endpoint, f: CorpcChannel.Frame, g: CorpcChannel.Frame, o: CorpcChannel.Outcome)
    requires f.CreateReq? && g.CreateReq? && f.Sid() == g.Sid() && f.rwnd == g.rwnd
    ensures Alike(CorpcChannel.OnCreateReq(e, f, o), CorpcChannel.OnCreateReq(e, g, o))
  {
  }

  lemma ResponsesAlike(e: CorpcChannel.Endpoint, f: CorpcChannel.Frame, g: CorpcChannel.Frame)
    requires f.CreateResp? && g.CreateResp? && f.Sid() == g.Sid() && f.Did() == g.Did() && f.rwnd == g.rwnd && f.status == g.status
    ensures Alike(CorpcChannel.OnCreateResp(e, f), CorpcChannel.OnCreateResp(e, g))
  {
  }
}
