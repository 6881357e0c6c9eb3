/** The channel object itself: the handlers and stream operations of
    src/corpc/corpc-channel.c as methods that update its fields.  Each method is one piece of
    code run under channel_state_lock, and is proved to do what CorpcChannel says. */
module CorpcEndpoint {
  import opened CorpcChannel

  /** The outcome of a create-stream request: the lookup is tried first, then the stream table,
      then the start of the service thread. */
  function Decide(e: Endpoint, lookup: Status, started: bool): (o: Outcome)
    ensures o.Serve? <==> lookup == Ok && |e.streams| < MAX_STREAMS && started
    ensures o != Refuse(Ok)
  {
    if lookup != Ok then Refuse(lookup)
    else if |e.streams| >= MAX_STREAMS then Refuse(NoResources)
    else if started then Serve else NoThread
  }

  /** What one pass of the loop in acquire_write_lock finds. */
  datatype Attempt = Acquired | NotConnected | MustWait

  class Channel {
    var up: bool
    var streams: seq<Stream>
    var drawn: nat
    var writer: Writer
    var handler: Handler
    ghost var mate: map<nat, nat>
    ghost var wrote: map<nat, seq<Payload>>
    ghost var got: map<nat, seq<Payload>>

    ghost function View(): Endpoint
      reads this
    {
      Endpoint(up, streams, drawn, writer, handler, mate, wrote, got)
    }

    constructor ()
      ensures View() == EMPTY
    {
      up, streams, drawn, writer, handler := true, [], 0, Idle, Reading;
      mate, wrote, got := map[], map[], map[];
    }

    /** Linear search for the 16-bit id. */
    method FindStreamBySid(id: nat) returns (i: nat)
      ensures i == Find(streams, id)
    {
      i := 0;
      while i < |streams| && Id16(streams[i].uid) != id
        invariant i <= |streams|
        invariant Find(streams, id) == i + Find(streams[i..], id)
      {
        assert streams[i..][1..] == streams[i + 1..];
        i := i + 1;
      }
    }

    /** create_new_stream: fails only when the table is full. */
    method CreateNewStream() returns (ok: bool)
      modifies this
      ensures ok <==> |old(streams)| < MAX_STREAMS
      ensures View() == if ok then Register(old(View()), 0, 0, Fresh) else old(View())
    {
      ok := |streams| < MAX_STREAMS;
      if ok {
        drawn := drawn + 1;
        streams := streams + [Stream(drawn, 0, Opening, Fresh, 0, [], 0, 0)];
      }
    }

    /** accept_stream: takes the peer id and the credit from the request. */
    method AcceptStream(peer: nat, rwnd: nat, pc: Pc) returns (uid: nat)
      requires peer != 0
      modifies this
      ensures uid != 0 <==> |old(streams)| < MAX_STREAMS
      ensures uid != 0 ==> uid == old(drawn) + 1 && View() == Register(old(View()), peer, rwnd, pc)
      ensures uid == 0 ==> View() == old(View())
    {
      if |streams| >= MAX_STREAMS { return 0; }
      drawn := drawn + 1;
      uid := drawn;
      streams := streams + [Stream(uid, peer, Opening, pc, rwnd, [], 0, 0)];
      mate := mate[uid := peer];
    }

    /** on_create_stream_request up to the point where the response is to be sent.  `lookup` is
        the result of the service and method search, `started` that of co_schedule. */
    method OnCreateStreamRequest(f: Frame, lookup: Status, started: bool)
      requires f.CreateReq? && f.src != 0
      modifies this
      ensures View() == OnCreateReq(old(View()), f, Decide(old(View()), lookup, started))
    {
      var status := lookup;
      var uid := 0;
      if lookup == Ok {
        uid := AcceptStream(f.src, f.rwnd, if started then Live else Unserved);
        status := if uid == 0 then NoResources else if started then Ok else InternalError;
      }
      handler := Responding(f.src, uid, status);
    }

    method OnCreateStreamResponse(f: Frame) returns (fok: bool)
      requires f.CreateResp?
      modifies this
      ensures View() == OnCreateResp(old(View()), f)
      ensures !fok ==> !up
    {
      fok := true;
      var i := FindStreamBySid(f.Did());
      if i == |streams| {
        fok, up := false, false;
      } else if streams[i].state == Opening {
        if f.status == Ok {
          mate := mate[streams[i].uid := f.src];
          streams := streams[i := streams[i].(state := Established, peer := f.src, rwnd := f.rwnd)];
        } else {
          streams := streams[i := streams[i].(state := Refused)];
          if f.status == ProtocolError { fok, up := false, false; }
        }
      }
    }

    method OnCloseStreamNotify(f: Frame)
      requires f.Close?
      modifies this
      ensures View() == OnClose(old(View()), f)
    {
      var i := FindStreamBySid(f.Did());
      if i < |streams| { streams := streams[i := streams[i].(state := ClosedByPeer)]; }
    }

    method OnDataMessage(f: Frame) returns (fok: bool)
      requires f.Data?
      modifies this
      ensures View() == OnData(old(View()), f)
      ensures !fok ==> !up
    {
      fok := true;
      var i := FindStreamBySid(f.Did());
      if i == |streams| {
        fok, up := false, false;
      } else if |streams[i].rxq| == RING {
        streams := streams[i := streams[i].(state := BadProtocol)];
        fok, up := false, false;
      } else {
        streams := streams[i := streams[i].(rxq := streams[i].rxq + [f.payload])];
      }
    }

    method OnDataAck(f: Frame)
      requires f.Ack?
      modifies this
      ensures View() == OnAck(old(View()), f)
    {
      var i := FindStreamBySid(f.Did());
      if i < |streams| { streams := streams[i := streams[i].(rwnd := (streams[i].rwnd + 1) % U16)]; }
    }

    /** One pass of acquire_write_lock for a data sender: the lock is taken exactly when the
        channel and the stream are established, the lock is free and there is credit. */
    method TryAcquire(i: nat) returns (r: Attempt)
      requires i < |streams|
      modifies this
      ensures r == NotConnected <==> !(old(up) && old(streams)[i].state == Established)
      ensures r == Acquired <==> old(up) && old(streams)[i].state == Established && old(writer.Idle?) && old(streams)[i].rwnd > 0
      ensures View() == if r == Acquired then old(View()).(writer := Ready(old(streams)[i].uid)) else old(View())
    {
      if !up || streams[i].state != Established { return NotConnected; }
      if writer.Idle? && streams[i].rwnd > 0 {
        writer := Ready(streams[i].uid);
        return Acquired;
      }
      return MustWait;
    }

    /** The rest of send_data: the frame goes out first, the credit is taken afterwards, and the
        lock is released in any case. */
    method FinishSend(i: nat, p: Payload, sent: bool)
      requires i < |streams| && writer == Ready(streams[i].uid)
      modifies this
      ensures View() == if sent then Debit(SendData(old(View()), i, p), i) else old(View()).(writer := Idle)
    {
      if sent {
        var u := streams[i].uid;
        wrote := wrote[u := Log(wrote, u) + [p]];
        streams := streams[i := streams[i].(rwnd := (streams[i].rwnd + U16 - 1) % U16)];
      }
      writer := Idle;
    }

    /** corpc_stream_read_internal once it no longer waits: pops the head, if any, and tells
        whether an acknowledgement is to be attempted. */
    method PopMessage(i: nat) returns (p: seq<Payload>, connected: bool)
      requires i < |streams|
      modifies this
      ensures connected == (old(up) && old(streams)[i].state == Established)
      ensures p == old(streams)[i].rxq[..if old(streams)[i].rxq == [] then 0 else 1]
      ensures View() == if p == [] then old(View()) else Pop(old(View()), i)
    {
      var st := streams[i];
      connected := up && st.state == Established;
      p := [];
      if st.rxq != [] {
        p := [st.rxq[0]];
        got := got[st.uid := Log(got, st.uid) + p];
        streams := streams[i := st.(rxq := st.rxq[1..],
                                    unacked := if connected then st.unacked + 1 else st.unacked,
                                    lost := if connected then st.lost else st.lost + 1)];
      }
    }

    /** ccarray_erase_item on the stream table. */
    method EraseStream(i: nat)
      requires i < |streams|
      modifies this
      ensures View() == old(View()).(streams := Erase(old(streams), i))
    {
      streams := streams[..i] + streams[i + 1..];
    }
  }
}
