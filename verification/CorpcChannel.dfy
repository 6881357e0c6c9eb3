/** One end of a corpc channel: the stream table, the write lock and the message
    handlers of src/corpc/corpc-channel.c, as functions from endpoint to endpoint.

    Stream ids.  `gensid` increments a 16-bit counter shared by all channels of a process.  Here the counter is an unbounded
    draw number and `Id16` is what the 16-bit variable holds, so every id field the code
    stores or sends is `Id16` of a draw number.  Draw number 0 stands for "no stream": the
    first id drawn is 1, and an unset `did` is 0.  The endpoint only ever compares `Id16`
    values; the draw numbers themselves, and the maps `mate`, `wrote` and `got`, are history
    that the proofs refer to and no branch tests. */
module CorpcChannel {
  import opened Basics

  type Payload = Bytes

  /** CORPC_STREAM_DEFAULT_QUEUE_SIZE */
  const RING := 8
  /** capacity given to ccarray_init for channel->streams */
  const MAX_STREAMS := 256
  const U16 := 65536

  function Id16(n: nat): nat { n % U16 }

  /** Status of a create-stream response; `Ok` is create_stream_responce_ok. */
  datatype Status = Ok | NoResources | NoService | NoMethod | InternalError | ProtocolError

  /** A whole frame on the wire.  The 16-bit header fields are `Sid` and `Did`. */
  datatype Frame =
    | CreateReq(src: nat, rwnd: nat)
    | CreateResp(src: nat, dst: nat, rwnd: nat, status: Status)
    | Close(src: nat, dst: nat)
    | Data(src: nat, dst: nat, payload: Payload)
    | Ack(src: nat, dst: nat)
  {
    function Sid(): nat { Id16(src) }
    function Did(): nat { if CreateReq? then 0 else Id16(dst) }
  }

  /** Stream states; `Refused` stands for every closed state a failed creation can lead to. */
  datatype State = Opening | Established | ClosedByPeer | Refused | BadProtocol

  /** Where the local user of a stream is: the opener has registered the stream, has sent the
      request, has got the stream back (also: a service thread was started on it), or is
      inside corpc_close_stream after the close notification.  `Unserved`: an accepted stream whose
      service thread could not be started. */
  datatype Pc = Fresh | AwaitResp | Live | Closing | Unserved

  /** struct corpc_stream.  `peer` is the draw number behind `did`.  `unacked` counts readers
      that have popped a message and not yet attempted the acknowledgement; `lost` counts
      messages that were popped and will never be acknowledged. */
  datatype Stream = Stream(uid: nat, peer: nat, state: State, pc: Pc, rwnd: nat,
                           rxq: seq<Payload>, unacked: nat, lost: nat)

  /** Holder of channel->write_lock among data senders: lock taken, or frame already sent
      and rwnd not yet decremented. */
  datatype Writer = Idle | Ready(uid: nat) | Sent(uid: nat)

  /** Progress of on_create_stream_request, during which no further message is read. */
  datatype Handler =
    | Reading
    | Responding(peer: nat, uid: nat, status: Status)
    | Finishing(uid: nat, status: Status)

  datatype Endpoint = Endpoint(
    up: bool, streams: seq<Stream>, drawn: nat, writer: Writer, handler: Handler,
    mate: map<nat, nat>, wrote: map<nat, seq<Payload>>, got: map<nat, seq<Payload>>)

  const EMPTY: Endpoint := Endpoint(true, [], 0, Idle, Reading, map[], map[], map[])

  function Log(m: map<nat, seq<Payload>>, uid: nat): seq<Payload> {
    if uid in m then m[uid] else []
  }

  /** srwnd: the free space of the receive ring (0 for no stream) */
  function FreeSpace(st: Stream): nat {
    if |st.rxq| <= RING then RING - |st.rxq| else 0
  }

  /** find_stream_by_sid: index of the first stream whose 16-bit id matches, or the length */
  function Find(ss: seq<Stream>, id: nat): (i: nat)
    ensures i <= |ss|
    ensures i < |ss| ==> Id16(ss[i].uid) == id
    ensures forall k :: 0 <= k < i ==> Id16(ss[k].uid) != id
  {
    if ss == [] then 0
    else if Id16(ss[0].uid) == id then 0
    else 1 + Find(ss[1..], id)
  }

  function Erase(ss: seq<Stream>, i: nat): (r: seq<Stream>)
    requires i < |ss|
    ensures |r| == |ss| - 1
    ensures forall k :: 0 <= k < i ==> r[k] == ss[k]
    ensures forall k :: i <= k < |r| ==> r[k] == ss[k + 1]
  {
    ss[..i] + ss[i + 1..]
  }

  function Put(e: Endpoint, i: nat, st: Stream): Endpoint
    requires i < |e.streams|
  {
    e.(streams := e.streams[i := st])
  }

  // ----- registration ---------------------------------------------------------------------

  /** create_new_stream and accept_stream share this: draw an id, register the stream. */
  function Register(e: Endpoint, peer: nat, rwnd: nat, pc: Pc): Endpoint {
    var uid := e.drawn + 1;
    e.(drawn := uid,
       streams := e.streams + [Stream(uid, peer, Opening, pc, rwnd, [], 0, 0)],
       mate := if peer == 0 then e.mate else e.mate[uid := peer])
  }

  // ----- message handlers (lines 613-832) --------------------------------------------------

  /** What on_create_stream_request can decide: refuse, register the stream but fail to start
      the service thread, or register it and start the thread. */
  datatype Outcome = Refuse(why: Status) | NoThread | Serve

  function OnCreateReq(e: Endpoint, f: Frame, o: Outcome): Endpoint
    requires f.CreateReq?
  {
    match o
    case Refuse(why) => e.(handler := Responding(f.src, 0, why))
    case NoThread =>
      Register(e, f.src, f.rwnd, Unserved).(handler := Responding(f.src, e.drawn + 1, InternalError))
    case Serve =>
      Register(e, f.src, f.rwnd, Live).(handler := Responding(f.src, e.drawn + 1, Ok))
  }

  function OnCreateResp(e: Endpoint, f: Frame): Endpoint
    requires f.CreateResp?
  {
    var i := Find(e.streams, f.Did());
    if i == |e.streams| then e.(up := false)
    else
      var st := e.streams[i];
      if st.state != Opening then e
      else if f.status == Ok then
        Put(e, i, st.(state := Established, peer := f.src, rwnd := f.rwnd)).(mate := e.mate[st.uid := f.src])
      else
        Put(e, i, st.(state := Refused)).(up := e.up && f.status != ProtocolError)
  }

  function OnClose(e: Endpoint, f: Frame): Endpoint
    requires f.Close?
  {
    var i := Find(e.streams, f.Did());
    if i == |e.streams| then e else Put(e, i, e.streams[i].(state := ClosedByPeer))
  }

  /** Data for an unknown stream ends the channel, and so does data for a full ring. */
  function OnData(e: Endpoint, f: Frame): Endpoint
    requires f.Data?
  {
    var i := Find(e.streams, f.Did());
    if i == |e.streams| then e.(up := false)
    else
      var st := e.streams[i];
      if |st.rxq| == RING then Put(e, i, st.(state := BadProtocol)).(up := false)
      else Put(e, i, st.(rxq := st.rxq + [f.payload]))
  }

  function OnAck(e: Endpoint, f: Frame): Endpoint
    requires f.Ack?
  {
    var i := Find(e.streams, f.Did());
    if i == |e.streams| then e else OnAckAt(e, i)
  }

  /** ++st->rwnd on a 16-bit field */
  function OnAckAt(e: Endpoint, i: nat): Endpoint
    requires i < |e.streams|
  {
    Put(e, i, e.streams[i].(rwnd := (e.streams[i].rwnd + 1) % U16))
  }

  function Receive(e: Endpoint, f: Frame, o: Outcome): Endpoint {
    match f
    case CreateReq(_, _) => OnCreateReq(e, f, o)
    case CreateResp(_, _, _, _) => OnCreateResp(e, f)
    case Close(_, _) => OnClose(e, f)
    case Data(_, _, _) => OnData(e, f)
    case Ack(_, _) => OnAck(e, f)
  }

  // ----- user operations -------------------------------------------------------------------

  /** send_data after a successful acquire_write_lock and a successful send */
  function DataFrame(e: Endpoint, i: nat, p: Payload): Frame
    requires i < |e.streams|
  {
    Data(e.streams[i].uid, e.streams[i].peer, p)
  }

  function SendData(e: Endpoint, i: nat, p: Payload): Endpoint
    requires i < |e.streams|
  {
    var u := e.streams[i].uid;
    e.(writer := Sent(u), wrote := e.wrote[u := Log(e.wrote, u) + [p]])
  }

  /** --st->rwnd on a 16-bit field, then release_write_lock */
  function Debit(e: Endpoint, i: nat): Endpoint
    requires i < |e.streams|
  {
    Put(e, i, e.streams[i].(rwnd := (e.streams[i].rwnd + U16 - 1) % U16)).(writer := Idle)
  }

  /** corpc_stream_read_internal up to the unlock: pop, and decide whether to acknowledge */
  function Pop(e: Endpoint, i: nat): Endpoint
    requires i < |e.streams| && e.streams[i].rxq != []
  {
    var st := e.streams[i];
    var connected := e.up && st.state == Established;
    Put(e, i, st.(rxq := st.rxq[1..],
                  unacked := if connected then st.unacked + 1 else st.unacked,
                  lost := if connected then st.lost else st.lost + 1))
      .(got := e.got[st.uid := Log(e.got, st.uid) + [st.rxq[0]]])
  }

  /** the acknowledgement attempt of a reader: `sent` tells whether the frame went out */
  function Acknowledge(e: Endpoint, i: nat, sent: bool): Endpoint
    requires i < |e.streams| && e.streams[i].unacked > 0
  {
    var st := e.streams[i];
    Put(e, i, st.(unacked := st.unacked - 1, lost := if sent then st.lost else st.lost + 1))
  }
}
