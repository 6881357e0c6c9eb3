/** Two corpc endpoints joined by two reliable FIFO wires, as an asynchronous step system.
    Each action is one uninterrupted piece of src/corpc/corpc-channel.c: what runs under
    channel_state_lock, or one frame sent under the write lock.  `out` carries frames from
    `near` to `far`, `inn` the other way; an action always happens at `near`, and the far end
    acts by flipping the system. */
module CorpcSystem {
  import opened CorpcChannel
  import CorpcFrames

  datatype Sys = Sys(near: Endpoint, far: Endpoint, out: seq<Frame>, inn: seq<Frame>)

  const START: Sys := Sys(EMPTY, EMPTY, [], [])

  function Flip(s: Sys): Sys { Sys(s.far, s.near, s.inn, s.out) }

  datatype Action =
    | Skip                          // another channel of the process draws from the shared counter
    | Open                          // create_new_stream
    | SendReq(i: nat)               // send_create_stream_request succeeds
    | OpenDone(i: nat)              // corpc_open_stream returns the established stream
    | OpenFail(i: nat)              // corpc_open_stream erases the stream
    | Acquire(i: nat)               // acquire_write_lock for data
    | Send(i: nat, p: Payload)      // corpc_proto_send_data succeeds
    | SendFail                      // ... or fails, and the lock is released
    | Debited(i: nat)               // --rwnd and release_write_lock
    | Read(i: nat)                  // corpc_stream_read_internal pops a message
    | Acked(i: nat, ok: bool)       // send_data_ack
    | Notify(i: nat, ok: bool)      // corpc_close_stream: close notification
    | Forget(i: nat)                // corpc_close_stream: ccarray_erase_item
    | Drop                          // the channel leaves the established state
    | Deliver(o: Outcome)           // the channel thread receives and handles one frame
    | Respond(i: nat, ok: bool)     // on_create_stream_request sends its response
    | Finish(i: nat)                // on_create_stream_request finishes

  /** x still names a stream of `near`: it is registered, or a frame addressed to it is in
      flight, or the far end holds (or is about to learn) its id. */
  ghost predicate Alive(s: Sys, x: nat) {
    Named(s.near.streams, s.out, s.inn, s.far.streams, s.far.handler, x)
  }

  ghost predicate Named(mine: seq<Stream>, out: seq<Frame>, inn: seq<Frame>, theirs: seq<Stream>, h: Handler, x: nat) {
    x != 0 &&
    ( || (exists i :: 0 <= i < |mine| && mine[i].uid == x)
      || (exists k :: 0 <= k < |inn| && !inn[k].CreateReq? && inn[k].dst == x)
      || (exists k :: 0 <= k < |out| && (out[k].CreateReq? || out[k].CreateResp?) && out[k].src == x)
      || (exists j :: 0 <= j < |theirs| && theirs[j].peer == x)
      || (h.Responding? && h.peer == x))
  }

  /** The next id to be drawn at `near` differs in its 16 bits from every id still alive. */
  ghost predicate RoomForId(s: Sys) {
    forall x: nat :: Alive(s, x) ==> Id16(x) != Id16(s.near.drawn + 1)
  }

  /** The action draws an id for a stream. */
  predicate Draws(s: Sys, a: Action) {
    a.Open? || (a.Deliver? && s.inn != [] && s.inn[0].CreateReq? && !a.o.Refuse?)
  }

  predicate Owns(e: Endpoint, i: nat, pc: Pc) {
    i < |e.streams| && e.streams[i].pc == pc
  }

  predicate HandlerOn(h: Handler, u: nat) { !h.Reading? && h.uid == u }

  /** When an action may happen in runs in which ids never collide. */
  ghost predicate Can(s: Sys, a: Action) { Could(s, a) && (Draws(s, a) ==> RoomForId(s)) }

  /** When the code lets an action happen. */
  predicate Could(s: Sys, a: Action) {
    var e := s.near;
    match a
    case Skip => true
    case Open => e.up && |e.streams| < MAX_STREAMS
    case SendReq(i) => Owns(e, i, Fresh) && e.up && e.writer.Idle?
    case OpenDone(i) => Owns(e, i, AwaitResp) && e.streams[i].state == Established
    case OpenFail(i) =>
      || Owns(e, i, Fresh)
      || (Owns(e, i, AwaitResp) && e.streams[i].state != Established && (!e.up || e.streams[i].state != Opening))
    case Acquire(i) =>
      Owns(e, i, Live) && e.up && e.streams[i].state == Established && e.writer.Idle? && e.streams[i].rwnd > 0
    case Send(i, p) =>
      // a longer payload would not arrive as it was sent
      Owns(e, i, Live) && e.writer == Ready(e.streams[i].uid) && |p| <= CorpcFrames.MAX_PAYLOAD
    case SendFail => e.writer.Ready?
    case Debited(i) => Owns(e, i, Live) && e.writer == Sent(e.streams[i].uid)
    case Read(i) => Owns(e, i, Live) && e.streams[i].rxq != []
    case Acked(i, ok) => Owns(e, i, Live) && e.streams[i].unacked > 0 && (ok ==> e.up && e.writer.Idle?)
    case Notify(i, ok) =>
      && Owns(e, i, Live) && (ok ==> e.up && e.writer.Idle?)
      // the user does not close a stream that one of its own calls is still using
      && e.streams[i].unacked == 0 && (!e.writer.Idle? ==> e.writer.uid != e.streams[i].uid)
      && !HandlerOn(e.handler, e.streams[i].uid)
    case Forget(i) => Owns(e, i, Closing)
    case Drop => true
    case Deliver(o) =>
      && e.up && e.handler.Reading? && s.inn != [] && o != Refuse(Ok)
      && (s.inn[0].CreateReq? && !o.Refuse? ==> |e.streams| < MAX_STREAMS)
    case Respond(i, ok) =>
      && e.handler.Responding? && (ok ==> e.up && e.writer.Idle?)
      && (e.handler.uid != 0 ==> i < |e.streams| && e.streams[i].uid == e.handler.uid)
    case Finish(i) =>
      && e.handler.Finishing?
      && (e.handler.uid != 0 ==> i < |e.streams| && e.streams[i].uid == e.handler.uid)
  }

  /** The response of on_create_stream_request: sid is 0 unless the stream was created. */
  function Response(e: Endpoint, i: nat): Frame
    requires e.handler.Responding? && (e.handler.uid != 0 ==> i < |e.streams|)
  {
    CreateResp(if e.handler.status == Ok then e.handler.uid else 0, e.handler.peer,
               if e.handler.uid == 0 then 0 else FreeSpace(e.streams[i]), e.handler.status)
  }

  function Do(s: Sys, a: Action): Sys
    requires Could(s, a)
  {
    var e := s.near;
    match a
    case Skip => s.(near := e.(drawn := e.drawn + 1))
    case Open => s.(near := Register(e, 0, 0, Fresh))
    case SendReq(i) =>
      s.(near := Put(e, i, e.streams[i].(pc := AwaitResp)),
         out := s.out + [CreateReq(e.streams[i].uid, FreeSpace(e.streams[i]))])
    case OpenDone(i) => s.(near := Put(e, i, e.streams[i].(pc := Live)))
    case OpenFail(i) => s.(near := e.(streams := Erase(e.streams, i)))
    case Acquire(i) => s.(near := e.(writer := Ready(e.streams[i].uid)))
    case Send(i, p) => s.(near := SendData(e, i, p), out := s.out + [DataFrame(e, i, p)])
    case SendFail => s.(near := e.(writer := Idle))
    case Debited(i) => s.(near := Debit(e, i))
    case Read(i) => s.(near := Pop(e, i))
    case Acked(i, ok) =>
      s.(near := Acknowledge(e, i, ok),
         out := if ok then s.out + [Ack(e.streams[i].uid, e.streams[i].peer)] else s.out)
    case Notify(i, ok) =>
      s.(near := Put(e, i, e.streams[i].(pc := Closing)),
         out := if ok then s.out + [Close(e.streams[i].uid, e.streams[i].peer)] else s.out)
    case Forget(i) => s.(near := e.(streams := Erase(e.streams, i)))
    case Drop => s.(near := e.(up := false))
    case Deliver(o) => s.(near := Receive(e, s.inn[0], o), inn := s.inn[1..])
    case Respond(i, ok) =>
      s.(near := e.(handler := Finishing(e.handler.uid, e.handler.status)),
         out := if ok then s.out + [Response(e, i)] else s.out)
    case Finish(i) =>
      if e.handler.uid == 0 then s.(near := e.(handler := Reading))
      else if e.handler.status == Ok then
        s.(near := Put(e, i, e.streams[i].(state := Established)).(handler := Reading))
      else s.(near := e.(streams := Erase(e.streams, i), handler := Reading))
  }

  /** One step of the system: an action at one of the two ends. */
  datatype Step = Step(atFar: bool, act: Action)

  ghost predicate Enabled(s: Sys, t: Step) { Can(Side(s, t.atFar), t.act) }

  ghost function Next(s: Sys, t: Step): Sys
    requires Enabled(s, t)
  {
    Taken(s, t)
  }

  /** The system as the end that plays `near` sees it. */
  function Side(s: Sys, side: bool): Sys { if side then Flip(s) else s }

  /** The code lets the step happen, whatever ids are drawn. */
  predicate Allowed(s: Sys, t: Step) { Could(Side(s, t.atFar), t.act) }

  function Taken(s: Sys, t: Step): Sys
    requires Allowed(s, t)
  {
    Side(Do(Side(s, t.atFar), t.act), t.atFar)
  }

  /** The steps of a run, taken in order from s, are all enabled. */
  ghost predicate IsRun(s: Sys, run: seq<Step>)
    decreases |run|
  {
    run == [] || (Enabled(s, run[0]) && IsRun(Next(s, run[0]), run[1..]))
  }

  ghost function After(s: Sys, run: seq<Step>): Sys
    requires IsRun(s, run)
    decreases |run|
  {
    if run == [] then s else After(Next(s, run[0]), run[1..])
  }

  /** The code lets the steps happen, taken in order from s, whatever ids are drawn. */
  ghost predicate IsCodeRun(s: Sys, run: seq<Step>)
    decreases |run|
  {
    run == [] || (Allowed(s, run[0]) && IsCodeRun(Taken(s, run[0]), run[1..]))
  }

  ghost function Ends(s: Sys, run: seq<Step>): Sys
    requires IsCodeRun(s, run)
    decreases |run|
  {
    if run == [] then s else Ends(Taken(s, run[0]), run[1..])
  }
}
