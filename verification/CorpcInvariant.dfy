/** What every step of the two-endpoint system keeps.  Each clause takes only the parts of the
    state it speaks about, so that a step that leaves those parts alone keeps it outright. */
module CorpcInvariant {
  import opened CorpcChannel
  import opened CorpcSystem

  type Mates = map<nat, nat>
  type Logs = map<nat, seq<Payload>>

  // ----- what a wire holds for one stream --------------------------------------------------

  /** Payloads of the data frames in flight that were sent by stream w, in order. */
  function InFlight(wire: seq<Frame>, w: nat): seq<Payload> {
    if wire == [] then []
    else if wire[0].Data? && wire[0].src == w then [wire[0].payload] + InFlight(wire[1..], w)
    else InFlight(wire[1..], w)
  }

  /** Number of acknowledgements in flight addressed to stream w. */
  function Acks(wire: seq<Frame>, w: nat): nat {
    if wire == [] then 0
    else (if wire[0].Ack? && wire[0].dst == w then 1 else 0) + Acks(wire[1..], w)
  }

  lemma {:induction false} InFlightAppend(wire: seq<Frame>, f: Frame, w: nat)
    ensures InFlight(wire + [f], w) == InFlight(wire, w) + (if f.Data? && f.src == w then [f.payload] else [])
  {
    if wire == [] {
      assert [f][1..] == [];
      assert wire + [f] == [f];
    } else {
      assert (wire + [f])[1..] == wire[1..] + [f];
      InFlightAppend(wire[1..], f, w);
    }
  }

  lemma {:induction false} AcksAppend(wire: seq<Frame>, f: Frame, w: nat)
    ensures Acks(wire + [f], w) == Acks(wire, w) + (if f.Ack? && f.dst == w then 1 else 0)
  {
    if wire == [] {
      assert [f][1..] == [];
      assert wire + [f] == [f];
    } else {
      assert (wire + [f])[1..] == wire[1..] + [f];
      AcksAppend(wire[1..], f, w);
    }
  }

  /** Sent on behalf of w but not yet taken from its rwnd. */
  function Undebited(wr: Writer, w: nat): nat { if wr == Sent(w) then 1 else 0 }

  // ----- one endpoint ----------------------------------------------------------------------

  ghost predicate StreamOk(st: Stream, drawn: nat, mate: Mates) {
    && 1 <= st.uid <= drawn
    && (st.peer != 0 <==> st.uid in mate)
    && (st.uid in mate ==> mate[st.uid] == st.peer)
    && (st.state == Established || st.pc == Live || st.pc == Closing ==> st.peer != 0)
    && (st.pc == Fresh ==> st.peer == 0)
    && (st.unacked > 0 ==> st.pc == Live)
  }

  ghost predicate StreamsOk(ss: seq<Stream>, drawn: nat, mate: Mates) {
    && (forall i :: 0 <= i < |ss| ==> StreamOk(ss[i], drawn, mate))
    && (forall i, j :: 0 <= i < j < |ss| ==> ss[i].uid != ss[j].uid)
  }

  ghost predicate MatesOk(mate: Mates, drawn: nat) {
    && (forall x :: x in mate ==> 1 <= x <= drawn)
    && (forall x, y :: x in mate && y in mate && mate[x] == mate[y] ==> x == y)
  }

  ghost predicate GotOk(got: Logs, drawn: nat) { forall x :: x in got ==> x <= drawn }

  predicate WrittenBy(wr: Writer, st: Stream) {
    !wr.Idle? && st.uid == wr.uid && st.pc == Live && st.rwnd >= 1
  }

  ghost predicate WriterOk(wr: Writer, ss: seq<Stream>) {
    !wr.Idle? ==> exists i :: 0 <= i < |ss| && WrittenBy(wr, ss[i])
  }

  predicate HandledBy(h: Handler, st: Stream) {
    && !h.Reading? && st.uid == h.uid && st.state == Opening && st.peer != 0
    && (h.Responding? ==> st.peer == h.peer)
    && st.pc == (if h.status == Ok then Live else Unserved)
  }

  ghost predicate HandlerOk(h: Handler, ss: seq<Stream>) {
    && (h.Responding? ==> h.peer != 0)
    && (!h.Reading? && h.status == Ok ==> h.uid != 0)
    && (!h.Reading? && h.uid != 0 ==> exists i :: 0 <= i < |ss| && HandledBy(h, ss[i]))
  }

  ghost predicate Local(e: Endpoint) {
    && StreamsOk(e.streams, e.drawn, e.mate) && MatesOk(e.mate, e.drawn) && GotOk(e.got, e.drawn)
    && WriterOk(e.writer, e.streams) && HandlerOk(e.handler, e.streams)
  }

  // ----- ids and pairing -------------------------------------------------------------------

  /** Ids of one end that are still alive are pairwise different on the wire. */
  ghost predicate IdsDistinct(drawn: nat, mine: seq<Stream>, out: seq<Frame>, inn: seq<Frame>, theirs: seq<Stream>, h: Handler) {
    && (forall x: nat :: Named(mine, out, inn, theirs, h, x) ==> x <= drawn)
    && (forall x: nat, y: nat ::
          Named(mine, out, inn, theirs, h, x) && Named(mine, out, inn, theirs, h, y) && Id16(x) == Id16(y) ==> x == y)
  }

  /** The two ends never disagree about who is paired with whom. */
  ghost predicate Cross(ma: Mates, mb: Mates, drawnB: nat) {
    && (forall x :: x in ma ==> 1 <= ma[x] <= drawnB)
    && (forall x, y :: x in ma && y in mb && ma[x] == y ==> mb[y] == x)
  }

  ghost predicate HasWriter(ma: Mates, r: nat) { exists w :: w in ma && ma[w] == r }

  /** A frame in flight from an endpoint with mates ma to one with mates mb. */
  ghost predicate FrameOk(ma: Mates, drawnA: nat, mb: Mates, drawnB: nat, f: Frame) {
    match f
    case CreateReq(u, rwnd) => 1 <= u <= drawnA && u !in ma && !HasWriter(mb, u) && rwnd == RING
    case CreateResp(u, d, rwnd, status) =>
      && 1 <= d <= drawnB
      && (if status == Ok then u in ma && ma[u] == d && d !in mb && rwnd == RING else u == 0)
    case Close(u, d) => u in ma && ma[u] == d
    case Data(u, d, _) => u in ma && ma[u] == d
    case Ack(u, d) => u in ma && ma[u] == d && d in mb
  }

  ghost predicate FramesOk(ma: Mates, drawnA: nat, mb: Mates, drawnB: nat, wire: seq<Frame>) {
    forall k :: 0 <= k < |wire| ==> FrameOk(ma, drawnA, mb, drawnB, wire[k])
  }

  predicate IsAccept(f: Frame) { f.CreateResp? && f.status == Ok }

  /** No two requests from one stream, no two acceptances for one stream. */
  ghost predicate Once(wire: seq<Frame>) {
    && (forall k, l :: 0 <= k < l < |wire| && wire[k].CreateReq? && wire[l].CreateReq? ==> wire[k].src != wire[l].src)
    && (forall k, l :: 0 <= k < l < |wire| && IsAccept(wire[k]) && IsAccept(wire[l]) ==> wire[k].dst != wire[l].dst)
  }

  ghost predicate NoReq(wire: seq<Frame>, u: nat) {
    forall k :: 0 <= k < |wire| && wire[k].CreateReq? ==> wire[k].src != u
  }

  ghost predicate NoAccept(wire: seq<Frame>, d: nat) {
    forall k :: 0 <= k < |wire| && IsAccept(wire[k]) ==> wire[k].dst != d
  }

  /** A stream whose request is still to be sent is unknown to the other end. */
  ghost predicate FreshOk(ss: seq<Stream>, mb: Mates, wire: seq<Frame>) {
    forall i :: 0 <= i < |ss| && ss[i].pc == Fresh ==> !HasWriter(mb, ss[i].uid) && NoReq(wire, ss[i].uid)
  }

  /** An acceptance still to be sent is the first for its requester. */
  ghost predicate AcceptOk(h: Handler, mb: Mates, drawnB: nat, wire: seq<Frame>) {
    h.Responding? ==>
      h.peer <= drawnB && (h.status == Ok ==> h.peer !in mb && NoAccept(wire, h.peer))
  }

  // ----- one direction: writers on side a, readers on side b -------------------------------

  predicate Blank(st: Stream) { st.rxq == [] && st.unacked == 0 && st.lost == 0 }

  /** Nothing was read, queued or lost on a stream that no stream of the other end writes to. */
  ghost predicate Untouched(ma: Mates, gotB: Logs, bs: seq<Stream>) {
    && (forall r :: r in gotB && gotB[r] != [] ==> HasWriter(ma, r))
    && (forall j :: 0 <= j < |bs| && !Blank(bs[j]) ==> HasWriter(ma, bs[j].uid))
  }

  /** A stream that does not know its peer has written nothing and is owed no acknowledgement. */
  ghost predicate Unpaired(ma: Mates, wroteA: Logs) {
    forall w :: w in wroteA && wroteA[w] != [] ==> w in ma
  }

  /** What was read is a prefix of what was written; while the reader is registered, the rest
      is its queue followed by what is in flight. */
  ghost predicate Ordered(ma: Mates, wroteA: Logs, gotB: Logs, bs: seq<Stream>, fwd: seq<Frame>) {
    && (forall w {:trigger ma[w]} :: w in ma ==> Log(gotB, ma[w]) <= Log(wroteA, w))
    && (forall w, j {:trigger ma[w], bs[j]} :: w in ma && 0 <= j < |bs| && bs[j].uid == ma[w] ==>
          Log(wroteA, w) == Log(gotB, ma[w]) + bs[j].rxq + InFlight(fwd, w))
  }

  /** Credit of the writing stream sw: it covers what was sent and not debited, and credit plus
      acknowledgements on their way never exceed the ring. */
  ghost predicate CreditBound(wr: Writer, sw: Stream, bwd: seq<Frame>) {
    && Undebited(wr, sw.uid) <= sw.rwnd
    && sw.rwnd - Undebited(wr, sw.uid) + Acks(bwd, sw.uid) <= RING
  }

  function CreditSum(wr: Writer, sw: Stream, sr: Stream, fwd: seq<Frame>, bwd: seq<Frame>): int {
    sw.rwnd - Undebited(wr, sw.uid) + |InFlight(fwd, sw.uid)| + |sr.rxq| + sr.unacked + Acks(bwd, sw.uid) + sr.lost
  }

  ghost predicate Bounded(wr: Writer, ws: seq<Stream>, bwd: seq<Frame>) {
    forall i :: 0 <= i < |ws| && ws[i].peer != 0 ==> CreditBound(wr, ws[i], bwd)
  }

  ghost predicate Conserved(wr: Writer, ws: seq<Stream>, bs: seq<Stream>, fwd: seq<Frame>, bwd: seq<Frame>) {
    forall i, j :: 0 <= i < |ws| && 0 <= j < |bs| && ws[i].peer != 0 && bs[j].uid == ws[i].peer ==>
      CreditSum(wr, ws[i], bs[j], fwd, bwd) == RING
  }

  /** What is queued for a reader and in flight to it fits its ring. */
  ghost predicate Fits(ma: Mates, bs: seq<Stream>, fwd: seq<Frame>) {
    forall w, j {:trigger ma[w], bs[j]} :: w in ma && 0 <= j < |bs| && bs[j].uid == ma[w] ==>
      |bs[j].rxq| + |InFlight(fwd, w)| <= RING
  }

  /** Everything except the ids, for one end and the direction it writes in. */
  ghost predicate Half(s: Sys) {
    var a, b := s.near, s.far;
    && Local(a) && Cross(a.mate, b.mate, b.drawn)
    && FramesOk(a.mate, a.drawn, b.mate, b.drawn, s.out) && Once(s.out)
    && FreshOk(a.streams, b.mate, s.out) && AcceptOk(a.handler, b.mate, b.drawn, s.out)
    && Untouched(a.mate, b.got, b.streams) && Unpaired(a.mate, a.wrote)
    && Ordered(a.mate, a.wrote, b.got, b.streams, s.out)
    && Fits(a.mate, b.streams, s.out)
    && Bounded(a.writer, a.streams, s.inn)
    && Conserved(a.writer, a.streams, b.streams, s.out, s.inn)
  }

  ghost predicate Core(s: Sys) { Half(s) && Half(Flip(s)) }

  ghost predicate MyIds(s: Sys) {
    IdsDistinct(s.near.drawn, s.near.streams, s.out, s.inn, s.far.streams, s.far.handler)
  }

  ghost predicate Ids(s: Sys) { MyIds(s) && MyIds(Flip(s)) }

  ghost predicate Inv(s: Sys) { Core(s) && Ids(s) }

  lemma InitInv()
    ensures Inv(START)
  {
  }
}
