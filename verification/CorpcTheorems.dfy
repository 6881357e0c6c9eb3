/** What holds in every reachable state of two conforming corpc peers.
    A state is reached by any interleaving of openers, writers, readers, closers and the two
    channel threads; `side` picks the end that plays `near`. */
module CorpcTheorems {
  import opened CorpcChannel
  import opened CorpcSystem
  import opened CorpcInvariant
  import opened CorpcArrival
  import opened CorpcIds
  import opened CorpcSteps

  lemma {:induction false} RunKeeps(s: Sys, run: seq<Step>)
    requires Inv(s) && IsRun(s, run)
    ensures Inv(After(s, run))
    decreases |run|
  {
    if run != [] {
      ActKeeps(Side(s, run[0].atFar), run[0].act);
      assert Inv(Next(s, run[0])) by { assert Flip(Flip(s)) == s; }
      RunKeeps(Next(s, run[0]), run[1..]);
    }
  }

  lemma Reached(run: seq<Step>, side: bool)
    requires IsRun(START, run)
    ensures Inv(Side(After(START, run), side))
  {
    InitInv();
    RunKeeps(START, run);
  }

  // ----- credit ----------------------------------------------------------------------------

  /** Credit is conserved: while both streams of a pair are registered, the sender's credit net
      of undebited sends, the data in flight, the reader's queue, the messages popped and not
      acknowledged, the acknowledgements in flight and the acknowledgements never sent always
      add up to the ring capacity. */
  lemma CreditIsConserved(run: seq<Step>, side: bool, i: nat, j: nat)
    requires IsRun(START, run)
    requires var s := Side(After(START, run), side);
      i < |s.near.streams| && j < |s.far.streams| && s.near.streams[i].peer != 0 && s.near.streams[i].peer == s.far.streams[j].uid
    ensures var s := Side(After(START, run), side);
      var w, r := s.near.streams[i], s.far.streams[j];
      && Undebited(s.near.writer, w.uid) <= w.rwnd
      && w.rwnd - Undebited(s.near.writer, w.uid) + |InFlight(s.out, w.uid)| + |r.rxq| + r.unacked + Acks(s.inn, w.uid) + r.lost == RING
  {
    Reached(run, side);
    var s := Side(After(START, run), side);
    assert CreditBound(s.near.writer, s.near.streams[i], s.inn);
    assert CreditSum(s.near.writer, s.near.streams[i], s.far.streams[j], s.out, s.inn) == RING;
  }

  /** The ring-full branch of on_data_message is unreachable: whenever a data frame is about to
      be handled and its stream is found, the ring of that stream has room. */
  lemma RingNeverFull(run: seq<Step>, side: bool)
    requires IsRun(START, run)
    requires var s := Side(After(START, run), side); s.inn != [] && s.inn[0].Data?
    ensures var s := Side(After(START, run), side);
      var i := Find(s.near.streams, s.inn[0].Did());
      i < |s.near.streams| ==> |s.near.streams[i].rxq| < RING
  {
    Reached(run, side);
    var s := Side(After(START, run), side);
    Demux(s);
    var i := Find(s.near.streams, s.inn[0].Did());
    if i < |s.near.streams| { RoomForData(s, i); }
  }

  /** The 16-bit credit counter never underflows: it is positive whenever a send is debited. */
  lemma DebitNeverWraps(run: seq<Step>, side: bool, i: nat)
    requires IsRun(START, run)
    requires var e := Side(After(START, run), side).near; i < |e.streams| && e.writer == Sent(e.streams[i].uid)
    ensures var e := Side(After(START, run), side).near;
      Debit(e, i).streams[i].rwnd == e.streams[i].rwnd - 1
  {
    Reached(run, side);
    SentHasCredit(Side(After(START, run), side).near, i);
  }

  lemma SentHasCredit(e: Endpoint, i: nat)
    requires Local(e) && i < |e.streams| && e.writer == Sent(e.streams[i].uid)
    ensures 1 <= e.streams[i].rwnd
    ensures e.streams[i].rwnd < U16 ==> Debit(e, i).streams[i].rwnd == e.streams[i].rwnd - 1
  {
    var k :| 0 <= k < |e.streams| && WrittenBy(e.writer, e.streams[k]);
    assert k == i;
  }

  /** It never overflows either: an acknowledgement that finds its stream adds one, and at most
      the ring capacity plus one is ever held. */
  lemma AckNeverWraps(run: seq<Step>, side: bool)
    requires IsRun(START, run)
    requires var s := Side(After(START, run), side); s.inn != [] && s.inn[0].Ack?
    ensures var s := Side(After(START, run), side);
      var i := Find(s.near.streams, s.inn[0].Did());
      i < |s.near.streams| ==> OnAck(s.near, s.inn[0]).streams[i].rwnd == s.near.streams[i].rwnd + 1 <= RING + 1
  {
    Reached(run, side);
    AckFits(Side(After(START, run), side));
  }

  lemma AckFits(s: Sys)
    requires Inv(s) && s.inn != [] && s.inn[0].Ack?
    ensures var i := Find(s.near.streams, s.inn[0].Did());
      i < |s.near.streams| ==> OnAck(s.near, s.inn[0]).streams[i].rwnd == s.near.streams[i].rwnd + 1 <= RING + 1
  {
    Demux(s);
    var i := Find(s.near.streams, s.inn[0].Did());
    if i < |s.near.streams| {
      AckNoWrap(s, i);
      assert CreditBound(s.near.writer, s.near.streams[i], s.inn);
    }
  }

  // ----- delivery --------------------------------------------------------------------------

  /** Ordered multiplexed delivery: what was ever read on a stream is a prefix of what its pair
      ever wrote; while the reader is registered, the rest is exactly its queue followed by the
      data in flight.  Nothing was ever read on a stream nobody is paired with, and no two
      streams write to the same one. */
  lemma DeliveredInOrder(run: seq<Step>, side: bool)
    requires IsRun(START, run)
    ensures var s := Side(After(START, run), side);
      var a, b := s.near, s.far;
      && (forall w :: w in a.mate ==> Log(b.got, a.mate[w]) <= Log(a.wrote, w))
      && (forall w, j {:trigger a.mate[w], b.streams[j]} :: w in a.mate && 0 <= j < |b.streams| && b.streams[j].uid == a.mate[w] ==>
            Log(a.wrote, w) == Log(b.got, a.mate[w]) + b.streams[j].rxq + InFlight(s.out, w))
      && (forall r :: r in b.got && b.got[r] != [] ==> exists w :: w in a.mate && a.mate[w] == r)
      && (forall w, x :: w in a.mate && x in a.mate && a.mate[w] == a.mate[x] ==> w == x)
      && (forall w, r :: w in a.mate && r in b.mate && a.mate[w] == r ==> b.mate[r] == w)
  {
    Reached(run, side);
    var s := Side(After(START, run), side);
    forall r | r in s.far.got && s.far.got[r] != []
      ensures exists w :: w in s.near.mate && s.near.mate[w] == r
    {
      assert HasWriter(s.near.mate, r);
    }
  }

  /** A frame is handled by the stream it was addressed to or by none, although only the
      16-bit id is compared; and a data frame carries the id of its sender's pair. */
  lemma DemuxIsExact(run: seq<Step>, side: bool)
    requires IsRun(START, run)
    requires var s := Side(After(START, run), side); s.inn != [] && !s.inn[0].CreateReq?
    ensures var s := Side(After(START, run), side);
      var f := s.inn[0];
      var i := Find(s.near.streams, f.Did());
      && (i < |s.near.streams| <==> exists k :: 0 <= k < |s.near.streams| && s.near.streams[k].uid == f.dst)
      && (i < |s.near.streams| ==> s.near.streams[i].uid == f.dst)
      && (f.Data? ==> f.src in s.far.mate && s.far.mate[f.src] == f.dst)
  {
    Reached(run, side);
    var s := Side(After(START, run), side);
    Demux(s);
    assert FrameOk(s.far.mate, s.far.drawn, s.near.mate, s.near.drawn, s.inn[0]);
  }
}
