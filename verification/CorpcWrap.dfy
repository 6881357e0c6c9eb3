/** What happens when ids do collide: runs that the code allows and that end with a message on
    the wrong stream, and with a ring that is full. */
module CorpcWrap {
  import opened CorpcChannel
  import opened CorpcSystem
  import CorpcFrames

  /** A payload that can be received as it was sent */
  type Fitting = p: Payload | |p| <= CorpcFrames.MAX_PAYLOAD

  // ----- runs without the guard on ids ---------------------------------------------------

  /** The code lets the step happen in s, and it ends in u. */
  predicate Hop(s: Sys, t: Step, u: Sys) { Allowed(s, t) && Taken(s, t) == u }

  ghost predicate Path(states: seq<Sys>, run: seq<Step>) {
    |states| == |run| + 1 &&
    forall j, k {:trigger Hop(states[j], run[j], states[k])} :: 0 <= j < |run| && k == j + 1 ==> Hop(states[j], run[j], states[k])
  }

  /** The code lets these steps happen from s on, and they end in u. */
  ghost predicate Leads(s: Sys, run: seq<Step>, u: Sys) {
    exists states :: Path(states, run) && states[0] == s && states[|run|] == u
  }

  lemma {:induction false} LeadsRuns(s: Sys, run: seq<Step>, u: Sys)
    requires Leads(s, run, u)
    ensures IsCodeRun(s, run) && Ends(s, run) == u
    decreases |run|
  {
    if run != [] {
      var x :| Path(x, run) && x[0] == s && x[|run|] == u;
      assert Hop(x[0], run[0], x[1]);
      PathRest(x, run);
      LeadsRuns(x[1], run[1..], u);
    }
  }

  lemma PathRest(x: seq<Sys>, run: seq<Step>)
    requires Path(x, run) && run != []
    ensures Leads(x[1], run[1..], x[|run|])
  {
    var y, q := x[1..], run[1..];
    forall j, k | 0 <= j < |q| && k == j + 1 ensures Hop(y[j], q[j], y[k]) {
      assert Hop(x[j + 1], run[j + 1], x[k + 1]);
    }
    assert Path(y, q);
  }

  lemma Chained(s: Sys, r: seq<Step>, m: Sys, q: seq<Step>, u: Sys)
    requires Leads(s, r, m) && Leads(m, q, u)
    ensures Leads(s, r + q, u)
  {
    var x :| Path(x, r) && x[0] == s && x[|r|] == m;
    var y :| Path(y, q) && y[0] == m && y[|q|] == u;
    var z, run := x + y[1..], r + q;
    forall j, k | 0 <= j < |run| && k == j + 1 ensures Hop(z[j], run[j], z[k]) {
      if j < |r| {
        assert Hop(x[j], r[j], x[k]);
      } else {
        assert Hop(y[j - |r|], q[j - |r|], y[k - |r|]);
      }
    }
    assert Path(z, run);
  }

  lemma One(s: Sys, t: Step, u: Sys)
    requires Hop(s, t, u)
    ensures Leads(s, [t], u)
  {
    assert Path([s, u], [t]);
  }

  lemma Then(s: Sys, r: seq<Step>, m: Sys, t: Step, u: Sys)
    requires Leads(s, r, m) && Hop(m, t, u)
    ensures Leads(s, r + [t], u)
  {
    One(m, t, u);
    Chained(s, r, m, [t], u);
  }

  function Near(a: Action): Step { Step(false, a) }

  function Far(a: Action): Step { Step(true, a) }

  // ----- one stream is opened ------------------------------------------------------------

  /** A stream of the initiator and of the acceptor. */
  function Caller(uid: nat, state: State, pc: Pc, peer: nat, rwnd: nat, rxq: seq<Payload>): Stream {
    Stream(uid, peer, state, pc, rwnd, rxq, 0, 0)
  }

  function End(streams: seq<Stream>, drawn: nat, w: Writer, h: Handler, mate: map<nat, nat>, wrote: map<nat, seq<Payload>>): Endpoint {
    Endpoint(true, streams, drawn, w, h, mate, wrote, map[])
  }

  /** Both ends after a stream was opened, with `drawn` ids drawn at the near end. */
  function Opened(drawn: nat): Sys {
    Sys(End([Caller(1, Established, Live, 1, RING, [])], drawn, Idle, Reading, map[1 := 1], map[]),
        End([Caller(1, Established, Live, 1, RING, [])], 1, Idle, Reading, map[1 := 1], map[]), [], [])
  }

  /** Some steps lead from the state before the first to the state after the last. */
  lemma Two(s: Sys, x: Step, m: Sys, y: Step, u: Sys)
    requires Hop(s, x, m) && Hop(m, y, u)
    ensures Leads(s, [x, y], u)
  {
    One(s, x, m);
    Then(s, [x], m, y, u);
    assert [x] + [y] == [x, y];
  }

  function FirstRequest(): seq<Step> { [Near(Open), Near(SendReq(0))] + [Far(Deliver(Serve)), Far(Respond(0, true))] }

  function FirstAnswer(): seq<Step> { [Far(Finish(0)), Near(Deliver(Serve))] + [Near(OpenDone(0))] }

  /** The request has been answered, and the answer is on the wire. */
  function Answered(): Sys {
    Sys(End([Caller(1, Opening, AwaitResp, 0, 0, [])], 1, Idle, Reading, map[], map[]),
        End([Caller(1, Opening, Live, 1, RING, [])], 1, Idle, Finishing(1, Ok), map[1 := 1], map[]),
        [], [CreateResp(1, 1, RING, Ok)])
  }

  /** The request is on the wire. */
  function Requested(): Sys { Sys(Answered().near, EMPTY, [CreateReq(1, RING)], []) }

  lemma FirstSent()
    ensures Leads(START, [Near(Open), Near(SendReq(0))], Requested())
  {
    var n0 := End([Caller(1, Opening, Fresh, 0, 0, [])], 1, Idle, Reading, map[], map[]);
    Two(START, Near(Open), Sys(n0, EMPTY, [], []), Near(SendReq(0)), Requested());
  }

  lemma FirstAnswered()
    ensures Leads(Requested(), [Far(Deliver(Serve)), Far(Respond(0, true))], Answered())
  {
    FirstServed();
    FirstResponded();
    Two(Requested(), Far(Deliver(Serve)), Served(), Far(Respond(0, true)), Answered());
  }

  function Served(): Sys { Sys(Answered().near, Answered().far.(handler := Responding(1, 1, Ok)), [], []) }

  lemma FirstServed()
    ensures Hop(Requested(), Far(Deliver(Serve)), Served())
  {
  }

  lemma FirstResponded()
    ensures Hop(Served(), Far(Respond(0, true)), Answered())
  {
  }

  lemma FirstRequested()
    ensures Leads(START, FirstRequest(), Answered())
  {
    FirstSent();
    FirstAnswered();
    Chained(START, [Near(Open), Near(SendReq(0))], Requested(), [Far(Deliver(Serve)), Far(Respond(0, true))], Answered());
  }

  lemma FirstOpened()
    ensures Leads(Answered(), FirstAnswer(), Opened(1))
  {
    FirstFinished();
    FirstHeard();
    Two(Answered(), Far(Finish(0)), Finished(), Near(Deliver(Serve)), Heard());
    Then(Answered(), [Far(Finish(0)), Near(Deliver(Serve))], Heard(), Near(OpenDone(0)), Opened(1));
  }

  /** The acceptor has established its stream, and then the initiator. */
  function Finished(): Sys { Sys(Answered().near, Opened(1).far, [], Answered().inn) }

  function Heard(): Sys {
    Sys(End([Caller(1, Established, AwaitResp, 1, RING, [])], 1, Idle, Reading, map[1 := 1], map[]), Opened(1).far, [], [])
  }

  lemma FirstFinished()
    ensures Hop(Answered(), Far(Finish(0)), Finished())
  {
  }

  lemma FirstHeard()
    ensures Hop(Finished(), Near(Deliver(Serve)), Heard())
  {
  }

  // ----- the counter goes round ----------------------------------------------------------

  function Skips(n: nat): seq<Step> { seq(n, _ => Near(Skip)) }

  lemma {:induction false} SkipsLead(drawn: nat, n: nat)
    ensures Leads(Opened(drawn), Skips(n), Opened(drawn + n))
    decreases n
  {
    if n == 0 {
      assert Path([Opened(drawn)], Skips(0));
    } else {
      SkipsLead(drawn, n - 1);
      assert Skips(n - 1) + [Near(Skip)] == Skips(n);
      Then(Opened(drawn), Skips(n - 1), Opened(drawn + n - 1), Near(Skip), Opened(drawn + n));
    }
  }

  // ----- a second stream with the same 16 bits -------------------------------------------

  /** The near end while the second stream waits for its response, the far end with both. */
  function Waiting(rxq: seq<Payload>): Endpoint {
    End([Caller(1, Established, Live, 1, RING, rxq), Caller(65537, Opening, AwaitResp, 0, 0, [])], 65537, Idle, Reading, map[1 := 1], map[])
  }

  function Serving(state: State, h: Handler, w: Writer, r0: nat, r1: nat, wrote: map<nat, seq<Payload>>): Endpoint {
    End([Caller(1, Established, Live, 1, r0, []), Caller(2, state, Live, 65537, r1, [])], 2, w, h, map[1 := 1, 2 := 65537], wrote)
  }

  const RESPONSE: Frame := CreateResp(2, 65537, RING, Ok)

  function SecondRequest(): seq<Step> { [Near(Open), Near(SendReq(1))] + [Far(Deliver(Serve)), Far(Respond(1, true))] }

  function Replied(): Sys { Sys(Waiting([]), Serving(Opening, Finishing(2, Ok), Idle, RING, RING, map[]), [], [RESPONSE]) }

  /** The second request is on the wire. */
  function Reopening(out: seq<Frame>): Sys { Sys(Waiting([]), Opened(65536).far, out, []) }

  lemma SecondSent()
    ensures Leads(Opened(65536), [Near(Open), Near(SendReq(1))], Reopening([CreateReq(65537, RING)]))
  {
    var streams := [Caller(1, Established, Live, 1, RING, []), Caller(65537, Opening, Fresh, 0, 0, [])];
    var m := Sys(Waiting([]).(streams := streams), Opened(65536).far, [], []);
    Two(Opened(65536), Near(Open), m, Near(SendReq(1)), Reopening([CreateReq(65537, RING)]));
  }

  lemma SecondAnswered()
    ensures Leads(Reopening([CreateReq(65537, RING)]), [Far(Deliver(Serve)), Far(Respond(1, true))], Replied())
  {
    var f := Serving(Opening, Responding(65537, 2, Ok), Idle, RING, RING, map[]);
    SecondAccepted(f);
    SecondReplied(f);
    Two(Reopening([CreateReq(65537, RING)]), Far(Deliver(Serve)), Sys(Waiting([]), f, [], []), Far(Respond(1, true)), Replied());
  }

  lemma SecondAccepted(f: Endpoint)
    requires f == Serving(Opening, Responding(65537, 2, Ok), Idle, RING, RING, map[])
    ensures Hop(Reopening([CreateReq(65537, RING)]), Far(Deliver(Serve)), Sys(Waiting([]), f, [], []))
  {
    assert [CreateReq(65537, RING)][1..] == [];
  }

  lemma SecondReplied(f: Endpoint)
    requires f == Serving(Opening, Responding(65537, 2, Ok), Idle, RING, RING, map[])
    ensures Hop(Sys(Waiting([]), f, [], []), Far(Respond(1, true)), Replied())
  {
  }

  lemma SecondRequested()
    ensures Leads(Opened(65536), SecondRequest(), Replied())
  {
    SecondSent();
    SecondAnswered();
    Chained(Opened(65536), [Near(Open), Near(SendReq(1))], Reopening([CreateReq(65537, RING)]),
      [Far(Deliver(Serve)), Far(Respond(1, true))], Replied());
  }

  /** The response finds the first stream, which ignores it; the far end serves the second. */
  function Crossed(): Sys { Sys(Waiting([]), Serving(Established, Reading, Idle, RING, RING, map[]), [], []) }

  lemma ResponseGoesAstray()
    ensures Leads(Replied(), [Far(Finish(1)), Near(Deliver(Serve))], Crossed())
  {
    var f := Serving(Established, Reading, Idle, RING, RING, map[]);
    Two(Replied(), Far(Finish(1)), Sys(Waiting([]), f, [], [RESPONSE]), Near(Deliver(Serve)), Crossed());
  }

  // ----- a message on the wrong stream ---------------------------------------------------

  function Message(p: Payload): seq<Step> { [Far(Acquire(1)), Far(Send(1, p))] + [Far(Debited(1)), Near(Deliver(Serve))] }

  function Copies(q: Payload, n: nat): seq<Payload> { seq(n, _ => q) }

  function Sent(p: Payload, q: Payload, n: nat): map<nat, seq<Payload>> {
    if n == 0 then map[2 := [p]] else map[2 := [p], 1 := Copies(q, n)]
  }

  /** p was written on the second stream; n times q was written on the first; all of it is queued
      on the first. */
  function Mixed(p: Payload, q: Payload, n: nat): Sys
    requires n <= RING
  {
    Sys(Waiting([p] + Copies(q, n)), Serving(Established, Reading, Idle, RING - n, RING - 1, Sent(p, q, n)), [], [])
  }

  /** The message is on the wire, with the id of the second stream, and not yet debited. */
  function Flying(p: Payload, w: Writer, r1: nat): Sys {
    Sys(Waiting([]), Serving(Established, Reading, w, RING, r1, map[2 := [p]]), [], [Data(2, 65537, p)])
  }

  lemma MessageSent(p: Fitting)
    ensures Leads(Crossed(), [Far(Acquire(1)), Far(Send(1, p))], Flying(p, CorpcChannel.Sent(2), RING))
  {
    var f := Serving(Established, Reading, Ready(2), RING, RING, map[]);
    assert Log(map[], 2) + [p] == [p] && map[][2 := [p]] == map[2 := [p]];
    Two(Crossed(), Far(Acquire(1)), Sys(Waiting([]), f, [], []), Far(Send(1, p)), Flying(p, CorpcChannel.Sent(2), RING));
  }

  lemma MessageQueued(p: Fitting, q: Fitting)
    ensures Leads(Flying(p, CorpcChannel.Sent(2), RING), [Far(Debited(1)), Near(Deliver(Serve))], Mixed(p, q, 0))
  {
    Queued(p, q);
    Two(Flying(p, CorpcChannel.Sent(2), RING), Far(Debited(1)), Flying(p, Idle, RING - 1), Near(Deliver(Serve)), Mixed(p, q, 0));
  }

  /** The data frame finds the first stream. */
  lemma Queued(p: Fitting, q: Fitting)
    ensures Hop(Flying(p, Idle, RING - 1), Near(Deliver(Serve)), Mixed(p, q, 0))
  {
    var none: seq<Payload> := [];
    assert none + [p] == [p] && [p] + Copies(q, 0) == [p];
    var streams := Waiting([]).streams;
    assert Find(streams, Id16(65537)) == 0;
    assert streams[0 := streams[0].(rxq := [p])] == Waiting([p]).streams;
  }

  lemma MessageGoesAstray(p: Fitting, q: Fitting)
    ensures Leads(Crossed(), Message(p), Mixed(p, q, 0))
  {
    MessageSent(p);
    MessageQueued(p, q);
    Chained(Crossed(), [Far(Acquire(1)), Far(Send(1, p))], Flying(p, CorpcChannel.Sent(2), RING),
      [Far(Debited(1)), Near(Deliver(Serve))], Mixed(p, q, 0));
  }

  // ----- the whole run -------------------------------------------------------------------

  function WrapRun(): seq<Step> {
    FirstRequest() + FirstAnswer() + Skips(65535) + SecondRequest() + [Far(Finish(1)), Near(Deliver(Serve))]
  }

  lemma Wraps()
    ensures Leads(START, WrapRun(), Crossed())
  {
    FirstRequested();
    FirstOpened();
    Chained(START, FirstRequest(), Answered(), FirstAnswer(), Opened(1));
    SkipsLead(1, 65535);
    Chained(START, FirstRequest() + FirstAnswer(), Opened(1), Skips(65535), Opened(65536));
    SecondRequested();
    Chained(START, FirstRequest() + FirstAnswer() + Skips(65535), Opened(65536), SecondRequest(), Replied());
    ResponseGoesAstray();
    Chained(START, FirstRequest() + FirstAnswer() + Skips(65535) + SecondRequest(), Replied(),
      [Far(Finish(1)), Near(Deliver(Serve))], Crossed());
  }

  /** The first stream has read p. */
  function Misread(p: Payload): Sys {
    var e := Waiting([]);
    Sys(e.(streams := [Stream(1, 1, Established, Live, RING, [], 1, 0), e.streams[1]], got := map[1 := [p]]), Mixed(p, p, 0).far, [], [])
  }

  lemma ReadsWrong(p: Fitting)
    ensures Leads(Mixed(p, p, 0), [Near(Read(0))], Misread(p))
  {
    assert [p] + Copies(p, 0) == [p] && [p][1..] == [] && Log(map[], 1) + [p] == [p];
    One(Mixed(p, p, 0), Near(Read(0)), Misread(p));
  }

  /** Ids come back after 65536 draws.  What is then read on the first stream was never written on
      the one it is paired with, but on another. */
  lemma WrapMisdelivers(p: Fitting) returns (u: Sys)
    ensures var run := WrapRun() + Message(p) + [Near(Read(0))]; IsCodeRun(START, run) && Ends(START, run) == u
    ensures u.near.drawn == U16 + 1 && u.far.drawn == 2
    ensures u.near.got == map[1 := [p]] && 1 in u.far.mate && u.far.mate[1] == 1
    ensures Log(u.far.wrote, 1) == [] && Log(u.far.wrote, 2) == [p]
  {
    u := Misread(p);
    Wraps();
    MessageGoesAstray(p, p);
    ReadsWrong(p);
    Chained(START, WrapRun(), Crossed(), Message(p), Mixed(p, p, 0));
    Chained(START, WrapRun() + Message(p), Mixed(p, p, 0), [Near(Read(0))], u);
    LeadsRuns(START, WrapRun() + Message(p) + [Near(Read(0))], u);
  }

  // ----- a full ring ---------------------------------------------------------------------

  function Round(q: Payload): seq<Step> { [Far(Acquire(0)), Far(Send(0, q))] + [Far(Debited(0)), Near(Deliver(Serve))] }

  function Rounds(q: Payload, n: nat): seq<Step> { if n == 0 then [] else Rounds(q, n - 1) + Round(q) }

  /** The state in which the data frame of a round is on the wire. */
  function OnWire(p: Payload, q: Payload, n: nat): Sys
    requires n < RING
  {
    var far := Serving(Established, Reading, CorpcChannel.Sent(1), RING - n, RING - 1, Sent(p, q, n + 1));
    Sys(Waiting([p] + Copies(q, n)), far, [], [Data(1, 1, q)])
  }

  lemma CopiesMore(q: Fitting, n: nat)
    ensures Copies(q, n) + [q] == Copies(q, n + 1)
  {
  }

  lemma SentMore(p: Fitting, q: Fitting, n: nat)
    ensures Sent(p, q, n)[1 := Log(Sent(p, q, n), 1) + [q]] == Sent(p, q, n + 1)
  {
    CopiesMore(q, n);
  }

  lemma RoundSends(p: Fitting, q: Fitting, n: nat)
    requires n < RING
    ensures Leads(Mixed(p, q, n), [Far(Acquire(0)), Far(Send(0, q))], OnWire(p, q, n))
  {
    var near := Waiting([p] + Copies(q, n));
    SentMore(p, q, n);
    var f := Serving(Established, Reading, Ready(1), RING - n, RING - 1, Sent(p, q, n));
    Two(Mixed(p, q, n), Far(Acquire(0)), Sys(near, f, [], []), Far(Send(0, q)), OnWire(p, q, n));
  }

  lemma RoundArrives(p: Fitting, q: Fitting, n: nat)
    requires n + 1 < RING
    ensures Leads(OnWire(p, q, n), [Far(Debited(0)), Near(Deliver(Serve))], Mixed(p, q, n + 1))
  {
    RoundDebited(p, q, n);
    RoundDelivered(p, q, n);
    Two(OnWire(p, q, n), Far(Debited(0)), Paid(p, q, n), Near(Deliver(Serve)), Mixed(p, q, n + 1));
  }

  function Paid(p: Payload, q: Payload, n: nat): Sys
    requires n + 1 < RING
  {
    var far := Serving(Established, Reading, Idle, RING - n - 1, RING - 1, Sent(p, q, n + 1));
    Sys(Waiting([p] + Copies(q, n)), far, [], [Data(1, 1, q)])
  }

  lemma RoundDebited(p: Fitting, q: Fitting, n: nat)
    requires n + 1 < RING
    ensures Hop(OnWire(p, q, n), Far(Debited(0)), Paid(p, q, n))
  {
  }

  lemma RoundDelivered(p: Fitting, q: Fitting, n: nat)
    requires n + 1 < RING
    ensures Hop(Paid(p, q, n), Near(Deliver(Serve)), Mixed(p, q, n + 1))
  {
    CopiesMore(q, n);
    assert [p] + Copies(q, n) + [q] == [p] + Copies(q, n + 1);
  }

  lemma RoundLeads(p: Fitting, q: Fitting, n: nat)
    requires n + 1 < RING
    ensures Leads(Mixed(p, q, n), Round(q), Mixed(p, q, n + 1))
  {
    RoundSends(p, q, n);
    RoundArrives(p, q, n);
    Chained(Mixed(p, q, n), [Far(Acquire(0)), Far(Send(0, q))], OnWire(p, q, n),
      [Far(Debited(0)), Near(Deliver(Serve))], Mixed(p, q, n + 1));
  }

  lemma {:induction false} RoundsLead(p: Fitting, q: Fitting, n: nat)
    requires n < RING
    ensures Leads(Mixed(p, q, 0), Rounds(q, n), Mixed(p, q, n))
    decreases n
  {
    if n == 0 {
      assert Path([Mixed(p, q, 0)], Rounds(q, 0));
    } else {
      RoundsLead(p, q, n - 1);
      RoundLeads(p, q, n - 1);
      Chained(Mixed(p, q, 0), Rounds(q, n - 1), Mixed(p, q, n - 1), Round(q), Mixed(p, q, n));
    }
  }

  /** And one message on the second stream with eight on the first reaches the branch for a full
      ring, although nobody has sent more than its credit. */
  lemma WrapFillsRing(p: Fitting, q: Fitting) returns (u: Sys)
    ensures var run := WrapRun() + Message(p) + Rounds(q, 7) + [Far(Acquire(0)), Far(Send(0, q))];
            IsCodeRun(START, run) && Ends(START, run) == u
    ensures u.inn != [] && u.inn[0].Data? && Find(u.near.streams, u.inn[0].Did()) == 0
    ensures u.near.streams != [] && |u.near.streams[0].rxq| == RING
  {
    u := OnWire(p, q, 7);
    Wraps();
    MessageGoesAstray(p, q);
    Chained(START, WrapRun(), Crossed(), Message(p), Mixed(p, q, 0));
    RoundsLead(p, q, 7);
    Chained(START, WrapRun() + Message(p), Mixed(p, q, 0), Rounds(q, 7), Mixed(p, q, 7));
    RoundSends(p, q, 7);
    Chained(START, WrapRun() + Message(p) + Rounds(q, 7), Mixed(p, q, 7), [Far(Acquire(0)), Far(Send(0, q))], u);
    LeadsRuns(START, WrapRun() + Message(p) + Rounds(q, 7) + [Far(Acquire(0)), Far(Send(0, q))], u);
  }
}
