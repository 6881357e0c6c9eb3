/** Which runs of the code are runs without colliding ids: bounds that can be counted. */
module CorpcRuns {
  import opened CorpcChannel
  import opened CorpcSystem
  import opened CorpcInvariant
  import opened CorpcSteps
  import opened CorpcTheorems

  // ----- the age of ids ------------------------------------------------------------------

  /** Fewer than 2^16 ids have been drawn since any id still alive, the next one included. */
  ghost predicate Young(s: Sys) { forall x: nat :: Alive(s, x) ==> s.near.drawn + 1 - x < U16 }

  lemma YoungHasRoom(s: Sys)
    requires Ids(s) && Young(s)
    ensures RoomForId(s)
  {
    forall x: nat | Alive(s, x) ensures Id16(x) != Id16(s.near.drawn + 1) {
      assert Named(s.near.streams, s.out, s.inn, s.far.streams, s.far.handler, x);
      Apart(x, s.near.drawn + 1);
    }
  }

  lemma Apart(x: nat, y: nat)
    requires x < y < x + U16
    ensures Id16(x) != Id16(y)
  {
  }

  /** Whenever the run draws an id for a stream, the ids alive are young. */
  ghost predicate StaysYoung(s: Sys, run: seq<Step>)
    requires IsCodeRun(s, run)
    decreases |run|
  {
    run == [] ||
    ((Draws(Side(s, run[0].atFar), run[0].act) ==> Young(Side(s, run[0].atFar))) && StaysYoung(Taken(s, run[0]), run[1..]))
  }

  /** If no stream lives through 2^16 draws at its end, the run is one without collisions, and all
      that is proved of those holds. */
  lemma {:induction false} LifetimeBound(s: Sys, run: seq<Step>)
    requires Inv(s) && IsCodeRun(s, run) && StaysYoung(s, run)
    ensures IsRun(s, run) && After(s, run) == Ends(s, run)
    decreases |run|
  {
    if run != [] {
      var t := run[0];
      var here := Side(s, t.atFar);
      assert Inv(here);
      if Draws(here, t.act) { YoungHasRoom(here); }
      StepKeeps(s, t);
      LifetimeBound(Next(s, t), run[1..]);
    }
  }

  lemma StepKeeps(s: Sys, t: Step)
    requires Inv(s) && Enabled(s, t)
    ensures Inv(Next(s, t))
  {
    ActKeeps(Side(s, t.atFar), t.act);
  }

  // ----- the number of draws -------------------------------------------------------------

  lemma DrawnGrows(s: Sys, a: Action)
    requires Could(s, a)
    ensures Do(s, a).near.drawn == s.near.drawn + (if Draws(s, a) || a.Skip? then 1 else 0) && Do(s, a).far == s.far
  {
    if a.Deliver? { ReceiveDraws(s.near, s.inn[0], a.o); }
  }

  lemma ReceiveDraws(e: Endpoint, f: Frame, o: Outcome)
    ensures Receive(e, f, o).drawn == e.drawn + if f.CreateReq? && !o.Refuse? then 1 else 0
  {
  }

  lemma {:induction false} FewDrawsStayYoung(s: Sys, run: seq<Step>)
    requires IsCodeRun(s, run) && Ends(s, run).near.drawn <= U16 && Ends(s, run).far.drawn <= U16
    ensures s.near.drawn <= U16 && s.far.drawn <= U16 && StaysYoung(s, run)
    decreases |run|
  {
    if run != [] {
      DrawnGrows(Side(s, run[0].atFar), run[0].act);
      FewDrawsStayYoung(Taken(s, run[0]), run[1..]);
    }
  }

  /** What a process can count: a run of the code from the start in which either end draws at most
      65536 ids, for this channel and all others together, is a run without collisions. */
  lemma FewDrawsSuffice(run: seq<Step>)
    requires IsCodeRun(START, run) && Ends(START, run).near.drawn <= U16 && Ends(START, run).far.drawn <= U16
    ensures IsRun(START, run) && After(START, run) == Ends(START, run)
  {
    InitInv();
    FewDrawsStayYoung(START, run);
    LifetimeBound(START, run);
  }
}
