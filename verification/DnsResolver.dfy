/** The resolver's stack machine, dns_res_exec (src/dns/dns.c:7252-7759).  A step executes one
    case of the switch: it moves on, starts a frame, finishes one, or fails and leaves the
    machine to be entered again.  What packets, sockets, hosts and caches contain is open. */
module DnsResolver {

  /** enum dns_res_state */
  datatype State =
    | INIT | GLUE | SWITCH | FILE | CACHE | SUBMIT | CHECK | FETCH
    | BIND | SEARCH | HINTS | ITERATE | FOREACH_NS | RESOLV0_NS | RESOLV1_NS
    | FOREACH_A | QUERY_A | CNAME0_A | CNAME1_A
    | FINISH | SMART0_A | SMART1_A | DONE | SERVFAIL

  /** struct dns_res_frame: where it is, and whether it has an answer packet */
  datatype Frame = Frame(state: State, answer: bool)

  /** resconf->options.smart, resconf->options.recurse and the presence of a cache */
  datatype Config = Config(smart: bool, recurse: bool, cache: bool)

  const MAXDEPTH: nat := 8

  /** sp, the frames, and whether R->nodata holds a packet */
  datatype Resolver = Resolver(sp: nat, stack: seq<Frame>, nodata: bool) {
    predicate Shaped() { |stack| == MAXDEPTH && sp < MAXDEPTH }

    function Top(): Frame
      requires Shaped()
    {
      stack[sp]
    }
  }

  // ----- steps ---------------------------------------------------------------------------

  /** What a step of a frame depends on besides the frame: the configuration, whether it is
      frame 0, whether a frame can be put above it, whether the frame above has an answer, and
      R->nodata. */
  datatype Around = Around(g: Config, bottom: bool, room: bool, child: bool, nodata: bool)

  /** The frame goes to state s, with or without an answer. */
  predicate To(t: Frame, s: State, answer: bool) { t == Frame(s, answer) }

  /** Frame f can become t, and R->nodata n, when the case of its state is executed once without
      touching other frames.  Failing leaves the state as it is. */
  predicate Local(e: Around, f: Frame, t: Frame, n: bool) {
    var a := f.answer;
    if f.state == SWITCH && e.bottom && e.nodata then
      (n && (To(t, BIND, a) || To(t, FILE, a) || (e.g.cache && To(t, CACHE, a)))) || (!n && To(t, FINISH, true))
    else if f.state == QUERY_A && !e.g.recurse && !e.nodata && n then To(t, SEARCH, false)
    else
      n == e.nodata &&
      match f.state
      case INIT => To(t, GLUE, a)
      case GLUE =>
        if e.bottom then To(t, SWITCH, a)
        else t == f || To(t, SWITCH, false) || To(t, GLUE, true) || To(t, FINISH, true) || To(t, CNAME0_A, true) || To(t, SWITCH, true)
      case SWITCH => To(t, BIND, a) || To(t, FILE, a) || (e.g.cache && To(t, CACHE, a)) || To(t, SERVFAIL, a)
      case FILE => t == f || To(t, FILE, false) || To(t, FINISH, true) || To(t, SWITCH, false) || (e.bottom && To(t, SWITCH, a))
      case CACHE => t == f || To(t, CACHE, false) || To(t, FINISH, true) || To(t, SWITCH, false) || To(t, SUBMIT, false)
      case SUBMIT => t == f || To(t, CHECK, a)
      case CHECK => t == f || To(t, FETCH, a)
      case FETCH => To(t, FETCH, false) || To(t, FINISH, true) || To(t, SWITCH, false)
      case BIND => if e.bottom then To(t, SEARCH, a) else t == f || To(t, HINTS, a)
      case SEARCH => t == f || To(t, SWITCH, a) || To(t, HINTS, a)
      case HINTS => t == f || To(t, ITERATE, a)
      case ITERATE => To(t, FOREACH_NS, a)
      case FOREACH_NS => To(t, ITERATE, a) || To(t, SWITCH, a) || To(t, FOREACH_A, a)
      case RESOLV0_NS => if e.room then t == f else To(t, FOREACH_NS, a)
      case RESOLV1_NS => t == f || To(t, FOREACH_NS, a)
      case FOREACH_A => t == f || To(t, RESOLV0_NS, a) || To(t, FOREACH_NS, a) || To(t, QUERY_A, a)
      case QUERY_A =>
        t == f || To(t, FOREACH_A, a) || To(t, QUERY_A, false) || To(t, QUERY_A, true) || To(t, FOREACH_A, true) || To(t, FINISH, true) ||
        To(t, CNAME0_A, true) || (if e.g.recurse then To(t, ITERATE, false) else e.nodata && To(t, SEARCH, true))
      case CNAME0_A => if e.room then t == f else To(t, FINISH, a)
      case CNAME1_A => t == f || To(t, FINISH, true)
      case FINISH => if !a then t == f else if !e.g.smart || !e.bottom then To(t, DONE, a) else To(t, SMART0_A, a)
      case SMART0_A => if e.room then t == f || To(t, DONE, a) else To(t, DONE, a)
      case SMART1_A => t == f || (e.child && To(t, SMART0_A, a))
      case DONE => t == f
      case SERVFAIL => To(t, SERVFAIL, false) || To(t, SERVFAIL, true) || To(t, DONE, true)
  }

  /** The states that start a frame, and the states they then wait in. */
  predicate Starts(s: State) { s.RESOLV0_NS? || s.CNAME0_A? || s.SMART0_A? }

  function Resume(s: State): State {
    match s
    case RESOLV0_NS => RESOLV1_NS
    case CNAME0_A => CNAME1_A
    case _ => SMART1_A
  }

  /** dns_res_frame_prepare on the frame above, then ++sp */
  function Recurse(r: Resolver): Resolver
    requires r.Shaped() && r.sp + 1 < MAXDEPTH
  {
    var f := r.Top();
    Resolver(r.sp + 1, r.stack[r.sp := Frame(Resume(f.state), f.answer)][r.sp + 1 := Frame(INIT, false)], r.nodata)
  }

  /** dns_res_frame_prepare fails: the frame above is blank, nothing else happened. */
  function Unprepared(r: Resolver): Resolver
    requires r.Shaped() && r.sp + 1 < MAXDEPTH
  {
    r.(stack := r.stack[r.sp + 1 := Frame(INIT, false)])
  }

  function AroundTop(g: Config, r: Resolver): Around
    requires r.Shaped()
  {
    Around(g, r.sp == 0, r.sp + 1 < MAXDEPTH, r.sp + 1 < MAXDEPTH && r.stack[r.sp + 1].answer, r.nodata)
  }

  /** s can follow r when the case of the top frame's state is executed once. */
  predicate Step(g: Config, r: Resolver, s: Resolver)
    requires r.Shaped()
  {
    (s.sp == r.sp && |s.stack| == MAXDEPTH && s.stack == r.stack[r.sp := s.stack[r.sp]] &&
     Local(AroundTop(g, r), r.Top(), s.stack[r.sp], s.nodata)) ||
    (Starts(r.Top().state) && r.sp + 1 < MAXDEPTH && (s == Recurse(r) || s == Unprepared(r))) ||
    (r.Top() == Frame(DONE, true) && r.sp > 0 && s == r.(sp := r.sp - 1))
  }

  /** dns_res_reset */
  function Start(): Resolver { Resolver(0, seq(MAXDEPTH, _ => Frame(INIT, false)), false) }

  ghost predicate IsRun(g: Config, run: seq<Resolver>) {
    run != [] &&
    forall j, k {:trigger run[j], run[k]} :: 0 <= j && k == j + 1 < |run| && run[j].Shaped() ==> Step(g, run[j], run[k])
  }

  // ----- invariant -----------------------------------------------------------------------

  /** The states in which a frame waits for the one above it. */
  predicate Resumes(s: State) { s.RESOLV1_NS? || s.CNAME1_A? || s.SMART1_A? }

  /** What holds of every frame up to the top. */
  predicate FrameOk(i: nat, f: Frame) {
    ((f.state.SMART0_A? || f.state.SMART1_A?) ==> i == 0) &&
    ((f.state.CNAME0_A? || f.state.CNAME1_A? || f.state.SMART0_A? || f.state.SMART1_A? || f.state.FINISH? || f.state.DONE?) ==>
       f.answer)
  }

  ghost predicate Inv(r: Resolver) {
    r.Shaped() &&
    (forall i :: 0 <= i <= r.sp ==> FrameOk(i, r.stack[i])) &&
    (forall i :: 0 <= i < r.sp ==> Resumes(r.stack[i].state)) &&
    (Resumes(r.Top().state) ==> r.sp + 1 < MAXDEPTH && r.stack[r.sp + 1].answer)
  }

  /** Steps leave the frames below the top alone. */
  lemma BelowUntouched(g: Config, r: Resolver, s: Resolver, i: nat)
    requires r.Shaped() && Step(g, r, s) && i < r.sp
    ensures s.Shaped() && s.stack[i] == r.stack[i]
  {
  }

  lemma StackMoves(g: Config, r: Resolver, s: Resolver)
    requires r.Shaped() && Step(g, r, s)
    ensures s.Shaped()
    ensures s.sp == r.sp || (s.sp == r.sp + 1 && Resumes(s.stack[r.sp].state)) ||
            (s.sp + 1 == r.sp && r.Top() == Frame(DONE, true) && s.stack == r.stack)
  {
  }

  lemma OnlyBottomSmart(e: Around, i: nat, f: Frame, t: Frame, n: bool)
    requires FrameOk(i, f) && Local(e, f, t, n) && (e.bottom <==> i == 0)
    ensures t.state.SMART0_A? || t.state.SMART1_A? ==> i == 0
  {
  }

  lemma AnswersStay(e: Around, i: nat, f: Frame, t: Frame, n: bool)
    requires FrameOk(i, f) && Local(e, f, t, n)
    ensures t.state.CNAME0_A? || t.state.CNAME1_A? || t.state.SMART0_A? || t.state.SMART1_A? ==> t.answer
    ensures t.state.FINISH? || t.state.DONE? ==> t.answer
  {
  }

  lemma WaitingStays(e: Around, f: Frame, t: Frame, n: bool)
    requires Local(e, f, t, n)
    ensures Resumes(t.state) ==> t == f
  {
  }

  /** A frame stays in order, and does not enter a waiting state by itself. */
  lemma LocalOk(e: Around, i: nat, f: Frame, t: Frame, n: bool)
    requires FrameOk(i, f) && Local(e, f, t, n) && (e.bottom <==> i == 0)
    ensures FrameOk(i, t) && (Resumes(t.state) ==> t == f)
  {
    OnlyBottomSmart(e, i, f, t, n);
    AnswersStay(e, i, f, t, n);
    WaitingStays(e, f, t, n);
  }

  lemma LocalKeeps(g: Config, r: Resolver, s: Resolver)
    requires Inv(r) && s.sp == r.sp && |s.stack| == MAXDEPTH && s.stack == r.stack[r.sp := s.stack[r.sp]]
    requires Local(AroundTop(g, r), r.Top(), s.stack[r.sp], s.nodata)
    ensures Inv(s)
  {
    assert FrameOk(r.sp, r.stack[r.sp]);
    LocalOk(AroundTop(g, r), r.sp, r.Top(), s.Top(), s.nodata);
    StillInOrder(r, s);
  }

  lemma StillInOrder(r: Resolver, s: Resolver)
    requires Inv(r) && s.sp == r.sp && |s.stack| == MAXDEPTH && s.stack == r.stack[r.sp := s.stack[r.sp]]
    requires FrameOk(r.sp, s.stack[r.sp]) && (Resumes(s.stack[r.sp].state) ==> s.stack[r.sp] == r.stack[r.sp])
    ensures Inv(s)
  {
  }

  lemma StartKeeps(r: Resolver, s: Resolver)
    requires Inv(r) && Starts(r.Top().state) && r.sp + 1 < MAXDEPTH && (s == Recurse(r) || s == Unprepared(r))
    ensures Inv(s)
  {
    assert FrameOk(r.sp, r.stack[r.sp]);
  }

  lemma StepKeeps(g: Config, r: Resolver, s: Resolver)
    requires Inv(r) && Step(g, r, s)
    ensures Inv(s)
  {
    if Starts(r.Top().state) && r.sp + 1 < MAXDEPTH && (s == Recurse(r) || s == Unprepared(r)) {
      StartKeeps(r, s);
    } else if r.Top() == Frame(DONE, true) && r.sp > 0 && s == r.(sp := r.sp - 1) {
    } else {
      LocalKeeps(g, r, s);
    }
  }

  lemma {:induction false} RunKeeps(g: Config, run: seq<Resolver>, k: nat)
    requires IsRun(g, run) && Inv(run[0]) && k < |run|
    ensures Inv(run[k])
    decreases k
  {
    if k > 0 {
      RunKeeps(g, run, k - 1);
      StepKeeps(g, run[k - 1], run[k]);
    }
  }

  // ----- theorems ------------------------------------------------------------------------

  lemma StartOk()
    ensures Inv(Start())
  {
  }

  /** In every state of every run, through any failures and re-entries: the stack has its eight
      frames and sp is one of them, each frame below the top waits in RESOLV1_NS, CNAME1_A or SMART1_A, the last of
      these only in frame 0, and a frame that merges or extends its answer, or finishes, has one. */
  lemma StackDiscipline(g: Config, run: seq<Resolver>, k: nat, i: nat)
    requires IsRun(g, run) && run[0] == Start() && k < |run| && i <= run[k].sp
    ensures run[k].Shaped() && run[k].sp < 8 && (i < run[k].sp ==> Resumes(run[k].stack[i].state))
    ensures FrameOk(i, run[k].stack[i])
  {
    StartOk();
    RunKeeps(g, run, k);
  }

  /** A frame that waits while frames above it run resumes exactly as it was left, and then the
      frame above has an answer. */
  lemma {:induction false} ResumesAsLeft(g: Config, run: seq<Resolver>, j: nat, k: nat, i: nat)
    requires IsRun(g, run) && run[0] == Start() && j < k < |run|
    requires forall n {:trigger run[n]} :: j <= n < k ==> i < run[n].sp
    ensures run[j].Shaped() && run[k].Shaped() && i < 8 && run[k].stack[i] == run[j].stack[i]
    ensures run[k].sp == i ==> Resumes(run[k].Top().state) && i + 1 < 8 && run[k].stack[i + 1].answer
    decreases k
  {
    StartOk();
    RunKeeps(g, run, j);
    RunKeeps(g, run, k - 1);
    RunKeeps(g, run, k);
    if j < k - 1 { ResumesAsLeft(g, run, j, k - 1, i); }
    BelowUntouched(g, run[k - 1], run[k], i);
    assert Resumes(run[k - 1].stack[i].state);
  }

  // ----- the state graph -----------------------------------------------------------------

  /** A case of the switch can move its frame from s to t. */
  predicate Edge(s: State, t: State) {
    match s
    case INIT => t.GLUE?
    case GLUE => t.SWITCH? || t.FINISH? || t.CNAME0_A?
    case SWITCH => t.BIND? || t.FILE? || t.CACHE? || t.SERVFAIL? || t.FINISH?
    case FILE => t.FINISH? || t.SWITCH?
    case CACHE => t.FINISH? || t.SWITCH? || t.SUBMIT?
    case SUBMIT => t.CHECK?
    case CHECK => t.FETCH?
    case FETCH => t.FINISH? || t.SWITCH?
    case BIND => t.SEARCH? || t.HINTS?
    case SEARCH => t.SWITCH? || t.HINTS?
    case HINTS => t.ITERATE?
    case ITERATE => t.FOREACH_NS?
    case FOREACH_NS => t.ITERATE? || t.SWITCH? || t.FOREACH_A?
    case RESOLV0_NS => t.FOREACH_NS?
    case RESOLV1_NS => t.FOREACH_NS?
    case FOREACH_A => t.RESOLV0_NS? || t.FOREACH_NS? || t.QUERY_A?
    case QUERY_A => t.FOREACH_A? || t.FINISH? || t.CNAME0_A? || t.ITERATE? || t.SEARCH?
    case CNAME0_A => t.FINISH?
    case CNAME1_A => t.FINISH?
    case FINISH => t.DONE? || t.SMART0_A?
    case SMART0_A => t.DONE?
    case SMART1_A => t.SMART0_A?
    case DONE => false
    case SERVFAIL => t.DONE?
  }

  /** A frame moves along these edges only. */
  lemma MovesAlong(e: Around, f: Frame, t: Frame, n: bool)
    requires Local(e, f, t, n)
    ensures t.state == f.state || Edge(f.state, t.state)
  {
  }

  /** Surroundings in which an edge can be taken, and whether the frame has an answer before and after. */
  function Surroundings(s: State, t: State): Around {
    if s == SWITCH && t == FINISH then Around(Config(true, true, true), true, true, true, true)
    else if s == QUERY_A && t == SEARCH then Around(Config(true, false, true), false, true, true, true)
    else
      var bottom := t == SMART0_A || (s == BIND && t == SEARCH) || ((s == FILE || s == GLUE) && t == SWITCH);
      Around(Config(t == SMART0_A, true, true), bottom, false, true, false)
  }

  function Before(s: State, t: State): bool {
    s.GLUE? || s.FINISH? || s.SMART0_A? || s.SMART1_A? || s.CNAME0_A? || t.FINISH? || t.CNAME0_A? || t.DONE? ||
    t.FOREACH_A? || t.FOREACH_NS? || (s == QUERY_A && t == SEARCH)
  }

  function Behind(s: State, t: State): bool { (Before(s, t) && s != CACHE) || t == FINISH }

  predicate Takes(s: State, t: State) {
    Local(Surroundings(s, t), Frame(s, Before(s, t)), Frame(t, Behind(s, t)), s == QUERY_A && t == SEARCH)
  }

  lemma TakesFirst(s: State, t: State)
    requires Edge(s, t) && (s.INIT? || s.GLUE? || s.SWITCH? || s.FILE? || s.CACHE? || s.SUBMIT? || s.CHECK? || s.FETCH?)
    ensures Takes(s, t)
  {
  }

  lemma TakesSecond(s: State, t: State)
    requires Edge(s, t)
    requires s.BIND? || s.SEARCH? || s.HINTS? || s.ITERATE? || s.FOREACH_NS? || s.RESOLV0_NS? || s.RESOLV1_NS? || s.FOREACH_A?
    ensures Takes(s, t)
  {
  }

  lemma TakesQuery(t: State)
    requires Edge(QUERY_A, t)
    ensures Takes(QUERY_A, t)
  {
  }

  lemma TakesThird(s: State, t: State)
    requires Edge(s, t) && (s.CNAME0_A? || s.CNAME1_A? || s.FINISH? || s.SMART0_A? || s.SMART1_A? || s.DONE? || s.SERVFAIL?)
    ensures Takes(s, t)
  {
  }

  /** And along each of them in some surroundings. */
  lemma CanMove(s: State, t: State)
    requires Edge(s, t)
    ensures exists e, a, b, n :: Local(e, Frame(s, a), Frame(t, b), n)
  {
    if s.INIT? || s.GLUE? || s.SWITCH? || s.FILE? || s.CACHE? || s.SUBMIT? || s.CHECK? || s.FETCH? {
      TakesFirst(s, t);
    } else if s.QUERY_A? {
      TakesQuery(t);
    } else if s.CNAME0_A? || s.CNAME1_A? || s.FINISH? || s.SMART0_A? || s.SMART1_A? || s.DONE? || s.SERVFAIL? {
      TakesThird(s, t);
    } else {
      TakesSecond(s, t);
    }
    assert Takes(s, t);
  }

  // ----- a frame above -------------------------------------------------------------------

  /** r with frame f on top */
  function WithTop(r: Resolver, f: Frame): Resolver
    requires r.Shaped()
  {
    r.(stack := r.stack[r.sp := f])
  }

  lemma MovesTop(g: Config, r: Resolver, t: Frame)
    requires r.Shaped() && Local(AroundTop(g, r), r.Top(), t, r.nodata)
    ensures WithTop(r, t).Shaped() && Step(g, r, WithTop(r, t))
  {
  }

  /** A frame that starts another gets its turn again: the new frame begins afresh, can find its answer,
      and when it is done the frame below goes on in the state in which it waits, with the answer of
      the one above at hand. */
  lemma ChildReturns(g: Config, r: Resolver) returns (a: Resolver, b: Resolver, c: Resolver, d: Resolver, e: Resolver)
    requires r.Shaped() && r.sp + 1 < 8 && Starts(r.Top().state)
    ensures a.Shaped() && b.Shaped() && c.Shaped() && d.Shaped()
    ensures Step(g, r, a) && a.sp == r.sp + 1 && a.Top() == Frame(INIT, false)
    ensures Step(g, a, b) && Step(g, b, c) && Step(g, c, d) && d.Top() == Frame(DONE, true) && Step(g, d, e)
    ensures e.Shaped() && e.sp == r.sp && e.stack[r.sp + 1] == Frame(DONE, true) && e.Top().answer == r.Top().answer
    ensures e.Top().state == match r.Top().state
                             case RESOLV0_NS => RESOLV1_NS
                             case CNAME0_A => CNAME1_A
                             case _ => SMART1_A
  {
    a := Recurse(r);
    b, c, d := ChildFinishes(g, a);
    e := d.(sp := r.sp);
  }

  lemma ChildFinishes(g: Config, a: Resolver) returns (b: Resolver, c: Resolver, d: Resolver)
    requires a.Shaped() && a.sp > 0 && a.Top() == Frame(INIT, false)
    ensures b.Shaped() && c.Shaped() && d == WithTop(a, Frame(DONE, true)) && Step(g, a, b) && Step(g, b, c) && Step(g, c, d)
  {
    b := WithTop(a, Frame(GLUE, false));
    MovesTop(g, a, Frame(GLUE, false));
    c := WithTop(b, Frame(FINISH, true));
    MovesTop(g, b, Frame(FINISH, true));
    d := WithTop(c, Frame(DONE, true));
    MovesTop(g, c, Frame(DONE, true));
    assert d.stack == a.stack[a.sp := Frame(DONE, true)];
  }

  /** The frame at the bottom is never popped: when it is done, so is the query. */
  lemma DoneIsFinal(g: Config, r: Resolver, s: Resolver)
    requires r.Shaped() && r.sp == 0 && r.Top() == Frame(DONE, true) && Step(g, r, s)
    ensures s == r
  {
    assert s.stack == r.stack;
  }
}
