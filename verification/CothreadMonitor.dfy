/** co_thread_lock, unlock, wait, signal and broadcast (src/cothread/co-scheduler.c:1142-1360)
    as a step system.  Everything between taking and giving up the global mutex is one step;
    any number of coroutines and plain threads take steps in any order. */
module CothreadMonitor {

  /** Where a participant stands: not using the lock, in co_thread_lock with the lock taken by
      another, holding the lock, in the loop of co_thread_wait, or past that loop and waiting for
      the lock.  since is the time at which the wait was queued. */
  datatype Phase =
    | Outside
    | Locking
    | Inside
    | Waiting(since: nat, timed: bool)
    | Relocking(since: nat, timed: bool, signalled: bool)

  /** struct io_waiter: waiting and event are MTX_WAKEUP_WAITING and MTX_WAKEUP_EVENT */
  datatype Waiter = Waiter(id: nat, waiting: bool, event: bool, since: nat)

  datatype Owner = Nobody | Held(who: nat)

  datatype Act =
    | Lock(t: nat)
    | Retry(t: nat)                 // found the lock taken before, tries again
    | Unlock(t: nat)
    | Signal(t: nat)
    | Broadcast(t: nat)
    | Wait(t: nat, timed: bool)
    | Wake(t: nat, expired: bool)   // runs its wait loop

  /** obj->co, the participants (coroutines queue themselves while they wait for the lock), the
      queue obj->e, and all that has happened. */
  datatype Monitor = Monitor(co: Owner, phase: seq<Phase>, coroutine: seq<bool>, queue: seq<Waiter>, log: seq<Act>)

  // ----- queue operations ----------------------------------------------------------------

  /** epoll_dequeue */
  function Without(q: seq<Waiter>, t: nat, waiting: bool): seq<Waiter> {
    if q == [] then []
    else if q[0].id == t && q[0].waiting == waiting then Without(q[1..], t, waiting)
    else [q[0]] + Without(q[1..], t, waiting)
  }

  function Marked(w: Waiter): Waiter { if w.waiting then w.(event := true) else w }

  function MarkAll(q: seq<Waiter>): seq<Waiter> { seq(|q|, k requires 0 <= k < |q| => Marked(q[k])) }

  /** Only the first waiter is marked. */
  function MarkFirst(q: seq<Waiter>): seq<Waiter> {
    if q == [] then []
    else if q[0].waiting then [Marked(q[0])] + q[1..]
    else [q[0]] + MarkFirst(q[1..])
  }

  function Count(q: seq<Waiter>): nat { if q == [] then 0 else (if q[0].waiting then 1 else 0) + Count(q[1..]) }

  /** The loop of co_thread_signal_internal */
  method SignalInternal(q: seq<Waiter>, bc: bool) returns (r: seq<Waiter>, n: nat)
    ensures r == if bc then MarkAll(q) else MarkFirst(q)
    ensures n == if bc then Count(q) else if Count(q) > 0 then 1 else 0
  {
    r, n := [], 0;
    var k := 0;
    while k < |q|
      invariant 0 <= k <= |q|
      invariant bc ==> r == MarkAll(q[..k]) && n + Count(q[k..]) == Count(q)
      invariant !bc ==> n == 0 && r == q[..k] && Count(q[k..]) == Count(q) && MarkFirst(q) == q[..k] + MarkFirst(q[k..])
    {
      MarkStep(q, k);
      if q[k].waiting {
        n, r := n + 1, r + [Marked(q[k])];
        if !bc {
          r := r + q[k + 1..];
          return;
        }
      } else {
        r := r + [q[k]];
      }
      k := k + 1;
    }
    assert q[..|q|] == q && q[|q|..] == [];
  }

  lemma MarkStep(q: seq<Waiter>, k: nat)
    requires k < |q|
    ensures MarkAll(q[..k + 1]) == MarkAll(q[..k]) + [Marked(q[k])] && q[..k] + [q[k]] == q[..k + 1]
    ensures Count(q[k..]) == (if q[k].waiting then 1 else 0) + Count(q[k + 1..])
    ensures q[..k] + MarkFirst(q[k..]) ==
            if q[k].waiting then q[..k] + [Marked(q[k])] + q[k + 1..] else q[..k + 1] + MarkFirst(q[k + 1..])
  {
    assert q[k..][0] == q[k] && q[k..][1..] == q[k + 1..];
    Regroup(q[..k], [if q[k].waiting then Marked(q[k]) else q[k]], if q[k].waiting then q[k + 1..] else MarkFirst(q[k + 1..]));
  }

  lemma Regroup(a: seq<Waiter>, b: seq<Waiter>, c: seq<Waiter>)
    ensures a + (b + c) == a + b + c
  {
  }

  // ----- steps ---------------------------------------------------------------------------

  predicate Can(m: Monitor, a: Act) {
    a.t < |m.phase| && |m.coroutine| == |m.phase| &&
    match a
    case Lock(t) => m.phase[t].Outside?
    case Retry(t) => m.phase[t].Locking? || m.phase[t].Relocking?
    case Wake(t, _) => m.phase[t].Waiting?
    case _ => m.co == Held(a.t)      // co_thread_check
  }

  function Enqueue(m: Monitor, t: nat, w: Waiter): seq<Waiter>
    requires t < |m.coroutine|
  {
    if m.coroutine[t] then m.queue + [w] else m.queue
  }

  /** The queue when t has got the lock: its entry as a lock seeker goes, and when it comes from
      co_thread_wait its entry as a waiter goes too. */
  function Granted(m: Monitor, t: nat): seq<Waiter> { Without(Without(m.queue, t, false), t, true) }

  ghost predicate Signalled(m: Monitor, t: nat) { exists w :: w in m.queue && w.id == t && w.waiting && w.event }

  ghost function Do(m: Monitor, a: Act): Monitor
    requires Can(m, a)
  {
    var n := m.(log := m.log + [a]);
    var t := a.t;
    match a
    case Lock(_) =>
      if m.co.Nobody? then n.(co := Held(t), phase := m.phase[t := Inside])
      else n.(phase := m.phase[t := Locking], queue := Enqueue(m, t, Waiter(t, false, false, 0)))
    case Retry(_) =>
      if m.co.Nobody? then n.(co := Held(t), phase := m.phase[t := Inside], queue := Granted(m, t)) else n
    case Unlock(_) => n.(co := Nobody, phase := m.phase[t := Outside])
    case Signal(_) => n.(queue := MarkFirst(m.queue))
    case Broadcast(_) => n.(queue := MarkAll(m.queue))
    case Wait(_, timed) =>
      n.(co := Nobody, phase := m.phase[t := Waiting(|m.log|, timed)], queue := m.queue + [Waiter(t, true, false, |m.log|)])
    case Wake(_, expired) =>
      if !Signalled(m, t) && !(m.phase[t].timed && expired) then n
      else if m.co.Nobody? then n.(co := Held(t), phase := m.phase[t := Inside], queue := Granted(m, t))
      else n.(phase := m.phase[t := Relocking(m.phase[t].since, m.phase[t].timed, Signalled(m, t))],
              queue := Enqueue(m, t, Waiter(t, false, false, 0)))
  }

  function Init(coroutine: seq<bool>): Monitor { Monitor(Nobody, seq(|coroutine|, _ => Outside), coroutine, [], []) }

  ghost predicate IsRun(m: Monitor, acts: seq<Act>)
    decreases |acts|
  {
    acts == [] || (Can(m, acts[0]) && IsRun(Do(m, acts[0]), acts[1..]))
  }

  ghost function After(m: Monitor, acts: seq<Act>): Monitor
    requires IsRun(m, acts)
    decreases |acts|
  {
    if acts == [] then m else After(Do(m, acts[0]), acts[1..])
  }

  // ----- invariant -----------------------------------------------------------------------

  predicate InWait(p: Phase) { p.Waiting? || p.Relocking? }

  /** Those who think they hold the lock are its owner. */
  ghost predicate Owned(co: Owner, phase: seq<Phase>) {
    (co.Held? ==> co.who < |phase|) && forall t :: 0 <= t < |phase| ==> (phase[t].Inside? <==> co == Held(t))
  }

  /** Exactly those in a wait have an entry as waiters. */
  ghost predicate Queued(phase: seq<Phase>, q: seq<Waiter>) {
    (forall w :: w in q && w.waiting ==> w.id < |phase| && InWait(phase[w.id]) && phase[w.id].since == w.since) &&
    forall t :: 0 <= t < |phase| && InWait(phase[t]) ==> exists w :: w in q && w.waiting && w.id == t
  }

  predicate Signals(a: Act) { a.Signal? || a.Broadcast? }

  ghost predicate SignalAfter(log: seq<Act>, since: nat) { exists k :: since < k < |log| && Signals(log[k]) }

  ghost predicate BroadcastAfter(log: seq<Act>, since: nat) { exists k :: since < k < |log| && log[k].Broadcast? }

  /** Marks come from signals sent since the wait began, and no broadcast since then has missed
      the waiter; untimed waits are left only when marked. */
  ghost predicate Justified(phase: seq<Phase>, q: seq<Waiter>, log: seq<Act>) {
    (forall w :: w in q && w.waiting ==> w.since < |log|) &&
    (forall w :: w in q && w.waiting && w.event ==> SignalAfter(log, w.since)) &&
    (forall w :: w in q && w.waiting && BroadcastAfter(log, w.since) ==> w.event) &&
    forall t :: 0 <= t < |phase| && phase[t].Relocking? && (phase[t].signalled || !phase[t].timed) ==> SignalAfter(log, phase[t].since)
  }

  ghost predicate Inv(m: Monitor) {
    |m.coroutine| == |m.phase| && Owned(m.co, m.phase) && Queued(m.phase, m.queue) && Justified(m.phase, m.queue, m.log)
  }

  // ----- queue facts ---------------------------------------------------------------------

  lemma {:induction false} WithoutHas(q: seq<Waiter>, t: nat, waiting: bool, w: Waiter)
    ensures w in Without(q, t, waiting) <==> w in q && !(w.id == t && w.waiting == waiting)
    decreases |q|
  {
    if q != [] {
      WithoutHas(q[1..], t, waiting, w);
      assert w in q <==> w == q[0] || w in q[1..];
    }
  }

  lemma GrantedHas(m: Monitor, t: nat, w: Waiter)
    ensures w in Granted(m, t) <==> w in m.queue && w.id != t
  {
    WithoutHas(m.queue, t, false, w);
    WithoutHas(Without(m.queue, t, false), t, true, w);
  }

  lemma {:induction false} FirstMarks(q: seq<Waiter>)
    ensures |MarkFirst(q)| == |q| && forall k :: 0 <= k < |q| ==> MarkFirst(q)[k] == q[k] || MarkFirst(q)[k] == Marked(q[k])
    decreases |q|
  {
    if q != [] && !q[0].waiting { FirstMarks(q[1..]); }
  }

  // ----- what steps do to the parts ------------------------------------------------------

  lemma OwnedKept(m: Monitor, a: Act)
    requires Inv(m) && Can(m, a)
    ensures Owned(Do(m, a).co, Do(m, a).phase)
  {
  }

  /** A participant enters a wait. */
  lemma QueuedWait(phase: seq<Phase>, q: seq<Waiter>, t: nat, since: nat, timed: bool)
    requires Queued(phase, q) && t < |phase| && !InWait(phase[t])
    ensures Queued(phase[t := Waiting(since, timed)], q + [Waiter(t, true, false, since)])
  {
    var p, r, w0 := phase[t := Waiting(since, timed)], q + [Waiter(t, true, false, since)], Waiter(t, true, false, since);
    assert w0 in r;
    forall s | 0 <= s < |p| && InWait(p[s]) ensures exists w :: w in r && w.waiting && w.id == s {
      if s != t {
        var w :| w in q && w.waiting && w.id == s;
        assert w in r;
      }
    }
  }

  /** A participant leaves a wait, or gets the lock otherwise. */
  lemma QueuedGrant(m: Monitor, t: nat)
    requires Queued(m.phase, m.queue) && t < |m.phase|
    ensures Queued(m.phase[t := Inside], Granted(m, t))
  {
    var p, r := m.phase[t := Inside], Granted(m, t);
    forall w ensures w in r <==> w in m.queue && w.id != t { GrantedHas(m, t, w); }
    forall s | 0 <= s < |p| && InWait(p[s]) ensures exists w :: w in r && w.waiting && w.id == s {
      var w :| w in m.queue && w.waiting && w.id == s;
      assert w in r;
    }
  }

  /** Entries of lock seekers and other changes outside waits do not matter. */
  lemma QueuedSeek(phase: seq<Phase>, p: seq<Phase>, q: seq<Waiter>, r: seq<Waiter>)
    requires Queued(phase, q) && |p| == |phase|
    requires forall s :: 0 <= s < |p| ==> (InWait(p[s]) <==> InWait(phase[s])) && (InWait(p[s]) ==> p[s].since == phase[s].since)
    requires forall w: Waiter :: w.waiting ==> (w in r <==> w in q)
    ensures Queued(p, r)
  {
    forall s | 0 <= s < |p| && InWait(p[s]) ensures exists w :: w in r && w.waiting && w.id == s {
      var w :| w in q && w.waiting && w.id == s;
      assert w in r;
    }
  }

  lemma QueuedMark(phase: seq<Phase>, q: seq<Waiter>, r: seq<Waiter>)
    requires Queued(phase, q) && |r| == |q| && forall k :: 0 <= k < |q| ==> r[k] == q[k] || r[k] == Marked(q[k])
    ensures Queued(phase, r)
  {
    forall w | w in r && w.waiting ensures w.id < |phase| && InWait(phase[w.id]) && phase[w.id].since == w.since {
      var k :| 0 <= k < |r| && r[k] == w;
      assert q[k] in q && q[k].waiting && q[k].id == w.id;
    }
    forall s | 0 <= s < |phase| && InWait(phase[s]) ensures exists w :: w in r && w.waiting && w.id == s {
      var w :| w in q && w.waiting && w.id == s;
      var k :| 0 <= k < |q| && q[k] == w;
      assert r[k] in r;
    }
  }

  lemma QueuedKept(m: Monitor, a: Act)
    requires Inv(m) && Can(m, a)
    ensures Queued(Do(m, a).phase, Do(m, a).queue)
  {
    var n, t := Do(m, a), a.t;
    match a
    case Wait(_, timed) => QueuedWait(m.phase, m.queue, t, |m.log|, timed);
    case Signal(_) => FirstMarks(m.queue); QueuedMark(m.phase, m.queue, n.queue);
    case Broadcast(_) => QueuedMark(m.phase, m.queue, n.queue);
    case Retry(_) => if m.co.Nobody? { QueuedGrant(m, t); }
    case Wake(_, _) =>
      if m.co.Nobody? { QueuedGrant(m, t); } else { QueuedSeek(m.phase, n.phase, m.queue, n.queue); }
    case _ => QueuedSeek(m.phase, n.phase, m.queue, n.queue);
  }

  lemma LogGrows(log: seq<Act>, a: Act, since: nat)
    ensures SignalAfter(log, since) ==> SignalAfter(log + [a], since)
    ensures since < |log| && Signals(a) ==> SignalAfter(log + [a], since)
    ensures BroadcastAfter(log + [a], since) ==> BroadcastAfter(log, since) || a.Broadcast?
  {
    var l := log + [a];
    if SignalAfter(log, since) {
      var k :| since < k < |log| && Signals(log[k]);
      assert Signals(l[k]);
    }
    if since < |log| && Signals(a) { assert Signals(l[|log|]); }
    if BroadcastAfter(l, since) {
      var k :| since < k < |l| && l[k].Broadcast?;
      if k < |log| { assert log[k].Broadcast?; }
    }
  }

  /** What Justified asks of one entry. */
  ghost predicate Fair(w: Waiter, log: seq<Act>) {
    w.waiting ==> w.since < |log| && (w.event ==> SignalAfter(log, w.since)) && (BroadcastAfter(log, w.since) ==> w.event)
  }

  lemma FairKept(w: Waiter, log: seq<Act>, a: Act)
    requires Fair(w, log)
    ensures !a.Broadcast? ==> Fair(w, log + [a])
    ensures Signals(a) ==> Fair(Marked(w), log + [a])
  {
    LogGrows(log, a, w.since);
  }

  lemma FairNew(t: nat, log: seq<Act>, a: Act)
    requires !a.Broadcast?
    ensures Fair(Waiter(t, true, false, |log|), log + [a])
  {
  }

  lemma JustifiedQueue(phase: seq<Phase>, q: seq<Waiter>, log: seq<Act>)
    requires forall w :: w in q ==> Fair(w, log)
    requires forall t :: 0 <= t < |phase| && phase[t].Relocking? && (phase[t].signalled || !phase[t].timed) ==>
               SignalAfter(log, phase[t].since)
    ensures Justified(phase, q, log)
  {
  }

  lemma QueueFair(m: Monitor, a: Act, w: Waiter)
    requires Inv(m) && Can(m, a) && w in Do(m, a).queue
    ensures Fair(w, m.log + [a])
  {
    var q, n := m.queue, Do(m, a).queue;
    if w in q {
      assert Fair(w, m.log);
      if !a.Broadcast? { FairKept(w, m.log, a); }
    }
    match a
    case Signal(_) =>
      FirstMarks(q);
      var k :| 0 <= k < |n| && n[k] == w;
      assert q[k] in q && Fair(q[k], m.log);
      FairKept(q[k], m.log, a);
    case Broadcast(_) =>
      var k :| 0 <= k < |n| && n[k] == w;
      assert q[k] in q && Fair(q[k], m.log);
      FairKept(q[k], m.log, a);
    case Wait(t, _) => FairNew(t, m.log, a);
    case Retry(t) => GrantedHas(m, t, w);
    case Wake(t, _) => GrantedHas(m, t, w);
    case _ =>
  }

  /** Whoever leaves the wait loop untimed, or says that it was signalled, was. */
  lemma LeavesSignalled(m: Monitor, a: Act, t: nat)
    requires Inv(m) && Can(m, a) && t < |m.phase|
    requires var p := Do(m, a).phase[t]; p.Relocking? && (p.signalled || !p.timed)
    ensures SignalAfter(m.log + [a], Do(m, a).phase[t].since)
  {
    var p := Do(m, a).phase[t];
    if p == m.phase[t] {
      LogGrows(m.log, a, p.since);
    } else {
      assert a.Wake? && a.t == t && Signalled(m, t);
      var w :| w in m.queue && w.id == t && w.waiting && w.event;
      LogGrows(m.log, a, w.since);
    }
  }

  lemma JustifiedKept(m: Monitor, a: Act)
    requires Inv(m) && Can(m, a)
    ensures Justified(Do(m, a).phase, Do(m, a).queue, Do(m, a).log)
  {
    var n := Do(m, a);
    forall w | w in n.queue ensures Fair(w, n.log) { QueueFair(m, a, w); }
    forall t | 0 <= t < |n.phase| && n.phase[t].Relocking? && (n.phase[t].signalled || !n.phase[t].timed)
      ensures SignalAfter(n.log, n.phase[t].since)
    {
      LeavesSignalled(m, a, t);
    }
    JustifiedQueue(n.phase, n.queue, n.log);
  }

  lemma ActKeeps(m: Monitor, a: Act)
    requires Inv(m) && Can(m, a)
    ensures Inv(Do(m, a)) && Do(m, a).log == m.log + [a]
  {
    OwnedKept(m, a);
    QueuedKept(m, a);
    JustifiedKept(m, a);
  }

  lemma {:induction false} RunKeeps(m: Monitor, acts: seq<Act>)
    requires Inv(m) && IsRun(m, acts)
    ensures Inv(After(m, acts)) && After(m, acts).log == m.log + acts
    decreases |acts|
  {
    if acts != [] {
      ActKeeps(m, acts[0]);
      RunKeeps(Do(m, acts[0]), acts[1..]);
      assert m.log + [acts[0]] + acts[1..] == m.log + acts;
    }
  }

  // ----- theorems ------------------------------------------------------------------------

  lemma Reached(coroutine: seq<bool>, acts: seq<Act>)
    requires IsRun(Init(coroutine), acts)
    ensures Inv(After(Init(coroutine), acts)) && After(Init(coroutine), acts).log == acts
  {
    RunKeeps(Init(coroutine), acts);
    assert [] + acts == acts;
  }

  /** Never two participants hold the lock. */
  lemma MutualExclusion(coroutine: seq<bool>, acts: seq<Act>, s: nat, t: nat)
    requires IsRun(Init(coroutine), acts)
    requires var m := After(Init(coroutine), acts); s < |m.phase| && t < |m.phase| && m.phase[s].Inside? && m.phase[t].Inside?
    ensures s == t
  {
    Reached(coroutine, acts);
  }

  /** A wait returns only to the owner of the lock; and if it has no time limit, only after
      somebody signalled or broadcast after the waiter was queued.  Such steps are open to the
      owner of the lock only. */
  lemma WaitReturnsSignalled(coroutine: seq<bool>, acts: seq<Act>, a: Act)
    requires IsRun(Init(coroutine), acts) && Can(After(Init(coroutine), acts), a)
    requires var m := After(Init(coroutine), acts); InWait(m.phase[a.t]) && !InWait(Do(m, a).phase[a.t])
    ensures Do(After(Init(coroutine), acts), a).co == Held(a.t)
    ensures !After(Init(coroutine), acts).phase[a.t].timed ==> SignalAfter(acts, After(Init(coroutine), acts).phase[a.t].since)
  {
    var m := After(Init(coroutine), acts);
    Reached(coroutine, acts);
    if a.Wake? && !m.phase[a.t].timed {
      var w :| w in m.queue && w.id == a.t && w.waiting && w.event;
    }
  }

  /** No wake-up is lost: whoever has been waiting since before a broadcast is marked, so that
      its wait loop ends the next time it runs. */
  lemma BroadcastReachesAll(coroutine: seq<bool>, acts: seq<Act>, t: nat, expired: bool)
    requires IsRun(Init(coroutine), acts)
    requires var m := After(Init(coroutine), acts);
             t < |m.phase| && m.phase[t].Waiting? && BroadcastAfter(acts, m.phase[t].since)
    ensures var m := After(Init(coroutine), acts);
            Signalled(m, t) && Can(m, Wake(t, expired)) && !Do(m, Wake(t, expired)).phase[t].Waiting?
  {
    var m := After(Init(coroutine), acts);
    Reached(coroutine, acts);
    var w :| w in m.queue && w.waiting && w.id == t;
    assert w.event;
  }

  /** Signals come from the owner. */
  lemma {:induction false} SignalsByOwner(m: Monitor, acts: seq<Act>, k: nat)
    requires IsRun(m, acts) && k < |acts| && Signals(acts[k])
    ensures IsRun(m, acts[..k]) && After(m, acts[..k]).co == Held(acts[k].t)
    decreases k
  {
    if k > 0 {
      assert acts[..k][0] == acts[0] && acts[..k][1..] == acts[1..][..k - 1];
      SignalsByOwner(Do(m, acts[0]), acts[1..], k - 1);
    } else {
      assert acts[..0] == [];
    }
  }
}
