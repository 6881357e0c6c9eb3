/** Whom the steps of the monitor wake, and what they leave alone. */
module CothreadWakeups {
  import opened CothreadMonitor

  // ----- signal --------------------------------------------------------------------------

  /** k is the first entry of the queue that waits. */
  predicate IsFirst(q: seq<Waiter>, k: nat) {
    k < |q| && q[k].waiting && forall j :: 0 <= j < k ==> !q[j].waiting
  }

  lemma {:induction false} FirstIsMarked(q: seq<Waiter>, k: nat)
    requires IsFirst(q, k)
    ensures MarkFirst(q) == q[k := q[k].(event := true)]
    decreases k
  {
    if k > 0 {
      FirstIsMarked(q[1..], k - 1);
      assert [q[0]] + q[1..][k - 1 := q[k].(event := true)] == q[k := q[k].(event := true)];
    } else {
      assert [Marked(q[0])] + q[1..] == q[0 := Marked(q[0])];
    }
  }

  lemma {:induction false} NoneIsMarked(q: seq<Waiter>)
    requires forall j :: 0 <= j < |q| ==> !q[j].waiting
    ensures MarkFirst(q) == q
    decreases |q|
  {
    if q != [] { NoneIsMarked(q[1..]); }
  }

  /** A signal marks the first entry that waits and changes nothing else; if that participant is in
      its wait loop, it leaves the loop the next time it runs, timed or not. */
  lemma SignalWakesFirst(coroutine: seq<bool>, acts: seq<Act>, t: nat, k: nat, expired: bool)
    requires IsRun(Init(coroutine), acts) && Can(After(Init(coroutine), acts), Signal(t))
    requires IsFirst(After(Init(coroutine), acts).queue, k)
    ensures var m := After(Init(coroutine), acts);
            var w, n := m.queue[k], Do(m, Signal(t));
            n.queue == m.queue[k := w.(event := true)] && n.phase == m.phase && n.co == m.co && n.coroutine == m.coroutine &&
            w.id < |n.phase| && (n.phase[w.id].Waiting? ==> Left(n, w.id, expired))
  {
    var m := After(Init(coroutine), acts);
    Reached(coroutine, acts);
    FirstIsMarked(m.queue, k);
    var n := Do(m, Signal(t));
    assert m.queue[k] in m.queue && n.queue[k] in n.queue;
    if n.phase[m.queue[k].id].Waiting? {
      assert Signalled(n, m.queue[k].id);
    }
  }

  /** Running its wait loop, t gets out of it: inside if the lock is free, otherwise to wait for the
      lock, and then it says that it was signalled. */
  ghost predicate Left(n: Monitor, t: nat, expired: bool) {
    Can(n, Wake(t, expired)) &&
    var p := Do(n, Wake(t, expired)).phase[t];
    if n.co.Nobody? then p == Inside && Do(n, Wake(t, expired)).co == Held(t) else p.Relocking? && p.signalled
  }

  /** With nobody waiting a signal changes nothing. */
  lemma SignalWakesNobody(m: Monitor, t: nat)
    requires Can(m, Signal(t)) && forall j :: 0 <= j < |m.queue| ==> !m.queue[j].waiting
    ensures Do(m, Signal(t)) == m.(log := m.log + [Signal(t)])
  {
    NoneIsMarked(m.queue);
  }

  // ----- the order of the queue ----------------------------------------------------------

  /** Entries that wait stand in the order in which their waits began. */
  ghost predicate Oldest(q: seq<Waiter>) {
    forall i, j :: 0 <= i < j < |q| && q[i].waiting && q[j].waiting ==> q[i].since < q[j].since
  }

  /** The entries that are not t's, in their order. */
  ghost function Others(q: seq<Waiter>, t: nat): seq<Waiter> {
    if q == [] then []
    else
      var front, last := Others(q[..|q| - 1], t), q[|q| - 1];
      if last.id == t then front else front + [last]
  }

  lemma {:induction false} OthersFirst(q: seq<Waiter>, t: nat)
    requires q != []
    ensures Others(q, t) == (if q[0].id == t then [] else [q[0]]) + Others(q[1..], t)
    decreases |q|
  {
    var front := q[..|q| - 1];
    if front != [] {
      OthersFirst(front, t);
      assert q[1..][..|q| - 2] == front[1..] && q[1..][|q| - 2] == q[|q| - 1];
    } else {
      assert q[1..] == [];
    }
  }

  lemma {:induction false} GrantedIsOthers(q: seq<Waiter>, t: nat)
    ensures Without(Without(q, t, false), t, true) == Others(q, t)
    decreases |q|
  {
    if q != [] {
      OthersFirst(q, t);
      GrantedIsOthers(q[1..], t);
      if q[0].id != t { assert Without(q, t, false)[1..] == Without(q[1..], t, false); }
      if q[0].id == t && q[0].waiting { assert Without(q, t, false)[1..] == Without(q[1..], t, false); }
    }
  }

  lemma {:induction false} OthersOldest(q: seq<Waiter>, t: nat)
    requires Oldest(q)
    ensures Oldest(Others(q, t)) && forall w :: w in Others(q, t) ==> w in q
    decreases |q|
  {
    if q != [] {
      var n := |q| - 1;
      var front := Others(q[..n], t);
      OthersOldest(q[..n], t);
      forall i | 0 <= i < |front| && front[i].waiting && q[n].waiting ensures front[i].since < q[n].since {
        assert front[i] in q[..n];
        var j :| 0 <= j < n && q[..n][j] == front[i];
        assert q[j] == front[i];
      }
    }
  }

  lemma OldestKept(m: Monitor, a: Act)
    requires Inv(m) && Can(m, a) && Oldest(m.queue)
    ensures Oldest(Do(m, a).queue)
  {
    var q := m.queue;
    if a.Signal? {
      FirstMarks(q);
    } else if a.Retry? || a.Wake? {
      GrantedIsOthers(q, a.t);
      OthersOldest(q, a.t);
    } else if a.Wait? {
      forall i | 0 <= i < |q| && q[i].waiting ensures q[i].since < |m.log| { assert q[i] in q; }
    }
  }

  lemma {:induction false} RunOldest(m: Monitor, acts: seq<Act>)
    requires Inv(m) && IsRun(m, acts) && Oldest(m.queue)
    ensures Oldest(After(m, acts).queue)
    decreases |acts|
  {
    if acts != [] {
      ActKeeps(m, acts[0]);
      OldestKept(m, acts[0]);
      RunOldest(Do(m, acts[0]), acts[1..]);
    }
  }

  /** In every run the first entry that waits is the one that has waited longest. */
  lemma FirstIsOldest(coroutine: seq<bool>, acts: seq<Act>, k: nat, j: nat)
    requires IsRun(Init(coroutine), acts)
    requires var q := After(Init(coroutine), acts).queue; IsFirst(q, k) && j < |q| && q[j].waiting
    ensures var q := After(Init(coroutine), acts).queue; q[k].since <= q[j].since
  {
    RunOldest(Init(coroutine), acts);
  }

  // ----- lock and unlock -----------------------------------------------------------------

  /** Giving up the lock, by unlocking or by waiting, lets in whoever asks next: one that has found
      it taken before, or a newcomer.  Then none of its entries is left, and those of the others are
      untouched. */
  lemma ReleaseLetsIn(m: Monitor, a: Act, s: nat)
    requires Inv(m) && Can(m, a) && (a.Unlock? || a.Wait?) && s < |m.phase| && s != a.t
    ensures Do(m, a).co == Nobody && !Do(m, a).phase[a.t].Inside?
    ensures m.phase[s].Outside? ==> LetIn(Do(m, a), Lock(s), Do(m, a).queue)
    ensures m.phase[s].Locking? || m.phase[s].Relocking? ==> LetIn(Do(m, a), Retry(s), Others(Do(m, a).queue, s))
  {
    GrantedIsOthers(Do(m, a).queue, s);
  }

  ghost predicate LetIn(n: Monitor, a: Act, q: seq<Waiter>) {
    Can(n, a) && Do(n, a).co == Held(a.t) && Do(n, a).phase == n.phase[a.t := Inside] && Do(n, a).queue == q
  }

  /** While the lock is held nobody else gets it: whoever asks goes on waiting for it. */
  lemma HeldKeepsOut(m: Monitor, a: Act)
    requires Inv(m) && Can(m, a) && m.co.Held? && (a.Lock? || a.Retry? || a.Wake?)
    ensures Do(m, a).co == m.co && !Do(m, a).phase[a.t].Inside?
    ensures forall s :: 0 <= s < |m.phase| && s != a.t ==> Do(m, a).phase[s] == m.phase[s]
    ensures a.Lock? ==> Do(m, a).phase[a.t] == Locking
    ensures Do(m, a).queue == m.queue || (m.coroutine[a.t] && Do(m, a).queue == m.queue + [Waiter(a.t, false, false, 0)])
    ensures a.Lock? && m.coroutine[a.t] ==> Do(m, a).queue != m.queue
  {
  }

  /** A wait is queued behind all others, unmarked, and stays as it is until it is marked or its time
      is up. */
  lemma WaitStays(m: Monitor, t: nat, timed: bool, expired: bool)
    requires Inv(m) && Can(m, Wait(t, timed)) && !(timed && expired)
    ensures var n := Do(m, Wait(t, timed));
            n.queue == m.queue + [Waiter(t, true, false, |m.log|)] && n.phase == m.phase[t := Waiting(|m.log|, timed)] &&
            Can(n, Wake(t, expired)) && Do(n, Wake(t, expired)) == n.(log := n.log + [Wake(t, expired)])
  {
    var n := Do(m, Wait(t, timed));
    assert forall w :: w in m.queue && w.waiting ==> w.id != t;
    assert !Signalled(n, t);
  }

  /** A timed wait ends when its time is up, and says that it was not signalled. */
  lemma TimeIsUp(m: Monitor, t: nat)
    requires Inv(m) && Can(m, Wake(t, true)) && m.phase[t].timed && !Signalled(m, t)
    ensures var p := Do(m, Wake(t, true)).phase[t];
            if m.co.Nobody? then p == Inside else p == Relocking(m.phase[t].since, true, false)
  {
  }
}
