/** walk_waiters_list and add_signaled (src/cothread/co-scheduler.c:588-684): which coroutines the
    scheduler resumes next, or how long it may sleep. */
module CothreadReadyScan {

  datatype Co = NoCo | Co(id: nat)

  /** struct io_waiter; events, mask and revents are sets of event bits, yielding and wakeup the flags
      CO_YIELD and MTX_WAKEUP_EVENT, a negative tmo means no time limit */
  datatype Waiter = Waiter(co: Co, yielding: bool, wakeup: bool, events: set<nat>, mask: set<nat>, revents: set<nat>, tmo: int)

  const INT_MAX: int := 0x7fff_ffff

  /** An event, a wake-up or an expired time limit */
  predicate Ready(w: Waiter, ct: int) {
    w.co.Co? && !w.yielding && (w.events * w.mask != {} || w.wakeup || (w.tmo > 0 && ct >= w.tmo))
  }

  /** A time limit still ahead */
  predicate Pending(w: Waiter, ct: int) { w.co.Co? && !w.yielding && !Ready(w, ct) && w.tmo > 0 }

  predicate Yielded(w: Waiter) { w.co.Co? && w.yielding }

  /** No event and a time limit of zero, on which the source exits */
  predicate Broken(w: Waiter) { w.co.Co? && !w.yielding && w.events * w.mask == {} && !w.wakeup && w.tmo == 0 }

  /** A waiter after the walk has passed it */
  function Passed(w: Waiter, ct: int): Waiter {
    if Yielded(w) then w.(yielding := false)
    else if Ready(w, ct) then w.(revents := w.events, events := w.events - w.mask)
    else w
  }

  /** The sleeping time s after w is passed: none after a yield, otherwise up to the nearest time
      limit */
  function Shorter(w: Waiter, ct: int, s: int): int {
    if Yielded(w) then 0 else if Pending(w, ct) && w.tmo - ct < s then w.tmo - ct else s
  }

  /** The time the scheduler may sleep if nothing is ready */
  function Sleep(ws: seq<Waiter>, ct: int): int {
    if ws == [] then INT_MAX else Shorter(ws[|ws| - 1], ct, Sleep(ws[..|ws| - 1], ct))
  }

  /** The coroutines to resume after w is passed */
  function Added(w: Waiter, ct: int, cc: seq<nat>): seq<nat> {
    if Ready(w, ct) && w.co.id !in cc then cc + [w.co.id] else cc
  }

  /** cc holds, once each, coroutines of ready waiters among the first k. */
  ghost predicate Collected(ws: seq<Waiter>, ct: int, cc: seq<nat>) {
    (forall i, j :: 0 <= i < j < |cc| ==> cc[i] != cc[j]) &&
    forall i :: 0 <= i < |cc| ==> exists k :: 0 <= k < |ws| && Ready(ws[k], ct) && ws[k].co == Co(cc[i])
  }

  ghost predicate Complete(ws: seq<Waiter>, ct: int, cc: seq<nat>) {
    forall k :: 0 <= k < |ws| && Ready(ws[k], ct) ==> ws[k].co.id in cc
  }

  function Members(cc: seq<nat>): set<nat> { set x | x in cc }

  class Core {
    var marks: set<nat>        // coroutines whose scheduler data is set

    /** add_signaled, apart from the waiter's own fields */
    method AddSignaled(id: nat, cc: seq<nat>) returns (r: seq<nat>)
      requires marks == Members(cc)
      modifies this
      ensures marks == Members(r)
      ensures r == if id in cc then cc else cc + [id]
    {
      r := cc;
      if id !in marks {
        marks := marks + {id};
        r := cc + [id];
        assert Members(r) == Members(cc) + {id};
      }
    }

    /** One round of the loop for a waiter it does not give up on */
    method Pass(w: Waiter, ct: int, cc: seq<nat>, wtmo: int) returns (w': Waiter, cc': seq<nat>, wtmo': int)
      requires marks == Members(cc) && !Broken(w)
      modifies this
      ensures marks == Members(cc')
      ensures w' == Passed(w, ct) && cc' == Added(w, ct, cc) && wtmo' == Shorter(w, ct, wtmo)
    {
      w', cc', wtmo' := w, cc, wtmo;
      if w.co.Co? {
        if w.yielding {
          w', wtmo' := w.(yielding := false), 0;
        } else if w.events * w.mask != {} || w.wakeup || (w.tmo > 0 && ct >= w.tmo) {
          w' := w.(revents := w.events, events := w.events - w.mask);
          cc' := AddSignaled(w.co.id, cc);
        } else if w.tmo > 0 && w.tmo - ct < wtmo {
          wtmo' := w.tmo - ct;
        }
      }
    }

    method ClearMarks(cc: seq<nat>)
      requires marks == Members(cc) && forall i, j :: 0 <= i < j < |cc| ==> cc[i] != cc[j]
      modifies this
      ensures marks == {}
    {
      assert cc[0..] == cc;
      var i := 0;
      while i < |cc|
        invariant 0 <= i <= |cc| && marks == Members(cc[i..])
      {
        assert cc[i..] == [cc[i]] + cc[i + 1..];
        assert Members(cc[i + 1..]) == Members(cc[i..]) - {cc[i]};
        marks := marks - {cc[i]};
        i := i + 1;
      }
    }

    /** walk_waiters_list; not ok where the source exits, at the first waiter that has neither an
        event nor a time to wait for.  n waiters are passed. */
    method WalkWaitersList(ws: array<Waiter>, ct: int, ccmax: nat) returns (ok: bool, cc: seq<nat>, wtmo: int, ghost n: nat)
      requires marks == {} && ccmax > 0
      modifies this, ws
      ensures n <= ws.Length && |cc| <= ccmax
      ensures forall k :: 0 <= k < n ==> !Broken(old(ws[k]))
      ensures !ok ==> n < ws.Length && |cc| < ccmax && Broken(old(ws[n]))
      ensures ok && |cc| < ccmax ==> n == ws.Length
      ensures Collected(old(ws[..]), ct, cc) && Complete(old(ws[..n]), ct, cc)
      ensures ok ==> marks == {} && wtmo == Sleep(old(ws[..n]), ct)
      ensures forall k :: 0 <= k < ws.Length ==> ws[k] == if k < n then Passed(old(ws[k]), ct) else old(ws[k])
    {
      ghost var was := ws[..];
      ok, cc, wtmo := true, [], INT_MAX;
      var k := 0;
      while k < ws.Length && |cc| < ccmax && ok
        invariant 0 <= k <= ws.Length && |cc| <= ccmax && marks == Members(cc)
        invariant Upto(was, ws[..], ct, k, cc) && wtmo == Sleep(was[..k], ct)
        invariant !ok ==> k < ws.Length && |cc| < ccmax && Broken(was[k])
        decreases ok, ws.Length - k
      {
        if Broken(ws[k]) {
          ok := false;
        } else {
          ghost var now := ws[..];
          StepPasses(was, now, ct, cc, k);
          var w, cc', wtmo' := Pass(ws[k], ct, cc, wtmo);
          ws[k] := w;
          assert ws[..] == now[k := w];
          cc, wtmo, k := cc', wtmo', k + 1;
        }
      }
      n := k;
      if ok { ClearMarks(cc); }
    }
  }

  /** Where the walk stands when it has passed k waiters. */
  ghost predicate Upto(was: seq<Waiter>, now: seq<Waiter>, ct: int, k: nat, cc: seq<nat>)
    requires k <= |was|
  {
    |now| == |was| && Collected(was, ct, cc) && Complete(was[..k], ct, cc) &&
    forall j :: 0 <= j < |was| ==> now[j] == (if j < k then Passed(was[j], ct) else was[j]) && (j < k ==> !Broken(was[j]))
  }

  lemma StepPasses(was: seq<Waiter>, now: seq<Waiter>, ct: int, cc: seq<nat>, k: nat)
    requires k < |was| && Upto(was, now, ct, k, cc) && !Broken(now[k])
    ensures now[k] == was[k] && Sleep(was[..k + 1], ct) == Shorter(was[k], ct, Sleep(was[..k], ct))
    ensures Upto(was, now[k := Passed(was[k], ct)], ct, k + 1, Added(was[k], ct, cc))
  {
    var w := was[..k + 1];
    assert w[..k] == was[..k];
    forall j | 0 <= j < k && Ready(w[j], ct) ensures w[j].co.id in cc { assert was[..k][j] == w[j]; }
  }

  /** The sleeping time is 0 exactly if somebody yielded, and otherwise the least of all remaining
      times. */
  lemma {:induction false} SleepIsLeast(ws: seq<Waiter>, ct: int)
    ensures (exists k :: 0 <= k < |ws| && Yielded(ws[k])) <==> Sleep(ws, ct) == 0
    ensures Sleep(ws, ct) <= INT_MAX
    ensures (forall k :: 0 <= k < |ws| ==> !Yielded(ws[k])) ==>
              (forall k :: 0 <= k < |ws| && Pending(ws[k], ct) ==> Sleep(ws, ct) <= ws[k].tmo - ct) &&
              (Sleep(ws, ct) == INT_MAX || exists k :: 0 <= k < |ws| && Pending(ws[k], ct) && Sleep(ws, ct) == ws[k].tmo - ct)
    decreases |ws|
  {
    if ws != [] {
      var n := |ws| - 1;
      var v := ws[..n];
      SleepIsLeast(v, ct);
      assert forall k :: 0 <= k < n ==> v[k] == ws[k];
      SleepPositive(v, ct);
      assert Yielded(ws[n]) || ((exists k :: 0 <= k < n && Yielded(v[k])) <==> Sleep(v, ct) == 0);
    }
  }

  lemma {:induction false} SleepPositive(ws: seq<Waiter>, ct: int)
    ensures Sleep(ws, ct) >= 0
    decreases |ws|
  {
    if ws != [] { SleepPositive(ws[..|ws| - 1], ct); }
  }

  /** What passing a waiter does to it: a yield is over; a ready waiter is told all its events, and
      keeps those it did not ask for; nothing else is changed. */
  lemma PassedIs(w: Waiter, ct: int)
    ensures var p := Passed(w, ct);
            p.co == w.co && p.tmo == w.tmo && p.mask == w.mask && p.wakeup == w.wakeup &&
            (p.yielding <==> w.yielding && w.co.NoCo?) &&
            (if Ready(w, ct) then p.revents == w.events else p.revents == w.revents) &&
            forall x :: x in p.events <==> x in w.events && !(Ready(w, ct) && x in w.mask)
  {
  }

  /** An event is reported once: a waiter that was served is ready again only for a wake-up or because
      its time is up.  A yield only puts off: what was ready then is ready the next time. */
  lemma ReportedOnce(w: Waiter, ct: int, later: int)
    ensures Ready(w, ct) ==> (Ready(Passed(w, ct), later) <==> w.wakeup || (w.tmo > 0 && later >= w.tmo))
    ensures Yielded(w) ==> (Ready(Passed(w, ct), later) <==> w.events * w.mask != {} || w.wakeup || (w.tmo > 0 && later >= w.tmo))
  {
    var p := Passed(w, ct);
    if Ready(w, ct) { assert p.events * p.mask == {}; }
  }
}
