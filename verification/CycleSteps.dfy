/** Walking through a cyclic enumeration and keeping the values below a bound: what the retry
    loop of dns_k_permutor_step produces. */
module CycleSteps {

  type Cycle = nat -> nat

  /** n consecutive values of e are 0, ..., n - 1 in some order, over and over. */
  ghost predicate Enumerates(e: Cycle, n: nat) {
    && n > 0
    && (forall t: nat :: e(t) < n)
    && (forall t: nat, u: nat :: t < u < t + n ==> e(t) != e(u))
    && (forall s: nat, y: nat :: y < n ==> Hits(e, n, s, y))
  }

  ghost predicate Hits(e: Cycle, n: nat, s: nat, y: nat) {
    exists t: nat :: s <= t < s + n && e(t) == y
  }

  /** The first of the counter values t, ..., t + k - 1 with a value below `length`. */
  ghost function NextHit(e: Cycle, length: nat, t: nat, k: nat): (h: nat)
    ensures t <= h <= t + k
    decreases k
  {
    if k == 0 || e(t) < length then t else NextHit(e, length, t + 1, k - 1)
  }

  lemma {:induction false} NextHitIs(e: Cycle, length: nat, t: nat, k: nat)
    ensures NextHit(e, length, t, k) < t + k ==> e(NextHit(e, length, t, k)) < length
    ensures forall u: nat :: t <= u < NextHit(e, length, t, k) ==> e(u) >= length
    decreases k
  {
    if k > 0 && e(t) >= length {
      NextHitIs(e, length, t + 1, k - 1);
    }
  }

  /** The first k results from counter value s on. */
  ghost function Take(e: Cycle, n: nat, length: nat, s: nat, k: nat): (rs: seq<nat>)
    ensures |rs| == k
    decreases k
  {
    if k == 0 then [] else
    var h := NextHit(e, length, s, n);
    [e(h)] + Take(e, n, length, h + 1, k - 1)
  }

  /** A hit does not depend on how far the search may go. */
  lemma {:induction false} HitIsFirst(e: Cycle, length: nat, t: nat, k: nat, h: nat)
    requires t <= h < t + k && e(h) < length && forall u: nat :: t <= u < h ==> e(u) >= length
    ensures NextHit(e, length, t, k) == h
    decreases k
  {
    if t < h { HitIsFirst(e, length, t + 1, k - 1, h); }
  }

  lemma HitExists(e: Cycle, n: nat, length: nat, t: nat)
    requires Enumerates(e, n) && 1 <= length <= n
    ensures NextHit(e, length, t, n) < t + n
  {
    assert Hits(e, n, t, 0);
    var u: nat :| t <= u < t + n && e(u) == 0;
    NextHitIs(e, length, t, n);
  }

  /** The hits among counter values s, ..., s + k - 1. */
  ghost function Window(e: Cycle, length: nat, s: nat, k: nat): seq<nat>
    decreases k
  {
    if k == 0 then []
    else if e(s) < length then [e(s)] + Window(e, length, s + 1, k - 1)
    else Window(e, length, s + 1, k - 1)
  }

  lemma {:induction false} TakeIsWindow(e: Cycle, n: nat, length: nat, s: nat, k: nat)
    requires Enumerates(e, n) && 1 <= length <= n
    ensures Take(e, n, length, s, |Window(e, length, s, k)|) == Window(e, length, s, k)
    decreases k
  {
    if k > 0 {
      TakeIsWindow(e, n, length, s + 1, k - 1);
      if e(s) < length {
        assert NextHit(e, length, s, n) == s;
      } else {
        SkipMiss(e, n, length, s, |Window(e, length, s, k)|);
      }
    }
  }

  lemma SkipMiss(e: Cycle, n: nat, length: nat, s: nat, k: nat)
    requires Enumerates(e, n) && 1 <= length <= n && e(s) >= length
    ensures Take(e, n, length, s, k) == Take(e, n, length, s + 1, k)
  {
    if k > 0 {
      HitExists(e, n, length, s);
      var h := NextHit(e, length, s, n);
      NextHitIs(e, length, s, n);
      HitIsFirst(e, length, s + 1, n, h);
    }
  }

  lemma {:induction false} WindowHas(e: Cycle, length: nat, s: nat, k: nat, t: nat)
    requires s <= t < s + k && e(t) < length
    ensures e(t) in Window(e, length, s, k)
    decreases k
  {
    if t != s { WindowHas(e, length, s + 1, k - 1, t); }
  }

  lemma {:induction false} WindowFrom(e: Cycle, length: nat, s: nat, k: nat, i: nat) returns (t: nat)
    requires i < |Window(e, length, s, k)|
    ensures s <= t < s + k && e(t) == Window(e, length, s, k)[i] < length
    decreases k
  {
    if e(s) < length {
      if i == 0 { t := s; } else { t := WindowFrom(e, length, s + 1, k - 1, i - 1); }
    } else {
      t := WindowFrom(e, length, s + 1, k - 1, i);
    }
  }

  ghost predicate NoRepeats(xs: seq<nat>) {
    forall i, j :: 0 <= i < j < |xs| ==> xs[i] != xs[j]
  }

  lemma {:induction false} WindowNoRepeats(e: Cycle, n: nat, length: nat, s: nat, k: nat)
    requires Enumerates(e, n) && k <= n
    ensures NoRepeats(Window(e, length, s, k))
    decreases k
  {
    if k > 0 {
      WindowNoRepeats(e, n, length, s + 1, k - 1);
      var w := Window(e, length, s + 1, k - 1);
      forall i | 0 <= i < |w| ensures w[i] != e(s) {
        var t := WindowFrom(e, length, s + 1, k - 1, i);
      }
    }
  }

  function Below(n: nat): (r: set<nat>)
    ensures |r| == n && forall x: nat :: x in r <==> x < n
  {
    if n == 0 then {} else Below(n - 1) + {n - 1}
  }

  ghost function Elements(xs: seq<nat>): set<nat> { set x | x in xs }

  lemma {:induction false} SizeOfNoRepeats(xs: seq<nat>)
    requires NoRepeats(xs)
    ensures |Elements(xs)| == |xs|
  {
    if xs == [] {
      assert Elements(xs) == {};
    } else {
      var ys, z := xs[..|xs| - 1], xs[|xs| - 1];
      SizeOfNoRepeats(ys);
      assert z !in Elements(ys);
      assert Elements(xs) == Elements(ys) + {z};
    }
  }

  /** From any counter value, `length` consecutive results are pairwise different and are
      exactly the numbers below `length`. */
  lemma TakeIsPermutation(e: Cycle, n: nat, length: nat, s: nat)
    requires Enumerates(e, n) && 1 <= length <= n
    ensures NoRepeats(Take(e, n, length, s, length))
    ensures forall y: nat :: y in Take(e, n, length, s, length) <==> y < length
  {
    var w := Window(e, length, s, n);
    WindowNoRepeats(e, n, length, s, n);
    forall y: nat | y < length ensures y in w {
      assert Hits(e, n, s, y);
      var t: nat :| s <= t < s + n && e(t) == y;
      WindowHas(e, length, s, n, t);
    }
    forall i | 0 <= i < |w| ensures w[i] < length {
      var t := WindowFrom(e, length, s, n, i);
    }
    SizeOfNoRepeats(w);
    assert Elements(w) == Below(length);
    TakeIsWindow(e, n, length, s, n);
  }

  ghost predicate SamePlace(e: Cycle, t: nat, d: nat) { e(t + d) == e(t) }

  ghost predicate Period(e: Cycle, d: nat) { forall t: nat :: SamePlace(e, t, d) }

  /** Results do not change when the counter moves by a period. */
  lemma {:induction false} TakeShifted(e: Cycle, n: nat, length: nat, s: nat, d: nat, k: nat)
    requires Period(e, d)
    ensures Take(e, n, length, s + d, k) == Take(e, n, length, s, k)
    decreases k
  {
    if k > 0 {
      var h := NextHit(e, length, s, n);
      HitShifted(e, length, s, d, n);
      TakeShifted(e, n, length, h + 1, d, k - 1);
      assert SamePlace(e, h, d);
      BothStepOn(e, n, length, s, s + d, k, h, h + d);
    }
  }

  /** Two counter values with the same next hit and the same results after it. */
  lemma BothStepOn(e: Cycle, n: nat, length: nat, s: nat, s': nat, k: nat, h: nat, h': nat)
    requires k > 0 && h == NextHit(e, length, s, n) && h' == NextHit(e, length, s', n)
    requires e(h') == e(h) && Take(e, n, length, h' + 1, k - 1) == Take(e, n, length, h + 1, k - 1)
    ensures Take(e, n, length, s', k) == Take(e, n, length, s, k)
  {
  }

  lemma {:induction false} HitShifted(e: Cycle, length: nat, s: nat, d: nat, k: nat)
    requires Period(e, d)
    ensures NextHit(e, length, s + d, k) == NextHit(e, length, s, k) + d
    decreases k
  {
    assert SamePlace(e, s, d);
    if k > 0 && e(s) >= length { HitShifted(e, length, s + 1, d, k - 1); }
  }
}
