/** Visiting the elements of a fixed list by repeatedly picking the one with the next larger
    key, as the record and hint iterators of src/dns/dns.c do. */
module NextInOrder {

  ghost predicate AllDifferent(keys: seq<int>) {
    forall i, j :: 0 <= i < j < |keys| ==> keys[i] != keys[j]
  }

  /** p is the position of the least key for which above holds, or |keys| if there is none. */
  ghost predicate IsLeast(keys: seq<int>, above: int -> bool, p: nat) {
    p <= |keys| &&
    (p == |keys| ==> forall i :: 0 <= i < |keys| ==> !above(keys[i])) &&
    (p < |keys| ==> above(keys[p]) && forall i :: 0 <= i < |keys| && above(keys[i]) ==> keys[p] <= keys[i])
  }

  /** All that stands before j has been looked at, and best is the least so far. */
  function Scan(keys: seq<int>, above: int -> bool, j: nat, best: nat): nat
    requires j <= |keys| && best <= |keys|
    decreases |keys| - j
  {
    if j == |keys| then best
    else if above(keys[j]) && (best == |keys| || keys[j] < keys[best]) then Scan(keys, above, j + 1, j)
    else Scan(keys, above, j + 1, best)
  }

  ghost predicate LeastBefore(keys: seq<int>, above: int -> bool, j: nat, best: nat) {
    j <= |keys| && best <= |keys| &&
    (best == |keys| ==> forall i :: 0 <= i < j ==> !above(keys[i])) &&
    (best < |keys| ==> above(keys[best]) && forall i :: 0 <= i < j && above(keys[i]) ==> keys[best] <= keys[i])
  }

  lemma {:induction false} ScanIsLeast(keys: seq<int>, above: int -> bool, j: nat, best: nat)
    requires LeastBefore(keys, above, j, best)
    ensures IsLeast(keys, above, Scan(keys, above, j, best))
    decreases |keys| - j
  {
    if j < |keys| {
      ScanIsLeast(keys, above, j + 1, if above(keys[j]) && (best == |keys| || keys[j] < keys[best]) then j else best);
    }
  }

  function First(keys: seq<int>): nat { Scan(keys, _ => true, 0, |keys|) }

  function Next(keys: seq<int>, p: nat): nat
    requires p < |keys|
  {
    Scan(keys, k => k > keys[p], 0, |keys|)
  }

  lemma FirstIs(keys: seq<int>)
    ensures IsLeast(keys, _ => true, First(keys))
  {
    ScanIsLeast(keys, _ => true, 0, |keys|);
  }

  lemma NextIs(keys: seq<int>, p: nat)
    requires p < |keys|
    ensures IsLeast(keys, k => k > keys[p], Next(keys, p))
  {
    ScanIsLeast(keys, k => k > keys[p], 0, |keys|);
  }

  // ----- the walk ------------------------------------------------------------------------

  /** How many keys exceed x. */
  function Above(keys: seq<int>, x: int): nat {
    if keys == [] then 0 else (if keys[0] > x then 1 else 0) + Above(keys[1..], x)
  }

  lemma {:induction false} AboveShrinks(keys: seq<int>, x: int, y: int)
    requires x < y
    ensures Above(keys, y) <= Above(keys, x)
    ensures y in keys ==> Above(keys, y) < Above(keys, x)
    decreases |keys|
  {
    if keys != [] { AboveShrinks(keys[1..], x, y); }
  }

  lemma NextDecreases(keys: seq<int>, p: nat)
    requires p < |keys| && Next(keys, p) < |keys|
    ensures keys[Next(keys, p)] > keys[p] && Above(keys, keys[Next(keys, p)]) < Above(keys, keys[p])
  {
    NextIs(keys, p);
    AboveShrinks(keys, keys[p], keys[Next(keys, p)]);
  }

  /** The positions visited from p on, until the iteration stops at |keys|. */
  ghost function Walk(keys: seq<int>, p: nat): seq<nat>
    decreases if p < |keys| then 1 + Above(keys, keys[p]) else 0
  {
    if p >= |keys| then []
    else
      var n := Next(keys, p);
      assert n < |keys| ==> Above(keys, keys[n]) < Above(keys, keys[p]) by { if n < |keys| { NextDecreases(keys, p); } }
      [p] + Walk(keys, n)
  }

  /** Every position whose key is at least that of p is visited from p on, and keys increase. */
  lemma {:induction false} WalkFrom(keys: seq<int>, p: nat)
    requires AllDifferent(keys)
    ensures forall i :: 0 <= i < |Walk(keys, p)| ==> Walk(keys, p)[i] < |keys|
    ensures forall i, j :: 0 <= i < j < |Walk(keys, p)| ==> keys[Walk(keys, p)[i]] < keys[Walk(keys, p)[j]]
    ensures p < |keys| ==> Walk(keys, p) != [] && Walk(keys, p)[0] == p
    ensures p < |keys| ==> forall q: nat :: q < |keys| && keys[q] >= keys[p] ==> q in Walk(keys, p)
    decreases if p < |keys| then 1 + Above(keys, keys[p]) else 0
  {
    if p < |keys| {
      var n := Next(keys, p);
      NextIs(keys, p);
      if n < |keys| { NextDecreases(keys, p); }
      WalkFrom(keys, n);
      var w, v := Walk(keys, p), Walk(keys, n);
      assert w == [p] + v;
      forall q: nat | q < |keys| && keys[q] >= keys[p] ensures q in w {
        if keys[q] > keys[p] {
          assert q in v;
        } else {
          assert q == p;
        }
      }
      FirstOfWalk(keys, p, n, w, v);
    }
  }

  lemma FirstOfWalk(keys: seq<int>, p: nat, n: nat, w: seq<nat>, v: seq<nat>)
    requires p < |keys| && w == [p] + v
    requires forall i :: 0 <= i < |v| ==> v[i] < |keys|
    requires forall i, j :: 0 <= i < j < |v| ==> keys[v[i]] < keys[v[j]]
    requires v != [] ==> v[0] == n && n < |keys| && keys[p] < keys[n]
    ensures forall i, j :: 0 <= i < j < |w| ==> keys[w[i]] < keys[w[j]]
  {
    forall i, j | 0 <= i < j < |w| ensures keys[w[i]] < keys[w[j]] {
      assert w[j] == v[j - 1];
      if i > 0 {
        assert w[i] == v[i - 1];
      } else if j > 1 {
        assert keys[v[0]] < keys[v[j - 1]];
      }
    }
  }

  /** Every element is visited exactly once, in increasing order of the keys. */
  ghost predicate Exact(keys: seq<int>, w: seq<nat>) {
    (forall i :: 0 <= i < |w| ==> w[i] < |keys|) &&
    (forall i, j :: 0 <= i < j < |w| ==> w[i] != w[j] && keys[w[i]] < keys[w[j]]) &&
    (forall q: nat :: q < |keys| ==> q in w)
  }

  /** The whole iteration is exact. */
  lemma WalkIsExact(keys: seq<int>)
    requires AllDifferent(keys)
    ensures Exact(keys, Walk(keys, First(keys)))
  {
    FirstIs(keys);
    WalkFrom(keys, First(keys));
  }
}
