/** The record iterator of src/dns/dns.c:2754-2947.  A record matches if hit says so of its
    position; the order of iteration is that of the keys. */
module DnsRecords {
  import opened Basics
  import opened DnsPacket
  import opened NextInOrder
  import opened DnsShuffle

  /** The positions of all matching records from rp on, in packet order. */
  function Hits(d: Bytes, q: nat, hit: nat -> bool, rp: nat): seq<nat>
    requires rp <= |d|
    decreases |d| - rp
  {
    if rp == |d| then []
    else if hit(rp) then [rp] + Hits(d, q, hit, Skip(d, q, rp))
    else Hits(d, q, hit, Skip(d, q, rp))
  }

  ghost predicate Rising(s: seq<nat>, lo: nat, hi: nat) {
    (forall i :: 0 <= i < |s| ==> lo <= s[i] < hi) && forall i, j :: 0 <= i < j < |s| ==> s[i] < s[j]
  }

  lemma {:induction false} HitsRise(d: Bytes, q: nat, hit: nat -> bool, rp: nat)
    requires rp <= |d|
    ensures Rising(Hits(d, q, hit, rp), rp, |d|)
    ensures forall i :: 0 <= i < |Hits(d, q, hit, rp)| ==> hit(Hits(d, q, hit, rp)[i])
    decreases |d| - rp
  {
    if rp < |d| { HitsRise(d, q, hit, Skip(d, q, rp)); }
  }

  function Keys(hits: seq<nat>, key: nat -> int): seq<int> { seq(|hits|, i requires 0 <= i < |hits| => key(hits[i])) }

  // ----- the iterator --------------------------------------------------------------------

  class RecordIterator {
    const d: Bytes
    const q: nat
    const hit: nat -> bool
    const key: nat -> int
    const byOffset: bool          // sort == dns_rr_i_packet
    const base: nat               // where dns_rr_i_start begins
    var exec: bool                // state.exec
    var next: nat                 // state.next
    ghost var at: nat             // next is the position of this match

    ghost function All(): seq<nat>
      requires 12 <= |d|
    {
      Hits(d, q, hit, 12)
    }

    /** Nothing that matches lies before base, and keys are different. */
    ghost predicate Proper() {
      12 <= |d| && base <= |d| && Hits(d, q, hit, base) == All() && AllDifferent(Keys(All(), key)) &&
      (byOffset ==> forall i :: 0 <= i < |All()| ==> key(All()[i]) == All()[i])
    }

    ghost predicate Valid()
      reads this
    {
      Proper() && at <= |All()| && (exec ==> next == Place(All(), at, |d|))
    }

    /** What is still to come. */
    ghost function Remaining(): seq<nat>
      requires Valid()
      reads this
    {
      Rest(All(), key, if exec then at else First(Keys(All(), key)))
    }

    constructor (d: Bytes, q: nat, hit: nat -> bool, key: nat -> int, byOffset: bool, base: nat)
      requires 12 <= |d| && base <= |d| && Hits(d, q, hit, base) == Hits(d, q, hit, 12)
      requires AllDifferent(Keys(Hits(d, q, hit, 12), key))
      requires byOffset ==> forall i :: 0 <= i < |Hits(d, q, hit, 12)| ==> key(Hits(d, q, hit, 12)[i]) == Hits(d, q, hit, 12)[i]
      ensures Valid() && !exec && All() == Hits(d, q, hit, 12) && this.key == key && this.d == d
    {
      this.d, this.q, this.hit, this.key, this.byOffset, this.base := d, q, hit, key, byOffset, base;
      exec, next, at := false, 0, 0;
    }

    /** dns_rr_i_start */
    method Start() returns (r0: nat, ghost b: nat)
      requires Proper()
      ensures r0 == Place(All(), First(Keys(All(), key)), |d|)
      ensures b == First(Keys(All(), key)) && b <= |All()|
    {
      ghost var hits, keys := All(), Keys(All(), key);
      FirstIs(keys);
      var rp := base;
      while rp < |d| && !hit(rp)
        invariant base <= rp <= |d| && Hits(d, q, hit, rp) == hits
        decreases |d| - rp
      {
        rp := Skip(d, q, rp);
      }
      b := 0;
      if rp == |d| { return |d|, 0; }
      r0 := rp;
      if byOffset {
        HitsRise(d, q, hit, 12);
        return;
      }
      ghost var j := 1;
      assert hits[0] == rp;
      rp := Skip(d, q, rp);
      while rp < |d|
        invariant rp <= |d| && b < j <= |hits| && Hits(d, q, hit, rp) == hits[j..] && r0 == hits[b]
        invariant forall i :: 0 <= i < j ==> keys[b] <= keys[i]
        decreases |d| - rp
      {
        if hit(rp) {
          assert hits[j] == hits[j..][0] == rp && hits[j..][1..] == hits[j + 1..];
          if key(rp) < key(r0) { r0, b := rp, j; }
          j := j + 1;
        }
        rp := Skip(d, q, rp);
      }
    }

    /** The first loop of dns_rr_i_skip: the first match with a larger key */
    method FirstAbove(rp0: nat, ghost p: nat, from: nat, ghost k: nat) returns (rp: nat, ghost j: nat)
      requires 12 <= |d| && p < |All()| && rp0 == All()[p] && from <= |d| && k <= |All()| && Hits(d, q, hit, from) == All()[k..]
      requires forall i :: 0 <= i < k ==> key(All()[i]) <= key(rp0)
      ensures rp <= |d| && j <= |All()| && Hits(d, q, hit, rp) == All()[j..]
      ensures forall i :: 0 <= i < j ==> key(All()[i]) <= key(rp0)
      ensures rp == |d| ==> j == |All()|
      ensures rp < |d| ==> j < |All()| && hit(rp) && All()[j] == rp && key(rp) > key(rp0)
    {
      ghost var hits := All();
      rp, j := from, k;
      while rp < |d|
        invariant rp <= |d| && j <= |hits| && Hits(d, q, hit, rp) == hits[j..]
        invariant forall i :: 0 <= i < j ==> key(hits[i]) <= key(rp0)
        decreases |d| - rp
      {
        if hit(rp) {
          assert hits[j] == hits[j..][0] == rp && hits[j..][1..] == hits[j + 1..];
          if key(rp) > key(rp0) { return; }
          j := j + 1;
        }
        rp := Skip(d, q, rp);
      }
    }

    /** The second loop of dns_rr_i_skip: the least of the matches with a larger key */
    method LeastAbove(rp0: nat, ghost p: nat, from: nat, ghost k: nat) returns (r1: nat, ghost z: nat)
      requires 12 <= |d| && p < |All()| && rp0 == All()[p] && from < |d| && k < |All()| && Hits(d, q, hit, from) == All()[k..]
      requires hit(from) && All()[k] == from && key(from) > key(rp0) && forall i :: 0 <= i < k ==> key(All()[i]) <= key(rp0)
      ensures z < |All()| && r1 == All()[z] && key(r1) > key(rp0)
      ensures forall i :: 0 <= i < |All()| && key(All()[i]) > key(rp0) ==> key(r1) <= key(All()[i])
    {
      ghost var hits := All();
      ghost var j := k + 1;
      assert hits[k..][1..] == hits[k + 1..];
      r1, z := from, k;
      var rp := Skip(d, q, from);
      while rp < |d|
        invariant rp <= |d| && z < j <= |hits| && Hits(d, q, hit, rp) == hits[j..] && r1 == hits[z] && key(r1) > key(rp0)
        invariant forall i :: 0 <= i < j && key(hits[i]) > key(rp0) ==> key(r1) <= key(hits[i])
        decreases |d| - rp
      {
        if hit(rp) {
          assert hits[j] == hits[j..][0] == rp && hits[j..][1..] == hits[j + 1..];
          if key(rp) > key(rp0) && key(rp) < key(r1) { r1, z := rp, j; }
          j := j + 1;
        }
        rp := Skip(d, q, rp);
      }
    }

    /** dns_rr_i_skip */
    method SkipFrom(rp0: nat, ghost p: nat) returns (r1: nat, ghost z: nat)
      requires Proper() && p < |All()| && rp0 == All()[p]
      ensures r1 == Place(All(), Next(Keys(All(), key), p), |d|)
      ensures z == Next(Keys(All(), key), p) && z <= |All()|
    {
      ghost var hits, keys := All(), Keys(All(), key);
      HitsRise(d, q, hit, 12);
      HitsBehind(d, q, hit, 12, p);
      var rp;
      ghost var j;
      if byOffset {
        rp, j := FirstAbove(rp0, p, Skip(d, q, rp0), p + 1);
      } else {
        rp, j := FirstAbove(rp0, p, 12, 0);
      }
      if rp == |d| {
        LeastIsNext(hits, key, p, |hits|);
        return |d|, |hits|;
      }
      if byOffset {
        LeastIsNext(hits, key, p, j);
        return rp, j;
      }
      r1, z := LeastAbove(rp0, p, rp, j);
      LeastIsNext(hits, key, p, z);
    }

    /** dns_rr_grep: the next lim records of those that remain */
    method Grep(lim: nat) returns (out: seq<nat>)
      requires Valid()
      modifies this
      ensures Valid() && exec
      ensures out == Take(old(Remaining()), lim) && Remaining() == old(Remaining())[|out|..]
    {
      ghost var hits := All();
      HitsRise(d, q, hit, 12);
      if !exec {
        next, at := Start();
        exec := true;
      }
      out := [];
      ghost var all := Rest(hits, key, at);
      while |out| < lim && next < |d|
        invariant exec && |out| <= lim && at <= |hits| && next == Place(hits, at, |d|)
        invariant out + Rest(hits, key, at) == all
        decreases lim - |out|
      {
        RestStep(hits, key, at, out);
        out := out + [next];
        next, at := SkipFrom(next, at);
      }
      if next == |d| { RestDone(hits, key, at); }
      TakeIs(all, out, Rest(hits, key, at), lim);
    }
  }

  /** What the iteration visits from match p on. */
  ghost function Rest(hits: seq<nat>, key: nat -> int, p: nat): seq<nat> { Visited(hits, Walk(Keys(hits, key), p)) }

  lemma RestStep(hits: seq<nat>, key: nat -> int, p: nat, out: seq<nat>)
    requires p < |hits|
    ensures out + Rest(hits, key, p) == out + [hits[p]] + Rest(hits, key, Next(Keys(hits, key), p))
  {
    VisitStep(hits, Keys(hits, key), p);
  }

  lemma RestDone(hits: seq<nat>, key: nat -> int, p: nat)
    requires p >= |hits|
    ensures Rest(hits, key, p) == []
  {
  }

  lemma TakeIs(all: seq<nat>, out: seq<nat>, rest: seq<nat>, lim: nat)
    requires out + rest == all && |out| <= lim && (|out| == lim || rest == [])
    ensures out == Take(all, lim) && rest == all[|out|..]
  {
  }

  lemma LeastIsNext(hits: seq<nat>, key: nat -> int, p: nat, z: nat)
    requires AllDifferent(Keys(hits, key)) && p < |hits| && z <= |hits|
    requires z == |hits| ==> forall i :: 0 <= i < |hits| ==> key(hits[i]) <= key(hits[p])
    requires z < |hits| ==> key(hits[z]) > key(hits[p])
    requires z < |hits| ==>
               forall i :: 0 <= i < |hits| && key(hits[i]) > key(hits[p]) ==> key(hits[z]) <= key(hits[i])
    ensures z == Next(Keys(hits, key), p)
  {
    var keys := Keys(hits, key);
    NextIs(keys, p);
    var n := Next(keys, p);
    if z < |hits| {
      assert keys[z] > keys[p];
      assert n < |keys| && keys[n] == keys[z];
    }
  }

  function Place(hits: seq<nat>, p: nat, end: nat): nat { if p < |hits| then hits[p] else end }

  function Take(s: seq<nat>, n: nat): seq<nat> { if |s| <= n then s else s[..n] }

  /** The positions of the visited matches. */
  function Visited(hits: seq<nat>, w: seq<nat>): seq<nat> {
    seq(|w|, i requires 0 <= i < |w| => Place(hits, w[i], 0))
  }

  lemma VisitStep(hits: seq<nat>, keys: seq<int>, p: nat)
    requires |keys| == |hits| && p < |hits|
    ensures Visited(hits, Walk(keys, p)) == [hits[p]] + Visited(hits, Walk(keys, Next(keys, p)))
  {
  }

  /** Behind a match lie the matches after it. */
  lemma {:induction false} HitsBehind(d: Bytes, q: nat, hit: nat -> bool, rp: nat, p: nat)
    requires rp <= |d| && p < |Hits(d, q, hit, rp)|
    ensures Hits(d, q, hit, rp)[p] < |d|
    ensures Hits(d, q, hit, Skip(d, q, Hits(d, q, hit, rp)[p])) == Hits(d, q, hit, rp)[p + 1..]
    decreases |d| - rp
  {
    var next := Skip(d, q, rp);
    var hits := Hits(d, q, hit, rp);
    if hit(rp) {
      if p > 0 {
        HitsBehind(d, q, hit, next, p - 1);
        assert hits[p] == Hits(d, q, hit, next)[p - 1];
        assert hits[p + 1..] == Hits(d, q, hit, next)[p..];
      } else {
        assert hits[1..] == Hits(d, q, hit, next);
      }
    } else {
      HitsBehind(d, q, hit, next, p);
    }
  }
}
