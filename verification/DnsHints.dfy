/** Iterating over the addresses of a zone: dns_hints_i_start and dns_hints_i_skip
    (src/dns/dns.c:5802-5850). */
module DnsHints {
  import opened NextInOrder
  import opened DnsShuffle

  /** Priority first, then the shuffled index; rank is dns_k_shuffle16 for the iterator's seed. */
  function Key(priorities: seq<nat>, rank: Short -> int, a: nat): int
    requires a < |priorities| <= 65536
  {
    65536 * priorities[a] + rank(a)
  }

  function Keys(priorities: seq<nat>, rank: Short -> int): seq<int>
    requires |priorities| <= 65536
  {
    seq(|priorities|, a requires 0 <= a < |priorities| => Key(priorities, rank, a))
  }

  lemma KeyOrder(priorities: seq<nat>, rank: Short -> int, a: nat, b: nat)
    requires Ranks(rank) && a < |priorities| <= 65536 && b < |priorities|
    ensures Key(priorities, rank, a) < Key(priorities, rank, b) <==>
            priorities[a] < priorities[b] || (priorities[a] == priorities[b] && rank(a) < rank(b))
    ensures a != b ==> Key(priorities, rank, a) != Key(priorities, rank, b)
  {
  }

  /** Priorities whose differences fit an int. */
  ghost predicate Small(priorities: seq<nat>) { forall a :: 0 <= a < |priorities| ==> priorities[a] < 0x8000_0000 }

  /** dns_hints_i_cmp */
  method Compare(priorities: seq<nat>, rank: Short -> int, a: nat, b: nat) returns (cmp: int)
    requires Ranks(rank) && Small(priorities) && a < |priorities| <= 65536 && b < |priorities|
    ensures cmp < 0 <==> Keys(priorities, rank)[a] < Keys(priorities, rank)[b]
    ensures cmp > 0 <==> Keys(priorities, rank)[a] > Keys(priorities, rank)[b]
  {
    KeyOrder(priorities, rank, a, b);
    KeyOrder(priorities, rank, b, a);
    cmp := priorities[a] as int - priorities[b] as int;
    if cmp == 0 { cmp := rank(a) - rank(b); }
  }

  lemma KeysDiffer(priorities: seq<nat>, rank: Short -> int)
    requires Ranks(rank) && |priorities| <= 65536
    ensures AllDifferent(Keys(priorities, rank))
  {
    var keys := Keys(priorities, rank);
    forall a, b | 0 <= a < b < |keys| ensures keys[a] != keys[b] {
      KeyOrder(priorities, rank, a, b);
    }
  }

  /** dns_hints_i_start */
  method Start(priorities: seq<nat>, rank: Short -> int) returns (p0: nat)
    requires Ranks(rank) && Small(priorities) && |priorities| <= 65536
    ensures priorities != [] ==> p0 == First(Keys(priorities, rank))
    ensures priorities == [] ==> p0 == 0
  {
    p0 := 0;
    ghost var keys := Keys(priorities, rank);
    var p := 1;
    while p < |priorities|
      invariant p0 <= |keys| && (keys != [] ==> p <= |keys| && p0 < p)
      invariant forall i :: 0 <= i < p && i < |keys| ==> keys[p0] <= keys[i]
    {
      var c := Compare(priorities, rank, p, p0);
      if c < 0 { p0 := p; }
      p := p + 1;
    }
    if keys != [] {
      FirstIs(keys);
      KeysDiffer(priorities, rank);
    }
  }

  /** dns_hints_i_skip */
  method Skip(p0: nat, priorities: seq<nat>, rank: Short -> int) returns (z: nat)
    requires Ranks(rank) && Small(priorities) && p0 < |priorities| <= 65536
    ensures z == Next(Keys(priorities, rank), p0)
  {
    ghost var keys := Keys(priorities, rank);
    NextIs(keys, p0);
    KeysDiffer(priorities, rank);
    z := 0;
    while z < |priorities|
      invariant z <= |priorities|
      invariant forall i :: 0 <= i < z ==> keys[i] <= keys[p0]
    {
      var c := Compare(priorities, rank, z, p0);
      if c > 0 { break; }
      z := z + 1;
    }
    if z == |priorities| { return; }
    var p := z + 1;
    while p < |priorities|
      invariant z < p <= |priorities| && keys[z] > keys[p0]
      invariant forall i :: 0 <= i < p && keys[i] > keys[p0] ==> keys[z] <= keys[i]
    {
      var c := Compare(priorities, rank, p, p0);
      if c > 0 {
        var e := Compare(priorities, rank, p, z);
        if e < 0 { z := p; }
      }
      p := p + 1;
    }
  }

  /** dns_hints_grep until it has no more: every address is visited exactly once, no address
      before one of smaller priority, and then the iteration stops, for every zone and seed. */
  method VisitAll(priorities: seq<nat>, seed: seq<bv8>) returns (visited: seq<nat>)
    requires Small(priorities) && |priorities| <= 65536
    ensures forall i :: 0 <= i < |visited| ==> visited[i] < |priorities|
    ensures forall i, j :: 0 <= i < j < |visited| ==>
              visited[i] != visited[j] && priorities[visited[i]] <= priorities[visited[j]]
    ensures forall q: nat :: q < |priorities| ==> q in visited
  {
    var rank := Ranking(seed);
    RankingRanks(seed);
    visited := Visit(priorities, rank);
    KeysDiffer(priorities, rank);
    WalkIsExact(Keys(priorities, rank));
    ByPriority(priorities, rank, visited);
  }

  /** The loop over dns_hints_i_start and dns_hints_i_skip */
  method Visit(priorities: seq<nat>, rank: Short -> int) returns (visited: seq<nat>)
    requires Ranks(rank) && Small(priorities) && |priorities| <= 65536
    ensures visited == Walk(Keys(priorities, rank), First(Keys(priorities, rank)))
  {
    ghost var keys := Keys(priorities, rank);
    ghost var all := Walk(keys, First(keys));
    var p: nat := Start(priorities, rank);
    ghost var rest := Walk(keys, p);
    visited := [];
    while p < |priorities|
      invariant rest == Walk(keys, p) && visited + rest == all
      decreases |rest|
    {
      WalkStep(keys, p, all, visited, rest);
      visited := visited + [p];
      p := Skip(p, priorities, rank);
      rest := rest[1..];
    }
  }

  lemma WalkStep(keys: seq<int>, p: nat, all: seq<nat>, visited: seq<nat>, rest: seq<nat>)
    requires p < |keys| && rest == Walk(keys, p) && visited + rest == all
    ensures rest != [] && rest[1..] == Walk(keys, Next(keys, p)) && visited + [p] + rest[1..] == all
  {
  }

  lemma ByPriority(priorities: seq<nat>, rank: Short -> int, w: seq<nat>)
    requires Ranks(rank) && |priorities| <= 65536 && Exact(Keys(priorities, rank), w)
    ensures forall i :: 0 <= i < |w| ==> w[i] < |priorities|
    ensures forall i, j :: 0 <= i < j < |w| ==> w[i] != w[j] && priorities[w[i]] <= priorities[w[j]]
    ensures forall q: nat :: q < |priorities| ==> q in w
  {
    forall i, j | 0 <= i < j < |w| ensures priorities[w[i]] <= priorities[w[j]] {
      KeyOrder(priorities, rank, w[i], w[j]);
    }
  }
}
