/** struct dns_k_permutor as an object: the loops of src/dns/dns.c:534-628, proved against the
    permutation of module DnsPermutor. */
module DnsQueryIds {
  import opened Bits
  import opened CycleSteps
  import opened DnsPermutor

  /** dns_k_permutor_powof: the least exponent whose power of two reaches n.  Beyond 2^31 the
      32-bit loop variable of the source would wrap. */
  method PowOf(n: nat) returns (i: nat)
    requires n <= 0x8000_0000
    ensures n <= Pow2(i) && (i > 0 ==> Pow2(i - 1) < n) && i <= 31
  {
    var m := 1;
    i := 0;
    while m < n
      invariant m == Pow2(i) && i <= 31
      invariant i > 0 ==> Pow2(i - 1) < n
      decreases 2 * n - m
    {
      if i == 31 {
        Pow2Values();
        assert false;
      }
      m, i := 2 * m, i + 1;
    }
  }

  /** the two halves of a block */
  function Upper(p: Params, n: nat): (l: nat) ensures l < Pow2(p.shift) { Mask(Shr(n, p.shift), p.shift) }

  function Lower(p: Params, n: nat): (r: nat) ensures r < Pow2(p.shift) { Mask(n, p.shift) }

  /** the block put together again; the halves are masked once more, which changes nothing */
  function Masked(p: Params, l: nat, r: nat): (c: nat)
    requires l < Pow2(p.shift) && r < Pow2(p.shift)
    ensures c == Cat(l, r, p.shift)
  {
    MaskSmall(l, p.shift);
    MaskSmall(r, p.shift);
    Cat(Mask(l, p.shift), Mask(r, p.shift), p.shift)
  }

  /** increment of a 32-bit counter */
  function Inc(s: nat): (t: nat)
    requires s < U32
    ensures t < U32 && t == (s + 1) % U32
  {
    if s + 1 == U32 then 0 else s + 1
  }

  lemma ParamsValid(q: Params, width: nat, even: nat)
    requires 1 <= q.length <= 0x8000_0000 && q.length <= q.limit + 1 <= U32 && q.length <= Pow2(width) && width <= 31
    requires even == width + width % 2 && q.shift == even / 2 && q.rounds == ROUNDS
    ensures q.Valid()
  {
    assert q.shift + q.shift == even && q.shift <= 16;
    Pow2Mono(width, q.shift + q.shift);
  }

  class Permutor {
    var stepi: nat
    const p: Params
    ghost const e: Cycle

    ghost predicate Valid()
      reads this
    {
      p.Valid() && stepi < U32 && Ciphers(p, e)
    }

    /** dns_k_permutor_init for the range low, ..., high */
    constructor (low: nat, high: nat, key: Tea)
      requires low <= high < U32 && high - low < 0x8000_0000 && key.cycles == TEA_CYCLES
      ensures Valid() && stepi == 0 && p.length == high - low + 1 && p.limit == high
    {
      var length := high - low + 1;
      var width := PowOf(length);
      var even := width + width % 2;
      var q := Params(length, high, even / 2, ROUNDS, key);
      ParamsValid(q, width, even);
      CipherCiphers(q);
      p := q;
      e := Cipher(q);
      stepi := 0;
    }

    /** dns_k_permutor_E: the halves alternate between the two cells of l and of r. */
    method Encrypt(n: nat) returns (c: nat)
      requires Valid()
      ensures c == E(p, n)
    {
      var l, r := new nat[2], new nat[2];
      var i := 0;
      var a, b := Upper(p, n), Lower(p, n);
      l[i % 2], r[i % 2] := a, b;
      ghost var lr := Enc(p, i, a, b);
      var more := true;
      while more
        invariant i < p.rounds && l[i % 2] < Pow2(p.shift) && r[i % 2] < Pow2(p.shift)
        invariant more <==> i == 0 || i < p.rounds - 1
        invariant Enc(p, i, l[i % 2], r[i % 2]) == lr
        decreases p.rounds - i, more
      {
        a, b := l[i % 2], r[i % 2];
        EncRound(p, i, a, b);
        l[(i + 1) % 2] := b;
        r[(i + 1) % 2] := Xor(a, F(p, i, b));
        i := i + 1;
        more := i < p.rounds - 1;
      }
      c := Masked(p, l[i % 2], r[i % 2]);
    }

    /** dns_k_permutor_D */
    method Decrypt(n: nat) returns (c: nat)
      requires Valid()
      ensures c == D(p, n)
    {
      var l, r := new nat[2], new nat[2];
      var i := p.rounds - 1;
      var a, b := Upper(p, n), Lower(p, n);
      l[i % 2], r[i % 2] := a, b;
      ghost var lr := Dec(p, i, a, b);
      while i > 0
        invariant 0 <= i < p.rounds && l[i % 2] < Pow2(p.shift) && r[i % 2] < Pow2(p.shift)
        invariant Dec(p, i, l[i % 2], r[i % 2]) == lr
      {
        i := i - 1;
        a, b := l[(i + 1) % 2], r[(i + 1) % 2];
        DecRound(p, i, a, b);
        r[i % 2] := a;
        l[i % 2] := Xor(b, F(p, i, a));
      }
      c := Masked(p, l[i % 2], r[i % 2]);
    }

    /** dns_k_permutor_step: retries until the cipher text lies in the range.  The retries end
        at the next hit, and the counter is left just behind it. */
    method Step() returns (id: nat)
      requires Valid()
      modifies this
      ensures Valid()
      ensures id == e(Hit(p, e, old(stepi))) + (p.limit + 1 - p.length)
      ensures stepi == (Hit(p, e, old(stepi)) + 1) % U32
    {
      ghost var h := Hit(p, e, stepi);
      HitFacts(p, e, stepi);
      var n := Seek(h);
      FollowsMod(stepi, h + 1);
      id := n + (p.limit + 1 - p.length);
    }

    /** one encryption, told only by its place in the cycle */
    method Text(n: nat) returns (c: nat)
      requires Valid()
      ensures c == e(n)
    {
      c := Encrypt(n);
    }

    /** the retry loop, which ends at counter value h */
    method Seek(ghost h: nat) returns (n: nat)
      requires Valid() && Period(e, U32) && h == Hit(p, e, stepi) && stepi <= h < stepi + U32 && e(h) < p.length
      modifies this
      ensures Valid() && n == e(h) && Follows(stepi, h + 1)
    {
      ghost var s, t := stepi, stepi;
      n := Text(stepi);
      stepi := Inc(stepi);
      while n >= p.length
        invariant stepi < U32 && Follows(stepi, t + 1) && s <= t <= h < s + U32 && s < U32 && n == e(t)
        decreases h - t
      {
        assert SamePlace(e, stepi, U32);
        n := Text(stepi);
        t := t + 1;
        stepi := Inc(stepi);
      }
      HitIs(p, e, s, t);
    }
  }

  /** The counter value at which the next result is found. */
  ghost function Hit(p: Params, e: Cycle, s: nat): nat {
    NextHit(e, p.length, s, p.Size())
  }

  lemma HitFacts(p: Params, e: Cycle, s: nat)
    requires p.Valid() && Ciphers(p, e)
    ensures s <= Hit(p, e, s) < s + U32 && e(Hit(p, e, s)) < p.length && Period(e, U32)
  {
    CipherEnumerates(p, e);
    CipherPeriod(p, e);
    HitExists(e, p.Size(), p.length, s);
    NextHitIs(e, p.length, s, p.Size());
    Pow2Mono(p.shift + p.shift, 32);
    Pow2Values();
  }

  lemma HitIs(p: Params, e: Cycle, s: nat, t: nat)
    requires s <= t <= Hit(p, e, s) && e(t) < p.length
    ensures Hit(p, e, s) == t
  {
    NextHitIs(e, p.length, s, p.Size());
  }

  /** The first k results of Step from counter value s on, relative to the lower end of the
      range. */
  ghost function Results(p: Params, e: Cycle, s: nat, k: nat): (rs: seq<nat>)
    ensures |rs| == k
  {
    Take(e, p.Size(), p.length, s, k)
  }

  /** One call of Step yields the next element of the result sequence: the results to come are
      those that were to come before, less the one returned. */
  lemma StepTakesNext(p: Params, e: Cycle, s: nat, k: nat)
    requires p.Valid() && Ciphers(p, e) && s < U32
    ensures Results(p, e, s, k + 1) == [e(Hit(p, e, s))] + Results(p, e, (Hit(p, e, s) + 1) % U32, k)
  {
    HitFacts(p, e, s);
    var u := Hit(p, e, s) + 1;
    if u >= U32 { TakeShifted(e, p.Size(), p.length, u - U32, U32, k); }
    FollowsMod(if u >= U32 then u - U32 else u, u);
  }

  /** Query ids: from any counter value on, `length` consecutive results are pairwise different
      and are exactly the numbers 0, ..., length - 1. */
  lemma ResultsArePermutation(p: Params, e: Cycle, s: nat)
    requires p.Valid() && Ciphers(p, e)
    ensures NoRepeats(Results(p, e, s, p.length))
    ensures forall y: nat :: y in Results(p, e, s, p.length) <==> y < p.length
  {
    CipherEnumerates(p, e);
    TakeIsPermutation(e, p.Size(), p.length, s);
  }

  /** One call of Step, told by the results to come. */
  method Draw(q: Permutor, ghost k: nat) returns (id: nat, ghost rel: nat)
    requires q.Valid()
    modifies q
    ensures q.Valid() && id == rel + (q.p.limit + 1 - q.p.length)
    ensures Results(q.p, q.e, old(q.stepi), k + 1) == [rel] + Results(q.p, q.e, q.stepi, k)
  {
    StepTakesNext(q.p, q.e, q.stepi, k);
    rel := q.e(Hit(q.p, q.e, q.stepi));
    id := q.Step();
  }

  /** ids are the numbers of rel, counted from low. */
  ghost predicate Raised(ids: seq<nat>, rel: seq<nat>, low: nat) {
    |ids| == |rel| && forall i :: 0 <= i < |ids| ==> ids[i] == rel[i] + low
  }

  /** length calls of Step, from whatever the counter is: the ids are pairwise different and are
      exactly those of the range. */
  method DrawAll(q: Permutor) returns (ids: seq<nat>)
    requires q.Valid()
    modifies q
    ensures q.Valid() && |ids| == q.p.length && NoRepeats(ids)
    ensures forall y: nat :: y in ids <==> q.p.limit + 1 - q.p.length <= y <= q.p.limit
  {
    ghost var all := Results(q.p, q.e, q.stepi, q.p.length);
    ResultsArePermutation(q.p, q.e, q.stepi);
    ghost var rel: seq<nat> := [];
    var left: nat := q.p.length;
    ids := [];
    while left > 0
      invariant q.Valid() && left + |ids| == q.p.length && Raised(ids, rel, q.p.limit + 1 - q.p.length)
      invariant all == rel + Results(q.p, q.e, q.stepi, left)
    {
      ghost var rest := Results(q.p, q.e, q.stepi, left);
      left := left - 1;
      var id, r := Draw(q, left);
      DrawnStep(all, rel, rest, r, Results(q.p, q.e, q.stepi, left));
      ids, rel := ids + [id], rel + [r];
    }
    assert all == rel;
    RaisedPermutation(ids, rel, q.p.limit + 1 - q.p.length, q.p.length);
  }

  lemma DrawnStep(all: seq<nat>, rel: seq<nat>, rest: seq<nat>, r: nat, rest': seq<nat>)
    requires all == rel + rest && rest == [r] + rest'
    ensures all == rel + [r] + rest'
  {
  }

  lemma RaisedPermutation(ids: seq<nat>, rel: seq<nat>, low: nat, n: nat)
    requires Raised(ids, rel, low) && NoRepeats(rel) && forall y: nat :: y in rel <==> y < n
    ensures NoRepeats(ids) && forall y: nat :: y in ids <==> low <= y < low + n
  {
    forall y: nat | y in ids ensures low <= y < low + n {
      var i :| 0 <= i < |ids| && ids[i] == y;
      assert rel[i] in rel;
    }
    forall y: nat | low <= y < low + n ensures y in ids {
      assert y - low in rel;
      var i :| 0 <= i < |rel| && rel[i] == y - low;
      assert ids[i] == y;
    }
  }

  lemma EncRound(p: Params, i: nat, l: nat, r: nat)
    requires p.Valid() && i + 1 < p.rounds && l < Pow2(p.shift) && r < Pow2(p.shift)
    ensures r < U32 && Xor(l, F(p, i, r)) < Pow2(p.shift)
    ensures Enc(p, i, l, r) == Enc(p, i + 1, r, Xor(l, F(p, i, r)))
  {
    Fits(p, r);
    XorWidth(l, F(p, i, r), p.shift);
  }

  lemma DecRound(p: Params, i: nat, l: nat, r: nat)
    requires p.Valid() && i + 1 < p.rounds && l < Pow2(p.shift) && r < Pow2(p.shift)
    ensures l < U32 && Xor(r, F(p, i, l)) < Pow2(p.shift)
    ensures Dec(p, i + 1, l, r) == Dec(p, i, Xor(r, F(p, i, l)), l)
  {
    Fits(p, l);
    XorWidth(r, F(p, i, l), p.shift);
  }

  /** The 32-bit counter s has wrapped once or not at all since it would have been u. */
  ghost predicate Follows(s: nat, u: nat) { u == s || u == s + U32 }

  lemma FollowsMod(s: nat, u: nat)
    requires s < U32 && Follows(s, u)
    ensures u % U32 == s
  {
  }
}
