/** The query-id generator of src/dns/dns.c: a Feistel network over TEA, stepped through its
    whole domain and filtered to the wanted range. */
module DnsPermutor {
  import opened Bits
  import opened CycleSteps

  const U32 := 0x1_0000_0000
  const TEA_MAGIC: bv32 := 0x9E3779B9
  const TEA_CYCLES := 32
  /** DNS_K_PERMUTOR_ROUNDS */
  const ROUNDS := 8

  /** struct dns_k_tea */
  datatype Tea = Tea(k0: bv32, k1: bv32, k2: bv32, k3: bv32, cycles: nat)

  /** dns_k_tea_encrypt: the first output word after the remaining cycles */
  function TeaWord(t: Tea, y: bv32, z: bv32, sum: bv32, cycles: nat): bv32
    decreases cycles
  {
    if cycles == 0 then y
    else
      var sum' := sum + TEA_MAGIC;
      var y' := y + (((z << 4) + t.k0) ^ (z + sum') ^ ((z >> 5) + t.k1));
      var z' := z + (((y' << 4) + t.k2) ^ (y' + sum') ^ ((y' >> 5) + t.k3));
      TeaWord(t, y', z', sum', cycles - 1)
  }

  /** The fixed part of struct dns_k_permutor.  Each half of a block has `shift` bits, and
      `mask` keeps `shift` bits. */
  datatype Params = Params(length: nat, limit: nat, shift: nat, rounds: nat, tea: Tea) {

    /** number of blocks the cipher permutes */
    function Size(): nat { Pow2(shift + shift) }

    ghost predicate Valid() {
      && 1 <= length <= 0x8000_0000 && length <= limit + 1 <= U32 && shift <= 16 && length <= Size()
      && 2 <= rounds < U32
    }
  }

  /** dns_k_permutor_F */
  function F(p: Params, k: nat, x: nat): (r: nat)
    requires k < U32 && x < U32
    ensures r < Pow2(p.shift)
  {
    Mask(TeaWord(p.tea, k as bv32, x as bv32, 0, p.tea.cycles) as nat, p.shift)
  }

  lemma Fits(p: Params, x: nat)
    requires p.Valid() && x < Pow2(p.shift)
    ensures x < 65536
  {
    Pow2Mono(p.shift, 16);
    Pow2Values();
  }

  // ----- the permutation and its inverse -------------------------------------------------

  /** Rounds i, ..., rounds - 2 of dns_k_permutor_E. */
  function Enc(p: Params, i: nat, l: nat, r: nat): (lr: (nat, nat))
    requires p.Valid() && i < p.rounds && l < Pow2(p.shift) && r < Pow2(p.shift)
    ensures lr.0 < Pow2(p.shift) && lr.1 < Pow2(p.shift)
    decreases p.rounds - i
  {
    if i == p.rounds - 1 then (l, r)
    else
      Fits(p, r);
      XorWidth(l, F(p, i, r), p.shift);
      Enc(p, i + 1, r, Xor(l, F(p, i, r)))
  }

  /** Rounds i-1, ..., 0 of dns_k_permutor_D. */
  function Dec(p: Params, i: nat, l: nat, r: nat): (lr: (nat, nat))
    requires p.Valid() && i < p.rounds && l < Pow2(p.shift) && r < Pow2(p.shift)
    ensures lr.0 < Pow2(p.shift) && lr.1 < Pow2(p.shift)
  {
    if i == 0 then (l, r)
    else
      Fits(p, l);
      XorWidth(r, F(p, i - 1, l), p.shift);
      Dec(p, i - 1, Xor(r, F(p, i - 1, l)), l)
  }

  lemma {:induction false} DecEnc(p: Params, i: nat, l: nat, r: nat)
    requires p.Valid() && i < p.rounds && l < Pow2(p.shift) && r < Pow2(p.shift)
    ensures var e := Enc(p, i, l, r); Dec(p, p.rounds - 1, e.0, e.1) == Dec(p, i, l, r)
    decreases p.rounds - i
  {
    if i < p.rounds - 1 {
      Fits(p, r);
      var f := F(p, i, r);
      XorWidth(l, f, p.shift);
      DecEnc(p, i + 1, r, Xor(l, f));
      XorTwice(l, f);
    }
  }

  lemma {:induction false} EncDec(p: Params, i: nat, l: nat, r: nat)
    requires p.Valid() && i < p.rounds && l < Pow2(p.shift) && r < Pow2(p.shift)
    ensures var d := Dec(p, i, l, r); Enc(p, 0, d.0, d.1) == Enc(p, i, l, r)
  {
    if i > 0 {
      Fits(p, l);
      var f := F(p, i - 1, l);
      XorWidth(r, f, p.shift);
      EncDec(p, i - 1, Xor(r, f), l);
      XorTwice(r, f);
    }
  }

  /** A block from its halves */
  function Block(p: Params, l: nat, r: nat): (c: nat)
    requires l < Pow2(p.shift) && r < Pow2(p.shift)
    ensures c < p.Size() && c == Cat(l, r, p.shift)
  {
    CatWidth(l, r, p.shift, p.shift);
    Cat(l, r, p.shift)
  }

  /** dns_k_permutor_E on any counter value */
  function E(p: Params, n: nat): (c: nat)
    requires p.Valid()
    ensures c < p.Size()
  {
    var lr := Enc(p, 0, Mask(Shr(n, p.shift), p.shift), Mask(n, p.shift));
    Block(p, lr.0, lr.1)
  }

  /** dns_k_permutor_D */
  function D(p: Params, n: nat): (c: nat)
    requires p.Valid()
    ensures c < p.Size()
  {
    var lr := Dec(p, p.rounds - 1, Mask(Shr(n, p.shift), p.shift), Mask(n, p.shift));
    Block(p, lr.0, lr.1)
  }

  /** The cipher on a block given by its halves. */
  lemma OnHalves(p: Params, l: nat, r: nat)
    requires p.Valid() && l < Pow2(p.shift) && r < Pow2(p.shift)
    ensures E(p, Cat(l, r, p.shift)) == Cat(Enc(p, 0, l, r).0, Enc(p, 0, l, r).1, p.shift)
    ensures D(p, Cat(l, r, p.shift)) == Cat(Dec(p, p.rounds - 1, l, r).0, Dec(p, p.rounds - 1, l, r).1, p.shift)
  {
    CatSplit(l, r, p.shift);
    MaskSmall(l, p.shift);
  }

  /** On its domain the cipher is a bijection: D undoes E, and E undoes D. */
  lemma Inverse(p: Params, n: nat)
    requires p.Valid() && n < p.Size()
    ensures D(p, E(p, n)) == n && E(p, D(p, n)) == n
  {
    ShrWidth(n, p.shift, p.shift);
    SplitCat(n, p.shift);
    InverseOnHalves(p, Shr(n, p.shift), Mask(n, p.shift));
  }

  lemma InverseOnHalves(p: Params, l: nat, r: nat)
    requires p.Valid() && l < Pow2(p.shift) && r < Pow2(p.shift)
    ensures D(p, E(p, Cat(l, r, p.shift))) == Cat(l, r, p.shift)
    ensures E(p, D(p, Cat(l, r, p.shift))) == Cat(l, r, p.shift)
  {
    DecryptsHalves(p, l, r);
    EncryptsHalves(p, l, r);
  }

  lemma DecryptsHalves(p: Params, l: nat, r: nat)
    requires p.Valid() && l < Pow2(p.shift) && r < Pow2(p.shift)
    ensures D(p, E(p, Cat(l, r, p.shift))) == Cat(l, r, p.shift)
  {
    OnHalves(p, l, r);
    var e := Enc(p, 0, l, r);
    OnHalves(p, e.0, e.1);
    DecEnc(p, 0, l, r);
  }

  lemma EncryptsHalves(p: Params, l: nat, r: nat)
    requires p.Valid() && l < Pow2(p.shift) && r < Pow2(p.shift)
    ensures E(p, D(p, Cat(l, r, p.shift))) == Cat(l, r, p.shift)
  {
    OnHalves(p, l, r);
    var d := Dec(p, p.rounds - 1, l, r);
    OnHalves(p, d.0, d.1);
    EncDec(p, p.rounds - 1, l, r);
  }

  /** The cipher only sees the low 2 * shift bits of the counter. */
  lemma LowBits(p: Params, n: nat)
    requires p.Valid()
    ensures E(p, Mask(n, p.shift + p.shift)) == E(p, n)
  {
    MaskMask(n, p.shift + p.shift, p.shift);
    ShrMask(n, p.shift, p.shift);
  }

  // ----- the cipher as a cyclic enumeration ----------------------------------------------

  ghost function Cipher(p: Params): Cycle
    requires p.Valid()
  {
    (n: nat) => E(p, n)
  }

  lemma CipherDiffers(p: Params, e: Cycle, t: nat, u: nat)
    requires p.Valid() && Ciphers(p, e) && t < u < t + p.Size()
    ensures e(t) != e(u)
  {
    CipherLow(p, e, t);
    CipherLow(p, e, u);
    NearDiffer(t, u, p.shift + p.shift);
    Distinguishes(p, e, Mask(t, p.shift + p.shift), Mask(u, p.shift + p.shift));
  }

  lemma CipherLow(p: Params, e: Cycle, t: nat)
    requires p.Valid() && Ciphers(p, e)
    ensures e(t) == e(Mask(t, p.shift + p.shift))
  {
    LowBits(p, t);
  }

  lemma Distinguishes(p: Params, e: Cycle, m: nat, n: nat)
    requires p.Valid() && Ciphers(p, e) && m < p.Size() && n < p.Size() && m != n
    ensures e(m) != e(n)
  {
    Inverse(p, m);
    Inverse(p, n);
  }

  lemma CipherHits(p: Params, s: nat, y: nat) returns (t: nat)
    requires p.Valid() && y < p.Size()
    ensures s <= t < s + p.Size() && E(p, t) == y
  {
    t := PatternWithin(s, D(p, y), p.shift + p.shift);
    LowBits(p, t);
    Inverse(p, y);
  }

  /** The cipher runs through its whole domain, over and over. */
  lemma CipherEnumerates(p: Params, e: Cycle)
    requires p.Valid() && Ciphers(p, e)
    ensures Enumerates(e, p.Size())
  {
    forall t: nat ensures e(t) < p.Size() { assert e(t) == E(p, t); }
    forall t: nat, u: nat | t < u < t + p.Size() ensures e(t) != e(u) {
      CipherDiffers(p, e, t, u);
    }
    forall s: nat, y: nat | y < p.Size() ensures Hits(e, p.Size(), s, y) {
      var t := CipherHits(p, s, y);
      assert e(t) == y;
    }
  }

  lemma WrapSame(p: Params, t: nat)
    requires p.Valid()
    ensures E(p, t + U32) == E(p, t)
  {
    var w := p.shift + p.shift;
    assert Mask(t + U32, w) == Mask(t, w) by {
      Pow2Values();
      WrapMask(t, 32, w);
    }
    SameLowBits(p, t, t + U32);
  }

  lemma SameLowBits(p: Params, t: nat, u: nat)
    requires p.Valid() && Mask(t, p.shift + p.shift) == Mask(u, p.shift + p.shift)
    ensures E(p, t) == E(p, u)
  {
    LowBits(p, t);
    LowBits(p, u);
  }

  /** The wrap of the 32-bit counter does not disturb it. */
  lemma CipherPeriod(p: Params, e: Cycle)
    requires p.Valid() && Ciphers(p, e)
    ensures Period(e, U32)
  {
    forall t: nat ensures SamePlace(e, t, U32) {
      WrapSame(p, t);
      assert e(t) == E(p, t) && e(t + U32) == E(p, t + U32);
    }
  }

  /** e is the cipher as a function of the counter alone. */
  ghost predicate Ciphers(p: Params, e: Cycle)
    requires p.Valid()
  {
    forall n: nat {:trigger E(p, n)} :: e(n) == E(p, n)
  }

  lemma CipherCiphers(p: Params)
    requires p.Valid()
    ensures Ciphers(p, Cipher(p))
  {
  }

  lemma {:induction false} WrapMask(t: nat, j: nat, k: nat)
    requires k <= j
    ensures Mask(t + Pow2(j), k) == Mask(t, k)
    decreases k
  {
    if k > 0 { WrapMask(t / 2, j - 1, k - 1); }
  }
}
