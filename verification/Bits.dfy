/** Bitwise operations on natural numbers, one bit at a time. */
module Bits {

  function Pow2(k: nat): (p: nat)
    ensures p >= 1
  {
    if k == 0 then 1 else 2 * Pow2(k - 1)
  }

  lemma {:induction false} Pow2Mono(j: nat, k: nat)
    requires j <= k
    ensures Pow2(j) <= Pow2(k)
    decreases k
  {
    if j < k { Pow2Mono(j, k - 1); }
  }

  lemma Pow2Values()
    ensures Pow2(8) == 0x100 && Pow2(16) == 0x1_0000 && Pow2(31) == 0x8000_0000 && Pow2(32) == 0x1_0000_0000
  {
    assert Pow2(12) == 0x1000 && Pow2(20) == 0x10_0000 && Pow2(24) == 0x100_0000 && Pow2(28) == 0x1000_0000;
  }

  /** n >> k */
  function Shr(n: nat, k: nat): nat
    decreases k
  {
    if k == 0 then n else Shr(n / 2, k - 1)
  }

  /** n & (2^k - 1) */
  function Mask(n: nat, k: nat): (m: nat)
    ensures m < Pow2(k) && m <= n
    decreases k
  {
    if k == 0 then 0 else n % 2 + 2 * Mask(n / 2, k - 1)
  }

  /** (l << k) | r for an r of at most k bits */
  function Cat(l: nat, r: nat, k: nat): nat
    decreases k
  {
    if k == 0 then l else r % 2 + 2 * Cat(l, r / 2, k - 1)
  }

  lemma {:induction false} CatSplit(l: nat, r: nat, k: nat)
    requires r < Pow2(k)
    ensures Shr(Cat(l, r, k), k) == l && Mask(Cat(l, r, k), k) == r
    decreases k
  {
    if k > 0 { CatSplit(l, r / 2, k - 1); }
  }

  lemma {:induction false} SplitCat(n: nat, k: nat)
    ensures Cat(Shr(n, k), Mask(n, k), k) == n
    decreases k
  {
    if k > 0 {
      SplitCat(n / 2, k - 1);
      assert Mask(n, k) / 2 == Mask(n / 2, k - 1);
    }
  }

  lemma {:induction false} CatWidth(l: nat, r: nat, j: nat, k: nat)
    requires l < Pow2(j) && r < Pow2(k)
    ensures Cat(l, r, k) < Pow2(j + k)
    decreases k
  {
    if k > 0 { CatWidth(l, r / 2, j, k - 1); }
  }

  lemma {:induction false} ShrWidth(n: nat, j: nat, k: nat)
    requires n < Pow2(j + k)
    ensures Shr(n, k) < Pow2(j)
    decreases k
  {
    if k > 0 { ShrWidth(n / 2, j, k - 1); }
  }

  lemma {:induction false} MaskSmall(n: nat, k: nat)
    requires n < Pow2(k)
    ensures Mask(n, k) == n
    decreases k
  {
    if k > 0 { MaskSmall(n / 2, k - 1); }
  }

  /** Masking twice is masking with the narrower mask. */
  lemma {:induction false} MaskMask(n: nat, j: nat, k: nat)
    requires k <= j
    ensures Mask(Mask(n, j), k) == Mask(n, k)
    decreases k
  {
    if k > 0 {
      assert Mask(n, j) % 2 == n % 2 && Mask(n, j) / 2 == Mask(n / 2, j - 1);
      MaskMask(n / 2, j - 1, k - 1);
    }
  }

  /** The bits k, ..., 2k-1 do not depend on the bits above. */
  lemma {:induction false} ShrMask(n: nat, j: nat, k: nat)
    ensures Mask(Shr(Mask(n, j + k), k), j) == Mask(Shr(n, k), j)
    decreases k
  {
    if k == 0 {
      MaskMask(n, j, j);
    } else {
      assert Mask(n, j + k) / 2 == Mask(n / 2, j + k - 1);
      ShrMask(n / 2, j, k - 1);
    }
  }

  /** Numbers less than 2^k apart differ in their low k bits. */
  lemma {:induction false} NearDiffer(t: nat, u: nat, k: nat)
    requires t < u < t + Pow2(k)
    ensures Mask(t, k) != Mask(u, k)
    decreases k
  {
    if k > 0 && t % 2 == u % 2 { NearDiffer(t / 2, u / 2, k - 1); }
  }

  /** Among 2^k consecutive numbers every pattern of k low bits occurs. */
  lemma {:induction false} PatternWithin(s: nat, y: nat, k: nat) returns (t: nat)
    requires y < Pow2(k)
    ensures s <= t < s + Pow2(k) && Mask(t, k) == y
    decreases k
  {
    if k == 0 {
      t := s;
    } else {
      var t0 := if s % 2 == y % 2 then s else s + 1;
      var h := PatternWithin(t0 / 2, y / 2, k - 1);
      t := 2 * h + y % 2;
      assert t / 2 == h && t % 2 == y % 2;
    }
  }

  function Xor(a: nat, b: nat): nat {
    if a == 0 && b == 0 then 0 else (if a % 2 == b % 2 then 0 else 1) + 2 * Xor(a / 2, b / 2)
  }

  lemma XorStep(a: nat, b: nat)
    ensures Xor(a, b) / 2 == Xor(a / 2, b / 2) && Xor(a, b) % 2 == (if a % 2 == b % 2 then 0 else 1)
  {
  }

  /** A number is determined by its last bit and the rest. */
  lemma SameBits(x: nat, y: nat)
    requires x / 2 == y / 2 && x % 2 == y % 2
    ensures x == y
  {
  }

  /** Exclusive or with the same operand twice is the identity. */
  lemma {:induction false} XorTwice(a: nat, b: nat)
    ensures Xor(Xor(a, b), b) == a
  {
    if a != 0 || b != 0 {
      XorStep(a, b);
      XorTwice(a / 2, b / 2);
      XorBack(Xor(a, b), b, a);
    }
  }

  lemma XorBack(x: nat, b: nat, a: nat)
    requires Xor(x / 2, b / 2) == a / 2 && x % 2 == (if a % 2 == b % 2 then 0 else 1)
    ensures Xor(x, b) == a
  {
    XorStep(x, b);
    SameBits(Xor(x, b), a);
  }

  /** It stays within the width of its operands. */
  lemma {:induction false} XorWidth(a: nat, b: nat, k: nat)
    requires a < Pow2(k) && b < Pow2(k)
    ensures Xor(a, b) < Pow2(k)
  {
    if (a != 0 || b != 0) && k > 0 { XorWidth(a / 2, b / 2, k - 1); }
  }
}
