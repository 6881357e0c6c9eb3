/** Known answers: the building blocks of query ids and record shuffling computed on given inputs, so
    that their constants, their order of operations and their tables are those of the originals. */
module DnsKnownAnswers {
  import opened Basics
  import opened Bits
  import opened ByteBits
  import opened DnsPermutor
  import opened DnsShuffle

  // ----- TEA -----------------------------------------------------------------------------

  lemma Tea0(t: Tea)
    requires t == Tea(0, 0, 0, 0, 32)
    ensures TeaWord(t, 0x00000000, 0x00000000, 0x00000000, 32) == TeaWord(t, 0xED285DA1, 0x455B33C1, 0xF1BBCDC8, 24)
  {
    assert TeaWord(t, 0x00000000, 0x00000000, 0x00000000, 32) == TeaWord(t, 0x9E3779B9, 0xDBE8D32F, 0x9E3779B9, 31);
    assert TeaWord(t, 0x9E3779B9, 0xDBE8D32F, 0x9E3779B9, 31) == TeaWord(t, 0x3E3D2C81, 0x747811B6, 0x3C6EF372, 30);
    assert TeaWord(t, 0x3E3D2C81, 0x747811B6, 0x3C6EF372, 30) == TeaWord(t, 0x4979D18D, 0x266EFA9A, 0xDAA66D2B, 29);
    assert TeaWord(t, 0x4979D18D, 0x266EFA9A, 0xDAA66D2B, 29) == TeaWord(t, 0x420A1097, 0xBEC5A929, 0x78DDE6E4, 28);
    assert TeaWord(t, 0x420A1097, 0xBEC5A929, 0x78DDE6E4, 28) == TeaWord(t, 0x7E81C6B6, 0x3D44EB2F, 0x1715609D, 27);
    assert TeaWord(t, 0x7E81C6B6, 0x3D44EB2F, 0x1715609D, 27) == TeaWord(t, 0xA5B716E2, 0x42A412DE, 0xB54CDA56, 26);
    assert TeaWord(t, 0xA5B716E2, 0x42A412DE, 0xB54CDA56, 26) == TeaWord(t, 0x6433827D, 0x3A52802D, 0x5384540F, 25);
    assert TeaWord(t, 0x6433827D, 0x3A52802D, 0x5384540F, 25) == TeaWord(t, 0xED285DA1, 0x455B33C1, 0xF1BBCDC8, 24);
  }

  lemma Tea1(t: Tea)
    requires t == Tea(0, 0, 0, 0, 32)
    ensures TeaWord(t, 0xED285DA1, 0x455B33C1, 0xF1BBCDC8, 24) == TeaWord(t, 0xA889F798, 0x182D8083, 0xE3779B90, 16)
  {
    assert TeaWord(t, 0xED285DA1, 0x455B33C1, 0xF1BBCDC8, 24) == TeaWord(t, 0x6FFFFC6D, 0x48CEAE9E, 0x8FF34781, 23);
    assert TeaWord(t, 0x6FFFFC6D, 0x48CEAE9E, 0x8FF34781, 23) == TeaWord(t, 0x6855EFB9, 0x596B92BC, 0x2E2AC13A, 22);
    assert TeaWord(t, 0x6855EFB9, 0x596B92BC, 0x2E2AC13A, 22) == TeaWord(t, 0x1A15AAB3, 0xA169767F, 0xCC623AF3, 21);
    assert TeaWord(t, 0x1A15AAB3, 0xA169767F, 0xCC623AF3, 21) == TeaWord(t, 0x39B4B21B, 0xE0325966, 0x6A99B4AC, 20);
    assert TeaWord(t, 0x39B4B21B, 0xE0325966, 0x6A99B4AC, 20) == TeaWord(t, 0x26DC357B, 0x238B2F61, 0x08D12E65, 19);
    assert TeaWord(t, 0x26DC357B, 0x238B2F61, 0x08D12E65, 19) == TeaWord(t, 0x1A19AD8F, 0x83F36F92, 0xA708A81E, 18);
    assert TeaWord(t, 0x1A19AD8F, 0x83F36F92, 0xA708A81E, 18) == TeaWord(t, 0x0C34A0C4, 0x1652DB6F, 0x454021D7, 17);
    assert TeaWord(t, 0x0C34A0C4, 0x1652DB6F, 0x454021D7, 17) == TeaWord(t, 0xA889F798, 0x182D8083, 0xE3779B90, 16);
  }

  lemma Tea2(t: Tea)
    requires t == Tea(0, 0, 0, 0, 32)
    ensures TeaWord(t, 0xA889F798, 0x182D8083, 0xE3779B90, 16) == TeaWord(t, 0x2AB23274, 0xF046037B, 0xD5336958, 8)
  {
    assert TeaWord(t, 0xA889F798, 0x182D8083, 0xE3779B90, 16) == TeaWord(t, 0xC44FE990, 0x1F4F9918, 0x81AF1549, 15);
    assert TeaWord(t, 0xC44FE990, 0x1F4F9918, 0x81AF1549, 15) == TeaWord(t, 0x8F85AEE2, 0x729A97CB, 0x1FE68F02, 14);
    assert TeaWord(t, 0x8F85AEE2, 0x729A97CB, 0x1FE68F02, 14) == TeaWord(t, 0xAA0AB76A, 0x406E7B09, 0xBE1E08BB, 13);
    assert TeaWord(t, 0xAA0AB76A, 0x406E7B09, 0xBE1E08BB, 13) == TeaWord(t, 0x4231F59F, 0xFFF82958, 0x5C558274, 12);
    assert TeaWord(t, 0x4231F59F, 0xFFF82958, 0x5C558274, 12) == TeaWord(t, 0x452A66EE, 0x6F308824, 0xFA8CFC2D, 11);
    assert TeaWord(t, 0x452A66EE, 0x6F308824, 0xFA8CFC2D, 11) == TeaWord(t, 0x3CB05EF9, 0x8EC541DC, 0x98C475E6, 10);
    assert TeaWord(t, 0x3CB05EF9, 0x8EC541DC, 0x98C475E6, 10) == TeaWord(t, 0x6A9365AE, 0x9AB2D65C, 0x36FBEF9F, 9);
    assert TeaWord(t, 0x6A9365AE, 0x9AB2D65C, 0x36FBEF9F, 9) == TeaWord(t, 0x2AB23274, 0xF046037B, 0xD5336958, 8);
  }

  lemma Tea3(t: Tea)
    requires t == Tea(0, 0, 0, 0, 32)
    ensures TeaWord(t, 0x2AB23274, 0xF046037B, 0xD5336958, 8) == TeaWord(t, 0x41EA3A0A, 0x94BAA940, 0xC6EF3720, 0)
  {
    assert TeaWord(t, 0x2AB23274, 0xF046037B, 0xD5336958, 8) == TeaWord(t, 0x8B05139B, 0x3AACEAFB, 0x736AE311, 7);
    assert TeaWord(t, 0x8B05139B, 0x3AACEAFB, 0x736AE311, 7) == TeaWord(t, 0x7259A2BD, 0xE0A0043D, 0x11A25CCA, 6);
    assert TeaWord(t, 0x7259A2BD, 0xE0A0043D, 0x11A25CCA, 6) == TeaWord(t, 0x0FD63BEE, 0x234D218B, 0xAFD9D683, 5);
    assert TeaWord(t, 0x0FD63BEE, 0x234D218B, 0xAFD9D683, 5) == TeaWord(t, 0x546C3C69, 0x096A4D61, 0x4E11503C, 4);
    assert TeaWord(t, 0x546C3C69, 0x096A4D61, 0x4E11503C, 4) == TeaWord(t, 0xB7C8CF96, 0xE68D73F8, 0xEC48C9F5, 3);
    assert TeaWord(t, 0xB7C8CF96, 0xE68D73F8, 0xEC48C9F5, 3) == TeaWord(t, 0xD6B7B34F, 0xF386F38F, 0x8A8043AE, 2);
    assert TeaWord(t, 0xD6B7B34F, 0xF386F38F, 0x8A8043AE, 2) == TeaWord(t, 0xFA8572E9, 0x804528E6, 0x28B7BD67, 1);
    assert TeaWord(t, 0xFA8572E9, 0x804528E6, 0x28B7BD67, 1) == TeaWord(t, 0x41EA3A0A, 0x94BAA940, 0xC6EF3720, 0);
  }

  /** The published answer of TEA with 32 cycles to a zero block under a zero key: 41EA3A0A 94BAA940. */
  lemma TeaAnswer(t: Tea)
    requires t == Tea(0, 0, 0, 0, TEA_CYCLES)
    ensures TeaWord(t, 0, 0, 0, t.cycles) == 0x41EA_3A0A
  {
    Tea0(t);
    Tea1(t);
    Tea2(t);
    Tea3(t);
  }

  // ----- the round function and the rounds -----------------------------------------------

  function SomeKey(): Tea { Tea(0x1111_1111, 0x2222_2222, 0x3333_3333, 0x4444_4444, 2) }

  lemma SomeBlock(t: Tea, y: bv32, z: bv32)
    requires t == SomeKey() && y == 1 && z == 2
    ensures TeaWord(t, y, z, 0, 2) == 0xE06B9AAF
  {
    assert TeaWord(t, 1, 2, 0, 2) == TeaWord(t, 0xAD044AA9, 0x01E07F3A, 0x9E3779B9, 1);
    assert TeaWord(t, 0xAD044AA9, 0x01E07F3A, 0x9E3779B9, 1) == 0xE06B9AAF;
  }

  lemma AsWords(k: nat, x: nat)
    requires k == 1 && x == 2
    ensures k as bv32 == 1 && x as bv32 == 2
  {
  }

  lemma AsNumber(w: bv32)
    requires w == 0xE06B9AAF
    ensures w as nat == 0xE06B9AAF
  {
  }

  lemma LowEight(n: nat)
    requires n == 0xE06B9AAF
    ensures Mask(n, 8) == 0xAF
  {
    assert Mask(n / 16, 4) == 10 && Mask(n / 4, 6) == 43;
  }

  /** The round function: the round number and a half make a block, and the low bits of the first word
      of its cipher text are kept. */
  lemma RoundAnswer(p: Params, k: nat, x: nat)
    requires p.tea == SomeKey() && p.shift == 8 && k == 1 && x == 2
    ensures F(p, k, x) == 0xAF
  {
    AsWords(k, x);
    SomeBlock(p.tea, k as bv32, x as bv32);
    var w := TeaWord(p.tea, k as bv32, x as bv32, 0, p.tea.cycles);
    AsNumber(w);
    LowEight(w as nat);
  }

  /** The halves of a block through the rounds: each new one is the one before last with the round
      function of the last added. */
  ghost predicate Feistel(p: Params, xs: seq<nat>) {
    |xs| == p.rounds + 1 && p.rounds < U32 && (forall k :: 0 <= k < |xs| ==> xs[k] < Pow2(p.shift) && xs[k] < U32) &&
    forall k: nat {:trigger Rounded(p, xs, k)} :: k + 2 < |xs| ==> Rounded(p, xs, k)
  }

  ghost predicate Rounded(p: Params, xs: seq<nat>, k: nat)
    requires k + 2 < |xs| == p.rounds + 1 && p.rounds < U32 && xs[k + 1] < U32
  {
    xs[k + 2] == Xor(xs[k], F(p, k, xs[k + 1]))
  }

  lemma {:induction false} EncIsFeistel(p: Params, xs: seq<nat>, i: nat)
    requires p.Valid() && Feistel(p, xs) && i < p.rounds
    ensures Enc(p, i, xs[i], xs[i + 1]) == (xs[p.rounds - 1], xs[p.rounds])
    decreases p.rounds - i
  {
    if i < p.rounds - 1 {
      assert Rounded(p, xs, i);
      EncIsFeistel(p, xs, i + 1);
    }
  }

  /** dns_k_permutor_E takes the two halves of the counter through rounds - 1 rounds and puts the last
      two halves together, with the round number as the other half of each TEA block. */
  lemma CipherIsFeistel(p: Params, n: nat, xs: seq<nat>)
    requires p.Valid() && Feistel(p, xs) && xs[0] == Mask(Shr(n, p.shift), p.shift) && xs[1] == Mask(n, p.shift)
    ensures E(p, n) == Cat(xs[p.rounds - 1], xs[p.rounds], p.shift)
  {
    EncIsFeistel(p, xs, 0);
  }

  // ----- the substitution box ------------------------------------------------------------

  /** Multiplication by 3 in the field of FIPS 197, section 4.2 */
  function Thrice(b: bv8): bv8 { (b << 1) ^ b ^ (if b & 0x80 == 0x80 then 0x1b else 0) }

  /** The affine map of FIPS 197, section 5.1.1, undone: the sum of three rotations and a constant */
  function Unmapped(b: bv8): bv8 {
    ((b << 1) | (b >> 7)) ^ ((b << 3) | (b >> 5)) ^ ((b << 6) | (b >> 2)) ^ 0x05
  }

  lemma Third0(x: bv8)
    requires x < 0x40
    ensures Thrice(Unmapped(Sbox(Thrice(x)))) == Unmapped(Sbox0(x))
  {
  }

  lemma Third1(x: bv8)
    requires 0x40 <= x < 0x80
    ensures Thrice(Unmapped(Sbox(Thrice(x)))) == Unmapped(Sbox1(x))
  {
  }

  lemma Third2(x: bv8)
    requires 0x80 <= x < 0xc0
    ensures Thrice(Unmapped(Sbox(Thrice(x)))) == Unmapped(Sbox2(x))
  {
  }

  lemma Third3(x: bv8)
    requires 0xc0 <= x
    ensures Thrice(Unmapped(Sbox(Thrice(x)))) == Unmapped(Sbox3(x))
  {
  }

  /** What the table holds for 3x is, before the affine map, a third of what it holds for x. */
  lemma ThirdOf(x: bv8)
    ensures Thrice(Unmapped(Sbox(Thrice(x)))) == Unmapped(Sbox(x))
  {
    if x < 0x40 {
      Third0(x);
    } else if x < 0x80 {
      Third1(x);
    } else if x < 0xc0 {
      Third2(x);
    } else {
      Third3(x);
    }
  }

  lemma BoxOfFirst()
    ensures Unmapped(Sbox(0)) == 0 && Unmapped(Sbox(1)) == 1
  {
  }

  /** b multiplied by 3, k times */
  function Tripled(b: bv8, k: nat): bv8
    decreases k
  {
    if k == 0 then b else Tripled(Thrice(b), k - 1)
  }

  function Power(k: nat): bv8 { if k == 0 then 1 else Thrice(Power(k - 1)) }

  /** The table is the substitution box of AES: up to the affine map, the entry of a power of 3 is its
      inverse in the field (every byte but 0 is such a power), and that of 0 is 0. */
  lemma {:induction false} BoxInverts(k: nat)
    ensures Tripled(Unmapped(Sbox(Power(k))), k) == 1 && Unmapped(Sbox(0)) == 0
    decreases k
  {
    BoxOfFirst();
    if k > 0 {
      BoxInverts(k - 1);
      ThirdOf(Power(k - 1));
      TripledOn(Unmapped(Sbox(Power(k))), Unmapped(Sbox(Power(k - 1))), k);
    }
  }

  lemma TripledOn(b: bv8, c: bv8, k: nat)
    requires k > 0 && Thrice(b) == c
    ensures Tripled(b, k) == Tripled(c, k - 1)
  {
  }

  // ----- the shuffle ---------------------------------------------------------------------

  lemma RoundsOn(p: Pair, k: bv8, q: Pair, keys: seq<bv8>, rest: seq<bv8>)
    requires keys == [k] + rest && q == Round(p, k)
    ensures Rounds(p, keys) == Rounds(q, rest)
  {
    assert keys[1..] == rest;
  }

  lemma TwoRounds(keys: seq<bv8>, rest: seq<bv8>)
    requires keys == [0xEF, 0xBE] + rest
    ensures Rounds(Pair(0x34, 0x12), keys) == Rounds(Pair(0x3B, 0x91), rest)
  {
    RoundsOn(Pair(0x34, 0x12), 0xEF, Pair(0xAB, 0x62), keys, [0xBE] + rest);
    RoundsOn(Pair(0xAB, 0x62), 0xBE, Pair(0x3B, 0x91), [0xBE] + rest, rest);
  }

  lemma TwoMoreRounds(keys: seq<bv8>, rest: seq<bv8>)
    requires keys == [0xAD, 0xDE] + rest && rest == []
    ensures Rounds(Pair(0x3B, 0x91), keys) == Pair(0x1E, 0xD3)
  {
    RoundsOn(Pair(0x3B, 0x91), 0xAD, Pair(0x01, 0x80), keys, [0xDE] + rest);
    RoundsOn(Pair(0x01, 0x80), 0xDE, Pair(0x1E, 0xD3), [0xDE] + rest, rest);
  }

  lemma JoinedBits()
    ensures Join(false, false, true, false, true, true, false, false) == 0x34
    ensures Join(false, true, false, false, true, false, false, false) == 0x12
  {
  }

  lemma LowHalf(x: Byte)
    requires x == 0x34
    ensures Eight(x) == 0x34
  {
    assert Half(x) == 26 && Half2(x) == 13 && Half(Half2(x)) == 6 && Half4(x) == 3;
    assert Half(Half4(x)) == 1 && Half2(Half4(x)) == 0 && Half(Half2(Half4(x))) == 0;
    JoinedBits();
  }

  lemma HighHalf(x: Byte)
    requires x == 0x12
    ensures Eight(x) == 0x12
  {
    assert Half(x) == 9 && Half2(x) == 4 && Half(Half2(x)) == 2 && Half4(x) == 1;
    assert Half(Half4(x)) == 0 && Half2(Half4(x)) == 0 && Half(Half2(Half4(x))) == 0;
    JoinedBits();
  }

  lemma HalvesOf(n: Short)
    requires n == 0x1234
    ensures n % 256 == 0x34 && n / 256 == 0x12
  {
  }

  lemma Together(p: Pair)
    requires p == Pair(0x1E, 0xD3)
    ensures Number(p.a) == 0x1E && Number(p.b) == 0xD3
  {
  }

  /** The number 0x1234 shuffled with seed 0xDEADBEEF, whose lowest byte comes first */
  lemma ShuffleAnswer(n: Short, seed: seq<bv8>)
    requires n == 0x1234 && seed == [0xEF, 0xBE, 0xAD, 0xDE]
    ensures Shuffle(n, seed) == 0x1ED3
  {
    HalvesOf(n);
    LowHalf(n % 256);
    HighHalf(n / 256);
    FourRounds(seed);
    Together(Rounds(Split(n), seed));
  }

  lemma FourRounds(seed: seq<bv8>)
    requires seed == [0xEF, 0xBE, 0xAD, 0xDE]
    ensures Rounds(Pair(0x34, 0x12), seed) == Pair(0x1E, 0xD3)
  {
    TwoRounds(seed, [0xAD, 0xDE]);
    TwoMoreRounds([0xAD, 0xDE], []);
  }
}
