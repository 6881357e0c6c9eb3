/** dns_k_shuffle16 (src/dns/dns.c:643-691): for every seed a one-to-one map on 16-bit numbers. */
module DnsShuffle {
  import opened ByteBits

  // ----- the substitution box ------------------------------------------------------------

  function Pick(k: bv8, v0: bv8, v1: bv8, v2: bv8, v3: bv8, v4: bv8, v5: bv8, v6: bv8, v7: bv8): bv8 {
    if k < 4 then (if k < 2 then (if k == 0 then v0 else v1) else (if k == 2 then v2 else v3))
    else (if k < 6 then (if k == 4 then v4 else v5) else (if k == 6 then v6 else v7))
  }

  function Sbox0(x: bv8): bv8 {
    if x < 0x20 then
      if x < 0x10 then
        if x < 0x08 then
          Pick(x & 7, 0x63, 0x7c, 0x77, 0x7b, 0xf2, 0x6b, 0x6f, 0xc5)
        else
          Pick(x & 7, 0x30, 0x01, 0x67, 0x2b, 0xfe, 0xd7, 0xab, 0x76)
      else
        if x < 0x18 then
          Pick(x & 7, 0xca, 0x82, 0xc9, 0x7d, 0xfa, 0x59, 0x47, 0xf0)
        else
          Pick(x & 7, 0xad, 0xd4, 0xa2, 0xaf, 0x9c, 0xa4, 0x72, 0xc0)
    else
      if x < 0x30 then
        if x < 0x28 then
          Pick(x & 7, 0xb7, 0xfd, 0x93, 0x26, 0x36, 0x3f, 0xf7, 0xcc)
        else
          Pick(x & 7, 0x34, 0xa5, 0xe5, 0xf1, 0x71, 0xd8, 0x31, 0x15)
      else
        if x < 0x38 then
          Pick(x & 7, 0x04, 0xc7, 0x23, 0xc3, 0x18, 0x96, 0x05, 0x9a)
        else
          Pick(x & 7, 0x07, 0x12, 0x80, 0xe2, 0xeb, 0x27, 0xb2, 0x75)
  }

  function Sbox1(x: bv8): bv8 {
    if x < 0x60 then
      if x < 0x50 then
        if x < 0x48 then
          Pick(x & 7, 0x09, 0x83, 0x2c, 0x1a, 0x1b, 0x6e, 0x5a, 0xa0)
        else
          Pick(x & 7, 0x52, 0x3b, 0xd6, 0xb3, 0x29, 0xe3, 0x2f, 0x84)
      else
        if x < 0x58 then
          Pick(x & 7, 0x53, 0xd1, 0x00, 0xed, 0x20, 0xfc, 0xb1, 0x5b)
        else
          Pick(x & 7, 0x6a, 0xcb, 0xbe, 0x39, 0x4a, 0x4c, 0x58, 0xcf)
    else
      if x < 0x70 then
        if x < 0x68 then
          Pick(x & 7, 0xd0, 0xef, 0xaa, 0xfb, 0x43, 0x4d, 0x33, 0x85)
        else
          Pick(x & 7, 0x45, 0xf9, 0x02, 0x7f, 0x50, 0x3c, 0x9f, 0xa8)
      else
        if x < 0x78 then
          Pick(x & 7, 0x51, 0xa3, 0x40, 0x8f, 0x92, 0x9d, 0x38, 0xf5)
        else
          Pick(x & 7, 0xbc, 0xb6, 0xda, 0x21, 0x10, 0xff, 0xf3, 0xd2)
  }

  function Sbox2(x: bv8): bv8 {
    if x < 0xa0 then
      if x < 0x90 then
        if x < 0x88 then
          Pick(x & 7, 0xcd, 0x0c, 0x13, 0xec, 0x5f, 0x97, 0x44, 0x17)
        else
          Pick(x & 7, 0xc4, 0xa7, 0x7e, 0x3d, 0x64, 0x5d, 0x19, 0x73)
      else
        if x < 0x98 then
          Pick(x & 7, 0x60, 0x81, 0x4f, 0xdc, 0x22, 0x2a, 0x90, 0x88)
        else
          Pick(x & 7, 0x46, 0xee, 0xb8, 0x14, 0xde, 0x5e, 0x0b, 0xdb)
    else
      if x < 0xb0 then
        if x < 0xa8 then
          Pick(x & 7, 0xe0, 0x32, 0x3a, 0x0a, 0x49, 0x06, 0x24, 0x5c)
        else
          Pick(x & 7, 0xc2, 0xd3, 0xac, 0x62, 0x91, 0x95, 0xe4, 0x79)
      else
        if x < 0xb8 then
          Pick(x & 7, 0xe7, 0xc8, 0x37, 0x6d, 0x8d, 0xd5, 0x4e, 0xa9)
        else
          Pick(x & 7, 0x6c, 0x56, 0xf4, 0xea, 0x65, 0x7a, 0xae, 0x08)
  }

  function Sbox3(x: bv8): bv8 {
    if x < 0xe0 then
      if x < 0xd0 then
        if x < 0xc8 then
          Pick(x & 7, 0xba, 0x78, 0x25, 0x2e, 0x1c, 0xa6, 0xb4, 0xc6)
        else
          Pick(x & 7, 0xe8, 0xdd, 0x74, 0x1f, 0x4b, 0xbd, 0x8b, 0x8a)
      else
        if x < 0xd8 then
          Pick(x & 7, 0x70, 0x3e, 0xb5, 0x66, 0x48, 0x03, 0xf6, 0x0e)
        else
          Pick(x & 7, 0x61, 0x35, 0x57, 0xb9, 0x86, 0xc1, 0x1d, 0x9e)
    else
      if x < 0xf0 then
        if x < 0xe8 then
          Pick(x & 7, 0xe1, 0xf8, 0x98, 0x11, 0x69, 0xd9, 0x8e, 0x94)
        else
          Pick(x & 7, 0x9b, 0x1e, 0x87, 0xe9, 0xce, 0x55, 0x28, 0xdf)
      else
        if x < 0xf8 then
          Pick(x & 7, 0x8c, 0xa1, 0x89, 0x0d, 0xbf, 0xe6, 0x42, 0x68)
        else
          Pick(x & 7, 0x41, 0x99, 0x2d, 0x0f, 0xb0, 0x54, 0xbb, 0x16)
  }

  /** the table sbox */
  function Sbox(x: bv8): bv8 {
    if x < 0x80 then (if x < 0x40 then Sbox0(x) else Sbox1(x)) else (if x < 0xc0 then Sbox2(x) else Sbox3(x))
  }

  function Unbox0(x: bv8): bv8 {
    if x < 0x20 then
      if x < 0x10 then
        if x < 0x08 then
          Pick(x & 7, 0x52, 0x09, 0x6a, 0xd5, 0x30, 0x36, 0xa5, 0x38)
        else
          Pick(x & 7, 0xbf, 0x40, 0xa3, 0x9e, 0x81, 0xf3, 0xd7, 0xfb)
      else
        if x < 0x18 then
          Pick(x & 7, 0x7c, 0xe3, 0x39, 0x82, 0x9b, 0x2f, 0xff, 0x87)
        else
          Pick(x & 7, 0x34, 0x8e, 0x43, 0x44, 0xc4, 0xde, 0xe9, 0xcb)
    else
      if x < 0x30 then
        if x < 0x28 then
          Pick(x & 7, 0x54, 0x7b, 0x94, 0x32, 0xa6, 0xc2, 0x23, 0x3d)
        else
          Pick(x & 7, 0xee, 0x4c, 0x95, 0x0b, 0x42, 0xfa, 0xc3, 0x4e)
      else
        if x < 0x38 then
          Pick(x & 7, 0x08, 0x2e, 0xa1, 0x66, 0x28, 0xd9, 0x24, 0xb2)
        else
          Pick(x & 7, 0x76, 0x5b, 0xa2, 0x49, 0x6d, 0x8b, 0xd1, 0x25)
  }

  function Unbox1(x: bv8): bv8 {
    if x < 0x60 then
      if x < 0x50 then
        if x < 0x48 then
          Pick(x & 7, 0x72, 0xf8, 0xf6, 0x64, 0x86, 0x68, 0x98, 0x16)
        else
          Pick(x & 7, 0xd4, 0xa4, 0x5c, 0xcc, 0x5d, 0x65, 0xb6, 0x92)
      else
        if x < 0x58 then
          Pick(x & 7, 0x6c, 0x70, 0x48, 0x50, 0xfd, 0xed, 0xb9, 0xda)
        else
          Pick(x & 7, 0x5e, 0x15, 0x46, 0x57, 0xa7, 0x8d, 0x9d, 0x84)
    else
      if x < 0x70 then
        if x < 0x68 then
          Pick(x & 7, 0x90, 0xd8, 0xab, 0x00, 0x8c, 0xbc, 0xd3, 0x0a)
        else
          Pick(x & 7, 0xf7, 0xe4, 0x58, 0x05, 0xb8, 0xb3, 0x45, 0x06)
      else
        if x < 0x78 then
          Pick(x & 7, 0xd0, 0x2c, 0x1e, 0x8f, 0xca, 0x3f, 0x0f, 0x02)
        else
          Pick(x & 7, 0xc1, 0xaf, 0xbd, 0x03, 0x01, 0x13, 0x8a, 0x6b)
  }

  function Unbox2(x: bv8): bv8 {
    if x < 0xa0 then
      if x < 0x90 then
        if x < 0x88 then
          Pick(x & 7, 0x3a, 0x91, 0x11, 0x41, 0x4f, 0x67, 0xdc, 0xea)
        else
          Pick(x & 7, 0x97, 0xf2, 0xcf, 0xce, 0xf0, 0xb4, 0xe6, 0x73)
      else
        if x < 0x98 then
          Pick(x & 7, 0x96, 0xac, 0x74, 0x22, 0xe7, 0xad, 0x35, 0x85)
        else
          Pick(x & 7, 0xe2, 0xf9, 0x37, 0xe8, 0x1c, 0x75, 0xdf, 0x6e)
    else
      if x < 0xb0 then
        if x < 0xa8 then
          Pick(x & 7, 0x47, 0xf1, 0x1a, 0x71, 0x1d, 0x29, 0xc5, 0x89)
        else
          Pick(x & 7, 0x6f, 0xb7, 0x62, 0x0e, 0xaa, 0x18, 0xbe, 0x1b)
      else
        if x < 0xb8 then
          Pick(x & 7, 0xfc, 0x56, 0x3e, 0x4b, 0xc6, 0xd2, 0x79, 0x20)
        else
          Pick(x & 7, 0x9a, 0xdb, 0xc0, 0xfe, 0x78, 0xcd, 0x5a, 0xf4)
  }

  function Unbox3(x: bv8): bv8 {
    if x < 0xe0 then
      if x < 0xd0 then
        if x < 0xc8 then
          Pick(x & 7, 0x1f, 0xdd, 0xa8, 0x33, 0x88, 0x07, 0xc7, 0x31)
        else
          Pick(x & 7, 0xb1, 0x12, 0x10, 0x59, 0x27, 0x80, 0xec, 0x5f)
      else
        if x < 0xd8 then
          Pick(x & 7, 0x60, 0x51, 0x7f, 0xa9, 0x19, 0xb5, 0x4a, 0x0d)
        else
          Pick(x & 7, 0x2d, 0xe5, 0x7a, 0x9f, 0x93, 0xc9, 0x9c, 0xef)
    else
      if x < 0xf0 then
        if x < 0xe8 then
          Pick(x & 7, 0xa0, 0xe0, 0x3b, 0x4d, 0xae, 0x2a, 0xf5, 0xb0)
        else
          Pick(x & 7, 0xc8, 0xeb, 0xbb, 0x3c, 0x83, 0x53, 0x99, 0x61)
      else
        if x < 0xf8 then
          Pick(x & 7, 0x17, 0x2b, 0x04, 0x7e, 0xba, 0x77, 0xd6, 0x26)
        else
          Pick(x & 7, 0xe1, 0x69, 0x14, 0x63, 0x55, 0x21, 0x0c, 0x7d)
  }

  /** its inverse */
  function Unbox(x: bv8): bv8 {
    if x < 0x80 then (if x < 0x40 then Unbox0(x) else Unbox1(x)) else (if x < 0xc0 then Unbox2(x) else Unbox3(x))
  }

  lemma UnboxSbox0(x: bv8)
    requires 0x00 <= x < 0x40
    ensures Unbox(Sbox0(x)) == x
  {
  }

  lemma UnboxSbox1(x: bv8)
    requires 0x40 <= x < 0x80
    ensures Unbox(Sbox1(x)) == x
  {
  }

  lemma UnboxSbox2(x: bv8)
    requires 0x80 <= x < 0xc0
    ensures Unbox(Sbox2(x)) == x
  {
  }

  lemma UnboxSbox3(x: bv8)
    requires 0xc0 <= x
    ensures Unbox(Sbox3(x)) == x
  {
  }

  lemma UnboxSbox(x: bv8)
    ensures Unbox(Sbox(x)) == x
  {
    if x < 0x40 {
      UnboxSbox0(x);
    } else if x < 0x80 {
      UnboxSbox1(x);
    } else if x < 0xc0 {
      UnboxSbox2(x);
    } else {
      UnboxSbox3(x);
    }
  }

  lemma SboxInjective(x: bv8, y: bv8)
    requires Sbox(x) == Sbox(y)
    ensures x == y
  {
    UnboxSbox(x);
    UnboxSbox(y);
  }

  // ----- rounds --------------------------------------------------------------------------

  datatype Pair = Pair(a: bv8, b: bv8)

  function Mix(x: bv8, y: bv8): bv8 { x ^ y }

  function Round(p: Pair, k: bv8): Pair {
    var a := Mix(Sbox(Mix(p.a, k)), p.b);
    Pair(a, Mix(Sbox(p.b), a))
  }

  lemma MixInjective(x: bv8, y: bv8, z: bv8)
    requires Mix(x, z) == Mix(y, z)
    ensures x == y
  {
    assert Mix(Mix(x, z), z) == x;
  }

  lemma RoundInjective(p: Pair, q: Pair, k: bv8)
    requires Round(p, k) == Round(q, k)
    ensures p == q
  {
    SecondSame(p, q, Round(p, k).a);
    FirstSame(p, q, k, p.b);
  }

  lemma SecondSame(p: Pair, q: Pair, a: bv8)
    requires Mix(Sbox(p.b), a) == Mix(Sbox(q.b), a)
    ensures p.b == q.b
  {
    MixInjective(Sbox(p.b), Sbox(q.b), a);
    SboxInjective(p.b, q.b);
  }

  lemma FirstSame(p: Pair, q: Pair, k: bv8, b: bv8)
    requires Mix(Sbox(Mix(p.a, k)), b) == Mix(Sbox(Mix(q.a, k)), b)
    ensures p.a == q.a
  {
    MixInjective(Sbox(Mix(p.a, k)), Sbox(Mix(q.a, k)), b);
    SboxInjective(Mix(p.a, k), Mix(q.a, k));
    MixInjective(p.a, q.a, k);
  }

  /** One round per key byte */
  function Rounds(p: Pair, keys: seq<bv8>): Pair
    decreases |keys|
  {
    if keys == [] then p else Rounds(Round(p, keys[0]), keys[1..])
  }

  lemma {:induction false} RoundsInjective(p: Pair, q: Pair, keys: seq<bv8>)
    requires Rounds(p, keys) == Rounds(q, keys)
    ensures p == q
    decreases |keys|
  {
    if keys != [] {
      RoundsInjective(Round(p, keys[0]), Round(q, keys[0]), keys[1..]);
      RoundInjective(p, q, keys[0]);
    }
  }

  // ----- 16-bit numbers ------------------------------------------------------------------

  type Short = n: int | 0 <= n < 65536

  function Split(n: Short): Pair { Pair(Eight(n % 256), Eight(n / 256)) }

  function Number(b: bv8): int { b as int }

  /** dns_k_shuffle16, with the seed as its four bytes, lowest first */
  function Shuffle(n: Short, seed: seq<bv8>): int {
    var p := Rounds(Split(n), seed);
    256 * Number(p.a) + Number(p.b)
  }

  lemma NumberInjective(x: bv8, y: bv8)
    requires Number(x) == Number(y)
    ensures x == y
  {
    assert (x as int) as bv8 == x && (y as int) as bv8 == y;
  }

  lemma NumberRange(x: bv8)
    ensures 0 <= Number(x) < 256
  {
  }

  lemma JoinedInjective(a: int, b: int, c: int, d: int)
    requires 0 <= a < 256 && 0 <= b < 256 && 0 <= c < 256 && 0 <= d < 256 && 256 * a + b == 256 * c + d
    ensures a == c && b == d
  {
  }

  lemma SplitInjective(m: Short, n: Short)
    requires Split(m) == Split(n)
    ensures m == n
  {
    if m % 256 != n % 256 { Distinct(m % 256, n % 256); }
    if m / 256 != n / 256 { Distinct(m / 256, n / 256); }
  }

  /** The iteration of dns_k_shuffle16, round by round */
  method Shuffle16(n: Short, seed: seq<bv8>) returns (r: int)
    ensures r == Shuffle(n, seed)
  {
    var a, b := Eight(n % 256), Eight(n / 256);
    for i := 0 to |seed|
      invariant Rounds(Pair(a, b), seed[i..]) == Rounds(Split(n), seed)
    {
      assert seed[i..][1..] == seed[i + 1..];
      a := Mix(a, seed[i]);
      a := Mix(Sbox(a), b);
      b := Mix(Sbox(b), a);
    }
    r := 256 * Number(a) + Number(b);
  }

  /** Different numbers are shuffled to different numbers of the same range. */
  lemma ShuffleInjective(m: Short, n: Short, seed: seq<bv8>)
    requires Shuffle(m, seed) == Shuffle(n, seed)
    ensures m == n
  {
    var p, q := Rounds(Split(m), seed), Rounds(Split(n), seed);
    NumberRange(p.a);
    NumberRange(p.b);
    NumberRange(q.a);
    NumberRange(q.b);
    JoinedInjective(Number(p.a), Number(p.b), Number(q.a), Number(q.b));
    NumberInjective(p.a, q.a);
    NumberInjective(p.b, q.b);
    RoundsInjective(Split(m), Split(n), seed);
    SplitInjective(m, n);
  }

  lemma ShuffleRange(n: Short, seed: seq<bv8>)
    ensures 0 <= Shuffle(n, seed) < 65536
  {
    var p := Rounds(Split(n), seed);
    NumberRange(p.a);
    NumberRange(p.b);
  }

  // ----- as a ranking --------------------------------------------------------------------

  /** Different numbers get different ranks below 65536. */
  ghost predicate Ranks(rank: Short -> int) {
    (forall n: Short :: 0 <= rank(n) < 65536) && forall m: Short, n: Short {:trigger rank(m), rank(n)} :: rank(m) == rank(n) ==> m == n
  }

  /** dns_k_shuffle16 with a fixed seed */
  function Ranking(seed: seq<bv8>): Short -> int { (n: Short) => Shuffle(n, seed) }

  lemma RankingRanks(seed: seq<bv8>)
    ensures Ranks(Ranking(seed))
  {
    var rank := Ranking(seed);
    forall n: Short ensures 0 <= rank(n) < 65536 { ShuffleRange(n, seed); }
    forall m: Short, n: Short | rank(m) == rank(n) ensures m == n { ShuffleInjective(m, n, seed); }
  }
}
