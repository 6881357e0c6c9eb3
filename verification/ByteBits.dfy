/** Bytes as numbers and as bits. */
module ByteBits {
  import opened Basics

  /** The byte with the given bits, lowest first. */
  function Join(a: bool, b: bool, c: bool, d: bool, e: bool, f: bool, g: bool, h: bool): bv8 {
    (if a then 0x01 else 0) | (if b then 0x02 else 0) | (if c then 0x04 else 0) | (if d then 0x08 else 0) |
    (if e then 0x10 else 0) | (if f then 0x20 else 0) | (if g then 0x40 else 0) | (if h then 0x80 else 0)
  }

  function Odd(x: int): bool { x % 2 == 1 }

  function Half(x: int): int { x / 2 }

  function Half2(x: int): int { Half(Half(x)) }

  function Half4(x: int): int { Half2(Half2(x)) }

  /** A byte as eight bits. */
  function Eight(x: Byte): bv8 {
    var y := Half4(x);
    Join(Odd(x), Odd(Half(x)), Odd(Half2(x)), Odd(Half(Half2(x))), Odd(y), Odd(Half(y)), Odd(Half2(y)), Odd(Half(Half2(y))))
  }

  lemma JoinInjective(a: bool, b: bool, c: bool, d: bool, e: bool, f: bool, g: bool, h: bool,
                      a': bool, b': bool, c': bool, d': bool, e': bool, f': bool, g': bool, h': bool)
    requires Join(a, b, c, d, e, f, g, h) == Join(a', b', c', d', e', f', g', h')
    ensures a == a' && b == b' && c == c' && d == d' && e == e' && f == f' && g == g' && h == h'
  {
  }

  lemma SameHalf(x: int, y: int)
    requires Odd(x) == Odd(y) && Half(x) == Half(y)
    ensures x == y
  {
  }

  lemma SameFour(x: int, y: int)
    requires Odd(x) == Odd(y) && Odd(Half(x)) == Odd(Half(y)) && Odd(Half2(x)) == Odd(Half2(y))
    requires Odd(Half(Half2(x))) == Odd(Half(Half2(y))) && Half4(x) == Half4(y)
    ensures x == y
  {
    SameHalf(Half(Half2(x)), Half(Half2(y)));
    SameHalf(Half2(x), Half2(y));
    SameHalf(Half(x), Half(y));
    SameHalf(x, y);
  }

  lemma HalvesAreZero(x: Byte)
    ensures Half4(Half4(x)) == 0
  {
    var a, b := Half(x), Half2(x);
    assert 0 <= a < 128 && 0 <= b < 64;
    var c, d := Half(b), Half4(x);
    assert 0 <= c < 32 && 0 <= d < 16;
    var e, f := Half(d), Half2(d);
    assert 0 <= e < 8 && 0 <= f < 4;
    assert 0 <= Half(f) < 2;
  }

  lemma Distinct(x: Byte, y: Byte)
    requires x != y
    ensures Eight(x) != Eight(y)
  {
    if Eight(x) == Eight(y) {
      var u, v := Half4(x), Half4(y);
      JoinInjective(Odd(x), Odd(Half(x)), Odd(Half2(x)), Odd(Half(Half2(x))), Odd(u), Odd(Half(u)), Odd(Half2(u)), Odd(Half(Half2(u))),
        Odd(y), Odd(Half(y)), Odd(Half2(y)), Odd(Half(Half2(y))), Odd(v), Odd(Half(v)), Odd(Half2(v)), Odd(Half(Half2(v))));
      HalvesAreZero(x);
      HalvesAreZero(y);
      SameFour(u, v);
      SameFour(x, y);
    }
  }
}
