/** CRC-32C of src/hash/crc32.c: the table-driven loop, the polynomial it stands for, and what a
    change in the data does to the result. */
module Crc32c {

  /** CRC32BASE */
  const BASE: bv32 := 0xFFFF_FFFF

  // ----- the register, one bit at a time -------------------------------------------------

  /** One shift of the register.  The constant is 0x1EDC6F41 with its bits reversed: the
      generator polynomial of Appendix B of RFC 4960, for a register that shifts towards its
      low end. */
  function Bit(c: bv32): bv32 {
    if c & 1 == 1 then (c >> 1) ^ 0x82F6_3B78 else c >> 1
  }

  function Bits2(c: bv32): bv32 { Bit(Bit(c)) }

  function Bits4(c: bv32): bv32 { Bits2(Bits2(c)) }

  /** Eight shifts. */
  function Bits8(c: bv32): bv32 { Bits4(Bits4(c)) }

  // ----- the table -----------------------------------------------------------------------

  function Pick(k: bv8, v0: bv32, v1: bv32, v2: bv32, v3: bv32, v4: bv32, v5: bv32, v6: bv32, v7: bv32): bv32 {
    if k < 4 then (if k < 2 then (if k == 0 then v0 else v1) else (if k == 2 then v2 else v3))
    else (if k < 6 then (if k == 4 then v4 else v5) else (if k == 6 then v6 else v7))
  }

  function Quarter0(i: bv8): bv32 {
    if i < 32 then
      if i < 16 then
        if i < 8 then
          Pick(i & 7, 0x00000000, 0xF26B8303, 0xE13B70F7, 0x1350F3F4, 0xC79A971F, 0x35F1141C, 0x26A1E7E8, 0xD4CA64EB)
        else
          Pick(i & 7, 0x8AD958CF, 0x78B2DBCC, 0x6BE22838, 0x9989AB3B, 0x4D43CFD0, 0xBF284CD3, 0xAC78BF27, 0x5E133C24)
      else
        if i < 24 then
          Pick(i & 7, 0x105EC76F, 0xE235446C, 0xF165B798, 0x030E349B, 0xD7C45070, 0x25AFD373, 0x36FF2087, 0xC494A384)
        else
          Pick(i & 7, 0x9A879FA0, 0x68EC1CA3, 0x7BBCEF57, 0x89D76C54, 0x5D1D08BF, 0xAF768BBC, 0xBC267848, 0x4E4DFB4B)
    else
      if i < 48 then
        if i < 40 then
          Pick(i & 7, 0x20BD8EDE, 0xD2D60DDD, 0xC186FE29, 0x33ED7D2A, 0xE72719C1, 0x154C9AC2, 0x061C6936, 0xF477EA35)
        else
          Pick(i & 7, 0xAA64D611, 0x580F5512, 0x4B5FA6E6, 0xB93425E5, 0x6DFE410E, 0x9F95C20D, 0x8CC531F9, 0x7EAEB2FA)
      else
        if i < 56 then
          Pick(i & 7, 0x30E349B1, 0xC288CAB2, 0xD1D83946, 0x23B3BA45, 0xF779DEAE, 0x05125DAD, 0x1642AE59, 0xE4292D5A)
        else
          Pick(i & 7, 0xBA3A117E, 0x4851927D, 0x5B016189, 0xA96AE28A, 0x7DA08661, 0x8FCB0562, 0x9C9BF696, 0x6EF07595)
  }

  function Quarter1(i: bv8): bv32 {
    if i < 96 then
      if i < 80 then
        if i < 72 then
          Pick(i & 7, 0x417B1DBC, 0xB3109EBF, 0xA0406D4B, 0x522BEE48, 0x86E18AA3, 0x748A09A0, 0x67DAFA54, 0x95B17957)
        else
          Pick(i & 7, 0xCBA24573, 0x39C9C670, 0x2A993584, 0xD8F2B687, 0x0C38D26C, 0xFE53516F, 0xED03A29B, 0x1F682198)
      else
        if i < 88 then
          Pick(i & 7, 0x5125DAD3, 0xA34E59D0, 0xB01EAA24, 0x42752927, 0x96BF4DCC, 0x64D4CECF, 0x77843D3B, 0x85EFBE38)
        else
          Pick(i & 7, 0xDBFC821C, 0x2997011F, 0x3AC7F2EB, 0xC8AC71E8, 0x1C661503, 0xEE0D9600, 0xFD5D65F4, 0x0F36E6F7)
    else
      if i < 112 then
        if i < 104 then
          Pick(i & 7, 0x61C69362, 0x93AD1061, 0x80FDE395, 0x72966096, 0xA65C047D, 0x5437877E, 0x4767748A, 0xB50CF789)
        else
          Pick(i & 7, 0xEB1FCBAD, 0x197448AE, 0x0A24BB5A, 0xF84F3859, 0x2C855CB2, 0xDEEEDFB1, 0xCDBE2C45, 0x3FD5AF46)
      else
        if i < 120 then
          Pick(i & 7, 0x7198540D, 0x83F3D70E, 0x90A324FA, 0x62C8A7F9, 0xB602C312, 0x44694011, 0x5739B3E5, 0xA55230E6)
        else
          Pick(i & 7, 0xFB410CC2, 0x092A8FC1, 0x1A7A7C35, 0xE811FF36, 0x3CDB9BDD, 0xCEB018DE, 0xDDE0EB2A, 0x2F8B6829)
  }

  function Quarter2(i: bv8): bv32 {
    if i < 160 then
      if i < 144 then
        if i < 136 then
          Pick(i & 7, 0x82F63B78, 0x709DB87B, 0x63CD4B8F, 0x91A6C88C, 0x456CAC67, 0xB7072F64, 0xA457DC90, 0x563C5F93)
        else
          Pick(i & 7, 0x082F63B7, 0xFA44E0B4, 0xE9141340, 0x1B7F9043, 0xCFB5F4A8, 0x3DDE77AB, 0x2E8E845F, 0xDCE5075C)
      else
        if i < 152 then
          Pick(i & 7, 0x92A8FC17, 0x60C37F14, 0x73938CE0, 0x81F80FE3, 0x55326B08, 0xA759E80B, 0xB4091BFF, 0x466298FC)
        else
          Pick(i & 7, 0x1871A4D8, 0xEA1A27DB, 0xF94AD42F, 0x0B21572C, 0xDFEB33C7, 0x2D80B0C4, 0x3ED04330, 0xCCBBC033)
    else
      if i < 176 then
        if i < 168 then
          Pick(i & 7, 0xA24BB5A6, 0x502036A5, 0x4370C551, 0xB11B4652, 0x65D122B9, 0x97BAA1BA, 0x84EA524E, 0x7681D14D)
        else
          Pick(i & 7, 0x2892ED69, 0xDAF96E6A, 0xC9A99D9E, 0x3BC21E9D, 0xEF087A76, 0x1D63F975, 0x0E330A81, 0xFC588982)
      else
        if i < 184 then
          Pick(i & 7, 0xB21572C9, 0x407EF1CA, 0x532E023E, 0xA145813D, 0x758FE5D6, 0x87E466D5, 0x94B49521, 0x66DF1622)
        else
          Pick(i & 7, 0x38CC2A06, 0xCAA7A905, 0xD9F75AF1, 0x2B9CD9F2, 0xFF56BD19, 0x0D3D3E1A, 0x1E6DCDEE, 0xEC064EED)
  }

  function Quarter3(i: bv8): bv32 {
    if i < 224 then
      if i < 208 then
        if i < 200 then
          Pick(i & 7, 0xC38D26C4, 0x31E6A5C7, 0x22B65633, 0xD0DDD530, 0x0417B1DB, 0xF67C32D8, 0xE52CC12C, 0x1747422F)
        else
          Pick(i & 7, 0x49547E0B, 0xBB3FFD08, 0xA86F0EFC, 0x5A048DFF, 0x8ECEE914, 0x7CA56A17, 0x6FF599E3, 0x9D9E1AE0)
      else
        if i < 216 then
          Pick(i & 7, 0xD3D3E1AB, 0x21B862A8, 0x32E8915C, 0xC083125F, 0x144976B4, 0xE622F5B7, 0xF5720643, 0x07198540)
        else
          Pick(i & 7, 0x590AB964, 0xAB613A67, 0xB831C993, 0x4A5A4A90, 0x9E902E7B, 0x6CFBAD78, 0x7FAB5E8C, 0x8DC0DD8F)
    else
      if i < 240 then
        if i < 232 then
          Pick(i & 7, 0xE330A81A, 0x115B2B19, 0x020BD8ED, 0xF0605BEE, 0x24AA3F05, 0xD6C1BC06, 0xC5914FF2, 0x37FACCF1)
        else
          Pick(i & 7, 0x69E9F0D5, 0x9B8273D6, 0x88D28022, 0x7AB90321, 0xAE7367CA, 0x5C18E4C9, 0x4F48173D, 0xBD23943E)
      else
        if i < 248 then
          Pick(i & 7, 0xF36E6F75, 0x0105EC76, 0x12551F82, 0xE03E9C81, 0x34F4F86A, 0xC69F7B69, 0xD5CF889D, 0x27A40B9E)
        else
          Pick(i & 7, 0x79B737BA, 0x8BDCB4B9, 0x988C474D, 0x6AE7C44E, 0xBE2DA0A5, 0x4C4623A6, 0x5F16D052, 0xAD7D5351)
  }

  /** crc_c[i]: 32 rows of 8 */
  function Table(i: bv8): bv32 {
    if i < 128 then (if i < 64 then Quarter0(i) else Quarter1(i))
    else (if i < 192 then Quarter2(i) else Quarter3(i))
  }

  /** The table holds what the polynomial says: entry i is the byte i after eight shifts. */
  lemma TableIs(i: bv8)
    ensures Table(i) == Bits8(i as bv32)
  {
  }

  function Top(w: bv32): bv8 { (w >> 24) as bv8 }

  /** The entry whose top byte is t. */
  function EntryOf(t: bv8): bv8 {
    (if t & 1 == 1 then 241 else 0) ^ (if t & 2 == 2 then 226 else 0) ^
    (if t & 4 == 4 then 196 else 0) ^ (if t & 8 == 8 then 136 else 0) ^
    (if t & 16 == 16 then 16 else 0) ^ (if t & 32 == 32 then 32 else 0) ^
    (if t & 64 == 64 then 177 else 0) ^ (if t & 128 == 128 then 98 else 0)
  }

  lemma TopDetermines(i: bv8)
    ensures EntryOf(Top(Table(i))) == i
  {
  }

  // ----- the register over a buffer ------------------------------------------------------

  /** index of the table entry that byte d selects */
  function Index(c: bv32, d: bv8): bv8 { ((c ^ (d as bv32)) & 0xFF) as bv8 }

  /** SCTP_CRC32C: one byte through the table */
  function Step(c: bv32, d: bv8): bv32 { (c >> 8) ^ Table(Index(c, d)) }

  // ----- the loop divides by the polynomial ----------------------------------------------

  /** k shifts, of the register and of bits that only move. */
  function Shifts(c: bv32, k: nat): bv32
    decreases k
  {
    if k == 0 then c else Shifts(Bit(c), k - 1)
  }

  function Halved(g: bv32, k: nat): bv32
    decreases k
  {
    if k == 0 then g else Halved(g >> 1, k - 1)
  }

  /** The k low bits are zero. */
  predicate Even(g: bv32, k: nat)
    decreases k
  {
    k == 0 || (g & 1 == 0 && Even(g >> 1, k - 1))
  }

  lemma LowBit(x: bv32)
    ensures x & 1 == 0 || x & 1 == 1
  {
  }

  lemma MovesOdd(v: bv32, g: bv32)
    requires g & 1 == 0 && v & 1 == 1
    ensures (g ^ v) & 1 == 1 && ((g ^ v) >> 1) ^ 0x82F6_3B78 == (g >> 1) ^ ((v >> 1) ^ 0x82F6_3B78)
  {
  }

  lemma MovesEven(v: bv32, g: bv32)
    requires g & 1 == 0 && v & 1 == 0
    ensures (g ^ v) & 1 == 0 && (g ^ v) >> 1 == (g >> 1) ^ (v >> 1)
  {
  }

  lemma BitMoves(u: bv32, v: bv32, g: bv32)
    requires g & 1 == 0 && u == g ^ v
    ensures Bit(u) == (g >> 1) ^ Bit(v)
  {
    LowBit(v);
    if v & 1 == 1 { MovesOdd(v, g); } else { MovesEven(v, g); }
  }

  /** u, v and g move on together. */
  ghost predicate Moving(u: bv32, v: bv32, g: bv32, k: nat, ru: bv32, rv: bv32, rg: bv32) {
    u == g ^ v && Even(g, k) && ru == Shifts(u, k) && rv == Shifts(v, k) && rg == Halved(g, k)
  }

  lemma MoveOn(u: bv32, v: bv32, g: bv32, k: nat, ru: bv32, rv: bv32, rg: bv32)
    requires k > 0 && Moving(u, v, g, k, ru, rv, rg)
    ensures Moving(Bit(u), Bit(v), g >> 1, k - 1, ru, rv, rg)
  {
    BitMoves(u, v, g);
  }

  lemma {:induction false} ShiftsMove(u: bv32, v: bv32, g: bv32, k: nat, ru: bv32, rv: bv32, rg: bv32)
    requires Moving(u, v, g, k, ru, rv, rg)
    ensures ru == rg ^ rv
    decreases k
  {
    if k > 0 {
      MoveOn(u, v, g, k, ru, rv, rg);
      ShiftsMove(Bit(u), Bit(v), g >> 1, k - 1, ru, rv, rg);
    }
  }

  lemma EightShifts(x: bv32, k: nat)
    requires k == 8
    ensures Shifts(x, k) == Bits8(x)
  {
    var a := Bits2(x);
    var b := Bits2(a);
    var c := Bits2(b);
    assert Shifts(x, k) == Shifts(a, k - 2);
    assert Shifts(a, k - 2) == Shifts(b, k - 4);
    assert Shifts(b, k - 4) == Shifts(c, k - 6);
  }

  lemma HighBytes(x: bv32, k: nat)
    requires k == 8
    ensures Even(x & 0xFFFF_FF00, k) && Halved(x & 0xFFFF_FF00, k) == x >> 8
    ensures x == (x & 0xFFFF_FF00) ^ (x & 0xFF)
  {
    EightHalves(x & 0xFFFF_FF00);
  }

  lemma EightHalves(g: bv32)
    requires g & 0xFF == 0
    ensures Even(g, 8) && Halved(g, 8) == g >> 8
  {
  }

  lemma LowByte(c: bv32, d: bv8, x: bv32)
    requires x == c ^ (d as bv32)
    ensures Index(c, d) as bv32 == x & 0xFF && x >> 8 == c >> 8
  {
  }

  lemma TableShifts(i: bv8, low: bv32, k: nat)
    requires k == 8 && low == i as bv32
    ensures Table(i) == Shifts(low, k)
  {
    TableIs(i);
    EightShifts(low, k);
  }

  /** The two parts of a register, shifted. */
  ghost predicate Parts(x: bv32, high: bv32, low: bv32, top: bv32, k: nat) {
    x == high ^ low && Even(high, k) && Halved(high, k) == top
  }

  lemma PartsOf(x: bv32, k: nat, high: bv32, low: bv32, top: bv32)
    requires k == 8 && high == x & 0xFFFF_FF00 && low == x & 0xFF && top == x >> 8
    ensures Parts(x, high, low, top, k)
  {
    HighBytes(x, k);
  }

  lemma PartsMove(x: bv32, high: bv32, low: bv32, top: bv32, k: nat, all: bv32, part: bv32)
    requires Parts(x, high, low, top, k) && all == Shifts(x, k) && part == Shifts(low, k)
    ensures all == top ^ part
  {
    ShiftsMove(x, low, high, k, all, part, top);
  }

  lemma StepParts(c: bv32, d: bv8)
    ensures Step(c, d) == (c >> 8) ^ Table(Index(c, d))
  {
  }

  lemma StepShifts(c: bv32, d: bv8, x: bv32, k: nat, high: bv32, low: bv32, top: bv32)
    requires Parts(x, high, low, top, k) && Table(Index(c, d)) == Shifts(low, k) && c >> 8 == top
    ensures Step(c, d) == Shifts(x, k)
  {
    PartsMove(x, high, low, top, k, Shifts(x, k), Shifts(low, k));
    StepParts(c, d);
  }

  lemma TableAt(c: bv32, d: bv8, x: bv32, low: bv32, k: nat)
    requires k == 8 && x == c ^ (d as bv32) && low == x & 0xFF
    ensures Table(Index(c, d)) == Shifts(low, k)
  {
    LowByte(c, d, x);
    TableShifts(Index(c, d), low, k);
  }

  lemma TopIs(c: bv32, d: bv8, x: bv32, top: bv32)
    requires x == c ^ (d as bv32) && top == x >> 8
    ensures c >> 8 == top
  {
  }

  lemma StepBits(c: bv32, d: bv8, x: bv32, k: nat)
    requires k == 8 && x == c ^ (d as bv32)
    ensures Step(c, d) == Bits8(x)
  {
    var high, low, top := x & 0xFFFF_FF00, x & 0xFF, x >> 8;
    PartsOf(x, k, high, low, top);
    TableAt(c, d, x, low, k);
    TopIs(c, d, x, top);
    StepShifts(c, d, x, k, high, low, top);
    EightShifts(x, k);
  }

  /** One byte through the table is eight shifts of the register with the byte added at its low
      end: the loop divides by the polynomial. */
  lemma StepIs(c: bv32, d: bv8)
    ensures Step(c, d) == Bits8(c ^ (d as bv32))
  {
    StepBits(c, d, c ^ (d as bv32), 8);
  }

  lemma TopOfStep(c: bv32, d: bv8)
    ensures Top(Step(c, d)) == Top(Table(Index(c, d)))
  {
    TopOfXor(c, Table(Index(c, d)));
  }

  lemma TopOfXor(c: bv32, t: bv32)
    ensures Top((c >> 8) ^ t) == Top(t)
  {
  }

  lemma SameEntry(a: bv32, d: bv8, b: bv32, e: bv8)
    requires Step(a, d) == Step(b, e)
    ensures Index(a, d) == Index(b, e)
  {
    TopOfStep(a, d);
    TopOfStep(b, e);
    TopDetermines(Index(a, d));
    TopDetermines(Index(b, e));
  }

  /** Undoes Step: the top byte gives the entry, the entry gives back the rest. */
  function UnStep(r: bv32, d: bv8): bv32 { Rebuild(r, d, EntryOf(Top(r)), Table(EntryOf(Top(r)))) }

  function Rebuild(r: bv32, d: bv8, i: bv8, t: bv32): bv32 {
    ((r ^ t) << 8) | ((i as bv32) ^ (d as bv32))
  }

  lemma RebuildIs(c: bv32, d: bv8, t: bv32)
    ensures Rebuild((c >> 8) ^ t, d, Index(c, d), t) == c
  {
  }

  /** The byte step is a bijection of the register. */
  lemma UnStepStep(c: bv32, d: bv8)
    ensures UnStep(Step(c, d), d) == c
  {
    TopOfStep(c, d);
    TopDetermines(Index(c, d));
    RebuildIs(c, d, Table(Index(c, d)));
  }

  lemma StepInjective(a: bv32, b: bv32, d: bv8)
    requires Step(a, d) == Step(b, d)
    ensures a == b
  {
    UnStepStep(a, d);
    UnStepStep(b, d);
  }

  /** It is injective in the data byte. */
  lemma ByteInjective(c: bv32, x: bv8, y: bv8)
    requires Step(c, x) == Step(c, y)
    ensures x == y
  {
    SameEntry(c, x, c, y);
    SameByte(c, x, y);
  }

  lemma SameByte(c: bv32, x: bv8, y: bv8)
    requires Index(c, x) == Index(c, y)
    ensures x == y
  {
  }

  /** cf_crc32_update */
  function Update(c: bv32, data: seq<bv8>): bv32
    decreases |data|
  {
    if data == [] then c else Update(Step(c, data[0]), data[1..])
  }

  /** cf_crc32_finalize on a little-endian host */
  function Finalize(c: bv32): bv32 { !c }

  method ComputeUpdate(crc: bv32, buffer: array<bv8>) returns (r: bv32)
    ensures r == Update(crc, buffer[..])
  {
    r := crc;
    for i := 0 to buffer.Length
      invariant Update(r, buffer[i..]) == Update(crc, buffer[..])
    {
      assert buffer[i..][1..] == buffer[i + 1..];
      r := Step(r, buffer[i]);
    }
  }

  /** A checksum may be computed in pieces. */
  lemma {:induction false} UpdateConcat(c: bv32, a: seq<bv8>, b: seq<bv8>)
    ensures Update(c, a + b) == Update(Update(c, a), b)
    decreases |a|
  {
    if a == [] {
      assert a + b == b;
    } else {
      assert (a + b)[1..] == a[1..] + b;
      UpdateConcat(Step(c, a[0]), a[1..], b);
    }
  }

  lemma {:induction false} UpdateInjective(a: bv32, b: bv32, data: seq<bv8>)
    requires Update(a, data) == Update(b, data)
    ensures a == b
    decreases |data|
  {
    if data != [] {
      UpdateInjective(Step(a, data[0]), Step(b, data[0]), data[1..]);
      StepInjective(a, b, data[0]);
    }
  }

  // ----- the check value -----------------------------------------------------------------

  /** One more byte. */
  lemma Fed(c: bv32, d: bv8, data: seq<bv8>)
    ensures Update(c, [d] + data) == Update(Step(c, d), data)
  {
    assert ([d] + data)[1..] == data;
  }

  /** The first five and the last four digits through the register. */
  lemma FiveDigits(rest: seq<bv8>)
    ensures Update(BASE, [0x31] + ([0x32] + ([0x33] + ([0x34] + ([0x35] + rest))))) == Update(0xE72EDCCA, rest)
  {
    assert Step(0xFFFFFFFF, 0x31) == 0x6F0A661C;
    assert Step(0x6F0A661C, 0x32) == 0x8CAA3B9F;
    assert Step(0x8CAA3B9F, 0x33) == 0xEF84D04D;
    assert Step(0xEF84D04D, 0x34) == 0x09C50B11;
    assert Step(0x09C50B11, 0x35) == 0xE72EDCCA;
    Fed(BASE, 0x31, [0x32] + ([0x33] + ([0x34] + ([0x35] + rest))));
    Fed(0x6F0A661C, 0x32, [0x33] + ([0x34] + ([0x35] + rest)));
    Fed(0x8CAA3B9F, 0x33, [0x34] + ([0x35] + rest));
    Fed(0xEF84D04D, 0x34, [0x35] + rest);
    Fed(0x09C50B11, 0x35, rest);
  }

  lemma FourDigits()
    ensures Update(0xE72EDCCA, [0x36] + ([0x37] + ([0x38] + ([0x39] + [])))) == 0x1CF96D7C
  {
    assert Step(0xE72EDCCA, 0x36) == 0xBECA8E79;
    assert Step(0xBECA8E79, 0x37) == 0xEDBD6815;
    assert Step(0xEDBD6815, 0x38) == 0x9F787F65;
    assert Step(0x9F787F65, 0x39) == 0x1CF96D7C;
    Fed(0xE72EDCCA, 0x36, [0x37] + ([0x38] + ([0x39] + [])));
    Fed(0xBECA8E79, 0x37, [0x38] + ([0x39] + []));
    Fed(0xEDBD6815, 0x38, [0x39] + []);
    Fed(0x9F787F65, 0x39, []);
  }

  /** The check value of CRC-32C: the checksum of the nine bytes "123456789". */
  lemma CheckValue()
    ensures Finalize(Update(BASE, [0x31, 0x32, 0x33, 0x34, 0x35, 0x36, 0x37, 0x38, 0x39])) == 0xE306_9283
  {
    var last: seq<bv8> := [0x36] + ([0x37] + ([0x38] + ([0x39] + [])));
    FiveDigits(last);
    FourDigits();
    assert [0x31] + ([0x32] + ([0x33] + ([0x34] + ([0x35] + last)))) == [0x31, 0x32, 0x33, 0x34, 0x35, 0x36, 0x37, 0x38, 0x39];
  }

  // ----- which errors are detected -------------------------------------------------------

  /** Two buffers of the same length that differ in exactly one byte have different checksums. */
  lemma OneByteDetected(c: bv32, pre: seq<bv8>, x: bv8, y: bv8, post: seq<bv8>)
    requires x != y
    ensures Finalize(Update(c, pre + [x] + post)) != Finalize(Update(c, pre + [y] + post))
  {
    var r := Update(c, pre);
    UpdateConcat(c, pre + [x], post);
    UpdateConcat(c, pre, [x]);
    UpdateConcat(c, pre + [y], post);
    UpdateConcat(c, pre, [y]);
    if Update(c, pre + [x] + post) == Update(c, pre + [y] + post) {
      UpdateInjective(Step(r, x), Step(r, y), post);
      ByteInjective(r, x, y);
    }
    NotInjective(Update(c, pre + [x] + post), Update(c, pre + [y] + post));
  }

  lemma NotInjective(a: bv32, b: bv32)
    requires a != b
    ensures !a != !b
  {
  }
}
