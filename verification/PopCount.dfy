/** `popcount32`, as the sweeper uses it to count the units in use. */
module PopCount {
  import opened Bitmap

  // ---------- counting ----------

  predicate BitOf(w: bv32, j: bv32)
    requires j < 32
  {
    (w >> j) & 1 == 1
  }

  function BitN(w: bv32, j: bv32): nat
    requires j < 32
  {
    if BitOf(w, j) then 1 else 0
  }

  /** The bits among the four from `4k` on. */
  function Nibble(w: bv32, k: bv32): (n: nat)
    requires k < 8
    ensures n <= 4
  {
    BitN(w, 4 * k) + BitN(w, 4 * k + 1) + BitN(w, 4 * k + 2) + BitN(w, 4 * k + 3)
  }

  /** The number of bits set. */
  function Population(w: bv32): (n: nat)
    ensures n <= 32
  {
    Nibble(w, 0) + Nibble(w, 1) + Nibble(w, 2) + Nibble(w, 3) + Nibble(w, 4) + Nibble(w, 5) + Nibble(w, 6)
      + Nibble(w, 7)
  }

  /** The bits set in the upper halves of the four bytes. */
  function HighPopulation(w: bv32): (n: nat)
    ensures n <= 16
  {
    Nibble(w, 1) + Nibble(w, 3) + Nibble(w, 5) + Nibble(w, 7)
  }

  /** Sums of two bits. */
  function Pairs(x: bv32): bv32 {
    x - ((x >> 1) & 0x5555_5555)
  }

  /** Sums of four bits from sums of two. */
  function Fours(a: bv32): bv32 {
    (a & 0x3333_3333) + ((a >> 2) & 0x3333_3333)
  }

  /** Sums of eight bits from sums of four; the mask covers the shifted term only, so the upper
      half of each byte keeps its sum of four. */
  function Eights(b: bv32): bv32 {
    b + ((b >> 4) & 0x0f0f_0f0f)
  }

  /** The product with 0x01010101 is a sum of shifts. */
  lemma TimesIsShifts(c: bv32)
    ensures c * 0x0101_0101 == (c + (c << 8)) + ((c + (c << 8)) << 16)
  {
  }

  function Fold8(c: bv32): bv32 {
    c + (c << 8)
  }

  function Top16(s: bv32): bv32 {
    (s + (s << 16)) >> 24
  }

  /** `popcount32`, the final product as its sum of shifts. */
  function PopCount32(x: bv32): bv32 {
    Top16(Fold8(Eights(Fours(Pairs(x)))))
  }

  function BitV(x: bv32, j: bv32): bv32
    requires j < 32
  {
    (x >> j) & 1
  }

  function NibbleV(x: bv32, k: bv32): bv32
    requires k < 8
  {
    BitV(x, 4 * k) + BitV(x, 4 * k + 1) + BitV(x, 4 * k + 2) + BitV(x, 4 * k + 3)
  }

  function NibbleOf(b: bv32, k: bv32): bv32
    requires k < 8
  {
    (b >> (4 * k)) & 15
  }

  function Byte0(c: bv32): bv32 {
    c & 255
  }

  function Byte1(c: bv32): bv32 {
    (c >> 8) & 255
  }

  function Byte2(c: bv32): bv32 {
    (c >> 16) & 255
  }

  function Byte3(c: bv32): bv32 {
    (c >> 24) & 255
  }

  function PairOf(a: bv32, j: bv32): bv32
    requires j < 32
  {
    (a >> j) & 3
  }

  lemma PairsLow(x: bv32, k: bv32)
    requires k < 8
    ensures ((x - ((x >> 1) & 0x5555_5555)) >> (4 * k)) & 3 == BitV(x, 4 * k) + BitV(x, 4 * k + 1)
  {
  }

  lemma PairsHigh(x: bv32, k: bv32)
    requires k < 8
    ensures ((x - ((x >> 1) & 0x5555_5555)) >> (4 * k + 2)) & 3 == BitV(x, 4 * k + 2) + BitV(x, 4 * k + 3)
  {
  }

  lemma PairsBits(x: bv32, k: bv32)
    requires k < 8
    ensures PairOf(Pairs(x), 4 * k) == BitV(x, 4 * k) + BitV(x, 4 * k + 1)
    ensures PairOf(Pairs(x), 4 * k + 2) == BitV(x, 4 * k + 2) + BitV(x, 4 * k + 3)
  {
    hide BitV;
    PairsLow(x, k);
    PairsHigh(x, k);
  }

  lemma FoursPairs(a: bv32, k: bv32)
    requires k < 8
    ensures NibbleOf(Fours(a), k) == PairOf(a, 4 * k) + PairOf(a, 4 * k + 2)
  {
  }

  lemma FoursNibble(x: bv32, k: bv32)
    requires k < 8
    ensures NibbleOf(Fours(Pairs(x)), k) == NibbleV(x, k) && NibbleV(x, k) <= 4
  {
    hide Pairs, Fours, PairOf, NibbleOf, BitV;
    BitSmall(x, 4 * k);
    BitSmall(x, 4 * k + 1);
    BitSmall(x, 4 * k + 2);
    BitSmall(x, 4 * k + 3);
    PairsBits(x, k);
    FoursPairs(Pairs(x), k);
  }

  lemma BitSmall(x: bv32, j: bv32)
    requires j < 32
    ensures BitV(x, j) <= 1
  {
  }

  function Byte(low: bv32, high: bv32): bv32 {
    low + 17 * high
  }

  ghost predicate SmallNibbles(b: bv32) {
    && NibbleOf(b, 0) <= 4 && NibbleOf(b, 1) <= 4 && NibbleOf(b, 2) <= 4 && NibbleOf(b, 3) <= 4
    && NibbleOf(b, 4) <= 4 && NibbleOf(b, 5) <= 4 && NibbleOf(b, 6) <= 4 && NibbleOf(b, 7) <= 4
  }

  lemma EightsByte0(b: bv32)
    requires SmallNibbles(b)
    ensures Byte0(Eights(b)) == Byte(NibbleOf(b, 0), NibbleOf(b, 1))
  {
  }

  lemma EightsByte1(b: bv32)
    requires SmallNibbles(b)
    ensures Byte1(Eights(b)) == Byte(NibbleOf(b, 2), NibbleOf(b, 3))
  {
  }

  lemma EightsByte2(b: bv32)
    requires SmallNibbles(b)
    ensures Byte2(Eights(b)) == Byte(NibbleOf(b, 4), NibbleOf(b, 5))
  {
  }

  lemma EightsByte3(b: bv32)
    requires SmallNibbles(b)
    ensures Byte3(Eights(b)) == Byte(NibbleOf(b, 6), NibbleOf(b, 7))
  {
  }

  ghost predicate SmallBytes(c: bv32) {
    Byte0(c) <= 72 && Byte1(c) <= 72 && Byte2(c) <= 72 && Byte3(c) <= 72
  }

  function Add(a: bv32, b: bv32): bv32 {
    a + b
  }

  lemma Fold0(c: bv32)
    ensures Byte0(Fold8(c)) == Byte0(c)
  {
  }

  lemma Fold1(c: bv32)
    requires SmallBytes(c)
    ensures Byte1(Fold8(c)) == Add(Byte0(c), Byte1(c))
  {
  }

  lemma Fold2(c: bv32)
    requires SmallBytes(c)
    ensures Byte2(Fold8(c)) == Byte1(c) + Byte2(c) && Byte2(Fold8(c)) <= 144
  {
  }

  lemma Fold3(c: bv32)
    requires SmallBytes(c)
    ensures Byte3(Fold8(c)) == Add(Byte2(c), Byte3(c))
  {
  }

  function LowSum(a: bv32, b: bv32): bv32 {
    (a + b) & 255
  }

  lemma TopOf(s: bv32)
    requires Byte0(s) <= 72 && Byte2(s) <= 144
    ensures Top16(s) == LowSum(Byte1(s), Byte3(s))
  {
  }

  lemma Gathered(c: bv32)
    requires SmallBytes(c)
    ensures Top16(Fold8(c)) == LowSum(Add(Byte0(c), Byte1(c)), Add(Byte2(c), Byte3(c)))
  {
    hide Byte0, Byte1, Byte2, Byte3, Fold8, Top16, Add, LowSum;
    Fold0(c);
    Fold1(c);
    Fold2(c);
    Fold3(c);
    TopOf(Fold8(c));
  }

  // ---------- from words to numbers ----------

  lemma NibbleInt(x: bv32, k: bv32)
    requires k < 8
    ensures NibbleV(x, k) <= 4 && NibbleV(x, k) as int == Nibble(x, k)
  {
    BitInt(x, 4 * k);
    BitInt(x, 4 * k + 1);
    BitInt(x, 4 * k + 2);
    BitInt(x, 4 * k + 3);
    hide BitV, BitN;
    SumFour(BitV(x, 4 * k), BitV(x, 4 * k + 1), BitV(x, 4 * k + 2), BitV(x, 4 * k + 3));
  }

  lemma BitInt(x: bv32, j: bv32)
    requires j < 32
    ensures (BitV(x, j) == 0 && BitN(x, j) == 0) || (BitV(x, j) == 1 && BitN(x, j) == 1)
  {
  }

  lemma SumFour(a: bv32, b: bv32, c: bv32, d: bv32)
    requires a <= 1 && b <= 1 && c <= 1 && d <= 1
    ensures a + b + c + d <= 4 && (a + b + c + d) as int == a as int + b as int + c as int + d as int
  {
  }

  function Num(a: bv32): nat {
    a as nat
  }

  function Sum10(a: bv10, b: bv10): bv10 {
    a + b
  }

  function Succ(a: bv10): bv10 {
    a + 1
  }

  function Pred(a: bv10): bv10 {
    a - 1
  }

  lemma SuccInt(b: bv10)
    requires b as int < 1023
    ensures Succ(b) as int == b as int + 1
  {
  }

  lemma PredSucc(b: bv10)
    requires b != 0
    ensures b == Succ(Pred(b)) && Pred(b) as int + 1 == b as int
  {
  }

  lemma SumSucc(a: bv10, b: bv10)
    ensures Sum10(a, Succ(b)) == Succ(Sum10(a, b))
  {
  }

  lemma SumZero(a: bv10, b: bv10)
    requires b == 0
    ensures Sum10(a, b) == a && b as int == 0
  {
  }

  lemma {:induction false} SumInt10(a: bv10, b: bv10)
    requires a as int + b as int < 1024
    ensures Sum10(a, b) as int == a as int + b as int
    decreases b as int
  {
    hide Sum10, Succ, Pred;
    if b == 0 {
      SumZero(a, b);
    } else {
      PredSucc(b);
      SumInt10(a, Pred(b));
      SumSucc(a, Pred(b));
      SuccInt(Sum10(a, Pred(b)));
    }
  }

  function Narrow(a: bv32): bv10
    requires a < 1024
  {
    a as bv10
  }

  lemma NarrowInt(a: bv32)
    requires a < 1024
    ensures Narrow(a) as int == a as int
  {
  }

  lemma Below512(a: bv32)
    requires a < 512
    ensures a < 1024 && a as int < 512
  {
  }

  lemma AddNarrow(a: bv32, b: bv32)
    requires a < 512 && b < 512
    ensures Add(a, b) < 1024 && a < 1024 && b < 1024 && Narrow(Add(a, b)) == Sum10(Narrow(a), Narrow(b))
  {
  }

  lemma AddInt(a: bv32, b: bv32)
    requires a < 512 && b < 512
    ensures Num(Add(a, b)) == Num(a) + Num(b)
  {
    hide Add, Sum10, Narrow;
    Below512(a);
    Below512(b);
    AddNarrow(a, b);
    NarrowInt(a);
    NarrowInt(b);
    NarrowInt(Add(a, b));
    SumInt10(Narrow(a), Narrow(b));
  }

  lemma ByteInt(low: bv32, high: bv32)
    requires low <= 4 && high <= 4
    ensures Byte(low, high) <= 72 && Byte(low, high) as int == low as int + 17 * (high as int)
  {
    if high == 0 {} else if high == 1 {} else if high == 2 {} else if high == 3 {} else {}
  }

  lemma LowSumInt(a: bv32, b: bv32)
    requires a <= 144 && b <= 144
    ensures Num(LowSum(a, b)) == (Num(a) + Num(b)) % 256
  {
    hide Add, LowSum, Num, LowBits;
    LowIs(a, b);
    AddInt(a, b);
    LowByte(Add(a, b));
  }

  lemma LowIs(a: bv32, b: bv32)
    requires a <= 144 && b <= 144
    ensures LowSum(a, b) == LowBits(Add(a, b)) && Add(a, b) <= 288 && a < 512 && b < 512
  {
  }

  function LowBits(a: bv32): bv32 {
    a & 255
  }

  lemma LowByte(a: bv32)
    requires a <= 288
    ensures Num(LowBits(a)) == Num(a) % 256
  {
  }

  lemma AddBound(a: bv32, b: bv32)
    requires a <= 72 && b <= 72
    ensures Add(a, b) <= 144 && a < 512 && b < 512
  {
  }

  lemma FourBytes(a: bv32, b: bv32, c: bv32, d: bv32)
    requires a <= 72 && b <= 72 && c <= 72 && d <= 72
    ensures Num(LowSum(Add(a, b), Add(c, d))) == (Num(a) + Num(b) + Num(c) + Num(d)) % 256
  {
    hide Add, LowSum, Num;
    AddBound(a, b);
    AddBound(c, d);
    AddInt(a, b);
    AddInt(c, d);
    LowSumInt(Add(a, b), Add(c, d));
  }

  lemma AllNibbles(x: bv32)
    ensures SmallNibbles(Fours(Pairs(x)))
    ensures forall k: bv32 :: k < 8 ==> NibbleOf(Fours(Pairs(x)), k) as int == Nibble(x, k)
  {
    hide Fours, Pairs, NibbleOf, NibbleV, Nibble;
    var b := Fours(Pairs(x));
    forall k: bv32 | k < 8
      ensures NibbleOf(b, k) <= 4 && NibbleOf(b, k) as int == Nibble(x, k)
    {
      FoursNibble(x, k);
      NibbleInt(x, k);
    }
  }

  lemma EightBytes(x: bv32)
    ensures var c := Eights(Fours(Pairs(x)));
            && SmallBytes(c)
            && Num(Byte0(c)) == Nibble(x, 0) + 17 * Nibble(x, 1) && Num(Byte1(c)) == Nibble(x, 2) + 17 * Nibble(x, 3)
            && Num(Byte2(c)) == Nibble(x, 4) + 17 * Nibble(x, 5) && Num(Byte3(c)) == Nibble(x, 6) + 17 * Nibble(x, 7)
  {
    hide Fours, Pairs, Eights, NibbleOf, Nibble, Byte, Byte0, Byte1, Byte2, Byte3;
    var b := Fours(Pairs(x));
    AllNibbles(x);
    EightsByte0(b);
    EightsByte1(b);
    EightsByte2(b);
    EightsByte3(b);
    ByteInt(NibbleOf(b, 0), NibbleOf(b, 1));
    ByteInt(NibbleOf(b, 2), NibbleOf(b, 3));
    ByteInt(NibbleOf(b, 4), NibbleOf(b, 5));
    ByteInt(NibbleOf(b, 6), NibbleOf(b, 7));
  }

  lemma Summed(x: bv32)
    ensures Nibble(x, 0) + 17 * Nibble(x, 1) + (Nibble(x, 2) + 17 * Nibble(x, 3)) + (Nibble(x, 4) + 17 * Nibble(x, 5)) +
            (Nibble(x, 6) + 17 * Nibble(x, 7)) == Population(x) + 16 * HighPopulation(x)
  {
    hide Nibble;
  }

  /** What `popcount32` returns: the bits of the upper half-bytes are counted seventeen times,
      and the sum is cut to eight bits. */
  lemma PopCountIs(x: bv32)
    ensures Num(PopCount32(x)) == (Population(x) + 16 * HighPopulation(x)) % 256
  {
    hide Fours, Pairs, Eights, Nibble, Byte0, Byte1, Byte2, Byte3, Fold8, Top16, Population, HighPopulation, SmallBytes,
      Num;
    EightBytes(x);
    GatheredInt(Eights(Fours(Pairs(x))));
    Summed(x);
  }

  lemma GatheredInt(c: bv32)
    requires SmallBytes(c)
    ensures Num(Top16(Fold8(c))) == (Num(Byte0(c)) + Num(Byte1(c)) + Num(Byte2(c)) + Num(Byte3(c))) % 256
  {
    hide Byte0, Byte1, Byte2, Byte3, Fold8, Top16, LowSum, Add, Num, SmallBytes;
    BytesSmall(c);
    Gathered(c);
    FourBytes(Byte0(c), Byte1(c), Byte2(c), Byte3(c));
  }

  lemma BytesSmall(c: bv32)
    requires SmallBytes(c)
    ensures Byte0(c) <= 72 && Byte1(c) <= 72 && Byte2(c) <= 72 && Byte3(c) <= 72
  {
  }

  /** It is the number of bits exactly when the upper half-bytes are all clear or all set. */
  lemma PopCountCorrect(x: bv32)
    ensures Num(PopCount32(x)) == Population(x) <==> HighPopulation(x) == 0 || HighPopulation(x) == 16
  {
    PopCountIs(x);
    hide PopCount32, Population, HighPopulation, Num;
    CutSum(Population(x), HighPopulation(x));
  }

  lemma CutSum(p: nat, h: nat)
    requires p <= 32 && h <= 16
    ensures (p + 16 * h) % 256 == p <==> h == 0 || h == 16
  {
  }

  /** With four bits in the upper half of a byte it returns 68. */
  lemma PopCountWrong()
    ensures Population(0xf0) == 4 && Num(PopCount32(0xf0)) == 68
  {
    PopCountIs(0xf0);
    hide PopCount32, Num;
    HighBits();
  }

  lemma HighBits()
    ensures Population(0xf0) == 4 && HighPopulation(0xf0) == 4
  {
    assert Nibble(0xf0, 0) == 0 && Nibble(0xf0, 1) == 4 && Nibble(0xf0, 2) == 0 && Nibble(0xf0, 3) == 0;
    assert Nibble(0xf0, 4) == 0 && Nibble(0xf0, 5) == 0 && Nibble(0xf0, 6) == 0 && Nibble(0xf0, 7) == 0;
  }

  // ---------- counting the units of a bitmap ----------

  /** The number of bits set among the first `n` units. */
  ghost function CountTo(bm: seq<bv32>, n: nat): nat
    requires n <= 32 * |bm|
    decreases n
  {
    if n == 0 then 0 else CountTo(bm, n - 1) + if Bit(bm, n - 1) then 1 else 0
  }

  /** The units whose bit is set. */
  ghost function SetUnits(bm: seq<bv32>, n: nat): set<nat>
    requires n <= 32 * |bm|
  {
    set i: nat | i < n && Bit(bm, i)
  }

  lemma {:induction false} CountIsSize(bm: seq<bv32>, n: nat)
    requires n <= 32 * |bm|
    ensures CountTo(bm, n) == |SetUnits(bm, n)|
    decreases n
  {
    hide Bit;
    if n > 0 {
      CountIsSize(bm, n - 1);
      assert SetUnits(bm, n) == SetUnits(bm, n - 1) + if Bit(bm, n - 1) then {n - 1} else {};
    } else {
      assert SetUnits(bm, n) == {};
    }
  }

  function Shr(w: bv32, j: bv32): bv32
    requires j < 32
  {
    w >> j
  }

  function Before(j: bv32): bv32 {
    j - 1
  }

  lemma ShrStep(w: bv32, j: bv32)
    requires 0 < j && j < 32
    ensures Before(j) < 32 && Shr(w, Before(j)) >> 1 == Shr(w, j)
  {
  }

  lemma BeforeNum(j: bv32)
    requires 0 < j && j < 32
    ensures Before(j) < 32 && Num(Before(j)) == Num(j) - 1
  {
  }

  lemma NoShift(w: bv32, j: bv32)
    requires j < 32
    ensures j == 0 ==> Shr(w, j) == w && Num(j) == 0
    ensures Num(j) == 0 ==> j == 0
  {
  }

  lemma {:induction false} RightIs(w: bv32, j: bv32, n: nat)
    requires j < 32 && Num(j) == n
    ensures Right(w, n) == Shr(w, j)
    decreases n
  {
    hide Shr, Before, Num;
    NoShift(w, j);
    if n > 0 {
      BeforeNum(j);
      ShrStep(w, j);
      RightIs(w, Before(j), n - 1);
    }
  }

  lemma BitIs(w: bv32, j: bv32, n: nat)
    requires j < 32 && Num(j) == n
    ensures BitAt(w, n) <==> BitOf(w, j)
  {
    RightIs(w, j, n);
    hide Right;
  }

  lemma NumBound(j: bv32)
    requires j < 32
    ensures Num(j) < 32
  {
  }

  lemma CountStep(bm: seq<bv32>, q: nat, j: bv32, n: nat)
    requires q < |bm| && j < 32 && Num(j) == n
    ensures n < 32 && CountTo(bm, 32 * q + n + 1) == CountTo(bm, 32 * q + n) + BitN(bm[q], j)
  {
    hide BitOf, BitAt, Num;
    NumBound(j);
    BitIs(bm[q], j, n);
    SamePlace(q, n);
  }

  lemma CountNibble(bm: seq<bv32>, q: nat, k: bv32, n: nat)
    requires q < |bm| && k < 8 && Num(k) == n
    ensures n < 8
    ensures CountTo(bm, 32 * q + 4 * n + 4) == CountTo(bm, 32 * q + 4 * n) + Nibble(bm[q], k)
  {
    var j0, j1, j2, j3 := FourSlots(bm[q], k);
    hide BitN, CountTo, Nibble, Num;
    FourSteps(bm, q, j0, j1, j2, j3, 4 * n);
  }

  lemma FourSteps(bm: seq<bv32>, q: nat, j0: bv32, j1: bv32, j2: bv32, j3: bv32, n: nat)
    requires q < |bm| && j0 < 32 && j1 < 32 && j2 < 32 && j3 < 32
    requires Num(j0) == n && Num(j1) == n + 1 && Num(j2) == n + 2 && Num(j3) == n + 3
    ensures n + 3 < 32
    ensures CountTo(bm, 32 * q + n + 4) ==
            CountTo(bm, 32 * q + n) + BitN(bm[q], j0) + BitN(bm[q], j1) + BitN(bm[q], j2) + BitN(bm[q], j3)
  {
    hide BitN, CountTo, Num;
    CountStep(bm, q, j0, n);
    CountStep(bm, q, j1, n + 1);
    CountStep(bm, q, j2, n + 2);
    CountStep(bm, q, j3, n + 3);
  }

  lemma FourSlots(w: bv32, k: bv32) returns (j0: bv32, j1: bv32, j2: bv32, j3: bv32)
    requires k < 8
    ensures j0 < 32 && j1 < 32 && j2 < 32 && j3 < 32 && Num(k) < 8
    ensures Num(j0) == 4 * Num(k) && Num(j1) == 4 * Num(k) + 1 && Num(j2) == 4 * Num(k) + 2 && Num(j3) == 4 * Num(k) + 3
    ensures Nibble(w, k) == BitN(w, j0) + BitN(w, j1) + BitN(w, j2) + BitN(w, j3)
  {
    hide BitN;
    j0, j1, j2, j3 := 4 * k, 4 * k + 1, 4 * k + 2, 4 * k + 3;
    if k == 0 {} else if k == 1 {} else if k == 2 {}
      else if k == 3 {} else if k == 4 {} else if k == 5 {} else if k == 6 {} else {}
  }

  lemma SmallNums()
    ensures Num(0) == 0 && Num(1) == 1 && Num(2) == 2 && Num(3) == 3 && Num(4) == 4 && Num(5) == 5 && Num(6) == 6
      && Num(7) == 7
  {
  }

  lemma CountWord(bm: seq<bv32>, q: nat)
    requires q < |bm|
    ensures CountTo(bm, 32 * q + 32) == CountTo(bm, 32 * q) + Population(bm[q])
  {
    SmallNums();
    hide CountTo, Nibble, Num;
    CountNibble(bm, q, 0, 0);
    CountNibble(bm, q, 1, 1);
    CountNibble(bm, q, 2, 2);
    CountNibble(bm, q, 3, 3);
    CountNibble(bm, q, 4, 4);
    CountNibble(bm, q, 5, 5);
    CountNibble(bm, q, 6, 6);
    CountNibble(bm, q, 7, 7);
  }

  /** The bits of the first `q` words. */
  ghost function Words(bm: seq<bv32>, q: nat): nat
    requires q <= |bm|
  {
    if q == 0 then 0 else Words(bm, q - 1) + Population(bm[q - 1])
  }

  /** What the sweeper adds up over the first `q` words. */
  ghost function Counted(bm: seq<bv32>, q: nat): nat
    requires q <= |bm|
  {
    if q == 0 then 0 else Counted(bm, q - 1) + Num(PopCount32(bm[q - 1]))
  }

  /** The bits in upper half-bytes. */
  ghost function HighBitsTo(bm: seq<bv32>, q: nat): nat
    requires q <= |bm|
  {
    if q == 0 then 0 else HighBitsTo(bm, q - 1) + HighPopulation(bm[q - 1])
  }

  /** The words whose sum is cut. */
  ghost function CutsTo(bm: seq<bv32>, q: nat): nat
    requires q <= |bm|
  {
    if q == 0 then 0
    else CutsTo(bm, q - 1) + if Population(bm[q - 1]) + 16 * HighPopulation(bm[q - 1]) >= 256 then 1 else 0
  }

  lemma {:induction false} WordsCount(bm: seq<bv32>, q: nat)
    requires q <= |bm|
    ensures Words(bm, q) == CountTo(bm, 32 * q)
    decreases q
  {
    hide Population, CountTo;
    if q > 0 {
      WordsCount(bm, q - 1);
      CountWord(bm, q - 1);
    } else {
      NoneCounted(bm);
    }
  }

  lemma NoneCounted(bm: seq<bv32>)
    ensures CountTo(bm, 0) == 0
  {
  }

  /** How far the sweeper's count is from the number of units in use. */
  lemma {:induction false} CountedIs(bm: seq<bv32>, q: nat)
    requires q <= |bm|
    ensures Counted(bm, q) == Words(bm, q) + 16 * HighBitsTo(bm, q) - 256 * CutsTo(bm, q)
    decreases q
  {
    hide Population, HighPopulation, PopCount32, Num;
    if q > 0 {
      CountedIs(bm, q - 1);
      PopCountIs(bm[q - 1]);
      CutOnce(Population(bm[q - 1]), HighPopulation(bm[q - 1]));
    }
  }

  /** By how much the sum over a page exceeds the number of its bits. */
  ghost function Excess(bm: seq<bv32>): int {
    16 * HighBitsTo(bm, |bm|) - 256 * CutsTo(bm, |bm|)
  }

  lemma ExcessIs(bm: seq<bv32>)
    ensures Excess(bm) == 16 * HighBitsTo(bm, |bm|) - 256 * CutsTo(bm, |bm|)
  {
  }

  lemma CutOnce(p: nat, h: nat)
    requires p <= 32 && h <= 16
    ensures (p + 16 * h) % 256 == p + 16 * h - if p + 16 * h >= 256 then 256 else 0
  {
  }

  /** The count of a page is right exactly when the cuts make up for the bits counted too often. */
  lemma PageCount(bm: seq<bv32>)
    ensures Counted(bm, |bm|) == |SetUnits(bm, 32 * |bm|)| <==> HighBitsTo(bm, |bm|) == 16 * CutsTo(bm, |bm|)
  {
    CountedIs(bm, |bm|);
    WordsCount(bm, |bm|);
    CountIsSize(bm, 32 * |bm|);
    hide Counted, Words, SetUnits, CountTo, HighBitsTo, CutsTo;
  }
}
