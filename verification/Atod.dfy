/** `atod_guts`: decimal to binary, correctly rounded to 53 bits before the final scaling. */
module Atod {
  import opened Limbs
  import opened Division
  import opened RoundedDivision
  import opened Shifts
  import Knuth

  const MAX_POW5: int := 345
  const NORMAL: nat := 28
  const QUOTIENT: nat := 4

  /** What is handed to `scalbn`: an integer and a binary exponent. */
  datatype Scaling = NotANumber | Scaled(significand: nat, exponent: int)

  function Pos(x: int): nat {
    if x > 0 then x else 0
  }

  /** `mant * 10^dp / 2^e` as a fraction. */
  ghost function Numerator(mant: nat, dp: int, e: int): nat {
    mant * (Pow(10, Pos(dp)) * P2(Pos(-e)))
  }

  ghost function Denominator(dp: int, e: int): (d: nat)
    ensures d > 0
  {
    MulSigns(Pow(10, Pos(-dp)), P2(Pos(e)));
    Pow(10, Pos(-dp)) * P2(Pos(e))
  }

  /** The significand is exact, or it is the nearest integer with 53 bits, ties to even. */
  ghost predicate CorrectlyRounded(mant: nat, dp: int, r: Scaling) {
    && r.Scaled?
    && var a, d := Numerator(mant, dp, r.exponent), Denominator(dp, r.exponent);
       && r.significand == RoundHalfEven(a, d)
       && (r.significand * d == a || P2(52) <= r.significand <= P2(53))
  }

  // ---------- rounding depends on the ratio only ----------

  lemma RoundScale(a: nat, d: nat, c: nat)
    requires d > 0 && c > 0
    ensures c * d > 0 && RoundHalfEven(c * a, c * d) == RoundHalfEven(a, d)
  {
    var f, r := a / d, a % d;
    assert a == f * d + r;
    MulSigns(c, d);
    ScaleSum(c, f, d, r);
    MulMono(c, r + 1, d);
    Distribute(c, r, 1);
    QuotientUnique(c * a, c * d, f, c * r);
    assert 2 * (c * r) == c * (2 * r);
    ScaleOrder(c, 2 * r, d);
  }

  lemma ScaleSum(c: nat, f: nat, d: nat, r: nat)
    ensures c * (f * d + r) == f * (c * d) + c * r
  {
    Distribute(c, f * d, r);
    Associate(c, f, d);
    Associate(f, c, d);
  }

  lemma RoundRatio(a: nat, d: nat, a1: nat, d1: nat)
    requires d > 0 && d1 > 0 && a * d1 == a1 * d
    ensures RoundHalfEven(a, d) == RoundHalfEven(a1, d1)
  {
    RoundScale(a, d, d1);
    RoundScale(a1, d1, d);
    hide RoundHalfEven;
    assert d1 * a == d * a1 && d1 * d == d * d1;
  }

  lemma RoundBounds(a: nat, d: nat, lo: nat, hi: nat)
    requires d > 0 && lo * d <= a <= hi * d
    ensures lo <= RoundHalfEven(a, d) <= hi
  {
    Knuth.DivAtLeast(a, d, lo);
    Distribute(d, hi, 1);
    Knuth.DivBelow(a, d, hi + 1);
    var f, r := a / d, a % d;
    assert a == d * f + r;
    if f == hi { assert d * f == hi * d; }
  }

  lemma RoundExact(a: nat)
    ensures RoundHalfEven(a, 1) == a
  {
    QuotientUnique(a, 1, a, 0);
  }

  // ---------- tens are fives and twos ----------

  lemma {:induction false} PowTen(e: nat)
    ensures Pow(10, e) == Pow(5, e) * P2(e)
    decreases e
  {
    if e > 0 {
      PowTen(e - 1);
      TenStep(Pow(5, e - 1), P2(e - 1));
    }
  }

  lemma TenStep(a: nat, b: nat)
    ensures 10 * (a * b) == (5 * a) * (2 * b)
  {
  }

  lemma SamePower(a: nat, b: nat, c: nat, d: nat, e: nat, f: nat)
    requires a + b + c == d + e + f
    ensures P2(a) * (P2(b) * P2(c)) == P2(d) * (P2(e) * P2(f))
  {
    P2Step(b, c);
    P2Step(a, b + c);
    P2Step(e, f);
    P2Step(d, e + f);
  }

  lemma Regroup5(m: nat, f: nat, t: nat, e: nat, g: nat, d: nat)
    ensures (m * ((f * t) * e)) * (g * d) == (m * f * g) * (t * (e * d))
  {
    assert (m * ((f * t) * e)) == (m * f) * (t * e);
    Associate(m * f, t * e, g * d);
    assert (t * e) * (g * d) == g * (t * (e * d));
    Associate(m * f, g, t * (e * d));
  }

  /** The framing with powers of five and one shift, against the definition. */
  lemma Framing(mant: nat, dp: int, e: int)
    ensures var a, d := (mant * Pow(5, Pos(dp))) * P2(Pos(dp - e)), Pow(5, Pos(-dp)) * P2(Pos(e - dp));
            Numerator(mant, dp, e) * d == a * Denominator(dp, e)
  {
    hide Pow, P2;
    PowTen(Pos(dp));
    PowTen(Pos(-dp));
    SamePower(Pos(dp), Pos(-e), Pos(e - dp), Pos(-dp), Pos(e), Pos(dp - e));
    CrossMultiplied(mant, Pow(5, Pos(dp)), Pow(5, Pos(-dp)), P2(Pos(dp)), P2(Pos(-dp)),
                    P2(Pos(-e)), P2(Pos(e)), P2(Pos(e - dp)), P2(Pos(dp - e)));
  }

  lemma CrossMultiplied(m: nat, f: nat, g: nat, t: nat, s: nat, e0: nat, e1: nat, d0: nat, d1: nat)
    requires t * (e0 * d0) == s * (e1 * d1)
    ensures (m * ((f * t) * e0)) * (g * d0) == ((m * f) * d1) * ((g * s) * e1)
  {
    Regroup5(m, f, t, e0, g, d0);
    Regroup6(m, f, d1, g, s, e1);
  }

  lemma Regroup6(m: nat, f: nat, d1: nat, g: nat, s: nat, e1: nat)
    ensures ((m * f) * d1) * ((g * s) * e1) == (m * f * g) * (s * (e1 * d1))
  {
    Associate(m * f, d1, (g * s) * e1);
    assert d1 * ((g * s) * e1) == g * (s * (e1 * d1));
    Associate(m * f, g, s * (e1 * d1));
  }

  lemma FromFraming(mant: nat, dp: int, e: int, i: nat)
    requires var a, d := (mant * Pow(5, Pos(dp))) * P2(Pos(dp - e)), Pow(5, Pos(-dp)) * P2(Pos(e - dp));
             d > 0 && i == RoundHalfEven(a, d) && (i * d == a || P2(52) <= i <= P2(53))
    ensures CorrectlyRounded(mant, dp, Scaled(i, e))
  {
    var a, d := (mant * Pow(5, Pos(dp))) * P2(Pos(dp - e)), Pow(5, Pos(-dp)) * P2(Pos(e - dp));
    var a1, d1 := Numerator(mant, dp, e), Denominator(dp, e);
    Framing(mant, dp, e);
    hide Pow, P2, Numerator, Denominator;
    RoundRatio(a1, d1, a, d);
    if i * d == a {
      ExactRatio(a1, d1, a, d, i);
    }
  }

  lemma ExactRatio(a1: nat, d1: nat, a: nat, d: nat, i: nat)
    requires d > 0 && a1 * d == a * d1 && i * d == a
    ensures i * d1 == a1
  {
    assert (i * d) * d1 == d * (i * d1);
    assert a1 * d == d * a1;
    ScaleOrder(d, i * d1, a1);
  }

  // ---------- sizes ----------

  lemma {:induction false} PowBase(a: nat, b: nat, e: nat)
    requires 0 < a <= b
    ensures Pow(a, e) <= Pow(b, e)
    decreases e
  {
    if e > 0 {
      PowBase(a, b, e - 1);
      MulMono(a, Pow(a, e - 1), Pow(b, e - 1));
      assert Pow(b, e - 1) * a <= Pow(b, e - 1) * b by { MulMono(Pow(b, e - 1), a, b); }
    }
  }

  /** A power of five in the table has at most 26 words. */
  lemma TableSize(p: seq<u32>, z: nat, e: nat)
    requires 0 < z <= |p| && p[z - 1] > 0 && Val(p[..z]) == Pow(5, e) && e <= MAX_POW5
    ensures z <= 26
  {
    hide Val, Pow, P2;
    ValPositive(p, z);
    FiveBound(e);
    if z > 26 {
      PowMono(B, 26, z - 1);
    }
  }

  lemma FiveBound(e: nat)
    requires e <= MAX_POW5
    ensures Pow(5, e) < Pow(B, 26)
  {
    Cubed();
    hide Pow;
    PowMono(5, e, 345);
    PowPow(5, 3, 115);
    PowBase(125, 128, 115);
    PowPow(2, 7, 115);
    PowMono(2, 805, 831);
    PowB(26);
    DoubleUp(831);
  }

  lemma Cubed()
    ensures Pow(5, 3) == 125 && Pow(2, 7) == 128
  {
  }

  lemma DoubleUp(e: nat)
    ensures P2(e + 1) == 2 * P2(e) && P2(e) == Pow(2, e)
  {
  }

  /** The value of the low 64 bits, which is all `doubleValue` reads. */
  function DoubleValue(v0: u32, v1: u32): nat {
    v0 + v1 * B
  }

  lemma ReadLow(q: seq<u32>)
    requires |q| >= 2 && Val(q) <= P2(53)
    ensures DoubleValue(q[0], q[1]) == Val(q)
  {
    assert P2(54) == 2 * P2(53);
    LowWords(q);
  }

  // ---------- exponents at or above zero ----------

  /** The division framing of a number of `bits` bits by a power of two leaves 53 bits. */
  lemma FiftyThree(x: nat, bits: nat)
    requires HasBits(x, bits) && bits > 53
    ensures var d := P2(bits - 53);
            P2(52) * d <= x < P2(53) * d && x / d < P2(53) && x < d * P2(54)
            && P2(52) <= RoundHalfEven(x, d) <= P2(53)
  {
    hide P2, RoundHalfEven;
    var d := P2(bits - 53);
    UnfoldBits(x, bits);
    P2Step(52, bits - 53);
    P2Step(53, bits - 53);
    DoubleUp(53);
    Between(x, d, P2(52), P2(53));
  }

  lemma UnfoldBits(x: nat, bits: nat)
    requires HasBits(x, bits) && bits > 0
    ensures P2(bits - 1) <= x < P2(bits)
  {
  }

  lemma Between(x: nat, d: nat, lo: nat, hi: nat)
    requires d > 0 && lo * d <= x < hi * d
    ensures x / d < hi && x < d * (2 * hi) && lo <= RoundHalfEven(x, d) <= hi
  {
    hide RoundHalfEven;
    assert hi * d == d * hi && d * (2 * hi) == 2 * (d * hi);
    Knuth.DivBelow(x, d, hi);
    RoundBounds(x, d, lo, hi);
  }

  /** A number of `bits` bits is in its low words. */
  lemma FitsWords(s: seq<u32>, bits: nat, m: nat)
    requires HasBits(Val(s), bits) && bits <= 32 * m && m <= |s|
    ensures Val(s[..m]) == Val(s)
  {
    PowB(m);
    PowMono(2, bits, 32 * m);
    P2Positive(m);
    hide Pow, P2, Val;
    ValSmall(s, m);
  }

  lemma P2Positive(m: nat)
    ensures Pow(B, m) > 0
  {
  }

  lemma BitsWithin(s: seq<u32>, bits: nat)
    requires HasBits(Val(s), bits)
    ensures bits <= 32 * |s|
  {
    ValBound(s);
    PowB(|s|);
    if bits > 32 * |s| {
      PowMono(2, 32 * |s|, bits - 1);
    }
  }

  lemma FewBits(x: nat, bits: nat)
    requires HasBits(x, bits) && bits <= 53
    ensures x < P2(53)
  {
    PowMono(2, bits, 53);
  }

  method ScaleUp(mant: u64, dp: nat, pow5: array<u32>, z: nat) returns (r: Scaling)
    requires 0 < z <= 26 && z <= pow5.Length && Val(pow5[..z]) == Pow(5, dp)
    ensures CorrectlyRounded(mant, dp, r)
  {
    hide Val, Pow, P2, HasBits, RoundHalfEven, CorrectlyRounded, Rounded;
    ghost var a := mant * Pow(5, dp);
    var m: int := z + 2;
    var num := new u32[JUMBO];
    if m > JUMBO {
      assert false;
      return NotANumber;
    }
    MulByU64(num, mant, pow5, z);
    ghost var s := num[0..m];
    assert num[..m] == s;
    var bits := BitLength(num, m);
    BitsWithin(s, bits);
    var bex := bits - MANTISSA_BITS;
    if bex <= 0 {
      FewBits(a, bits);
      ReadLow(s);
      FramedUp(mant, dp, 0, a);
      return Scaled(DoubleValue(num[0], num[1]), dp);
    }
    var n := bex / 32 + 1;
    m := (bex + MANTISSA_BITS + 31) / 32;
    if n > NORMAL {
      assert false;
      return NotANumber;
    }
    var scl := new u32[NORMAL];
    OneShiftLeft(scl, bex);
    if m - n + 1 > QUOTIENT {
      assert false;
      return NotANumber;
    }
    var quo := new u32[QUOTIENT];
    FitsWords(s, bits, m);
    FiftyThree(a, bits);
    assert s[..m] == num[..m] && scl[0..n] == scl[..n];
    var res := Quornd(quo, num, scl, m, n);
    ResultBelow(a, P2(bex), Val(quo[0..m - n + 1]), res);
    ReadLow(quo[0..m - n + 1]);
    FramedUp(mant, dp, bex, DoubleValue(quo[0], quo[1]));
    return if res != 0 then NotANumber else Scaled(DoubleValue(quo[0], quo[1]), bex + dp);
  }

  lemma ResultBelow(u: nat, v: nat, q: nat, res: int)
    requires Rounded(u, v, q, res) && u / v < P2(53)
    ensures res == 0 && v > 0 && q == RoundHalfEven(u, v)
  {
  }

  lemma FramedUp(mant: nat, dp: nat, bex: nat, i: nat)
    requires var a := mant * Pow(5, dp);
             if bex == 0 then i == a else i == RoundHalfEven(a, P2(bex)) && P2(52) <= i <= P2(53)
    ensures CorrectlyRounded(mant, dp, Scaled(i, bex + dp))
  {
    var a := mant * Pow(5, dp);
    assert Pow(5, 0) == 1 && P2(0) == 1;
    RoundExact(a);
    hide Pow, P2, RoundHalfEven;
    assert a * 1 == a && 1 * P2(bex) == P2(bex) && i * 1 == i;
    FromFraming(mant, dp, bex + dp, i);
  }

  // ---------- exponents below zero ----------

  lemma BitsShift(x: nat, b: nat, s: nat)
    requires HasBits(x, b) && x > 0
    ensures HasBits(x * P2(s), b + s) && x * P2(s) > 0
  {
    P2Step(b - 1, s);
    P2Step(b, s);
    hide P2;
    ScaleOrder(P2(s), x, P2(b - 1));
    ScaleOrder(P2(s), x, P2(b));
    MulSigns(x, P2(s));
  }

  /** A dividend 53 bits longer than the divisor has a quotient of 53 or 54 bits. */
  lemma QuotientBits(u: nat, v: nat, t: nat)
    requires v > 0 && HasBits(v, t) && HasBits(u, t + 53)
    ensures P2(52) * v <= u < v * P2(54)
  {
    hide P2;
    UnfoldBits(v, t);
    UnfoldBits(u, t + 53);
    P2Step(52, t);
    P2Step(54, t - 1);
    MulMono(P2(52), v, P2(t));
    MulMono(P2(54), P2(t - 1), v);
  }

  /** The rounded quotient has 53 bits, by the divisor or by its double. */
  lemma RoundedBits(u: nat, v: nat, q: nat, res: int)
    requires Rounded(u, v, q, res) && P2(52) * v <= u < v * P2(54)
    ensures res == 0 || res == -1
    ensures q == RoundHalfEven(u, if res < 0 then 2 * v else v) && P2(52) <= q <= P2(53)
  {
    hide P2, RoundHalfEven;
    DoubleUp(52);
    DoubleUp(53);
    if u / v < P2(53) {
      WholeBits(u, v, P2(52), P2(53));
    } else {
      HalfBits(u, v, P2(52));
    }
  }

  lemma WholeBits(u: nat, v: nat, lo: nat, hi: nat)
    requires v > 0 && lo * v <= u && u / v < hi
    ensures lo <= RoundHalfEven(u, v) <= hi
  {
    hide RoundHalfEven;
    assert u == v * (u / v) + u % v;
    MulMono(v, u / v + 1, hi);
    Distribute(v, u / v, 1);
    RoundBounds(u, v, lo, hi);
  }

  lemma HalfBits(u: nat, v: nat, lo: nat)
    requires v > 0 && 2 * lo <= u / v && u < v * (4 * lo)
    ensures lo <= RoundHalfEven(u, 2 * v) <= 2 * lo
  {
    hide RoundHalfEven;
    assert u == v * (u / v) + u % v;
    MulMono(v, 2 * lo, u / v);
    assert v * (2 * lo) == lo * (2 * v) && v * (4 * lo) == (2 * lo) * (2 * v);
    RoundBounds(u, 2 * v, lo, 2 * lo);
  }

  lemma ZeroRounded(v: nat, q: nat, res: int)
    requires Rounded(0, v, q, res)
    ensures res == 0 && q == 0
  {
    QuotientUnique(0, v, 0, 0);
  }

  /** What the division says, whatever the size of the mantissa. */
  ghost predicate Quotient53(u: nat, v: nat, q: nat, res: int) {
    && v > 0 && (res == 0 || res == -1)
    && var d := if res < 0 then 2 * v else v;
       q == RoundHalfEven(u, d) && (q * d == u || P2(52) <= q <= P2(53))
  }

  lemma QuotientOf(u: nat, v: nat, t: nat, q: nat, res: int)
    requires Rounded(u, v, q, res) && HasBits(v, t) && (u > 0 ==> HasBits(u, t + 53))
    ensures Quotient53(u, v, q, res) && q <= P2(53)
  {
    hide P2, HasBits;
    if u == 0 {
      ZeroRounded(v, q, res);
      hide RoundHalfEven;
    } else {
      hide RoundHalfEven;
      QuotientBits(u, v, t);
      RoundedBits(u, v, q, res);
    }
  }

  ghost function FrameTop(mant: nat, dp: int, e: int): nat {
    (mant * Pow(5, Pos(dp))) * P2(Pos(dp - e))
  }

  ghost function FrameBottom(dp: int, e: int): nat {
    Pow(5, Pos(-dp)) * P2(Pos(e - dp))
  }

  /** Halving the quotient is one more in the exponent. */
  lemma NextFrame(mant: nat, dp: int, e: int)
    ensures FrameTop(mant, dp, e) * FrameBottom(dp, e + 1) == FrameTop(mant, dp, e + 1) * (2 * FrameBottom(dp, e))
    ensures FrameBottom(dp, e) > 0
  {
    hide Pow, P2;
    MulSigns(Pow(5, Pos(-dp)), P2(Pos(e - dp)));
    if e < dp {
      DoubleUp(dp - e - 1);
      NextTop(mant * Pow(5, Pos(dp)), P2(dp - e - 1), FrameBottom(dp, e));
    } else {
      DoubleUp(e - dp);
      NextBottom(FrameTop(mant, dp, e), Pow(5, Pos(-dp)), P2(e - dp));
    }
  }

  lemma NextTop(a: nat, p: nat, d: nat)
    ensures (a * (2 * p)) * d == (a * p) * (2 * d)
  {
    assert a * (2 * p) == 2 * (a * p);
  }

  lemma NextBottom(a: nat, g: nat, p: nat)
    ensures a * (g * (2 * p)) == a * (2 * (g * p))
  {
    assert g * (2 * p) == 2 * (g * p);
  }

  lemma FromQuotient(mant: nat, dp: int, e: int, q: nat, res: int)
    requires Quotient53(FrameTop(mant, dp, e), FrameBottom(dp, e), q, res)
    ensures CorrectlyRounded(mant, dp, Scaled(q, if res < 0 then e + 1 else e))
  {
    if res < 0 {
      var a, d := FrameTop(mant, dp, e), FrameBottom(dp, e);
      var a1, d1 := FrameTop(mant, dp, e + 1), FrameBottom(dp, e + 1);
      NextFrame(mant, dp, e);
      NextFrame(mant, dp, e + 1);
      NextQuotient(a, d, a1, d1, q);
      FromFraming(mant, dp, e + 1, q);
    } else {
      FromFraming(mant, dp, e, q);
    }
  }

  lemma NextQuotient(a: nat, d: nat, a1: nat, d1: nat, q: nat)
    requires d > 0 && d1 > 0 && a * d1 == a1 * (2 * d)
    ensures RoundHalfEven(a, 2 * d) == RoundHalfEven(a1, d1)
    ensures q * (2 * d) == a ==> q * d1 == a1
  {
    RoundRatio(a, 2 * d, a1, d1);
    if q * (2 * d) == a {
      ExactRatio(a1, d1, a, 2 * d, q);
    }
  }

  /** The two framings of a negative exponent. */
  lemma DownFrame(mant: nat, dp: int, bex: int)
    requires dp < 0
    ensures FrameTop(mant, dp, bex + dp) == if bex > 0 then mant else mant * P2(-bex)
    ensures FrameBottom(dp, bex + dp) == if bex > 0 then Pow(5, -dp) * P2(bex) else Pow(5, -dp)
  {
    assert Pow(5, 0) == 1 && P2(0) == 1;
    hide Pow, P2;
    assert mant * 1 == mant && Pow(5, -dp) * 1 == Pow(5, -dp);
  }

  lemma P2Mono(a: nat, b: nat)
    requires a <= b
    ensures P2(a) <= P2(b)
  {
    PowMono(2, a, b);
  }

  lemma TopBits(p: seq<u32>, z: nat, bl: nat)
    requires 0 < z <= |p| && p[z - 1] > 0 && HasBits(Val(p[..z]), bl)
    ensures 32 * (z - 1) < bl <= 32 * z
  {
    hide Val, Pow, P2, HasBits;
    BitsWithin(p[..z], bl);
    ValPositive(p, z);
    PowB(z - 1);
    SomeBits(Val(p[..z]), bl);
    if bl <= 32 * (z - 1) {
      P2Mono(bl, 32 * (z - 1));
    }
  }

  lemma SomeBits(x: nat, b: nat)
    requires HasBits(x, b)
    ensures x < P2(b) && (x > 0 ==> b > 0)
    ensures x == 0 ==> b == 0
  {
  }

  lemma BitsFit(x: nat, b: nat, m: nat)
    requires HasBits(x, b) && b <= 32 * m
    ensures x < Pow(B, m)
  {
    hide P2, Pow, HasBits;
    SomeBits(x, b);
    PowB(m);
    P2Mono(b, 32 * m);
  }

  /** A number below 2^32 is its first word. */
  lemma OneWord(s: seq<u32>, b: nat)
    requires s != [] && HasBits(Val(s), b) && 0 < b <= 32
    ensures Val(s[..1]) == Val(s) && s[0] > 0
  {
    hide P2, Pow, HasBits, Val;
    SomeBits(Val(s), b);
    BitsFit(Val(s), b, 1);
    ValSmall(s, 1);
    assert s[..1] == [s[0]];
    ValOne(s[0]);
    NoBits(b);
  }

  lemma NoBits(b: nat)
    ensures HasBits(0, b) ==> b == 0
  {
  }

  lemma TwoWords(a: array<u32>, mant: u64)
    requires a.Length >= 2 && a[0] == mant % B && a[1] == mant / B
    ensures Val(a[..2]) == mant
  {
    assert a[..2] == [a[0], a[1]];
    assert a[..2][1..] == [a[1]];
    ValOne(a[1]);
  }

  lemma SameBits(x: nat, r: nat, t: nat)
    requires HasBits(x, r) && HasBits(x, t)
    ensures r == t
  {
    hide P2;
    if 0 < r < t {
      P2Mono(r, t - 1);
    } else if 0 < t < r {
      P2Mono(t, r - 1);
    }
  }

  lemma ShiftedFits(mant: nat, b: nat, s: nat, m: nat)
    requires HasBits(mant, b) && b + s <= 32 * m
    ensures mant * P2(s) < Pow(B, m)
  {
    hide P2, HasBits;
    if mant == 0 {
      assert 0 * P2(s) == 0;
      P2Positive(m);
    } else {
      hide Pow;
      BitsShift(mant, b, s);
      BitsFit(mant * P2(s), b + s, m);
    }
  }

  lemma DownBits(mant: nat, bma: nat, five: nat, bl: nat, bex: int, u: nat, v: nat)
    requires HasBits(mant, bma) && HasBits(five, bl) && five > 0 && bex == bma - bl - 53
    requires u == (if bex > 0 then mant else mant * P2(-bex)) && v == if bex > 0 then five * P2(bex) else five
    ensures var t := if bex > 0 then bl + bex else bl;
            HasBits(v, t) && v > 0 && (u > 0 ==> HasBits(u, t + 53))
  {
    hide P2, HasBits;
    if bex > 0 {
      BitsShift(five, bl, bex);
    } else if mant > 0 {
      BitsShift(mant, bma, -bex);
    } else {
      assert 0 * P2(-bex) == 0;
    }
  }

  /** The division, and the exponent it adjusts. */
  method DivideDown(mant: u64, dp: int, bex: int, num: array<u32>, pow5: array<u32>, m: nat, n: nat, ghost t: nat)
    returns (r: Scaling)
    requires 0 < n < m <= num.Length && n <= pow5.Length && m - n < QUOTIENT && m < JUMBO && pow5[n - 1] > 0
    requires Val(num[..m]) == FrameTop(mant, dp, bex + dp) && Val(pow5[..n]) == FrameBottom(dp, bex + dp)
    requires HasBits(Val(pow5[..n]), t) && (Val(num[..m]) > 0 ==> HasBits(Val(num[..m]), t + 53))
    ensures CorrectlyRounded(mant, dp, r)
  {
    hide Val, Pow, P2, HasBits, RoundHalfEven, CorrectlyRounded, Rounded, FrameTop, FrameBottom, Quotient53;
    var quo := new u32[QUOTIENT];
    ghost var u, v := Val(num[..m]), Val(pow5[..n]);
    ValPositive(pow5[..], n);
    assert pow5[..][..n] == pow5[..n];
    SmallQuotient(u, v, t);
    var res := Quornd(quo, num, pow5, m, n);
    ghost var q := Val(quo[0..m - n + 1]);
    QuotientOf(u, v, t, q, res);
    ReadLow(quo[0..m - n + 1]);
    FromQuotient(mant, dp, bex + dp, q, res);
    if res > 0 {
      PositiveResult(u, v, q, res);
      assert false;
      return NotANumber;
    }
    return Scaled(DoubleValue(quo[0], quo[1]), (if res < 0 then bex + 1 else bex) + dp);
  }

  lemma SmallQuotient(u: nat, v: nat, t: nat)
    requires v > 0 && HasBits(v, t) && (u > 0 ==> HasBits(u, t + 53))
    ensures u < v * P2(54)
  {
    hide P2, HasBits;
    if u == 0 {
      MulSigns(v, P2(54));
    } else {
      QuotientBits(u, v, t);
    }
  }

  lemma PositiveResult(u: nat, v: nat, q: nat, res: int)
    requires Quotient53(u, v, q, res)
    ensures res <= 0
  {
  }

  method ScaleDown(mant: u64, dp: int, table: array<u32>, z: nat) returns (r: Scaling)
    requires dp < 0 && 0 < z <= 26 && z <= table.Length && table[z - 1] > 0 && Val(table[..z]) == Pow(5, -dp)
    ensures CorrectlyRounded(mant, dp, r)
  {
    hide Val, Pow, P2, HasBits, RoundHalfEven, CorrectlyRounded, Rounded, Nlz64, FrameTop, FrameBottom, Quotient53;
    var pow5, num := table, new u32[JUMBO];
    var bma := 64 - Nlz64(mant);
    WideBits(mant);
    var bl := BitLength(table, z);
    TopBits(table[..], z, bl) by { assert table[..][..z] == table[..z]; }
    var bex := bma - bl - MANTISSA_BITS;
    var m: int, n: nat;
    ghost var five := Pow(5, -dp);
    assert five > 0;
    DownFrame(mant, dp, bex);
    if bex > 0 {
      m := 2;
      num[0] := mant % B;
      num[1] := mant / B;
      TwoWords(num, mant);
      if z + 1 > NORMAL {
        assert false;
        return NotANumber;
      }
      var scl := new u32[NORMAL];
      SclShiftLeftBy(scl, table, z + 1, bex);
      assert table[..z + 1 - 1 - bex / 32] == table[..z];
      assert scl[0..z + 1] == scl[..z + 1];
      BitsShift(five, bl, bex);
      var sb := BitLength(scl, z + 1);
      SameBits(five * P2(bex), sb, bl + bex);
      OneWord(scl[..z + 1], sb);
      assert scl[..z + 1][..1] == scl[..1];
      n := (sb + 31) / 32;
      pow5 := scl;
    } else {
      m := (bma - bex + 31) / 32;
      if m > JUMBO {
        assert false;
        return NotANumber;
      }
      ShiftedFits(mant, bma, -bex, m);
      U64ShiftLeft(num, mant, m, -bex);
      assert num[0..m] == num[..m];
      n := z;
    }
    if m - n + 1 > QUOTIENT {
      assert false;
      return NotANumber;
    }
    ghost var u, v := FrameTop(mant, dp, bex + dp), FrameBottom(dp, bex + dp);
    assert Val(num[..m]) == u && Val(pow5[..n]) == v && pow5[n - 1] > 0;
    DownBits(mant, bma, five, bl, bex, u, v);
    r := DivideDown(mant, dp, bex, num, pow5, m, n, if bex > 0 then bl + bex else bl);
  }

  /** For every 64-bit mantissa and every exponent the table covers, the result is the mantissa
      times the power of ten, rounded half to even to 53 bits. `table[..z]` is what `get_pow5`
      finds for the exponent. */
  method AtodGuts(mant: u64, dp: int, table: array<u32>, z: nat) returns (r: Scaling)
    requires -MAX_POW5 <= dp <= MAX_POW5 ==>
      0 < z <= table.Length && table[z - 1] > 0 && Val(table[..z]) == Pow(5, if dp >= 0 then dp else -dp)
    ensures -MAX_POW5 <= dp <= MAX_POW5 ==> CorrectlyRounded(mant, dp, r)
    ensures !(-MAX_POW5 <= dp <= MAX_POW5) ==> r.NotANumber?
  {
    hide Val, Pow, CorrectlyRounded;
    if dp > MAX_POW5 || -dp > MAX_POW5 {
      return NotANumber;
    }
    assert table[..][..z] == table[..z];
    TableSize(table[..], z, if dp >= 0 then dp else -dp);
    if dp >= 0 {
      r := ScaleUp(mant, dp, table, z);
    } else {
      r := ScaleDown(mant, dp, table, z);
    }
  }
}
