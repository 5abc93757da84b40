/** `ac_roundup32`: the next power of two, by smearing the top bit down. */
module RoundUp {
  import opened Limbs
  import opened Probing
  import Knuth

  function ShiftRight(a: nat, w: nat): nat {
    a / P2(w)
  }

  /** Bitwise or. */
  function Or(a: nat, b: nat): nat
    decreases a + b
  {
    if a == 0 then b else if b == 0 then a
    else 2 * Or(a / 2, b / 2) + if a % 2 == 1 || b % 2 == 1 then 1 else 0
  }

  lemma {:induction false} OrBounds(a: nat, b: nat, k: nat)
    requires a < P2(k) && b < P2(k)
    ensures Or(a, b) >= b && Or(a, b) < P2(k)
    decreases a + b
  {
    if a > 0 && b > 0 {
      OrBounds(a / 2, b / 2, k - 1);
    }
  }

  /** Bits above the other operand stay as they are. */
  lemma {:induction false} OrHigh(h: nat, low: nat, b: nat, k: nat)
    requires low < P2(k) && b < P2(k)
    ensures h * P2(k) >= 0 && Or(h * P2(k) + low, b) == h * P2(k) + Or(low, b)
    decreases k
  {
    if k > 0 {
      var e := h * P2(k - 1);
      assert h * P2(k) == 2 * e;
      OrHigh(h, low / 2, b / 2, k - 1);
      assert (2 * e + low) / 2 == e + low / 2 && (2 * e + low) % 2 == low % 2;
    } else {
      assert h * 1 == h;
    }
  }

  /** Of `len` bits, the top `w` are ones. */
  ghost predicate TopOnes(a: nat, len: nat, w: nat) {
    w <= len && P2(len) - P2(len - w) <= a < P2(len)
  }

  /** One smearing step doubles the run of ones. */
  lemma Smear(a: nat, len: nat, w: nat)
    requires TopOnes(a, len, w)
    ensures TopOnes(Or(a, ShiftRight(a, w)), len, if 2 * w <= len then 2 * w else len)
  {
    hide Or, Pow;
    var p, q := P2(len - w), P2(w);
    PowAdd(2, len - w, w);
    SplitTop(a, p, q);
    var low, b := a - (q - 1) * p, a / q;
    Knuth.DivBelow(a, q, p);
    OrHigh(q - 1, low, b, len - w);
    OrBounds(low, b, len - w);
    if 2 * w <= len {
      PowAdd(2, len - 2 * w, w);
      RunLow(a, P2(len - 2 * w), p, q);
    } else {
      PowAdd(2, 2 * w - len, len - w);
      RunAll(a, P2(2 * w - len), p, q);
    }
  }

  lemma SplitTop(a: nat, p: nat, q: nat)
    requires p > 0 && q > 0 && p * q - p <= a < p * q
    ensures (q - 1) * p == p * q - p && 0 <= a - (q - 1) * p < p && a < q * p
  {
  }

  lemma RunLow(a: nat, r: nat, p: nat, q: nat)
    requires q > 0 && r > 0 && p == r * q && p * q - p <= a
    ensures p - r <= a / q
  {
    assert p >= r by { MulMono(r, 1, q); }
    assert q * (p - r) == p * q - r * q;
    Knuth.DivAtLeast(a, q, p - r);
  }

  lemma RunAll(a: nat, r: nat, p: nat, q: nat)
    requires q > 0 && r > 0 && p > 0 && q == r * p && p * q - p <= a
    ensures p - 1 <= a / q
  {
    assert q >= p by { MulMono(p, 1, r); }
    assert q * (p - 1) == p * q - q;
    Knuth.DivAtLeast(a, q, p - 1);
  }

  function SmearAll(x: nat): nat {
    var a := Or(x, ShiftRight(x, 1));
    var b := Or(a, ShiftRight(a, 2));
    var c := Or(b, ShiftRight(b, 4));
    var d := Or(c, ShiftRight(c, 8));
    Or(d, ShiftRight(d, 16))
  }

  /** Negative numbers and zero smear to all ones, so that the increment gives zero. */
  function RoundUp32(x: int): nat {
    if x <= 0 then 0 else SmearAll(x - 1) + 1
  }

  lemma RoundUpNegative(x: int)
    ensures x <= 0 ==> RoundUp32(x) == 0
  {
  }

  lemma BitLen(x: nat) returns (len: nat)
    ensures TopOnes(x, len, if len == 0 then 0 else 1)
    ensures len > 0 ==> P2(len - 1) <= x
  {
    if x == 0 {
      len := 0;
    } else {
      var l := BitLen(x / 2);
      len := l + 1;
    }
  }

  lemma Consts()
    ensures P2(0) == 1 && P2(1) == 2 && P2(2) == 4 && P2(4) == 16 && P2(8) == 256 && P2(16) == 65536
  {
    PowAdd(2, 8, 8);
    assert P2(8) == 256;
  }

  lemma Six()
    ensures P2(6) == 64
  {
  }

  lemma Smeared(x: nat, len: nat)
    requires TopOnes(x, len, if len == 0 then 0 else 1) && len <= 32
    ensures SmearAll(x) == P2(len) - 1
  {
    hide TopOnes, P2, Or, ShiftRight;
    var a := Or(x, ShiftRight(x, 1));
    var b := Or(a, ShiftRight(a, 2));
    var c := Or(b, ShiftRight(b, 4));
    var d := Or(c, ShiftRight(c, 8));
    if len == 0 {
      ZeroSmear(x);
    } else {
      Smear(x, len, 1);
      More(a, len, 2);
      More(b, len, 4);
      More(c, len, 8);
      More(d, len, 16);
      AllOnes(Or(d, ShiftRight(d, 16)), len);
    }
  }

  lemma ZeroSmear(x: nat)
    requires TopOnes(x, 0, 0)
    ensures x == 0 && SmearAll(x) == 0 && P2(0) == 1
  {
    assert x == 0;
    ZeroShift(1);
    ZeroShift(2);
    ZeroShift(4);
    ZeroShift(8);
    ZeroShift(16);
    hide ShiftRight;
  }

  lemma ZeroShift(w: nat)
    ensures ShiftRight(0, w) == 0
  {
    hide Pow;
    QuotientUnique(0, P2(w), 0, 0);
  }

  /** Smearing by `w` when at least `min(w, len)` ones are there. */
  lemma More(a: nat, len: nat, w: nat)
    requires TopOnes(a, len, if w <= len then w else len)
    ensures TopOnes(Or(a, ShiftRight(a, w)), len, if 2 * w <= len then 2 * w else len)
  {
    if w <= len {
      Smear(a, len, w);
    } else {
      PowMono(2, len, w);
      NoneLeft(a, P2(w));
    }
  }

  lemma NoneLeft(a: nat, q: nat)
    requires a < q
    ensures a / q == 0 && Or(a, 0) == a
  {
    QuotientUnique(a, q, 0, a);
  }

  lemma AllOnes(a: nat, len: nat)
    requires TopOnes(a, len, len)
    ensures a == P2(len) - 1
  {
  }

  lemma {:induction false} Exp2Power(k: nat)
    ensures PowerOfTwo(P2(k))
    decreases k
  {
    if k > 0 {
      Exp2Power(k - 1);
      assert P2(k) / 2 == P2(k - 1);
    }
  }

  /** The smallest power of two that is not below `x`. */
  lemma RoundUpIs(x: nat)
    requires 0 < x <= 0x4000_0000
    ensures PowerOfTwo(RoundUp32(x)) && x <= RoundUp32(x) < 2 * x
  {
    hide SmearAll, PowerOfTwo, TopOnes, Pow;
    var len := BitLen(x - 1);
    LenBound(x - 1, len);
    Smeared(x - 1, len);
    Exp2Power(len);
    LenIs(x - 1, len);
  }

  lemma LenIs(x: nat, len: nat)
    requires TopOnes(x, len, if len == 0 then 0 else 1) && (len > 0 ==> P2(len - 1) <= x)
    ensures x < P2(len) && P2(len) < 2 * (x + 1)
  {
  }

  lemma LenBound(x: nat, len: nat)
    requires x < 0x4000_0000 && (len > 0 ==> P2(len - 1) <= x)
    ensures len <= 30
  {
    Thirty();
    hide Pow;
    if len > 30 {
      PowMono(2, 30, len - 1);
    }
  }

  lemma Thirty()
    ensures P2(30) == 0x4000_0000
  {
    Consts();
    Six();
    hide Pow;
    PowAdd(2, 16, 14);
    PowAdd(2, 8, 6);
  }

  /** Powers of two are at least a factor of two apart. */
  lemma {:induction false} PowersApart(p: nat, q: nat)
    requires PowerOfTwo(p) && PowerOfTwo(q) && p < q
    ensures 2 * p <= q
    decreases p
  {
    if p > 1 {
      PowersApart(p / 2, q / 2);
    }
  }

  /** A table asked for one bucket less keeps its size; asked for one more, it doubles. */
  lemma NextSize(n: nat)
    requires PowerOfTwo(n) && 4 <= n < 0x4000_0000
    ensures RoundUp32(n - 1) == n && RoundUp32(n + 1) == 2 * n
  {
    hide RoundUp32;
    RoundUpIs(n - 1);
    RoundUpIs(n + 1);
    Doubled(n);
    OnlyPower(RoundUp32(n - 1), n);
    OnlyPower(RoundUp32(n + 1), 2 * n);
  }

  lemma Doubled(n: nat)
    requires PowerOfTwo(n)
    ensures PowerOfTwo(2 * n)
  {
    assert (2 * n) / 2 == n;
  }

  lemma OnlyPower(p: nat, q: nat)
    requires PowerOfTwo(p) && PowerOfTwo(q) && p < 2 * q && q < 2 * p
    ensures p == q
  {
    if p < q { PowersApart(p, q); } else if q < p { PowersApart(q, p); }
  }
}
