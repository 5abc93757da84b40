/** Grisu2's digit generation and final rounding. */
module DigitGeneration {
  import opened Limbs
  import opened Decimals
  import RoundedDivision

  /** `f * 2^e`. */
  datatype DiyFp = DiyFp(f: u64, e: int)

  const POW10: seq<u64> := [1, 10, 100, 1000, 10000, 100000, 1000000, 10000000, 100000000, 1000000000]

  lemma Pow10Table(k: nat)
    requires k < 10
    ensures POW10[k] == Pow(10, k)
  {
    assert Pow(10, 1) == 10 && Pow(10, 2) == 100 && Pow(10, 3) == 1000;
    assert Pow(10, 4) == 10000 && Pow(10, 5) == 100000 && Pow(10, 6) == 1000000;
    assert Pow(10, 7) == 10000000 && Pow(10, 8) == 100000000 && Pow(10, 9) == 1000000000;
  }

  function CountDecimalDigit32(n: u32): (r: nat)
    ensures 1 <= r <= 10
  {
    if n < 10 then 1
    else if n < 100 then 2
    else if n < 1000 then 3
    else if n < 10000 then 4
    else if n < 100000 then 5
    else if n < 1000000 then 6
    else if n < 10000000 then 7
    else if n < 100000000 then 8
    else if n < 1000000000 then 9
    else 10
  }

  lemma CountIs(n: u32)
    requires n > 0
    ensures var r := CountDecimalDigit32(n); Pow(10, r - 1) <= n < Pow(10, r)
  {
    forall k: nat | k < 10 ensures POW10[k] == Pow(10, k) { Pow10Table(k); }
    assert Pow(10, 10) == 10 * Pow(10, 9);
  }

  // ---------- multiplication ----------

  /** `DiyFp_multiply` where the compiler has 128-bit integers. */
  function MultiplyWide(x: u64, y: u64): nat {
    var p: nat := x * y;
    var h, l := p / U64, p % U64;
    if l >= U64 / 2 then h + 1 else h
  }

  /** `DiyFp_multiply` from 32-bit halves, whose products and middle sum fit 64 bits. The last sum does as well, as
      `MultiplyRounds` shows. */
  function MultiplyHalves(x: u64, y: u64): nat {
    var a: u32, b: u32, c: u32, d: u32 := x / B, x % B, y / B, y % B;
    var ac, bc, ad, bd := HalfProduct(a, c), HalfProduct(b, c), HalfProduct(a, d), HalfProduct(b, d);
    var tmp: u64 := bd / B + ad % B + bc % B + B / 2;
    ac + ad / B + bc / B + tmp / B
  }

  function HalfProduct(x: u32, y: u32): (p: u64) {
    ProductBelow(x, y, B - 1);
    assert (B - 1) * (B - 1) < U64;
    x * y
  }

  lemma Halves(a: nat, b: nat, c: nat, d: nat)
    ensures (a * B + b) * (c * B + d) == (a * c * B + a * d + b * c) * B + b * d
  {
    assert (a * B + b) * (c * B + d) == (a * B) * (c * B) + (a * B) * d + b * (c * B) + b * d;
    assert (a * B) * (c * B) == (a * c * B) * B;
    assert (a * B) * d == (a * d) * B && b * (c * B) == (b * c) * B;
  }

  lemma DropLow(n: nat, r: nat)
    requires r < B * B
    ensures (n * B + r + U64 / 2) / U64 == (n + r / B + B / 2) / B
  {
    assert U64 == B * B;
  }

  lemma Upper(ac: nat, ad: nat, bc: nat, t: nat)
    ensures (ac * B + ad + bc + t + B / 2) / B == ac + ad / B + bc / B + (t + ad % B + bc % B + B / 2) / B
  {
  }

  /** Both forms give the product in units of `2^64`, rounded half up, in 64 bits. */
  lemma MultiplyRounds(x: u64, y: u64)
    ensures MultiplyWide(x, y) == (x * y + U64 / 2) / U64
    ensures MultiplyHalves(x, y) == MultiplyWide(x, y) < U64
  {
    var a, b, c, d := x / B, x % B, y / B, y % B;
    HalvesSmall(x, y);
    Halves(a, b, c, d);
    DropLow(a * c * B + a * d + b * c, b * d);
    Upper(a * c, a * d, b * c, b * d / B);
    WideIs(x * y);
  }

  lemma HalvesSmall(x: u64, y: u64)
    ensures x == (x / B) * B + x % B && y == (y / B) * B + y % B
    ensures 0 <= (x % B) * (y % B) < B * B && 0 <= x * y <= (U64 - 1) * (U64 - 1)
  {
    ProductBelow(x % B, y % B, B - 1);
    ProductBelow(x, y, U64 - 1);
    assert (B - 1) * (B - 1) < B * B;
  }

  lemma ProductBelow(x: nat, y: nat, m: nat)
    requires x <= m && y <= m
    ensures 0 <= x * y <= m * m
  {
    MulMonoInt(x, y, m);
    MulMonoInt(m, x, m);
  }

  lemma WideIs(p: nat)
    requires p <= (U64 - 1) * (U64 - 1)
    ensures (p + U64 / 2) / U64 == p / U64 + (if p % U64 >= U64 / 2 then 1 else 0) < U64
  {
  }

  // ---------- rounding the last digit ----------

  function Distance(a: int, b: int): nat {
    if a < b then b - a else a - b
  }

  /** The guard of the loop in `GrisuRound`; no subtraction or addition in it wraps. */
  predicate Decrements(delta: u64, rest: u64, tenKappa: u64, wpW: u64)
    requires rest <= delta
  {
    && rest < wpW
    && delta - rest >= tenKappa
    && var next: u64 := rest + tenKappa;
       (next < wpW || (wpW - rest) as u64 > (next - wpW) as u64)
  }

  /** Multiples of `t` that `d` more of them overrun. */
  lemma FewSteps(r: int, j: int, d: int, t: int, delta: int)
    requires r + j * t <= delta < r + (d + 1) * t && t > 0
    ensures j <= d
  {
    if j > d { MulMonoInt(t, d + 1, j); }
  }

  lemma MulMonoInt(t: int, a: int, b: int)
    requires t >= 0 && a <= b
    ensures a * t <= b * t
  {
  }

  /** No reachable number of decrements comes closer than `j`. */
  ghost predicate Nearest(delta: int, rest: int, tenKappa: int, wpW: int, j: int) {
    forall i: nat {:trigger Steps(rest, i, tenKappa)} :: Steps(rest, i, tenKappa) <= delta ==>
      Distance(wpW, Steps(rest, j, tenKappa)) <= Distance(wpW, Steps(rest, i, tenKappa))
  }

  function Steps(rest: int, j: int, tenKappa: int): int {
    rest + j * tenKappa
  }

  lemma NearestHere(delta: int, rest0: int, tenKappa: int, wpW: int, j: nat)
    requires tenKappa > 0 && Steps(rest0, j, tenKappa) <= delta
    requires forall i: nat {:trigger Steps(rest0, i, tenKappa)} :: i < j ==>
      Distance(wpW, Steps(rest0, j, tenKappa)) <= Distance(wpW, Steps(rest0, i, tenKappa))
    requires var rest := Steps(rest0, j, tenKappa);
      !(rest < wpW && delta - rest >= tenKappa && (rest + tenKappa < wpW || wpW - rest > rest + tenKappa - wpW))
    ensures Nearest(delta, rest0, tenKappa, wpW, j)
  {
    forall i: nat {:trigger Steps(rest0, i, tenKappa)} | Steps(rest0, i, tenKappa) <= delta
      ensures Distance(wpW, Steps(rest0, j, tenKappa)) <= Distance(wpW, Steps(rest0, i, tenKappa))
    {
      if i > j {
        MulMonoInt(tenKappa, j + 1, i);
        assert (j + 1) * tenKappa == j * tenKappa + tenKappa;
      }
    }
  }

  lemma StepsNext(rest: int, j: int, t: int)
    ensures Steps(rest, j + 1, t) == Steps(rest, j, t) + t
  {
    assert (j + 1) * t == j * t + t;
  }

  /** Moves the last digit towards `W`. The result stays in the interval, the digit stays a digit,
      and no other choice of it in the interval below the start is nearer to `W`. */
  method GrisuRound(buffer: array<char>, len: nat, delta: u64, rest0: u64, tenKappa: u64, wpW: u64)
    returns (ghost j: nat)
    requires 0 < len <= buffer.Length && IsDigit(buffer[len - 1])
    requires tenKappa > 0 && rest0 <= delta < Steps(rest0, DigitOf(buffer[len - 1]) + 1, tenKappa)
    modifies buffer
    ensures j <= DigitOf(old(buffer[len - 1]))
    ensures buffer[..] == old(buffer[..])[len - 1 := Digit(DigitOf(old(buffer[len - 1])) - j)]
    ensures Steps(rest0, j, tenKappa) <= delta && Nearest(delta, rest0, tenKappa, wpW, j)
  {
    hide Distance;
    var rest: u64 := rest0;
    j := 0;
    ghost var d := DigitOf(buffer[len - 1]);
    hide Steps;
    assert Steps(rest0, 0, tenKappa) == rest0 by { StepsZero(rest0, tenKappa); }
    while Decrements(delta, rest, tenKappa, wpW)
      invariant rest == Steps(rest0, j, tenKappa) && rest <= delta && 0 <= j <= d
      invariant buffer[..] == old(buffer[..])[len - 1 := Digit(d - j)]
      invariant forall i: nat {:trigger Steps(rest0, i, tenKappa)} :: i < j ==>
        Distance(wpW, rest) <= Distance(wpW, Steps(rest0, i, tenKappa))
      decreases delta - rest
    {
      StepsNext(rest0, j, tenKappa);
      StepsFew(rest0, j + 1, d, tenKappa, delta);
      Nearer(delta, rest, tenKappa, wpW);
      assert buffer[len - 1] == buffer[..][len - 1];
      buffer[len - 1] := (buffer[len - 1] as int - 1) as char;
      rest := rest + tenKappa;
      j := j + 1;
    }
    NearestHere(delta, rest0, tenKappa, wpW, j);
  }

  lemma StepsZero(rest: int, t: int)
    ensures Steps(rest, 0, t) == rest
  {
  }

  lemma StepsFew(rest: int, j: int, d: int, t: int, delta: int)
    requires Steps(rest, j, t) <= delta < Steps(rest, d + 1, t) && t > 0
    ensures j <= d
  {
    FewSteps(rest, j, d, t, delta);
  }

  lemma Nearer(delta: u64, rest: u64, tenKappa: u64, wpW: u64)
    requires rest <= delta && Decrements(delta, rest, tenKappa, wpW)
    ensures Distance(wpW, rest + tenKappa) <= Distance(wpW, rest)
  {
  }

  // ---------- the interval ----------

  /** `D * 10^kappa` lies in `[(f - delta) / 2^e, f / 2^e]`. */
  ghost predicate Contained(f: nat, delta: nat, e: nat, D: nat, kappa: int) {
    if kappa >= 0 then f - delta <= (D * Pow(10, kappa)) * P2(e) <= f
    else (f - delta) * Pow(10, -kappa) <= D * P2(e) <= f * Pow(10, -kappa)
  }

  /** How far `D * 10^kappa` is from `W / 2^e`, in units that make both whole. */
  function Gap(W: int, e: nat, D: nat, kappa: int): nat {
    if kappa >= 0 then Distance(W, (D * Pow(10, kappa)) * P2(e)) else Distance(W * Pow(10, -kappa), D * P2(e))
  }

  /** No multiple of `10^kappa` in the interval is nearer to `W`. */
  ghost predicate Closest(f: nat, delta: nat, e: nat, W: int, D: nat, kappa: int) {
    forall D1: nat :: Contained(f, delta, e, D1, kappa) ==> Gap(W, e, D, kappa) <= Gap(W, e, D1, kappa)
  }

  /** The lower end of the interval is `D * 10^kappa`. */
  ghost predicate AtLowerEnd(f: nat, delta: nat, e: nat, D: nat, kappa: int) {
    if kappa >= 0 then (D * Pow(10, kappa)) * P2(e) == f - delta else D * P2(e) == (f - delta) * Pow(10, -kappa)
  }

  /** No multiple of `10^k` lies in the interval; behind the point, none above its lower end. */
  ghost predicate Missed(f: nat, delta: nat, e: nat, k: int) {
    forall D: nat :: Contained(f, delta, e, D, k) ==> k <= 0 && AtLowerEnd(f, delta, e, D, k)
  }

  // ---------- nearest and shortest ----------

  /** Multiples of `t` below `f`, counted down from the largest one. */
  lemma Below(f: nat, D: nat, t: nat, rest: nat, D1: nat)
    requires D * t + rest == f && rest < t && D1 * t <= f
    ensures D1 <= D && f - D1 * t == Steps(rest, D - D1, t)
  {
    StepsNext(0, D, t);
    if D1 > D { MulMonoInt(t, D + 1, D1); }
    assert (D - D1) * t == D * t - D1 * t;
  }

  /** The choice of the last digit that is nearest, counted down, is the nearest multiple. */
  lemma NearestMultiple(f: nat, delta: nat, D: nat, t: nat, rest: nat, wpW: int, j: nat, D1: nat)
    requires D * t + rest == f && rest < t && j <= D && Nearest(delta, rest, t, wpW, j)
    requires f - delta <= D1 * t <= f
    ensures Distance(f - wpW, (D - j) * t) <= Distance(f - wpW, D1 * t)
  {
    Below(f, D, t, rest, D1);
    assert Steps(rest, D - D1, t) <= delta;
    assert (D - j) * t == D * t - j * t;
  }

  lemma IntegerClosest(f: nat, delta: nat, e: nat, D: nat, kappa: nat, rest: nat, wpW: int, j: nat)
    requires D * (Pow(10, kappa) * P2(e)) + rest == f && rest < Pow(10, kappa) * P2(e) && j <= D
    requires delta <= f && Nearest(delta, rest, Pow(10, kappa) * P2(e), wpW, j)
    ensures Closest(f, delta, e, f - wpW, D - j, kappa)
  {
    hide Pow, P2, Nearest, Distance;
    forall D1: nat | Contained(f, delta, e, D1, kappa)
      ensures Gap(f - wpW, e, D - j, kappa) <= Gap(f - wpW, e, D1, kappa)
    {
      Regrouped(D1, Pow(10, kappa), P2(e));
      Regrouped(D - j, Pow(10, kappa), P2(e));
      NearestMultiple(f, delta, D, Pow(10, kappa) * P2(e), rest, wpW, j, D1);
    }
  }

  lemma Regrouped(a: nat, b: nat, c: nat)
    ensures (a * b) * c == a * (b * c)
  {
  }

  /** While the rest is above `delta` no multiple is in the interval. */
  lemma IntegerMissed(f: nat, delta: nat, e: nat, D: nat, k: nat, rest: nat)
    requires D * (Pow(10, k) * P2(e)) + rest == f && rest < Pow(10, k) * P2(e) && delta < rest
    ensures Missed(f, delta, e, k)
  {
    hide Pow, P2;
    forall D1: nat
      ensures !Contained(f, delta, e, D1, k)
    {
      Regrouped(D1, Pow(10, k), P2(e));
      if D1 * (Pow(10, k) * P2(e)) <= f {
        Below(f, D, Pow(10, k) * P2(e), rest, D1);
        StepsAbove(rest, D - D1, Pow(10, k) * P2(e));
      }
    }
  }

  lemma StepsAbove(rest: int, i: nat, t: nat)
    ensures Steps(rest, i, t) >= rest
  {
  }

  lemma FractionClosest(f: nat, delta: nat, e: nat, n: nat, D: nat, rest: nat, wpW: int, j: nat)
    requires n > 0 && delta <= f && Scaled(f, n, D, e, rest) && j <= D
    requires Nearest(delta * Pow(10, n), rest, P2(e), wpW * Pow(10, n), j)
    ensures Closest(f, delta, e, f - wpW, D - j, 0 - n)
  {
    hide Pow, P2, Nearest, Distance;
    var q, k := Pow(10, n), 0 - n;
    forall D1: nat | Contained(f, delta, e, D1, k)
      ensures Gap(f - wpW, e, D - j, k) <= Gap(f - wpW, e, D1, k)
    {
      assert (f - delta) * q == f * q - delta * q;
      assert (f - wpW) * q == f * q - wpW * q;
      NearestMultiple(f * q, delta * q, D, P2(e), rest, wpW * q, j, D1);
    }
  }

  /** The same behind the point, where the rest may be `delta` itself. */
  lemma FractionMissed(f: nat, delta: nat, e: nat, n: nat, D: nat, rest: nat)
    requires delta <= f && Scaled(f, n, D, e, rest) && Times10(delta, n) <= rest
    ensures Missed(f, delta, e, 0 - n)
  {
    PowZero();
    hide Pow, P2;
    var q, k := Pow(10, n), 0 - n;
    forall D1: nat | Contained(f, delta, e, D1, k)
      ensures AtLowerEnd(f, delta, e, D1, k)
    {
      if n == 0 { Unscaled(D1, q, P2(e)); }
      assert (f - delta) * q == f * q - delta * q;
      Below(f * q, D, P2(e), rest, D1);
      StepsAbove(rest, D - D1, P2(e));
    }
  }

  lemma Unscaled(a: nat, q: nat, c: nat)
    requires q == 1
    ensures (a * q) * c == a * c
  {
  }

  /** The bits of a 64-bit word above and below the binary point. */
  function HighPart(f: nat, e: nat): nat {
    f / P2(e)
  }

  function LowPart(f: nat, e: nat): nat {
    f % P2(e)
  }

  /** `(p1 << e) + p2` */
  function Joined(p1: nat, e: nat, p2: nat): nat {
    p1 * P2(e) + p2
  }

  /** The digits written so far and the rest still make up the integral part. */
  ghost predicate Left(P: nat, D: nat, kappa: nat, p1: nat) {
    D * Pow(10, kappa) + p1 == P && p1 < Pow(10, kappa)
  }

  /** The `switch` of the first loop: the leading one of `kappa` digits, and the others. */
  function Leading(p1: u32, kappa: nat): nat
    requires 0 < kappa <= 10
  {
    p1 / POW10[kappa - 1]
  }

  function Others(p1: u32, kappa: nat): u32
    requires 0 < kappa <= 10
  {
    p1 % POW10[kappa - 1]
  }

  /** `10^kappa << e` */
  function TenKappa(kappa: nat, e: nat): nat
    requires kappa < 10
  {
    POW10[kappa] * P2(e)
  }

  lemma SwitchIs(p1: u32, kappa: nat, e: nat)
    requires 0 < kappa <= 10
    ensures Leading(p1, kappa) == p1 / Pow(10, kappa - 1) && Others(p1, kappa) == p1 % Pow(10, kappa - 1)
    ensures TenKappa(kappa - 1, e) == Pow(10, kappa - 1) * P2(e)
  {
    Pow10Table(kappa - 1);
    hide POW10, P2, Pow;
  }

  /** One digit of the integral part. */
  lemma IntegerStep(P: u32, D: nat, p1: u32, kappa: nat, cnt: nat)
    requires 0 < kappa <= cnt <= 10 && Left(P, D, kappa, p1) && Pow(10, cnt - 1) <= P
    ensures Leading(p1, kappa) < 10
    ensures Left(P, 10 * D + Leading(p1, kappa), kappa - 1, Others(p1, kappa))
    ensures kappa == cnt && D == 0 ==> Leading(p1, kappa) != 0
  {
    hide POW10, Leading, Others;
    SwitchIs(p1, kappa, 0);
    var q := Pow(10, kappa - 1);
    assert Pow(10, kappa) == 10 * q;
    hide Pow;
    DigitStep(D, q, p1);
  }

  lemma DigitStep(D: nat, q: nat, p: nat)
    requires q > 0
    ensures p % q < q && p == (p / q) * q + p % q
    ensures (10 * D + p / q) * q + p % q == D * (10 * q) + p
    ensures p < 10 * q ==> p / q < 10
    ensures q <= p ==> p / q != 0
  {
    var d := p / q;
    assert p == d * q + p % q;
    if p < 10 * q && d >= 10 { MulMonoInt(q, 10, d); }
    assert D * (10 * q) == (10 * D) * q;
    assert (10 * D + d) * q == (10 * D) * q + d * q;
  }

  /** The remainders before and after a digit of the integral part, and what they are bounded by. */
  lemma IntegerRest(P: u32, p1: u32, kappa: nat, cnt: nat, e: nat, p2: nat, f: nat)
    requires 0 < kappa <= cnt <= 10 && Pow(10, cnt - 1) <= P && p1 <= P && Joined(P, e, p2) == f
    ensures var rest, tenKappa := Joined(Others(p1, kappa), e, p2), TenKappa(kappa - 1, e);
      Joined(p1, e, p2) == Steps(rest, Leading(p1, kappa), tenKappa) && rest <= f && 0 < tenKappa <= f
    ensures Others(p1, kappa) <= P && TenKappa(kappa - 1, e) == Pow(10, kappa - 1) * P2(e)
  {
    SwitchIs(p1, kappa, e);
    PowMono(10, kappa - 1, cnt - 1);
    hide Pow, P2, POW10, Leading, Others, TenKappa;
    var q, d, r, one := Pow(10, kappa - 1), Leading(p1, kappa), Others(p1, kappa), P2(e);
    DigitStep(0, q, p1);
    QuotientSigns(p1, q);
    ShiftedRest(d, q, r, one, p1);
    MulMonoInt(one, r, P);
    MulMonoInt(one, q, P);
    MulMonoInt(one, 1, q);
  }

  lemma ShiftedRest(d: nat, q: nat, r: nat, one: nat, p1: nat)
    requires p1 == d * q + r
    ensures p1 * one == r * one + d * (q * one)
  {
    assert p1 * one == (d * q) * one + r * one;
    assert (d * q) * one == d * (q * one);
  }

  lemma QuotientSigns(a: nat, q: nat)
    requires q > 0
    ensures a % q <= a
  {
  }

  lemma IntegerDone(f: nat, delta: nat, e: nat, P: nat, D: nat, q: nat, kappa: nat, r: nat, p2: nat, j: nat)
    requires Left(P, D, kappa, r) && q == Pow(10, kappa) && Joined(P, e, p2) == f && j <= D
    requires Steps(Joined(r, e, p2), j, q * P2(e)) <= delta
    ensures Contained(f, delta, e, D - j, kappa)
  {
    hide Pow, P2;
    IntegerSums(D, q, r, j, P2(e));
  }

  lemma IntegerSums(D: nat, q: nat, r: nat, j: nat, one: nat)
    ensures ((D - j) * q) * one == (D * q) * one - j * (q * one)
    ensures (D * q + r) * one == (D * q) * one + r * one
  {
    assert (D - j) * q == D * q - j * q;
    assert (j * q) * one == j * (q * one);
  }

  lemma FractionDone(f: nat, delta0: nat, e: nat, n: nat, D: nat, p2: nat, j: nat)
    requires delta0 <= f && Scaled(f, n, D, e, p2) && j <= D && n > 0
    requires Steps(p2, j, P2(e)) <= Times10(delta0, n)
    ensures Contained(f, delta0, e, D - j, 0 - n)
  {
    assert (D - j) * P2(e) == D * P2(e) - j * P2(e);
    assert (f - delta0) * Pow(10, n) == f * Pow(10, n) - delta0 * Pow(10, n);
  }

  lemma OneFits(e: nat)
    requires 32 <= e <= 60
    ensures B <= P2(e) && 16 * P2(e) <= U64 && P2(e) < Pow(10, 19)
  {
    RoundedDivision.P2Consts();
    PowMono(2, 32, e);
    PowMono(2, e, 60);
    PowAdd(2, 32, 28);
    PowAdd(2, 32, 32);
    PowAdd(2, 14, 14);
    assert Pow(2, 14) == 16384;
    Pow10Table(9);
    PowAdd(10, 9, 9);
    assert Pow(10, 19) == 10 * Pow(10, 18);
  }

  /** There are fewer than 19 digits behind the point before the interval is reached. */
  lemma FewFractions(delta0: nat, n: nat, one: nat)
    requires delta0 > 0 && Times10(delta0, n) < one && one < Pow(10, 19)
    ensures n < 19
  {
    if n >= 19 {
      PowMono(10, 19, n);
      MulMonoInt(Pow(10, n), 1, delta0);
    }
  }

  /** The text in the buffer, after its last digit was lowered. */
  lemma Lowered(s: seq<char>, j: nat)
    requires s != [] && AllDigits(s) && j <= DigitOf(s[|s| - 1])
    ensures var t := s[|s| - 1 := Digit(DigitOf(s[|s| - 1]) - j)];
      AllDigits(t) && Numeral(t) == Numeral(s) - j && t[..|s| - 1] == s[..|s| - 1]
  {
  }

  /** Writing one more digit. */
  lemma Written(s: seq<char>, len: nat, d: nat)
    requires len < |s| && AllDigits(s[..len]) && d < 10
    ensures var t := s[len := Digit(d)];
      AllDigits(t[..len + 1]) && Numeral(t[..len + 1]) == 10 * Numeral(s[..len]) + d
  {
    var t := s[len := Digit(d)];
    assert t[..len + 1] == s[..len] + [Digit(d)];
    NumeralSnoc(s[..len], Digit(d));
  }

  /** What `DigitGen` leaves behind. */
  ghost predicate Generated(text: seq<char>, f: nat, delta: nat, e: nat, kappa: int) {
    text != [] && AllDigits(text) && text[0] != '0' && Contained(f, delta, e, Numeral(text), kappa)
  }

  /** The integral part of the number is a positive 32-bit word. */
  lemma IntegralPart(f: u64, e: nat)
    requires 32 <= e <= 60 && f >= U64 / 2
    ensures 0 < HighPart(f, e) < B && f == Joined(HighPart(f, e), e, LowPart(f, e)) && LowPart(f, e) < P2(e) < U64
  {
    OneFits(e);
    hide P2;
    Quotients(f, P2(e));
  }

  lemma Quotients(f: u64, one: nat)
    requires B <= one && 16 * one <= U64 && f >= U64 / 2
    ensures 0 < f / one < B && f == (f / one) * one + f % one && f % one < one
  {
    var p1 := f / one;
    assert f == p1 * one + f % one;
    assert B * B == U64;
    if p1 >= B {
      MulMonoInt(one, B, p1);
      MulMonoInt(B, B, one);
    }
    if p1 <= 0 { MulMonoInt(one, p1, 0); }
  }

  /** The first loop of `DigitGen`: the digits of the integral part, until the rest is in the interval. */
  method IntegerDigits(f: u64, e: nat, delta: u64, wpW: u64, buffer: array<char>)
    returns (done: bool, len: nat, kappa: nat)
    requires 32 <= e <= 60 && f >= U64 / 2 && 0 < delta < f && buffer.Length >= 10
    modifies buffer
    ensures 0 < len <= 10
    ensures done ==> Generated(buffer[..len], f, delta, e, kappa) && Missed(f, delta, e, kappa + 1)
    ensures done ==> Closest(f, delta, e, f - wpW, Numeral(buffer[..len]), kappa)
    ensures !done ==> AllDigits(buffer[..len]) && buffer[0] != '0' && delta < LowPart(f, e)
    ensures !done ==> kappa == 0 && f == Joined(Numeral(buffer[..len]), e, LowPart(f, e))
  {
    hide *;
    IntegralPart(f, e);
    HighFits(f, e);
    var p1: u32 := HighPart(f, e);
    var p2: u64 := LowPart(f, e);
    ghost var P: u32 := p1;
    CountIs(p1);
    kappa := CountDecimalDigit32(p1);
    ghost var cnt := kappa;
    len := 0;
    NoDigits(P, cnt, buffer[..len]);
    while kappa > 0
      invariant 0 <= kappa <= cnt && len == cnt - kappa
      invariant AllDigits(buffer[..len]) && Left(P, Numeral(buffer[..len]), kappa, p1)
      invariant p1 <= P && (len > 0 ==> buffer[0] != '0') && (len == 0 ==> Numeral(buffer[..len]) == 0)
      invariant delta < Joined(p1, e, p2)
    {
      ghost var D := Numeral(buffer[..len]);
      IntegerStep(P, D, p1, kappa, cnt);
      IntegerRest(P, p1, kappa, cnt, e, p2, f);
      RestMissed(P, D, kappa, p1, e, p2, f, delta);
      var d: nat := Leading(p1, kappa);
      p1 := Others(p1, kappa);
      if d != 0 || len != 0 {
        Written(buffer[..], len, d);
        DigitNonzero(d);
        buffer[len] := Digit(d);
        len := len + 1;
      }
      kappa := kappa - 1;
      TmpFits(Joined(p1, e, p2), f);
      var tmp: u64 := Joined(p1, e, p2);
      if tmp <= delta {
        TmpFits(TenKappa(kappa, e), f);
        var tenKappa: u64 := TenKappa(kappa, e);
        StopInteger(buffer, len, delta, tmp, tenKappa, wpW, d, f, e, P, kappa, p1, p2);
        done := true;
        return;
      }
    }
    AllWritten(P, Numeral(buffer[..len]), p1);
    JoinedZero(e, p2);
    done := false;
  }

  lemma HighFits(f: u64, e: nat)
    requires HighPart(f, e) < B && LowPart(f, e) < U64
    ensures HighPart(f, e) < 0x1_0000_0000 && LowPart(f, e) < 0x1_0000_0000_0000_0000
  {
    hide HighPart, LowPart;
  }

  lemma TmpFits(x: nat, f: u64)
    requires x <= f
    ensures x < 0x1_0000_0000_0000_0000
  {
  }

  lemma NoDigits(P: nat, cnt: nat, s: seq<char>)
    requires s == [] && P < Pow(10, cnt)
    ensures AllDigits(s) && Numeral(s) == 0 && Left(P, 0, cnt, P)
  {
  }

  lemma DigitNonzero(d: nat)
    requires d < 10
    ensures Digit(d) == '0' <==> d == 0
  {
  }

  lemma AllWritten(P: nat, D: nat, p1: nat)
    requires Left(P, D, 0, p1)
    ensures p1 == 0 && D == P
  {
  }

  lemma JoinedZero(e: nat, p2: nat)
    ensures Joined(0, e, p2) == p2
  {
  }

  lemma RestMissed(P: nat, D: nat, kappa: nat, p1: nat, e: nat, p2: nat, f: nat, delta: nat)
    requires Left(P, D, kappa, p1) && Joined(P, e, p2) == f && p2 < P2(e) && delta < Joined(p1, e, p2)
    ensures Missed(f, delta, e, kappa)
  {
    hide Pow, P2, Missed;
    RestParts(P, D, kappa, p1, e, p2, f);
    IntegerMissed(f, delta, e, D, kappa, Joined(p1, e, p2));
  }

  lemma RestBelow(D: nat, q: nat, r: nat, one: nat, p2: nat)
    requires r < q && p2 < one
    ensures D * (q * one) + (r * one + p2) == (D * q + r) * one + p2 && r * one + p2 < q * one
  {
    Regrouped(D, q, one);
    MulMonoInt(one, r + 1, q);
    assert (r + 1) * one == r * one + one && (D * q + r) * one == (D * q) * one + r * one;
  }

  /** The last step of the integral part. */
  method StopInteger(buffer: array<char>, len: nat, delta: u64, tmp: u64, tenKappa: u64, wpW: u64,
                     ghost d: nat, ghost f: nat, ghost e: nat, ghost P: nat, ghost kappa: nat, ghost p1: nat,
                     ghost p2: nat)
    requires 0 < len <= buffer.Length && AllDigits(buffer[..len]) && d < 10 && buffer[len - 1] == Digit(d)
    requires tenKappa == Pow(10, kappa) * P2(e) > 0 && tmp == Joined(p1, e, p2) <= delta < Steps(tmp, d, tenKappa)
    requires Left(P, Numeral(buffer[..len]), kappa, p1) && Joined(P, e, p2) == f && p2 < P2(e) && delta <= f
    requires buffer[0] != '0'
    modifies buffer
    ensures Generated(buffer[..len], f, delta, e, kappa)
    ensures Closest(f, delta, e, f - wpW, Numeral(buffer[..len]), kappa)
  {
    hide P2, Contained, Numeral, Steps, Pow, Left, Joined, Nearest, Closest;
    ghost var text := buffer[..len];
    assert text[len - 1] == Digit(d);
    StepsMore(tmp, d, tenKappa);
    ghost var j := GrisuRound(buffer, len, delta, tmp, tenKappa, wpW);
    Lowered(text, j);
    assert buffer[..len] == text[len - 1 := Digit(d - j)];
    NumeralLast(text);
    IntegerDone(f, delta, e, P, Numeral(text), Pow(10, kappa), kappa, p1, p2, j);
    RestParts(P, Numeral(text), kappa, p1, e, p2, f);
    IntegerClosest(f, delta, e, Numeral(text), kappa, tmp, wpW, j);
    StepsFewer(tmp, j, d, tenKappa, delta);
    DigitNonzero(d - j);
    assert buffer[..len][0] == buffer[0];
  }

  lemma RestParts(P: nat, D: nat, kappa: nat, p1: nat, e: nat, p2: nat, f: nat)
    requires Left(P, D, kappa, p1) && Joined(P, e, p2) == f && p2 < P2(e)
    ensures var t := Pow(10, kappa) * P2(e); D * t + Joined(p1, e, p2) == f && Joined(p1, e, p2) < t
  {
    hide Pow, P2;
    RestBelow(D, Pow(10, kappa), p1, P2(e), p2);
  }

  lemma StepsMore(rest: int, d: int, t: int)
    requires t > 0
    ensures Steps(rest, d, t) < Steps(rest, d + 1, t)
  {
    StepsNext(rest, d, t);
  }

  lemma NumeralLast(s: seq<char>)
    requires s != [] && AllDigits(s)
    ensures Numeral(s) >= DigitOf(s[|s| - 1])
  {
  }

  lemma StepsFewer(rest: int, j: int, d: int, t: int, delta: int)
    requires Steps(rest, j, t) <= delta < Steps(rest, d, t) && t > 0
    ensures j < d
  {
    if j >= d { MulMonoInt(t, d, j); }
  }

  /** `n` digits behind the point have been written. */
  ghost predicate Scaled(f: nat, n: nat, D: nat, e: nat, p2: nat) {
    f * Pow(10, n) == Joined(D, e, p2) && p2 < P2(e)
  }

  function Times10(x: nat, n: nat): nat {
    x * Pow(10, n)
  }

  /** `kPow10[n]`; what lies past the end of the table is arbitrary. */
  function TableEntry(n: nat, past: nat -> u32): u32 {
    if n < 10 then POW10[n] else past(n)
  }

  /** `wp_w.f * kPow10[n]` in 64 bits. */
  function Weighted(wpW: u64, n: nat, past: nat -> u32): u64 {
    (wpW * TableEntry(n, past)) % U64
  }

  /** Inside the table, and with `W` in the interval, the product does not wrap. */
  lemma WeightedIs(wpW: u64, delta0: nat, n: nat, past: nat -> u32)
    requires n < 10 && wpW <= delta0 && Times10(delta0, n) < 0x1_0000_0000_0000_0000
    ensures Weighted(wpW, n, past) == Times10(wpW, n)
  {
    Pow10Table(n);
    hide Pow;
    MulMonoInt(Pow(10, n), wpW, delta0);
  }

  /** The second loop of `DigitGen`: digits behind the point. The distance to `W` is scaled by a table entry that may
      lie past the end of the table. */
  method FractionDigits(f: u64, e: nat, delta0: u64, p0: u64, wpW: u64, past: nat -> u32, buffer: array<char>,
                        len0: nat)
    returns (len: nat, kappa: int)
    requires 32 <= e <= 60 && 0 < delta0 < p0 < P2(e) && delta0 <= f
    requires 0 < len0 <= 10 && buffer.Length >= 29 && AllDigits(buffer[..len0]) && buffer[0] != '0'
    requires f == Joined(Numeral(buffer[..len0]), e, p0)
    modifies buffer
    ensures len0 < len <= 29 && kappa < 0 && Generated(buffer[..len], f, delta0, e, kappa)
    ensures Missed(f, delta0, e, kappa + 1)
    ensures kappa >= -9 && wpW <= delta0 ==> Closest(f, delta0, e, f - wpW, Numeral(buffer[..len]), kappa)
  {
    hide *;
    OneFits(e);
    OneWord(e);
    var one: u64 := P2(e);
    var p2: u64, delta: u64 := p0, delta0;
    len, kappa := len0, 0;
    ghost var n: nat := 0;
    ScaledStart(f, Numeral(buffer[..len]), e, p0, delta0);
    while true
      invariant n == -kappa && len == len0 + n && 0 <= n < 19
      invariant AllDigits(buffer[..len]) && buffer[0] != '0'
      invariant Scaled(f, n, Numeral(buffer[..len]), e, p2) && delta == Times10(delta0, n)
      invariant 0 < delta <= p2 < one
      decreases one - delta
    {
      ghost var D := Numeral(buffer[..len]);
      FractionStep(f, n, D, e, p2, delta0);
      FractionMissed(f, delta0, e, n, D, p2);
      TimesTen(p2, one);
      TimesTen(delta, one);
      p2 := p2 * 10;
      delta := delta * 10;
      HighSmall(p2, e);
      var d: nat := HighPart(p2, e);
      if d != 0 || len != 0 {
        Written(buffer[..], len, d);
        buffer[len] := Digit(d);
        len := len + 1;
      }
      p2 := LowPart(p2, e);
      kappa := kappa - 1;
      n := n + 1;
      if p2 < delta {
        if n < 10 && wpW <= delta0 { WeightedIs(wpW, delta0, n, past); }
        StopFraction(buffer, len, delta, p2, one, Weighted(wpW, -kappa, past), d, f, delta0, e, n, wpW);
        return;
      }
      FewFractions(delta0, n, one);
    }
  }

  /** The last step behind the point. */
  method StopFraction(buffer: array<char>, len: nat, delta: u64, p2: u64, one: u64, wpW: u64,
                      ghost d: nat, ghost f: nat, ghost delta0: nat, ghost e: nat, ghost n: nat, ghost wpW0: nat)
    requires 1 < len <= buffer.Length && AllDigits(buffer[..len]) && d < 10 && buffer[len - 1] == Digit(d)
      && buffer[0] != '0'
    requires one == P2(e) && p2 <= delta <= Steps(p2, d, one) && delta == Times10(delta0, n)
    requires Scaled(f, n, Numeral(buffer[..len]), e, p2) && delta0 <= f && n > 0
    modifies buffer
    ensures Generated(buffer[..len], f, delta0, e, 0 - n)
    ensures wpW == Times10(wpW0, n) ==> Closest(f, delta0, e, f - wpW0, Numeral(buffer[..len]), 0 - n)
  {
    hide P2, Contained, Numeral, Steps, Pow, Scaled, Nearest, Closest;
    ghost var text := buffer[..len];
    assert text[len - 1] == Digit(d);
    StepsMore(p2, d, one);
    ghost var j := GrisuRound(buffer, len, delta, p2, one, wpW);
    Lowered(text, j);
    assert buffer[..len] == text[len - 1 := Digit(d - j)];
    NumeralLast(text);
    FractionDone(f, delta0, e, n, Numeral(text), p2, j);
    if wpW == Times10(wpW0, n) { FractionClosest(f, delta0, e, n, Numeral(text), p2, wpW0, j); }
    assert buffer[..len][0] == buffer[0];
  }

  lemma OneWord(e: nat)
    requires 16 * P2(e) <= U64
    ensures P2(e) < 0x1_0000_0000_0000_0000 && 16 * P2(e) <= 0x1_0000_0000_0000_0000
  {
    hide P2;
  }

  lemma TimesTen(x: nat, one: nat)
    requires x < one && 16 * one <= 0x1_0000_0000_0000_0000
    ensures x * 10 < 0x1_0000_0000_0000_0000
  {
  }

  lemma ScaledStart(f: nat, D: nat, e: nat, p: nat, delta: nat)
    requires f == Joined(D, e, p) && p < P2(e)
    ensures Scaled(f, 0, D, e, p) && Times10(delta, 0) == delta
  {
  }

  /** One digit of the fractional part. */
  lemma FractionStep(f: nat, n: nat, D: nat, e: nat, p2: nat, delta0: nat)
    requires Scaled(f, n, D, e, p2)
    ensures var d, r := HighPart(p2 * 10, e), LowPart(p2 * 10, e);
      d < 10 && Scaled(f, n + 1, 10 * D + d, e, r) && p2 * 10 == Steps(r, d, P2(e))
    ensures Times10(delta0, n + 1) == Times10(delta0, n) * 10
  {
    hide P2;
    var p, one := p2 * 10, P2(e);
    var d := p / one;
    assert p == d * one + p % one;
    if d >= 10 { MulMonoInt(one, 10, d); }
    assert f * (10 * Pow(10, n)) == 10 * (f * Pow(10, n));
    assert (10 * D + d) * one == 10 * (D * one) + d * one;
    assert delta0 * (10 * Pow(10, n)) == (delta0 * Pow(10, n)) * 10;
  }

  lemma HighSmall(p: nat, e: nat)
    ensures LowPart(p, e) < P2(e) && p == Joined(HighPart(p, e), e, LowPart(p, e))
  {
    hide P2;
  }

  /** `DigitGen`: of the decimal numbers in the interval `[Mp - delta, Mp]` with as many digits the one nearest to `W`,
      without a leading zero; with one digit less there is none. The last digit is chosen by an entry past the end of a
      table when there are more than nine digits behind the point; `past` is what is found there. */
  method DigitGen(W: DiyFp, Mp: DiyFp, delta: u64, buffer: array<char>, K0: int, past: nat -> u32)
    returns (len: nat, K: int)
    requires -60 <= Mp.e <= -32 && W.e == Mp.e && W.f <= Mp.f
    requires Mp.f >= U64 / 2 && 0 < delta < Mp.f && buffer.Length >= 29
    modifies buffer
    ensures 0 < len <= 29 && Generated(buffer[..len], Mp.f, delta, -Mp.e, K - K0)
    ensures Missed(Mp.f, delta, -Mp.e, K - K0 + 1)
    ensures K - K0 >= 0 || (K - K0 >= -9 && Mp.f - W.f <= delta) ==>
      Closest(Mp.f, delta, -Mp.e, W.f, Numeral(buffer[..len]), K - K0)
  {
    hide *;
    var wpW: u64 := Mp.f - W.f;
    IntegralPart(Mp.f, -Mp.e);
    HighFits(Mp.f, -Mp.e);
    var done, kappa: int;
    done, len, kappa := IntegerDigits(Mp.f, -Mp.e, delta, wpW, buffer);
    if !done {
      len, kappa := FractionDigits(Mp.f, -Mp.e, delta, LowPart(Mp.f, -Mp.e), wpW, past, buffer, len);
    }
    K := K0 + kappa;
  }

  // ---------- past the end of the table ----------

  /** A third of a unit behind the point. */
  const THIRDS: u64 := 0x8555_5555_5555_5555

  lemma Sixty()
    ensures P2(60) == 0x1000_0000_0000_0000
  {
    Fifteen();
    hide Pow;
    PowAdd(2, 15, 15);
    PowAdd(2, 30, 30);
  }

  lemma Fifteen()
    ensures Pow(2, 15) == 32768
  {
    assert Pow(2, 5) == 32;
    PowAdd(2, 5, 5);
    PowAdd(2, 10, 5);
  }

  lemma NoMultiple(F: nat, one: nat, w: nat, D: nat)
    requires one > 0 && w < F % one
    ensures !(F - w <= D * one <= F)
  {
    var q, r := F / one, F % one;
    assert F == q * one + r;
    if D > q { MulMonoInt(one, q + 1, D); } else { MulMonoInt(one, D, q); }
    assert (q + 1) * one == q * one + one;
  }

  /** Up to nine digits behind the point do not reach an interval of one unit. */
  lemma NineTooFew(n: nat, D: nat)
    requires n < 10
    ensures !((THIRDS - 1) * Pow(10, n) <= D * P2(60) <= THIRDS * Pow(10, n))
  {
    Sixty();
    Pow10Table(n);
    hide Pow, P2;
    assert POW10[n] < (THIRDS * POW10[n]) % 0x1000_0000_0000_0000 by { Remainders(n); }
    NoMultiple(THIRDS * POW10[n], 0x1000_0000_0000_0000, POW10[n], D);
  }

  lemma Remainders(n: nat)
    requires n < 10
    ensures POW10[n] < (THIRDS * POW10[n]) % 0x1000_0000_0000_0000
  {
    if n == 0 {} else if n == 1 {} else if n == 2 {} else if n == 3 {} else if n == 4 {}
    else if n == 5 {} else if n == 6 {} else if n == 7 {} else if n == 8 {} else {}
  }

  /** So there are inputs on which the digits go on behind the ninth, and the entry of the table that is asked for does
      not exist. */
  lemma TableTooShort(text: seq<char>, kappa: int)
    requires Generated(text, THIRDS, 1, 60, kappa)
    ensures kappa <= -10
  {
    PowZero();
    if kappa > -10 {
      hide Pow, P2, POW10;
      var D := Numeral(text);
      if kappa >= 0 {
        NineTooFew(0, D * Pow(10, kappa));
      } else {
        NineTooFew(-kappa, D);
      }
      assert false;
    }
  }
}
