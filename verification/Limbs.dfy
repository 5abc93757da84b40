/** Unsigned numbers as little-endian sequences of 32-bit words. */
module Limbs {

  const B: int := 0x1_0000_0000
  const U64: int := 0x1_0000_0000_0000_0000

  type u32 = x: int | 0 <= x < 0x1_0000_0000
  type u64 = x: int | 0 <= x < 0x1_0000_0000_0000_0000

  function Pow(b: nat, e: nat): (r: nat)
    ensures b > 0 ==> r > 0
    decreases e
  {
    if e == 0 then 1 else Mul(b, Pow(b, e - 1))
  }

  function P2(e: nat): (r: nat)
    ensures r > 0
  {
    Pow(2, e)
  }

  function Mul(a: nat, b: nat): (r: nat)
    ensures r == a * b
    ensures a > 0 && b > 0 ==> r > 0
  {
    MulSigns(a, b);
    a * b
  }

  lemma MulSigns(a: nat, b: nat)
    ensures a * b >= 0
    ensures a > 0 && b > 0 ==> a * b > 0
  {
  }

  lemma MulMono(c: nat, a: nat, b: nat)
    requires a <= b
    ensures c * a <= c * b
  {
  }

  lemma Distribute(c: int, a: int, b: int)
    ensures c * (a + b) == c * a + c * b
  {
  }

  lemma Associate(a: int, b: int, c: int)
    ensures a * (b * c) == (a * b) * c
  {
  }

  lemma {:induction false} PowAdd(b: nat, m: nat, n: nat)
    ensures Pow(b, m + n) == Pow(b, m) * Pow(b, n)
    decreases m
  {
    if m > 0 {
      PowAdd(b, m - 1, n);
      Associate(b, Pow(b, m - 1), Pow(b, n));
    }
  }

  lemma PowUp(n: nat)
    ensures Pow(B, n + 1) == B * Pow(B, n)
  {
  }

  lemma {:induction false} PowMono(b: nat, m: nat, n: nat)
    requires b > 0 && m <= n
    ensures Pow(b, m) <= Pow(b, n)
    decreases n - m
  {
    if m < n {
      PowMono(b, m + 1, n);
      assert Pow(b, m + 1) == b * Pow(b, m);
      assert b * Pow(b, m) >= Pow(b, m);
    }
  }

  lemma {:induction false} PowPow(b: nat, m: nat, n: nat)
    ensures Pow(Pow(b, m), n) == Pow(b, m * n)
    decreases n
  {
    if n > 0 {
      PowPow(b, m, n - 1);
      PowAdd(b, m, m * (n - 1));
      assert m * n == m + m * (n - 1);
    } else {
      assert m * 0 == 0;
    }
  }

  /** The number that a sequence of words stands for. */
  function Val(s: seq<u32>): nat {
    if s == [] then 0 else s[0] + B * Val(s[1..])
  }

  lemma {:induction false} ValAppend(s: seq<u32>, t: seq<u32>)
    ensures Val(s + t) == Val(s) + Pow(B, |s|) * Val(t)
    decreases |s|
  {
    if s == [] {
      assert s + t == t;
    } else {
      assert (s + t)[1..] == s[1..] + t;
      ValAppend(s[1..], t);
      assert B * (Pow(B, |s| - 1) * Val(t)) == (B * Pow(B, |s| - 1)) * Val(t);
    }
  }

  lemma ValSplit(s: seq<u32>, k: nat)
    requires k <= |s|
    ensures Val(s) == Val(s[..k]) + Pow(B, k) * Val(s[k..])
  {
    assert s == s[..k] + s[k..];
    ValAppend(s[..k], s[k..]);
  }

  lemma ValOne(x: u32)
    ensures Val([x]) == x
  {
    assert [x][1..] == [];
  }

  /** The top word carries the highest power. */
  lemma ValTop(s: seq<u32>)
    requires s != []
    ensures Val(s) == Val(s[..|s| - 1]) + Pow(B, |s| - 1) * s[|s| - 1]
  {
    ValSplit(s, |s| - 1);
    assert s[|s| - 1..] == [s[|s| - 1]];
    ValOne(s[|s| - 1]);
  }

  lemma {:induction false} ValBound(s: seq<u32>)
    ensures Val(s) < Pow(B, |s|)
  {
    if s != [] {
      ValBound(s[1..]);
      assert B * Val(s[1..]) <= B * (Pow(B, |s| - 1) - 1);
    }
  }

  /** Numbers are compared from the top word. */
  lemma ValCompare(s: seq<u32>, t: seq<u32>, i: nat)
    requires |s| == |t| && i < |s| && s[i + 1..] == t[i + 1..] && s[i] < t[i]
    ensures Val(s) < Val(t)
  {
    hide Val;
    hide Pow;
    ValSplit(s, i + 1);
    ValSplit(t, i + 1);
    ValTop(s[..i + 1]);
    ValTop(t[..i + 1]);
    assert s[..i + 1][..i] == s[..i] && t[..i + 1][..i] == t[..i];
    ValBound(s[..i]);
    TopWins(Pow(B, i), Val(s[..i]), s[i], Val(t[..i]), t[i]);
  }

  lemma TopWins(p: nat, low: nat, x: nat, low1: nat, x1: nat)
    requires low < p && x < x1
    ensures low + p * x < low1 + p * x1
  {
    MulMono(p, x + 1, x1);
    Distribute(p, x, 1);
  }

  /** A number whose value is below the weight of word `k` has no words from `k` on. */
  lemma {:induction false} ValSmall(s: seq<u32>, k: nat)
    requires k <= |s| && Val(s) < Pow(B, k)
    ensures Val(s[k..]) == 0 && Val(s) == Val(s[..k])
  {
    hide Val;
    hide Pow;
    ValSplit(s, k);
    if Val(s[k..]) > 0 {
      MulMono(Pow(B, k), 1, Val(s[k..]));
    }
  }

  lemma {:induction false} ValZero(s: seq<u32>)
    ensures Val(s) == 0 <==> forall i :: 0 <= i < |s| ==> s[i] == 0
  {
    if s != [] {
      ValZero(s[1..]);
      assert forall i :: 1 <= i < |s| ==> s[i] == s[1..][i - 1];
      if forall i :: 0 <= i < |s| ==> s[i] == 0 {
        assert forall i :: 0 <= i < |s[1..]| ==> s[1..][i] == s[i + 1];
      }
    }
  }

  // ---------- rounding ----------

  /** The integer nearest to a/d, ties to even. */
  function RoundHalfEven(a: nat, d: nat): nat
    requires d > 0
  {
    var f, r := a / d, a % d;
    if 2 * r < d then f
    else if 2 * r > d then f + 1
    else if f % 2 == 0 then f
    else f + 1
  }

  /** Its meaning: within half a unit, and even when exactly half a unit away. */
  lemma RoundHalfEvenMeaning(a: nat, d: nat)
    requires d > 0
    ensures var r := RoundHalfEven(a, d);
            && 2 * a - d <= 2 * (r * d) <= 2 * a + d
            && (2 * (r * d) == 2 * a - d || 2 * (r * d) == 2 * a + d ==> r % 2 == 0)
  {
    var f, m := a / d, a % d;
    assert a == f * d + m;
    assert (f + 1) * d == f * d + d;
  }

  lemma QuotientUnique(a: nat, d: nat, f: nat, m: nat)
    requires d > 0 && a == f * d + m && m < d
    ensures a / d == f && a % d == m
  {
    var q, r := a / d, a % d;
    assert a == q * d + r && 0 <= r < d;
    if q > f {
      MulMono(d, f + 1, q);
      Distribute(d, f, 1);
      assert false;
    } else if q < f {
      MulMono(d, q + 1, f);
      Distribute(d, q, 1);
      assert false;
    }
  }
}
