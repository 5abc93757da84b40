/** Algorithm D on word arrays: the steps of `quornd` for divisors of two words or more. */
module Division {
  import opened Limbs
  import Knuth

  /** The words `a[lo..hi]` as a number. */
  ghost function Num(a: array<u32>, lo: nat, hi: nat): nat
    requires lo <= hi <= a.Length
    reads a
  {
    Val(a[lo..hi])
  }

  /** `s` and `t` agree outside positions `lo` up to `hi`. */
  ghost predicate SameOutside(s: seq<u32>, t: seq<u32>, lo: nat, hi: nat) {
    |s| == |t| && forall i :: 0 <= i < |s| && (i < lo || hi <= i) ==> s[i] == t[i]
  }

  lemma SliceTop(s: seq<u32>, lo: nat, hi: nat)
    requires lo <= hi < |s|
    ensures Val(s[lo..hi + 1]) == Val(s[lo..hi]) + Pow(B, hi - lo) * s[hi]
  {
    ValTop(s[lo..hi + 1]);
    assert s[lo..hi + 1][..hi - lo] == s[lo..hi];
    hide Val;
    hide Pow;
  }

  // ---------- the estimate ----------

  /** The loop around `again:`. All intermediate values fit 64 bits. */
  method EstimateDigit(u2: u32, u1: u32, u0: u32, v1: u32, v0: u32, ghost w: nat, ghost v: nat, ghost p: nat)
    returns (qhat: u64, rhat: u64)
    requires 2 * v1 >= B && u2 <= v1 && Knuth.Window(w, v, p, u2, u1, u0, v1, v0) && w < v * B
    ensures qhat < B && v > 0 && w / v <= qhat <= w / v + 1
  {
    hide Knuth.Window;
    Knuth.FirstEstimate(w, v, p, u2, u1, u0, v1, v0);
    Knuth.DivBelow(w, v, B);
    var top: u64 := u2 * B + u1;
    FirstBound(u2, u1, v1);
    qhat := top / v1;
    rhat := top - qhat * v1;
    while TooBig(qhat, rhat, v0, u0)
      invariant qhat * v1 + rhat == u2 * B + u1 && rhat < B && w / v <= qhat <= B + 1
      decreases qhat
    {
      if qhat < B {
        Knuth.TooLarge(w, v, p, u2, u1, u0, v1, v0, qhat, rhat);
      }
      Lower(qhat, rhat, v1, u2 * B + u1);
      qhat := qhat - 1;
      rhat := rhat + v1;
      if rhat >= B {
        AfterBreak(u2, u1, v1, qhat, rhat);
        break;
      }
    }
    Knuth.CloseEnough(w, v, p, u2, u1, u0, v1, v0, qhat, rhat);
  }

  /** The test at `again:`; neither side overflows 64 bits when it is evaluated. */
  predicate TooBig(qhat: u64, rhat: u64, v0: u32, u0: u32)
    requires rhat < B
  {
    qhat >= B ||
    (Knuth.SmallProduct(qhat, v0);
     var product: u64 := qhat * v0;
     var bound: u64 := B * rhat + u0;
     product > bound)
  }

  lemma Lower(qhat: int, rhat: int, v1: int, top: int)
    requires qhat * v1 + rhat == top
    ensures (qhat - 1) * v1 + (rhat + v1) == top
  {
  }

  lemma FirstBound(u2: u32, u1: u32, v1: u32)
    requires 2 * v1 >= B && u2 <= v1
    ensures (u2 * B + u1) / v1 <= B + 1
    ensures 0 <= (u2 * B + u1) - ((u2 * B + u1) / v1) * v1 < B
  {
    var a := u2 * B + u1;
    assert a < v1 * (B + 2);
    Knuth.DivBelow(a, v1, B + 2);
    assert a == v1 * (a / v1) + a % v1;
  }

  lemma AfterBreak(u2: u32, u1: u32, v1: u32, qhat: nat, rhat: int)
    requires u2 <= v1 && qhat * v1 + rhat == u2 * B + u1 && rhat >= B && v1 > 0
    ensures qhat < B
  {
    if qhat >= B {
      MulMono(v1, B, qhat);
      assert false;
    }
  }

  // ---------- multiply and subtract ----------

  /** One word of the subtraction: the two borrows are detected after wrap-around. */
  method SubtractWord(x: u32, k: u32, qhat: u64, d: u32) returns (y: u32, k1: u32)
    requires qhat < B
    ensures x - k - qhat * d == y - B * k1
  {
    Knuth.SmallProduct(qhat, d);
    var p: u64 := qhat * d;
    y := (x - k) % B;
    var b: u64 := if y > (B - 1) - k then 1 else 0;
    assert x - k == y - B * b;
    var lo, hi := p % B, p / B;
    var y1: u32 := (y - lo) % B;
    if y1 > (B - 1) - lo {
      b := b + 1;
    }
    assert x - k - lo == y1 - B * b;
    assert p == B * hi + lo;
    b := b + hi;
    BorrowFits(x, k, p, y1, b);
    y, k1 := y1, b;
  }

  lemma BorrowFits(x: u32, k: u32, p: u64, y: u32, b: nat)
    requires p <= (B - 1) * (B - 1) && x - k - p == y - B * b
    ensures b < B
  {
  }

  /** `un[j..j+n] -= qhat * vn`, as a number with a final borrow `k`; then the word above. */
  method MultiplySubtract(un: array<u32>, vn: array<u32>, j: nat, n: nat, qhat: u64)
    returns (k: u32)
    requires un != vn && j + n < un.Length && n <= vn.Length && qhat < B
    modifies un
    ensures Num(un, j, j + n) - Pow(B, n) * k == old(Num(un, j, j + n)) - qhat * Num(vn, 0, n)
    ensures un[j + n] == (old(un[j + n]) - k) % B
    ensures SameOutside(old(un[..]), un[..], j, j + n + 1)
  {
    k := 0;
    ghost var was := un[..];
    for i := 0 to n
      invariant SameOutside(was, un[..], j, j + i)
      invariant Val(un[j..j + i]) - Pow(B, i) * k == Val(was[j..j + i]) - qhat * Val(vn[0..i])
    {
      ghost var mid, k0 := un[..], k;
      var x, d := un[j + i], vn[i];
      var y;
      y, k := SubtractWord(x, k, qhat, d);
      un[j + i] := y;
      assert un[j..j + i] == mid[j..j + i];
      SliceTop(was, j, j + i);
      SliceTop(un[..], j, j + i);
      SliceTop(vn[..], 0, i);
      assert un[..][j..j + i + 1] == un[j..j + i + 1] && un[..][j..j + i] == un[j..j + i];
      assert vn[..][0..i + 1] == vn[0..i + 1] && vn[..][0..i] == vn[0..i];
      SubtractUp(Pow(B, i), Val(un[j..j + i]), k0, Val(was[j..j + i]), qhat, Val(vn[0..i]), x, d, y, k);
    }
    assert un[j + n] == was[j + n];
    un[j + n] := (un[j + n] - k) % B;
    assert un[j..j + n] == un[..][j..j + n];
  }

  lemma SubtractUp(p: nat, low: nat, k: nat, was: nat, q: nat, v: nat, x: nat, d: nat, y: nat, k1: nat)
    requires low - p * k == was - q * v && x - k - q * d == y - B * k1
    ensures (low + p * y) - (B * p) * k1 == (was + p * x) - q * (v + p * d)
  {
    assert p * (x - k - q * d) == p * (y - B * k1);
    assert p * (x - k - q * d) == p * x - p * k - q * (p * d);
    assert p * (y - B * k1) == p * y - (B * p) * k1;
    Distribute(q, v, p * d);
  }

  /** `un[j..j+n] += vn` with the carry added to the word above. */
  method AddBack(un: array<u32>, vn: array<u32>, j: nat, n: nat) returns (k: u32)
    requires un != vn && j + n < un.Length && n <= vn.Length
    modifies un
    ensures Num(un, j, j + n) + Pow(B, n) * k == old(Num(un, j, j + n)) + Num(vn, 0, n)
    ensures un[j + n] == (old(un[j + n]) + k) % B
    ensures SameOutside(old(un[..]), un[..], j, j + n + 1)
  {
    k := 0;
    ghost var was := un[..];
    for i := 0 to n
      invariant SameOutside(was, un[..], j, j + i) && k <= 1
      invariant Val(un[j..j + i]) + Pow(B, i) * k == Val(was[j..j + i]) + Val(vn[0..i])
    {
      ghost var mid, k0 := un[..], k;
      var t: u64 := un[j + i] + vn[i] + k;
      ghost var x := un[j + i];
      un[j + i] := t % B;
      k := t / B;
      assert un[j..j + i] == mid[j..j + i];
      SliceTop(was, j, j + i);
      SliceTop(un[..], j, j + i);
      SliceTop(vn[..], 0, i);
      assert un[..][j..j + i + 1] == un[j..j + i + 1] && un[..][j..j + i] == un[j..j + i];
      assert vn[..][0..i + 1] == vn[0..i + 1] && vn[..][0..i] == vn[0..i];
      AddUp(Pow(B, i), Val(un[j..j + i]), k0, Val(was[j..j + i]), Val(vn[0..i]), x, vn[i], un[j + i], k);
    }
    assert un[j + n] == was[j + n];
    un[j + n] := (un[j + n] + k) % B;
    assert un[j..j + n] == un[..][j..j + n];
  }

  lemma AddUp(p: nat, low: nat, k: nat, was: nat, v: nat, x: nat, d: nat, y: nat, k1: nat)
    requires low + p * k == was + v && x + d + k == y + B * k1
    ensures (low + p * y) + (B * p) * k1 == (was + p * x) + (v + p * d)
  {
    assert p * (x + d + k) == p * (y + B * k1);
    assert p * (x + d + k) == p * x + p * d + p * k;
    assert p * (y + B * k1) == p * y + (B * p) * k1;
  }

  // ---------- one quotient digit ----------

  lemma ThreeTop(s: seq<u32>, lo: nat, hi: nat)
    requires lo + 2 <= hi < |s|
    ensures var p := Pow(B, hi - lo - 2);
            Val(s[lo..hi + 1]) == Val(s[lo..hi - 2]) + p * s[hi - 2] + (B * p) * s[hi - 1] + (B * (B * p)) * s[hi]
  {
    PowUp(hi - lo - 2);
    PowUp(hi - lo - 1);
    hide Val;
    hide Pow;
    SliceTop(s, lo, hi);
    SliceTop(s, lo, hi - 1);
    SliceTop(s, lo, hi - 2);
  }

  lemma TwoTop(s: seq<u32>, n: nat)
    requires 2 <= n <= |s|
    ensures var p := Pow(B, n - 2);
            Val(s[..n]) == Val(s[..n - 2]) + p * s[n - 2] + (B * p) * s[n - 1]
  {
    PowUp(n - 2);
    hide Val;
    hide Pow;
    SliceTop(s, 0, n - 1);
    SliceTop(s, 0, n - 2);
    assert s[0..n] == s[..n] && s[0..n - 2] == s[..n - 2];
  }

  /** The three words of the window and the two of the divisor, with their weights. */
  lemma DigitWindow(un: seq<u32>, vn: seq<u32>, j: nat, n: nat)
    requires n >= 2 && j + n < |un| && n <= |vn| && vn[n - 1] > 0
    ensures Knuth.Window(Val(un[j..j + n + 1]), Val(vn[..n]), Pow(B, n - 2),
                         un[j + n], un[j + n - 1], un[j + n - 2], vn[n - 1], vn[n - 2])
  {
    hide Val;
    hide Pow;
    ThreeTop(un, j, j + n);
    TwoTop(vn, n);
    ValBound(un[j..j + n - 2]);
    ValBound(vn[..n - 2]);
    WindowSum(Pow(B, n - 2), Val(un[j..j + n - 2]), un[j + n], un[j + n - 1], un[j + n - 2], Val(vn[..n - 2]),
              vn[n - 1], vn[n - 2]);
  }

  lemma WindowSum(p: nat, lu: nat, u2: u32, u1: u32, u0: u32, lv: nat, v1: u32, v0: u32)
    requires lu < p && lv < p && v1 > 0
    ensures Knuth.Window(lu + p * u0 + (B * p) * u1 + (B * (B * p)) * u2, lv + p * v0 + (B * p) * v1, p,
                         u2, u1, u0, v1, v0)
  {
    assert p * ((u2 * B + u1) * B + u0) == p * u0 + (B * p) * u1 + (B * (B * p)) * u2;
    assert p * ((u2 * B + u1) * B + u0 + 1) == p * u0 + (B * p) * u1 + (B * (B * p)) * u2 + p;
    assert p * (v1 * B + v0) == p * v0 + (B * p) * v1;
    assert p * (v1 * B + v0 + 1) == p * v0 + (B * p) * v1 + p;
  }

  /** The remainder before a step is below the divisor, so its top word does not exceed v1. */
  lemma TopNotAbove(w: nat, v: nat, p: nat, u2: nat, u1: nat, u0: nat, v1: nat, v0: nat)
    requires Knuth.Window(w, v, p, u2, u1, u0, v1, v0) && w < v * B
    ensures u2 <= v1
  {
    if u2 > v1 {
      var d := v1 * B + v0 + 1;
      MulMono(B, v, p * d);
      assert B * (p * d) == p * (B * d);
      MulMono(p, B * d, (u2 * B + u1) * B + u0) by {
        assert d <= u2 * B;
        MulMono(B, d, u2 * B + u1);
      }
      assert false;
    }
  }

  /** A signed total whose low part is below `p` determines what stands above it. */
  lemma TopWord(p: nat, lo: nat, e: int)
    requires lo < p
    ensures 0 <= lo + p * e < p ==> e == 0
    ensures 0 - p <= lo + p * e < 0 ==> e == -1
  {
    if e >= 1 {
      MulMono(p, 1, e);
    } else if e <= -1 {
      MulMono(p, 1, -e);
      if e <= -2 { MulMono(p, 2, -e); }
    }
  }

  /** One turn of the main loop: a quotient digit, and the remainder below the divisor. */
  method DivideStep(un: array<u32>, vn: array<u32>, j: nat, n: nat) returns (qj: u32)
    requires un != vn && n >= 2 && j + n < un.Length && n <= vn.Length && 2 * vn[n - 1] >= B
    requires Num(un, j, j + n + 1) < Num(vn, 0, n) * B
    modifies un
    ensures old(Num(un, j, j + n + 1)) == qj * Num(vn, 0, n) + Num(un, j, j + n)
    ensures Num(un, j, j + n) < Num(vn, 0, n)
    ensures SameOutside(old(un[..]), un[..], j, j + n + 1)
  {
    hide Val;
    hide Pow;
    hide Knuth.Window;
    ghost var w, v, p := Num(un, j, j + n + 1), Num(vn, 0, n), Pow(B, n - 2);
    ghost var lo, u2 := Num(un, j, j + n), un[j + n];
    ghost var was := un[..];
    DigitWindow(un[..], vn[..], j, n);
    assert un[..][j..j + n + 1] == un[j..j + n + 1] && vn[..][..n] == vn[0..n];
    TopNotAbove(w, v, p, un[j + n], un[j + n - 1], un[j + n - 2], vn[n - 1], vn[n - 2]);
    var qhat, rhat := EstimateDigit(un[j + n], un[j + n - 1], un[j + n - 2], vn[n - 1], vn[n - 2], w, v, p);
    SliceTop(was, j, j + n);
    assert was[j..j + n] == un[j..j + n];
    var k := MultiplySubtract(un, vn, j, n, qhat);
    qj := qhat;
    ghost var lo1 := Num(un, j, j + n);
    ValBound(un[j..j + n]);
    ValBound(vn[0..n]);
    AfterSubtract(w, v, Pow(B, n), lo, u2, qhat, lo1, k);
    if un[j + n] != 0 {
      qj := qj - 1;
      var k1 := AddBack(un, vn, j, n);
      ValBound(un[j..j + n]);
      AfterAddBack(w, v, Pow(B, n), lo1, Num(un, j, j + n), k1);
    }
  }

  /** The borrow over the top word is 0 when the digit was exact and 1 when it was too large. */
  lemma AfterSubtract(w: nat, v: nat, p: nat, lo: nat, u2: u32, qhat: nat, lo1: nat, k: u32)
    requires v > 0 && v < p && lo1 < p && w == lo + p * u2 && w / v <= qhat <= w / v + 1
    requires lo1 - p * k == lo - qhat * v
    ensures (u2 - k) % B == 0 ==> qhat == w / v && lo1 == w % v
    ensures (u2 - k) % B != 0 ==> qhat == w / v + 1 && lo1 - p == w % v - v
  {
    var q, r := w / v, w % v;
    assert w == v * q + r;
    assert w - qhat * v == lo1 + p * (u2 - k) by { assert p * (u2 - k) == p * u2 - p * k; }
    TopWord(p, lo1, u2 - k);
    if qhat == q {
      assert qhat * v == v * q;
    } else {
      Distribute(v, q, 1);
      assert qhat * v == v * (q + 1);
    }
  }

  lemma AfterAddBack(w: nat, v: nat, p: nat, lo1: nat, lo2: nat, k: u32)
    requires 0 < v < p && lo2 < p && lo1 - p == w % v - v && lo2 + p * k == lo1 + v
    ensures lo2 == w % v && w == (w / v) * v + lo2
  {
    assert lo2 + p * (k - 1) == w % v by { assert p * (k - 1) == p * k - p; }
    TopWord(p, lo2, k - 1);
  }
}
