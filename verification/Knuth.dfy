/** The estimate at the heart of Knuth's Algorithm D: three words of the remainder and two of
    the divisor give a quotient digit that is at most one too large. */
module Knuth {
  import opened Limbs

  lemma DivAtLeast(w: nat, v: nat, k: nat)
    requires v > 0 && v * k <= w
    ensures k <= w / v
  {
    var q, r := w / v, w % v;
    assert w == v * q + r && r < v;
    if q < k {
      MulMono(v, q + 1, k);
      Distribute(v, q, 1);
      assert false;
    }
  }

  lemma DivBelow(w: nat, v: nat, k: nat)
    requires v > 0 && w < v * k
    ensures w / v < k
  {
    var q, r := w / v, w % v;
    assert w == v * q + r && r < v;
    if q >= k {
      MulMono(v, k, q);
      assert false;
    }
  }

  /** `w` is the window of the remainder, `v` the divisor; `p` is the weight of the third word. */
  ghost predicate Window(w: nat, v: nat, p: nat, u2: nat, u1: nat, u0: nat, v1: nat, v0: nat) {
    && p > 0 && v1 > 0 && u1 < B && u0 < B && v0 < B
    && p * ((u2 * B + u1) * B + u0) <= w < p * ((u2 * B + u1) * B + u0 + 1)
    && p * (v1 * B + v0) <= v < p * (v1 * B + v0 + 1)
  }

  /** The first estimate, from one divisor word, is never too small. */
  lemma FirstEstimate(w: nat, v: nat, p: nat, u2: nat, u1: nat, u0: nat, v1: nat, v0: nat)
    requires Window(w, v, p, u2, u1, u0, v1, v0)
    ensures v > 0 && w / v <= (u2 * B + u1) / v1
  {
    var a := u2 * B + u1;
    var q := a / v1 + 1;
    assert v1 * q >= a + 1 by {
      assert a == v1 * (a / v1) + a % v1;
      Distribute(v1, a / v1, 1);
    }
    // w < p * (a * B + B) <= p * (v1 * B) * q <= v * q
    MulMono(p, v1 * B, v1 * B + v0);
    assert p * (v1 * B) > 0 by { MulSigns(p, v1 * B); }
    MulMono(q, p * (v1 * B), v);
    assert q * (p * (v1 * B)) == p * ((v1 * q) * B);
    MulMono(p, (a + 1) * B, (v1 * q) * B);
    MulMono(p, a * B + u0 + 1, (a + 1) * B);
    DivBelow(w, v, q);
  }

  /** The test that lowers the estimate only fires when it is too large. */
  lemma TooLarge(w: nat, v: nat, p: nat, u2: nat, u1: nat, u0: nat, v1: nat, v0: nat, qhat: nat, rhat: nat)
    requires Window(w, v, p, u2, u1, u0, v1, v0)
    requires qhat * v1 + rhat == u2 * B + u1 && qhat * v0 > B * rhat + u0
    ensures v > 0 && w / v < qhat
  {
    var t, d := (u2 * B + u1) * B + u0, v1 * B + v0;
    assert qhat * d == (qhat * v1) * B + qhat * v0;
    ScaleUp(w, v, p, t, d, qhat);
  }

  lemma ScaleUp(w: nat, v: nat, p: nat, t: nat, d: nat, q: nat)
    requires p > 0 && d > 0 && p * d <= v && w < p * (t + 1) && t + 1 <= q * d
    ensures v > 0 && w / v < q
  {
    MulSigns(p, d);
    MulMono(p, t + 1, q * d);
    assert p * (q * d) == (p * d) * q;
    MulMono(q, p * d, v);
    DivBelow(w, v, q);
  }

  lemma WindowParts(w: nat, v: nat, p: nat, u2: nat, u1: nat, u0: nat, v1: nat, v0: nat, t: nat, d: nat)
    requires Window(w, v, p, u2, u1, u0, v1, v0) && t == (u2 * B + u1) * B + u0 && d == v1 * B + v0
    ensures p > 0 && d > 0 && p * t <= w < p * (t + 1) && 0 < p * d <= v < p * (d + 1)
  {
    MulSigns(p, d);
  }

  /** When the test no longer fires, the estimate is at most one too large. */
  lemma CloseEnough(w: nat, v: nat, p: nat, u2: nat, u1: nat, u0: nat, v1: nat, v0: nat, qhat: nat, rhat: nat)
    requires Window(w, v, p, u2, u1, u0, v1, v0) && 2 * v1 >= B && qhat < B
    requires qhat * v1 + rhat == u2 * B + u1 && (rhat >= B || qhat * v0 <= B * rhat + u0)
    ensures v > 0 && qhat <= w / v + 1
  {
    var t := (u2 * B + u1) * B + u0;
    var d := v1 * B + v0;
    WindowParts(w, v, p, u2, u1, u0, v1, v0, t, d);
    assert v0 < B;
    hide Window;
    if qhat > 0 {
      Fired(qhat, v0, rhat, u0);
      Spread(qhat, v1, v0, rhat, u2 * B + u1, u0);
      OneLess(w, v, p, t, d, qhat);
    } else {
      DivAtLeast(w, v, 0);
    }
  }

  lemma Fired(qhat: nat, v0: nat, rhat: nat, u0: nat)
    requires qhat < B && v0 < B && (rhat >= B || qhat * v0 <= B * rhat + u0)
    ensures qhat * v0 <= B * rhat + u0
  {
    if rhat >= B {
      SmallProduct(qhat, v0);
      assert B * B <= B * rhat;
    }
  }

  lemma Spread(q: nat, v1: nat, v0: nat, r: nat, a: nat, u0: nat)
    requires q * v1 + r == a && q * v0 <= B * r + u0
    ensures q * (v1 * B + v0) <= a * B + u0
  {
    assert q * (v1 * B + v0) == (q * v1) * B + q * v0;
  }

  lemma OneLess(w: nat, v: nat, p: nat, t: nat, d: nat, q: nat)
    requires 0 < v < p * (d + 1) && p * t <= w && q * d <= t && 0 < q <= d
    ensures q <= w / v + 1
  {
    // (q - 1) * v <= p * (d + 1) * (q - 1) <= p * t <= w
    assert (d + 1) * (q - 1) == q * d - d + q - 1;
    MulMono(q - 1, v, p * (d + 1));
    assert (q - 1) * (p * (d + 1)) == p * ((d + 1) * (q - 1));
    MulMono(p, (d + 1) * (q - 1), t);
    DivAtLeast(w, v, q - 1);
  }

  lemma SmallProduct(a: nat, b: nat)
    requires a < B && b < B
    ensures a * b <= (B - 1) * (B - 1)
  {
    MulMono(a, b, B - 1);
    MulMono(B - 1, a, B - 1);
  }
}
