/** The word-array helpers around `quornd`: products, shifts and bit lengths. */
module Shifts {
  import opened Limbs
  import opened Division
  import opened RoundedDivision
  import Knuth

  // ---------- multiplication by a 64-bit number ----------

  /** One word of a multiply-accumulate; the sum just fits 64 bits. */
  lemma AccumulateFits(f: u32, d: u32, x: u32, a: u32)
    ensures 0 <= a + f * d + x < U64
  {
    Knuth.SmallProduct(f, d);
    MulSigns(f, d);
  }

  lemma AccumulateUp(p: nat, low: nat, a: nat, wl: nat, f: nat, ml: nat, x: nat, d: nat, y: nat, a1: nat)
    requires low + p * a == wl + f * ml && a + f * d + x == y + B * a1
    ensures (low + p * y) + (B * p) * a1 == (wl + p * x) + f * (ml + p * d)
  {
    assert p * (a + f * d + x) == p * (y + B * a1);
    assert p * (a + f * d + x) == p * a + f * (p * d) + p * x;
    assert p * (y + B * a1) == p * y + (B * p) * a1;
    Distribute(f, ml, p * d);
  }

  /** `p[at..at+z] += f * m[..z]`, with the carry out; words of `p` above `at` count only when `add`. */
  ghost predicate Accumulated(was: seq<u32>, p: seq<u32>, m: seq<u32>, at: nat, i: nat, f: nat, a: nat) {
    && at + i <= |p| == |was| && i <= |m|
    && SameOutside(was, p, at, at + i)
    && Val(p[at..at + i]) + Pow(B, i) * a == Val(was[at..at + i]) + f * Val(m[..i])
  }

  lemma AccumulateNone(was: seq<u32>, m: seq<u32>, at: nat, f: nat)
    requires at <= |was|
    ensures Accumulated(was, was, m, at, 0, f, 0)
  {
    assert was[at..at + 0] == [] && m[..0] == [];
    assert f * 0 == 0;
  }

  lemma AccumulateStep(was: seq<u32>, p: seq<u32>, m: seq<u32>, at: nat, i: nat, f: nat, a: nat, y: u32, a1: nat)
    requires Accumulated(was, p, m, at, i, f, a) && at + i < |p| && i < |m|
    requires a + f * m[i] + was[at + i] == y + B * a1
    ensures Accumulated(was, p[at + i := y], m, at, i + 1, f, a1)
  {
    PowUp(i);
    hide Val, Pow;
    var p1 := p[at + i := y];
    SliceTop(was, at, at + i);
    SliceTop(p1, at, at + i);
    SliceTop(m, 0, i);
    assert p1[at..at + i] == p[at..at + i];
    assert m[0..i + 1] == m[..i + 1] && m[0..i] == m[..i];
    AccumulateUp(Pow(B, i), Val(p[at..at + i]), a, Val(was[at..at + i]), f, Val(m[..i]), was[at + i], m[i], y, a1);
  }

  /** `mulbyu64`: the product in `z + 2` words, low half of the factor first. */
  method MulByU64(p: array<u32>, mant: u64, m: array<u32>, z: nat)
    requires p != m && z <= m.Length && z + 2 <= p.Length
    modifies p
    ensures Num(p, 0, z + 2) == mant * Val(m[..z])
  {
    hide Val, Pow, Accumulated;
    var lo: u32, hi: u32 := mant % B, mant / B;
    ghost var zeros: seq<u32> := seq(p.Length, i => 0);
    ghost var ms := m[..];
    var a: u32 := 0;
    ghost var virt: seq<u32> := zeros;
    AccumulateNone(zeros, ms, 0, lo);
    for i := 0 to z
      invariant |virt| == p.Length && virt[..i] == p[..i] && Accumulated(zeros, virt, ms, 0, i, lo, a)
      invariant m[..] == ms
    {
      AccumulateFits(lo, m[i], 0, a);
      var t: u64 := a + lo * m[i];
      p[i] := t % B;
      AccumulateStep(zeros, virt, ms, 0, i, lo, a, t % B, t / B);
      virt := virt[i := t % B];
      a := t / B;
    }
    p[z] := a;
    ghost var was := p[..];
    FirstPass(zeros, virt, was, ms, z, lo, a);
    a := 0;
    AccumulateNone(was, ms, 1, hi);
    if hi > 0 {
      for i := 0 to z
        invariant Accumulated(was, p[..], ms, 1, i, hi, a) && m[..] == ms
      {
        AccumulatedRest(was, p[..], ms, 1, i, hi, a);
        AccumulateFits(hi, m[i], p[i + 1], a);
        var t: u64 := a + hi * m[i] + p[i + 1];
        AccumulateStep(was, p[..], ms, 1, i, hi, a, t % B, t / B);
        p[i + 1] := t % B;
        a := t / B;
      }
    } else {
      NothingAdded(was, ms, z);
    }
    ghost var mid := p[..];
    p[z + 1] := a;
    SecondPass(was, mid, p[..], ms, z, lo, hi, a);
    assert mant == lo + B * hi;
    assert p[..][0..z + 2] == p[0..z + 2] && ms[..z] == m[..z];
  }

  lemma AccumulatedRest(was: seq<u32>, p: seq<u32>, m: seq<u32>, at: nat, i: nat, f: nat, a: nat)
    requires Accumulated(was, p, m, at, i, f, a) && at + i < |p|
    ensures |was| == |p| && was[at + i] == p[at + i]
  {
  }

  lemma FirstPass(zeros: seq<u32>, virt: seq<u32>, was: seq<u32>, m: seq<u32>, z: nat, lo: nat, a: u32)
    requires Accumulated(zeros, virt, m, 0, z, lo, a) && (forall i :: 0 <= i < |zeros| ==> zeros[i] == 0)
    requires |was| == |virt| && z < |was| && was[..z] == virt[..z] && was[z] == a
    ensures Val(was[..z + 1]) == lo * Val(m[..z])
  {
    hide Val, Pow;
    ValTop(was[..z + 1]);
    assert was[..z + 1][..z] == was[..z] == virt[0..z];
    ValZero(zeros[0..z]);
  }

  lemma NothingAdded(was: seq<u32>, m: seq<u32>, z: nat)
    requires z < |was| && z <= |m|
    ensures Accumulated(was, was, m, 1, z, 0, 0)
  {
  }

  lemma SecondPass(was: seq<u32>, mid: seq<u32>, p: seq<u32>, m: seq<u32>, z: nat, lo: nat, hi: nat, a: u32)
    requires Accumulated(was, mid, m, 1, z, hi, a) && Val(was[..z + 1]) == lo * Val(m[..z])
    requires z + 1 < |mid| && p == mid[z + 1 := a]
    ensures Val(p[0..z + 2]) == (lo + B * hi) * Val(m[..z])
  {
    PushWord(was, z);
    PushWord(p, z + 1);
    hide Val, Pow;
    ValTop(p[1..z + 2]);
    assert p[1..z + 2][..z] == p[1..z + 1] == mid[1..1 + z];
    assert was[1..z + 1] == was[1..1 + z];
    assert p[0] == was[0];
    assert p[0..z + 2] == p[..z + 2];
    Gather(was[0], Val(was[1..z + 1]), lo, hi, Val(m[..z]), Val(p[1..z + 2]));
  }

  lemma PushWord(s: seq<u32>, z: nat)
    requires z < |s|
    ensures Val(s[..z + 1]) == s[0] + B * Val(s[1..z + 1])
  {
    assert s[..z + 1][1..] == s[1..z + 1];
  }

  lemma Gather(w: nat, wl: nat, lo: nat, hi: nat, m: nat, pl: nat)
    requires w + B * wl == lo * m && pl == wl + hi * m
    ensures w + B * pl == (lo + B * hi) * m
  {
    assert (lo + B * hi) * m == lo * m + B * (hi * m);
    Distribute(B, wl, hi * m);
  }

  // ---------- powers of two ----------

  lemma PowB(x: nat)
    ensures Pow(B, x) == P2(32 * x)
  {
    P2Consts();
    PowPow(2, 32, x);
  }

  lemma SplitShift(s: nat)
    ensures P2(s) == Pow(B, s / 32) * P2(s % 32)
  {
    PowB(s / 32);
    P2Step(32 * (s / 32), s % 32);
  }

  lemma P2Word(b: nat)
    requires b < 32
    ensures 0 < P2(b) < B && P2(b) <= B / 2
  {
    P2Consts();
    PowMono(2, b, 31);
  }

  /** Zero words below a number. */
  lemma ZerosBelow(s: seq<u32>, x: nat)
    requires x <= |s| && forall i :: 0 <= i < x ==> s[i] == 0
    ensures Val(s) == Pow(B, x) * Val(s[x..])
  {
    ValSplit(s, x);
    ValZero(s[..x]);
  }

  /** `one_shiftLeft`. */
  method OneShiftLeft(v: array<u32>, s0: nat)
    requires s0 / 32 < v.Length
    modifies v
    ensures Num(v, 0, s0 / 32 + 1) == P2(s0) && v[s0 / 32] > 0
  {
    hide Val, Pow, P2;
    var x, s := 0, s0;
    while s >= 32
      invariant x <= s0 / 32 && s == s0 - 32 * x
      invariant forall i :: 0 <= i < x ==> v[i] == 0
    {
      v[x] := 0;
      x := x + 1;
      s := s - 32;
    }
    P2Word(s);
    v[x] := P2(s);
    ghost var all := v[0..x + 1];
    ZerosBelow(all, x);
    assert all[x..] == [v[x]];
    ValOne(v[x]);
    SplitShift(s0);
  }

  // ---------- shifting a word array ----------

  /** The words of `x` moved up by `w`, as `sz` words. */
  ghost predicate MovedUp(x: seq<u32>, c: seq<u32>, sz: nat, w: nat) {
    && 0 < sz <= |c| && sz - 1 <= |x| && c[sz - 1] == 0
    && forall i :: 0 <= i < sz - 1 ==> c[i] == if i >= w then x[i - w] else 0
  }

  lemma MovedUpVal(x: seq<u32>, c: seq<u32>, sz: nat, w: nat)
    requires MovedUp(x, c, sz, w) && w < sz
    ensures Val(c[..sz]) == Pow(B, w) * Val(x[..sz - 1 - w])
  {
    hide Val, Pow;
    ValTop(c[..sz]);
    assert c[..sz][..sz - 1] == c[..sz - 1];
    ZerosBelow(c[..sz - 1], w);
    assert c[..sz - 1][w..] == x[..sz - 1 - w];
  }

  /** `scl_shift_left_by`: first whole words, then bits, from the top down; source and target may
      be one array. A shift by whole words only would shift a word by 32 bits, which C leaves
      undefined. */
  method SclShiftLeftBy(v: array<u32>, x: array<u32>, sz: nat, s: nat)
    requires 0 < sz <= v.Length && sz - 1 <= x.Length && s % 32 != 0 && s / 32 < sz
    modifies v
    ensures Num(v, 0, sz) == old(Val(x[..sz - 1 - s / 32])) * P2(s)
  {
    hide Val, Pow, P2, MovedUp;
    var w, b := s / 32, s % 32;
    ghost var xs := x[..];
    MoveWords(v, x, sz, w);
    MovedUpVal(xs, v[..], sz, w);
    MovedTop(xs, v[..], sz, w);
    assert v[..][..sz] == v[..sz];
    ShiftBits(v, sz, b);
    assert xs[..sz - 1 - w] == old(x[..sz - 1 - w]);
    SplitShift(s);
    Regroup3(Pow(B, w), Val(xs[..sz - 1 - w]), P2(b));
  }

  lemma MovedTop(x: seq<u32>, c: seq<u32>, sz: nat, w: nat)
    requires MovedUp(x, c, sz, w)
    ensures 0 < sz <= |c| && c[sz - 1] == 0
  {
  }

  method MoveWords(v: array<u32>, x: array<u32>, sz: nat, w: nat)
    requires 0 < sz <= v.Length && sz - 1 <= x.Length
    modifies v
    ensures MovedUp(old(x[..]), v[..], sz, w)
  {
    v[sz - 1] := 0;
    var i := sz - 1;
    while i > 0
      invariant 0 <= i < sz && v[sz - 1] == 0
      invariant forall t :: 0 <= t < i ==> x[t] == old(x[t])
      invariant forall t :: i <= t < sz - 1 ==> v[t] == if t >= w then old(x[..])[t - w] else 0
    {
      i := i - 1;
      v[i] := if i >= w then x[i - w] else 0;
    }
  }

  method ShiftBits(v: array<u32>, sz: nat, b: nat)
    requires 0 < sz <= v.Length && v[sz - 1] == 0 && b < 32
    modifies v
    ensures Num(v, 0, sz) == old(Val(v[..sz])) * P2(b)
  {
    hide Val, Pow, P2, ShiftWord, WordBelow, Carry;
    ghost var c := v[..];
    var i := sz - 1;
    while i > 0
      invariant 0 <= i < sz
      invariant forall t :: 0 <= t <= i ==> v[t] == c[t]
      invariant forall t :: i < t < sz ==> v[t] == ShiftWord(c[t], WordBelow(c, t), b)
    {
      BelowIs(c, i);
      v[i] := ShiftWord(v[i], v[i - 1], b);
      i := i - 1;
    }
    BelowIs(c, 0);
    v[0] := ShiftWord(v[0], 0, b);
    ShiftVal(c, v[..], sz, b);
    TopClear(c, sz, b);
    assert v[..][..sz] == v[0..sz] && c[..sz] == old(v[..sz]);
  }

  lemma BelowIs(c: seq<u32>, t: nat)
    requires t < |c|
    ensures WordBelow(c, t) == if t == 0 then 0 else c[t - 1]
  {
  }

  lemma TopClear(c: seq<u32>, sz: nat, b: nat)
    requires 0 < sz <= |c| && c[sz - 1] == 0 && b < 32
    ensures Pow(B, sz) * Carry(c, sz, b) == 0
  {
    hide Pow;
    Knuth.DivBelow(0, P2(32 - b), 1);
    CarryNat(c, sz, b);
  }

  lemma Regroup3(p: nat, x: nat, f: nat)
    ensures (p * x) * f == x * (p * f)
  {
  }

  // ---------- shifting a 64-bit number ----------

  /** The three words of `n << b`: 64 bits of shifted value, and the bits shifted out of them. */
  function ThreeWords(n: u64, b: nat): (w: seq<u32>)
    requires b < 32
    ensures |w| == 3
  {
    WordsFit(n, b);
    var ns := (n * P2(b)) % U64;
    [ns % B, ns / B, n / P2(64 - b)]
  }

  lemma WordsFit(n: u64, b: nat)
    requires b < 32
    ensures P2(b) * P2(64 - b) == U64
    ensures 0 <= n / P2(64 - b) < P2(b) <= B
    ensures (n * P2(b)) / U64 == n / P2(64 - b)
  {
    P2Consts();
    PowAdd(2, 32, 32);
    P2Step(b, 64 - b);
    P2Word(b);
    hide P2;
    OverflowBits(n, P2(b), P2(64 - b));
  }

  lemma OverflowBits(n: u64, f: nat, g: nat)
    requires f > 0 && g > 0 && f * g == U64
    ensures 0 <= n / g < f && (n * f) / U64 == n / g
  {
    Knuth.DivBelow(n, g, f);
    DivPositive(n, g);
    var q, r := n / g, n % g;
    assert n == g * q + r;
    assert n * f == q * U64 + r * f by {
      assert (g * q + r) * f == (g * q) * f + r * f;
      assert (g * q) * f == (f * g) * q;
    }
    MulMono(f, r + 1, g);
    Distribute(f, r, 1);
    QuotientUnique(n * f, U64, q, r * f);
  }

  lemma ThreeWordsVal(n: u64, b: nat)
    requires b < 32
    ensures Val(ThreeWords(n, b)) == n * P2(b)
    ensures b == 0 ==> ThreeWords(n, b)[2] == 0
  {
    WordsFit(n, b);
    var w := ThreeWords(n, b);
    assert w[1..] == [w[1], w[2]] && w[1..][1..] == [w[2]];
    ValOne(w[2]);
    assert Val(w) == w[0] + B * (w[1] + B * w[2]);
    hide Val;
    var t := n * P2(b);
    assert t == U64 * (t / U64) + t % U64;
    if b == 0 { assert P2(0) == 1; }
  }

  /** `u64_shiftLeft`: writes at most `sz` words, or one more when the shift alone fills them. */
  method U64ShiftLeft(v: array<u32>, n: u64, sz: nat, s0: nat)
    requires sz <= v.Length && s0 / 32 < v.Length && 32 * sz <= s0 + 95
    requires n * P2(s0) < Pow(B, sz)
    modifies v
    ensures Num(v, 0, sz) == n * P2(s0)
  {
    hide Val, Pow, P2, ThreeWords;
    var x, s := 0, s0;
    while s >= 32
      invariant x <= s0 / 32 && s == s0 - 32 * x
      invariant forall i :: 0 <= i < x ==> v[i] == 0
    {
      v[x] := 0;
      x := x + 1;
      s := s - 32;
    }
    ghost var x0 := x;
    var w := ThreeWords(n, s);
    ThreeWordsVal(n, s);
    v[x] := w[0];
    x := x + 1;
    if x < sz {
      v[x] := w[1];
      x := x + 1;
      if x < sz && s != 0 {
        v[x] := w[2];
      }
    }
    ghost var full: seq<u32> := seq(x0, i => 0) + w;
    assert full[x0..] == w;
    ZerosBelow(full, x0);
    SplitShift(s0);
    Regroup4(Pow(B, x0), n, P2(s));
    ValSmall(full, sz);
    assert v[0..sz] == full[..sz] by {
      assert forall i :: 0 <= i < sz ==> v[i] == full[i];
    }
  }

  lemma Regroup4(p: nat, n: nat, f: nat)
    ensures p * (n * f) == n * (p * f)
  {
  }

  // ---------- bit lengths ----------

  /** `r` is the number of bits of `x`. */
  ghost predicate HasBits(x: nat, r: nat) {
    if x == 0 then r == 0 else r > 0 && P2(r - 1) <= x < P2(r)
  }

  lemma WordBits(x: u32)
    ensures HasBits(x, 32 - Nlz32(x))
  {
    if x > 0 {
      var s := Nlz32(x);
      P2Consts();
      P2Step(31 - s, s);
      P2Step(32 - s, s);
      hide P2;
      BitsDown(x, P2(s), P2(31 - s), P2(32 - s));
    }
  }

  lemma BitsDown(x: nat, f: nat, g: nat, h: nat)
    requires f > 0 && B / 2 <= x * f < B && g * f == B / 2 && h * f == B
    ensures g <= x < h
  {
    ScaleOrder(f, x, h);
    ScaleOrder(f, x, g);
  }

  /** A number of `x` words below a top word has the bits of both. */
  lemma BitsAbove(low: nat, top: nat, x: nat, r: nat)
    requires HasBits(top, r) && top > 0 && low < Pow(B, x)
    ensures HasBits(low + Pow(B, x) * top, 32 * x + r)
  {
    PowB(x);
    P2Step(32 * x, r - 1);
    P2Step(32 * x, r);
    hide Pow, P2;
    MulMono(Pow(B, x), P2(r - 1), top);
    MulMono(Pow(B, x), top + 1, P2(r));
    Distribute(Pow(B, x), top, 1);
  }

  /** `bitLength`. */
  method BitLength(v: array<u32>, sz: nat) returns (r: nat)
    requires 0 < sz <= v.Length
    ensures HasBits(Val(v[..sz]), r)
  {
    hide Val, Pow, HasBits, Nlz32;
    var x := sz - 1;
    while v[x] == 0 && x > 0
      invariant 0 <= x < sz && forall i :: x < i < sz ==> v[i] == 0
    {
      x := x - 1;
    }
    r := x * 32 + (32 - Nlz32(v[x]));
    TopBits(v[..sz], x);
  }

  /** The highest word that is not zero tells the number of bits. */
  lemma TopBits(s: seq<u32>, x: nat)
    requires x < |s| && (forall i :: x < i < |s| ==> s[i] == 0) && (s[x] == 0 ==> x == 0)
    ensures HasBits(Val(s), x * 32 + (32 - Nlz32(s[x])))
  {
    hide Val, Pow, HasBits, Nlz32;
    ValSplit(s, x + 1);
    ValZero(s[x + 1..]);
    ValTop(s[..x + 1]);
    assert s[..x + 1][..x] == s[..x];
    assert Val(s) == Val(s[..x]) + Pow(B, x) * s[x];
    WordBits(s[x]);
    if s[x] == 0 {
      assert s[..0] == [];
      ZeroBits(32 - Nlz32(s[x]));
      assert Val(s) == 0;
    } else {
      ValBound(s[..x]);
      BitsAbove(Val(s[..x]), s[x], x, 32 - Nlz32(s[x]));
    }
  }

  lemma ZeroBits(r: nat)
    ensures HasBits(0, r) <==> r == 0
    ensures Val([]) == 0
  {
  }

  /** `nlz64`, from the words. */
  function Nlz64(x: u64): (s: nat)
    ensures s <= 64
  {
    var hi: u32, lo: u32 := x / B, x % B;
    if Nlz32(hi) == 32 then 32 + Nlz32(lo) else Nlz32(hi)
  }

  lemma WideBits(x: u64)
    ensures HasBits(x, 64 - Nlz64(x))
  {
    hide HasBits, Nlz32;
    var hi: u32, lo: u32 := x / B, x % B;
    WordBits(hi);
    WordBits(lo);
    OnlyZero(hi);
    if hi > 0 {
      assert Pow(B, 1) == B * Pow(B, 0);
      BitsAbove(lo, hi, 1, 32 - Nlz32(hi));
    }
  }

  lemma OnlyZero(x: u32)
    ensures Nlz32(x) == 32 <==> x == 0
  {
    hide Nlz32;
  }
}
