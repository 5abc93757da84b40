/** `quornd`: quotient of two word arrays, rounded half to even, with at most 53 bits. */
module RoundedDivision {
  import opened Limbs
  import opened Division
  import Knuth

  const JUMBO: nat := 30
  const MANTISSA_BITS: nat := 53

  lemma P2Consts()
    ensures P2(0) == 1 && P2(32) == B && P2(31) == B / 2 && P2(21) == 0x20_0000
  {
    assert Pow(2, 8) == 256;
    PowAdd(2, 8, 8);
    PowAdd(2, 16, 16);
    PowAdd(2, 16, 15);
    assert Pow(2, 5) == 32;
    PowAdd(2, 16, 5);
    assert Pow(2, 7) == 128;
    PowAdd(2, 8, 7);
  }

  lemma P2Inverse(s: nat)
    requires s <= 32
    ensures P2(s) * P2(32 - s) == B && P2(s) <= B && P2(32 - s) <= B
  {
    P2Consts();
    PowAdd(2, s, 32 - s);
    PowMono(2, s, 32);
    PowMono(2, 32 - s, 32);
  }

  /** One halving of the range: shift by `k` when the top `k` bits are clear. */
  function Narrow(x: u32, y: u32, n: nat, k: nat, f: nat): (r: (nat, u32))
    requires f > 0 && B % f == 0 && f == P2(k) && y == x * P2(n) && y * f >= B / f
    ensures r.0 <= n + k && r.1 == x * P2(r.0) && r.1 >= B / f
  {
    P2Step(n, k);
    if y < B / f then
      assert y * f < B by { Cancel(y, f); }
      assert y * f == x * P2(n + k);
      (n + k, y * f)
    else (n, y)
  }

  lemma Cancel(y: nat, f: nat)
    requires f > 0 && B % f == 0 && y < B / f
    ensures y * f < B
  {
    assert B == f * (B / f);
    MulMono(f, y + 1, B / f);
    Distribute(f, y, 1);
  }

  /** The number of leading zero bits of a word, by halving the search range. */
  function Nlz32(x: u32): (s: nat)
    ensures x == 0 ==> s == 32
    ensures x > 0 ==> s <= 31 && B / 2 <= x * P2(s) < B
  {
    P2Small();
    if x == 0 then 32
    else
      var (n0, x0) := Narrow(x, x, 0, 16, 0x1_0000);
      var (n1, x1) := Narrow(x, x0, n0, 8, 0x100);
      var (n2, x2) := Narrow(x, x1, n1, 4, 0x10);
      var (n3, x3) := Narrow(x, x2, n2, 2, 4);
      var (n4, x4) := Narrow(x, x3, n3, 1, 2);
      n4
  }

  lemma P2Small()
    ensures P2(0) == 1 && P2(1) == 2 && P2(2) == 4 && P2(4) == 16 && P2(8) == 256 && P2(16) == 0x1_0000
  {
    assert Pow(2, 8) == 256;
    PowAdd(2, 8, 8);
  }

  lemma P2Step(a: nat, b: nat)
    ensures P2(a + b) == P2(a) * P2(b)
  {
    PowAdd(2, a, b);
  }

  // ---------- normalization ----------

  /** `(hi << s) | (lo >> (32 - s))` in 32 bits; the two parts share no bit. */
  function ShiftWord(hi: u32, lo: u32, s: nat): (w: u32)
    requires s <= 31
  {
    P2Inverse(s);
    Combine(hi, lo, P2(s), P2(32 - s))
  }

  function Combine(hi: u32, lo: u32, f: nat, g: nat): (w: u32)
    requires f > 0 && g > 0 && f * g == B
  {
    ShiftFits(hi, lo, f, g);
    (hi * f) % B + lo / g
  }

  /** Disjoint bits: their union is their sum. */
  lemma OrIsPlus(hi: bv32, lo: bv32, s: bv6)
    requires 0 < s < 32
    ensures (hi << s) | (lo >> (32 - s)) == (hi << s) + (lo >> (32 - s))
  {
  }

  lemma ShiftFits(hi: u32, lo: u32, f: nat, g: nat)
    requires f > 0 && g > 0 && f * g == B
    ensures 0 <= lo / g < f && 0 <= (hi * f) % B <= B - f && (hi * f) / B == hi / g
    ensures 0 <= (hi * f) % B + lo / g < B
  {
    ShiftHigh(hi, f, g);
    Knuth.DivBelow(lo, g, f);
    DivPositive(lo, g);
  }

  lemma DivPositive(a: nat, g: nat)
    requires g > 0
    ensures a / g >= 0
  {
  }

  lemma ShiftHigh(hi: u32, f: nat, g: nat)
    requires f > 0 && g > 0 && f * g == B
    ensures 0 <= (hi * f) % B <= B - f && (hi * f) / B == hi / g
  {
    var q, r := hi / g, hi % g;
    assert hi == g * q + r;
    assert hi * f == q * B + r * f by {
      assert (g * q + r) * f == (g * q) * f + r * f;
      assert (g * q) * f == (f * g) * q;
    }
    MulMono(f, r + 1, g);
    Distribute(f, r, 1);
    QuotientUnique(hi * f, B, q, r * f);
  }

  /** The word below word `t`, zero below the lowest. */
  ghost function WordBelow(x: seq<u32>, t: nat): u32
    requires t <= |x|
  {
    if t == 0 then 0 else x[t - 1]
  }

  /** The bits shifted out of the first `i` words. */
  function Carry(x: seq<u32>, i: nat, s: nat): nat
    requires i <= |x| && s <= 31
  {
    if i == 0 then 0 else x[i - 1] / P2(32 - s)
  }

  lemma ShiftedWord(x: seq<u32>, i: nat, s: nat)
    requires s <= 31 && 0 < i <= |x|
    ensures ShiftWord(x[i - 1], WordBelow(x, i - 1), s) == (x[i - 1] * P2(s)) % B + Carry(x, i - 1, s)
    ensures Carry(x, i, s) == (x[i - 1] * P2(s)) / B
  {
    P2Inverse(s);
    hide P2;
    ShiftFits(x[i - 1], WordBelow(x, i - 1), P2(s), P2(32 - s));
    Knuth.DivBelow(0, P2(32 - s), 1);
  }

  /** Shifting words shifts the number. */
  lemma {:induction false} ShiftVal(x: seq<u32>, y: seq<u32>, i: nat, s: nat)
    requires s <= 31 && i <= |x| && i <= |y|
    requires forall t :: 0 <= t < i ==> y[t] == ShiftWord(x[t], WordBelow(x, t), s)
    ensures Val(y[..i]) + Pow(B, i) * Carry(x, i, s) == Val(x[..i]) * P2(s)
    decreases i
  {
    if i == 0 {
      assert y[..0] == [] && x[..0] == [];
      assert Pow(B, 0) * 0 == 0;
    } else {
      PowUp(i - 1);
      ShiftTop(x, y, i, s);
    }
  }

  lemma {:induction false} ShiftTop(x: seq<u32>, y: seq<u32>, i: nat, s: nat)
    requires s <= 31 && 0 < i <= |x| && i <= |y| && Pow(B, i) == B * Pow(B, i - 1)
    requires forall t :: 0 <= t < i ==> y[t] == ShiftWord(x[t], WordBelow(x, t), s)
    ensures Val(y[..i]) + Pow(B, i) * Carry(x, i, s) == Val(x[..i]) * P2(s)
    decreases i, 0
  {
    hide Val, Pow, Carry, P2, ShiftWord, WordBelow;
    ShiftVal(x, y, i - 1, s);
    ValTop(x[..i]);
    ValTop(y[..i]);
    assert x[..i][..i - 1] == x[..i - 1] && y[..i][..i - 1] == y[..i - 1];
    ShiftedWord(x, i, s);
    ShiftUp(Pow(B, i - 1), Val(y[..i - 1]), Carry(x, i - 1, s), Val(x[..i - 1]), P2(s), x[i - 1], y[i - 1],
            Carry(x, i, s));
  }

  lemma ShiftUp(p: nat, ly: nat, c: nat, lx: nat, f: nat, x: u32, y: u32, c1: nat)
    requires ly + p * c == lx * f && y == (x * f) % B + c && c1 == (x * f) / B
    ensures (ly + p * y) + (B * p) * c1 == (lx + p * x) * f
  {
    assert x * f == B * c1 + (x * f) % B;
    assert p * y == p * ((x * f) % B) + p * c by { Distribute(p, (x * f) % B, c); }
    assert p * (x * f) == p * (B * c1) + p * ((x * f) % B) by { Distribute(p, B * c1, (x * f) % B); }
    assert p * (B * c1) == (B * p) * c1;
    assert (lx + p * x) * f == lx * f + p * (x * f);
  }

  /** The loops that normalize a word array, from its top word down. */
  method Normalize(x: array<u32>, n: nat, s: nat, y: array<u32>)
    requires x != y && 0 < n <= x.Length && n <= y.Length && s <= 31
    modifies y
    ensures forall t :: 0 <= t < n ==> y[t] == ShiftWord(x[t], WordBelow(x[..], t), s)
    ensures SameOutside(old(y[..]), y[..], 0, n)
  {
    var i := n - 1;
    while i > 0
      invariant 0 <= i < n
      invariant forall t :: i < t < n ==> y[t] == ShiftWord(x[t], x[t - 1], s)
      invariant SameOutside(old(y[..]), y[..], 0, n)
    {
      y[i] := ShiftWord(x[i], x[i - 1], s);
      i := i - 1;
    }
    y[0] := ShiftWord(x[0], 0, s);
  }

  // ---------- the main loop ----------

  /** Before digit `j` is computed, the quotient digits from `j+1` up and the remainder account
      for the whole dividend. */
  ghost predicate Progress(q: seq<u32>, un: seq<u32>, u: nat, v: nat, j: nat, n: nat, k: nat) {
    && j <= k <= |q| && j + n <= |un|
    && Val(un[j..j + n]) < v
    && u == Val(q[j..k]) * (v * Pow(B, j)) + Val(un[..j + n])
  }

  lemma ProgressStep(q: seq<u32>, un: seq<u32>, q1: seq<u32>, un1: seq<u32>, u: nat, v: nat, j: nat,
                     n: nat, k: nat, d: u32)
    requires Progress(q, un, u, v, j + 1, n, k) && |q1| == |q| && q1[j] == d && q1[j + 1..] == q[j + 1..]
    requires |un1| == |un| && un1[..j] == un[..j]
    requires Val(un[j..j + n + 1]) == d * v + Val(un1[j..j + n]) && Val(un1[j..j + n]) < v
    ensures Progress(q1, un1, u, v, j, n, k)
  {
    hide Pow, Val;
    var p := Pow(B, j);
    PowUp(j);
    SplitAt(un, j, j + n + 1);
    SplitAt(un1, j, j + n);
    PushLow(q, q1, j, k, d);
    Regroup(Val(q[j + 1..k]), d, v, p, Val(un[..j]), Val(un1[j..j + n]), Val(un[j..j + n + 1]));
  }

  lemma PushLow(q: seq<u32>, q1: seq<u32>, j: nat, k: nat, d: u32)
    requires j < k <= |q| && |q1| == |q| && q1[j] == d && q1[j + 1..] == q[j + 1..]
    ensures Val(q1[j..k]) == d + B * Val(q[j + 1..k])
  {
    assert q1[j + 1..k] == q1[j + 1..][..k - j - 1];
    assert q1[j..k][1..] == q[j + 1..k];
    hide Pow;
  }

  lemma SplitAt(s: seq<u32>, j: nat, k: nat)
    requires j <= k <= |s|
    ensures Val(s[..k]) == Val(s[..j]) + Pow(B, j) * Val(s[j..k])
  {
    hide Val;
    hide Pow;
    ValSplit(s[..k], j);
    assert s[..k][..j] == s[..j] && s[..k][j..] == s[j..k];
  }

  lemma Regroup(h: nat, d: nat, v: nat, p: nat, low: nat, r: nat, w: nat)
    requires w == d * v + r
    ensures h * (v * (B * p)) + (low + p * w) == (d + B * h) * (v * p) + (low + p * r)
  {
    assert p * w == p * (d * v) + p * r by { Distribute(p, d * v, r); }
    assert p * (d * v) == d * (v * p);
    assert (d + B * h) * (v * p) == d * (v * p) + (B * h) * (v * p);
    assert h * (v * (B * p)) == (B * h) * (v * p);
  }

  /** The window of the next digit is below the base times the divisor. */
  lemma WindowBound(un: seq<u32>, j: nat, n: nat, v: nat)
    requires j + n < |un| && Val(un[j + 1..j + 1 + n]) < v
    ensures Val(un[j..j + n + 1]) < v * B
  {
    assert un[j..j + n + 1][1..] == un[j + 1..j + 1 + n];
    assert Val(un[j..j + n + 1]) == un[j] + B * Val(un[j + 1..j + 1 + n]);
    MulMono(B, Val(un[j + 1..j + 1 + n]) + 1, v);
  }

  method MainLoop(q: array<u32>, un: array<u32>, vn: array<u32>, m: nat, n: nat)
    requires q != un && q != vn && un != vn && 2 <= n <= m && m < un.Length && n <= vn.Length && m - n < q.Length
    requires 2 * vn[n - 1] >= B && Num(un, m - n + 1, m + 1) < Num(vn, 0, n)
    modifies q, un
    ensures Num(un, 0, n) < Num(vn, 0, n)
    ensures old(Num(un, 0, m + 1)) == Num(q, 0, m - n + 1) * Num(vn, 0, n) + Num(un, 0, n)
  {
    hide Val;
    hide Pow;
    ghost var u, v := Num(un, 0, m + 1), Num(vn, 0, n);
    var j := m - n + 1;
    MainStart(q[..], un[..], u, v, m, n);
    assert un[..][..m + 1] == un[0..m + 1] && un[..][m - n + 1..m + 1] == un[m - n + 1..m + 1];
    while j > 0
      invariant 0 <= j <= m - n + 1 && Num(vn, 0, n) == v && 2 * vn[n - 1] >= B
      invariant Progress(q[..], un[..], u, v, j, n, m - n + 1)
    {
      j := j - 1;
      ghost var q0, un0 := q[..], un[..];
      ProgressWindow(q0, un0, u, v, j, n, m - n + 1);
      assert un0[j..j + n + 1] == un[j..j + n + 1];
      var d := DivideStep(un, vn, j, n);
      q[j] := d;
      assert un[..][j..j + n] == un[j..j + n];
      ProgressStep(q0, un0, q[..], un[..], u, v, j, n, m - n + 1, d);
    }
    MainEnd(q[..], un[..], u, v, n, m - n + 1);
    assert q[..][0..m - n + 1] == q[0..m - n + 1] && un[..][..n] == un[0..n];
  }

  lemma ProgressWindow(q: seq<u32>, un: seq<u32>, u: nat, v: nat, j: nat, n: nat, k: nat)
    requires Progress(q, un, u, v, j + 1, n, k)
    ensures j + n < |un| && Val(un[j..j + n + 1]) < v * B
  {
    hide Val;
    WindowBound(un, j, n, v);
  }

  lemma MainStart(q: seq<u32>, un: seq<u32>, u: nat, v: nat, m: nat, n: nat)
    requires n <= m < |un| && m - n < |q| && u == Val(un[..m + 1]) && Val(un[m - n + 1..m + 1]) < v
    ensures Progress(q, un, u, v, m - n + 1, n, m - n + 1)
  {
    assert q[m - n + 1..m - n + 1] == [];
    assert Val([]) * (v * Pow(B, m - n + 1)) == 0;
  }

  lemma MainEnd(q: seq<u32>, un: seq<u32>, u: nat, v: nat, n: nat, k: nat)
    requires Progress(q, un, u, v, 0, n, k)
    ensures Val(un[..n]) < v && u == Val(q[0..k]) * v + Val(un[..n])
  {
    assert Pow(B, 0) == 1 && v * 1 == v;
    assert un[0..0 + n] == un[..n];
  }

  // ---------- rounding ----------

  /** The low two words of a quotient below 2^54, and what its halving leaves. */
  lemma LowWords(q: seq<u32>)
    requires |q| >= 2 && Val(q) < P2(54)
    ensures Val(q) == q[0] + B * q[1] && q[1] < 0x40_0000 && forall i :: 2 <= i < |q| ==> q[i] == 0
    ensures P2(53) == 0x20_0000 * B
  {
    hide Val;
    WideConsts();
    hide P2;
    LowTwo(q);
    ValZero(q[2..]);
    assert forall i :: 2 <= i < |q| ==> q[i] == q[2..][i - 2];
  }

  lemma WideConsts()
    ensures P2(53) == 0x20_0000 * B && P2(54) == 0x40_0000 * B
  {
    P2Consts();
    P2Step(32, 21);
    P2Step(32, 22);
    assert P2(22) == 2 * P2(21);
  }

  lemma LowTwo(q: seq<u32>)
    requires |q| >= 2 && Val(q) < 0x40_0000 * B
    ensures Val(q) == q[0] + B * q[1] && q[1] < 0x40_0000 && Val(q[2..]) == 0
  {
    assert q[1..][1..] == q[2..];
    assert Val(q) == q[0] + B * (q[1] + B * Val(q[2..]));
  }

  /** The test for a 54th bit. */
  lemma BitTest(x: u32)
    ensures 64 - Nlz32(x) > MANTISSA_BITS <==> x >= 0x20_0000
  {
    P2Small();
    if x > 0 {
      var s := Nlz32(x);
      assert P2(10) == 1024 && P2(11) == 2048 by { P2Step(8, 2); P2Step(8, 1); P2Step(10, 1); }
      if s <= 10 {
        PowMono(2, s, 10);
        MulMono(x, P2(s), 1024);
      } else {
        PowMono(2, 11, s);
        MulMono(x, 2048, P2(s));
      }
    }
  }

  /** `round_up`: add one to the number, with the carry rippling up. */
  method RoundUp(q: array<u32>, len: nat)
    requires 0 < len <= q.Length && Num(q, 0, len) + 1 < Pow(B, len)
    modifies q
    ensures Num(q, 0, len) == old(Num(q, 0, len)) + 1
  {
    ghost var was := q[..];
    var i := 0;
    var t: u64 := B;
    while t > B - 1 && i < len
      invariant 0 <= i <= len && (i == 0 ==> t == B)
      invariant t > B - 1 ==> Val(q[0..i]) + Pow(B, i) == Val(was[0..i]) + 1
      invariant t <= B - 1 ==> Val(q[0..i]) == Val(was[0..i]) + 1
      invariant forall k :: i <= k < q.Length ==> q[k] == was[k]
    {
      ghost var mid := q[..];
      t := q[i] as int + 1;
      q[i] := t % B;
      SliceTop(was, 0, i);
      SliceTop(q[..], 0, i);
      assert q[..][0..i] == mid[0..i] == q[0..i] && q[..][0..i + 1] == q[0..i + 1];
      RippleUp(Pow(B, i), Val(q[0..i]), Val(was[0..i]), was[i], t);
      PowUp(i);
      i := i + 1;
    }
    SplitAt(q[..], i, len);
    SplitAt(was, i, len);
    assert q[..][i..len] == was[i..len];
    assert q[..][..i] == q[0..i] && was[..i] == was[0..i] && q[..][..len] == q[0..len] && was[..len] == was[0..len];
  }

  lemma RippleUp(p: nat, low: nat, was: nat, x: u32, t: u64)
    requires low + p == was + 1 && t == x + 1
    ensures t > B - 1 ==> (low + p * (t % B)) + B * p == (was + p * x) + 1
    ensures t <= B - 1 ==> low + p * (t % B) == (was + p * x) + 1
  {
    Distribute(p, x, 1);
  }

  /** Is `2 * rem` above, below or equal to the divisor? Words are compared from the top. */
  datatype Order = Less | Equal | Greater

  method CompareDouble(un: array<u32>, vn: array<u32>, n: nat) returns (o: Order)
    requires 2 <= n <= un.Length && n <= vn.Length
    ensures Compares(o, un[0..n], vn[0..n])
  {
    hide Val, Pow, ShiftWord, Compares, Doubled, AgreeFrom;
    ghost var x, v := un[0..n], vn[0..n];
    if un[n - 1] > (B - 1) / 2 {
      TopBitSet(x, v);
      return Greater;
    }
    ghost var d := Doubled(x);
    var i := n - 1;
    AgreeEmpty(d, v);
    while i > 0
      invariant 0 <= i < n && AgreeFrom(d, v, i + 1)
    {
      var ud := ShiftWord(un[i], un[i - 1], 1);
      if ud != vn[i] {
        DecideAt(x, v, i);
        return if ud > vn[i] then Greater else Less;
      }
      AgreeDown(d, v, i);
      i := i - 1;
    }
    var u0: u32 := un[0] * 2 % B;
    DoubledLow(x);
    if u0 != vn[0] {
      DecideAt(x, v, 0);
      return if u0 > vn[0] then Greater else Less;
    }
    AgreeDown(d, v, 0);
    DecideEqual(x, v);
    return Equal;
  }

  ghost predicate AgreeFrom(d: seq<u32>, v: seq<u32>, i: nat) {
    |d| == |v| && i <= |d| && d[i..] == v[i..]
  }

  lemma AgreeEmpty(d: seq<u32>, v: seq<u32>)
    requires |d| == |v|
    ensures AgreeFrom(d, v, |d|)
  {
  }

  lemma AgreeDown(d: seq<u32>, v: seq<u32>, i: nat)
    requires AgreeFrom(d, v, i + 1) && d[i] == v[i]
    ensures AgreeFrom(d, v, i) && (i == 0 ==> d == v)
  {
    assert d[i..] == [d[i]] + d[i + 1..];
    assert v[i..] == [v[i]] + v[i + 1..];
    assert d[0..] == d && v[0..] == v;
  }

  /** How twice the first number compares with the second. */
  ghost predicate Compares(o: Order, x: seq<u32>, v: seq<u32>) {
    match o
    case Less => 2 * Val(x) < Val(v)
    case Equal => 2 * Val(x) == Val(v)
    case Greater => 2 * Val(x) > Val(v)
  }

  lemma DecideAt(x: seq<u32>, v: seq<u32>, i: nat)
    requires |x| == |v| && i < |x| && x[|x| - 1] <= (B - 1) / 2
    requires AgreeFrom(Doubled(x), v, i + 1) && Doubled(x)[i] != v[i]
    ensures Compares(if Doubled(x)[i] > v[i] then Greater else Less, x, v)
  {
    hide Val;
    var d := Doubled(x);
    DoubledVal(x);
    if d[i] > v[i] { ValCompare(v, d, i); } else { ValCompare(d, v, i); }
  }

  lemma DecideEqual(x: seq<u32>, v: seq<u32>)
    requires x != [] && x[|x| - 1] <= (B - 1) / 2 && Doubled(x) == v
    ensures Compares(Equal, x, v)
  {
    hide Val;
    DoubledVal(x);
  }

  lemma ShiftOne(x: u32)
    ensures ShiftWord(x, 0, 1) == x * 2 % B
  {
    P2Small();
    P2Inverse(1);
    Knuth.DivBelow(0, P2(31), 1);
  }

  lemma DoubledLow(x: seq<u32>)
    requires x != []
    ensures Doubled(x)[0] == x[0] * 2 % B
  {
    hide ShiftWord;
    ShiftOne(x[0]);
    assert Doubled(x)[0] == ShiftWord(x[0], WordBelow(x, 0), 1);
  }

  /** The words of twice a number. */
  ghost function Doubled(x: seq<u32>): (y: seq<u32>)
    ensures |y| == |x| && forall t :: 0 <= t < |x| ==> y[t] == ShiftWord(x[t], WordBelow(x, t), 1)
  {
    seq(|x|, t requires 0 <= t < |x| => ShiftWord(x[t], WordBelow(x, t), 1))
  }

  lemma DoubledVal(x: seq<u32>)
    requires x != [] && x[|x| - 1] <= (B - 1) / 2
    ensures Val(Doubled(x)) == 2 * Val(x)
  {
    hide *;
    var y := Doubled(x);
    ShiftVal(x, y, |x|, 1);
    assert y[..|x|] == y && x[..|x|] == x;
    NoCarry(x);
    TwoIsP2();
  }

  lemma TwoIsP2()
    ensures P2(1) == 2
  {
  }

  lemma NoCarry(x: seq<u32>)
    requires x != [] && x[|x| - 1] <= (B - 1) / 2
    ensures Carry(x, |x|, 1) == 0 && Pow(B, |x|) * Carry(x, |x|, 1) == 0
  {
    P2Consts();
    Knuth.DivBelow(x[|x| - 1], P2(31), 1);
    DivPositive(x[|x| - 1], P2(31));
  }

  lemma TopBitSet(x: seq<u32>, v: seq<u32>)
    requires |x| == |v| > 0 && x[|x| - 1] > (B - 1) / 2
    ensures Compares(Greater, x, v)
  {
    ValTop(x);
    ValBound(v);
    PowUp(|x| - 1);
    MulMono(Pow(B, |x| - 1), B / 2, x[|x| - 1]);
    assert 2 * (Pow(B, |x| - 1) * (B / 2)) == B * Pow(B, |x| - 1);
    hide Val;
    hide Pow;
  }

  /** Rounding against the divisor, from how twice the remainder compares with it. */
  lemma RoundFrom(a: nat, d: nat, f: nat, r: nat, o: Order)
    requires d > 0 && a == f * d + r && r < d
    requires match o case Less => 2 * r < d case Equal => 2 * r == d case Greater => 2 * r > d
    ensures RoundHalfEven(a, d) == if o.Greater? || (o.Equal? && f % 2 == 1) then f + 1 else f
  {
    QuotientUnique(a, d, f, r);
  }

  /** Rounding half the quotient: its low bit says whether the rest is half a unit or more. */
  lemma RoundHalved(a: nat, d: nat, f: nat, r: nat)
    requires d > 0 && a == f * d + r && r < d
    ensures RoundHalfEven(a, 2 * d) ==
            if f % 2 == 1 && (r > 0 || (f / 2) % 2 == 1) then f / 2 + 1 else f / 2
  {
    var h := f / 2;
    if f % 2 == 1 {
      assert f * d == h * (2 * d) + d by { assert f == 2 * h + 1; assert (2 * h + 1) * d == h * (2 * d) + d; }
      QuotientUnique(a, 2 * d, h, d + r);
    } else {
      assert f * d == h * (2 * d) by { assert f == 2 * h; assert (2 * h) * d == h * (2 * d); }
      QuotientUnique(a, 2 * d, h, r);
    }
  }

  /** Common powers of two do not change a rounded quotient. */
  lemma ScaledQuotient(u: nat, v: nat, s: nat, q: nat, r: nat)
    requires s > 0 && v > 0 && u * s == q * (v * s) + r && r < v * s
    ensures u / v == q && r == (u % v) * s && u == q * v + u % v
  {
    assert q * (v * s) == (q * v) * s;
    assert r == (u - q * v) * s by { assert (u - q * v) * s == u * s - (q * v) * s; }
    var m := u - q * v;
    if m < 0 {
      NegativeScale(m, s);
      assert false;
    }
    if m >= v {
      MulMono(s, v, m);
      assert false;
    }
    QuotientUnique(u, v, q, m);
  }

  lemma NegativeScale(m: int, s: int)
    requires m < 0 && s > 0
    ensures m * s < 0
  {
  }

  // ---------- single-word divisors ----------

  /** Short division. `k` keeps meaningless high bits, as the product is taken in 32 bits; only its
      low word is the remainder. */
  method DivideByWord(q: array<u32>, u: array<u32>, v0: u32, m: nat) returns (k: u64)
    requires q != u && m <= u.Length && m <= q.Length && v0 > 0
    modifies q
    ensures k % B < v0
    ensures Num(u, 0, m) == Num(q, 0, m) * v0 + k % B
  {
    hide Val, Pow;
    k := 0;
    var j := m;
    AllBefore(q[..], u[..], v0, m);
    while j > 0
      invariant 0 <= j <= m && k % B < v0
      invariant Shorted(q[..], u[..], v0, j, m, k % B)
    {
      j := j - 1;
      ghost var q0, k0 := q[..], k % B;
      var t: u64 := WordBefore(k, u[j]);
      ShortDigit(k % B, u[j], v0);
      var d: u32 := t / v0;
      q[j] := d;
      DropHigh(t, d, v0);
      k := t - (d * v0) % B;
      ShortStep(q0, q[..], u[..], v0, j, m, k0, k % B);
    }
    AllDone(q[..], u[..], v0, m, k % B);
    assert q[..][0..m] == q[0..m] && u[..][0..m] == u[0..m];
  }

  /** `k*b + u[j]` in 64 bits: the high word of `k` falls off. */
  function WordBefore(k: u64, x: u32): (t: u64)
    ensures t == (k % B) * B + x
  {
    var t := (k * B + x) % U64;
    assert t == (k % B) * B + x by {
      assert k * B + x == (k / B) * U64 + ((k % B) * B + x);
    }
    t
  }

  lemma ShortDigit(r: nat, x: u32, v0: u32)
    requires r < v0
    ensures 0 <= (r * B + x) / v0 < B
    ensures r * B + x == ((r * B + x) / v0) * v0 + (r * B + x) % v0
  {
    MulMono(B, r + 1, v0);
    Knuth.DivBelow(r * B + x, v0, B);
    DivPositive(r * B + x, v0);
  }

  lemma DropHigh(t: u64, d: u32, v0: u32)
    requires v0 > 0 && t == d * v0 + t % v0
    ensures 0 <= t - (d * v0) % B < U64
    ensures (t - (d * v0) % B) % B == t % v0
  {
    var p := d * v0;
    assert p == B * (p / B) + p % B;
    assert p >= 0 by { MulSigns(d, v0); }
    assert t - p % B == B * (p / B) + t % v0;
    QuotientUnique(t - p % B, B, p / B, t % v0);
  }

  ghost predicate Shorted(q: seq<u32>, u: seq<u32>, v0: u32, j: nat, m: nat, r: nat) {
    && j <= m <= |q| && m <= |u|
    && Val(u[j..m]) == Val(q[j..m]) * v0 + r
  }

  lemma AllBefore(q: seq<u32>, u: seq<u32>, v0: u32, m: nat)
    requires m <= |q| && m <= |u|
    ensures Shorted(q, u, v0, m, m, 0)
  {
    assert q[m..m] == [] && u[m..m] == [];
  }

  lemma AllDone(q: seq<u32>, u: seq<u32>, v0: u32, m: nat, r: nat)
    requires Shorted(q, u, v0, 0, m, r)
    ensures Val(u[0..m]) == Val(q[0..m]) * v0 + r
  {
  }

  lemma ShortStep(q: seq<u32>, q1: seq<u32>, u: seq<u32>, v0: u32, j: nat, m: nat, r: nat, r1: nat)
    requires Shorted(q, u, v0, j + 1, m, r) && |q1| == |q| && q1[j + 1..] == q[j + 1..]
    requires r * B + u[j] == q1[j] * v0 + r1
    ensures Shorted(q1, u, v0, j, m, r1)
  {
    assert q1[j..m][1..] == q[j + 1..m] && u[j..m][1..] == u[j + 1..m];
    assert Val(q1[j..m]) == q1[j] + B * Val(q[j + 1..m]);
    assert Val(u[j..m]) == u[j] + B * Val(u[j + 1..m]);
    hide Val;
    ShortSum(Val(q[j + 1..m]), v0, r, u[j], q1[j], r1);
  }

  lemma ShortSum(h: nat, v0: nat, r: nat, x: nat, d: nat, r1: nat)
    requires r * B + x == d * v0 + r1
    ensures x + B * (h * v0 + r) == (d + B * h) * v0 + r1
  {
    assert B * (h * v0 + r) == B * (h * v0) + B * r;
    assert (d + B * h) * v0 == d * v0 + (B * h) * v0;
    assert (B * h) * v0 == B * (h * v0);
  }

  // ---------- the whole division ----------

  /** The shift that makes the top bit of the divisor one. */
  lemma NormalDivisor(v: seq<u32>, vn: seq<u32>, n: nat, s: nat)
    requires 0 < n <= |v| && n <= |vn| && v[n - 1] > 0 && s == Nlz32(v[n - 1])
    requires s <= 31 && forall t :: 0 <= t < n ==> vn[t] == ShiftWord(v[t], WordBelow(v, t), s)
    ensures 2 * vn[n - 1] >= B && Val(vn[..n]) == Val(v[..n]) * P2(s)
  {
    hide Val, Pow, P2, ShiftWord, Carry, WordBelow, Nlz32;
    ShiftVal(v, vn, n, s);
    ShiftedWord(v, n, s);
    CarryNat(v, n - 1, s);
    QuotientUnique(v[n - 1] * P2(s), B, 0, v[n - 1] * P2(s));
  }

  lemma CarryNat(x: seq<u32>, i: nat, s: nat)
    requires i <= |x| && s <= 31
    ensures Carry(x, i, s) >= 0
  {
  }

  lemma NormalDividend(u: seq<u32>, un: seq<u32>, m: nat, s: nat)
    requires 0 < m <= |u| && m < |un| && s <= 31
    requires forall t :: 0 <= t < m ==> un[t] == ShiftWord(u[t], WordBelow(u, t), s)
    requires un[m] == Carry(u, m, s)
    ensures Val(un[..m + 1]) == Val(u[..m]) * P2(s)
  {
    hide Val, Pow, P2, ShiftWord, Carry, WordBelow;
    ShiftVal(u, un, m, s);
    ValTop(un[..m + 1]);
    assert un[..m + 1][..m] == un[..m];
  }

  /** The dividend starts below the divisor. */
  lemma StartsBelow(u: seq<u32>, v: seq<u32>, un: seq<u32>, m: nat, n: nat, s: nat)
    requires 0 < n <= m <= |u| && n <= |v| && m < |un| && v[n - 1] > 0
    requires Val(un[..m + 1]) == Val(u[..m]) * P2(s)
    ensures Val(un[m - n + 1..m + 1]) < Val(v[..n]) * P2(s)
  {
    hide Val, Pow, P2;
    var k := m - n + 1;
    SplitAt(un, k, m + 1);
    ValBound(u[..m]);
    PowAdd(B, k, n - 1);
    ValTop(v[..n]);
    MulMono(Pow(B, n - 1), 1, v[n - 1]);
    BelowSum(Pow(B, k), Pow(B, n - 1), Val(v[..n]), P2(s), Val(un[..k]), Val(un[k..m + 1]), Val(u[..m]));
  }

  lemma BelowSum(p: nat, q: nat, v: nat, f: nat, low: nat, top: nat, u: nat)
    requires p > 0 && f > 0 && q <= v && u < p * q && u * f == low + p * top
    ensures top < v * f
  {
    if top >= v * f {
      MulMono(p, v * f, top);
      MulMono(p, q, v);
      MulMono(f, u + 1, p * v);
      Distribute(f, u, 1);
      Rotate(f, p, v);
      assert false;
    }
  }

  lemma Rotate(f: nat, p: nat, v: nat)
    ensures f * (p * v) == p * (v * f)
  {
  }

  /** The quotient divided by two; says whether a one bit fell off. */
  method HalveQuotient(q: array<u32>, len: nat) returns (odd: bool)
    requires 2 <= len <= q.Length && Num(q, 0, len) < P2(54)
    modifies q
    ensures odd <==> old(Num(q, 0, len)) % 2 == 1
    ensures Num(q, 0, len) == old(Num(q, 0, len)) / 2
    ensures Num(q, 0, len) % 2 == q[0] % 2
  {
    hide Val, Pow, P2, HalfLow;
    ghost var was := q[0..len];
    LowWords(was);
    HalfWords(q[0], q[1]);
    odd := q[0] % 2 == 1;
    q[0] := HalfLow(q[0], q[1]);
    q[1] := q[1] / 2;
    assert forall i :: 2 <= i < len ==> q[0..len][i] == was[i];
    LowWordsVal(q[0..len]);
  }

  /** `(low >> 1) | (high << 31)` in 32 bits. */
  function HalfLow(low: u32, high: u32): u32 {
    low / 2 + (high % 2) * 0x8000_0000
  }

  lemma HalfWords(a: u32, b: u32)
    ensures HalfLow(a, b) + B * (b / 2) == (a + B * b) / 2 && (a + B * b) % 2 == a % 2
  {
  }

  lemma LowWordsVal(q: seq<u32>)
    requires |q| >= 2 && forall i :: 2 <= i < |q| ==> q[i] == 0
    ensures Val(q) == q[0] + B * q[1] && Val(q) % 2 == q[0] % 2
  {
    assert q[1..][1..] == q[2..];
    assert Val(q) == q[0] + B * (q[1] + B * Val(q[2..]));
    ValZero(q[2..]);
  }

  method AnyWord(a: array<u32>, n: nat) returns (some: bool)
    requires n <= a.Length
    ensures some <==> Num(a, 0, n) > 0
  {
    ValZero(a[0..n]);
    var i := n;
    while i > 0
      invariant 0 <= i <= n && forall k :: i <= k < n ==> a[k] == 0
    {
      i := i - 1;
      if a[i] != 0 {
        assert a[0..n][i] != 0;
        return true;
      }
    }
    return false;
  }

  ghost predicate Invalid(v: seq<u32>, m: int, n: int) {
    m < n || n <= 0 || |v| < n || v[n - 1] == 0 || (n >= 2 && m + 1 > JUMBO)
  }

  /** What the quotient array and the return value say. */
  ghost predicate Rounded(u: nat, v: nat, q: nat, res: int) {
    && v > 0
    && (u / v < P2(53) ==> res == 0 && q == RoundHalfEven(u, v))
    && (u / v >= P2(53) ==> res == -1 && q == RoundHalfEven(u, 2 * v))
  }

  /** The 54th bit of the quotient is tested on its second word. */
  lemma TooWide(q: seq<u32>)
    requires |q| >= 2 && Val(q) < P2(54)
    ensures 64 - Nlz32(q[1]) > MANTISSA_BITS <==> Val(q) >= P2(53)
    ensures Val(q) % 2 == q[0] % 2 && Val(q) + 1 < Pow(B, |q|)
  {
    hide Nlz32;
    LowWords(q);
    BitTest(q[1]);
    PowMono(B, 2, |q|);
    assert Pow(B, 2) == B * (B * 1) by { assert Pow(B, 1) == B * Pow(B, 0); }
  }

  /** Halves a quotient of 54 bits and rounds it; `rest` says whether there is a remainder. */
  method RoundHalf(q: array<u32>, len: nat, rest: bool, ghost u: nat, ghost v: nat, ghost r: nat)
    requires 2 <= len <= q.Length && u == Num(q, 0, len) * v + r && r < v && (rest <==> r > 0)
    requires Num(q, 0, len) < P2(54)
    modifies q
    ensures Num(q, 0, len) == RoundHalfEven(u, 2 * v)
  {
    hide Val, Pow, P2, RoundHalfEven;
    ghost var f := Num(q, 0, len);
    TooWide(q[0..len]);
    var odd := HalveQuotient(q, len);
    RoundHalved(u, v, f, r);
    if odd && (rest || q[0] % 2 == 1) {
      RoundUp(q, len);
    }
  }

  /** Rounds the quotient from how twice the remainder compares with the divisor. */
  method RoundWhole(q: array<u32>, len: nat, o: Order, ghost u: nat, ghost v: nat, ghost r: nat)
    requires 2 <= len <= q.Length && u == Num(q, 0, len) * v + r && r < v && Num(q, 0, len) < P2(54)
    requires match o case Less => 2 * r < v case Equal => 2 * r == v case Greater => 2 * r > v
    modifies q
    ensures Num(q, 0, len) == RoundHalfEven(u, v)
  {
    hide Val, Pow, P2, RoundHalfEven;
    ghost var f := Num(q, 0, len);
    TooWide(q[0..len]);
    RoundFrom(u, v, f, r, o);
    if o.Greater? || (o.Equal? && q[0] % 2 == 1) {
      RoundUp(q, len);
    }
  }

  lemma CompareScaled(r: nat, v: nat, s: nat, o: Order)
    requires s > 0
    requires match o
             case Less => 2 * (r * s) < v * s
             case Equal => 2 * (r * s) == v * s
             case Greater => 2 * (r * s) > v * s
    ensures match o case Less => 2 * r < v case Equal => 2 * r == v case Greater => 2 * r > v
  {
    assert 2 * (r * s) == s * (2 * r);
    ScaleOrder(s, 2 * r, v);
  }

  lemma ScaleOrder(s: nat, a: nat, b: nat)
    requires s > 0
    ensures s * a < s * b <==> a < b
    ensures s * a == s * b <==> a == b
  {
    if a < b {
      MulMono(s, a + 1, b);
      Distribute(s, a, 1);
    } else if b < a {
      MulMono(s, b + 1, a);
      Distribute(s, b, 1);
    }
  }

  /** Division by a single word. */
  method QuorndWord(q: array<u32>, u: array<u32>, v0: u32, m: nat) returns (res: int)
    requires q != u && 2 <= m <= u.Length && m <= q.Length && v0 > 0 && Num(u, 0, m) / v0 < P2(54)
    modifies q
    ensures Rounded(Num(u, 0, m), v0, Num(q, 0, m), res)
  {
    hide Val, Pow, P2, RoundHalfEven, Nlz32;
    var k := DivideByWord(q, u, v0, m);
    QuotientUnique(Num(u, 0, m), v0, Num(q, 0, m), k % B);
    TooWide(q[0..m]);
    if 64 - Nlz32(q[1]) > MANTISSA_BITS {
      RoundHalf(q, m, k % B != 0, Num(u, 0, m), v0, k % B);
      return -1;
    }
    var k2: u64 := (k % B) * 2;
    RoundWhole(q, m, if k2 > v0 then Greater else if k2 == v0 then Equal else Less, Num(u, 0, m), v0, k % B);
    return 0;
  }

  /** Division by several words: Algorithm D on the normalized numbers. */
  method QuorndWords(q: array<u32>, u: array<u32>, v: array<u32>, m: nat, n: nat) returns (res: int)
    requires q != u && q != v && 2 <= n < m <= u.Length && n <= v.Length && m - n < q.Length
    requires m + 1 <= JUMBO && v[n - 1] > 0 && Val(v[..n]) > 0 && Val(u[..m]) / Val(v[..n]) < P2(54)
    modifies q
    ensures Rounded(Val(u[..m]), Val(v[..n]), Num(q, 0, m - n + 1), res)
  {
    hide Val, Pow, P2, RoundHalfEven, Nlz32, ShiftWord, WordBelow, Carry, Compares;
    ghost var us, vs := u[..], v[..];
    var un, vn := new u32[JUMBO], new u32[JUMBO];
    var s := Nlz32(v[n - 1]);
    Normalize(v, n, s, vn);
    un[m] := TopCarry(u, m, s);
    Normalize(u, m, s, un);
    NormalDivisor(vs, vn[..], n, s);
    NormalDividend(us, un[..], m, s);
    StartsBelow(us, vs, un[..], m, n, s);
    assert us[..m] == u[..m] && vs[..n] == v[..n];
    assert un[..][..m + 1] == un[0..m + 1] && vn[..][..n] == vn[0..n];
    assert un[..][m - n + 1..m + 1] == un[m - n + 1..m + 1];
    MainLoop(q, un, vn, m, n);
    ghost var a, d, f, r := Val(u[..m]), Val(v[..n]), Num(q, 0, m - n + 1), Num(un, 0, n);
    ScaledQuotient(a, d, P2(s), f, r);
    TooWide(q[0..m - n + 1]);
    if 64 - Nlz32(q[1]) > MANTISSA_BITS {
      var rest := AnyWord(un, n);
      Positive(a % d, P2(s));
      RoundHalf(q, m - n + 1, rest, a, d, a % d);
      return -1;
    }
    var o := CompareDouble(un, vn, n);
    UnfoldCompares(o, un[0..n], vn[0..n]);
    CompareScaled(a % d, d, P2(s), o);
    RoundWhole(q, m - n + 1, o, a, d, a % d);
    return 0;
  }

  lemma Positive(r: nat, s: nat)
    requires s > 0
    ensures r * s > 0 <==> r > 0
  {
    if r > 0 { MulSigns(r, s); }
  }

  lemma UnfoldCompares(o: Order, x: seq<u32>, v: seq<u32>)
    requires Compares(o, x, v)
    ensures match o
            case Less => 2 * Val(x) < Val(v)
            case Equal => 2 * Val(x) == Val(v)
            case Greater => 2 * Val(x) > Val(v)
  {
  }

  /** The bits of the dividend that normalization pushes into an extra word. */
  method TopCarry(u: array<u32>, m: nat, s: nat) returns (c: u32)
    requires 0 < m <= u.Length && s <= 31
    ensures c == Carry(u[..], m, s)
  {
    P2Inverse(s);
    DivPositive(u[m - 1], P2(32 - s));
    Knuth.DivBelow(u[m - 1], P2(32 - s), B) by { MulMono(B, 1, P2(32 - s)); }
    c := u[m - 1] / P2(32 - s);
  }

  /** The divisor of a valid call is not zero. */
  lemma ValPositive(v: seq<u32>, n: nat)
    requires 0 < n <= |v| && v[n - 1] > 0
    ensures Val(v[..n]) >= Pow(B, n - 1) > 0
  {
    hide Val, Pow;
    ValTop(v[..n]);
    assert v[..n][n - 1] == v[n - 1];
    MulMono(Pow(B, n - 1), 1, v[n - 1]);
  }

  /** `quornd` is exact: with a quotient below 2^54 it stores the quotient rounded half to even
      when that needs 53 bits, and the quotient by twice the divisor when it needs 54. */
  method Quornd(q: array<u32>, u: array<u32>, v: array<u32>, m: int, n: int) returns (res: int)
    requires q != u && q != v && m <= u.Length && n <= v.Length
    requires !Invalid(v[..], m, n) ==> m > n && m - n < q.Length && Val(u[..m]) < Val(v[..n]) * P2(54)
    modifies q
    ensures Invalid(v[..], m, n) <==> res == 1
    ensures res != 1 ==> Rounded(Val(u[..m]), Val(v[..n]), Num(q, 0, m - n + 1), res)
    ensures res == 1 ==> q[..] == old(q[..])
  {
    hide Val, Pow, P2, Rounded, Nlz32;
    if m < n || n <= 0 || v[n - 1] == 0 {
      return 1;
    }
    ValPositive(v[..], n);
    assert v[..][..n] == v[..n];
    if n == 1 {
      Knuth.DivBelow(Val(u[..m]), Val(v[..n]), P2(54));
      assert v[..n] == [v[0]];
      ValOne(v[0]);
      assert u[..m] == u[0..m];
      res := QuorndWord(q, u, v[0], m);
      RoundedResult(Val(u[..m]), Val(v[..n]), Num(q, 0, m - n + 1), res);
      return;
    }
    if n > JUMBO || m + 1 > JUMBO {
      return 1;
    }
    Knuth.DivBelow(Val(u[..m]), Val(v[..n]), P2(54));
    res := QuorndWords(q, u, v, m, n);
    RoundedResult(Val(u[..m]), Val(v[..n]), Num(q, 0, m - n + 1), res);
  }

  lemma RoundedResult(u: nat, v: nat, q: nat, res: int)
    requires Rounded(u, v, q, res)
    ensures res == 0 || res == -1
  {
  }
}
