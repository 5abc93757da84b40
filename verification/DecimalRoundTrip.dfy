/** Reading back what was printed. */
module DecimalRoundTrip {
  import opened Limbs
  import opened Decimals
  import opened DecimalLayout
  import opened DecimalReading
  import Atod

  /** `m * 10^e == n * 10^k` */
  ghost predicate SameValue(m: nat, e: int, n: nat, k: int) {
    if e >= k then m * Pow(10, e - k) == n else m == n * Pow(10, k - e)
  }

  /** The text `t` stands in `s` from position `i`. */
  ghost predicate At(s: seq<char>, i: nat, t: seq<char>) {
    i + |t| < |s| && s[i..i + |t|] == t
  }

  lemma AtFirst(s: seq<char>, i: nat, t: seq<char>)
    requires At(s, i, t) && t != []
    ensures i < |s| && s[i] == t[0] && At(s, i + 1, t[1..])
  {
    assert s[i..i + |t|][0] == t[0];
    assert s[i + 1..i + |t|] == s[i..i + |t|][1..];
  }

  lemma AtSplit(s: seq<char>, i: nat, t: seq<char>, u: seq<char>)
    requires At(s, i, t + u)
    ensures At(s, i, t) && At(s, i + |t|, u)
  {
    assert s[i..i + |t|] == s[i..i + |t + u|][..|t|];
    assert s[i + |t|..i + |t + u|] == s[i..i + |t + u|][|t|..];
  }

  /** The number after more digits. */
  function Push(mant: nat, t: seq<char>): nat
    requires AllDigits(t)
  {
    mant * Pow(10, |t|) + Numeral(t)
  }

  lemma PushFirst(mant: nat, t: seq<char>)
    requires AllDigits(t) && t != []
    ensures Push(mant, t) == Push(mant * 10 + DigitOf(t[0]), t[1..]) >= mant * 10 + DigitOf(t[0])
  {
    var d, u := DigitOf(t[0]), t[1..];
    assert t == [t[0]] + u;
    NumeralOne(t[0]);
    NumeralAppend([t[0]], u);
    PowNext(|u|);
    hide Pow, Numeral;
    PushSum(mant, d, Pow(10, |u|));
  }

  lemma NumeralOne(c: char)
    requires IsDigit(c)
    ensures Numeral([c]) == DigitOf(c)
  {
    assert [c][..0] == [];
  }

  lemma PushSum(mant: nat, d: nat, p: nat)
    requires p > 0
    ensures mant * (10 * p) + d * p == (mant * 10 + d) * p >= mant * 10 + d
  {
    MulMono(mant * 10 + d, 1, p);
  }

  lemma PushNone(mant: nat)
    ensures Push(mant, []) == mant
  {
  }

  /** Digits before the point whose value fits a word. */
  lemma {:induction false} WholeDigits(s: seq<char>, i: nat, t: seq<char>, mant: u64, expt: nat)
    requires Terminated(s) && At(s, i, t) && AllDigits(t) && Push(mant, t) <= MAX64
    ensures ReadWhole(s, i, mant, expt) == ReadWhole(s, i + |t|, Push(mant, t), expt)
    decreases |t|
  {
    hide Push;
    if t == [] {
      PushNone(mant);
    } else {
      AtFirst(s, i, t);
      PushFirst(mant, t);
      WholeDigits(s, i + 1, t[1..], mant * 10 + DigitOf(t[0]), expt);
    }
  }

  /** Digits behind the point whose value fits a word. */
  lemma {:induction false} PartDigits(s: seq<char>, i: nat, t: seq<char>, mant: u64, dadp: nat)
    requires Terminated(s) && At(s, i, t) && AllDigits(t) && Push(mant, t) <= MAX64
    ensures ReadPart(s, i, mant, dadp) == ReadPart(s, i + |t|, Push(mant, t), dadp + |t|)
    decreases |t|
  {
    hide Push;
    if t == [] {
      PushNone(mant);
    } else {
      AtFirst(s, i, t);
      PushFirst(mant, t);
      PartDigits(s, i + 1, t[1..], mant * 10 + DigitOf(t[0]), dadp + 1);
    }
  }

  function Shifted(mant: nat, z: nat): nat {
    mant * Pow(10, z)
  }

  lemma ShiftedNext(mant: nat, z: nat)
    ensures Shifted(mant * 10, z) == Shifted(mant, z + 1) && Shifted(mant, 0) == mant
  {
    assert (mant * 10) * Pow(10, z) == mant * (10 * Pow(10, z));
  }

  /** Zeros before the point: as many as fit are multiplied in, the others are counted. */
  lemma {:induction false} WholeZeros(s: seq<char>, i: nat, n: nat, mant: u64, expt: nat) returns (z: nat)
    requires Terminated(s) && At(s, i, Zeros(n))
    ensures z <= n && Shifted(mant, z) <= MAX64
    ensures ReadWhole(s, i, mant, expt) == ReadWhole(s, i + n, Shifted(mant, z), expt + (n - z))
    decreases n
  {
    hide Shifted;
    z := 0;
    ShiftedNext(mant, 0);
    if n > 0 {
      AtFirst(s, i, Zeros(n));
      assert Zeros(n)[1..] == Zeros(n - 1);
      if mant <= MAX64 / 10 {
        z := WholeZeros(s, i + 1, n - 1, mant * 10, expt);
        ShiftedNext(mant, z);
        z := z + 1;
      } else {
        z := WholeZeros(s, i + 1, n - 1, mant, expt + 1);
      }
    }
  }

  /** The text of an exponent, after `e`. */
  lemma TailExponent(s: seq<char>, i: nat, K: int, mant: u64, dadp: nat)
    requires Terminated(s) && -1000 < K < 1000 && At(s, i, ['e'] + ExponentText(K))
      && !IsDigit(s[i + 1 + |ExponentText(K)|])
    ensures ReadTail(s, i, mant, 0, dadp, false) == Scan(Decimal(mant, K - dadp), false, i + 1 + |ExponentText(K)|)
  {
    hide ExponentText, ReadExponent, ReadTail;
    AtSplit(s, i, ['e'], ExponentText(K));
    AtFirst(s, i, ['e'] + ExponentText(K));
    ExponentCases(K);
    AtFirst(s, i + 1, ExponentText(K));
    if K < 0 {
      assert ExponentText(K)[1..] == ExponentText(-K);
      ExponentDigits(s, i + 2, -K);
      TailSigned(s, i, -K, i + 2 + |ExponentText(-K)|, mant, dadp);
    } else {
      ExponentDigits(s, i + 1, K);
      TailPlain(s, i, K, i + 1 + |ExponentText(K)|, mant, dadp);
    }
  }

  lemma TailSigned(s: seq<char>, i: nat, K: nat, e: nat, mant: u64, dadp: nat)
    requires Terminated(s) && i + 2 < |s| && s[i] == 'e' && s[i + 1] == '-' && IsDigit(s[i + 2])
    requires i + 3 < |s| && ReadExponent(s, i + 3, DigitOf(s[i + 2])) == Exp(e, K)
    ensures ReadTail(s, i, mant, 0, dadp, false) == Scan(Decimal(mant, 0 - K - dadp), false, e)
  {
    hide ReadExponent;
  }

  lemma TailPlain(s: seq<char>, i: nat, K: nat, e: nat, mant: u64, dadp: nat)
    requires Terminated(s) && i + 1 < |s| && s[i] == 'e' && IsDigit(s[i + 1])
    requires i + 2 < |s| && ReadExponent(s, i + 2, DigitOf(s[i + 1])) == Exp(e, K)
    ensures ReadTail(s, i, mant, 0, dadp, false) == Scan(Decimal(mant, K - dadp), false, e)
  {
    hide ReadExponent;
  }

  lemma ExponentDigits(s: seq<char>, j: nat, K: nat)
    requires Terminated(s) && K < 1000 && At(s, j, ExponentText(K)) && !IsDigit(s[j + |ExponentText(K)|])
    ensures j + 1 < |s| && IsDigit(s[j])
    ensures ReadExponent(s, j + 1, DigitOf(s[j])) == Exp(j + |ExponentText(K)|, K)
  {
    hide ExponentText, ReadExponent, Digit;
    var t := ExponentText(K);
    ExponentCases(K);
    AtFirst(s, j, t);
    if |t| == 1 {
      ExponentStops(s, j + 1, K);
    } else if |t| == 2 {
      AtFirst(s, j + 1, t[1..]);
      ExponentNext(s, j + 1, K / 10, K % 10);
      ExponentStops(s, j + 2, K);
    } else {
      AtFirst(s, j + 1, t[1..]);
      AtFirst(s, j + 2, t[1..][1..]);
      ExponentNext(s, j + 1, K / 100, K / 10 % 10);
      ExponentNext(s, j + 2, K / 10, K % 10);
      ExponentStops(s, j + 3, K);
    }
  }

  lemma ExponentNext(s: seq<char>, i: nat, expt: nat, d: nat)
    requires Terminated(s) && i + 1 < |s| && d < 10 && s[i] == Digit(d) && expt < 100
    ensures ReadExponent(s, i, expt) == ReadExponent(s, i + 1, expt * 10 + d)
  {
    assert IsDigit(s[i]) && DigitOf(s[i]) == d;
  }

  lemma ExponentStops(s: seq<char>, i: nat, expt: nat)
    requires Terminated(s) && i < |s| && !IsDigit(s[i])
    ensures ReadExponent(s, i, expt) == Exp(i, expt)
  {
  }

  // ---------- the five layouts ----------

  /** A digit string as `DigitGen` makes it. */
  ghost predicate Significant(ds: seq<char>) {
    1 <= |ds| <= 17 && AllDigits(ds) && ds[0] != '0'
  }

  lemma Fits(ds: seq<char>)
    requires Significant(ds)
    ensures 0 < Numeral(ds) <= 99999999999999999 && Numeral(ds) == Push(DigitOf(ds[0]), ds[1..])
  {
    NumeralBound(ds);
    PowMono(10, |ds|, 17);
    assert Pow(10, 1) == 10 && Pow(10, 2) == 100 && Pow(10, 4) == 10000 by { PowAdd(10, 2, 2); }
    PowAdd(10, 4, 4);
    PowAdd(10, 8, 8);
    PushFirst(0, ds);
    assert Push(0, ds) == Numeral(ds);
  }

  lemma WholeStops(s: seq<char>, i: nat, mant: u64, expt: nat)
    requires Terminated(s) && i < |s| && !IsDigit(s[i])
    ensures ReadWhole(s, i, mant, expt) == Whole(i, mant, expt)
  {
  }

  lemma PartStops(s: seq<char>, i: nat, mant: u64, dadp: nat)
    requires Terminated(s) && i < |s| && !IsDigit(s[i])
    ensures ReadPart(s, i, mant, dadp) == Part(i, mant, dadp)
  {
  }

  lemma PushZeros(z: nat, ds: seq<char>)
    requires AllDigits(ds)
    ensures AllDigits(Zeros(z) + ds) && Push(0, Zeros(z) + ds) == Numeral(ds)
  {
    NumeralZeros(Zeros(z));
    NumeralAppend(Zeros(z), ds);
    assert 0 * Pow(10, |ds|) == 0 && 0 * Pow(10, |Zeros(z) + ds|) == 0;
  }

  /** Reading a number without sign or space in front. */
  lemma StartDigit(s: seq<char>)
    requires Terminated(s) && IsDigit(s[0])
    ensures ReadAll(s) == AfterWhole(s, ReadWhole(s, 1, DigitOf(s[0]), 0), false)
  {
    hide AfterWhole, ReadWhole;
    assert SkipSpace(s, 0) == 0;
  }

  /** The whole text was read, as a number equal to `n * 10^k`; only zeros of whole numbers change the exponent. */
  ghost predicate ReadsAs(s: seq<char>, n: nat, k: int) {
    Terminated(s) && ReadAll(s).r.Decimal? && !ReadAll(s).minus && ReadAll(s).end == |s| - 1
    && SameValue(ReadAll(s).r.mant, ReadAll(s).r.expt, n, k)
    && (ReadAll(s).r.expt == k || -1 <= ReadAll(s).r.expt < k <= 21)
  }

  lemma TailEnds(s: seq<char>, mant: u64, expt: nat, dadp: nat)
    requires Terminated(s)
    ensures ReadTail(s, |s| - 1, mant, expt, dadp, false) == Scan(Decimal(mant, expt - dadp), false, |s| - 1)
  {
  }

  lemma {:induction false} WholeLayout(ds: seq<char>, k: nat)
    requires Significant(ds) && k <= 21
    ensures ReadsAs(ds + Zeros(k) + ['.', '0'] + [NUL], Numeral(ds), k)
  {
    hide ReadPart, ReadWhole, ReadTail, ReadExponent, ExponentText, Push, Numeral, SameValue, Shifted, Pow;
    var s := ds + Zeros(k) + ['.', '0'] + [NUL];
    var n := |ds|;
    Fits(ds);
    assert At(s, 1, ds[1..]) && At(s, n, Zeros(k)) && s[n + k] == '.' && s[n + k + 1] == '0' && s[n + k + 2] == NUL;
    StartDigit(s);
    WholeDigits(s, 1, ds[1..], DigitOf(ds[0]), 0);
    var z := WholeZeros(s, n, k, Numeral(ds), 0);
    var mant: u64 := Shifted(Numeral(ds), z);
    WholeStops(s, n + k, mant, k - z);
    PointZero(s, n + k + 1, mant, k - z);
    if mant <= MAX64 / 10 {
      TailEnds(s, mant * 10, k - z, 1);
    } else {
      TailEnds(s, mant, k - z, 0);
    }
    ZerosValue(Numeral(ds), k, z);
  }

  /** Behind the point only a zero. */
  lemma PointZero(s: seq<char>, i: nat, mant: u64, expt: nat)
    requires Terminated(s) && i + 2 == |s| && s[i] == '0'
    ensures ReadFraction(s, i, mant, expt, false) ==
      if mant <= MAX64 / 10 then ReadTail(s, i + 1, mant * 10, expt, 1, false)
        else ReadTail(s, i + 1, mant, expt, 0, false)
  {
    hide ReadTail;
    assert s[i + 1] == NUL;
    if mant <= MAX64 / 10 {
      assert ReadPart(s, i, mant, 0) == ReadPart(s, i + 1, mant * 10, 1) == Part(i + 1, mant * 10, 1);
    } else {
      assert ReadPart(s, i, mant, 0) == ReadPart(s, i + 1, mant, 0) == Part(i + 1, mant, 0);
    }
  }

  lemma ZerosValue(n: nat, k: nat, z: nat)
    requires z <= k
    ensures SameValue(Shifted(n, z), k - z, n, k)
    ensures SameValue(Shifted(n, z) * 10, k - z - 1, n, k)
  {
    assert k - (k - z) == z && k - (k - z - 1) == z + 1;
    assert n * Pow(10, z) * 10 == n * (10 * Pow(10, z));
    if z == 0 { assert n * Pow(10, 0) == n; }
  }

  lemma SameValueSame(n: nat, k: int)
    ensures SameValue(n, k, n, k)
  {
  }

  lemma {:induction false} PointLayout(ds: seq<char>, p: nat)
    requires Significant(ds) && 0 < p < |ds|
    ensures ReadsAs(ds[..p] + ['.'] + ds[p..] + [NUL], Numeral(ds), p - |ds|)
  {
    hide ReadPart, ReadWhole, ReadTail, ReadExponent, ExponentText, Push, Numeral, SameValue, Shifted, Pow;
    var s := ds[..p] + ['.'] + ds[p..] + [NUL];
    var a := DigitOf(ds[0]);
    Fits(ds);
    SplitPush(ds, p);
    PointText(ds, p, s);
    hide At;
    StartDigit(s);
    var m := Push(a, ds[1..p]);
    WholeDigits(s, 1, ds[1..p], a, 0);
    WholeStops(s, p, m, 0);
    PartDigits(s, p + 1, ds[p..], m, 0);
    PartStops(s, |s| - 1, Numeral(ds), |ds| - p);
    TailEnds(s, Numeral(ds), 0, |ds| - p);
    SameValueSame(Numeral(ds), p - |ds|);
  }

  lemma PointText(ds: seq<char>, p: nat, s: seq<char>)
    requires 0 < p < |ds| && s == ds[..p] + ['.'] + ds[p..] + [NUL]
    ensures At(s, 1, ds[1..p]) && s[p] == '.' && At(s, p + 1, ds[p..]) && s[|s| - 1] == NUL && |s| == |ds| + 2
    ensures s[0] == ds[0]
  {
  }

  lemma SplitPush(ds: seq<char>, p: nat)
    requires Significant(ds) && 0 < p <= |ds|
    ensures AllDigits(ds[1..p]) && AllDigits(ds[p..])
    ensures Push(Push(DigitOf(ds[0]), ds[1..p]), ds[p..]) == Numeral(ds) >= Push(DigitOf(ds[0]), ds[1..p])
  {
    Fits(ds[..p]);
    assert ds[..p][1..] == ds[1..p];
    assert ds == ds[..p] + ds[p..];
    NumeralAppend(ds[..p], ds[p..]);
    MulMono(Numeral(ds[..p]), 1, Pow(10, |ds[p..]|));
  }

  lemma {:induction false} SmallLayout(ds: seq<char>, z: nat)
    requires Significant(ds)
    ensures ReadsAs(['0', '.'] + Zeros(z) + ds + [NUL], Numeral(ds), -(z + |ds|))
  {
    hide ReadPart, ReadWhole, ReadTail, ReadExponent, ExponentText, Push, Numeral, SameValue, Shifted, Pow;
    var s := ['0', '.'] + Zeros(z) + ds + [NUL];
    Fits(ds);
    assert At(s, 2, Zeros(z) + ds) && s[0] == '0' && s[1] == '.' && s[|s| - 1] == NUL;
    StartDigit(s);
    WholeStops(s, 1, 0, 0);
    PushZeros(z, ds);
    PartDigits(s, 2, Zeros(z) + ds, 0, 0);
    PartStops(s, |s| - 1, Numeral(ds), z + |ds|);
    TailEnds(s, Numeral(ds), 0, z + |ds|);
    SameValueSame(Numeral(ds), -(z + |ds|));
  }

  lemma {:induction false} OneDigitLayout(ds: seq<char>, K: int)
    requires Significant(ds) && |ds| == 1 && -1000 < K < 1000
    ensures ReadsAs(ds + ['e'] + ExponentText(K) + [NUL], Numeral(ds), K)
  {
    hide ReadPart, ReadWhole, ReadTail, ReadExponent, ExponentText, Push, Numeral, SameValue, Shifted, Pow;
    var s := ds + ['e'] + ExponentText(K) + [NUL];
    Fits(ds);
    assert At(s, 1, ['e'] + ExponentText(K)) && s[|s| - 1] == NUL && s[0] == ds[0] && s[1] == 'e';
    StartDigit(s);
    PushNone(DigitOf(ds[0]));
    assert ds[1..] == [];
    WholeStops(s, 1, Numeral(ds), 0);
    TailExponent(s, 1, K, Numeral(ds), 0);
    SameValueSame(Numeral(ds), K);
  }

  lemma {:induction false} ExponentLayout(ds: seq<char>, K: int)
    requires Significant(ds) && |ds| > 1 && -1000 < K < 1000
    ensures ReadsAs(ds[..1] + ['.'] + ds[1..] + ['e'] + ExponentText(K) + [NUL], Numeral(ds), K - (|ds| - 1))
  {
    hide ReadPart, ReadWhole, ReadTail, ReadExponent, ExponentText, Push, Numeral, SameValue, Shifted, Pow;
    var s := ds[..1] + ['.'] + ds[1..] + ['e'] + ExponentText(K) + [NUL];
    var n := |ds|;
    Fits(ds);
    assert At(s, 2, ds[1..]) && At(s, n + 1, ['e'] + ExponentText(K)) && s[|s| - 1] == NUL;
    assert s[0] == ds[0] && s[1] == '.' && s[n + 1] == 'e';
    StartDigit(s);
    var a := DigitOf(ds[0]);
    WholeStops(s, 1, a, 0);
    PartDigits(s, 2, ds[1..], a, 0);
    PartStops(s, n + 1, Numeral(ds), n - 1);
    TailExponent(s, n + 1, K, Numeral(ds), n - 1);
    SameValueSame(Numeral(ds), K - (n - 1));
  }

  /** Reading the text of `ds * 10^k` gives a mantissa and exponent of exactly that value, in every
      layout, and reads all of it. */
  lemma RoundTrip(ds: seq<char>, k: int)
    requires Significant(ds) && -1000 < |ds| + k - 1 < 1000
    ensures ReadsAs(Layout(ds, k) + [NUL], Numeral(ds), k)
  {
    hide *;
    var kk := |ds| + k;
    LayoutCases(ds, k);
    if |ds| <= kk <= 21 {
      WholeLayout(ds, k);
    } else if 0 < kk <= 21 {
      PointLayout(ds, kk);
    } else if -6 < kk <= 0 {
      SmallLayout(ds, -kk);
    } else if |ds| == 1 {
      OneDigitLayout(ds, kk - 1);
    } else {
      ExponentLayout(ds, kk - 1);
    }
  }

  lemma LayoutCases(ds: seq<char>, k: int)
    requires Significant(ds) && -1000 < |ds| + k - 1 < 1000
    ensures 1 <= |ds| <= 17
    ensures var kk := |ds| + k;
      Layout(ds, k) ==
        if |ds| <= kk <= 21 then ds + Zeros(k) + ['.', '0']
        else if 0 < kk <= 21 then ds[..kk] + ['.'] + ds[kk..]
        else if -6 < kk <= 0 then ['0', '.'] + Zeros(-kk) + ds
        else if |ds| == 1 then ds + ['e'] + ExponentText(kk - 1)
        else ds[..1] + ['.'] + ds[1..] + ['e'] + ExponentText(kk - 1)
  {
    hide Zeros, ExponentText;
  }

  // ---------- digits that do not fit ----------

  /** How many digits behind the point are multiplied in. */
  function Kept(mant: u64, t: seq<char>): (n: nat)
    requires AllDigits(t)
    ensures n <= |t|
    decreases |t|
  {
    if t == [] || mant > MAX64 / 10 || mant * 10 + DigitOf(t[0]) > MAX64 then 0
    else 1 + Kept(mant * 10 + DigitOf(t[0]), t[1..])
  }

  /** The first digit that is not kept fits no more after the multiplication by ten. */
  predicate Trapped(mant: u64, t: seq<char>)
    requires AllDigits(t)
  {
    var n := Kept(mant, t);
    n < |t| && Push(mant, t[..n]) == MAX64 / 10 && DigitOf(t[n]) > 5
  }

  lemma KeptNext(mant: u64, t: seq<char>)
    requires AllDigits(t) && t != [] && mant <= MAX64 / 10 && mant * 10 + DigitOf(t[0]) <= MAX64
    ensures var m1: u64, t1 := mant * 10 + DigitOf(t[0]), t[1..];
      && Kept(mant, t) == 1 + Kept(m1, t1)
      && Push(mant, t[..Kept(mant, t)]) == Push(m1, t1[..Kept(m1, t1)])
      && (Trapped(mant, t) <==> Trapped(m1, t1))
  {
    hide Push;
    var m1: u64, t1 := mant * 10 + DigitOf(t[0]), t[1..];
    var n := Kept(m1, t1);
    assert t[..n + 1][1..] == t1[..n] && t[..n + 1][0] == t[0];
    PushFirst(mant, t[..n + 1]);
    if n < |t1| { assert t[n + 1] == t1[n]; }
  }

  lemma {:induction false} Saturated(s: seq<char>, i: nat, t: seq<char>, mant: u64, dadp: nat)
    requires Terminated(s) && At(s, i, t) && AllDigits(t) && !IsDigit(s[i + |t|]) && mant > MAX64 / 10
    ensures ReadPart(s, i, mant, dadp) == Part(i + |t|, mant, dadp)
    decreases |t|
  {
    if t != [] {
      AtFirst(s, i, t);
      Saturated(s, i + 1, t[1..], mant, dadp);
    }
  }

  /** The digits behind the point are read up to the last one that fits, except that in one case the
      mantissa comes out ten times too large. */
  lemma {:induction false} PartReads(s: seq<char>, i: nat, t: seq<char>, mant: u64, dadp: nat)
    requires Terminated(s) && At(s, i, t) && AllDigits(t) && !IsDigit(s[i + |t|])
    ensures Push(mant, t[..Kept(mant, t)]) <= MAX64
    ensures var n := Kept(mant, t);
      ReadPart(s, i, mant, dadp)
      == Part(i + |t|, if Trapped(mant, t) then MAX64 / 10 * 10 else Push(mant, t[..n]), dadp + n)
    decreases |t|
  {
    hide Push, Numeral;
    PushNone(mant);
    assert t[..0] == [];
    if t == [] {
    } else {
      AtFirst(s, i, t);
      var d := DigitOf(t[0]);
      if mant > MAX64 / 10 {
        Saturated(s, i, t, mant, dadp);
      } else if mant * 10 + d > MAX64 {
        assert Kept(mant, t) == 0 && t[0] == t[..][0];
        Saturated(s, i + 1, t[1..], mant * 10, dadp);
      } else {
        KeptNext(mant, t);
        PartReads(s, i + 1, t[1..], mant * 10 + d, dadp + 1);
      }
    }
  }

  /** The digits behind the point are truncated to a prefix exactly when that case does not arise. */
  lemma PartTruncatesIff(s: seq<char>, i: nat, t: seq<char>, mant: u64)
    requires Terminated(s) && At(s, i, t) && AllDigits(t) && !IsDigit(s[i + |t|])
    ensures var p, n := ReadPart(s, i, mant, 0), Kept(mant, t);
      SameValue(p.mant, 0 - p.dadp, Push(mant, t[..n]), 0 - n) <==> !Trapped(mant, t)
  {
    hide Push, ReadPart, Kept, Numeral, Trapped, SameValue, Pow, At;
    PartReads(s, i, t, mant, 0);
    var m, n := Push(mant, t[..Kept(mant, t)]), Kept(mant, t);
    TrappedValue(mant, t);
    SameScale(ReadPart(s, i, mant, 0).mant, m, n);
  }

  lemma TrappedValue(mant: u64, t: seq<char>)
    requires AllDigits(t)
    ensures Trapped(mant, t) ==> Push(mant, t[..Kept(mant, t)]) != MAX64 / 10 * 10
  {
    hide Push, Kept;
  }

  lemma SameScale(m: nat, n: nat, k: nat)
    ensures SameValue(m, 0 - k, n, 0 - k) <==> m == n
  {
    assert Pow(10, 0) == 1;
  }

  /** The case arises: 1844674407370955161.6 is read as 18446744073709551610. */
  lemma TenTimes(w: seq<char>, c: char)
    requires AllDigits(w) && |w| == 19 && Numeral(w) == MAX64 / 10 && '6' <= c <= '9'
    ensures ReadAll(w + ['.'] + [c] + [NUL]).r == Decimal(10 * Numeral(w), 0)
  {
    var s := w + ['.'] + [c] + [NUL];
    assert At(s, 1, w[1..]) && s[0] == w[0] && s[19] == '.' && s[20] == c && s[21] == NUL;
    PushFirst(0, w);
    PushZero(w);
    hide Numeral, ReadTail, ReadWhole, Push;
    StartDigit(s);
    WholeDigits(s, 1, w[1..], DigitOf(w[0]), 0);
    WholeStops(s, 19, Numeral(w), 0);
    assert ReadPart(s, 20, Numeral(w), 0) == ReadPart(s, 21, Numeral(w) * 10, 0);
    PartStops(s, 21, 10 * Numeral(w), 0);
    TailEnds(s, 10 * Numeral(w), 0, 0);
  }

  lemma PushZero(t: seq<char>)
    requires AllDigits(t)
    ensures Push(0, t) == Numeral(t)
  {
    assert 0 * Pow(10, |t|) == 0;
  }

  // ---------- back to binary ----------

  lemma PowPos(e: int, k: int)
    requires e >= k
    ensures Pow(10, Atod.Pos(e)) * Pow(10, Atod.Pos(-k))
      == Pow(10, e - k) * (Pow(10, Atod.Pos(k)) * Pow(10, Atod.Pos(-e)))
  {
    PowAdd(10, Atod.Pos(e), Atod.Pos(-k));
    PowAdd(10, Atod.Pos(k), Atod.Pos(-e));
    PowAdd(10, e - k, Atod.Pos(k) + Atod.Pos(-e));
    hide Pow;
  }

  lemma Cross(m: nat, n: nat, te: nat, sk: nat, q: nat, tk: nat, se: nat, p: nat, r: nat)
    requires m * q == n && te * sk == q * (tk * se)
    ensures (m * (te * p)) * (sk * r) == (n * (tk * p)) * (se * r)
  {
    assert (m * (te * p)) * (sk * r) == m * (te * sk) * (p * r) by { Regroup4(m, te, p, sk, r); }
    assert m * (q * (tk * se)) == (m * q) * (tk * se) by { Associate(m, q, tk * se); }
    assert (n * (tk * p)) * (se * r) == n * (tk * se) * (p * r) by { Regroup4(n, tk, p, se, r); }
  }

  lemma Regroup4(m: nat, t: nat, p: nat, s: nat, r: nat)
    ensures (m * (t * p)) * (s * r) == m * (t * s) * (p * r)
  {
    Associate(m, t * p, s * r);
    assert (t * p) * (s * r) == (t * s) * (p * r);
    Associate(m, t * s, p * r);
  }

  lemma CrossRatio(m: nat, e: int, n: nat, k: int, x: int)
    requires SameValue(m, e, n, k)
    ensures Atod.Numerator(m, e, x) * Atod.Denominator(k, x) == Atod.Numerator(n, k, x) * Atod.Denominator(e, x)
  {
    hide Pow;
    var p, r := P2(Atod.Pos(-x)), P2(Atod.Pos(x));
    hide P2;
    if e >= k {
      PowPos(e, k);
      Cross(m, n, Pow(10, Atod.Pos(e)), Pow(10, Atod.Pos(-k)), Pow(10, e - k), Pow(10, Atod.Pos(k)),
            Pow(10, Atod.Pos(-e)), p, r);
    } else {
      PowPos(k, e);
      Cross(n, m, Pow(10, Atod.Pos(k)), Pow(10, Atod.Pos(-e)), Pow(10, k - e), Pow(10, Atod.Pos(e)),
            Pow(10, Atod.Pos(-k)), p, r);
    }
  }

  /** Rounding depends on the value only, not on how mantissa and exponent share it. */
  lemma SameRounding(m: nat, e: int, n: nat, k: int, r: Atod.Scaling)
    requires SameValue(m, e, n, k) && Atod.CorrectlyRounded(m, e, r)
    ensures Atod.CorrectlyRounded(n, k, r)
  {
    hide *;
    RoundedIs(m, e, r);
    var x := r.exponent;
    var a, d, a1, d1 := Atod.Numerator(m, e, x), Atod.Denominator(e, x), Atod.Numerator(n, k, x),
      Atod.Denominator(k, x);
    CrossRatio(m, e, n, k, x);
    RoundedIs(n, k, r);
    Atod.RoundRatio(a, d, a1, d1);
    if r.significand * d == a { Atod.ExactRatio(a, d, a1, d1, r.significand); }
  }

  lemma RoundedIs(m: nat, e: int, r: Atod.Scaling)
    ensures Atod.CorrectlyRounded(m, e, r) <==>
      && r.Scaled?
      && var a, d := Atod.Numerator(m, e, r.exponent), Atod.Denominator(e, r.exponent);
         && r.significand == RoundHalfEven(a, d)
         && (r.significand * d == a || P2(52) <= r.significand <= P2(53))
  {
    hide Atod.Numerator, Atod.Denominator, RoundHalfEven, P2;
  }

  lemma ReadsAsParts(s: seq<char>, n: nat, k: int)
    requires ReadsAs(s, n, k)
    ensures Terminated(s) && ReadAll(s).r.Decimal? && !ReadAll(s).minus && ReadAll(s).end == |s| - 1
    ensures SameValue(ReadAll(s).r.mant, ReadAll(s).r.expt, n, k)
    ensures ReadAll(s).r.expt == k || -1 <= ReadAll(s).r.expt < k <= 21
  {
    hide ReadAll, SameValue;
  }
}
