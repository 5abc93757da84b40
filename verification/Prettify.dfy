/** `Prettify`: lays out a digit string and a decimal exponent, in place. */
module DecimalLayout {
  import opened Decimals

  const NUL: char := 0 as char

  function Zeros(n: nat): (s: seq<char>)
    ensures |s| == n && forall i :: 0 <= i < n ==> s[i] == '0'
  {
    seq(n, i => '0')
  }

  /** The pairs of digits of 00 to 99, one after the other. */
  function DigitsLut(i: nat): char
    requires i < 200
  {
    Digit(if i % 2 == 0 then i / 2 / 10 else i / 2 % 10)
  }

  /** The text of an exponent. */
  function ExponentText(K: int): seq<char>
    requires -1000 < K < 1000
    decreases K < 0
  {
    if K < 0 then ['-'] + ExponentText(-K)
    else if K >= 100 then [Digit(K / 100), Digit(K / 10 % 10), Digit(K % 10)]
    else if K >= 10 then [Digit(K / 10), Digit(K % 10)]
    else [Digit(K)]
  }

  /** The text of `ds * 10^k`, in one of five layouts. */
  function Layout(ds: seq<char>, k: int): seq<char>
    requires ds != [] && -1000 < |ds| + k - 1 < 1000
  {
    var kk := |ds| + k;
    if |ds| <= kk <= 21 then ds + Zeros(k) + ['.', '0']
    else if 0 < kk <= 21 then ds[..kk] + ['.'] + ds[kk..]
    else if -6 < kk <= 0 then ['0', '.'] + Zeros(-kk) + ds
    else if |ds| == 1 then ds + ['e'] + ExponentText(kk - 1)
    else ds[..1] + ['.'] + ds[1..] + ['e'] + ExponentText(kk - 1)
  }

  /** The buffer holds a C string. */
  ghost predicate Holds(buffer: seq<char>, at: nat, text: seq<char>) {
    at + |text| < |buffer| && buffer[at..at + |text|] == text && buffer[at + |text|] == NUL
  }

  method Memmove(buffer: array<char>, dst: nat, src: nat, n: nat)
    requires dst + n <= buffer.Length && src + n <= buffer.Length
    modifies buffer
    ensures buffer[dst..dst + n] == old(buffer[src..src + n])
    ensures forall i :: 0 <= i < buffer.Length && !(dst <= i < dst + n) ==> buffer[i] == old(buffer[i])
  {
    forall i | 0 <= i < n { buffer[dst + i] := buffer[src + i]; }
  }

  lemma LutIs(K: nat)
    requires K < 100
    ensures DigitsLut(K * 2) == Digit(K / 10) && DigitsLut(K * 2 + 1) == Digit(K % 10)
  {
    assert K * 2 / 2 == K && (K * 2 + 1) / 2 == K;
  }

  lemma ThreeDigits(K: nat)
    requires K < 1000
    ensures K / 100 < 10 && K % 100 < 100 && K % 100 / 10 == K / 10 % 10 && K % 100 % 10 == K % 10
  {
  }

  lemma ExponentCases(K: int)
    requires -1000 < K < 1000
    ensures K < 0 ==> ExponentText(K) == ['-'] + ExponentText(-K)
    ensures K >= 100 ==> ExponentText(K) == [Digit(K / 100), Digit(K / 10 % 10), Digit(K % 10)]
    ensures 10 <= K < 100 ==> ExponentText(K) == [Digit(K / 10), Digit(K % 10)]
    ensures 0 <= K < 10 ==> ExponentText(K) == [Digit(K)]
    ensures 1 <= |ExponentText(K)| <= 4
  {
    hide Digit;
  }

  /** The digits of an exponent without its sign. */
  method WriteMagnitude(K0: nat, buffer: array<char>, at: nat)
    requires K0 < 1000 && at + |ExponentText(K0)| < buffer.Length
    modifies buffer
    ensures Holds(buffer[..], at, ExponentText(K0))
    ensures buffer[..at] == old(buffer[..at])
  {
    hide *;
    ExponentCases(K0);
    ThreeDigits(K0);
    var p, K := at, K0;
    if K >= 100 {
      buffer[p] := Digit(K / 100);
      K := K % 100;
      LutIs(K);
      buffer[p + 1] := DigitsLut(K * 2);
      buffer[p + 2] := DigitsLut(K * 2 + 1);
      p := p + 3;
      assert buffer[at..p] == ExponentText(K0);
    } else if K >= 10 {
      LutIs(K);
      buffer[p] := DigitsLut(K * 2);
      buffer[p + 1] := DigitsLut(K * 2 + 1);
      p := p + 2;
      assert buffer[at..p] == ExponentText(K0);
    } else {
      buffer[p] := Digit(K);
      p := p + 1;
      assert buffer[at..p] == ExponentText(K0);
    }
    buffer[p] := NUL;
    HoldsHere(buffer[..], at, ExponentText(K0));
  }

  lemma HoldsHere(b: seq<char>, at: nat, text: seq<char>)
    requires at + |text| < |b| && b[at..at + |text|] == text && b[at + |text|] == NUL
    ensures Holds(b, at, text)
  {
  }

  /** Writes the text of an exponent and ends the string. */
  method WriteExponent(K0: int, buffer: array<char>, at: nat)
    requires -1000 < K0 < 1000 && at + |ExponentText(K0)| < buffer.Length
    modifies buffer
    ensures Holds(buffer[..], at, ExponentText(K0))
    ensures buffer[..at] == old(buffer[..at])
  {
    hide ExponentText, Holds;
    ExponentCases(K0);
    var K, p := K0, at;
    if K < 0 {
      buffer[p] := '-';
      p := p + 1;
      K := -K;
    }
    WriteMagnitude(K, buffer, p);
    if K0 < 0 {
      assert buffer[at] == buffer[..p][at] == '-';
      SignAndMore(buffer[..], at, ExponentText(K));
    }
    assert buffer[..at] == buffer[..p][..at];
  }

  lemma SignAndMore(b: seq<char>, at: nat, text: seq<char>)
    requires Holds(b, at + 1, text) && b[at] == '-'
    ensures Holds(b, at, ['-'] + text)
  {
    assert b[at..at + 1 + |text|] == [b[at]] + b[at + 1..at + 1 + |text|];
  }

  /** The buffer becomes the text of its first `length` digits times `10^k`. */
  method Prettify(buffer: array<char>, length: nat, k: int)
    requires 0 < length <= 17 && buffer.Length >= 25 && -1000 < length + k - 1 < 1000
    modifies buffer
    ensures Holds(buffer[..], 0, Layout(old(buffer[..length]), k))
  {
    hide Holds, ExponentText;
    var kk := length + k;
    if length <= kk && kk <= 21 {
      LayoutWhole(buffer, length, kk);
    } else if 0 < kk && kk <= 21 {
      LayoutPoint(buffer, length, kk);
    } else if -6 < kk && kk <= 0 {
      LayoutSmall(buffer, length, kk);
    } else if length == 1 {
      ExponentCases(kk - 1);
      buffer[1] := 'e';
      ghost var was := buffer[..2];
      WriteExponent(kk - 1, buffer, 2);
      assert buffer[..2] == was == old(buffer[..1]) + ['e'];
      Front(buffer[..], was, ExponentText(kk - 1));
    } else {
      LayoutExponent(buffer, length, kk);
    }
  }

  /** 1234e7 becomes 12340000000.0 */
  method LayoutWhole(buffer: array<char>, length: nat, kk: nat)
    requires 0 < length <= kk <= 21 && buffer.Length >= 25
    modifies buffer
    ensures Holds(buffer[..], 0, old(buffer[..length]) + Zeros(kk - length) + ['.', '0'])
  {
    ghost var ds := buffer[..length];
    for i := length to kk
      invariant buffer[..i] == ds + Zeros(i - length)
    {
      buffer[i] := '0';
    }
    buffer[kk] := '.';
    buffer[kk + 1] := '0';
    buffer[kk + 2] := NUL;
    Three(buffer[..], ds, Zeros(kk - length), ['.', '0']);
  }

  /** 1234e-2 becomes 12.34 */
  method LayoutPoint(buffer: array<char>, length: nat, kk: nat)
    requires 0 < kk < length <= 17 && buffer.Length >= 25
    modifies buffer
    ensures Holds(buffer[..], 0, old(buffer[..length])[..kk] + ['.'] + old(buffer[..length])[kk..])
  {
    ghost var ds := buffer[..length];
    Memmove(buffer, kk + 1, kk, length - kk);
    buffer[kk] := '.';
    buffer[length + 1] := NUL;
    assert buffer[kk + 1..length + 1] == ds[kk..];
    Three(buffer[..], ds[..kk], ['.'], ds[kk..]);
  }

  /** 1234e-6 becomes 0.001234 */
  method LayoutSmall(buffer: array<char>, length: nat, kk: int)
    requires -6 < kk <= 0 < length <= 17 && buffer.Length >= 25
    modifies buffer
    ensures Holds(buffer[..], 0, ['0', '.'] + Zeros(-kk) + old(buffer[..length]))
  {
    ghost var ds := buffer[..length];
    var offset := 2 - kk;
    Memmove(buffer, offset, 0, length);
    buffer[0] := '0';
    buffer[1] := '.';
    for i := 2 to offset
      invariant buffer[0] == '0' && buffer[1] == '.' && buffer[2..i] == Zeros(i - 2)
      invariant buffer[offset..offset + length] == ds
    {
      buffer[i] := '0';
    }
    buffer[length + offset] := NUL;
    assert buffer[offset..offset + length] == ds;
    Three(buffer[..], ['0', '.'], Zeros(-kk), ds);
  }

  /** 1234e30 becomes 1.234e33 */
  method LayoutExponent(buffer: array<char>, length: nat, kk: int)
    requires 1 < length <= 17 && buffer.Length >= 25 && -1000 < kk - 1 < 1000
    modifies buffer
    ensures var ds := old(buffer[..length]);
      Holds(buffer[..], 0, ds[..1] + ['.'] + ds[1..] + ['e'] + ExponentText(kk - 1))
  {
    hide Holds, ExponentText;
    ghost var ds := buffer[..length];
    ExponentCases(kk - 1);
    Memmove(buffer, 2, 1, length - 1);
    buffer[1] := '.';
    buffer[length + 1] := 'e';
    ghost var front := ds[..1] + ['.'] + ds[1..] + ['e'];
    assert buffer[2..length + 1] == ds[1..];
    assert buffer[..length + 2] == front;
    WriteExponent(kk - 1, buffer, 0 + length + 2);
    Front(buffer[..], front, ExponentText(kk - 1));
  }

  lemma Front(b: seq<char>, x: seq<char>, y: seq<char>)
    requires |x| <= |b| && b[..|x|] == x && Holds(b, |x|, y)
    ensures Holds(b, 0, x + y)
  {
    assert b[..|x| + |y|] == b[..|x|] + b[|x|..|x| + |y|];
  }

  lemma Three(b: seq<char>, x: seq<char>, y: seq<char>, z: seq<char>)
    requires |x| + |y| + |z| < |b| && b[..|x|] == x && b[|x|..|x| + |y|] == y && b[|x| + |y|..|x| + |y| + |z|] == z
    requires b[|x| + |y| + |z|] == NUL
    ensures Holds(b, 0, x + y + z)
  {
    assert b[..|x| + |y| + |z|] == b[..|x|] + b[|x|..|x| + |y|] + b[|x| + |y|..|x| + |y| + |z|];
  }
}
