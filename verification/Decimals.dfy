/** Decimal digits as characters. */
module Decimals {
  import opened Limbs

  predicate IsDigit(c: char) {
    '0' <= c <= '9'
  }

  function DigitOf(c: char): (d: nat)
    requires IsDigit(c)
    ensures d < 10
  {
    c as int - '0' as int
  }

  function Digit(d: nat): (c: char)
    requires d < 10
    ensures IsDigit(c) && DigitOf(c) == d
  {
    ('0' as int + d) as char
  }

  predicate AllDigits(s: seq<char>) {
    forall i :: 0 <= i < |s| ==> IsDigit(s[i])
  }

  /** The number that a string of digits stands for. */
  function Numeral(s: seq<char>): nat
    requires AllDigits(s)
  {
    if s == [] then 0 else 10 * Numeral(s[..|s| - 1]) + DigitOf(s[|s| - 1])
  }

  lemma NumeralSnoc(s: seq<char>, c: char)
    requires AllDigits(s) && IsDigit(c)
    ensures AllDigits(s + [c]) && Numeral(s + [c]) == 10 * Numeral(s) + DigitOf(c)
  {
    assert (s + [c])[..|s|] == s;
  }

  lemma {:induction false} NumeralAppend(s: seq<char>, t: seq<char>)
    requires AllDigits(s) && AllDigits(t)
    ensures AllDigits(s + t) && Numeral(s + t) == Numeral(s) * Pow(10, |t|) + Numeral(t)
    decreases |t|
  {
    hide Pow;
    if t == [] {
      PowZero();
      assert s + t == s;
    } else {
      var t0, c := t[..|t| - 1], t[|t| - 1];
      assert t == t0 + [c] && s + t == (s + t0) + [c];
      NumeralAppend(s, t0);
      NumeralSnoc(s + t0, c);
      NumeralSnoc(t0, c);
      Regroup(Numeral(s), Pow(10, |t0|), Numeral(t0), DigitOf(c));
      PowNext(|t0|);
    }
  }

  lemma PowZero()
    ensures Pow(10, 0) == 1
  {
  }

  lemma PowNext(k: nat)
    ensures Pow(10, k + 1) == 10 * Pow(10, k)
  {
  }

  lemma Regroup(a: int, p: int, b: int, d: int)
    ensures 10 * (a * p + b) + d == a * (10 * p) + (10 * b + d)
  {
    assert 10 * (a * p) == a * (10 * p);
  }

  lemma {:induction false} NumeralBound(s: seq<char>)
    requires AllDigits(s)
    ensures Numeral(s) < Pow(10, |s|)
    decreases |s|
  {
    if s != [] { NumeralBound(s[..|s| - 1]); }
  }

  lemma {:induction false} NumeralZeros(s: seq<char>)
    requires forall i :: 0 <= i < |s| ==> s[i] == '0'
    ensures AllDigits(s) && Numeral(s) == 0
    decreases |s|
  {
    if s != [] { NumeralZeros(s[..|s| - 1]); }
  }
}
