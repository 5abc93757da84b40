/** From a text to the correctly rounded number, and from the digits of a number to its text and back. */
module DecimalConversion {
  import opened Limbs
  import opened Decimals
  import opened DecimalLayout
  import opened DecimalReading
  import opened DecimalRoundTrip
  import opened DecimalTexts
  import Atod

  /** What `get_pow5` makes of the table for an exponent: the words of a power of five. */
  ghost predicate FifthPower(ws: seq<u32>, e: nat) {
    ws != [] && ws[|ws| - 1] > 0 && Val(ws) == Pow(5, e)
  }

  lemma TableIs(ws: seq<u32>, e: nat)
    requires FifthPower(ws, e)
    ensures 0 < |ws| && ws[|ws| - 1] > 0 && Val(ws) == Pow(5, e)
  {
  }

  /** The number `n * 10^k`, correctly rounded, or none when the tables have no power for it. */
  ghost predicate Converted(n: nat, k: int, r: Atod.Scaling) {
    if -345 <= k <= 345 then Atod.CorrectlyRounded(n, k, r) else r.NotANumber?
  }

  /** The text of a number as it is printed: spaces and a sign may come in front. */
  ghost predicate Printed(s: seq<char>, spaces: seq<char>, sign: Sign, ds: seq<char>, k: int) {
    && Blank(spaces) && Significant(ds) && -1000 < |ds| + k - 1 < 1000
    && s == spaces + SignText(sign) + (Layout(ds, k) + [NUL])
  }

  /** The text of a number in any spelling, with digits that make a word, and something after it. */
  ghost predicate Written(s: seq<char>, spaces: seq<char>, sign: Sign, t: Text, rest: seq<char>) {
    && Blank(spaces) && Proper(t) && Ends(t, rest) && Numeral(t.whole + PartDigitsOf(t)) <= 0xFFFF_FFFF_FFFF_FFFF
    && (t.power.Power? ==> Numeral(t.power.digits) <= 0x7FFF_FFFF)
    && s == spaces + SignText(sign) + (Spelled(t) + rest)
  }

  /** `atod_guts`, with the power of five that it asks for. */
  method Convert(mant: u64, dp: int, pow5: seq<seq<u32>>) returns (r: Atod.Scaling)
    requires |pow5| > 345 && forall e :: 0 <= e < |pow5| ==> FifthPower(pow5[e], e)
    ensures Converted(mant, dp, r)
  {
    hide FifthPower, Atod.CorrectlyRounded, Val, Pow;
    var e := if dp >= 0 then dp else -dp;
    var ws := if e <= Atod.MAX_POW5 then pow5[e] else [];
    var table := new u32[|ws|](i requires 0 <= i < |ws| => ws[i]);
    assert table[..] == ws && table[..|ws|] == ws;
    if e <= Atod.MAX_POW5 { TableIs(pow5[e], e); }
    r := Atod.AtodGuts(mant, dp, table, |ws|);
  }

  /** `emyg_strtod`, with what it hands to `scalbn`, and the sign that it puts in front of the result. */
  method ReadNumber(s: seq<char>, pow5: seq<seq<u32>>) returns (scan: Scan, r: Atod.Scaling)
    requires Terminated(s) && |pow5| > 345 && forall e :: 0 <= e < |pow5| ==> FifthPower(pow5[e], e)
    ensures scan == ReadAll(s) && (scan.r.Decimal? ==> Converted(scan.r.mant, scan.r.expt, r))
    ensures forall spaces, sign, ds, k :: Printed(s, spaces, sign, ds, k) ==>
      scan.r.Decimal? && scan.end == |s| - 1 && scan.minus == sign.Minus? && Converted(Numeral(ds), k, r)
    ensures forall spaces, sign, t, rest :: Written(s, spaces, sign, t, rest) ==>
      scan.r.Decimal? && scan.end == |s| - |rest| && scan.minus == sign.Minus?
      && Converted(Numeral(t.whole + PartDigitsOf(t)), WrittenPower(t.power) - |PartDigitsOf(t)|, r)
  {
    hide ReadAll, Layout, FifthPower, Spelled, WrittenPower, Numeral, Converted;
    scan := Strtod(s);
    r := Atod.NotANumber;
    if scan.r.Decimal? {
      r := Convert(scan.r.mant, scan.r.expt, pow5);
    }
    forall spaces, sign, ds, k | Printed(s, spaces, sign, ds, k)
      ensures scan.r.Decimal? && scan.end == |s| - 1 && scan.minus == sign.Minus? && Converted(Numeral(ds), k, r)
    {
      PrintedReads(s, spaces, sign, ds, k, r);
    }
    forall spaces, sign, t, rest | Written(s, spaces, sign, t, rest)
      ensures scan.r.Decimal? && scan.end == |s| - |rest| && scan.minus == sign.Minus?
      ensures Converted(Numeral(t.whole + PartDigitsOf(t)), WrittenPower(t.power) - |PartDigitsOf(t)|, r)
    {
      WrittenReads(s, spaces, sign, t, rest);
    }
  }

  lemma PrintedReads(s: seq<char>, spaces: seq<char>, sign: Sign, ds: seq<char>, k: int, r: Atod.Scaling)
    requires Terminated(s) && Printed(s, spaces, sign, ds, k)
    requires ReadAll(s).r.Decimal? ==> Converted(ReadAll(s).r.mant, ReadAll(s).r.expt, r)
    ensures ReadAll(s).r.Decimal? && ReadAll(s).end == |s| - 1 && ReadAll(s).minus == sign.Minus?
    ensures Converted(Numeral(ds), k, r)
  {
    hide ReadAll, Layout, Atod.CorrectlyRounded, Numeral, SameValue;
    SignedRoundTrip(spaces, sign, ds, k);
    var m := ReadAll(s).r;
    if -345 <= k <= 345 { SameRounding(m.mant, m.expt, Numeral(ds), k, r); }
  }

  lemma WrittenReads(s: seq<char>, spaces: seq<char>, sign: Sign, t: Text, rest: seq<char>)
    requires Terminated(s) && Written(s, spaces, sign, t, rest)
    ensures var digits := t.whole + PartDigitsOf(t);
      && AllDigits(digits) && (t.power.Power? ==> AllDigits(t.power.digits)) && Numeral(digits) <= 0xFFFF_FFFF_FFFF_FFFF
      && ReadAll(s) == Scan(Decimal(Numeral(digits), WrittenPower(t.power) - |PartDigitsOf(t)|), sign.Minus?,
                            |s| - |rest|)
  {
    hide ReadAll, Numeral, Spelled, WrittenPower;
    SignedProperReading(spaces, sign, t, rest);
  }

  /** The digits of a number are laid out in a buffer, behind a minus sign when it is negative, and read again. */
  method PrintAndRead(minus: bool, buffer: array<char>, length: nat, k: int, pow5: seq<seq<u32>>)
    returns (scan: Scan, r: Atod.Scaling)
    requires length <= buffer.Length && Significant(buffer[..length])
    requires buffer.Length >= 25 && -1000 < length + k - 1 < 1000
    requires |pow5| > 345 && forall e :: 0 <= e < |pow5| ==> FifthPower(pow5[e], e)
    modifies buffer
    ensures scan.r.Decimal? && scan.minus == minus && Converted(Numeral(old(buffer[..length])), k, r)
  {
    hide Layout, FifthPower, Converted, Written;
    var ds := buffer[..length];
    assert |ds| == length;
    Prettify(buffer, length, k);
    var text := buffer[..|Layout(ds, k)| + 1];
    assert text == Layout(ds, k) + [NUL];
    var sign := if minus then Minus else NoSign;
    assert [] + SignText(sign) + text == SignText(sign) + text;
    NoBlank();
    assert Printed(SignText(sign) + text, [], sign, ds, k);
    First(SignText(sign), text);
    scan, r := ReadNumber(SignText(sign) + text, pow5);
  }
}
