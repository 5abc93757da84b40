/** Numbers in every spelling: spaces, signs, digits on either side of the point, and exponents. */
module DecimalTexts {
  import opened Util
  import opened Limbs
  import opened Decimals
  import opened DecimalLayout
  import opened DecimalReading
  import opened DecimalRoundTrip

  // ---------- a text further on ----------

  /** The same reading of a text that begins `n` characters further on, with a sign. A refused text is given back
      whole. */
  function Moved(scan: Scan, n: nat, minus: bool): Scan {
    Scan(scan.r, minus, if scan.r.NoConversion? then 0 else n + scan.end)
  }

  lemma {:induction false} WholeMoved(pre: seq<char>, u: seq<char>, i: nat, mant: u64, expt: nat)
    requires Terminated(u) && i < |u| && Terminated(pre + u)
    ensures var r, r1 := ReadWhole(u, i, mant, expt), ReadWhole(pre + u, |pre| + i, mant, expt);
      r1 == if r.Whole? then r.(i := |pre| + r.i) else r
    decreases |u| - i
  {
    assert (pre + u)[|pre| + i] == u[i];
    if IsDigit(u[i]) {
      var d := DigitOf(u[i]);
      if mant <= MAX64 / 10 {
        if mant * 10 <= MAX64 - d { WholeMoved(pre, u, i + 1, mant * 10 + d, expt); }
      } else if d == 0 {
        WholeMoved(pre, u, i + 1, mant, expt + 1);
      }
    }
  }

  lemma {:induction false} PartMoved(pre: seq<char>, u: seq<char>, i: nat, mant: u64, dadp: nat)
    requires Terminated(u) && i < |u| && Terminated(pre + u)
    ensures var r := ReadPart(u, i, mant, dadp); ReadPart(pre + u, |pre| + i, mant, dadp) == r.(i := |pre| + r.i)
    decreases |u| - i
  {
    assert (pre + u)[|pre| + i] == u[i];
    if IsDigit(u[i]) {
      var d := DigitOf(u[i]);
      if mant <= MAX64 / 10 {
        if mant * 10 <= MAX64 - d {
          PartMoved(pre, u, i + 1, mant * 10 + d, dadp + 1);
        } else {
          PartMoved(pre, u, i + 1, mant * 10, dadp);
        }
      } else {
        PartMoved(pre, u, i + 1, mant, dadp);
      }
    }
  }

  lemma {:induction false} ExponentMoved(pre: seq<char>, u: seq<char>, i: nat, expt: nat)
    requires Terminated(u) && i < |u| && Terminated(pre + u)
    ensures var r, r1 := ReadExponent(u, i, expt), ReadExponent(pre + u, |pre| + i, expt);
      r1 == if r.Exp? then r.(i := |pre| + r.i) else r
    decreases |u| - i
  {
    assert (pre + u)[|pre| + i] == u[i];
    if IsDigit(u[i]) {
      var d := DigitOf(u[i]);
      if expt <= INT_MAX / 10 && expt * 10 <= INT_MAX - d { ExponentMoved(pre, u, i + 1, expt * 10 + d); }
    }
  }

  lemma TailMoved(pre: seq<char>, u: seq<char>, i: nat, mant: u64, expt: nat, dadp: nat, minus: bool)
    requires Terminated(u) && i < |u| && Terminated(pre + u)
    ensures ReadTail(pre + u, |pre| + i, mant, expt, dadp, minus)
      == Moved(ReadTail(u, i, mant, expt, dadp, false), |pre|, minus)
  {
    hide ReadExponent;
    var s := pre + u;
    assert s[|pre| + i] == u[i];
    if SameLetter(u[i], 'e', 'E') {
      assert s[|pre| + i + 1] == u[i + 1];
      var j := if SameLetter(u[i + 1], '-', '+') then i + 2 else i + 1;
      assert s[|pre| + j] == u[j];
      if IsDigit(u[j]) { ExponentMoved(pre, u, j + 1, expt + DigitOf(u[j])); }
    }
  }

  lemma FractionMoved(pre: seq<char>, u: seq<char>, i: nat, mant: u64, expt: nat, minus: bool)
    requires Terminated(u) && i < |u| && Terminated(pre + u)
    ensures ReadFraction(pre + u, |pre| + i, mant, expt, minus)
      == Moved(ReadFraction(u, i, mant, expt, false), |pre|, minus)
  {
    hide ReadPart, ReadTail;
    PartMoved(pre, u, i, mant, 0);
    var p := ReadPart(u, i, mant, 0);
    TailMoved(pre, u, p.i, p.mant, expt, p.dadp, minus);
  }

  lemma WordMoved(pre: seq<char>, u: seq<char>, i: nat, lower: seq<char>, upper: seq<char>)
    requires i < |u| && |lower| == 3 && |upper| == 3
    ensures Word(pre + u, |pre| + i, lower, upper) == Word(u, i, lower, upper)
    ensures WordEnd(pre + u, |pre| + i) == |pre| + WordEnd(u, i)
  {
    forall k | 0 <= k < |u| ensures (pre + u)[|pre| + k] == u[k] {}
  }

  lemma UnsignedMoved(pre: seq<char>, u: seq<char>, minus: bool)
    requires Terminated(u) && Terminated(pre + u)
    ensures ReadUnsigned(pre + u, |pre|, minus) == Moved(ReadUnsigned(u, 0, false), |pre|, minus)
  {
    hide ReadWhole, ReadTail, ReadFraction, Word, WordEnd;
    assert (pre + u)[|pre|] == u[0];
    WordMoved(pre, u, 0, "nan", "NAN");
    WordMoved(pre, u, 0, "inf", "INF");
    if u[0] == '.' {
      FractionMoved(pre, u, 1, 0, 0, minus);
    } else if IsDigit(u[0]) {
      var mant := DigitOf(u[0]);
      WholeMoved(pre, u, 1, mant, 0);
      var w := ReadWhole(u, 1, mant, 0);
      if w.Whole? {
        assert (pre + u)[|pre| + w.i] == u[w.i];
        if u[w.i] == '.' {
          FractionMoved(pre, u, w.i + 1, w.mant, w.expt, minus);
        } else {
          TailMoved(pre, u, w.i, w.mant, w.expt, 0, minus);
        }
      }
    }
  }

  // ---------- spaces and signs ----------

  datatype Sign = NoSign | Plus | Minus

  function SignText(sign: Sign): seq<char> {
    match sign
    case NoSign => []
    case Plus => ['+']
    case Minus => ['-']
  }

  /** The characters that `isspace` knows. */
  predicate Blank(s: seq<char>) {
    forall i :: 0 <= i < |s| ==> s[i] in [' ', 9 as char, 10 as char, 11 as char, 12 as char, 13 as char]
  }

  /** A text that begins neither with a space nor with a sign. */
  ghost predicate Bare(u: seq<char>) {
    Terminated(u) && !Blank([u[0]]) && u[0] != '+' && u[0] != '-'
  }

  lemma {:induction false} SpacesSkipped(s: seq<char>, i: nat, n: nat)
    requires Terminated(s) && i <= n < |s| && Blank(s[i..n]) && !IsSpace(s[n])
    ensures SkipSpace(s, i) == n
    decreases n - i
  {
    if i < n {
      assert s[i..n][0] == s[i] && s[i..n][1..] == s[i + 1..n];
      SpacesSkipped(s, i + 1, n);
    }
  }

  lemma BareStarts(u: seq<char>)
    requires Bare(u)
    ensures u != [] && !IsSpace(u[0]) && u[0] != '+' && u[0] != '-'
  {
    assert [u[0]][0] == u[0];
  }

  /** A piece of a text. */
  lemma Piece(s: seq<char>, a: seq<char>, b: seq<char>, c: seq<char>)
    requires s == a + b + c && c != []
    ensures At(s, |a|, b)
  {
  }

  lemma First(a: seq<char>, b: seq<char>)
    requires b != []
    ensures |a| < |a + b| && (a + b)[|a|] == b[0] && (a + b)[|a + b| - 1] == b[|b| - 1]
  {
  }

  lemma SpacesBefore(spaces: seq<char>, u: seq<char>)
    requires Blank(spaces) && Terminated(u) && !IsSpace(u[0])
    ensures Terminated(spaces + u) && SkipSpace(spaces + u, 0) == |spaces| && (spaces + u)[|spaces|] == u[0]
  {
    First(spaces, u);
    assert (spaces + u)[0..|spaces|] == spaces;
    SpacesSkipped(spaces + u, 0, |spaces|);
  }

  /** Spaces and a plus sign in front of a text change nothing, a minus sign only the sign. */
  lemma SignedReading(spaces: seq<char>, sign: Sign, u: seq<char>)
    requires Blank(spaces) && Bare(u)
    ensures Terminated(spaces + SignText(sign) + u)
    ensures ReadAll(spaces + SignText(sign) + u) == Moved(ReadAll(u), |spaces| + |SignText(sign)|, sign.Minus?)
  {
    hide *;
    BareTerminated(u);
    BareStarts(u);
    SignedStart(spaces, sign, u);
    UnsignedMoved(spaces + SignText(sign), u, sign.Minus?);
    UnsignedStart(u);
  }

  lemma SignedStart(spaces: seq<char>, sign: Sign, u: seq<char>)
    requires Blank(spaces) && u != [] && Terminated(u) && !IsSpace(u[0]) && u[0] != '+' && u[0] != '-'
    ensures var s := spaces + SignText(sign) + u;
      && Terminated(s) && |spaces + SignText(sign)| == |spaces| + |SignText(sign)| < |s|
      && ReadAll(s) == ReadUnsigned(s, |spaces| + |SignText(sign)|, sign.Minus?)
  {
    hide *;
    var sg := SignText(sign);
    Together(spaces, sg, u);
    First(sg, u);
    TerminatedBehind(sg, u);
    FirstOf(sign, u);
    SpacesBefore(spaces, sg + u);
    AllFrom(spaces + (sg + u), |spaces|, sign);
  }

  lemma UnsignedStart(u: seq<char>)
    requires Terminated(u) && !IsSpace(u[0]) && u[0] != '+' && u[0] != '-'
    ensures ReadAll(u) == ReadUnsigned(u, 0, false)
  {
    hide ReadUnsigned, IsSpace;
    NoSpaces(u);
    hide SkipSpace;
  }

  lemma NoSpaces(u: seq<char>)
    requires Terminated(u) && !IsSpace(u[0])
    ensures SkipSpace(u, 0) == 0
  {
  }

  lemma Together(a: seq<char>, b: seq<char>, c: seq<char>)
    ensures a + b + c == a + (b + c) && |a + b| == |a| + |b| && [] + c == c
  {
  }

  lemma TerminatedBehind(a: seq<char>, u: seq<char>)
    requires Terminated(u)
    ensures Terminated(a + u)
  {
  }

  lemma BareTerminated(u: seq<char>)
    requires Bare(u)
    ensures Terminated(u)
  {
  }

  /** Behind the spaces. */
  lemma AllFrom(s: seq<char>, i: nat, sign: Sign)
    requires Terminated(s) && i < |s| && SkipSpace(s, 0) == i
    requires (sign.Minus? <==> s[i] == '-') && (sign.Plus? <==> s[i] == '+')
    ensures i + |SignText(sign)| < |s| && ReadAll(s) == ReadUnsigned(s, i + |SignText(sign)|, sign.Minus?)
  {
    hide SkipSpace, ReadUnsigned;
  }

  lemma NoBlank()
    ensures Blank([])
  {
  }

  lemma FirstOf(sign: Sign, u: seq<char>)
    requires u != [] && !IsSpace(u[0]) && u[0] != '+' && u[0] != '-'
    ensures var c := (SignText(sign) + u)[0];
      && !IsSpace(c) && (sign.Minus? <==> c == '-') && (sign.Plus? <==> c == '+') && (sign.NoSign? ==> c == u[0])
  {
  }

  /** What `Prettify` lays out is read with its sign. */
  lemma SignedRoundTrip(spaces: seq<char>, sign: Sign, ds: seq<char>, k: int)
    requires Blank(spaces) && Significant(ds) && -1000 < |ds| + k - 1 < 1000
    ensures var s := spaces + SignText(sign) + (Layout(ds, k) + [NUL]);
      && Terminated(s) && ReadAll(s).r.Decimal? && ReadAll(s).minus == sign.Minus? && ReadAll(s).end == |s| - 1
      && SameValue(ReadAll(s).r.mant, ReadAll(s).r.expt, Numeral(ds), k)
      && (ReadAll(s).r.expt == k || -1 <= ReadAll(s).r.expt < k <= 21)
  {
    hide ReadAll, SameValue, Layout, Blank;
    RoundTrip(ds, k);
    ReadsAsParts(Layout(ds, k) + [NUL], Numeral(ds), k);
    LayoutBare(ds, k);
    SignedReading(spaces, sign, Layout(ds, k) + [NUL]);
  }

  lemma LayoutBare(ds: seq<char>, k: int)
    requires Significant(ds) && -1000 < |ds| + k - 1 < 1000
    ensures Layout(ds, k) != [] && Bare(Layout(ds, k) + [NUL])
  {
    hide Zeros, ExponentText;
    LayoutCases(ds, k);
    var c := Layout(ds, k)[0];
    assert IsDigit(c);
    hide Layout;
    assert (Layout(ds, k) + [NUL])[0] == c;
    DigitBare(c);
  }

  lemma DigitBare(c: char)
    requires IsDigit(c) || c == '.' || IsLetter(c)
    ensures !Blank([c]) && c != '+' && c != '-'
  {
    assert [c][0] == c;
  }

  predicate IsLetter(c: char) {
    'a' <= c <= 'z' || 'A' <= c <= 'Z'
  }

  // ---------- every spelling ----------

  datatype Power = NoPower | Power(letter: char, sign: Sign, digits: seq<char>)

  /** Digits before the point, perhaps a point and digits behind it, perhaps an exponent. */
  datatype Text = Text(whole: seq<char>, part: Option<seq<char>>, power: Power)

  ghost predicate Proper(t: Text) {
    && AllDigits(t.whole) && (t.part.Some? ==> AllDigits(t.part.value)) && (t.whole != [] || t.part.Some?)
    && (t.power.Power? ==> t.power.letter in ['e', 'E'] && AllDigits(t.power.digits) && t.power.digits != [])
  }

  function PartDigitsOf(t: Text): seq<char> {
    if t.part.Some? then t.part.value else []
  }

  function PartText(t: Text): seq<char> {
    if t.part.Some? then ['.'] + t.part.value else []
  }

  function PowerText(p: Power): seq<char> {
    if p.Power? then [p.letter] + SignText(p.sign) + p.digits else []
  }

  function Spelled(t: Text): seq<char> {
    t.whole + PartText(t) + PowerText(t.power)
  }

  /** What follows a number does not go on with it. */
  ghost predicate Ends(t: Text, rest: seq<char>) {
    && Terminated(rest) && !IsDigit(rest[0])
    && (t.power.NoPower? ==> rest[0] !in ['e', 'E'] && (t.part.None? ==> rest[0] != '.'))
  }

  /** The power of ten that is written out. */
  function WrittenPower(p: Power): int
    requires p.Power? ==> AllDigits(p.digits)
  {
    match p
    case NoPower => 0
    case Power(_, sign, digits) => if sign.Minus? then 0 - Numeral(digits) else Numeral(digits)
  }

  lemma {:induction false} ExponentAll(s: seq<char>, i: nat, t: seq<char>, x: nat)
    requires Terminated(s) && At(s, i, t) && AllDigits(t) && Push(x, t) <= INT_MAX
    ensures ReadExponent(s, i, x) == ReadExponent(s, i + |t|, Push(x, t))
    decreases |t|
  {
    hide Push;
    if t == [] {
      PushNone(x);
    } else {
      AtFirst(s, i, t);
      PushFirst(x, t);
      ExponentAll(s, i + 1, t[1..], x * 10 + DigitOf(t[0]));
    }
  }

  lemma PushDigits(t: seq<char>)
    requires AllDigits(t) && t != []
    ensures Numeral(t) == Push(DigitOf(t[0]), t[1..])
  {
    PushFirst(0, t);
    assert Push(0, t) == Numeral(t);
  }

  /** The exponent, and what is left of the text. */
  lemma PowerRead(s: seq<char>, pre: seq<char>, p: Power, mant: u64, dadp: nat, rest: seq<char>)
    requires p.Power? && SameLetter(p.letter, 'e', 'E') && AllDigits(p.digits) && p.digits != []
    requires s == pre + PowerText(p) + rest && Terminated(rest) && !IsDigit(rest[0]) && Numeral(p.digits) <= INT_MAX
    ensures Terminated(s) && |pre| < |s|
    ensures ReadTail(s, |pre|, mant, 0, dadp, false)
      == Scan(Decimal(mant, WrittenPower(p) - dadp), false, |pre| + |PowerText(p)|)
  {
    hide AllDigits, Numeral, ReadExponent, PowerText, IsDigit, ReadTail, WrittenPower, At;
    PowerLetter(s, pre, p, rest);
    var j := |pre| + 1 + |SignText(p.sign)|;
    PieceEnds(s, pre + [p.letter] + SignText(p.sign), p.digits, rest);
    DigitsAt(s, j, p.digits);
    TailPower(s, |pre|, j, p, mant, dadp, j + |p.digits|);
  }

  lemma DigitsTail(ds: seq<char>)
    requires AllDigits(ds) && ds != []
    ensures IsDigit(ds[0]) && AllDigits(ds[1..])
  {
  }

  /** The digits of an exponent, behind `z` zeros that were counted before. */
  lemma DigitsAfter(s: seq<char>, i: nat, ds: seq<char>, z: nat)
    requires Terminated(s) && At(s, i, ds) && AllDigits(ds) && ds != [] && !IsDigit(s[i + |ds|])
    requires z * Pow(10, |ds| - 1) + Numeral(ds) <= INT_MAX
    ensures i + 1 < |s| && IsDigit(s[i])
    ensures ReadExponent(s, i + 1, z + DigitOf(s[i])) == Exp(i + |ds|, z * Pow(10, |ds| - 1) + Numeral(ds))
  {
    DigitsTail(ds);
    PushDigits(ds);
    PushPlus(z, DigitOf(ds[0]), ds[1..]);
    hide AllDigits, Numeral, Push, ReadExponent, Pow;
    AtFirst(s, i, ds);
    ExponentAll(s, i + 1, ds[1..], z + DigitOf(ds[0]));
    ExponentStops(s, i + |ds|, z * Pow(10, |ds| - 1) + Numeral(ds));
  }

  lemma PushPlus(z: nat, d: nat, t: seq<char>)
    requires AllDigits(t)
    ensures Push(z + d, t) == z * Pow(10, |t|) + Push(d, t)
  {
    Distribute(Pow(10, |t|), z, d);
  }

  lemma DigitsAt(s: seq<char>, i: nat, ds: seq<char>)
    requires Terminated(s) && At(s, i, ds) && AllDigits(ds) && ds != [] && !IsDigit(s[i + |ds|])
    requires Numeral(ds) <= INT_MAX
    ensures i + 1 < |s| && IsDigit(s[i]) && ReadExponent(s, i + 1, DigitOf(s[i])) == Exp(i + |ds|, Numeral(ds))
  {
    hide AllDigits, Numeral, ReadExponent, At;
    assert 0 * Pow(10, |ds| - 1) == 0;
    DigitsAfter(s, i, ds, 0);
  }

  lemma PieceEnds(s: seq<char>, a: seq<char>, b: seq<char>, c: seq<char>)
    requires s == a + b + c && Terminated(c)
    ensures Terminated(s) && |a| + |b| < |s| && s[|a| + |b|] == c[0] && At(s, |a|, b)
  {
    Piece(s, a, b, c);
    First(a + b, c);
  }

  lemma LetterAt(pre: seq<char>, c: char, y: seq<char>, z: seq<char>, rest: seq<char>)
    requires rest != []
    ensures var s := pre + ([c] + y + z) + rest;
      && |pre| + 1 + |y| < |s| && s[|pre|] == c && s == (pre + [c] + y) + z + rest
      && (y != [] ==> s[|pre| + 1] == y[0])
  {
  }

  lemma PowerLetter(s: seq<char>, pre: seq<char>, p: Power, rest: seq<char>)
    requires p.Power? && s == pre + PowerText(p) + rest && p.digits != [] && rest != []
    ensures |pre| + 1 + |SignText(p.sign)| < |s| && s[|pre|] == p.letter
    ensures s == (pre + [p.letter] + SignText(p.sign)) + p.digits + rest
    ensures (p.sign.Plus? ==> s[|pre| + 1] == '+') && (p.sign.Minus? ==> s[|pre| + 1] == '-')
    ensures |PowerText(p)| == 1 + |SignText(p.sign)| + |p.digits|
  {
    LetterAt(pre, p.letter, SignText(p.sign), p.digits, rest);
  }

  lemma TailPower(s: seq<char>, i: nat, j: nat, p: Power, mant: u64, dadp: nat, e: nat)
    requires Terminated(s) && p.Power? && SameLetter(p.letter, 'e', 'E') && AllDigits(p.digits)
    requires j == i + 1 + |SignText(p.sign)| && j + 1 < |s| && s[i] == p.letter && IsDigit(s[j])
    requires (p.sign.Plus? ==> s[i + 1] == '+') && (p.sign.Minus? ==> s[i + 1] == '-')
    requires ReadExponent(s, j + 1, DigitOf(s[j])) == Exp(e, Numeral(p.digits))
    ensures ReadTail(s, i, mant, 0, dadp, false) == Scan(Decimal(mant, WrittenPower(p) - dadp), false, e)
  {
    hide ReadExponent, Numeral, AllDigits;
  }

  // ---------- the digits ----------

  lemma NumeralMore(a: seq<char>, b: seq<char>)
    requires AllDigits(a) && AllDigits(b)
    ensures AllDigits(a + b) && Numeral(a) <= Numeral(a + b) == Push(Numeral(a), b)
  {
    NumeralAppend(a, b);
    MulMono(Numeral(a), 1, Pow(10, |b|));
  }

  /** Digits before the point, and what is left of the text. */
  lemma WholeRead(s: seq<char>, whole: seq<char>, after: seq<char>)
    requires s == whole + after && Terminated(after) && !IsDigit(after[0])
    requires AllDigits(whole) && whole != [] && Numeral(whole) <= MAX64
    ensures Terminated(s) && s[|whole|] == after[0]
    ensures ReadAll(s) == AfterWhole(s, Whole(|whole|, Numeral(whole), 0), false)
  {
    hide *;
    Together([], whole, after);
    PieceEnds(s, [], whole, after);
    WholeAt(s, whole);
  }

  lemma WholeAt(s: seq<char>, whole: seq<char>)
    requires Terminated(s) && At(s, 0, whole) && AllDigits(whole) && whole != [] && !IsDigit(s[|whole|])
    requires Numeral(whole) <= MAX64
    ensures ReadAll(s) == AfterWhole(s, Whole(|whole|, Numeral(whole), 0), false)
  {
    DigitsTail(whole);
    hide AllDigits, Numeral, Push, AfterWhole, ReadWhole, ReadAll;
    AtFirst(s, 0, whole);
    PushDigits(whole);
    StartDigit(s);
    WholeDigits(s, 1, whole[1..], DigitOf(whole[0]), 0);
    WholeStops(s, |whole|, Numeral(whole), 0);
  }

  /** Digits behind the point, and what is left of the text. */
  lemma PartRead(s: seq<char>, pre: seq<char>, part: seq<char>, after: seq<char>, mant: u64)
    requires s == pre + part + after && Terminated(after) && !IsDigit(after[0])
    requires AllDigits(part) && Push(mant, part) <= MAX64
    ensures Terminated(s) && |pre| + |part| < |s|
    ensures ReadFraction(s, |pre|, mant, 0, false)
      == ReadTail(s, |pre| + |part|, Push(mant, part), 0, |part|, false)
  {
    PieceEnds(s, pre, part, after);
    hide At, Push, AllDigits, ReadTail, ReadPart;
    PartDigits(s, |pre|, part, mant, 0);
    PartStops(s, |pre| + |part|, Push(mant, part), |part|);
  }

  lemma TailPlainly(s: seq<char>, i: nat, mant: u64, dadp: nat)
    requires Terminated(s) && i < |s| && !SameLetter(s[i], 'e', 'E')
    ensures ReadTail(s, i, mant, 0, dadp, false) == Scan(Decimal(mant, 0 - dadp), false, i)
  {
  }

  /** The exponent, if there is one. */
  lemma TailRead(s: seq<char>, pre: seq<char>, p: Power, mant: u64, dadp: nat, rest: seq<char>)
    requires p.Power? ==>
      SameLetter(p.letter, 'e', 'E') && AllDigits(p.digits) && p.digits != [] && Numeral(p.digits) <= INT_MAX
    requires s == pre + PowerText(p) + rest && Terminated(rest) && !IsDigit(rest[0])
    requires p.NoPower? ==> !SameLetter(rest[0], 'e', 'E')
    ensures Terminated(s) && |pre| < |s|
    ensures ReadTail(s, |pre|, mant, 0, dadp, false)
      == Scan(Decimal(mant, WrittenPower(p) - dadp), false, |pre| + |PowerText(p)|)
  {
    if p.Power? {
      PowerRead(s, pre, p, mant, dadp, rest);
    } else {
      assert s == pre + rest;
      assert s[|pre|] == rest[0];
      TailPlainly(s, |pre|, mant, dadp);
    }
  }

  // ---------- the whole text ----------

  lemma AfterStarts(p: Power, rest: seq<char>)
    requires p.Power? ==> SameLetter(p.letter, 'e', 'E')
    requires Terminated(rest) && !IsDigit(rest[0])
    ensures Terminated(PowerText(p) + rest) && !IsDigit((PowerText(p) + rest)[0])
    ensures p.Power? || rest[0] != '.' ==> (PowerText(p) + rest)[0] != '.'
  {
  }

  /** Without a point. */
  lemma WholeReading(whole: seq<char>, p: Power, rest: seq<char>)
    requires var t := Text(whole, None, p); Proper(t) && Ends(t, rest)
    requires Numeral(whole) <= MAX64 && (p.Power? ==> Numeral(p.digits) <= INT_MAX)
    ensures var s := whole + PowerText(p) + rest;
      && Terminated(s)
      && ReadAll(s) == Scan(Decimal(Numeral(whole), WrittenPower(p)), false, |whole + PowerText(p)|)
  {
    hide Numeral, AllDigits, PowerText, ReadAll, ReadTail, WrittenPower;
    var s := whole + PowerText(p) + rest;
    AfterStarts(p, rest);
    assert s == whole + (PowerText(p) + rest);
    WholeRead(s, whole, PowerText(p) + rest);
    TailRead(s, whole, p, Numeral(whole), 0, rest);
  }

  /** With a point, after digits or not. */
  lemma PointReading(whole: seq<char>, part: seq<char>, p: Power, rest: seq<char>)
    requires var t := Text(whole, Some(part), p); Proper(t) && Ends(t, rest)
    requires Numeral(whole + part) <= MAX64 && (p.Power? ==> Numeral(p.digits) <= INT_MAX)
    ensures var s := whole + ['.'] + part + PowerText(p) + rest;
      && Terminated(s)
      && ReadAll(s) == Scan(Decimal(Numeral(whole + part), WrittenPower(p) - |part|), false,
                            |whole + ['.'] + part + PowerText(p)|)
  {
    hide Numeral, AllDigits, PowerText, ReadAll, ReadTail, WrittenPower, ReadFraction, Push, IsDigit;
    var pt := PowerText(p);
    var s, pre := whole + ['.'] + part + pt + rest, whole + ['.'];
    NumeralMore(whole, part);
    AfterStarts(p, rest);
    PointPieces(whole, part, pt, rest);
    PartRead(s, pre, part, pt + rest, Numeral(whole));
    TailRead(s, pre + part, p, Numeral(whole + part), |part|, rest);
    PointStart(s, whole, ['.'] + part + pt + rest);
  }

  lemma PointPieces(whole: seq<char>, part: seq<char>, pt: seq<char>, rest: seq<char>)
    requires Terminated(rest)
    ensures var s := whole + ['.'] + part + pt + rest;
      && s == (whole + ['.']) + part + (pt + rest) && s == whole + (['.'] + part + pt + rest)
      && Terminated(['.'] + part + pt + rest) && (['.'] + part + pt + rest)[0] == '.'
  {
    First(['.'] + part + pt, rest);
  }

  /** From the beginning of the text to its point. */
  lemma PointStart(s: seq<char>, whole: seq<char>, after: seq<char>)
    requires s == whole + after && Terminated(after) && after[0] == '.' && AllDigits(whole) && Numeral(whole) <= MAX64
    ensures Terminated(s) && |whole| + 1 < |s|
    ensures ReadAll(s) == ReadFraction(s, |whole| + 1, Numeral(whole), 0, false)
  {
    First(whole, after);
    hide ReadAll, ReadFraction;
    if whole == [] {
      assert s == after;
      NumeralNone();
      PointFirst(s);
    } else {
      WholeRead(s, whole, after);
    }
  }

  lemma PointFirst(s: seq<char>)
    requires Terminated(s) && s[0] == '.'
    ensures |s| > 1 && ReadAll(s) == ReadFraction(s, 1, 0, 0, false)
  {
    hide ReadFraction;
    assert SkipSpace(s, 0) == 0;
  }

  lemma NumeralNone()
    ensures Numeral([]) == 0
  {
  }

  /** Every proper text whose digits make a word is read as the number that it spells, to its end. */
  lemma ProperReading(t: Text, rest: seq<char>)
    requires Proper(t) && Ends(t, rest) && Numeral(t.whole + PartDigitsOf(t)) <= 0xFFFF_FFFF_FFFF_FFFF
    requires t.power.Power? ==> Numeral(t.power.digits) <= 0x7FFF_FFFF
    ensures Terminated(Spelled(t) + rest)
    ensures ReadAll(Spelled(t) + rest)
      == Scan(Decimal(Numeral(t.whole + PartDigitsOf(t)), WrittenPower(t.power) - |PartDigitsOf(t)|), false,
              |Spelled(t)|)
  {
    hide ReadAll, Numeral, WrittenPower, PowerText, SameLetter;
    assert t.whole + [] == t.whole;
    assert t == Text(t.whole, t.part, t.power);
    if t.part.Some? {
      PointReading(t.whole, t.part.value, t.power, rest);
      assert t.whole + ['.'] + t.part.value + PowerText(t.power) == Spelled(t);
    } else {
      WholeReading(t.whole, t.power, rest);
      assert t.whole + PowerText(t.power) == Spelled(t) && t.whole + [] == t.whole;
    }
  }

  lemma SpelledBare(t: Text, rest: seq<char>)
    requires Proper(t) && Terminated(rest)
    ensures Bare(Spelled(t) + rest)
  {
    var s := Spelled(t) + rest;
    First(Spelled(t), rest);
    var c := s[0];
    assert c == if t.whole == [] then '.' else t.whole[0];
    DigitBare(c);
  }

  /** The same with spaces and a sign in front. */
  lemma SignedProperReading(spaces: seq<char>, sign: Sign, t: Text, rest: seq<char>)
    requires Blank(spaces) && Proper(t) && Ends(t, rest) && Numeral(t.whole + PartDigitsOf(t)) <= 0xFFFF_FFFF_FFFF_FFFF
    requires t.power.Power? ==> Numeral(t.power.digits) <= 0x7FFF_FFFF
    ensures Terminated(spaces + SignText(sign) + (Spelled(t) + rest))
    ensures ReadAll(spaces + SignText(sign) + (Spelled(t) + rest))
      == Scan(Decimal(Numeral(t.whole + PartDigitsOf(t)), WrittenPower(t.power) - |PartDigitsOf(t)|), sign.Minus?,
              |spaces| + |SignText(sign)| + |Spelled(t)|)
  {
    hide Blank, ReadAll, Numeral, Spelled, PartDigitsOf, WrittenPower, Bare, AllDigits;
    ProperReading(t, rest);
    SpelledBare(t, rest);
    SignedReading(spaces, sign, Spelled(t) + rest);
  }

  // ---------- exponents that are none ----------

  /** What follows begins like an exponent but has no digits. */
  ghost predicate Dangles(rest: seq<char>) {
    && Terminated(rest) && rest[0] in ['e', 'E'] && !IsDigit(rest[1])
    && (rest[1] in ['+', '-'] ==> !IsDigit(rest[2]))
  }

  lemma DanglingTail(s: seq<char>, pre: seq<char>, mant: u64, dadp: nat, rest: seq<char>)
    requires s == pre + rest && Dangles(rest)
    ensures Terminated(s) && |pre| < |s| && |rest| > 1 && (rest[1] in ['+', '-'] ==> |rest| > 2)
    ensures ReadTail(s, |pre|, mant, 0, dadp, false)
      == Scan(Decimal(mant, 0 - dadp), false, DanglingEnd(|pre|, rest))
  {
    First(pre, rest);
    forall k | 0 <= k < |rest| ensures s[|pre| + k] == rest[k] {}
    hide ReadExponent;
  }

  /** The letter is left alone then; but behind a sign the end that is reported is one too far, unless another sign
      follows. */
  lemma DanglingReading(t: Text, rest: seq<char>)
    requires t.power.NoPower? && Proper(t) && Dangles(rest)
    requires Numeral(t.whole + PartDigitsOf(t)) <= 0xFFFF_FFFF_FFFF_FFFF
    ensures var s := Spelled(t) + rest;
      && Terminated(s)
      && ReadAll(s).r == Decimal(Numeral(t.whole + PartDigitsOf(t)), 0 - |PartDigitsOf(t)|) && !ReadAll(s).minus
      && (ReadAll(s).end == |Spelled(t)| <==> rest[1] !in ['+', '-'] || rest[2] in ['+', '-'])
  {
    DanglesParts(rest);
    hide Numeral, AllDigits, ReadAll, Dangles;
    assert t.whole + [] == t.whole;
    if t.part.Some? {
      assert Spelled(t) == t.whole + ['.'] + t.part.value;
      DanglingPoint(t.whole, t.part.value, rest);
    } else {
      assert Spelled(t) == t.whole;
      DanglingWhole(t.whole + rest, t.whole, rest);
    }
  }

  /** Where the end is reported. */
  function DanglingEnd(n: nat, rest: seq<char>): nat
    requires |rest| > 1 && (rest[1] in ['+', '-'] ==> |rest| > 2)
  {
    if rest[1] in ['+', '-'] && rest[2] !in ['+', '-'] then n + 1 else n
  }

  lemma DanglingWhole(s: seq<char>, whole: seq<char>, rest: seq<char>)
    requires s == whole + rest && rest != [] && Dangles(rest)
    requires AllDigits(whole) && whole != [] && Numeral(whole) <= 0xFFFF_FFFF_FFFF_FFFF
    ensures Terminated(s) && |rest| > 1 && (rest[1] in ['+', '-'] ==> |rest| > 2)
    ensures ReadAll(s) == Scan(Decimal(Numeral(whole), 0), false, DanglingEnd(|whole|, rest))
  {
    DanglesParts(rest);
    hide *;
    WholeRead(s, whole, rest);
    DanglingTail(s, whole, Numeral(whole), 0, rest);
    AfterPlain(s, |whole|, Numeral(whole));
  }

  lemma DanglingPoint(whole: seq<char>, part: seq<char>, rest: seq<char>)
    requires AllDigits(whole) && AllDigits(part) && Dangles(rest)
    requires Numeral(whole + part) <= 0xFFFF_FFFF_FFFF_FFFF
    ensures var s := whole + ['.'] + part + rest;
      && Terminated(s) && |rest| > 1 && (rest[1] in ['+', '-'] ==> |rest| > 2)
      && ReadAll(s) == Scan(Decimal(Numeral(whole + part), 0 - |part|), false,
                            DanglingEnd(|whole + ['.'] + part|, rest))
  {
    DanglesParts(rest);
    NumeralMore(whole, part);
    hide *;
    var s, pre := whole + ['.'] + part + rest, whole + ['.'];
    PartRead(s, pre, part, rest, Numeral(whole));
    DanglingTail(s, pre + part, Numeral(whole + part), |part|, rest);
    PointThen(whole, part, rest);
    PointStart(s, whole, ['.'] + part + rest);
  }

  lemma PointThen(whole: seq<char>, part: seq<char>, rest: seq<char>)
    requires Terminated(rest)
    ensures whole + ['.'] + part + rest == whole + (['.'] + part + rest)
    ensures Terminated(['.'] + part + rest) && (['.'] + part + rest)[0] == '.'
    ensures |whole + ['.']| + |part| == |whole + ['.'] + part|
  {
    First(['.'] + part, rest);
  }

  lemma DanglesParts(rest: seq<char>)
    requires Dangles(rest)
    ensures rest != [] && Terminated(rest) && !IsDigit(rest[0]) && rest[0] != '.'
    ensures |rest| > 1 && (rest[1] in ['+', '-'] ==> |rest| > 2)
  {
  }

  lemma AfterPlain(s: seq<char>, i: nat, mant: u64)
    requires Terminated(s) && i < |s| && !IsDigit(s[i]) && s[i] != '.'
    ensures AfterWhole(s, Whole(i, mant, 0), false) == ReadTail(s, i, mant, 0, 0, false)
  {
  }

  /** An exponent that does not fit an `int` makes the whole text unreadable. */
  lemma {:induction false} ExponentTooBig(s: seq<char>, i: nat, t: seq<char>, x: nat)
    requires Terminated(s) && At(s, i, t) && AllDigits(t) && Push(x, t) > 0x7FFF_FFFF && x <= 0x7FFF_FFFF
    ensures ReadExponent(s, i, x) == ExpOverflow
    decreases |t|
  {
    hide Push;
    if t == [] {
      PushNone(x);
    } else {
      AtFirst(s, i, t);
      PushFirst(x, t);
      var d := DigitOf(t[0]);
      if x <= INT_MAX / 10 && x * 10 <= INT_MAX - d { ExponentTooBig(s, i + 1, t[1..], x * 10 + d); }
    }
  }

  lemma PowerTooBig(s: seq<char>, pre: seq<char>, p: Power, mant: u64, dadp: nat, rest: seq<char>)
    requires p.Power? && p.letter in ['e', 'E'] && AllDigits(p.digits) && p.digits != []
    requires s == pre + PowerText(p) + rest && Terminated(rest) && Numeral(p.digits) > 0x7FFF_FFFF
    ensures Terminated(s) && |pre| < |s| && ReadTail(s, |pre|, mant, 0, dadp, false) == Scan(NoConversion, false, 0)
  {
    hide AllDigits, Numeral, ReadExponent, PowerText, IsDigit, ReadTail, At;
    PowerLetter(s, pre, p, rest);
    var j, ds := |pre| + 1 + |SignText(p.sign)|, p.digits;
    PieceEnds(s, pre + [p.letter] + SignText(p.sign), ds, rest);
    AtFirst(s, j, ds);
    DigitsTail(ds);
    PushDigits(ds);
    ExponentTooBig(s, j + 1, ds[1..], DigitOf(ds[0]));
    TailTooBig(s, |pre|, j, p, mant, dadp);
  }

  lemma TailTooBig(s: seq<char>, i: nat, j: nat, p: Power, mant: u64, dadp: nat)
    requires Terminated(s) && p.Power? && p.letter in ['e', 'E']
    requires j == i + 1 + |SignText(p.sign)| && j + 1 < |s| && s[i] == p.letter && IsDigit(s[j])
    requires (p.sign.Plus? ==> s[i + 1] == '+') && (p.sign.Minus? ==> s[i + 1] == '-')
    requires ReadExponent(s, j + 1, DigitOf(s[j])) == ExpOverflow
    ensures ReadTail(s, i, mant, 0, dadp, false) == Scan(NoConversion, false, 0)
  {
    hide ReadExponent;
  }

  // ---------- special values ----------

  /** Three letters of a special value, in either case, perhaps with a point and a zero. */
  function Special(word: seq<char>, zero: bool): seq<char> {
    word + if zero then ['.', '0'] else []
  }

  ghost predicate Letters(word: seq<char>, a: seq<char>, b: seq<char>)
    requires |a| == |b| == 3
  {
    |word| == 3 && forall i :: 0 <= i < 3 ==> word[i] == a[i] || word[i] == b[i]
  }

  /** Special values are read, but the end that is reported is their last character, not the one after it. */
  lemma SpecialReading(word: seq<char>, zero: bool, rest: seq<char>)
    requires Letters(word, "nan", "NAN") || Letters(word, "inf", "INF")
    requires Terminated(rest) && (!zero && rest[0] == '.' ==> rest[1] != '0')
    ensures var s := Special(word, zero) + rest;
      && Terminated(s) && ReadAll(s).end == |Special(word, zero)| - 1 && !ReadAll(s).minus
      && ReadAll(s).r == if Letters(word, "nan", "NAN") then NaN else Inf
  {
    var s := Special(word, zero) + rest;
    First(Special(word, zero), rest);
    assert s[0] == word[0] && s[1] == word[1] && s[2] == word[2];
    assert zero ==> s[3] == '.' && s[4] == '0';
    assert !zero ==> s[3] == rest[0] && (|rest| > 1 ==> s[4] == rest[1]);
    assert SkipSpace(s, 0) == 0;
    hide SkipSpace, ReadFraction, ReadWhole, AfterWhole;
  }

  /** What is neither a number nor a special value is refused. */
  lemma Refused(u: seq<char>)
    requires Bare(u) && !IsDigit(u[0]) && u[0] !in ['.', 'n', 'N', 'i', 'I']
    ensures ReadAll(u) == Scan(NoConversion, false, 0)
  {
    BareStarts(u);
    assert SkipSpace(u, 0) == 0;
    hide SkipSpace, ReadFraction, ReadWhole, AfterWhole;
  }

  // ---------- zeros that no longer fit ----------

  /** With a full word only zeros are accepted. */
  lemma {:induction false} FullWord(s: seq<char>, i: nat, t: seq<char>, mant: u64, expt: nat)
    requires Terminated(s) && At(s, i, t) && AllDigits(t) && !IsDigit(s[i + |t|]) && mant > MAX64 / 10
    ensures var r := ReadWhole(s, i, mant, expt);
      r.Whole? ==> r == Whole(i + |t|, mant, expt + |t|) && Numeral(t) == 0
    decreases |t|
  {
    if t != [] {
      AtFirst(s, i, t);
      DigitsTail(t);
      PushDigits(t);
      hide AllDigits, At, Numeral;
      if DigitOf(t[0]) == 0 {
        FullWord(s, i + 1, t[1..], mant, expt + 1);
        PushZero(t[1..]);
      }
    } else {
      NumeralNone();
    }
  }

  lemma PushZero(t: seq<char>)
    requires AllDigits(t)
    ensures Push(0, t) == Numeral(t)
  {
  }

  /** Digits before the point are never lost: zeros that no longer fit are counted instead. */
  lemma {:induction false} WholeExact(s: seq<char>, i: nat, t: seq<char>, mant: u64, expt: nat)
    requires Terminated(s) && At(s, i, t) && AllDigits(t) && !IsDigit(s[i + |t|])
    ensures var r := ReadWhole(s, i, mant, expt);
      if r.Whole? then
        r.i == i + |t| && r.expt >= expt && r.mant * Pow(10, r.expt - expt) == Push(mant, t)
        && (r.expt > expt ==> r.mant > MAX64 / 10)
      else Push(mant, t) > MAX64
    decreases |t|
  {
    if t == [] {
      PushNone(mant);
      PowZero();
    } else {
      PushFirst(mant, t);
      AtFirst(s, i, t);
      DigitsTail(t);
      var d := DigitOf(t[0]);
      if mant > MAX64 / 10 {
        FullWord(s, i, t, mant, expt);
      } else {
        hide Push, Pow, AllDigits, At;
        if mant * 10 <= MAX64 - d { WholeExact(s, i + 1, t[1..], mant * 10 + d, expt); }
      }
    }
  }

  // ---------- zeros and an exponent ----------

  /** The exponent that is read behind `z` counted zeros: they are taken for leading digits of it. */
  function MixedPower(p: Power, z: nat): int
    requires p.Power? && AllDigits(p.digits) && p.digits != []
  {
    var x := z * Pow(10, |p.digits| - 1) + Numeral(p.digits);
    if p.sign.Minus? then 0 - x else x
  }

  lemma MixedTail(s: seq<char>, i: nat, j: nat, p: Power, mant: u64, z: nat, e: nat)
    requires Terminated(s) && p.Power? && SameLetter(p.letter, 'e', 'E') && AllDigits(p.digits) && p.digits != []
    requires j == i + 1 + |SignText(p.sign)| && j + 1 < |s| && s[i] == p.letter && IsDigit(s[j])
    requires (p.sign.Plus? ==> s[i + 1] == '+') && (p.sign.Minus? ==> s[i + 1] == '-')
    requires ReadExponent(s, j + 1, z + DigitOf(s[j])) == Exp(e, z * Pow(10, |p.digits| - 1) + Numeral(p.digits))
    ensures ReadTail(s, i, mant, z, 0, false) == Scan(Decimal(mant, MixedPower(p, z)), false, e)
  {
    hide ReadExponent, Numeral, AllDigits, Pow;
  }

  /** A whole number with an exponent, whatever fits. */
  lemma MixedReading(whole: seq<char>, p: Power, rest: seq<char>, w: Whole)
    requires var t := Text(whole, None, p); p.Power? && Proper(t) && Ends(t, rest)
    requires var s := whole + PowerText(p) + rest;
      Terminated(s) && 1 < |s| && w == ReadWhole(s, 1, DigitOf(whole[0]), 0) && w.Whole?
    requires w.expt * Pow(10, |p.digits| - 1) + Numeral(p.digits) <= INT_MAX
    ensures var s := whole + PowerText(p) + rest;
      && ReadAll(s) == Scan(Decimal(w.mant, MixedPower(p, w.expt)), false, |whole + PowerText(p)|)
      && w.mant * Pow(10, w.expt) == Numeral(whole) && (w.expt > 0 ==> w.mant > 0)
  {
    hide *;
    ProperParts(whole, p, rest);
    MixedFront(whole, p, rest, w);
    MixedBack(whole, p, rest, w.mant, w.expt);
  }

  lemma ProperParts(whole: seq<char>, p: Power, rest: seq<char>)
    requires var t := Text(whole, None, p); p.Power? && Proper(t) && Ends(t, rest)
    ensures SameLetter(p.letter, 'e', 'E') && AllDigits(p.digits) && p.digits != []
    ensures AllDigits(whole) && whole != [] && IsDigit(whole[0]) && Terminated(rest) && !IsDigit(rest[0])
  {
  }

  lemma MixedFront(whole: seq<char>, p: Power, rest: seq<char>, w: Whole)
    requires p.Power? && SameLetter(p.letter, 'e', 'E') && AllDigits(p.digits) && p.digits != []
    requires AllDigits(whole) && whole != [] && IsDigit(whole[0]) && Terminated(rest) && !IsDigit(rest[0])
    requires var s := whole + PowerText(p) + rest;
      Terminated(s) && 1 < |s| && w == ReadWhole(s, 1, DigitOf(whole[0]), 0) && w.Whole?
    ensures var s := whole + PowerText(p) + rest;
      && |whole| < |s| && ReadAll(s) == ReadTail(s, |whole|, w.mant, w.expt, 0, false)
      && w.mant * Pow(10, w.expt) == Numeral(whole) && (w.expt > 0 ==> w.mant > 0)
  {
    hide AllDigits, Numeral, PowerText, ReadTail, ReadAll, ReadWhole, At, Pow, Push;
    var s := whole + PowerText(p) + rest;
    AfterStarts(p, rest);
    assert s == [] + whole + (PowerText(p) + rest);
    PieceEnds(s, [], whole, PowerText(p) + rest);
    PowerLetter(s, whole, p, rest);
    LetterNoPoint(p.letter);
    WholeFront(s, whole, w);
  }

  lemma WholeFront(s: seq<char>, whole: seq<char>, w: Whole)
    requires Terminated(s) && At(s, 0, whole) && AllDigits(whole) && whole != [] && 1 < |s|
    requires !IsDigit(s[|whole|]) && s[|whole|] != '.' && w == ReadWhole(s, 1, DigitOf(whole[0]), 0) && w.Whole?
    ensures ReadAll(s) == ReadTail(s, |whole|, w.mant, w.expt, 0, false)
    ensures w.mant * Pow(10, w.expt) == Numeral(whole) && (w.expt > 0 ==> w.mant > 0)
  {
    DigitsTail(whole);
    PushDigits(whole);
    hide AllDigits, Numeral, ReadTail, ReadAll, ReadWhole, Pow, Push;
    AtFirst(s, 0, whole);
    WholeExact(s, 1, whole[1..], DigitOf(whole[0]), 0);
    StartWhole(s);
  }

  lemma MixedBack(whole: seq<char>, p: Power, rest: seq<char>, mant: u64, z: nat)
    requires p.Power? && SameLetter(p.letter, 'e', 'E') && AllDigits(p.digits) && p.digits != []
    requires Terminated(rest) && !IsDigit(rest[0]) && z * Pow(10, |p.digits| - 1) + Numeral(p.digits) <= INT_MAX
    ensures var s := whole + PowerText(p) + rest;
      && Terminated(s) && |whole| < |s|
      && ReadTail(s, |whole|, mant, z, 0, false) == Scan(Decimal(mant, MixedPower(p, z)), false, |whole + PowerText(p)|)
  {
    hide AllDigits, Numeral, ReadExponent, PowerText, ReadTail, MixedPower, At, Pow, IsDigit;
    var s := whole + PowerText(p) + rest;
    PowerLetter(s, whole, p, rest);
    var j := |whole| + 1 + |SignText(p.sign)|;
    PieceEnds(s, whole + [p.letter] + SignText(p.sign), p.digits, rest);
    DigitsAfter(s, j, p.digits, z);
    MixedTail(s, |whole|, j, p, mant, z, j + |p.digits|);
  }

  lemma LetterNoPoint(c: char)
    requires SameLetter(c, 'e', 'E')
    ensures c != '.' && !IsDigit(c)
  {
  }

  lemma StartWhole(s: seq<char>)
    requires Terminated(s) && IsDigit(s[0])
    ensures |s| > 1 && ReadAll(s) == AfterWhole(s, ReadWhole(s, 1, DigitOf(s[0]), 0), false)
  {
    hide AfterWhole, ReadWhole;
    StartDigit(s);
  }

  /** The number is read as it is written exactly when no zeros were counted, or when a single digit follows, not
      behind a minus sign. */
  lemma MixedRight(whole: seq<char>, p: Power, rest: seq<char>, w: Whole)
    requires var t := Text(whole, None, p); p.Power? && Proper(t) && Ends(t, rest)
    requires var s := whole + PowerText(p) + rest;
      Terminated(s) && 1 < |s| && w == ReadWhole(s, 1, DigitOf(whole[0]), 0) && w.Whole?
    requires w.expt * Pow(10, |p.digits| - 1) + Numeral(p.digits) <= INT_MAX
    ensures var r := ReadAll(whole + PowerText(p) + rest).r;
      && r.Decimal?
      && (SameValue(r.mant, r.expt, Numeral(whole), WrittenPower(p))
          <==> w.expt == 0 || (|p.digits| == 1 && !p.sign.Minus?))
  {
    hide PowerText, ReadAll, ReadWhole, Ends;
    MixedReading(whole, p, rest, w);
    MixedValues(w.mant, w.expt, Numeral(whole), |p.digits|, Numeral(p.digits), p.sign.Minus?);
  }

  lemma PowStrict(a: nat, b: nat)
    requires a < b
    ensures 0 < Pow(10, a) < Pow(10, b)
  {
    PowPositive(a);
    PowNext(a);
    PowMono(10, a + 1, b);
  }

  lemma {:induction false} PowPositive(a: nat)
    ensures Pow(10, a) > 0
    decreases a
  {
    if a > 0 { PowPositive(a - 1); }
  }

  lemma MixedValues(m: nat, z: nat, n: nat, len: nat, x: nat, minus: bool)
    requires m * Pow(10, z) == n && (z > 0 ==> m > 0) && len > 0
    ensures var y := z * Pow(10, len - 1) + x;
      SameValue(m, if minus then 0 - y else y, n, if minus then 0 - x else x) <==> z == 0 || (len == 1 && !minus)
  {
    var q := z * Pow(10, len - 1);
    PowZero();
    PowPositive(len - 1);
    if len > 1 { PowStrict(0, len - 1); }
    hide Pow;
    if z == 0 {
      assert q == 0 && m * 1 == n && n * 1 == n;
    } else {
      MulMono(z, 1, Pow(10, len - 1));
      assert q >= z;
      if minus {
        PowStrict(0, z);
        PowStrict(0, q);
        MulMono(m, 2, Pow(10, z));
        MulMono(n, 1, Pow(10, q));
      } else if len > 1 {
        MulMono(z, 2, Pow(10, len - 1));
        PowStrict(z, q);
        MulMono(m, Pow(10, z) + 1, Pow(10, q));
        Distribute(m, Pow(10, z), 1);
      } else {
        assert q == z * 1;
      }
    }
  }

  /** `1e20e10` written out: read as 10^39. */
  lemma MixedExample()
    ensures var s := ['1'] + Zeros(20) + ['e', '1', '0'] + [NUL];
      Terminated(s) && ReadAll(s) == Scan(Decimal(10000000000000000000, 20), false, 24)
  {
    var s := ['1'] + Zeros(20) + ['e', '1', '0'] + [NUL];
    Twenty(s);
    assert s[21] == 'e' && s[22] == '1' && s[23] == '0' && s[24] == NUL;
    StartDigit(s);
    assert ReadExponent(s, 24, 20) == Exp(24, 20);
    assert ReadExponent(s, 23, 2) == ReadExponent(s, 24, 20);
    hide ReadWhole, ReadAll;
  }

  lemma Twenty(s: seq<char>)
    requires Terminated(s) && |s| == 25 && s[1..21] == Zeros(20) && s[21] == 'e'
    ensures ReadWhole(s, 1, 1, 0) == Whole(21, 10000000000000000000, 1)
  {
    forall i | 1 <= i < 21 ensures s[i] == '0' { assert s[1..21][i - 1] == s[i]; }
    Nineteen();
    hide Pow;
    WholeTens(s, 1, 1, 19);
    assert s[20] == '0';
    assert ReadWhole(s, 20, 10000000000000000000, 0) == ReadWhole(s, 21, 10000000000000000000, 1);
  }

  lemma Nineteen()
    ensures Pow(10, 19) == 10000000000000000000
  {
    assert Pow(10, 5) == 100000 && Pow(10, 4) == 10000;
    PowAdd(10, 5, 5);
    PowAdd(10, 5, 4);
    PowAdd(10, 10, 9);
  }

  lemma {:induction false} WholeTens(s: seq<char>, i: nat, mant: u64, n: nat)
    requires Terminated(s) && i + n < |s| && forall k :: i <= k < i + n ==> s[k] == '0'
    requires mant * Pow(10, n) <= 10000000000000000000
    ensures mant * Pow(10, n) < 0x1_0000_0000_0000_0000
    ensures ReadWhole(s, i, mant, 0) == ReadWhole(s, i + n, mant * Pow(10, n), 0)
    decreases n
  {
    if n == 0 {
      PowZero();
    } else {
      PowNext(n - 1);
      TenLater(mant, Pow(10, n - 1));
      PowPositive(n - 1);
      MulMono(mant * 10, 1, Pow(10, n - 1));
      hide Pow;
      WholeTens(s, i + 1, mant * 10, n - 1);
    }
  }

  lemma TenLater(m: nat, p: nat)
    ensures m * (10 * p) == (m * 10) * p
  {
  }

  // ---------- plain and scientific notation ----------

  function Positive(x: int): nat {
    if x > 0 then x else 0
  }

  /** `n * 10^k >= 10^b`, in whole numbers. */
  ghost predicate AtLeast(n: nat, k: int, b: int) {
    n * Pow(10, Positive(k) + Positive(-b)) >= Pow(10, Positive(-k) + Positive(b))
  }

  lemma {:induction false} LeadingDigit(ds: seq<char>)
    requires AllDigits(ds) && ds != [] && ds[0] != '0'
    ensures Pow(10, |ds| - 1) <= Numeral(ds) < Pow(10, |ds|)
    decreases |ds|
  {
    NumeralBound(ds);
    if |ds| > 1 {
      LeadingDigit(ds[..|ds| - 1]);
      PowNext(|ds| - 2);
    } else {
      PowZero();
      assert ds[..0] == [];
    }
  }

  /** Where a number with `len` digits stands among the powers of ten. */
  lemma Position(n: nat, len: nat, k: int, b: int)
    requires len > 0 && Pow(10, len - 1) <= n < Pow(10, len)
    ensures AtLeast(n, k, b) <==> len + k > b
  {
    var e, d := Positive(k) + Positive(-b), Positive(-k) + Positive(b);
    assert e - d == k - b;
    PowPositive(e);
    hide Pow;
    if len + k > b {
      PowAdd(10, len - 1, e);
      PowMono(10, d, len - 1 + e);
      NotBelow(n, Pow(10, len - 1), Pow(10, e), Pow(10, d));
    } else {
      PowAdd(10, len, e);
      PowMono(10, len + e, d);
      NotReached(n, Pow(10, len), Pow(10, e), Pow(10, d));
    }
  }

  lemma NotBelow(n: nat, lo: nat, p: nat, q: nat)
    requires lo <= n && q <= lo * p
    ensures q <= n * p
  {
    MulMono(p, lo, n);
  }

  lemma NotReached(n: nat, hi: nat, p: nat, q: nat)
    requires n + 1 <= hi && hi * p <= q && p > 0
    ensures n * p < q
  {
    MulMono(p, n + 1, hi);
    Distribute(p, n, 1);
  }

  /** Numbers from 10^-6 up to 10^21 are laid out without an exponent, all others with one. */
  lemma Notation(ds: seq<char>, k: int)
    requires Significant(ds) && -1000 < |ds| + k - 1 < 1000
    ensures 'e' in Layout(ds, k) <==> AtLeast(Numeral(ds), k, 21) || !AtLeast(Numeral(ds), k, -6)
  {
    hide *;
    SignificantParts(ds);
    LeadingDigit(ds);
    Position(Numeral(ds), |ds|, k, 21);
    Position(Numeral(ds), |ds|, k, -6);
    NotationText(ds, k);
  }

  lemma SignificantParts(ds: seq<char>)
    requires Significant(ds)
    ensures ds != [] && AllDigits(ds) && ds[0] != '0'
  {
  }

  lemma NotationText(ds: seq<char>, k: int)
    requires Significant(ds) && -1000 < |ds| + k - 1 < 1000
    ensures 'e' in Layout(ds, k) <==> |ds| + k > 21 || |ds| + k <= -6
  {
    hide Zeros, ExponentText, Layout;
    var kk := |ds| + k;
    LayoutCases(ds, k);
    NoLetter(ds);
    if |ds| <= kk <= 21 {
      NoLetter(Zeros(k));
    } else if 0 < kk <= 21 {
      NoLetter(ds[..kk]);
      NoLetter(ds[kk..]);
    } else if -6 < kk <= 0 {
      NoLetter(Zeros(-kk));
    }
  }

  lemma NoLetter(ds: seq<char>)
    requires AllDigits(ds)
    ensures 'e' !in ds
  {
  }
}
