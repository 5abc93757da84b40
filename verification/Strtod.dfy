/** `emyg_strtod`: what the text of a number hands to the conversion to binary. */
module DecimalReading {
  import opened Util
  import opened Limbs
  import opened Decimals
  import opened DecimalLayout

  const MAX64: int := 0xFFFF_FFFF_FFFF_FFFF
  const INT_MAX: int := 0x7FFF_FFFF

  /** What was read: nothing, a special value, or `mant * 10^expt`. */
  datatype Reading = NoConversion | NaN | Inf | Decimal(mant: u64, expt: int)

  /** The reading, whether a minus sign came first, and where reading stopped. */
  datatype Scan = Scan(r: Reading, minus: bool, end: int)

  predicate IsSpace(c: char) {
    c == ' ' || 9 <= c as int <= 13
  }

  ghost predicate Terminated(s: seq<char>) {
    s != [] && s[|s| - 1] == NUL
  }

  // ---------- the loops ----------

  function SkipSpace(s: seq<char>, i: nat): (j: nat)
    requires Terminated(s) && i < |s|
    ensures i <= j < |s|
    decreases |s| - i
  {
    if IsSpace(s[i]) then SkipSpace(s, i + 1) else i
  }

  datatype Whole = Overflow | Whole(i: nat, mant: u64, expt: nat)

  /** Digits before the point. Zeros that no longer fit are counted, other digits are refused. */
  function ReadWhole(s: seq<char>, i: nat, mant: u64, expt: nat): (r: Whole)
    requires Terminated(s) && i < |s|
    ensures r.Whole? ==> i <= r.i < |s| && !IsDigit(s[r.i])
    decreases |s| - i
  {
    if !IsDigit(s[i]) then Whole(i, mant, expt)
    else
      var d := DigitOf(s[i]);
      if mant <= MAX64 / 10 then
        if mant * 10 <= MAX64 - d then ReadWhole(s, i + 1, mant * 10 + d, expt) else Overflow
      else if d == 0 then ReadWhole(s, i + 1, mant, expt + 1)
      else Overflow
  }

  datatype Part = Part(i: nat, mant: u64, dadp: nat)

  /** Digits behind the point. Digits that no longer fit are ignored; but when the last one does not
      fit after the multiplication, the multiplication stays. */
  function ReadPart(s: seq<char>, i: nat, mant: u64, dadp: nat): (r: Part)
    requires Terminated(s) && i < |s|
    ensures i <= r.i < |s| && !IsDigit(s[r.i])
    decreases |s| - i
  {
    if !IsDigit(s[i]) then Part(i, mant, dadp)
    else
      var d := DigitOf(s[i]);
      if mant <= MAX64 / 10 then
        if mant * 10 <= MAX64 - d then ReadPart(s, i + 1, mant * 10 + d, dadp + 1)
        else ReadPart(s, i + 1, mant * 10, dadp)
      else ReadPart(s, i + 1, mant, dadp)
  }

  datatype Exp = ExpOverflow | Exp(i: nat, expt: nat)

  /** The further digits of an exponent. */
  function ReadExponent(s: seq<char>, i: nat, expt: nat): (r: Exp)
    requires Terminated(s) && i < |s|
    ensures r.Exp? ==> i <= r.i < |s|
    decreases |s| - i
  {
    if !IsDigit(s[i]) then Exp(i, expt)
    else
      var d := DigitOf(s[i]);
      if expt <= INT_MAX / 10 && expt * 10 <= INT_MAX - d then ReadExponent(s, i + 1, expt * 10 + d)
      else ExpOverflow
  }

  // ---------- the whole text ----------

  predicate SameLetter(c: char, lower: char, upper: char) {
    c == lower || c == upper
  }

  /** Three letters, in either case, from position `i`. */
  predicate Word(s: seq<char>, i: nat, lower: seq<char>, upper: seq<char>)
    requires i < |s| && |lower| == 3 && |upper| == 3
  {
    && SameLetter(s[i], lower[0], upper[0])
    && i + 1 < |s| && SameLetter(s[i + 1], lower[1], upper[1])
    && i + 2 < |s| && SameLetter(s[i + 2], lower[2], upper[2])
  }

  /** Where reading stops after a special value. */
  function WordEnd(s: seq<char>, i: nat): int {
    if i + 4 < |s| && s[i + 3] == '.' && s[i + 4] == '0' then i + 4 else i + 2
  }

  function Signed(minus: bool, x: nat): int {
    if minus then 0 - x else x
  }

  /** From the `e` of an exponent, or whatever else follows the digits. */
  function ReadTail(s: seq<char>, i: nat, mant: u64, expt: nat, dadp: nat, minus: bool): Scan
    requires Terminated(s) && i < |s|
  {
    if !SameLetter(s[i], 'e', 'E') then Scan(Decimal(mant, expt - dadp), minus, i)
    else
      var expm := s[i + 1] == '-';
      var j := if SameLetter(s[i + 1], '-', '+') then i + 2 else i + 1;
      if !IsDigit(s[j]) then
        Scan(Decimal(mant, Signed(expm, expt) - dadp), minus, if SameLetter(s[j], '-', '+') then j - 2 else j - 1)
      else
        match ReadExponent(s, j + 1, expt + DigitOf(s[j]))
        case ExpOverflow => Scan(NoConversion, minus, 0)
        case Exp(e, x) => Scan(Decimal(mant, Signed(expm, x) - dadp), minus, e)
  }

  function ReadFraction(s: seq<char>, i: nat, mant: u64, expt: nat, minus: bool): Scan
    requires Terminated(s) && i < |s|
  {
    var p := ReadPart(s, i, mant, 0);
    ReadTail(s, p.i, p.mant, expt, p.dadp, minus)
  }

  function AfterWhole(s: seq<char>, w: Whole, minus: bool): Scan
    requires Terminated(s) && (w.Whole? ==> w.i < |s| && !IsDigit(s[w.i]))
  {
    match w
    case Overflow => Scan(NoConversion, minus, 0)
    case Whole(j, mant, expt) =>
      if s[j] == '.' then ReadFraction(s, j + 1, mant, expt, minus) else ReadTail(s, j, mant, expt, 0, minus)
  }

  function ReadUnsigned(s: seq<char>, i: nat, minus: bool): Scan
    requires Terminated(s) && i < |s|
  {
    if Word(s, i, "nan", "NAN") then Scan(NaN, minus, WordEnd(s, i))
    else if Word(s, i, "inf", "INF") then Scan(Inf, minus, WordEnd(s, i))
    else if s[i] == '.' then ReadFraction(s, i + 1, 0, 0, minus)
    else if IsDigit(s[i]) then
      AfterWhole(s, ReadWhole(s, i + 1, DigitOf(s[i]), 0), minus)
    else Scan(NoConversion, minus, 0)
  }

  function ReadAll(s: seq<char>): Scan
    requires Terminated(s)
  {
    var i := SkipSpace(s, 0);
    if s[i] == '-' then ReadUnsigned(s, i + 1, true)
    else if s[i] == '+' then ReadUnsigned(s, i + 1, false)
    else ReadUnsigned(s, i, false)
  }

  // ---------- the code ----------

  /** `emyg_strtod` up to the call of `atod_guts`. */
  method Strtod(s: seq<char>) returns (scan: Scan)
    requires Terminated(s)
    ensures scan == ReadAll(s)
  {
    hide ReadWhole, ReadPart, ReadTail, ReadFraction, ReadUnsigned, Word, WordEnd, IsSpace;
    var cp: nat := 1;
    var c := s[0];
    while IsSpace(c)
      invariant 1 <= cp <= |s| && c == s[cp - 1] && SkipSpace(s, 0) == SkipSpace(s, cp - 1)
      decreases |s| - cp
    {
      c := s[cp];
      cp := cp + 1;
    }
    var minus := false;
    if '-' == c {
      minus := true;
      c := s[cp];
      cp := cp + 1;
    } else if '+' == c {
      c := s[cp];
      cp := cp + 1;
    }
    scan := ScanUnsigned(s, cp, c, minus);
  }

  /** The number after its sign; `cp` is one past `c`. */
  method ScanUnsigned(s: seq<char>, cp0: nat, c0: char, minus: bool) returns (scan: Scan)
    requires Terminated(s) && 0 < cp0 <= |s| && c0 == s[cp0 - 1]
    ensures scan == ReadUnsigned(s, cp0 - 1, minus)
  {
    hide ReadTail, ReadFraction;
    var cp, c := cp0, c0;
    var mant: u64 := 0;
    var expt: nat := 0;
    if SameLetter(c, 'n', 'N') && SameLetter(s[cp], 'a', 'A') && SameLetter(s[cp + 1], 'n', 'N') {
      cp := if s[cp + 2] == '.' && s[cp + 3] == '0' then cp + 4 else cp + 2;
      return Scan(NaN, minus, cp - 1);
    }
    if SameLetter(c, 'i', 'I') && SameLetter(s[cp], 'n', 'N') && SameLetter(s[cp + 1], 'f', 'F') {
      cp := if s[cp + 2] == '.' && s[cp + 3] == '0' then cp + 4 else cp + 2;
      return Scan(Inf, minus, cp - 1);
    }
    if '.' == c {
      scan := ScanFraction(s, cp, 0, 0, minus);
      return;
    }
    if !IsDigit(c) {
      return Scan(NoConversion, minus, 0);
    }
    mant := DigitOf(c);
    c := s[cp];
    cp := cp + 1;
    while IsDigit(c)
      invariant cp0 < cp <= |s| && c == s[cp - 1]
      invariant ReadWhole(s, cp0, DigitOf(c0), 0) == ReadWhole(s, cp - 1, mant, expt)
      decreases |s| - cp
    {
      var d := DigitOf(c);
      if mant <= MAX64 / 10 {
        mant := mant * 10;
      } else if d == 0 {
        expt := expt + 1;
      } else {
        return Scan(NoConversion, minus, 0);
      }
      if mant <= MAX64 - d {
        mant := mant + d;
      } else {
        return Scan(NoConversion, minus, 0);
      }
      c := s[cp];
      cp := cp + 1;
    }
    if '.' == c {
      scan := ScanFraction(s, cp, mant, expt, minus);
    } else {
      scan := ScanTail(s, cp, c, mant, expt, 0, minus);
    }
  }

  /** The digits behind the point. */
  method ScanFraction(s: seq<char>, cp0: nat, mant0: u64, expt: nat, minus: bool) returns (scan: Scan)
    requires Terminated(s) && cp0 < |s|
    ensures scan == ReadFraction(s, cp0, mant0, expt, minus)
  {
    hide ReadTail;
    var cp, c := cp0 + 1, s[cp0];
    var mant: u64 := mant0;
    var dadp: nat := 0;
    while IsDigit(c)
      invariant cp0 < cp <= |s| && c == s[cp - 1]
      invariant ReadPart(s, cp0, mant0, 0) == ReadPart(s, cp - 1, mant, dadp)
      decreases |s| - cp
    {
      var d := DigitOf(c);
      c := s[cp];
      cp := cp + 1;
      if mant <= MAX64 / 10 {
        mant := mant * 10;
      } else {
        continue;
      }
      if mant <= MAX64 - d {
        mant := mant + d;
      } else {
        continue;
      }
      dadp := dadp + 1;
    }
    scan := ScanTail(s, cp, c, mant, expt, dadp, minus);
  }

  /** The exponent, if there is one. */
  method ScanTail(s: seq<char>, cp0: nat, c0: char, mant: u64, expt0: nat, dadp: nat, minus: bool) returns (scan: Scan)
    requires Terminated(s) && 0 < cp0 <= |s| && c0 == s[cp0 - 1]
    ensures scan == ReadTail(s, cp0 - 1, mant, expt0, dadp, minus)
  {
    hide ReadExponent, IsDigit;
    var cp: int, c := cp0, c0;
    var expt: nat := expt0;
    var expm := false;
    if SameLetter(c, 'e', 'E') {
      c := s[cp];
      cp := cp + 1;
      if '-' == c {
        expm := true;
        c := s[cp];
        cp := cp + 1;
      } else if '+' == c {
        c := s[cp];
        cp := cp + 1;
      }
      if IsDigit(c) {
        var r := ScanExponent(s, cp, expt + DigitOf(c));
        if r.ExpOverflow? {
          return Scan(NoConversion, minus, 0);
        }
        cp, expt := r.i + 1, r.expt;
      } else {
        cp := cp - 1;
        c := s[cp];
        if SameLetter(c, '-', '+') {
          cp := cp - 1;
        }
      }
    }
    var e := if expm then 0 - expt else expt;
    scan := Scan(Decimal(mant, e - dadp), minus, cp - 1);
  }

  /** The digits of an exponent after the first one. */
  method ScanExponent(s: seq<char>, cp0: nat, expt0: nat) returns (r: Exp)
    requires Terminated(s) && cp0 < |s|
    ensures r == ReadExponent(s, cp0, expt0)
  {
    var cp, c := cp0 + 1, s[cp0];
    var expt: nat := expt0;
    while IsDigit(c)
      invariant cp0 < cp <= |s| && c == s[cp - 1]
      invariant ReadExponent(s, cp0, expt0) == ReadExponent(s, cp - 1, expt)
      decreases |s| - cp
    {
      var d := DigitOf(c);
      if expt <= INT_MAX / 10 {
        expt := expt * 10;
      } else {
        return ExpOverflow;
      }
      if expt <= INT_MAX - d {
        expt := expt + d;
      } else {
        return ExpOverflow;
      }
      c := s[cp];
      cp := cp + 1;
    }
    r := Exp(cp - 1, expt);
  }
}
