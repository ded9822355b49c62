/** The strict date rule of the forecast tools: a date string is accepted only when it is
    the zero-padded `YYYY-MM-DD` rendering of a real calendar date, and a blank string
    stands for tomorrow. */
module DateText {
  import opened Wrappers
  import opened Calendar

  /** Why a date string yields no date. */
  datatype DateError =
    | InvalidDate   // the `InvalidDate` exception
    | DateOverflow  // `OverflowError` from adding a day to 9999-12-31

  predicate IsDigit(c: char) {
    '0' <= c <= '9'
  }

  predicate AllDigits(s: string) {
    forall i :: 0 <= i < |s| ==> IsDigit(s[i])
  }

  function DigitValue(c: char): (n: nat)
    requires IsDigit(c)
    ensures n < 10
  {
    (c as int) - ('0' as int)
  }

  function DigitChar(n: nat): (c: char)
    requires n < 10
    ensures IsDigit(c) && DigitValue(c) == n
  {
    (('0' as int) + n) as char
  }

  function Pow10(k: nat): (p: nat)
    ensures p >= 1
  {
    if k == 0 then 1 else 10 * Pow10(k - 1)
  }

  /** The last `width` decimal digits of `n`, padded with leading zeros. */
  function PadDigits(n: nat, width: nat): (s: string)
    ensures |s| == width
    ensures AllDigits(s)
  {
    if width == 0 then [] else PadDigits(n / 10, width - 1) + [DigitChar(n % 10)]
  }

  /** The number a string of decimal digits denotes. */
  function DigitsValue(s: string): (n: nat)
    requires AllDigits(s)
    ensures n < Pow10(|s|)
  {
    if s == [] then 0 else 10 * DigitsValue(s[..|s| - 1]) + DigitValue(s[|s| - 1])
  }

  /** Padding a number that fits in `width` digits loses nothing. */
  lemma {:induction false} PadDigitsValue(n: nat, width: nat)
    requires n < Pow10(width)
    ensures DigitsValue(PadDigits(n, width)) == n
  {
    if width > 0 {
      PadDigitsValue(n / 10, width - 1);
      var s := PadDigits(n, width);
      assert s[..|s| - 1] == PadDigits(n / 10, width - 1);
    }
  }

  /** Appending a digit to a number shifts it left by one decimal place. */
  lemma AppendDigit(v: nat, d: nat)
    requires d < 10
    ensures (10 * v + d) / 10 == v && (10 * v + d) % 10 == d
  {
  }

  /** Every digit string, leading zeros included, is the padding of its own value. */
  lemma {:induction false} ValuePadDigits(s: string)
    requires AllDigits(s)
    ensures PadDigits(DigitsValue(s), |s|) == s
  {
    if s != [] {
      var init, last := s[..|s| - 1], s[|s| - 1];
      var v, d := DigitsValue(init), DigitValue(last);
      ValuePadDigits(init);
      AppendDigit(v, d);
      assert DigitsValue(s) == 10 * v + d;
      calc {
        PadDigits(DigitsValue(s), |s|);
        PadDigits(v, |s| - 1) + [DigitChar(d)];
        init + [last];
      }
      assert s == init + [last];
    }
  }

  /** `strftime('%Y-%m-%d')`: four-digit year, two-digit month and day, all zero-padded,
      each field denoting the corresponding part of the date. */
  function Format(d: Date): (s: string)
    requires Valid(d)
    ensures |s| == 10 && s[4] == '-' && s[7] == '-'
    ensures AllDigits(s[..4]) && AllDigits(s[5..7]) && AllDigits(s[8..])
    ensures DigitsValue(s[..4]) == d.year
    ensures DigitsValue(s[5..7]) == d.month
    ensures DigitsValue(s[8..]) == d.day
  {
    var s := PadDigits(d.year, 4) + "-" + PadDigits(d.month, 2) + "-" + PadDigits(d.day, 2);
    assert s[..4] == PadDigits(d.year, 4);
    assert s[5..7] == PadDigits(d.month, 2);
    assert s[8..] == PadDigits(d.day, 2);
    PadDigitsValue(d.year, 4);
    PadDigitsValue(d.month, 2);
    PadDigitsValue(d.day, 2);
    s
  }

  /** Reads a string of the exact shape `DDDD-DD-DD` as a date, and refuses any other
      string or any field combination that is not a real date. */
  function Parse(s: string): (r: Option<Date>)
    ensures r.Some? ==> Valid(r.value)
    ensures r.Some? ==> |s| == 10 && s[4] == '-' && s[7] == '-'
  {
    if |s| == 10 && s[4] == '-' && s[7] == '-'
      && AllDigits(s[..4]) && AllDigits(s[5..7]) && AllDigits(s[8..])
    then
      var d := Date(DigitsValue(s[..4]), DigitsValue(s[5..7]), DigitsValue(s[8..]));
      if Valid(d) then Some(d) else None
    else
      None
  }

  /** Formatting then parsing gives back the date. */
  lemma ParseFormat(d: Date)
    requires Valid(d)
    ensures Parse(Format(d)) == Some(d)
  {
  }

  /** Whatever `Parse` accepts is the rendering of the date it returns. */
  lemma FormatParse(s: string)
    requires Parse(s).Some?
    ensures Format(Parse(s).value) == s
  {
    var d := Parse(s).value;
    ValuePadDigits(s[..4]);
    ValuePadDigits(s[5..7]);
    ValuePadDigits(s[8..]);
    assert s == s[..4] + "-" + s[5..7] + "-" + s[8..];
  }

  /** `Format` never maps two valid dates to the same string. */
  lemma FormatInjective(a: Date, b: Date)
    requires Valid(a) && Valid(b)
    ensures Format(a) == Format(b) <==> a == b
  {  }

  /** `_check_date` / `is_valid_date`: the input parses, and re-rendering the parsed
      date gives back the input. */
  function CheckDate(s: string): (ok: bool)
    ensures ok ==> Parse(s).Some? && Format(Parse(s).value) == s
  {
    if Parse(s).Some? then FormatParse(s); true else false
  }

  /** The check accepts exactly the canonical renderings of valid dates. */
  lemma CheckDateIsCanonical(s: string)
    ensures CheckDate(s) <==> exists d :: Valid(d) && Format(d) == s
  {  }

  /** The check rejects unpadded fields, day-first order and surrounding spaces. */
  lemma RejectedShapes()
    ensures !CheckDate("2024-1-5")
    ensures !CheckDate("01-01-2030")
    ensures !CheckDate(" 2024-01-05")
  {
  }

  /** The check rejects a day beyond the month's end. */
  lemma RejectsThirtyFirstOfApril()
    ensures !CheckDate("2024-04-31")
  {
  }

  /** The check rejects year zero, which Python's dates do not have. */
  lemma RejectsYearZero()
    ensures !CheckDate("0000-01-01")
  {
    var z := "0000-01-01";
    assert z[..4] == "0000";
    assert DigitsValue("0000") == 0 by {
      assert "0000"[..3] == "000" && "000"[..2] == "00" && "00"[..1] == "0";
    }
  }

  /** The check accepts a leap day of a leap year. */
  lemma AcceptsLeapDay()
    ensures CheckDate("2024-02-29")
  {
    ParseFormat(Date(2024, 2, 29));
    assert Format(Date(2024, 2, 29)) == "2024-02-29";
  }

  /** February 29 is rejected outside leap years. */
  lemma RejectsLeapDayOfCommonYear()
    ensures !CheckDate("2023-02-29")
  {
    var s := "2023-02-29";
    assert s[..4] == "2023" && s[5..7] == "02" && s[8..] == "29";
    assert DigitsValue("2023") == 2023 by {
      assert "2023"[..3] == "202" && "202"[..2] == "20" && "20"[..1] == "2";
    }
    assert DigitsValue("02") == 2 && DigitsValue("29") == 29;
  }

  /** The code points for which Python's `str.isspace` holds, listed one by one. */
  const PythonWhitespace: set<int> := {
    0x09, 0x0A, 0x0B, 0x0C, 0x0D, 0x1C, 0x1D, 0x1E, 0x1F, 0x20, 0x85, 0xA0, 0x1680,
    0x2000, 0x2001, 0x2002, 0x2003, 0x2004, 0x2005, 0x2006, 0x2007, 0x2008, 0x2009, 0x200A,
    0x2028, 0x2029, 0x202F, 0x205F, 0x3000
  }

  /** The characters `str.strip` removes, as code-point ranges; never a digit or a dash. */
  function IsWhitespace(c: char): (w: bool)
    ensures w <==> (c as int) in PythonWhitespace
    ensures w ==> !IsDigit(c) && c != '-'
  {
    var n := c as int;
    || (0x09 <= n <= 0x0D) || (0x1C <= n <= 0x20) || n == 0x85 || n == 0xA0
    || n == 0x1680 || (0x2000 <= n <= 0x200A) || n == 0x2028 || n == 0x2029
    || n == 0x202F || n == 0x205F || n == 0x3000
  }

  /** `s.lstrip()`: the suffix left after dropping leading whitespace. */
  function TrimStart(s: string): (r: string)
    ensures |r| <= |s| && r == s[|s| - |r|..]
    ensures forall i :: 0 <= i < |s| - |r| ==> IsWhitespace(s[i])
    ensures r != [] ==> !IsWhitespace(r[0])
  {
    if s != [] && IsWhitespace(s[0]) then TrimStart(s[1..]) else s
  }

  /** `s.rstrip()`: the prefix left after dropping trailing whitespace. */
  function TrimEnd(s: string): (r: string)
    ensures |r| <= |s| && r == s[..|r|]
    ensures forall i :: |r| <= i < |s| ==> IsWhitespace(s[i])
    ensures r != [] ==> !IsWhitespace(r[|r| - 1])
  {
    if s != [] && IsWhitespace(s[|s| - 1]) then TrimEnd(s[..|s| - 1]) else s
  }

  /** `s.strip()`. */
  function Strip(s: string): string {
    TrimEnd(TrimStart(s))
  }

  /** Stripping leaves nothing exactly when every character is whitespace. */
  lemma StripEmptyIffWhitespace(s: string)
    ensures Strip(s) == [] <==> forall i :: 0 <= i < |s| ==> IsWhitespace(s[i])
  {  }

  /** `s.strip() == ""`: the string is whitespace throughout. */
  function IsBlank(s: string): (b: bool)
    ensures b <==> forall i :: 0 <= i < |s| ==> IsWhitespace(s[i])
  {
    StripEmptyIffWhitespace(s);
    Strip(s) == []
  }

  /** No blank string is a canonical date, so the order of the two tests in
      `set_date` never matters. */
  lemma BlankIsNotADate(s: string)
    requires IsBlank(s)
    ensures !CheckDate(s)
  {
  }

  /** `WeatherForecast.set_date` with the clock reading `today`: the parsed date when the
      input passes the check, tomorrow when it is blank, `InvalidDate` otherwise. */
  function SetDate(input: string, today: Date): (r: Result<Date, DateError>)
    requires Valid(today)
    ensures r.Success? ==> Valid(r.value)
    ensures CheckDate(input) ==> r.Success? && Format(r.value) == input
    ensures IsBlank(input) && today != LastDate ==>
      r.Success? && Ordinal(r.value) == Ordinal(today) + 1
    ensures IsBlank(input) && today == LastDate ==> r == Failure(DateOverflow)
    ensures !CheckDate(input) && !IsBlank(input) ==> r == Failure(InvalidDate)
  {
    if CheckDate(input) then
      FormatParse(input);
      Success(Parse(input).value)
    else if IsBlank(input) then
      if today == LastDate then Failure(DateOverflow) else Success(NextDay(today))
    else
      Failure(InvalidDate)
  }

  /** A date the check accepts is the date whose rendering was typed, whatever the clock says. */
  lemma SetDateRoundTrip(d: Date, today: Date)
    requires Valid(d) && Valid(today)
    ensures SetDate(Format(d), today) == Success(d)
  {  }

  /** A blank input yields the unique valid date one day after `today`. */
  lemma BlankIsTomorrow(input: string, today: Date, e: Date)
    requires Valid(today) && today != LastDate && IsBlank(input) && Valid(e)
    ensures SetDate(input, today) == Success(e) <==> Ordinal(e) == Ordinal(today) + 1
  {
    BlankIsNotADate(input);
    OrdinalOrder(e, NextDay(today));
  }
}
