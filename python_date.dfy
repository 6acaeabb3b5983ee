/** The parts of Python that `clean_date` leans on: slicing, `int()` on text and
    the range checks of `datetime.date`. Digits are the ASCII ones. */
module PythonDate {
  import opened Wrappers
  import opened Text

  /** `s[i:j]` for `0 <= i <= j`: bounds past the end are cut back to the length. */
  function Slice(s: string, i: nat, j: nat): (r: string)
    requires i <= j
    ensures |r| == Min(j, |s|) - Min(i, |s|)
    ensures forall k :: 0 <= k < |r| ==> r[k] == s[i + k]
  {
    s[Min(i, |s|)..Min(j, |s|)]
  }

  /** The whitespace `int()` skips around its digits: ASCII tab, LF, VT, FF, CR and
      space, and the non-ASCII Unicode spaces. The separators U+001C to U+001F,
      which `str.isspace` accepts, are not among them. */
  predicate IsPyWhitespace(c: char)
  {
    var n := c as int;
    (0x09 <= n <= 0x0d) || n == 0x20 || n == 0x85 || n == 0xa0 || n == 0x1680
    || (0x2000 <= n <= 0x200a) || n == 0x2028 || n == 0x2029 || n == 0x202f || n == 0x205f
    || n == 0x3000
  }

  function LStrip(s: string): string
  {
    if s != [] && IsPyWhitespace(s[0]) then LStrip(s[1..]) else s
  }

  function RStrip(s: string): string
  {
    if s != [] && IsPyWhitespace(s[|s| - 1]) then RStrip(s[..|s| - 1]) else s
  }

  /** Digits with single underscores between them, as `int()` accepts in base 10. */
  predicate IsDigitRun(u: string)
  {
    && |u| > 0
    && IsAsciiDigit(u[0]) && IsAsciiDigit(u[|u| - 1])
    && (forall k :: 0 <= k < |u| ==> IsAsciiDigit(u[k]) || u[k] == '_')
    && (forall k :: 0 <= k < |u| - 1 ==> u[k] == '_' ==> u[k + 1] != '_')
  }

  function DropUnderscores(u: string): string
  {
    if u == [] then [] else (if u[0] == '_' then [] else [u[0]]) + DropUnderscores(u[1..])
  }

  /** The value of a run of decimal digits, most significant first. */
  function DigitsValue(s: string): nat
  {
    if s == [] then 0
    else 10 * DigitsValue(s[..|s| - 1]) + (if IsAsciiDigit(s[|s| - 1]) then s[|s| - 1] as int - '0' as int else 0)
  }

  /** `int(t)` on text: `None` where Python raises `ValueError`. */
  function PyInt(t: string): Option<int>
  {
    var u := RStrip(LStrip(t));
    if |u| > 0 && (u[0] == '+' || u[0] == '-') then
      var magnitude: int := DigitsValue(DropUnderscores(u[1..]));
      if IsDigitRun(u[1..]) then Some(if u[0] == '-' then -magnitude else magnitude) else None
    else if IsDigitRun(u) then Some(DigitsValue(DropUnderscores(u)))
    else None
  }

  predicate IsLeapYear(year: int)
  {
    year % 4 == 0 && (year % 100 != 0 || year % 400 == 0)
  }

  function DaysInMonth(year: int, month: int): int
    requires 1 <= month <= 12
  {
    if month == 2 then (if IsLeapYear(year) then 29 else 28)
    else if month == 4 || month == 6 || month == 9 || month == 11 then 30
    else 31
  }

  /** The arguments `datetime.date(year, month, day)` accepts without `ValueError`:
      years 1 to 9999, months 1 to 12, days within the month of the proleptic
      Gregorian calendar. */
  predicate IsRealDate(year: int, month: int, day: int)
  {
    1 <= year <= 9999 && 1 <= month <= 12 && 1 <= day <= DaysInMonth(year, month)
  }

  predicate AllDigits(s: string)
  {
    forall k :: 0 <= k < |s| ==> IsAsciiDigit(s[k])
  }

  lemma LStripNoSpace(s: string)
    requires s != [] && !IsPyWhitespace(s[0])
    ensures LStrip(s) == s
  {
  }

  lemma DropUnderscoresOfDigits(s: string)
    requires AllDigits(s)
    ensures DropUnderscores(s) == s
  {
    if s != [] {
      DropUnderscoresOfDigits(s[1..]);
    }
  }

  /** `int()` reads a plain run of digits as its decimal value. */
  lemma PyIntOfDigits(s: string)
    requires |s| > 0 && AllDigits(s)
    ensures PyInt(s) == Some(DigitsValue(s))
  {
    assert !IsPyWhitespace(s[0]) && !IsPyWhitespace(s[|s| - 1]);
    assert RStrip(LStrip(s)) == s;
    assert IsDigitRun(s);
    DropUnderscoresOfDigits(s);
  }

  /** `int()` ignores trailing whitespace after the digits. */
  lemma PyIntTrailingSpace(s: string, c: char)
    requires |s| > 0 && AllDigits(s) && IsPyWhitespace(c)
    ensures PyInt(s + [c]) == Some(DigitsValue(s))
  {
    var t := s + [c];
    assert t[..|t| - 1] == s;
    assert !IsPyWhitespace(s[0]) && !IsPyWhitespace(s[|s| - 1]);
    LStripNoSpace(t);
    assert RStrip(t) == RStrip(s) == s;
    PyIntOfDigits(s);
  }

  /** `int()` rejects digits followed by anything that is neither a digit nor whitespace,
      an underscore included. */
  lemma PyIntRejectsTrailing(s: string, c: char)
    requires |s| > 0 && AllDigits(s) && !IsAsciiDigit(c) && !IsPyWhitespace(c)
    ensures PyInt(s + [c]) == None
  {
    var t := s + [c];
    assert !IsPyWhitespace(s[0]);
    LStripNoSpace(t);
    assert RStrip(t) == t;
    assert t[0] == s[0];
  }

  function DigitValue(c: char): int
  {
    c as int - '0' as int
  }

  lemma DigitsValueTwo(a: char, b: char)
    requires IsAsciiDigit(a) && IsAsciiDigit(b)
    ensures DigitsValue([a, b]) == 10 * DigitValue(a) + DigitValue(b)
  {
    assert [a, b][..1] == [a] && [a][..0] == [];
    assert DigitsValue([a]) == DigitValue(a);
  }

  lemma DigitsValueThree(a: char, b: char, c: char)
    requires IsAsciiDigit(a) && IsAsciiDigit(b) && IsAsciiDigit(c)
    ensures DigitsValue([a, b, c]) == 100 * DigitValue(a) + 10 * DigitValue(b) + DigitValue(c)
  {
    assert [a, b, c][..2] == [a, b];
    DigitsValueTwo(a, b);
  }

  lemma DigitsValueFour(a: char, b: char, c: char, d: char)
    requires IsAsciiDigit(a) && IsAsciiDigit(b) && IsAsciiDigit(c) && IsAsciiDigit(d)
    ensures DigitsValue([a, b, c, d]) == 1000 * DigitValue(a) + 100 * DigitValue(b) + 10 * DigitValue(c) + DigitValue(d)
  {
    assert [a, b, c, d][..3] == [a, b, c];
    DigitsValueThree(a, b, c);
  }

  /** The twenty-ninth of February exists exactly in leap years. */
  lemma LeapDay(year: int)
    requires 1 <= year <= 9999
    ensures IsRealDate(year, 2, 29) <==> IsLeapYear(year)
  {
  }
}
