/**
 * Calendar dates as the ledger stores and compares them: a day/month/year
 * triple, the chronological order used by the date-range filter, and the
 * fixed `DD-MM-YYYY` text format (`%d-%m-%Y`) in which dates are written to
 * and read back from the ledger file.
 */
module Dates {
  import opened Wrappers

  datatype Date = Date(day: int, month: int, year: int)

  /** The character between the fields of the fixed date format. */
  const Separator := '-'

  predicate IsLeapYear(year: int) {
    year % 4 == 0 && (year % 100 != 0 || year % 400 == 0)
  }

  /** Number of days in a month of the proleptic Gregorian calendar. */
  function DaysInMonth(month: int, year: int): (n: int)
    requires 1 <= month <= 12
    ensures 28 <= n <= 31
    ensures n == 29 <==> month == 2 && IsLeapYear(year)
    ensures n == 30 <==> month in {4, 6, 9, 11}
    ensures n == 31 <==> month in {1, 3, 5, 7, 8, 10, 12}
  {
    if month == 2 then (if IsLeapYear(year) then 29 else 28)
    else if month in {4, 6, 9, 11} then 30
    else 31
  }

  /** A date that exists in the calendar, with a year of four digits (1 to 9999). */
  predicate IsValid(d: Date) {
    1 <= d.year <= 9999 && 1 <= d.month <= 12 && 1 <= d.day <= DaysInMonth(d.month, d.year)
  }

  /** Chronological order: by year, then month, then day. */
  predicate LessEq(a: Date, b: Date) {
    a.year < b.year || (a.year == b.year && (a.month < b.month || (a.month == b.month && a.day <= b.day)))
  }

  lemma LessEqIsTotalOrder(a: Date, b: Date, c: Date)
    ensures LessEq(a, a)
    ensures LessEq(a, b) && LessEq(b, a) ==> a == b
    ensures LessEq(a, b) && LessEq(b, c) ==> LessEq(a, c)
    ensures LessEq(a, b) || LessEq(b, a)
  {
  }

  // Decimal numerals of a fixed width

  predicate IsDigit(c: char) {
    '0' <= c <= '9'
  }

  predicate AllDigits(s: string) {
    forall i :: 0 <= i < |s| ==> IsDigit(s[i])
  }

  function DigitValue(c: char): (n: nat)
    requires IsDigit(c)
    ensures n < 10
  {
    c as int - '0' as int
  }

  function DigitChar(n: nat): (c: char)
    requires n < 10
    ensures IsDigit(c) && DigitValue(c) == n
  {
    (n + '0' as int) as char
  }

  function Pow10(width: nat): (p: nat)
    ensures p >= 1
  {
    if width == 0 then 1 else 10 * Pow10(width - 1)
  }

  /** The last `width` decimal digits of `n`, zero-padded on the left. */
  function Numeral(n: nat, width: nat): (s: string)
    ensures |s| == width && AllDigits(s)
  {
    if width == 0 then [] else Numeral(n / 10, width - 1) + [DigitChar(n % 10)]
  }

  /** The number a string of decimal digits denotes. */
  function NumeralValue(s: string): (n: nat)
    requires AllDigits(s)
    ensures n < Pow10(|s|)
  {
    if s == [] then 0 else 10 * NumeralValue(s[..|s| - 1]) + DigitValue(s[|s| - 1])
  }

  lemma DivModTen(q: nat, d: nat)
    requires d < 10
    ensures (10 * q + d) / 10 == q && (10 * q + d) % 10 == d
  {
  }

  lemma DropLastDigit(n: nat, p: nat)
    requires n < 10 * p
    ensures n / 10 < p && 10 * (n / 10) + n % 10 == n
  {
  }

  lemma {:induction false} NumeralValueOfNumeral(n: nat, width: nat)
    requires n < Pow10(width)
    ensures NumeralValue(Numeral(n, width)) == n
  {
    if width > 0 {
      var s := Numeral(n, width);
      DropLastDigit(n, Pow10(width - 1));
      assert s[..|s| - 1] == Numeral(n / 10, width - 1);
      assert s[|s| - 1] == DigitChar(n % 10);
      NumeralValueOfNumeral(n / 10, width - 1);
    }
  }

  lemma {:induction false} NumeralOfNumeralValue(s: string)
    requires AllDigits(s)
    ensures Numeral(NumeralValue(s), |s|) == s
  {
    if s != [] {
      var init := s[..|s| - 1];
      var n := NumeralValue(s);
      DivModTen(NumeralValue(init), DigitValue(s[|s| - 1]));
      NumeralOfNumeralValue(init);
      assert s == init + [s[|s| - 1]];
    }
  }

  // The fixed text format

  /** `d` written as `DD-MM-YYYY`, every field zero-padded: the text that `ParseDate` (like `strptime` with `%d-%m-%Y`) reads back. */
  function FormatDate(d: Date): (s: string)
    requires IsValid(d)
  {
    Numeral(d.day, 2) + [Separator] + Numeral(d.month, 2) + [Separator] + Numeral(d.year, 4)
  }

  /**
   * Reads a date in the fixed `DD-MM-YYYY` format; None when the text does not
   * have that shape or names a day that does not exist.
   */
  function ParseDate(s: string): (r: Option<Date>)
    ensures r.Some? ==> IsValid(r.value) && |s| == 10 && s[2] == Separator && s[5] == Separator
  {
    if |s| == 10 && s[2] == Separator && s[5] == Separator
       && AllDigits(s[..2]) && AllDigits(s[3..5]) && AllDigits(s[6..])
    then
      var d := Date(NumeralValue(s[..2]), NumeralValue(s[3..5]), NumeralValue(s[6..]));
      if IsValid(d) then Some(d) else None
    else None
  }

  /** Every valid date survives being written and read back. */
  lemma ParseFormatted(d: Date)
    requires IsValid(d)
    ensures ParseDate(FormatDate(d)) == Some(d)
  {
    var dd, mm, yyyy := Numeral(d.day, 2), Numeral(d.month, 2), Numeral(d.year, 4);
    var s := FormatDate(d);
    assert s == dd + [Separator] + mm + [Separator] + yyyy;
    assert s[..2] == dd && s[3..5] == mm && s[6..] == yyyy;
    NumeralValueOfNumeral(d.day, 2);
    NumeralValueOfNumeral(d.month, 2);
    NumeralValueOfNumeral(d.year, 4);
    assert Date(NumeralValue(dd), NumeralValue(mm), NumeralValue(yyyy)) == d;
  }

  /** Every text the parser accepts is the canonical writing of the date it reads. */
  lemma FormatParsed(s: string)
    requires ParseDate(s).Some?
    ensures FormatDate(ParseDate(s).value) == s
  {
    NumeralOfNumeralValue(s[..2]);
    NumeralOfNumeralValue(s[3..5]);
    NumeralOfNumeralValue(s[6..]);
    assert s == s[..2] + [s[2]] + s[3..5] + [s[5]] + s[6..];
  }
}
