/** Calendar dates as the tracker stores them (`YYYY-MM-DD`, the full-date
    form of section 5.6 of RFC 3339) and the calendar months that the
    monthly trend and the budget comparison group them by. */
module Dates {
  import opened Wrappers

  /** A month of the year, 1 for January through 12 for December. */
  type MonthOfYear = m: int | 1 <= m <= 12 witness 1

  /** A day of the month. */
  type DayOfMonth = d: int | 1 <= d <= 31 witness 1

  datatype Date = Date(year: int, month: MonthOfYear, day: DayOfMonth)

  /** A calendar month, the `YYYY-MM` key of the source. */
  datatype YearMonth = YearMonth(year: int, month: MonthOfYear)

  /** Chronological order on dates: `a` is on or before `b`. */
  predicate DateLe(a: Date, b: Date) {
    || a.year < b.year
    || (a.year == b.year && a.month < b.month)
    || (a.year == b.year && a.month == b.month && a.day <= b.day)
  }

  lemma DateLeTotal(a: Date, b: Date)
    ensures DateLe(a, b) || DateLe(b, a)
  {
  }

  lemma DateLeTransitive(a: Date, b: Date, c: Date)
    requires DateLe(a, b) && DateLe(b, c)
    ensures DateLe(a, c)
  {
  }

  /** The calendar month a date falls in (the source's `%Y-%m`). */
  function MonthOf(d: Date): YearMonth {
    YearMonth(d.year, d.month)
  }

  /** Months numbered consecutively: January of year 0 is 0, each later
      month one more. */
  function MonthIndex(ym: YearMonth): int {
    ym.year * 12 + ym.month - 1
  }

  /** The month with a given number; the inverse of MonthIndex. */
  function MonthAt(n: int): (ym: YearMonth)
    ensures MonthIndex(ym) == n
  {
    YearMonth(n / 12, n % 12 + 1)
  }

  /** The calendar month after `ym`: December rolls over into January. */
  function NextMonth(ym: YearMonth): YearMonth {
    if ym.month == 12 then YearMonth(ym.year + 1, 1) else YearMonth(ym.year, ym.month + 1)
  }

  /** Numbering months loses nothing: every month is found again from its number. */
  lemma MonthAtIndex(ym: YearMonth)
    ensures MonthAt(MonthIndex(ym)) == ym
  {
    var n := MonthIndex(ym);
    var q, r := n / 12, n % 12;
    assert n == 12 * q + r && 0 <= r < 12;
    assert 12 * (ym.year - q) == r - (ym.month - 1);
  }

  /** Two months with the same number are the same month. */
  lemma MonthIndexInjective(a: YearMonth, b: YearMonth)
    requires MonthIndex(a) == MonthIndex(b)
    ensures a == b
  {
    MonthAtIndex(a);
    MonthAtIndex(b);
  }

  /** Consecutive numbers are consecutive calendar months. */
  lemma MonthAtSucc(n: int)
    ensures MonthAt(n + 1) == NextMonth(MonthAt(n))
  {
    var next := NextMonth(MonthAt(n));
    assert MonthIndex(next) == n + 1;
    MonthAtIndex(next);
  }

  /** Later dates never fall in earlier months. */
  lemma MonthIndexMonotone(a: Date, b: Date)
    requires DateLe(a, b)
    ensures MonthIndex(MonthOf(a)) <= MonthIndex(MonthOf(b))
  {
    if a.year < b.year {
      assert a.year * 12 + 12 <= b.year * 12;
    }
  }

  /** The decimal digit character for 0 <= k <= 9. */
  function DigitChar(k: int): (c: char)
    requires 0 <= k <= 9
    ensures IsDigit(c) && DigitValue(c) == k
  {
    (48 + k) as char
  }

  /** The value of a decimal digit character. */
  function DigitValue(c: char): int
    requires IsDigit(c)
  {
    c as int - 48
  }

  predicate IsDigit(c: char) {
    '0' <= c <= '9'
  }

  /** `n` in two digits, zero-padded. */
  function Pad2(n: int): string
    requires 0 <= n < 100
  {
    [DigitChar(n / 10), DigitChar(n % 10)]
  }

  /** `n` in four digits, zero-padded. */
  function Pad4(n: int): string
    requires 0 <= n < 10000
  {
    [DigitChar(n / 1000), DigitChar(n / 100 % 10), DigitChar(n / 10 % 10), DigitChar(n % 10)]
  }

  /** The value of a run of decimal digits. */
  function DigitsValue(s: string): int
    requires forall i :: 0 <= i < |s| ==> IsDigit(s[i])
  {
    if s == [] then 0 else DigitsValue(s[..|s| - 1]) * 10 + DigitValue(s[|s| - 1])
  }

  /** A date as the add form stores it: `YYYY-MM-DD`. Years run from 0 to
      9999, the four-digit years of the format. */
  function FormatDate(d: Date): (s: string)
    requires 0 <= d.year <= 9999
    ensures |s| == 10 && s[4] == '-' && s[7] == '-'
  {
    Pad4(d.year) + "-" + Pad2(d.month) + "-" + Pad2(d.day)
  }

  /** Reads a `YYYY-MM-DD` string back into a date; None when the text does
      not have that shape or the month or day is out of range. */
  function ParseDate(s: string): (r: Option<Date>)
    ensures r.Some? ==> |s| == 10 && s[4] == '-' && s[7] == '-'
  {
    if |s| == 10 && s[4] == '-' && s[7] == '-'
       && (forall i :: 0 <= i < 10 && i != 4 && i != 7 ==> IsDigit(s[i]))
    then
      var year := DigitsValue(s[0..4]);
      var month := DigitsValue(s[5..7]);
      var day := DigitsValue(s[8..10]);
      if 1 <= month <= 12 && 1 <= day <= 31 then Some(Date(year, month, day)) else None
    else None
  }

  lemma Pad2Value(n: int)
    requires 0 <= n < 100
    ensures forall i :: 0 <= i < 2 ==> IsDigit(Pad2(n)[i])
    ensures DigitsValue(Pad2(n)) == n
  {
    var s := Pad2(n);
    assert s[..1] == [s[0]] && s[..1][..0] == [];
    assert DigitsValue(s[..1]) == n / 10;
  }

  lemma Pad4Value(n: int)
    requires 0 <= n < 10000
    ensures forall i :: 0 <= i < 4 ==> IsDigit(Pad4(n)[i])
    ensures DigitsValue(Pad4(n)) == n
  {
    var s := Pad4(n);
    assert s[..3][..2][..1] == [s[0]] && s[..3][..2][..1][..0] == [];
    assert s[..3][..2] == [s[0], s[1]];
    assert s[..3] == [s[0], s[1], s[2]];
    assert DigitsValue(s[..3][..2][..1]) == n / 1000;
    assert DigitsValue(s[..3][..2]) == n / 100;
    assert DigitsValue(s[..3]) == n / 10;
  }

  /** Storing a date as text and reading it back gives the same date. */
  lemma ParseFormatDate(d: Date)
    requires 0 <= d.year <= 9999
    ensures ParseDate(FormatDate(d)) == Some(d)
  {
    var s := FormatDate(d);
    Pad4Value(d.year);
    Pad2Value(d.month);
    Pad2Value(d.day);
    assert s[0..4] == Pad4(d.year);
    assert s[5..7] == Pad2(d.month);
    assert s[8..10] == Pad2(d.day);
  }
}
