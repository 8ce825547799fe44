/**
 * Intake dates and their text form. The form's date widget yields a
 * `datetime.date`; the record stores its day, month and year as numbers and
 * the date itself as an ISO 8601 calendar date in extended format
 * (YYYY-MM-DD, section 4.1.2.2 of ISO 8601:2004).
 */
module Dates {
  import opened Wrappers

  datatype Date = Date(year: int, month: int, day: int)

  predicate IsLeapYear(y: int) {
    (y % 4 == 0 && y % 100 != 0) || y % 400 == 0
  }

  function DaysInMonth(y: int, m: int): (n: int)
    requires 1 <= m <= 12
    ensures 28 <= n <= 31
    ensures n == 29 <==> m == 2 && IsLeapYear(y)
  {
    if m == 2 then (if IsLeapYear(y) then 29 else 28)
    else if m == 4 || m == 6 || m == 9 || m == 11 then 30
    else 31
  }

  /** The dates a `datetime.date` can hold: years 1 to 9999 of the proleptic Gregorian calendar. */
  predicate ValidDate(d: Date) {
    1 <= d.year <= 9999 && 1 <= d.month <= 12 && 1 <= d.day <= DaysInMonth(d.year, d.month)
  }

  type CalendarDate = d: Date | ValidDate(d) witness Date(1, 1, 1)

  predicate IsDigit(c: char) {
    '0' <= c <= '9'
  }

  function DigitValue(c: char): int {
    c as int - '0' as int
  }

  function DigitChar(n: int): (c: char)
    requires 0 <= n < 10
    ensures IsDigit(c) && DigitValue(c) == n
  {
    ('0' as int + n) as char
  }

  /** `n` as exactly two decimal digits, zero-padded (strftime's %m and %d). */
  function Pad2(n: int): (s: string)
    requires 0 <= n < 100
    ensures |s| == 2 && IsDigit(s[0]) && IsDigit(s[1])
    ensures DigitValue(s[0]) * 10 + DigitValue(s[1]) == n
  {
    [DigitChar(n / 10), DigitChar(n % 10)]
  }

  /** The number written by two decimal digits. */
  function Value2(s: string): int
    requires |s| == 2
  {
    DigitValue(s[0]) * 10 + DigitValue(s[1])
  }

  /** `d` as YYYY-MM-DD: `strftime('%Y-%m-%d')`. */
  function FormatIsoDate(d: CalendarDate): (s: string)
    ensures |s| == 10 && s[4] == '-' && s[7] == '-'
    ensures forall i :: 0 <= i < 10 && i != 4 && i != 7 ==> IsDigit(s[i])
  {
    Pad2(d.year / 100) + Pad2(d.year % 100) + "-" + Pad2(d.month) + "-" + Pad2(d.day)
  }

  /** Reads a YYYY-MM-DD string back into a date; None unless it names a valid calendar date. */
  function ParseIsoDate(s: string): (r: Option<CalendarDate>)
    ensures r.Some? ==> |s| == 10 && s[4] == '-' && s[7] == '-'
  {
    if |s| != 10 || s[4] != '-' || s[7] != '-' then None
    else if !(forall i :: 0 <= i < 10 && i != 4 && i != 7 ==> IsDigit(s[i])) then None
    else
      var d := Date(Value2(s[0..2]) * 100 + Value2(s[2..4]), Value2(s[5..7]), Value2(s[8..10]));
      if ValidDate(d) then Some(d) else None
  }

  /** Every intake date reads back from its stored text. */
  lemma ParseFormatRoundTrip(d: CalendarDate)
    ensures ParseIsoDate(FormatIsoDate(d)) == Some(d)
  {
    var s := FormatIsoDate(d);
    assert s[0..2] == Pad2(d.year / 100);
    assert s[2..4] == Pad2(d.year % 100);
    assert s[5..7] == Pad2(d.month);
    assert s[8..10] == Pad2(d.day);
  }

  /** Two decimal digits are the padding of the number they write. */
  lemma Pad2OfValue(s: string)
    requires |s| == 2 && IsDigit(s[0]) && IsDigit(s[1])
    ensures 0 <= Value2(s) < 100 && Pad2(Value2(s)) == s
  {
    var n := Value2(s);
    assert n / 10 == DigitValue(s[0]) && n % 10 == DigitValue(s[1]);
  }

  /** The text form is canonical: a string that parses is exactly the formatting of its date. */
  lemma FormatParseRoundTrip(s: string, d: CalendarDate)
    requires ParseIsoDate(s) == Some(d)
    ensures FormatIsoDate(d) == s
  {
    var hi, lo, mm, dd := s[0..2], s[2..4], s[5..7], s[8..10];
    Pad2OfValue(hi);
    Pad2OfValue(lo);
    Pad2OfValue(mm);
    Pad2OfValue(dd);
    var y := Value2(hi) * 100 + Value2(lo);
    assert d.year == y && d.month == Value2(mm) && d.day == Value2(dd);
    assert y / 100 == Value2(hi) && y % 100 == Value2(lo);
    assert s == hi + lo + "-" + mm + "-" + dd;
  }
}
