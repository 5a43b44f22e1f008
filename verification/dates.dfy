/** Calendar dates as Python's `datetime.date` holds them, their order, and
    the `strftime('%B %Y')` rendering the experience period uses. */
module Dates {
  import opened Values
  import opened Text

  datatype Date = Date(year: int, month: int, day: int)

  predicate IsLeapYear(y: int) {
    y % 4 == 0 && (y % 100 != 0 || y % 400 == 0)
  }

  function DaysInMonth(y: int, m: int): (n: int)
    requires 1 <= m <= 12
    ensures 28 <= n <= 31
    ensures n == 29 <==> m == 2 && IsLeapYear(y)
  {
    if m == 2 then (if IsLeapYear(y) then 29 else 28)
    else if m == 4 || m == 6 || m == 9 || m == 11 then 30
    else 31
  }

  /** A date `datetime.date` can represent: years 1 to 9999 of the
      proleptic Gregorian calendar. */
  predicate Valid(d: Date) {
    1 <= d.year <= 9999 && 1 <= d.month <= 12 && 1 <= d.day <= DaysInMonth(d.year, d.month)
  }

  /** `a < b` on dates: chronological order. */
  predicate Before(a: Date, b: Date) {
    || a.year < b.year
    || (a.year == b.year && a.month < b.month)
    || (a.year == b.year && a.month == b.month && a.day < b.day)
  }

  lemma BeforeIsStrictTotal(a: Date, b: Date, c: Date)
    ensures !Before(a, a)
    ensures Before(a, b) && Before(b, c) ==> Before(a, c)
    ensures a != b ==> Before(a, b) || Before(b, a)
  {
  }

  const MonthNames: seq<string> := [
    "January", "February", "March", "April", "May", "June",
    "July", "August", "September", "October", "November", "December"
  ]

  /** `%B` in the C locale: the full English month name. */
  function MonthName(m: int): (r: string)
    requires 1 <= m <= 12
    ensures r == MonthNames[m - 1]
  {
    MonthNames[m - 1]
  }

  /** `d.strftime('%B %Y')`, e.g. "March 2021". */
  function MonthYear(d: Date): (r: string)
    requires Valid(d)
  {
    MonthName(d.month) + " " + PadDigits(d.year, 4)
  }

  /** The month a full English month name stands for. */
  function MonthNumber(name: string): (r: Option<int>)
    ensures r.Some? <==> name in MonthNames
    ensures r.Some? ==> 1 <= r.value <= 12 && MonthName(r.value) == name
  {
    if name == "January" then Some(1)
    else if name == "February" then Some(2)
    else if name == "March" then Some(3)
    else if name == "April" then Some(4)
    else if name == "May" then Some(5)
    else if name == "June" then Some(6)
    else if name == "July" then Some(7)
    else if name == "August" then Some(8)
    else if name == "September" then Some(9)
    else if name == "October" then Some(10)
    else if name == "November" then Some(11)
    else if name == "December" then Some(12)
    else None
  }

  /** Reads back a `%B %Y` rendering as (month, year). */
  function ParseMonthYear(s: string): (r: Option<(int, int)>)
  {
    if |s| < 5 || s[|s| - 5] != ' ' then None
    else match (MonthNumber(s[..|s| - 5]), ParseDigits(s[|s| - 4..]))
      case (Some(m), Some(y)) => Some((m, y as int))
      case _ => None
  }

  lemma MonthNumberOfName(m: int)
    requires 1 <= m <= 12
    ensures MonthNumber(MonthName(m)) == Some(m)
  {
  }

  /** Rendering a date's month and year and reading it back recovers them. */
  lemma MonthYearRoundTrip(d: Date)
    requires Valid(d)
    ensures ParseMonthYear(MonthYear(d)) == Some((d.month, d.year))
  {
    var s := MonthYear(d);
    var name := MonthName(d.month);
    assert s[..|s| - 5] == name;
    assert s[|s| - 4..] == PadDigits(d.year, 4);
    MonthNumberOfName(d.month);
    PadDigitsRoundTrip(d.year, 4);
  }

  /** Whatever reads back as (month, year) is that month and year rendered. */
  lemma ParseMonthYearSound(s: string)
    requires ParseMonthYear(s).Some?
    ensures var (m, y) := ParseMonthYear(s).value;
      1 <= m <= 12 && 0 <= y <= 9999 && s == MonthName(m) + " " + PadDigits(y, 4)
  {
    ParseDigitsRoundTrip(s[|s| - 4..]);
    assert s == s[..|s| - 5] + [' '] + s[|s| - 4..];
  }

  /** A `%B %Y` rendering has no hyphen and ends in a digit. */
  lemma MonthYearShape(d: Date)
    requires Valid(d)
    ensures '-' !in MonthYear(d)
    ensures var s := MonthYear(d); |s| >= 5 && '0' <= s[|s| - 1] <= '9'
  {
    var name := MonthName(d.month);
    assert '-' !in name;
    var s := MonthYear(d);
    assert s[|s| - 1] == PadDigits(d.year, 4)[3];
  }
}
