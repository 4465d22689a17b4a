/*
 * Proleptic Gregorian calendar dates as (year, month, day) triples, with
 * the normalisation JavaScript's `new Date(year, monthIndex, day)` applies
 * to a month or day past the end of its range, and an absolute day number
 * that plays the role of `Date.getTime()` at whole-day resolution.
 * Months are numbered 1..12 here (JavaScript numbers them 0..11).
 */
module Calendar {

  datatype Date = Date(year: nat, month: nat, day: nat)

  predicate IsLeapYear(y: nat) {
    y % 4 == 0 && (y % 100 != 0 || y % 400 == 0)
  }

  function DaysInYear(y: nat): nat {
    if IsLeapYear(y) then 366 else 365
  }

  function DaysInMonth(y: nat, m: nat): (n: nat)
    requires 1 <= m <= 12
    ensures 28 <= n <= 31
    ensures n == 28 <==> m == 2 && !IsLeapYear(y)
  {
    if m == 2 then (if IsLeapYear(y) then 29 else 28)
    else if m == 4 || m == 6 || m == 9 || m == 11 then 30
    else 31
  }

  predicate IsValid(d: Date) {
    1 <= d.month <= 12 && 1 <= d.day <= DaysInMonth(d.year, d.month)
  }

  /** A date that exists on the calendar. */
  type CalendarDate = d: Date | IsValid(d) witness Date(1970, 1, 1)

  /** The (year, month) that follows (y, m); December rolls into January of y + 1. */
  function MonthAfter(y: nat, m: nat): (r: (nat, nat))
    requires 1 <= m <= 12
    ensures 1 <= r.1 <= 12 && r.1 != m
    ensures r.0 == (if m == 12 then y + 1 else y)
    ensures r.1 == (if m == 12 then 1 else m + 1)
  {
    if m == 12 then (y + 1, 1) else (y, m + 1)
  }

  /** Days in the years 0 .. y - 1. */
  function DaysBeforeYear(y: nat): nat {
    if y == 0 then 0 else DaysBeforeYear(y - 1) + DaysInYear(y - 1)
  }

  /** Days in the months 1 .. m - 1 of year y; month 13 stands for the whole year. */
  function DaysBeforeMonth(y: nat, m: nat): nat
    requires 1 <= m <= 13
  {
    var leap := if IsLeapYear(y) then 1 else 0;
    match m
    case 1 => 0
    case 2 => 31
    case 3 => 59 + leap
    case 4 => 90 + leap
    case 5 => 120 + leap
    case 6 => 151 + leap
    case 7 => 181 + leap
    case 8 => 212 + leap
    case 9 => 243 + leap
    case 10 => 273 + leap
    case 11 => 304 + leap
    case 12 => 334 + leap
    case _ => 365 + leap
  }

  /** Day number of the first day of month m of year y (month 13 is January of y + 1). */
  function MonthStart(y: nat, m: nat): int
    requires 1 <= m <= 13
  {
    DaysBeforeYear(y) + DaysBeforeMonth(y, m)
  }

  /** Absolute day number: consecutive calendar days have consecutive numbers. */
  function DayNumber(d: CalendarDate): int {
    MonthStart(d.year, d.month) + d.day - 1
  }

  /** A month starts right after the last day of the month before it. */
  lemma MonthStartStep(y: nat, m: nat)
    requires 1 <= m <= 12
    ensures MonthStart(MonthAfter(y, m).0, MonthAfter(y, m).1) == MonthStart(y, m) + DaysInMonth(y, m)
    ensures MonthStart(y, m + 1) == MonthStart(y, m) + DaysInMonth(y, m)
  {
  }

  /** The thirteenth month of year y is January of year y + 1. */
  lemma ThirteenthMonth(y: nat)
    ensures MonthStart(y, 13) == MonthStart(y + 1, 1)
  {
  }

  /**
   * `new Date(y, m - 1, d)`: month 13 rolls into January of y + 1, and a day
   * past the end of the month rolls into the following month.
   */
  function JsDate(y: nat, m: nat, d: nat): (r: CalendarDate)
    requires 1 <= m <= 13 && 1 <= d <= 31
    ensures DayNumber(r) == MonthStart(y, m) + d - 1
    ensures var (y0, m0) := if m == 13 then (y + 1, 1) else (y, m);
            d <= DaysInMonth(y0, m0) ==> r == Date(y0, m0, d)
    ensures var (y0, m0) := if m == 13 then (y + 1, 1) else (y, m);
            (r.year, r.month) == (y0, m0) || (r.year, r.month) == MonthAfter(y0, m0)
  {
    var (y0, m0) := if m == 13 then (y + 1, 1) else (y, m);
    ThirteenthMonth(y);
    var n := DaysInMonth(y0, m0);
    if d <= n then Date(y0, m0, d)
    else
      var (y1, m1) := MonthAfter(y0, m0);
      MonthStartStep(y0, m0);
      Date(y1, m1, d - n)
  }

  /** Later dates have larger day numbers: the day number orders dates as the calendar does. */
  lemma {:induction false} DayNumberMonotone(a: CalendarDate, b: CalendarDate)
    requires a.year < b.year || (a.year == b.year && a.month < b.month)
      || (a.year == b.year && a.month == b.month && a.day < b.day)
    ensures DayNumber(a) < DayNumber(b)
  {
    if a.year < b.year {
      YearStartsAfter(a.year, b.year);
    } else if a.month < b.month {
      MonthStartsAfter(a.year, a.month, b.month);
    }
  }

  /** A date's position in (year, month, day) order; month and day each fit their own digit range. */
  function Ordinal(d: Date): nat {
    d.year * 416 + d.month * 32 + d.day
  }

  /** Ordering dates by position in the calendar is ordering them by day number, both ways. */
  lemma OrdinalOrdersLikeDayNumber(a: CalendarDate, b: CalendarDate)
    ensures Ordinal(a) <= Ordinal(b) <==> DayNumber(a) <= DayNumber(b)
  {
    if Ordinal(a) < Ordinal(b) {
      DayNumberMonotone(a, b);
    } else if Ordinal(b) < Ordinal(a) {
      DayNumberMonotone(b, a);
    }
  }

  /** Distinct calendar dates have distinct positions. */
  lemma OrdinalInjective(a: CalendarDate, b: CalendarDate)
    requires Ordinal(a) == Ordinal(b)
    ensures a == b
  {
    assert 33 <= a.month * 32 + a.day < 416 && 33 <= b.month * 32 + b.day < 416;
    assert a.year == b.year;
    assert a.month == b.month;
  }

  lemma {:induction false} MonthStartsAfter(y: nat, m: nat, m': nat)
    requires 1 <= m < m' <= 12
    ensures MonthStart(y, m) + DaysInMonth(y, m) <= MonthStart(y, m')
  {
  }

  /** Every day of year y comes before the first day of any later year. */
  lemma {:induction false} YearStartsAfter(y: nat, y': nat)
    requires y < y'
    ensures MonthStart(y, 12) + 31 <= DaysBeforeYear(y')
    decreases y' - y
  {
    if y + 1 < y' {
      YearStartsAfter(y + 1, y');
    }
  }
}
