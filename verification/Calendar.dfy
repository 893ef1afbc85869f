/**
 * The proleptic Gregorian calendar twice: counted out year by year and month by month, and as the
 * closed formulas and searches of section 21.4.1 of ECMA-262. Day 0 is the first of January 1970.
 */
module Calendar {
  datatype Date = Date(year: int, month: int, day: int)

  predicate Leap(y: int) {
    y % 4 == 0 && (y % 100 != 0 || y % 400 == 0)
  }

  function DaysInYear(y: int): int {
    if Leap(y) then 366 else 365
  }

  function DaysInMonth(y: int, m: int): int {
    if m == 2 then (if Leap(y) then 29 else 28)
    else if m == 4 || m == 6 || m == 9 || m == 11 then 30
    else 31
  }

  predicate Valid(d: Date) {
    1 <= d.month <= 12 && 1 <= d.day <= DaysInMonth(d.year, d.month)
  }

  // ----- counted out -----

  /** Days from the first of January 1970 to that of year `y`, one year at a time. */
  function DaysBeforeYear(y: int): int
    decreases if y < 1970 then 1970 - y else y - 1970
  {
    if y == 1970 then 0
    else if y > 1970 then DaysBeforeYear(y - 1) + DaysInYear(y - 1)
    else DaysBeforeYear(y + 1) - DaysInYear(y)
  }

  function DaysBeforeMonth(y: int, m: nat): int {
    if m <= 1 then 0 else DaysBeforeMonth(y, m - 1) + DaysInMonth(y, m - 1)
  }

  function DayNumber(d: Date): int
    requires d.month >= 0
  {
    DaysBeforeYear(d.year) + DaysBeforeMonth(d.year, d.month) + d.day - 1
  }

  // ----- ECMA-262 -----

  function DayFromYear(y: int): int {
    365 * (y - 1970) + (y - 1969) / 4 - (y - 1901) / 100 + (y - 1601) / 400
  }

  /** The first day, within its year, of a month counted from 0; 12 stands for the end of the year. */
  function MonthStart(month: int, leap: bool): int
    requires 0 <= month <= 12
  {
    [0, 31, 59, 90, 120, 151, 181, 212, 243, 273, 304, 334, 365][month] + if leap && month >= 2 then 1 else 0
  }

  lemma YearLengths(y: int)
    ensures DayFromYear(y + 1) == DayFromYear(y) + DaysInYear(y)
  {
    DivisionStep(y - 1969, 4);
    DivisionStep(y - 1901, 100);
    DivisionStep(y - 1601, 400);
  }

  lemma DivisionStep(n: int, k: int)
    requires k == 4 || k == 100 || k == 400
    ensures (n + 1) / k == n / k + if (n + 1) % k == 0 then 1 else 0
  {
  }

  function YearUp(y: int, day: int): (r: int)
    requires DayFromYear(y) <= day
    ensures DayFromYear(r) <= day < DayFromYear(r + 1)
    decreases day - DayFromYear(y)
  {
    YearLengths(y);
    if day < DayFromYear(y + 1) then y else YearUp(y + 1, day)
  }

  function YearDown(y: int, day: int): (r: int)
    requires day < DayFromYear(y + 1)
    ensures DayFromYear(r) <= day < DayFromYear(r + 1)
    decreases DayFromYear(y + 1) - day
  {
    YearLengths(y);
    if DayFromYear(y) <= day then y else YearDown(y - 1, day)
  }

  /** The largest year that starts no later than `day`. */
  function YearFromDay(day: int): (r: int)
    ensures DayFromYear(r) <= day < DayFromYear(r + 1)
  {
    if DayFromYear(1970) <= day then YearUp(1970, day) else YearDown(1969, day)
  }

  function DayWithinYear(day: int): int {
    day - DayFromYear(YearFromDay(day))
  }

  function MonthUp(m: int, d: int, leap: bool): (r: int)
    requires 0 <= m <= 11 && MonthStart(m, leap) <= d < MonthStart(12, leap)
    ensures m <= r <= 11 && MonthStart(r, leap) <= d < MonthStart(r + 1, leap)
    decreases 12 - m
  {
    if d < MonthStart(m + 1, leap) then m else MonthUp(m + 1, d, leap)
  }

  /** Counted from 0, as in the standard. */
  function MonthFromDay(day: int): (m: int)
    ensures 0 <= m <= 11
    ensures MonthStart(m, Leap(YearFromDay(day))) <= DayWithinYear(day) < MonthStart(m + 1, Leap(YearFromDay(day)))
  {
    YearLengths(YearFromDay(day));
    MonthUp(0, DayWithinYear(day), Leap(YearFromDay(day)))
  }

  function DateFromDay(day: int): Date {
    var y, m := YearFromDay(day), MonthFromDay(day);
    Date(y, m + 1, DayWithinYear(day) - MonthStart(m, Leap(y)) + 1)
  }

  /** `MakeDay`, for a month counted from 0 that is in range; the day of the month may be anything. */
  function MakeDay(year: int, month: int, day: int): int
    requires 0 <= month <= 11
  {
    DayFromYear(year) + MonthStart(month, Leap(year)) + day - 1
  }

  // ----- they agree -----

  lemma {:induction false} ClosedFormCountsYears(y: int)
    ensures DayFromYear(y) == DaysBeforeYear(y)
    decreases if y < 1970 then 1970 - y else y - 1970
  {
    if y > 1970 {
      ClosedFormCountsYears(y - 1);
      YearLengths(y - 1);
    } else if y < 1970 {
      ClosedFormCountsYears(y + 1);
      YearLengths(y);
    }
  }

  lemma {:induction false} TableCountsMonths(y: int, m: nat)
    requires 1 <= m <= 12
    ensures MonthStart(m - 1, Leap(y)) == DaysBeforeMonth(y, m)
    ensures MonthStart(m, Leap(y)) == MonthStart(m - 1, Leap(y)) + DaysInMonth(y, m)
  {
    if m > 1 { TableCountsMonths(y, m - 1); }
  }

  /** `MakeDay` is the counted day number, also for a day past the end of its month. */
  lemma MakeDayCounts(d: Date)
    requires 1 <= d.month <= 12
    ensures MakeDay(d.year, d.month - 1, d.day) == DayNumber(d)
  {
    ClosedFormCountsYears(d.year);
    TableCountsMonths(d.year, d.month);
  }

  lemma {:induction false} YearsAscend(a: int, b: int)
    requires a <= b
    ensures DayFromYear(a) + 365 * (b - a) <= DayFromYear(b)
    decreases b - a
  {
    if a < b {
      YearsAscend(a, b - 1);
      YearLengths(b - 1);
    }
  }

  lemma YearIsUnique(y: int, day: int)
    requires DayFromYear(y) <= day < DayFromYear(y + 1)
    ensures YearFromDay(day) == y
  {
    var r := YearFromDay(day);
    if r < y {
      YearsAscend(r + 1, y);
    } else if y < r {
      YearsAscend(y + 1, r);
    }
  }

  lemma MonthsAscend(a: int, b: int, leap: bool)
    requires 0 <= a <= b <= 12
    ensures MonthStart(a, leap) <= MonthStart(b, leap)
  {
  }

  lemma MonthIsUnique(m: int, day: int)
    requires 0 <= m <= 11
    requires MonthStart(m, Leap(YearFromDay(day))) <= DayWithinYear(day) < MonthStart(m + 1, Leap(YearFromDay(day)))
    ensures MonthFromDay(day) == m
  {
    var r, leap := MonthFromDay(day), Leap(YearFromDay(day));
    if r < m {
      MonthsAscend(r + 1, m, leap);
    } else if m < r {
      MonthsAscend(m + 1, r, leap);
    }
  }

  /** Every day number is that of a valid date, the one found by the searches. */
  lemma DateOfDay(day: int)
    ensures Valid(DateFromDay(day)) && DayNumber(DateFromDay(day)) == day
  {
    var d := DateFromDay(day);
    TableCountsMonths(d.year, d.month);
    MakeDayCounts(d);
  }

  /** Every valid date is found again from its day number. */
  lemma DayOfDate(d: Date)
    requires Valid(d)
    ensures DateFromDay(DayNumber(d)) == d
  {
    var day := DayNumber(d);
    MakeDayCounts(d);
    TableCountsMonths(d.year, d.month);
    MonthsAscend(0, d.month - 1, Leap(d.year));
    MonthsAscend(d.month, 12, Leap(d.year));
    YearLengths(d.year);
    YearIsUnique(d.year, day);
    MonthIsUnique(d.month - 1, day);
  }

  /** Looking a computed day up again gives the same fields exactly when the day exists in its month. */
  lemma ProbeIsValidity(d: Date)
    requires 1 <= d.month <= 12
    ensures DateFromDay(MakeDay(d.year, d.month - 1, d.day)) == d <==> Valid(d)
  {
    MakeDayCounts(d);
    DateOfDay(DayNumber(d));
    if Valid(d) { DayOfDate(d); }
  }

  lemma LaterDayLaterYear(y: int, day: int)
    requires DayFromYear(y) <= day
    ensures YearFromDay(day) >= y
  {
    var r := YearFromDay(day);
    if r < y { YearsAscend(r + 1, y); }
  }

  /** A day past the end of its month still falls in the same year or a later one. */
  lemma OverflowStaysLater(d: Date)
    requires 1 <= d.month <= 12 && 1 <= d.day
    ensures DateFromDay(MakeDay(d.year, d.month - 1, d.day)).year >= d.year
  {
    MonthsAscend(0, d.month - 1, Leap(d.year));
    LaterDayLaterYear(d.year, MakeDay(d.year, d.month - 1, d.day));
  }
}
