/** Proleptic-Gregorian dates as day numbers, and the two ways the server turns a
    date into a number: JavaScript's `new Date(year, monthIndex, day)` (with its
    two-digit-year rule, month/day overflow and valid time range) and the
    day-of-year computed from the current date.

    Every `Date` here is taken at midnight in UTC: the server's local time zone,
    and any daylight-saving or historical offset it has, are not modelled. */
module Calendar {
  import opened JsCore

  datatype Date = Date(year: int, month: int, day: int)

  predicate IsLeapYear(y: int) {
    y % 4 == 0 && (y % 100 != 0 || y % 400 == 0)
  }

  function DaysInMonth(y: int, m: int): (n: int)
    requires 1 <= m <= 12
    ensures 28 <= n <= 31
    ensures n == 29 <==> m == 2 && IsLeapYear(y)
  {
    if m == 2 then (if IsLeapYear(y) then 29 else 28)
    else if m == 4 || m == 6 || m == 9 || m == 11 then 30
    else 31
  }

  /** A calendar date that exists: month 1..12, day within that month. */
  predicate ValidDate(dt: Date) {
    1 <= dt.month <= 12 && 1 <= dt.day <= DaysInMonth(dt.year, dt.month)
  }

  /** Number of leap years among 1 .. y-1 (for y <= 0, minus the number of leap
      years among y .. 0); Dafny's `/` by a positive constant is floor division. */
  function LeapYearsBefore(y: int): int {
    (y - 1) / 4 - (y - 1) / 100 + (y - 1) / 400
  }

  /** Days from 1970-01-01 to January 1 of year y. */
  function DaysBeforeYear(y: int): int {
    365 * (y - 1970) + LeapYearsBefore(y) - LeapYearsBefore(1970)
  }

  /** Days from January 1 to the first of month m in year y. */
  function DaysBeforeMonth(y: int, m: int): (n: int)
    requires 1 <= m <= 12
    ensures 0 <= n <= 335
  {
    [0, 31, 59, 90, 120, 151, 181, 212, 243, 273, 304, 334][m - 1]
    + (if m > 2 && IsLeapYear(y) then 1 else 0)
  }

  /** Day number (days since 1970-01-01) of day `d` of month m of year y; a day
      outside the month counts on from the first of the month, as JavaScript's Date
      does. */
  function DayNumber(y: int, m: int, d: int): int
    requires 1 <= m <= 12
  {
    DaysBeforeYear(y) + DaysBeforeMonth(y, m) + d - 1
  }

  /** The day after a valid date. */
  function NextDate(dt: Date): Date
    requires ValidDate(dt)
  {
    if dt.day < DaysInMonth(dt.year, dt.month) then Date(dt.year, dt.month, dt.day + 1)
    else if dt.month < 12 then Date(dt.year, dt.month + 1, 1)
    else Date(dt.year + 1, 1, 1)
  }

  lemma FloorStep4(y: int)
    ensures y / 4 - (y - 1) / 4 == if y % 4 == 0 then 1 else 0
  {
  }

  lemma FloorStep100(y: int)
    ensures y / 100 - (y - 1) / 100 == if y % 100 == 0 then 1 else 0
  {
  }

  lemma FloorStep400(y: int)
    ensures y / 400 - (y - 1) / 400 == if y % 400 == 0 then 1 else 0
  {
  }

  /** A year has 366 days exactly when it is a leap year, 365 otherwise. */
  lemma YearLength(y: int)
    ensures DaysBeforeYear(y + 1) - DaysBeforeYear(y) == if IsLeapYear(y) then 366 else 365
  {
    FloorStep4(y);
    FloorStep100(y);
    FloorStep400(y);
    if y % 400 == 0 {
      ModUnique(y, 100, 4 * (y / 400), 0);
      ModUnique(y, 4, 100 * (y / 400), 0);
    } else if y % 100 == 0 {
      ModUnique(y, 4, 25 * (y / 100), 0);
    }
    assert LeapYearsBefore(y + 1) - LeapYearsBefore(y) == if IsLeapYear(y) then 1 else 0;
  }

  /** Months are laid end to end inside a year. */
  lemma MonthLength(y: int, m: int)
    requires 1 <= m < 12
    ensures DaysBeforeMonth(y, m + 1) == DaysBeforeMonth(y, m) + DaysInMonth(y, m)
  {
  }

  /** Successive dates have successive day numbers: the day number counts days. */
  lemma NextDayNumber(dt: Date)
    requires ValidDate(dt)
    ensures ValidDate(NextDate(dt))
    ensures DayNumber(NextDate(dt).year, NextDate(dt).month, NextDate(dt).day)
         == DayNumber(dt.year, dt.month, dt.day) + 1
  {
    if dt.day == DaysInMonth(dt.year, dt.month) {
      if dt.month < 12 {
        MonthLength(dt.year, dt.month);
      } else {
        YearLength(dt.year);
      }
    }
  }

  /** Day numbers of a few fixed dates: the Unix epoch, the 1900 epoch the day
      pillar counts from, and 2000-03-01. */
  lemma KnownDayNumbers()
    ensures DayNumber(1970, 1, 1) == 0
    ensures DayNumber(1900, 1, 1) == -25567
    ensures DayNumber(2000, 3, 1) == 11017
  {
  }

  /** The largest |day number| a JavaScript Date can hold: 8.64e15 ms. */
  const MaxTimeDays := 100000000

  /** The year `new Date(y, ...)` uses: 0..99 mean 1900..1999. */
  function JsYear(y: int): (yr: int)
    ensures 0 <= y <= 99 ==> yr == 1900 + y
    ensures !(0 <= y <= 99) ==> yr == y
  {
    if 0 <= y <= 99 then 1900 + y else y
  }

  /** `new Date(y, monthIndex, dt)` at midnight as a day number, or None when the
      result is an Invalid Date (outside the range a Date can hold). The month index
      may overflow into other years and the day into other months. */
  function LocalDate(y: int, monthIndex: int, dt: int): (r: Option<int>)
    ensures r.Some? ==> -MaxTimeDays <= r.value <= MaxTimeDays
    ensures r.Some? && 0 <= monthIndex < 12 ==> r.value == DayNumber(JsYear(y), monthIndex + 1, dt)
  {
    var t := DayNumber(JsYear(y) + monthIndex / 12, monthIndex % 12 + 1, dt);
    if -MaxTimeDays <= t <= MaxTimeDays then Some(t) else None
  }

  /** For a valid date of a year from 1900 to 275000, `new Date(year, month - 1, day)`
      is exactly that date; a two-digit year is read as 1900 + year. */
  lemma LocalDateOfValidDate(dt: Date)
    requires ValidDate(dt)
    ensures 1900 <= dt.year <= 275000 ==>
      LocalDate(dt.year, dt.month - 1, dt.day) == Some(DayNumber(dt.year, dt.month, dt.day))
    ensures 0 <= dt.year <= 99 ==>
      LocalDate(dt.year, dt.month - 1, dt.day) == LocalDate(1900 + dt.year, dt.month - 1, dt.day)
  {
    var mi := dt.month - 1;
    assert mi / 12 == 0 && mi % 12 + 1 == dt.month;
    if 1900 <= dt.year <= 275000 {
      DayNumberRange(dt);
      assert JsYear(dt.year) + mi / 12 == dt.year;
    }
  }

  lemma DayNumberRange(dt: Date)
    requires ValidDate(dt)
    requires 1900 <= dt.year <= 275000
    ensures DayNumber(1900, 1, 1) <= DayNumber(dt.year, dt.month, dt.day) <= MaxTimeDays
  {
  }

  /** The 1900-01-01 epoch, `new Date(1900, 0, 1)`. */
  const Epoch1900: int := DayNumber(1900, 1, 1)

  /** `Math.floor((new Date(year, month - 1, day) - new Date(1900, 0, 1)) / 86400000)`,
      or None (NaN) when the first date is invalid. */
  function DaysSince1900(year: int, month: int, day: int): (r: Option<int>)
    ensures ValidDate(Date(year, month, day)) && 1900 <= year <= 275000 ==>
      r == Some(DayNumber(year, month, day) - Epoch1900) && r.value >= 0
  {
    assert ValidDate(Date(year, month, day)) && 1900 <= year <= 275000 ==>
      LocalDate(year, month - 1, day) == Some(DayNumber(year, month, day))
      && DayNumber(year, month, day) >= Epoch1900 by {
      if ValidDate(Date(year, month, day)) && 1900 <= year <= 275000 {
        LocalDateOfValidDate(Date(year, month, day));
        DayNumberRange(Date(year, month, day));
      }
    }
    match LocalDate(year, month - 1, day)
    case None => None
    case Some(t) => Some(t - Epoch1900)
  }

  /** `Math.floor((date - new Date(date.getFullYear(), 0, 0)) / 86400000)` for a
      date of year 100 or later: `new Date(y, 0, 0)` is December 31 of the year before. */
  function DayOfYear(dt: Date): (n: int)
    requires ValidDate(dt) && dt.year >= 100
    ensures 1 <= n <= if IsLeapYear(dt.year) then 366 else 365
  {
    DayNumber(dt.year, dt.month, dt.day) - DayNumber(dt.year, 1, 0)
  }

  /** January 1 is day 1, and the day of the year counts up by one until the year
      changes, when it starts again at 1. */
  lemma DayOfYearSteps(dt: Date)
    requires ValidDate(dt) && dt.year >= 100
    ensures DayOfYear(Date(dt.year, 1, 1)) == 1
    ensures NextDate(dt).year == dt.year ==> DayOfYear(NextDate(dt)) == DayOfYear(dt) + 1
    ensures NextDate(dt).year != dt.year ==> DayOfYear(NextDate(dt)) == 1
  {
    NextDayNumber(dt);
    if NextDate(dt).year == dt.year + 1 {
      YearLength(dt.year);
    }
  }
}
