/**
 * Civil (proleptic Gregorian) dates as the JavaScript `Date` accessors see them in
 * local time: a year, a 0-based month (`getMonth`, 0 = January) and a 1-based day of
 * the month (`getDate`), plus the milliseconds elapsed since local midnight.
 * Time zones and daylight-saving shifts are not modelled: every day has
 * `MsPerDay` milliseconds. Every year is read as written, although `new Date(y, m, d)`
 * takes years 0 to 99 as 1900 to 1999.
 */
module CivilDates {

  const MsPerDay: int := 86_400_000

  predicate IsLeapYear(y: int) {
    y % 4 == 0 && (y % 100 != 0 || y % 400 == 0)
  }

  /** Length of month `m` (0-based) of year `y`: what `new Date(y, m + 1, 0).getDate()` yields. */
  function DaysInMonth(y: int, m: int): (n: int)
    requires 0 <= m < 12
    ensures 28 <= n <= 31
    ensures n == 29 <==> m == 1 && IsLeapYear(y)
  {
    [31, if IsLeapYear(y) then 29 else 28, 31, 30, 31, 30, 31, 31, 30, 31, 30, 31][m]
  }

  datatype Date = Date(year: int, month: int, day: int)

  predicate ValidDate(d: Date) {
    0 <= d.month < 12 && 1 <= d.day <= DaysInMonth(d.year, d.month)
  }

  /** A date that a JavaScript `Date` can denote. */
  type CivilDate = d: Date | ValidDate(d) witness Date(1970, 0, 1)

  type TimeOfDay = t: int | 0 <= t < MsPerDay

  /** A JavaScript `Date` value, read through its local-time accessors. */
  datatype DateTime = DateTime(date: CivilDate, msOfDay: TimeOfDay)

  /** Lexicographic order on (year, month, day): the calendar's order of days. */
  predicate Before(a: Date, b: Date) {
    a.year < b.year
    || (a.year == b.year && a.month < b.month)
    || (a.year == b.year && a.month == b.month && a.day < b.day)
  }

  /** Days in the years before `y`, counted from a fixed origin. */
  function DaysBeforeYear(y: int): int {
    365 * y + (y - 1) / 4 - (y - 1) / 100 + (y - 1) / 400
  }

  /** Days in the months of year `y` before month `m`. */
  function DaysBeforeMonth(y: int, m: int): int
    requires 0 <= m <= 12
  {
    [0, 31, 59, 90, 120, 151, 181, 212, 243, 273, 304, 334, 365][m]
    + (if m >= 2 && IsLeapYear(y) then 1 else 0)
  }

  /**
   * The ordinal of a day, so that consecutive days have consecutive numbers. Midnight
   * of `d` is `DayNumber(d) * MsPerDay` milliseconds from the origin, which is how the
   * source compares dates (by `getTime`).
   */
  function DayNumber(d: CivilDate): int {
    DaysBeforeYear(d.year) + DaysBeforeMonth(d.year, d.month) + d.day - 1
  }

  /** Milliseconds of local midnight of `d`: `new Date(y, m, day).getTime()` up to a fixed offset. */
  function Midnight(d: CivilDate): int {
    DayNumber(d) * MsPerDay
  }

  lemma DaysBeforeNextMonth(y: int, m: int)
    requires 0 <= m < 12
    ensures DaysBeforeMonth(y, m + 1) == DaysBeforeMonth(y, m) + DaysInMonth(y, m)
  {
  }

  /** A year adds 365 days, 366 when it is a leap year. */
  lemma {:induction false} DaysBeforeNextYear(y: int)
    ensures DaysBeforeYear(y + 1) == DaysBeforeYear(y) + DaysBeforeMonth(y, 12)
  {
    assert y / 4 - (y - 1) / 4 == (if y % 4 == 0 then 1 else 0);
    assert y / 100 - (y - 1) / 100 == (if y % 100 == 0 then 1 else 0);
    assert y / 400 - (y - 1) / 400 == (if y % 400 == 0 then 1 else 0);
  }

  lemma {:induction false} DaysBeforeYearGrows(a: int, b: int)
    requires a <= b
    ensures DaysBeforeYear(a) + 365 * (b - a) <= DaysBeforeYear(b)
    decreases b - a
  {
    if a < b {
      DaysBeforeNextYear(a);
      DaysBeforeYearGrows(a + 1, b);
    }
  }

  lemma DaysBeforeMonthGrows(y: int, m: int, n: int)
    requires 0 <= m <= n <= 12
    ensures DaysBeforeMonth(y, m) <= DaysBeforeMonth(y, n)
  {
  }

  /** A date lies inside its year: its ordinal is below that of the next New Year's Day. */
  lemma DayNumberWithinYear(d: CivilDate)
    ensures DaysBeforeYear(d.year) <= DayNumber(d) < DaysBeforeYear(d.year + 1)
  {
    DaysBeforeNextMonth(d.year, d.month);
    DaysBeforeMonthGrows(d.year, d.month + 1, 12);
    DaysBeforeNextYear(d.year);
  }

  /** Comparing midnights is comparing civil dates: the day ordinal is strictly monotone. */
  lemma DayNumberMonotone(a: CivilDate, b: CivilDate)
    requires Before(a, b)
    ensures DayNumber(a) < DayNumber(b)
  {
    if a.year < b.year {
      DayNumberWithinYear(a);
      DayNumberWithinYear(b);
      DaysBeforeYearGrows(a.year + 1, b.year);
    } else if a.month < b.month {
      DaysBeforeNextMonth(a.year, a.month);
      DaysBeforeMonthGrows(a.year, a.month + 1, b.month);
    }
  }

  /** Both directions: ordinals order civil dates exactly as the calendar does, and are injective. */
  lemma DayNumberOrder(a: CivilDate, b: CivilDate)
    ensures DayNumber(a) < DayNumber(b) <==> Before(a, b)
    ensures DayNumber(a) == DayNumber(b) <==> a == b
  {
    if Before(a, b) {
      DayNumberMonotone(a, b);
    } else if Before(b, a) {
      DayNumberMonotone(b, a);
    }
  }

  /** The day after `d`, rolling over into the next month and the next year. */
  function NextDay(d: CivilDate): (r: CivilDate)
    ensures DayNumber(r) == DayNumber(d) + 1
    ensures Before(d, r)
  {
    if d.day < DaysInMonth(d.year, d.month) then
      Date(d.year, d.month, d.day + 1)
    else if d.month < 11 then
      DaysBeforeNextMonth(d.year, d.month);
      Date(d.year, d.month + 1, 1)
    else
      DaysBeforeNextYear(d.year);
      Date(d.year + 1, 0, 1)
  }

  /** `n` days after `d`: the effect of `setDate(getDate() + n)`, whose overflow rolls into later months. */
  function AddDays(d: CivilDate, n: nat): (r: CivilDate)
    ensures DayNumber(r) == DayNumber(d) + n
    ensures n > 0 ==> Before(d, r)
    decreases n
  {
    if n == 0 then d
    else
      var r := AddDays(NextDay(d), n - 1);
      DayNumberOrder(d, r);
      r
  }

  /** Day of the week as `Date.getDay` numbers it: 0 is Sunday, 1 Monday, …, 6 Saturday. */
  function Weekday(d: CivilDate): (w: int)
    ensures 0 <= w < 7
  {
    DayNumber(d) % 7
  }

  /** Anchors `Weekday` to the calendar: 1 January 1970 was a Thursday. */
  lemma EpochIsThursday()
    ensures Weekday(Date(1970, 0, 1)) == 4
  {
  }

  lemma ShiftMod7(n: int, k: int)
    ensures (n + k) % 7 == (n % 7 + k) % 7
  {
    var q := n / 7;
    assert n + k == 7 * q + (n % 7 + k);
  }

  /** Consecutive days have consecutive weekdays. */
  lemma WeekdayOfNextDay(d: CivilDate)
    ensures Weekday(NextDay(d)) == (Weekday(d) + 1) % 7
  {
    ShiftMod7(DayNumber(d), 1);
  }

  /** `k` days later the weekday has advanced by `k`, modulo 7. */
  lemma WeekdayOfAddDays(d: CivilDate, k: nat)
    ensures Weekday(AddDays(d, k)) == (Weekday(d) + k) % 7
  {
    ShiftMod7(DayNumber(d), k);
  }

  /** The first of the month after (y, m) comes `DaysInMonth(y, m)` days after the first of (y, m). */
  lemma NextMonthStartNumber(y: int, m: int)
    requires 0 <= m < 12
    ensures var next: CivilDate := if m < 11 then Date(y, m + 1, 1) else Date(y + 1, 0, 1);
      DayNumber(next) == DayNumber(Date(y, m, 1)) + DaysInMonth(y, m)
  {
    DaysBeforeNextMonth(y, m);
    if m == 11 {
      DaysBeforeNextYear(y);
    }
  }

  /** Adding a month's length to its first day gives the first of the next month. */
  lemma NextMonthStart(y: int, m: int)
    requires 0 <= m < 12
    ensures var next := if m < 11 then Date(y, m + 1, 1) else Date(y + 1, 0, 1);
      AddDays(Date(y, m, 1), DaysInMonth(y, m)) == next
  {
    var next: CivilDate := if m < 11 then Date(y, m + 1, 1) else Date(y + 1, 0, 1);
    NextMonthStartNumber(y, m);
    DayNumberOrder(AddDays(Date(y, m, 1), DaysInMonth(y, m)), next);
  }
}
