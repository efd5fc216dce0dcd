/**
 * UTC calendar arithmetic on the proleptic Gregorian calendar, with days
 * counted from 1970-01-01 (day 0). This is the breakdown that turns an
 * epoch-millisecond timestamp into the year, month, day, hour, minute and
 * second columns of a location record. No time zone is applied.
 */
module Calendar {

  const MillisPerSecond: int := 1000
  const MillisPerMinute: int := 60_000
  const MillisPerHour: int := 3_600_000
  const MillisPerDay: int := 86_400_000

  predicate IsLeapYear(y: int) {
    y % 4 == 0 && (y % 100 != 0 || y % 400 == 0)
  }

  function DaysInYear(y: int): int {
    if IsLeapYear(y) then 366 else 365
  }

  function DaysInMonth(y: int, m: int): int
    requires 1 <= m <= 12
  {
    if m == 2 then (if IsLeapYear(y) then 29 else 28)
    else if m == 4 || m == 6 || m == 9 || m == 11 then 30
    else 31
  }

  /** Days of year y that lie in the months before month m; m == 13 gives the whole year. */
  function DaysBeforeMonth(y: int, m: int): int
    requires 1 <= m <= 13
  {
    var common := [0, 31, 59, 90, 120, 151, 181, 212, 243, 273, 304, 334, 365][m - 1];
    if m > 2 && IsLeapYear(y) then common + 1 else common
  }

  /** Number of leap years among the years 1..n (negated count of those in n+1..0 when n < 0). */
  function LeapYearsThrough(n: int): int {
    n / 4 - n / 100 + n / 400
  }

  /** Days from 1970-01-01 to January 1 of year y; negative for years before 1970. */
  function DaysBeforeYear(y: int): int {
    365 * (y - 1970) + LeapYearsThrough(y - 1) - LeapYearsThrough(1969)
  }

  datatype Date = Date(year: int, month: int, day: int)

  predicate ValidDate(d: Date) {
    1 <= d.month <= 12 && 1 <= d.day <= DaysInMonth(d.year, d.month)
  }

  /** Days from 1970-01-01 to date d. */
  function DaysFromCivil(d: Date): int
    requires ValidDate(d)
  {
    DaysBeforeYear(d.year) + DaysBeforeMonth(d.year, d.month) + d.day - 1
  }

  lemma DaysBeforeMonthStep(y: int, m: int)
    requires 1 <= m <= 12
    ensures DaysBeforeMonth(y, m + 1) == DaysBeforeMonth(y, m) + DaysInMonth(y, m)
    ensures DaysBeforeMonth(y, 13) == DaysInYear(y)
  {
  }

  lemma DaysBeforeMonthMonotone(y: int, a: int, b: int)
    requires 1 <= a <= b <= 13
    ensures DaysBeforeMonth(y, a) <= DaysBeforeMonth(y, b)
  {
  }

  /** Year y contributes one day more to the count exactly when it is a leap year. */
  lemma {:induction false} DaysBeforeYearStep(y: int)
    ensures DaysBeforeYear(y + 1) == DaysBeforeYear(y) + DaysInYear(y)
  {
    var n := y - 1;
    assert n / 4 == (n + 1) / 4 - (if y % 4 == 0 then 1 else 0);
    assert n / 100 == (n + 1) / 100 - (if y % 100 == 0 then 1 else 0);
    assert n / 400 == (n + 1) / 400 - (if y % 400 == 0 then 1 else 0);
  }

  /**
   * Four centuries hold exactly 146097 days; DaysBeforeYear stays within a
   * couple of days of that average rate.
   */
  lemma {:induction false} DaysBeforeYearBounds(y: int)
    ensures 146097 * (y - 1970) - 506 <= 400 * DaysBeforeYear(y) <= 146097 * (y - 1970) + 589
  {
    var n := y - 1;
    assert 400 * (n / 4) == 100 * n - 100 * (n % 4);
    assert 400 * (n / 100) == 4 * n - 4 * (n % 100);
    assert 400 * (n / 400) == n - n % 400;
    assert 400 * LeapYearsThrough(n) == 97 * n - 100 * (n % 4) + 4 * (n % 100) - n % 400;
    assert LeapYearsThrough(1969) == 477;
  }

  /** DaysBeforeYear is strictly increasing. */
  lemma DaysBeforeYearIncreasing(a: int, b: int)
    requires a < b
    ensures DaysBeforeYear(a) < DaysBeforeYear(b)
  {
    DaysBeforeYearBounds(a);
    DaysBeforeYearBounds(b);
  }

  /** The year that contains day z (days since 1970-01-01). */
  function YearOf(z: int): (y: int)
    ensures DaysBeforeYear(y) <= z < DaysBeforeYear(y + 1)
  {
    var guess := 1970 + (400 * z) / 146097;
    DaysBeforeYearBounds(guess - 1);
    DaysBeforeYearBounds(guess + 2);
    if z < DaysBeforeYear(guess) then guess - 1
    else if DaysBeforeYear(guess + 1) <= z then guess + 1
    else guess
  }

  lemma YearOfUnique(y: int, z: int)
    requires DaysBeforeYear(y) <= z < DaysBeforeYear(y + 1)
    ensures YearOf(z) == y
  {
    var x := YearOf(z);
    if x < y {
      if x + 1 < y { DaysBeforeYearIncreasing(x + 1, y); }
    } else if y < x {
      if y + 1 < x { DaysBeforeYearIncreasing(y + 1, x); }
    }
  }

  /** The month, from m on, of year y that holds day doy (0-based day of the year). */
  function MonthFrom(y: int, doy: int, m: int): (r: int)
    requires 1 <= m <= 12
    requires DaysBeforeMonth(y, m) <= doy < DaysInYear(y)
    ensures m <= r <= 12
    ensures DaysBeforeMonth(y, r) <= doy < DaysBeforeMonth(y, r + 1)
    decreases 12 - m
  {
    if m == 12 || doy < DaysBeforeMonth(y, m + 1) then m else MonthFrom(y, doy, m + 1)
  }

  lemma MonthFromUnique(y: int, doy: int, m: int)
    requires 1 <= m <= 12
    requires DaysBeforeMonth(y, m) <= doy < DaysBeforeMonth(y, m + 1)
    ensures MonthFrom(y, doy, 1) == m
  {
    DaysBeforeMonthStep(y, m);
    DaysBeforeMonthMonotone(y, m + 1, 13);
    var r := MonthFrom(y, doy, 1);
    if r < m {
      DaysBeforeMonthMonotone(y, r + 1, m);
    } else if m < r {
      DaysBeforeMonthMonotone(y, m + 1, r);
    }
  }

  /** The date of day z (days since 1970-01-01). */
  function CivilFromDays(z: int): (d: Date)
    ensures ValidDate(d) && DaysFromCivil(d) == z
  {
    var y := YearOf(z);
    DaysBeforeYearStep(y);
    var doy := z - DaysBeforeYear(y);
    var m := MonthFrom(y, doy, 1);
    DaysBeforeMonthStep(y, m);
    Date(y, m, doy - DaysBeforeMonth(y, m) + 1)
  }

  /** Each valid date is the date of exactly one day count. */
  lemma CivilFromDaysInverse(d: Date)
    requires ValidDate(d)
    ensures CivilFromDays(DaysFromCivil(d)) == d
  {
    var z := DaysFromCivil(d);
    DaysBeforeMonthStep(d.year, d.month);
    DaysBeforeMonthMonotone(d.year, d.month + 1, 13);
    DaysBeforeYearStep(d.year);
    YearOfUnique(d.year, z);
    MonthFromUnique(d.year, z - DaysBeforeYear(d.year), d.month);
  }

  /** The calendar fields the breakdown of a timestamp produces. */
  datatype DateTime = DateTime(year: int, month: int, day: int, hour: int, minute: int, second: int)

  function DateOf(t: DateTime): Date {
    Date(t.year, t.month, t.day)
  }

  predicate ValidDateTime(t: DateTime) {
    && ValidDate(DateOf(t))
    && 0 <= t.hour < 24
    && 0 <= t.minute < 60
    && 0 <= t.second < 60
  }

  /** Milliseconds since 1970-01-01T00:00:00Z at the start of the second t names. */
  function EpochMillis(t: DateTime): int
    requires ValidDateTime(t)
  {
    DaysFromCivil(DateOf(t)) * MillisPerDay
      + t.hour * MillisPerHour + t.minute * MillisPerMinute + t.second * MillisPerSecond
  }

  /**
   * The UTC calendar fields of an epoch-millisecond timestamp; the
   * milliseconds below one second are dropped.
   */
  function UtcBreakdown(ms: int): (t: DateTime)
    ensures ValidDateTime(t)
    ensures 0 <= ms - EpochMillis(t) < MillisPerSecond
  {
    var days, msOfDay := ms / MillisPerDay, ms % MillisPerDay;
    var date := CivilFromDays(days);
    var hms := TimeOfDay(msOfDay);
    DateTime(date.year, date.month, date.day, hms.0, hms.1, hms.2)
  }

  /** The hour, minute and second of the time msOfDay milliseconds after midnight. */
  function TimeOfDay(msOfDay: int): (hms: (int, int, int))
    requires 0 <= msOfDay < MillisPerDay
    ensures 0 <= hms.0 < 24 && 0 <= hms.1 < 60 && 0 <= hms.2 < 60
    ensures 0 <= msOfDay - (hms.0 * MillisPerHour + hms.1 * MillisPerMinute + hms.2 * MillisPerSecond) < MillisPerSecond
  {
    var hour, inHour := msOfDay / MillisPerHour, msOfDay % MillisPerHour;
    var minute, inMinute := inHour / MillisPerMinute, inHour % MillisPerMinute;
    (hour, minute, inMinute / MillisPerSecond)
  }

  /** The breakdown is the only valid set of fields whose second contains ms. */
  lemma UtcBreakdownUnique(ms: int, t: DateTime)
    requires ValidDateTime(t)
    requires 0 <= ms - EpochMillis(t) < MillisPerSecond
    ensures UtcBreakdown(ms) == t
  {
    var days := DaysFromCivil(DateOf(t));
    var msOfDay := ms - days * MillisPerDay;
    assert 0 <= msOfDay < MillisPerDay;
    assert ms / MillisPerDay == days;
    assert ms % MillisPerDay == msOfDay;
    CivilFromDaysInverse(DateOf(t));
  }
}
