/**
 PHP's `mktime(hour, minute, second, month, day, year)` in UTC on the
 proleptic Gregorian calendar: seconds since 1970-01-01 00:00:00. Every
 field may lie outside its usual range and is carried into the next larger
 one, so day 0 of a month is the last day of the month before and month 13
 is January of the next year. A year from 0 to 69 means 2000 to 2069 and one
 from 70 to 100 means 1970 to 2000.
 */
module Calendar {

  const SECONDS_PER_DAY := 86400

  predicate IsLeapYear(y: int) {
    y % 4 == 0 && (y % 100 != 0 || y % 400 == 0)
  }

  function DaysInMonth(y: int, m: int): (r: int)
    requires 1 <= m <= 12
    ensures 28 <= r <= 31
    ensures m == 2 ==> (r == 29 <==> IsLeapYear(y))
  {
    if m == 2 then (if IsLeapYear(y) then 29 else 28)
    else if m == 4 || m == 6 || m == 9 || m == 11 then 30
    else 31
  }

  /** Days of year `y` before the first of month `m`. */
  function DaysBeforeMonth(y: int, m: int): int
    requires 1 <= m <= 12
  {
    var leap := if IsLeapYear(y) then 1 else 0;
    match m
    case 1 => 0
    case 2 => 31
    case 3 => 59 + leap
    case 4 => 90 + leap
    case 5 => 120 + leap
    case 6 => 151 + leap
    case 7 => 181 + leap
    case 8 => 212 + leap
    case 9 => 243 + leap
    case 10 => 273 + leap
    case 11 => 304 + leap
    case _ => 334 + leap
  }

  /** Leap years from year 1 up to `y - 1` (negative for years before 1). */
  function LeapYearsBefore(y: int): int {
    (y - 1) / 4 - (y - 1) / 100 + (y - 1) / 400
  }

  /** Days from 1970-01-01 to the first of January of `y`. */
  function DaysBeforeYear(y: int): int {
    365 * (y - 1970) + LeapYearsBefore(y) - LeapYearsBefore(1970)
  }

  /** Days from 1970-01-01 to the date `y`-`m`-`d`, `d` counted from 1. */
  function DayNumber(y: int, m: int, d: int): int
    requires 1 <= m <= 12
  {
    DaysBeforeYear(y) + DaysBeforeMonth(y, m) + d - 1
  }

  /**
   PHP's reading of a two-digit year: the year from 1970 to 2069 with the
   same last two digits. Any other year is taken as given.
   */
  function FullYear(year: int): (r: int)
    ensures r % 100 == year % 100
    ensures 0 <= year <= 100 ==> 1970 <= r <= 2069
  {
    if 0 <= year < 70 then year + 2000
    else if 70 <= year <= 100 then year + 1900
    else year
  }

  /** A year written in full reads as itself, so both spellings give the same instant. */
  lemma FullYearIdempotent(hour: int, minute: int, second: int, month: int, day: int, year: int)
    ensures FullYear(FullYear(year)) == FullYear(year)
    ensures MkTime(hour, minute, second, month, day, FullYear(year))
         == MkTime(hour, minute, second, month, day, year)
  {
  }

  /** The year and month (1 to 12) that month `month` of `year` denotes. */
  function NormalMonth(year: int, month: int): (r: (int, int))
    ensures 1 <= r.1 <= 12
    ensures 12 * r.0 + r.1 == 12 * FullYear(year) + month
  {
    (FullYear(year) + (month - 1) / 12, (month - 1) % 12 + 1)
  }

  function MkTime(hour: int, minute: int, second: int, month: int, day: int, year: int): int {
    var (y, m) := NormalMonth(year, month);
    (DayNumber(y, m, 1) + day - 1) * SECONDS_PER_DAY + hour * 3600 + minute * 60 + second
  }

  /** The quotients by 4, 100 and 400 go up by one exactly at their multiples. */
  lemma DivSteps(y: int)
    ensures y / 4 - (y - 1) / 4 == if y % 4 == 0 then 1 else 0
    ensures y / 100 - (y - 1) / 100 == if y % 100 == 0 then 1 else 0
    ensures y / 400 - (y - 1) / 400 == if y % 400 == 0 then 1 else 0
  {
  }

  /** A year has 366 days exactly when it is a leap year. */
  lemma YearLength(y: int)
    ensures DaysBeforeYear(y + 1) - DaysBeforeYear(y) == if IsLeapYear(y) then 366 else 365
  {
    DivSteps(y);
  }

  /** The months of a year are consecutive and fill the year. */
  lemma MonthStart(y: int, m: int)
    requires 1 <= m <= 12
    ensures m < 12 ==> DayNumber(y, m + 1, 1) == DayNumber(y, m, 1) + DaysInMonth(y, m)
    ensures m == 12 ==> DayNumber(y + 1, 1, 1) == DayNumber(y, m, 1) + DaysInMonth(y, m)
  {
    YearLength(y);
  }

  /**
   Day 0 of the following month is the last day of a month, also in
   December, where the following month is January of the next year.
   */
  lemma {:induction false} DayZeroIsLastDay(hour: int, minute: int, second: int, month: int, year: int)
    ensures var (y, m) := NormalMonth(year, month);
      MkTime(hour, minute, second, month + 1, 0, year) == MkTime(hour, minute, second, month, DaysInMonth(y, m), year)
  {
    var (y, m) := NormalMonth(year, month);
    var (y', m') := NormalMonth(year, month + 1);
    MonthStart(y, m);
    if m < 12 {
      assert y' == y && m' == m + 1;
    } else {
      assert y' == y + 1 && m' == 1;
    }
  }

  /** An instant `s` seconds into day `days` lies on that day, `s` seconds after its midnight. */
  lemma InDay(days: int, s: int)
    requires 0 <= s < SECONDS_PER_DAY
    ensures (days * SECONDS_PER_DAY + s) / SECONDS_PER_DAY == days
    ensures (days * SECONDS_PER_DAY + s) % SECONDS_PER_DAY == s
  {
  }

  /** The time of day of `MkTime` is the one it was given, when in range. */
  lemma TimeOfDay(hour: int, minute: int, second: int, month: int, day: int, year: int)
    requires 0 <= hour < 24 && 0 <= minute < 60 && 0 <= second < 60
    ensures var t := MkTime(hour, minute, second, month, day, year);
      t % SECONDS_PER_DAY == hour * 3600 + minute * 60 + second &&
      t / SECONDS_PER_DAY == MkTime(0, 0, 0, month, day, year) / SECONDS_PER_DAY
  {
    var (y, m) := NormalMonth(year, month);
    var days := DayNumber(y, m, 1) + day - 1;
    var s := hour * 3600 + minute * 60 + second;
    assert MkTime(hour, minute, second, month, day, year) == days * SECONDS_PER_DAY + s;
    assert MkTime(0, 0, 0, month, day, year) == days * SECONDS_PER_DAY + 0;
    InDay(days, s);
    InDay(days, 0);
  }

  /** Known instants: the epoch and the last second of 32-bit time. */
  lemma KnownInstants()
    ensures MkTime(0, 0, 0, 1, 1, 1970) == 0
    ensures MkTime(3, 14, 7, 1, 19, 2038) == 0x7fff_ffff
  {
    assert FullYear(1970) == 1970 && FullYear(2038) == 2038;
    assert LeapYearsBefore(1970) == 477 && LeapYearsBefore(2038) == 494;
  }

  /** Known days: a leap day, a two-digit year and a year before the epoch. */
  lemma KnownDays()
    ensures MkTime(0, 0, 0, 2, 29, 2000) == 951782400
    ensures MkTime(0, 0, 0, 3, 1, 24) == 1709251200
    ensures MkTime(0, 0, 0, 1, 1, 1969) == -31536000
  {
    assert FullYear(2000) == 2000 && FullYear(24) == 2024 && FullYear(1969) == 1969;
    assert LeapYearsBefore(1970) == 477 && LeapYearsBefore(1969) == 477;
    assert LeapYearsBefore(2000) == 484 && LeapYearsBefore(2024) == 490;
  }
}
