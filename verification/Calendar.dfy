/** Day numbers, ISO week dates, and the year/week arithmetic that decides how old an index is. */
module Calendar {
  import opened Documents
  import opened TimeRanges

  // ----- the proleptic Gregorian calendar; day 0 is Monday, January 1 of year 1

  predicate IsLeap(y: int) {
    y % 4 == 0 && (y % 100 != 0 || y % 400 == 0)
  }

  /** Number of the first day of year `y`. */
  function YearStart(y: int): int {
    365 * (y - 1) + (y - 1) / 4 - (y - 1) / 100 + (y - 1) / 400
  }

  lemma FourthYear(y: int)
    ensures y / 4 == (y - 1) / 4 + if y % 4 == 0 then 1 else 0
  {
  }

  lemma HundredthYear(y: int)
    ensures y / 100 == (y - 1) / 100 + if y % 100 == 0 then 1 else 0
    ensures y % 100 == 0 ==> y % 4 == 0
  {
  }

  lemma FourHundredthYear(y: int)
    ensures y / 400 == (y - 1) / 400 + if y % 400 == 0 then 1 else 0
    ensures y % 400 == 0 ==> y % 100 == 0
  {
  }

  lemma YearLength(y: int)
    ensures YearStart(y + 1) == YearStart(y) + if IsLeap(y) then 366 else 365
  {
    FourthYear(y);
    HundredthYear(y);
    FourHundredthYear(y);
  }

  function YearFrom(n: int, y: int): (r: int)
    requires YearStart(y) <= n
    ensures YearStart(r) <= n < YearStart(r + 1)
    decreases n - YearStart(y)
  {
    YearLength(y);
    if n < YearStart(y + 1) then y else YearFrom(n, y + 1)
  }

  /** The calendar year of day `n`. */
  function YearOf(n: int): (y: int)
    ensures YearStart(y) <= n < YearStart(y + 1)
  {
    YearFrom(n, if n >= 0 then n / 366 + 1 else n / 365 + 1)
  }

  lemma {:induction false} YearStartsGrow(a: int, b: int)
    requires a < b
    ensures YearStart(a + 1) <= YearStart(b)
    decreases b - a
  {
    if a + 1 < b {
      YearStartsGrow(a, b - 1);
      YearLength(b - 1);
    }
  }

  lemma YearUnique(n: int, y: int)
    requires YearStart(y) <= n < YearStart(y + 1)
    ensures YearOf(n) == y
  {
    var z := YearOf(n);
    if z < y {
      YearStartsGrow(z, y);
    } else if y < z {
      YearStartsGrow(y, z);
    }
  }

  function YearDay(n: int): int {
    n - YearStart(YearOf(n)) + 1
  }

  /** January 1 of `year` plus `dayOfYear` - 1 days. */
  function DayNumber(year: int, dayOfYear: int): int {
    YearStart(year) + dayOfYear - 1
  }

  // ----- ISO weeks: Monday to Sunday, numbered in the year of their Thursday

  function Thursday(n: int): int {
    n - n % 7 + 3
  }

  function IsoYear(n: int): int {
    YearOf(Thursday(n))
  }

  function IsoWeek(n: int): int {
    (Thursday(n) - YearStart(IsoYear(n))) / 7 + 1
  }

  /** How many weeks day `n` is after the week of day 0. */
  function WeekIndex(n: int): int {
    n / 7
  }

  /** January 4 is always in week 1, and week numbers run from 1 to 53. */
  lemma IsoWeekRule(y: int, n: int)
    ensures IsoYear(DayNumber(y, 4)) == y && IsoWeek(DayNumber(y, 4)) == 1
    ensures 1 <= IsoWeek(n) <= 53
  {
    YearLength(y);
    YearUnique(Thursday(DayNumber(y, 4)), y);
    YearLength(IsoYear(n));
  }

  /** The days of one week share their week date. */
  lemma OneWeekOneDate(n: int, m: int)
    requires WeekIndex(n) == WeekIndex(m)
    ensures IsoYear(n) == IsoYear(m) && IsoWeek(n) == IsoWeek(m)
  {
    assert Thursday(n) == Thursday(m);
  }

  /** The Monday with which a week begins, counted on from the week of January 4. */
  function MondayOf(year: int, week: int): int {
    7 * WeekIndex(DayNumber(year, 4)) + 7 * (week - 1)
  }

  /** Every day lies in the week of its week date. */
  lemma DayOfWeek(n: int)
    ensures MondayOf(IsoYear(n), IsoWeek(n)) <= n < MondayOf(IsoYear(n), IsoWeek(n)) + 7
  {
    hide YearStart, YearOf;
    var t, first := Thursday(n), YearStart(IsoYear(n));
    var monday := 7 * ((first + 3) / 7);
    assert first <= monday + 3 <= first + 6;
    assert t % 7 == 3;
    WholeWeeks(t, monday + 3, first);
  }

  lemma WholeWeeks(t: int, thursday: int, first: int)
    requires t % 7 == 3 && thursday % 7 == 3 && first <= thursday <= first + 6
    ensures 7 * ((t - first) / 7) == t - thursday
  {
    var k := (t - thursday) / 7;
    assert t - thursday == 7 * k;
    assert t - first == 7 * k + (thursday - first);
  }

  /** Weeks of years that are not neighbours are more than a week apart. */
  lemma FarYears(year: int, week: int, later: int, week': int)
    requires 1 <= week <= 53 && 1 <= week' <= 53 && later >= year + 2
    ensures MondayOf(year, week) + 7 < MondayOf(later, week')
  {
    hide YearStart;
    YearStartsGrow(year + 1, later);
    YearLength(year);
    YearLength(year + 1);
  }

  /** The instant at which a day begins, in milliseconds since 1970. */
  function EpochOf(day: int): int {
    (day - YearStart(1970)) * DAY
  }

  lemma EpochIsAligned(day: int)
    ensures EpochOf(day) % DAY == 0 && EpochOf(day) % HOUR == 0
  {
    hide YearStart;
    MultipleMod(day - YearStart(1970), DAY);
    MultipleMod((day - YearStart(1970)) * 24, HOUR);
    assert (day - YearStart(1970)) * 24 * HOUR == EpochOf(day);
  }

  lemma EpochGrows(a: int, b: int)
    ensures EpochOf(a) <= EpochOf(b) <==> a <= b
  {
    hide YearStart;
  }

  // ----- the number the age test compares

  function WeekKey(year: int, week: int): int {
    year * 52 + week
  }

  predicate IsWeekDifferenceMoreThan(x: int, yearThis: int, weekThis: int, yearThat: int, weekThat: int) {
    WeekKey(yearThis, weekThis) - WeekKey(yearThat, weekThat) > x
  }

  function WeekKeyOf(n: int): int {
    WeekKey(IsoYear(n), IsoWeek(n))
  }

  /** From one week to the next the key grows by one, except that week 53 and the next week 1 share a key. */
  lemma NextWeek(n: int)
    ensures IsoYear(n + 7) == IsoYear(n) ==> WeekKeyOf(n + 7) == WeekKeyOf(n) + 1
    ensures IsoYear(n + 7) != IsoYear(n) ==>
      IsoYear(n + 7) == IsoYear(n) + 1 && WeekKeyOf(n + 7) == WeekKeyOf(n) + 53 - IsoWeek(n)
    ensures IsoYear(n + 7) != IsoYear(n) ==> IsoWeek(n) == 52 || IsoWeek(n) == 53
  {
    hide YearStart, YearOf;
    var t, y := Thursday(n), IsoYear(n);
    assert Thursday(n + 7) == t + 7;
    YearLength(y);
    YearLength(y + 1);
    YearUnique(t + 7, if t + 7 < YearStart(y + 1) then y else y + 1);
  }

  /** Over `k` weeks the key grows by at most `k`, and falls behind by at most one for each year passed. */
  lemma {:induction false} WeekKeyDrift(n: int, k: nat)
    ensures 0 <= WeekKeyOf(n + 7 * k) - WeekKeyOf(n) <= k
    ensures k - (WeekKeyOf(n + 7 * k) - WeekKeyOf(n)) <= IsoYear(n + 7 * k) - IsoYear(n)
  {
    hide IsoYear, IsoWeek, WeekKeyOf;
    if k > 0 {
      WeekKeyDrift(n, k - 1);
      NextWeek(n + 7 * (k - 1));
      assert n + 7 * (k - 1) + 7 == n + 7 * k;
    }
  }

  /** A positive week test is never wrong: the tested week really is more than `x` weeks before this one. */
  lemma WeekTestIsSafe(x: int, today: int, that: int)
    requires x >= 0
    requires IsWeekDifferenceMoreThan(x, IsoYear(today), IsoWeek(today), IsoYear(that), IsoWeek(that))
    ensures WeekIndex(today) > WeekIndex(that) + x
  {
    hide IsoYear, IsoWeek, WeekKey;
    var k := WeekIndex(today) - WeekIndex(that);
    if k >= 0 {
      WeekKeyDrift(that, k);
      OneWeekOneDate(today, that + 7 * k);
    } else {
      WeekKeyDrift(today, -k);
      OneWeekOneDate(that, today + 7 * -k);
    }
  }

  lemma {:induction false} YearDrift(n: int, k: nat)
    ensures IsoYear(n) <= IsoYear(n + 7 * k) <= IsoYear(n) + k
  {
    hide IsoYear, IsoWeek;
    if k > 0 {
      YearDrift(n, k - 1);
      NextWeek(n + 7 * (k - 1));
      assert n + 7 * (k - 1) + 7 == n + 7 * k;
    }
  }

  /** Within one ISO year the week test is exact: it compares the true distance with the threshold. */
  lemma WeekTestInYear(x: int, today: int, that: int)
    requires IsoYear(today) == IsoYear(that)
    ensures IsWeekDifferenceMoreThan(x, IsoYear(today), IsoWeek(today), IsoYear(that), IsoWeek(that)) <==>
            WeekIndex(today) - WeekIndex(that) > x
  {
    hide IsoYear, IsoWeek;
    var k := WeekIndex(today) - WeekIndex(that);
    if k >= 0 {
      WeekKeyDrift(that, k);
      OneWeekOneDate(today, that + 7 * k);
    } else {
      WeekKeyDrift(today, -k);
      OneWeekOneDate(that, today + 7 * -k);
    }
  }

  /** And it is never late by more than one week for each year passed. */
  lemma WeekTestReaches(x: int, today: int, that: int)
    requires x >= 0 && WeekIndex(today) - WeekIndex(that) > x + (IsoYear(today) - IsoYear(that))
    ensures IsWeekDifferenceMoreThan(x, IsoYear(today), IsoWeek(today), IsoYear(that), IsoWeek(that))
  {
    hide IsoYear, IsoWeek;
    var k := WeekIndex(today) - WeekIndex(that);
    if k >= 0 {
      WeekKeyDrift(that, k);
      OneWeekOneDate(today, that + 7 * k);
    } else {
      YearDrift(today, -k);
      OneWeekOneDate(that, today + 7 * -k);
    }
  }

  /** The year and week are those of some week of the calendar. */
  predicate RealWeek(year: int, week: int) {
    IsoYear(MondayOf(year, week)) == year && IsoWeek(MondayOf(year, week)) == week
  }

  /** Weeks 1 to 52 are in every year. */
  lemma WeeksAreReal(year: int, week: int)
    requires 1 <= week <= 52
    ensures RealWeek(year, week)
  {
    hide YearStart, YearOf;
    var first := YearStart(year);
    var monday := 7 * ((first + 3) / 7);
    assert MondayOf(year, week) == monday + 7 * (week - 1);
    assert Thursday(MondayOf(year, week)) == monday + 3 + 7 * (week - 1);
    YearLength(year);
    YearUnique(monday + 3 + 7 * (week - 1), year);
    WholeWeeks(monday + 3 + 7 * (week - 1), monday + 3, first);
  }

  // ----- days

  predicate IsDayDifferenceMoreThan(x: int, yearThis: int, dayThis: int, yearThat: int, dayThat: int) {
    yearThis * 365 + dayThis - (yearThat * 365 + dayThat) > x
  }

  function DayKeyOf(n: int): int {
    YearOf(n) * 365 + YearDay(n)
  }

  lemma NextDay(n: int)
    ensures YearOf(n + 1) == YearOf(n) ==> DayKeyOf(n + 1) == DayKeyOf(n) + 1
    ensures YearOf(n + 1) != YearOf(n) ==> YearOf(n + 1) == YearOf(n) + 1 && 0 <= DayKeyOf(n + 1) - DayKeyOf(n) <= 1
  {
    hide YearStart, YearOf;
    var y := YearOf(n);
    YearLength(y);
    YearLength(y + 1);
    YearUnique(n + 1, if n + 1 < YearStart(y + 1) then y else y + 1);
  }

  lemma {:induction false} DayKeyDrift(n: int, k: nat)
    ensures 0 <= DayKeyOf(n + k) - DayKeyOf(n) <= k
    ensures k - (DayKeyOf(n + k) - DayKeyOf(n)) <= YearOf(n + k) - YearOf(n)
  {
    hide YearOf, DayKeyOf;
    if k > 0 {
      DayKeyDrift(n, k - 1);
      NextDay(n + k - 1);
      assert n + (k - 1) == n + k - 1 && n + k - 1 + 1 == n + k;
    }
  }

  lemma KeyOfDay(n: int)
    ensures DayKeyOf(n) == YearOf(n) * 365 + YearDay(n)
  {
  }

  /** A day number from 1 on, also one past the end of its year, gives a key that is not below the true date's. */
  lemma KeyOfDate(year: int, day: int)
    requires 1 <= day
    ensures year * 365 + day >= DayKeyOf(DayNumber(year, day))
  {
    hide YearOf, DayKeyOf;
    YearLength(year);
    YearUnique(YearStart(year), year);
    KeyOfDay(YearStart(year));
    DayKeyDrift(YearStart(year), day - 1);
  }

  /** The day test never calls an index of this date older than it is, whatever today is. */
  ghost predicate DayTestSafe(year: int, day: int) {
    forall x: int, today: int :: x >= 0 && IsDayDifferenceMoreThan(x, YearOf(today), YearDay(today), year, day) ==>
      today > DayNumber(year, day) + x
  }

  /** The day test is safe for a date exactly when the key it compares is not below the true date's. */
  lemma DayTestSafeIff(year: int, day: int)
    ensures DayTestSafe(year, day) <==> year * 365 + day >= DayKeyOf(DayNumber(year, day))
  {
    hide YearStart, YearOf, YearDay, DayKeyOf, DayNumber;
    var that := DayNumber(year, day);
    KeyOfDay(that);
    if year * 365 + day >= DayKeyOf(that) {
      forall x: int, today: int | x >= 0 && IsDayDifferenceMoreThan(x, YearOf(today), YearDay(today), year, day)
        ensures today > that + x
      {
        KeyOfDay(today);
        if today >= that {
          DayKeyDrift(that, today - that);
        } else {
          DayKeyDrift(today, that - today);
        }
      }
    } else {
      assert IsDayDifferenceMoreThan(0, YearOf(that), YearDay(that), year, day);
    }
  }

  /** For every day number from 1 on the test is safe. */
  lemma DayTestIsSafe(x: int, today: int, year: int, day: int)
    requires x >= 0 && 1 <= day
    requires IsDayDifferenceMoreThan(x, YearOf(today), YearDay(today), year, day)
    ensures today > DayNumber(year, day) + x
  {
    hide YearStart, YearOf, YearDay, DayKeyOf, DayNumber;
    KeyOfDate(year, day);
    DayTestSafeIff(year, day);
  }

  /** The day is in that year. */
  predicate RealDate(year: int, day: int) {
    1 <= day && DayNumber(year, day) < YearStart(year + 1)
  }

  lemma KeyOfRealDate(year: int, day: int)
    requires RealDate(year, day)
    ensures YearOf(DayNumber(year, day)) == year && DayKeyOf(DayNumber(year, day)) == year * 365 + day
  {
    hide YearStart, YearOf;
    YearUnique(DayNumber(year, day), year);
  }

  lemma {:induction false} DayYearDrift(n: int, k: nat)
    ensures YearOf(n) <= YearOf(n + k) <= YearOf(n) + k
  {
    hide YearOf;
    if k > 0 {
      DayYearDrift(n, k - 1);
      NextDay(n + k - 1);
      assert n + (k - 1) == n + k - 1 && n + k - 1 + 1 == n + k;
    }
  }

  /** Within one year the day test is exact: it compares the true distance with the threshold. */
  lemma DayTestInYear(x: int, today: int, year: int, day: int)
    requires RealDate(year, day) && YearOf(today) == year
    ensures IsDayDifferenceMoreThan(x, YearOf(today), YearDay(today), year, day) <==> today - DayNumber(year, day) > x
  {
    hide YearStart, YearOf, YearDay, DayKeyOf, DayNumber;
    var that := DayNumber(year, day);
    KeyOfRealDate(year, day);
    KeyOfDay(today);
    if today >= that {
      DayKeyDrift(that, today - that);
    } else {
      DayKeyDrift(today, that - today);
    }
  }

  /** And it is never late by more than one day for each year passed. */
  lemma DayTestReaches(x: int, today: int, year: int, day: int)
    requires x >= 0 && RealDate(year, day) && today - DayNumber(year, day) > x + (YearOf(today) - year)
    ensures IsDayDifferenceMoreThan(x, YearOf(today), YearDay(today), year, day)
  {
    hide YearStart, YearOf, YearDay, DayKeyOf, DayNumber;
    var that := DayNumber(year, day);
    KeyOfRealDate(year, day);
    KeyOfDay(today);
    if today >= that {
      DayKeyDrift(that, today - that);
    } else {
      DayYearDrift(today, that - today);
    }
  }

  /** Day 0 after a leap year is not: the last day of that year is called older than it is. */
  lemma DayZeroMisread(year: int)
    requires IsLeap(year)
    ensures !DayTestSafe(year + 1, 0)
  {
    hide YearStart, YearOf, DayTestSafe;
    YearLength(year);
    YearUnique(YearStart(year + 1) - 1, year);
    DayTestSafeIff(year + 1, 0);
  }

  // ----- year-week numbers as map keys

  /** Go's integer division and remainder truncate toward zero. */
  function TruncDiv(a: int, b: int): int
    requires b > 0
  {
    if a >= 0 then a / b else -((-a) / b)
  }

  function YearWeekNumber(year: int, week: int): int {
    year * 100 + week
  }

  function SplitYearWeekNumber(yearWeek: int): (int, int) {
    (TruncDiv(yearWeek, 100), yearWeek - 100 * TruncDiv(yearWeek, 100))
  }

  /** Splitting gives back the week date exactly for years that are not negative. */
  lemma YearWeekRoundTripIff(year: int, week: int)
    requires 1 <= week <= 53
    ensures SplitYearWeekNumber(YearWeekNumber(year, week)) == (year, week) <==> year >= 0
  {
    var n := YearWeekNumber(year, week);
    if year < 0 {
      assert n < 0 && TruncDiv(n, 100) == -((-n) / 100);
      assert (-n) / 100 < -year;
    }
  }

  /** Two week dates share a number only if they are the same. */
  lemma YearWeekInjective(y: int, w: int, y': int, w': int)
    requires 1 <= w <= 53 && 1 <= w' <= 53 && YearWeekNumber(y, w) == YearWeekNumber(y', w')
    ensures y == y' && w == w'
  {
  }

  /** Two days have the same week date exactly when they are in the same Monday-to-Sunday week. */
  lemma SameWeekIff(n: int, m: int)
    ensures YearWeekNumber(IsoYear(n), IsoWeek(n)) == YearWeekNumber(IsoYear(m), IsoWeek(m)) <==>
            WeekIndex(n) == WeekIndex(m)
  {
    hide IsoYear, IsoWeek, YearWeekNumber, DayNumber;
    if WeekIndex(n) == WeekIndex(m) {
      OneWeekOneDate(n, m);
    } else if YearWeekNumber(IsoYear(n), IsoWeek(n)) == YearWeekNumber(IsoYear(m), IsoWeek(m)) {
      IsoWeekRule(0, n);
      IsoWeekRule(0, m);
      YearWeekInjective(IsoYear(n), IsoWeek(n), IsoYear(m), IsoWeek(m));
      DayOfWeek(n);
      DayOfWeek(m);
    }
  }

  // ----- known dates

  /** January 1, 1970 was a Thursday and is where instants count from; 2000 began on a Saturday. */
  lemma KnownDays()
    ensures DayNumber(1970, 1) % 7 == 3 && EpochOf(DayNumber(1970, 1)) == 0 && DayNumber(2000, 1) % 7 == 5
    ensures DayNumber(2000, 366) + 1 == DayNumber(2001, 1) && DayNumber(1900, 365) + 1 == DayNumber(1901, 1)
  {
  }

  /** January 20, 2025 is in week 4 of 2025, and January 1, 2021 in week 53 of 2020. */
  lemma KnownWeeks()
    ensures IsoYear(DayNumber(2025, 20)) == 2025 && IsoWeek(DayNumber(2025, 20)) == 4
    ensures IsoYear(DayNumber(2021, 1)) == 2020 && IsoWeek(DayNumber(2021, 1)) == 53
  {
    KnownYearStarts();
    hide YearStart, YearOf;
    YearUnique(Thursday(DayNumber(2025, 20)), 2025);
    YearUnique(Thursday(DayNumber(2021, 1)), 2020);
  }

  lemma KnownYearStarts()
    ensures YearStart(2025) == 739251 && YearStart(2026) == 739616
    ensures YearStart(2020) == 737424 && YearStart(2021) == 737790
  {
  }
}
