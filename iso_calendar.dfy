/**
 * Calendar arithmetic behind `expense.date.date().isocalendar()`: the
 * proleptic Gregorian day ordinal of Python's `datetime.date` (0001-01-01 is
 * day 1, a Monday) and the ISO 8601 week date computed from it.
 *
 * `IsoCalendarAt` follows the library algorithm (find the Monday of week 1 of
 * the date's Gregorian year, divide the distance by 7, correct into the
 * previous or next ISO year). `IsIsoWeekOf` is an independent statement of
 * ISO 8601:2004 section 3.2.2: a week runs Monday to Sunday, it belongs to the
 * Gregorian year that holds its Thursday, and week 1 is the week holding that
 * year's first Thursday. `IsoWeekMatchesStandard` proves the two agree.
 */
module IsoCalendar {

  const MinYear := 1
  const MaxYear := 9999

  datatype Date = Date(year: int, month: int, day: int)

  predicate IsLeapYear(y: int) {
    y % 4 == 0 && (y % 100 != 0 || y % 400 == 0)
  }

  function DaysInYear(y: int): int {
    if IsLeapYear(y) then 366 else 365
  }

  function DaysInMonth(y: int, m: int): (n: int)
    requires 1 <= m <= 12
    ensures 28 <= n <= 31
  {
    if m == 2 then (if IsLeapYear(y) then 29 else 28)
    else if m == 4 || m == 6 || m == 9 || m == 11 then 30
    else 31
  }

  predicate IsValidDate(d: Date) {
    MinYear <= d.year <= MaxYear && 1 <= d.month <= 12 && 1 <= d.day <= DaysInMonth(d.year, d.month)
  }

  /** A calendar date Python's `datetime.date` can hold. */
  type CalendarDate = d: Date | IsValidDate(d) witness Date(2000, 1, 1)

  /** Days in the years before `y` (year 1 starts at 0). */
  function DaysBeforeYear(y: int): int {
    var y1 := y - 1;
    y1 * 365 + y1 / 4 - y1 / 100 + y1 / 400
  }

  /** Days in year `y` before the first of month `m`. */
  function DaysBeforeMonth(y: int, m: int): (n: int)
    requires 1 <= m <= 12
    ensures 0 <= n && n + DaysInMonth(y, m) <= DaysInYear(y)
  {
    var common := [0, 31, 59, 90, 120, 151, 181, 212, 243, 273, 304, 334][m - 1];
    common + (if m > 2 && IsLeapYear(y) then 1 else 0)
  }

  /** Day number of `d`; 0001-01-01 is day 1. */
  function Ordinal(d: Date): int
    requires 1 <= d.month <= 12
  {
    DaysBeforeYear(d.year) + DaysBeforeMonth(d.year, d.month) + d.day
  }

  /** Day number of the first of January of `y`. */
  function NewYear(y: int): int {
    DaysBeforeYear(y) + 1
  }

  /** Weekday of day number `n`: Monday is 0, Sunday is 6. */
  function Weekday(n: int): (wd: int)
    ensures 0 <= wd < 7
  {
    (n + 6) % 7
  }

  /** Day number of the Monday that starts ISO week 1 of `y`, as the library computes it. */
  function IsoWeek1Monday(y: int): int {
    var firstDay := NewYear(y);
    var firstWeekday := Weekday(firstDay);
    var monday := firstDay - firstWeekday;
    if firstWeekday > 3 then monday + 7 else monday
  }

  /** The library's ISO calendar triple (ISO year, ISO week, ISO weekday 1..7). */
  function IsoCalendarOf(d: CalendarDate): (c: (int, int, int))
    ensures d.year - 1 <= c.0 <= d.year + 1
    ensures 1 <= c.2 <= 7
    ensures c.0 == d.year + 1 ==> c.1 == 1
  {
    IsoCalendarAt(d.year, Ordinal(d))
  }

  /** The ISO calendar triple of day number `today`, which lies in Gregorian year `year`. */
  function IsoCalendarAt(year: int, today: int): (c: (int, int, int))
    ensures year - 1 <= c.0 <= year + 1
    ensures 1 <= c.2 <= 7
    ensures c.0 == year + 1 ==> c.1 == 1
    ensures c.0 == year ==> c.1 >= 1
  {
    var week1Monday := IsoWeek1Monday(year);
    var week := (today - week1Monday) / 7;
    var day := (today - week1Monday) % 7;
    if week < 0 then
      var previousMonday := IsoWeek1Monday(year - 1);
      (year - 1, (today - previousMonday) / 7 + 1, (today - previousMonday) % 7 + 1)
    else if week >= 52 && today >= IsoWeek1Monday(year + 1) then
      (year + 1, 1, day + 1)
    else
      (year, week + 1, day + 1)
  }

  /** The `(iso_year, iso_week)` prefix of the ISO calendar triple. */
  function IsoYearWeek(d: CalendarDate): (int, int) {
    var c := IsoCalendarOf(d);
    (c.0, c.1)
  }

  /** Day number of the Thursday in the Monday-to-Sunday week holding day `n`. */
  function ThursdayOfWeek(n: int): int {
    n - Weekday(n) + 3
  }

  /**
   * ISO 8601 week date, stated from the standard rather than from the
   * library: `d`'s week has its Thursday in Gregorian year `y`, and `w`
   * counts that Thursday among the Thursdays of `y`.
   */
  predicate IsIsoWeekOf(d: CalendarDate, y: int, w: int) {
    var thursday := ThursdayOfWeek(Ordinal(d));
    NewYear(y) <= thursday < NewYear(y + 1) && w == (thursday - NewYear(y)) / 7 + 1
  }

  // ---------------------------------------------------------------------------
  // Year lengths

  /** Stepping from `y - 1` to `y` raises `y / k` exactly when `k` divides `y`. */
  lemma FloorStep(y: int, k: int)
    requires k == 4 || k == 100 || k == 400
    ensures y / k - (y - 1) / k == if y % k == 0 then 1 else 0
  {
    var q, r := y / k, y % k;
    assert y == k * q + r && 0 <= r < k;
    if r == 0 {
      assert y - 1 == k * (q - 1) + (k - 1);
    } else {
      assert y - 1 == k * q + (r - 1);
    }
  }

  lemma DivisibilityChain(y: int)
    ensures y % 400 == 0 ==> y % 100 == 0
    ensures y % 100 == 0 ==> y % 4 == 0
  {
    var q100, q400 := y / 100, y / 400;
    assert y == 100 * q100 + y % 100;
    assert y == 400 * q400 + y % 400;
    if y % 400 == 0 {
      assert y == 100 * (4 * q400);
      assert 100 * (4 * q400 - q100) == y % 100;
    }
    if y % 100 == 0 {
      var q4 := y / 4;
      assert y == 4 * q4 + y % 4;
      assert y == 4 * (25 * q100);
      assert 4 * (25 * q100 - q4) == y % 4;
    }
  }

  lemma NextNewYear(y: int)
    ensures NewYear(y + 1) == NewYear(y) + DaysInYear(y)
  {
    FloorStep(y, 4);
    FloorStep(y, 100);
    FloorStep(y, 400);
    DivisibilityChain(y);
  }

  lemma {:induction false} NewYearIncreasing(y: int, z: int)
    requires y < z
    ensures NewYear(y) + 365 * (z - y) <= NewYear(z)
    decreases z - y
  {
    NextNewYear(y);
    if y + 1 < z {
      NewYearIncreasing(y + 1, z);
    }
  }

  lemma OrdinalInYear(d: CalendarDate)
    ensures NewYear(d.year) <= Ordinal(d) < NewYear(d.year + 1)
  {
    NextNewYear(d.year);
  }

  // ---------------------------------------------------------------------------
  // The Monday of week 1

  /** A Monday is a day whose number is one more than a multiple of 7. */
  predicate IsMonday(n: int) {
    Weekday(n) == 0
  }

  lemma MondayShape(n: int)
    ensures IsMonday(n) <==> n == 7 * ((n + 6) / 7) - 6
  {
    assert n + 6 == 7 * ((n + 6) / 7) + (n + 6) % 7;
  }

  /** Two Mondays are a whole number of weeks apart, and a day's weekday is its offset from any Monday. */
  lemma MondayOffsets(m: int, n: int)
    requires IsMonday(m)
    ensures Weekday(n) == (n - m) % 7
    ensures IsMonday(n) ==> (n - m) % 7 == 0
  {
    MondayShape(m);
    var q := (m + 6) / 7;
    assert n - m == n + 6 - 7 * q;
    assert (n + 6) == 7 * ((n + 6) / 7) + (n + 6) % 7;
    assert n - m == 7 * ((n + 6) / 7 - q) + (n + 6) % 7;
  }

  /** The library's week-1 Monday, computed from the number of the first of January. */
  lemma Week1MondayArithmetic(firstDay: int)
    ensures var wd := Weekday(firstDay);
            var monday := if wd > 3 then firstDay - wd + 7 else firstDay - wd;
            IsMonday(monday) && firstDay - 3 <= monday <= firstDay + 3
  {
    var wd := Weekday(firstDay);
    assert firstDay + 6 == 7 * ((firstDay + 6) / 7) + wd;
  }

  /** Week 1 starts on a Monday at most three days away from the first of January. */
  lemma Week1MondayNearNewYear(y: int)
    ensures IsMonday(IsoWeek1Monday(y))
    ensures NewYear(y) - 3 <= IsoWeek1Monday(y) <= NewYear(y) + 3
  {
    Week1MondayArithmetic(NewYear(y));
  }

  /** Consecutive week-1 Mondays are 52 or 53 weeks apart. */
  lemma Week1MondaysApart(y: int)
    ensures IsoWeek1Monday(y + 1) - IsoWeek1Monday(y) == 364
         || IsoWeek1Monday(y + 1) - IsoWeek1Monday(y) == 371
  {
    var a, b := IsoWeek1Monday(y), IsoWeek1Monday(y + 1);
    Week1MondayNearNewYear(y);
    Week1MondayNearNewYear(y + 1);
    NextNewYear(y);
    MondayOffsets(a, b);
    assert b - a == 7 * ((b - a) / 7);
  }

  /**
   * Day arithmetic behind the library's year correction: `m` is the week-1
   * Monday of the date's year, `previous` and `next` those of its
   * neighbours, and the date lies in the Gregorian year `[first, last)`.
   */
  lemma LocateWeek(today: int, previous: int, m: int, next: int, first: int, last: int)
    requires first <= today < last && (last - first == 365 || last - first == 366)
    requires m - previous == 364 || m - previous == 371
    requires next - m == 364 || next - m == 371
    requires first - 3 <= m <= first + 3 && last - 3 <= next <= last + 3
    ensures (today - m) / 7 < 0 ==>
              previous <= today < m
    ensures (today - m) / 7 >= 52 && today >= next ==>
              next <= today < next + 7 && (today - next) % 7 == (today - m) % 7
              && (today - next) / 7 == 0
    ensures !((today - m) / 7 < 0) && !((today - m) / 7 >= 52 && today >= next) ==>
              m <= today < next
  {
    var k := (today - m) / 7;
    assert today - m == 7 * k + (today - m) % 7;
    if k >= 52 && today >= next {
      var j := (next - m) / 7;
      assert next - m == 7 * j;
      assert today - next == 7 * (k - j) + (today - m) % 7;
    }
  }

  /** The library result, measured from the week-1 Monday of the ISO year it reports. */
  ghost predicate MeasuredFromWeek1Monday(today: int, c: (int, int, int)) {
    && IsoWeek1Monday(c.0) <= today < IsoWeek1Monday(c.0 + 1)
    && c.1 == (today - IsoWeek1Monday(c.0)) / 7 + 1
    && c.2 == (today - IsoWeek1Monday(c.0)) % 7 + 1
  }

  /** Facts about the date's own year and its neighbours that the year correction relies on. */
  lemma YearNeighbourhood(y: int, today: int)
    requires NewYear(y) <= today < NewYear(y + 1)
    ensures var previous, m, next := IsoWeek1Monday(y - 1), IsoWeek1Monday(y), IsoWeek1Monday(y + 1);
            && ((today - m) / 7 < 0 ==> previous <= today < m)
            && ((today - m) / 7 >= 52 && today >= next ==>
                  next <= today < next + 7 && (today - next) % 7 == (today - m) % 7 && (today - next) / 7 == 0)
            && (!((today - m) / 7 < 0) && !((today - m) / 7 >= 52 && today >= next) ==> m <= today < next)
  {
    Week1MondayNearNewYear(y);
    Week1MondayNearNewYear(y + 1);
    Week1MondaysApart(y - 1);
    Week1MondaysApart(y);
    NextNewYear(y);
    LocateWeek(today, IsoWeek1Monday(y - 1), IsoWeek1Monday(y), IsoWeek1Monday(y + 1),
               NewYear(y), NewYear(y + 1));
  }

  lemma IsoCalendarPreviousYear(y: int, today: int)
    requires NewYear(y) <= today < NewYear(y + 1)
    requires (today - IsoWeek1Monday(y)) / 7 < 0
    ensures MeasuredFromWeek1Monday(today, IsoCalendarAt(y, today))
  {
    YearNeighbourhood(y, today);
    assert IsoCalendarAt(y, today).0 == y - 1;
  }

  lemma IsoCalendarNextYear(y: int, today: int)
    requires NewYear(y) <= today < NewYear(y + 1)
    requires (today - IsoWeek1Monday(y)) / 7 >= 52 && today >= IsoWeek1Monday(y + 1)
    ensures MeasuredFromWeek1Monday(today, IsoCalendarAt(y, today))
  {
    YearNeighbourhood(y, today);
    Week1MondaysApart(y + 1);
    assert IsoCalendarAt(y, today).0 == y + 1;
  }

  lemma IsoCalendarSameYear(y: int, today: int)
    requires NewYear(y) <= today < NewYear(y + 1)
    requires !((today - IsoWeek1Monday(y)) / 7 < 0)
    requires !((today - IsoWeek1Monday(y)) / 7 >= 52 && today >= IsoWeek1Monday(y + 1))
    ensures MeasuredFromWeek1Monday(today, IsoCalendarAt(y, today))
  {
    YearNeighbourhood(y, today);
    assert IsoCalendarAt(y, today).0 == y;
  }

  /**
   * The library result lies in the ISO year whose week-1 Monday is the last
   * one on or before the date; the week and weekday are measured from it.
   */
  lemma IsoCalendarFromWeek1Monday(d: CalendarDate)
    ensures MeasuredFromWeek1Monday(Ordinal(d), IsoCalendarOf(d))
  {
    var y, today := d.year, Ordinal(d);
    OrdinalInYear(d);
    var week := (today - IsoWeek1Monday(y)) / 7;
    if week < 0 {
      IsoCalendarPreviousYear(y, today);
    } else if week >= 52 && today >= IsoWeek1Monday(y + 1) {
      IsoCalendarNextYear(y, today);
    } else {
      IsoCalendarSameYear(y, today);
    }
  }

  // ---------------------------------------------------------------------------
  // Agreement with the standard

  /**
   * Day arithmetic behind the standard's reading: a day `today` between the
   * consecutive week-1 Mondays `m` and `next`, each three days before the
   * first Thursday on or after `first` and `last` respectively.
   */
  lemma ThursdayArithmetic(today: int, m: int, next: int, first: int, last: int)
    requires m <= today < next && IsMonday(m) && IsMonday(next)
    requires first - 3 <= m <= first + 3 && last - 3 <= next <= last + 3
    ensures var k := (today - m) / 7;
            && Weekday(today) == (today - m) % 7
            && ThursdayOfWeek(today) == m + 3 + 7 * k
            && first <= ThursdayOfWeek(today) < last
            && (ThursdayOfWeek(today) - first) / 7 == k
  {
    var k := (today - m) / 7;
    MondayOffsets(m, today);
    MondayOffsets(m, next);
    assert today - m == 7 * k + (today - m) % 7;
    var j := (next - m) / 7;
    assert next - m == 7 * j;
    assert k < j;
  }

  /** The library's week number and ISO year meet the standard's definition. */
  lemma IsoCalendarIsIsoWeek(d: CalendarDate)
    ensures IsIsoWeekOf(d, IsoCalendarOf(d).0, IsoCalendarOf(d).1)
    ensures IsoCalendarOf(d).2 == Weekday(Ordinal(d)) + 1
  {
    var c := IsoCalendarOf(d);
    IsoCalendarFromWeek1Monday(d);
    Week1MondayNearNewYear(c.0);
    Week1MondayNearNewYear(c.0 + 1);
    ThursdayArithmetic(Ordinal(d), IsoWeek1Monday(c.0), IsoWeek1Monday(c.0 + 1),
                       NewYear(c.0), NewYear(c.0 + 1));
  }

  /** The ISO year and week the standard assigns to a date are unique. */
  lemma IsoWeekUnique(d: CalendarDate, y: int, w: int, y': int, w': int)
    requires IsIsoWeekOf(d, y, w) && IsIsoWeekOf(d, y', w')
    ensures y == y' && w == w'
  {
    if y < y' {
      NewYearIncreasing(y + 1, y');
      if y + 1 == y' { }
    } else if y' < y {
      NewYearIncreasing(y' + 1, y);
      if y' + 1 == y { }
    }
  }

  /** `(iso_year, iso_week)` is exactly the week date ISO 8601 assigns to the date. */
  lemma IsoWeekMatchesStandard(d: CalendarDate, y: int, w: int)
    ensures IsoYearWeek(d) == (y, w) <==> IsIsoWeekOf(d, y, w)
  {
    IsoCalendarIsIsoWeek(d);
    if IsIsoWeekOf(d, y, w) {
      IsoWeekUnique(d, y, w, IsoCalendarOf(d).0, IsoCalendarOf(d).1);
    }
  }

  /** ISO weeks are numbered 1 to 53, and the ISO year is the date's year or a neighbour. */
  lemma IsoWeekBounds(d: CalendarDate)
    ensures 1 <= IsoYearWeek(d).1 <= 53
    ensures d.year - 1 <= IsoYearWeek(d).0 <= d.year + 1
  {
    var c := IsoCalendarOf(d);
    IsoCalendarIsIsoWeek(d);
    NextNewYear(c.0);
    OrdinalInYear(d);
    if c.0 < d.year - 1 {
      NewYearIncreasing(c.0 + 1, d.year);
    } else if c.0 > d.year + 1 {
      NewYearIncreasing(d.year + 1, c.0);
    }
  }

  /** The fourth of January always lies in ISO week 1 of its own year. */
  lemma FourthOfJanuaryInWeekOne(y: int)
    requires MinYear <= y <= MaxYear
    ensures IsoYearWeek(Date(y, 1, 4)) == (y, 1)
  {
    var d: CalendarDate := Date(y, 1, 4);
    NextNewYear(y);
    var today := Ordinal(d);
    assert today == NewYear(y) + 3;
    assert NewYear(y) <= ThursdayOfWeek(today) < NewYear(y) + 7;
    IsoWeekMatchesStandard(d, y, 1);
  }

  // ---------------------------------------------------------------------------
  // Worked dates

  /** 2008-12-29 opens ISO week 1 of 2009 and is its Monday. */
  lemma WeekOneOf2009StartsInDecember()
    ensures IsoCalendarOf(Date(2008, 12, 29)) == (2009, 1, 1)
  {
    assert Ordinal(Date(2008, 12, 29)) == 733405;
  }

  /** 2014-06-30 (a Monday) and 2014-07-02 share ISO week 27; 2014-07-07 opens week 28. */
  lemma SummerOf2014Weeks()
    ensures IsoYearWeek(Date(2014, 6, 30)) == (2014, 27)
    ensures IsoYearWeek(Date(2014, 7, 2)) == (2014, 27)
    ensures IsoYearWeek(Date(2014, 7, 7)) == (2014, 28)
  {
    assert Ordinal(Date(2014, 6, 30)) == 735414;
    assert Ordinal(Date(2014, 7, 2)) == 735416;
    assert Ordinal(Date(2014, 7, 7)) == 735421;
  }

  /** 2015-12-31 and 2016-01-02 are both in ISO week 53 of 2015; 2016-01-04 opens week 1 of 2016. */
  lemma TurnOf2016Weeks()
    ensures IsoYearWeek(Date(2015, 12, 31)) == (2015, 53)
    ensures IsoYearWeek(Date(2016, 1, 2)) == (2015, 53)
    ensures IsoYearWeek(Date(2016, 1, 4)) == (2016, 1)
  {
    assert Ordinal(Date(2015, 12, 31)) == 735963;
    assert IsoWeek1Monday(2016) == 735967;
    assert IsoWeek1Monday(2015) == 735596;
    assert Ordinal(Date(2016, 1, 2)) == 735965;
    assert Ordinal(Date(2016, 1, 4)) == 735967;
  }
}
