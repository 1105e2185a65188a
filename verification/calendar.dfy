// The proleptic Gregorian calendar of ECMAScript time values (section 21.4.1 of ECMA-262), on whole
// days counted from 1 January 1970.
module Calendar {
  import opened Intervals

  predicate Leap(y: int) { Due(y, 4) && (!Due(y, 100) || Due(y, 400)) }

  /** The rule in remainders. */
  lemma LeapRule(y: int)
    ensures Leap(y) <==> y % 4 == 0 && (y % 100 != 0 || y % 400 == 0)
  {
    DueIsRemainder(y, 4);
    DueIsRemainder(y, 100);
    DueIsRemainder(y, 400);
  }

  function DaysInYear(y: int): (n: int)
  {
    if Leap(y) then 366 else 365
  }

  /** The day number of 1 January of year `y`. */
  function DayFromYear(y: int): int
    decreases if y < 1970 then 1970 - y else y - 1970
  {
    if y == 1970 then 0
    else if y > 1970 then DayFromYear(y - 1) + DaysInYear(y - 1)
    else DayFromYear(y + 1) - DaysInYear(y)
  }

  lemma YearLength(y: int)
    ensures DayFromYear(y + 1) == DayFromYear(y) + DaysInYear(y)
  {
  }

  lemma QuarterSteps(y: int)
    ensures (y - 1968) / 4 == (y - 1969) / 4 + (if y % 4 == 0 then 1 else 0)
  {
  }

  lemma CenturySteps(y: int)
    ensures (y - 1900) / 100 == (y - 1901) / 100 + (if y % 100 == 0 then 1 else 0)
  {
  }

  lemma CycleSteps(y: int)
    ensures (y - 1600) / 400 == (y - 1601) / 400 + (if y % 400 == 0 then 1 else 0)
  {
  }

  lemma LeapNests(y: int)
    ensures y % 400 == 0 ==> y % 100 == 0
    ensures y % 100 == 0 ==> y % 4 == 0
  {
  }

  lemma LeapCounts(y: int)
    ensures DaysInYear(y) == 365 + (if y % 4 == 0 then 1 else 0) - (if y % 100 == 0 then 1 else 0) +
                             (if y % 400 == 0 then 1 else 0)
  {
    LeapNests(y);
    LeapRule(y);
  }

  function ClosedForm(y: int): int
  {
    365 * (y - 1970) + (y - 1969) / 4 - (y - 1901) / 100 + (y - 1601) / 400
  }

  lemma ClosedFormStep(y: int)
    ensures ClosedForm(y + 1) == ClosedForm(y) + DaysInYear(y)
  {
    QuarterSteps(y);
    CenturySteps(y);
    CycleSteps(y);
    LeapCounts(y);
  }

  /** Counting years one by one agrees with the closed form of ECMA-262. */
  lemma {:induction false} DayFromYearClosedForm(y: int)
    ensures DayFromYear(y) == ClosedForm(y)
    decreases if y < 1970 then 1970 - y else y - 1970
  {
    if y > 1970 {
      DayFromYearClosedForm(y - 1);
      ClosedFormStep(y - 1);
    } else if y < 1970 {
      DayFromYearClosedForm(y + 1);
      ClosedFormStep(y);
    }
  }

  /** Searches the year of a day from a starting guess. */
  function YearFrom(day: int, guess: int): (y: int)
    ensures DayFromYear(y) <= day < DayFromYear(y + 1)
    decreases if day < DayFromYear(guess) then DayFromYear(guess) - day
              else if day >= DayFromYear(guess + 1) then day - DayFromYear(guess + 1) + 1 else 0
  {
    if day < DayFromYear(guess) then YearLength(guess - 1); YearFrom(day, guess - 1)
    else if day >= DayFromYear(guess + 1) then YearLength(guess + 1); YearFrom(day, guess + 1)
    else guess
  }

  /** The year a day falls in: the one whose first day is the last not after it. */
  function Year(day: int): (y: int)
    ensures DayFromYear(y) <= day < DayFromYear(y + 1)
  {
    YearFrom(day, 1970)
  }

  lemma {:induction false} YearsIncrease(a: int, b: int)
    requires a <= b
    ensures DayFromYear(a) + 365 * (b - a) <= DayFromYear(b)
    decreases b - a
  {
    if a < b {
      YearLength(a);
      YearsIncrease(a + 1, b);
    }
  }

  lemma YearIs(day: int, y: int)
    requires DayFromYear(y) <= day < DayFromYear(y + 1)
    ensures Year(day) == y
  {
    if Year(day) < y {
      YearsIncrease(Year(day) + 1, y);
    } else if Year(day) > y {
      YearsIncrease(y + 1, Year(day));
    }
  }

  /** The length of month `m` (0 = January). */
  function MonthLength(m: int, leap: bool): (n: int)
    ensures 28 <= n <= 31
  {
    if m == 1 then (if leap then 29 else 28)
    else if m == 3 || m == 5 || m == 8 || m == 10 then 30
    else 31
  }

  /** Days of the year before month `m`. */
  function DaysBeforeMonth(m: int, leap: bool): (n: int)
    requires 0 <= m <= 12
    ensures n >= 28 * m
  {
    if m == 0 then 0 else DaysBeforeMonth(m - 1, leap) + MonthLength(m - 1, leap)
  }

  lemma MonthsFillYear(y: int)
    ensures DaysBeforeMonth(12, Leap(y)) == DaysInYear(y)
  {
    var l := Leap(y);
    var february := if l then 29 else 28;
    assert DaysBeforeMonth(1, l) == 31;
    assert DaysBeforeMonth(2, l) == 31 + february;
    assert DaysBeforeMonth(4, l) == DaysBeforeMonth(2, l) + 61;
    assert DaysBeforeMonth(6, l) == DaysBeforeMonth(4, l) + 61;
    assert DaysBeforeMonth(8, l) == DaysBeforeMonth(6, l) + 62;
    assert DaysBeforeMonth(10, l) == DaysBeforeMonth(8, l) + 61;
  }

  /** The days before each month, as ECMA-262 tabulates them: `leap` adds one from March on. */
  lemma MonthTable(leap: bool)
    ensures DaysBeforeMonth(0, leap) == 0 && DaysBeforeMonth(1, leap) == 31
    ensures var l := if leap then 1 else 0;
            && DaysBeforeMonth(2, leap) == 59 + l && DaysBeforeMonth(3, leap) == 90 + l
            && DaysBeforeMonth(4, leap) == 120 + l && DaysBeforeMonth(5, leap) == 151 + l
            && DaysBeforeMonth(6, leap) == 181 + l && DaysBeforeMonth(7, leap) == 212 + l
            && DaysBeforeMonth(8, leap) == 243 + l && DaysBeforeMonth(9, leap) == 273 + l
            && DaysBeforeMonth(10, leap) == 304 + l && DaysBeforeMonth(11, leap) == 334 + l
            && DaysBeforeMonth(12, leap) == 365 + l
  {
    assert DaysBeforeMonth(2, leap) == DaysBeforeMonth(1, leap) + MonthLength(1, leap);
    assert DaysBeforeMonth(4, leap) == DaysBeforeMonth(3, leap) + MonthLength(3, leap);
    assert DaysBeforeMonth(6, leap) == DaysBeforeMonth(5, leap) + MonthLength(5, leap);
    assert DaysBeforeMonth(8, leap) == DaysBeforeMonth(7, leap) + MonthLength(7, leap);
    assert DaysBeforeMonth(10, leap) == DaysBeforeMonth(9, leap) + MonthLength(9, leap);
  }

  /** Searches the month of a day of the year, from month `m` on. */
  function MonthFrom(dayInYear: int, leap: bool, m: int): (r: int)
    requires 0 <= m < 12 && DaysBeforeMonth(m, leap) <= dayInYear < DaysBeforeMonth(12, leap)
    ensures m <= r < 12 && DaysBeforeMonth(r, leap) <= dayInYear < DaysBeforeMonth(r + 1, leap)
    decreases 12 - m
  {
    if dayInYear < DaysBeforeMonth(m + 1, leap) then m else MonthFrom(dayInYear, leap, m + 1)
  }

  function DayInYear(day: int): (n: int)
    ensures 0 <= n < DaysBeforeMonth(12, Leap(Year(day)))
  {
    YearLength(Year(day)); MonthsFillYear(Year(day));
    day - DayFromYear(Year(day))
  }

  function Month(day: int): (m: int)
    ensures 0 <= m < 12
  {
    MonthFrom(DayInYear(day), Leap(Year(day)), 0)
  }

  function DaysInMonth(y: int, m: int): int
    requires 0 <= m < 12
  {
    MonthLength(m, Leap(y))
  }

  /** The day of the month, counted from 1. */
  function Date(day: int): (d: int)
    ensures 1 <= d <= DaysInMonth(Year(day), Month(day)) <= 31
  {
    DayInYear(day) - DaysBeforeMonth(Month(day), Leap(Year(day))) + 1
  }

  /** 0 = Sunday; 1 January 1970 was a Thursday. */
  function WeekDay(day: int): (w: int)
    ensures 0 <= w < 7
  {
    (day + 4) % 7
  }

  /** 1 January 1970 is a Thursday, and weekdays follow one another. */
  lemma WeekDaysFollow(day: int)
    ensures WeekDay(0) == 4
    ensures WeekDay(day + 1) == if WeekDay(day) == 6 then 0 else WeekDay(day) + 1
  {
  }

  predicate ValidDate(y: int, m: int, d: int) { 0 <= m < 12 && 1 <= d <= DaysInMonth(y, m) }

  /** The day number of a calendar date. */
  function DayNumber(y: int, m: int, d: int): int
    requires ValidDate(y, m, d)
  {
    DayFromYear(y) + DaysBeforeMonth(m, Leap(y)) + d - 1
  }

  lemma {:induction false} DaysBeforeIncreases(m: int, n: int, leap: bool)
    requires 0 <= m <= n <= 12
    ensures DaysBeforeMonth(m, leap) <= DaysBeforeMonth(n, leap)
    decreases n - m
  {
    if m < n {
      DaysBeforeIncreases(m, n - 1, leap);
    }
  }

  /** Every day is the day of its own date. */
  lemma DateThenDay(day: int)
    ensures ValidDate(Year(day), Month(day), Date(day))
    ensures DayNumber(Year(day), Month(day), Date(day)) == day
  {
  }

  lemma MonthIs(dayInYear: int, leap: bool, m: int)
    requires 0 <= m < 12 && DaysBeforeMonth(m, leap) <= dayInYear < DaysBeforeMonth(m + 1, leap)
    requires 0 <= dayInYear < DaysBeforeMonth(12, leap)
    ensures MonthFrom(dayInYear, leap, 0) == m
  {
    var found := MonthFrom(dayInYear, leap, 0);
    if found < m {
      DaysBeforeIncreases(found + 1, m, leap);
    } else if found > m {
      DaysBeforeIncreases(m + 1, found, leap);
    }
  }

  lemma YearOfDate(y: int, m: int, d: int, day: int)
    requires ValidDate(y, m, d) && day == DayNumber(y, m, d)
    ensures Year(day) == y
    ensures DayInYear(day) == DaysBeforeMonth(m, Leap(y)) + d - 1
  {
    YearLength(y);
    MonthsFillYear(y);
    DaysBeforeIncreases(m + 1, 12, Leap(y));
    YearIs(day, y);
  }

  /** Every valid date is the date of its own day: days and dates correspond one to one. */
  lemma DayThenDate(y: int, m: int, d: int, day: int)
    requires ValidDate(y, m, d) && day == DayNumber(y, m, d)
    ensures Year(day) == y && Month(day) == m && Date(day) == d
  {
    YearOfDate(y, m, d, day);
    MonthIs(DayInYear(day), Leap(y), m);
  }

  /** Months counted from January of year 0. */
  function MonthIndex(day: int): int { 12 * Year(day) + Month(day) }

  lemma SplitUnique(y: int, m: int, y': int, m': int)
    requires 0 <= m < 12 && 0 <= m' < 12 && 12 * y + m == 12 * y' + m'
    ensures y == y' && m == m'
  {
  }

  lemma SplitOrder(y: int, m: int, y': int, m': int)
    requires 0 <= m < 12 && 0 <= m' < 12 && 12 * y + m < 12 * y' + m'
    ensures y < y' || (y == y' && m < m')
  {
  }

  /** Where a day lies in its year and month. */
  lemma Placed(day: int)
    ensures var first := DayFromYear(Year(day)); var l := Leap(Year(day));
            && first + DaysBeforeMonth(Month(day), l) <= day < first + DaysBeforeMonth(Month(day) + 1, l)
            && first <= day < DayFromYear(Year(day) + 1)
  {
  }

  lemma LaterYear(y: int, a: int, y': int, b: int)
    requires y < y' && a < DayFromYear(y + 1) && DayFromYear(y') <= b
    ensures a < b
  {
    YearsIncrease(y + 1, y');
  }

  lemma LaterMonth(y: int, m: int, a: int, m': int, b: int)
    requires 0 <= m < m' < 12 && a < DayFromYear(y) + DaysBeforeMonth(m + 1, Leap(y))
    requires DayFromYear(y) + DaysBeforeMonth(m', Leap(y)) <= b
    ensures a < b
  {
    DaysBeforeIncreases(m + 1, m', Leap(y));
  }

  lemma LaterSplit(y: int, m: int, a: int, y': int, m': int, b: int)
    requires 0 <= m < 12 && 0 <= m' < 12 && 12 * y + m < 12 * y' + m'
    requires a < DayFromYear(y + 1) && a < DayFromYear(y) + DaysBeforeMonth(m + 1, Leap(y))
    requires DayFromYear(y') <= b && DayFromYear(y') + DaysBeforeMonth(m', Leap(y')) <= b
    ensures a < b
  {
    SplitOrder(y, m, y', m');
    if y < y' { LaterYear(y, a, y', b); } else { LaterMonth(y, m, a, m', b); }
  }

  /** A later month means a later day. */
  lemma MonthIndexMonotone(a: int, b: int)
    requires MonthIndex(a) < MonthIndex(b)
    ensures a < b
  {
    Placed(a);
    Placed(b);
    LaterSplit(Year(a), Month(a), a, Year(b), Month(b), b);
  }

  /** The days of a month, by their date. */
  lemma MonthAndDate(y: int, m: int, d: int, day: int)
    requires 0 <= m < 12
    ensures ValidDate(y, m, d) && day == DayNumber(y, m, d) ==> MonthIndex(day) == 12 * y + m && Date(day) == d
    ensures MonthIndex(day) == 12 * y + m && Date(day) == d ==> ValidDate(y, m, d) && day == DayNumber(y, m, d)
  {
    if ValidDate(y, m, d) && day == DayNumber(y, m, d) {
      DayThenDate(y, m, d, day);
    }
    if MonthIndex(day) == 12 * y + m && Date(day) == d {
      SplitUnique(Year(day), Month(day), y, m);
      DateThenDay(day);
    }
  }

  /** One day per month index and day of the month. */
  lemma MonthAndDateDetermine(a: int, b: int)
    requires MonthIndex(a) == MonthIndex(b) && Date(a) == Date(b)
    ensures a == b
  {
    SplitUnique(Year(a), Month(a), Year(b), Month(b));
    DateThenDay(a);
    DateThenDay(b);
  }

  /** Days with the same date are ordered like their months. */
  lemma SameDateOrder(a: int, b: int)
    requires Date(a) == Date(b)
    ensures a < b <==> MonthIndex(a) < MonthIndex(b)
  {
    if MonthIndex(a) < MonthIndex(b) {
      MonthIndexMonotone(a, b);
    } else if MonthIndex(a) == MonthIndex(b) {
      MonthAndDateDetermine(a, b);
    } else {
      MonthIndexMonotone(b, a);
    }
  }
}
