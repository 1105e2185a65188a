// Occurrence dates of a recurring maintenance plan: the day scan, its exact contents, and the
// closed forms it agrees with.
module Recurrence {
  import opened Wrappers
  import opened Calendar
  import opened Intervals

  const DAY := 86_400_000

  datatype Frequency = Daily | Weekly | Monthly | Yearly | Interval

  /** Instants are milliseconds; `end` and `monthDay` are optional, `weekdays` may be empty. */
  datatype Config = Config(frequency: Frequency, interval: int, start: int, end: Option<int>,
                           weekdays: seq<int>, monthDay: Option<int>)

  /** What the recurrence schema guarantees. */
  predicate ValidConfig(c: Config)
  {
    && c.interval >= 1
    && (forall i :: 0 <= i < |c.weekdays| ==> 0 <= c.weekdays[i] < 7)
    && (c.monthDay.Some? ==> 1 <= c.monthDay.value <= 31)
  }

  /** The UTC day of an instant. */
  function DayOf(instant: int): int { instant / DAY }

  /** `Date.UTC` takes a year from 0 to 99 as one of the twentieth century. */
  predicate TwoDigitYear(instant: int) { 0 <= Year(DayOf(instant)) <= 99 }

  /** The day of the midnight that `utcDate` makes of an instant. */
  function UtcDay(instant: int): int
  {
    var day := DayOf(instant);
    if TwoDigitYear(instant)
    then DayFromYear(Year(day) + 1900) + DaysBeforeMonth(Month(day), Leap(Year(day) + 1900)) + Date(day) - 1
    else day
  }

  lemma TwoDigitLater(instant: int)
    requires TwoDigitYear(instant)
    ensures UtcDay(instant) > DayOf(instant)
  {
    YearsIncrease(Year(DayOf(instant)) + 1, Year(DayOf(instant)) + 1900);
  }

  /** It is the instant's own day exactly outside those years. */
  lemma UtcDayIsOwnIff(instant: int)
    ensures UtcDay(instant) == DayOf(instant) <==> !TwoDigitYear(instant)
    ensures UtcDay(instant) >= DayOf(instant)
  {
    if TwoDigitYear(instant) { TwoDigitLater(instant); }
  }

  /** Otherwise it is the same date 1900 years later, and 1 March if there is no such 29 February. */
  lemma TwoDigitDay(instant: int, y: int, m: int, d: int)
    requires TwoDigitYear(instant)
    requires y == Year(DayOf(instant)) + 1900 && m == Month(DayOf(instant)) && d == Date(DayOf(instant))
    ensures ValidDate(y, m, d) ==>
              Year(UtcDay(instant)) == y && Month(UtcDay(instant)) == m && Date(UtcDay(instant)) == d
    ensures !ValidDate(y, m, d) ==> m == 1 && d == 29 && UtcDay(instant) == DayNumber(y, 2, 1)
  {
    if ValidDate(y, m, d) {
      DayThenDate(y, m, d, UtcDay(instant));
    } else {
      assert m == 1 && d == 29 && !Leap(y);
      MonthTable(Leap(y));
    }
  }

  /** Years from 1970 on are not among them. */
  lemma ModernDay(instant: int)
    requires instant >= 0
    ensures UtcDay(instant) == DayOf(instant)
  {
    if Year(DayOf(instant)) < 1970 { YearsIncrease(Year(DayOf(instant)) + 1, 1970); }
  }

  function Min(a: int, b: int): int { if a < b then a else b }

  /** The last day of the scan. */
  function EndDay(c: Config, horizon: int): int
  {
    Min(UtcDay(if c.end.Some? then c.end.value else horizon), UtcDay(horizon))
  }

  /** A configuration counted in whole UTC days, from its first day on. */
  datatype Rule = Rule(frequency: Frequency, interval: int, first: int, weekdays: seq<int>, monthDay: Option<int>)

  predicate ValidRule(r: Rule)
  {
    && r.interval >= 1
    && (forall i :: 0 <= i < |r.weekdays| ==> 0 <= r.weekdays[i] < 7)
    && (r.monthDay.Some? ==> 1 <= r.monthDay.value <= 31)
  }

  function RuleOf(c: Config): Rule
  {
    Rule(c.frequency, c.interval, UtcDay(c.start), c.weekdays, c.monthDay)
  }

  function ChosenDate(r: Rule): int { if r.monthDay.Some? then r.monthDay.value else Date(r.first) }

  function ChosenWeekdays(r: Rule): seq<int>
  {
    if |r.weekdays| > 0 then r.weekdays else [WeekDay(r.first)]
  }

  predicate MatchesWeekly(r: Rule, day: int)
    requires r.interval >= 1
  {
    Due((day - r.first) / 7, r.interval) && WeekDay(day) in ChosenWeekdays(r)
  }

  predicate MatchesMonthly(r: Rule, day: int)
    requires r.interval >= 1
  {
    Due(MonthIndex(day) - MonthIndex(r.first), r.interval) && Date(day) == ChosenDate(r)
  }

  predicate MatchesYearly(r: Rule, day: int)
    requires r.interval >= 1
  {
    Due(Year(day) - Year(r.first), r.interval) && Month(day) == Month(r.first) && Date(day) == ChosenDate(r)
  }

  /** The frequency rule, for a day not before the start. */
  predicate Matches(r: Rule, day: int)
    requires r.interval >= 1
  {
    match r.frequency
    case Daily | Interval => Due(day - r.first, r.interval)
    case Weekly => MatchesWeekly(r, day)
    case Monthly => MatchesMonthly(r, day)
    case Yearly => MatchesYearly(r, day)
  }

  /** The matching days from `from` to `to`, in order. */
  function Scan(r: Rule, from: int, last: int): seq<int>
    requires r.interval >= 1
    decreases last - from
  {
    if last < from then []
    else Scan(r, from, last - 1) + (if Matches(r, last) then [last] else [])
  }

  function Days(r: Rule, last: int): seq<int>
    requires r.interval >= 1
  {
    Scan(r, r.first, last)
  }

  // ------------------------------------------------------------------ the loop

  /** The test the loop makes, in remainders of the distances to the start. */
  predicate RuleHolds(r: Rule, days: int, weeks: int, months: int, years: int, weekday: bool, month: bool, date: bool)
    requires r.interval >= 1
  {
    if r.frequency == Daily || r.frequency == Interval then days % r.interval == 0
    else if r.frequency == Weekly then weeks % r.interval == 0 && weekday
    else if r.frequency == Monthly then months % r.interval == 0 && date
    else years % r.interval == 0 && month && date
  }

  lemma RuleHoldsIsDue(r: Rule, days: int, weeks: int, months: int, years: int, weekday: bool, month: bool, date: bool)
    requires r.interval >= 1
    ensures RuleHolds(r, days, weeks, months, years, weekday, month, date) <==>
            match r.frequency
            case Daily | Interval => Due(days, r.interval)
            case Weekly => Due(weeks, r.interval) && weekday
            case Monthly => Due(months, r.interval) && date
            case Yearly => Due(years, r.interval) && month && date
  {
    DueIsRemainder(days, r.interval);
    DueIsRemainder(weeks, r.interval);
    DueIsRemainder(months, r.interval);
    DueIsRemainder(years, r.interval);
  }

  /** The occurrence dates up to a horizon, as days. */
  function OccurrenceDays(c: Config, horizon: int): seq<int>
    requires c.interval >= 1
  {
    Days(RuleOf(c), EndDay(c, horizon))
  }

  /** Midnights, as the scan visits them. */
  predicate AsDays(dates: seq<int>, days: seq<int>)
  {
    |dates| == |days| && forall i :: 0 <= i < |dates| ==> dates[i] == DAY * days[i]
  }

  lemma ScanOnward(r: Rule, dates: seq<int>, day: int, cursor: int, found: bool)
    requires r.interval >= 1 && r.first <= day && cursor == DAY * day
    requires AsDays(dates, Scan(r, r.first, day - 1)) && found == Matches(r, day)
    ensures AsDays(if found then dates + [cursor] else dates, Scan(r, r.first, day))
  {
  }

  /** The frequency rule in the terms of the configuration, and of the day its start falls on. */
  predicate MeetsRule(c: Config, day: int)
    requires c.interval >= 1
  {
    var first := UtcDay(c.start);
    && first <= day
    && match c.frequency
       case Daily | Interval => (day - first) % c.interval == 0
       case Weekly =>
         && (day - first) / 7 % c.interval == 0
         && (if c.weekdays == [] then WeekDay(day) == WeekDay(first) else WeekDay(day) in c.weekdays)
       case Monthly =>
         && (MonthIndex(day) - MonthIndex(first)) % c.interval == 0
         && Date(day) == (if c.monthDay.Some? then c.monthDay.value else Date(first))
       case Yearly =>
         && (Year(day) - Year(first)) % c.interval == 0 && Month(day) == Month(first)
         && Date(day) == (if c.monthDay.Some? then c.monthDay.value else Date(first))
  }

  lemma MeetsRuleByDays(c: Config, day: int, days: int)
    requires c.interval >= 1 && (c.frequency == Daily || c.frequency == Interval || c.frequency == Weekly)
    requires days == day - UtcDay(c.start)
    ensures MeetsRule(c, day) <==> 0 <= days && Matches(RuleOf(c), day)
  {
    DueIsRemainder(days, c.interval);
    DueIsRemainder(days / 7, c.interval);
  }

  lemma MeetsRuleMonthly(c: Config, day: int, months: int)
    requires c.interval >= 1 && c.frequency == Monthly
    requires months == MonthIndex(day) - MonthIndex(UtcDay(c.start))
    ensures MeetsRule(c, day) <==> UtcDay(c.start) <= day && Matches(RuleOf(c), day)
  {
    DueIsRemainder(months, c.interval);
  }

  lemma MeetsRuleYearly(c: Config, day: int, years: int)
    requires c.interval >= 1 && c.frequency == Yearly
    requires years == Year(day) - Year(UtcDay(c.start))
    ensures MeetsRule(c, day) <==> UtcDay(c.start) <= day && Matches(RuleOf(c), day)
  {
    DueIsRemainder(years, c.interval);
  }

  lemma MeetsRuleMatches(c: Config, day: int)
    requires c.interval >= 1
    ensures MeetsRule(c, day) <==> UtcDay(c.start) <= day && Matches(RuleOf(c), day)
  {
    var first := UtcDay(c.start);
    match c.frequency
    case Monthly => MeetsRuleMonthly(c, day, MonthIndex(day) - MonthIndex(first));
    case Yearly => MeetsRuleYearly(c, day, Year(day) - Year(first));
    case _ => MeetsRuleByDays(c, day, day - first);
  }

  /** A date that a plan generates: a midnight that meets the rule, up to the end and the horizon. */
  predicate IsOccurrenceDate(c: Config, horizon: int, t: int)
    requires c.interval >= 1
  {
    && t == DAY * DayOf(t) && MeetsRule(c, DayOf(t))
    && DayOf(t) <= UtcDay(horizon) && (c.end.Some? ==> DayOf(t) <= UtcDay(c.end.value))
  }

  lemma OccurrenceDatesExact(c: Config, horizon: int, dates: seq<int>, t: int)
    requires c.interval >= 1 && AsDays(dates, OccurrenceDays(c, horizon))
    ensures t in dates <==> IsOccurrenceDate(c, horizon, t)
    ensures Increasing(dates)
  {
    var days := OccurrenceDays(c, horizon);
    InDays(RuleOf(c), EndDay(c, horizon), DayOf(t));
    MeetsRuleMatches(c, DayOf(t));
    if t in dates {
      var i :| 0 <= i < |dates| && dates[i] == t;
      assert t == DAY * days[i] && DayOf(t) == days[i];
    }
    if t == DAY * DayOf(t) && DayOf(t) in days {
      var i :| 0 <= i < |days| && days[i] == DayOf(t);
      assert dates[i] == t;
    }
  }

  /** The scan over midnights, one day at a time: exactly the dates that meet the configuration's rule, in
      order. */
  method GenerateOccurrenceDates(c: Config, horizon: int) returns (dates: seq<int>)
    requires ValidConfig(c)
    ensures AsDays(dates, OccurrenceDays(c, horizon)) && Increasing(dates)
    ensures forall t :: t in dates <==> IsOccurrenceDate(c, horizon, t)
  {
    var r := RuleOf(c);
    var start := DAY * UtcDay(c.start);
    var until := if c.end.Some? then c.end.value else horizon;
    var end := Min(DAY * UtcDay(until), DAY * UtcDay(horizon));
    ghost var last := EndDay(c, horizon);
    dates := Visit(r, start, end, last);
    OccurrenceDatesExact(c, horizon, dates, 0);
    forall t
      ensures t in dates <==> IsOccurrenceDate(c, horizon, t)
    {
      OccurrenceDatesExact(c, horizon, dates, t);
    }
  }

  method Visit(r: Rule, start: int, end: int, ghost last: int) returns (dates: seq<int>)
    requires ValidRule(r) && start == DAY * r.first && end == DAY * last
    ensures AsDays(dates, Days(r, last))
  {
    dates := [];
    var cursor := start;
    ghost var day := r.first;
    while cursor <= end
      invariant cursor == DAY * day && r.first <= day
      invariant day == r.first || day <= last + 1
      invariant AsDays(dates, Scan(r, r.first, day - 1))
      decreases end - cursor
    {
      var found := TestDay(r, start, cursor, day);
      ScanOnward(r, dates, day, cursor, found);
      if found {
        dates := dates + [cursor];
      }
      cursor := cursor + DAY;
      day := day + 1;
    }
  }

  lemma MidnightDays(first: int, day: int)
    ensures (DAY * first) / DAY == first && (DAY * day) / DAY == day && (DAY * day - DAY * first) / DAY == day - first
  {
  }

  method TestDay(r: Rule, start: int, cursor: int, ghost day: int) returns (found: bool)
    requires ValidRule(r) && start == DAY * r.first && cursor == DAY * day
    ensures found == Matches(r, day)
  {
    MidnightDays(r.first, day);
    found := CursorMatches(r, cursor / DAY, start / DAY, (cursor - start) / DAY);
  }

  /** The rule in the terms of `Matches`. */
  lemma MatchesSpelledOut(r: Rule, day: int, months: int)
    requires r.interval >= 1 && months == MonthIndex(day) - MonthIndex(r.first)
    ensures Matches(r, day) <==>
            match r.frequency
            case Daily | Interval => Due(day - r.first, r.interval)
            case Weekly => Due((day - r.first) / 7, r.interval) && WeekDay(day) in ChosenWeekdays(r)
            case Monthly => Due(months, r.interval) && Date(day) == ChosenDate(r)
            case Yearly =>
              Due(Year(day) - Year(r.first), r.interval) && Month(day) == Month(r.first) && Date(day) == ChosenDate(r)
  {
  }

  lemma MonthsBetween(y: int, m: int, y': int, m': int)
    ensures (y - y') * 12 + m - m' == (12 * y + m) - (12 * y' + m')
  {
  }

  method CursorMatches(r: Rule, today: int, first: int, days: int) returns (found: bool)
    requires ValidRule(r) && first == r.first && days == today - first
    ensures found == Matches(r, today)
  {
    var weeks := days / 7;
    var months := (Year(today) - Year(first)) * 12 + Month(today) - Month(first);
    var years := Year(today) - Year(first);
    var weekday := WeekDay(today) in (if |r.weekdays| > 0 then r.weekdays else [WeekDay(first)]);
    var month := Month(today) == Month(first);
    var date := Date(today) == if r.monthDay.Some? then r.monthDay.value else Date(first);
    MonthsBetween(Year(today), Month(today), Year(first), Month(first));
    RuleHoldsIsDue(r, days, weeks, months, years, weekday, month, date);
    MatchesSpelledOut(r, today, months);
    found := RuleHolds(r, days, weeks, months, years, weekday, month, date);
  }

  // ------------------------------------------------------------------ exact contents

  predicate Increasing(s: seq<int>)
  {
    forall i, j :: 0 <= i < j < |s| ==> s[i] < s[j]
  }

  /** The scan is strictly increasing and contains exactly the matching days of the range. */
  lemma {:induction false} ScanExact(r: Rule, from: int, last: int)
    requires r.interval >= 1
    ensures Increasing(Scan(r, from, last))
    ensures forall d :: d in Scan(r, from, last) <==> from <= d <= last && Matches(r, d)
    decreases last - from
  {
    if from <= last {
      ScanExact(r, from, last - 1);
      var init := Scan(r, from, last - 1);
      forall i | 0 <= i < |init|
        ensures init[i] < last
      {
        assert init[i] in init;
      }
    }
  }

  /** Strictly increasing, from the first to the last day, exactly the matching days. */
  lemma DaysExact(r: Rule, last: int)
    requires r.interval >= 1
    ensures Increasing(Days(r, last))
    ensures forall d :: d in Days(r, last) <==>
                          r.first <= d <= last && Matches(r, d)
  {
    ScanExact(r, r.first, last);
  }

  /** The same for one day. */
  lemma InDays(r: Rule, last: int, d: int)
    requires r.interval >= 1
    ensures d in Days(r, last) <==> r.first <= d <= last && Matches(r, d)
    ensures Increasing(Days(r, last))
  {
    DaysExact(r, last);
  }

  lemma {:induction false} ScanPrefix(r: Rule, from: int, last: int, further: int)
    requires r.interval >= 1 && last <= further
    ensures Scan(r, from, last) <= Scan(r, from, further)
    decreases further - last
  {
    if last < further {
      ScanPrefix(r, from, last, further - 1);
    }
  }

  /** One horizon's dates continue another's exactly if nothing is due between an earlier last day and a
      later one. */
  lemma AppendsIff(r: Rule, near: int, far: int)
    requires r.interval >= 1
    ensures Days(r, near) <= Days(r, far) <==> forall d :: far < d <= near && r.first <= d ==> !Matches(r, d)
  {
    if near <= far {
      ScanPrefix(r, r.first, near, far);
    } else {
      ScanPrefix(r, r.first, far, near);
      DaysExact(r, near);
      DaysExact(r, far);
      if Days(r, near) <= Days(r, far) {
        assert Days(r, near) == Days(r, far);
      } else {
        var k := |Days(r, far)|;
        var d := Days(r, near)[k];
        assert d in Days(r, near);
        forall i | 0 <= i < k
          ensures Days(r, far)[i] != d
        {
          assert Days(r, near)[i] < d;
        }
        assert d !in Days(r, far);
        assert far < d <= near && r.first <= d && Matches(r, d);
      }
    }
  }

  /** A longer horizon only appends, unless the shorter one lies in a year that is taken for another. */
  lemma LongerHorizonAppends(c: Config, near: int, far: int)
    requires c.interval >= 1 && near <= far && (!TwoDigitYear(near) || UtcDay(near) <= UtcDay(far))
    ensures OccurrenceDays(c, near) <= OccurrenceDays(c, far)
  {
    UtcDayIsOwnIff(near);
    UtcDayIsOwnIff(far);
    assert DayOf(near) <= DayOf(far);
    LaterEndAppends(c, near, far);
  }

  lemma LaterEndAppends(c: Config, near: int, far: int)
    requires c.interval >= 1 && UtcDay(near) <= UtcDay(far)
    ensures OccurrenceDays(c, near) <= OccurrenceDays(c, far)
  {
    assert EndDay(c, near) <= EndDay(c, far);
    ScanPrefix(RuleOf(c), RuleOf(c).first, EndDay(c, near), EndDay(c, far));
  }

  // ------------------------------------------------------------------ daily closed form

  lemma QuotientStep(d: int, n: int)
    requires n >= 1
    ensures Due(d, n) ==> (d - 1) / n == d / n - 1 && d == n * (d / n)
    ensures !Due(d, n) ==> (d - 1) / n == d / n
  {
    DueIsRemainder(d, n);
    var q, r := d / n, d % n;
    if r == 0 {
      DivUnique(d - 1, n, q - 1, n - 1);
    } else {
      DivUnique(d - 1, n, q, r - 1);
    }
  }

  lemma {:induction false} DailyScan(r: Rule, last: int)
    requires r.interval >= 1 && (r.frequency == Daily || r.frequency == Interval) && r.first - 1 <= last
    ensures var s := Scan(r, r.first, last);
            && |s| == (last - r.first) / r.interval + 1
            && forall k :: 0 <= k < |s| ==> s[k] == r.first + r.interval * k
    decreases last - r.first
  {
    var start := r.first;
    if last < start {
      DivUnique(-1, r.interval, -1, r.interval - 1);
    } else {
      DailyScan(r, last - 1);
      QuotientStep(last - start, r.interval);
    }
  }

  /** Daily and interval plans: start + k * interval, floor((end - start) / interval) + 1 of them. */
  lemma DailyClosedForm(r: Rule, last: int)
    requires r.interval >= 1 && (r.frequency == Daily || r.frequency == Interval)
    ensures var ds := Days(r, last); var start := r.first; var end := last;
            && |ds| == (if end < start then 0 else (end - start) / r.interval + 1)
            && forall k :: 0 <= k < |ds| ==> ds[k] == start + r.interval * k
  {
    if r.first <= last {
      DailyScan(r, last);
    }
  }

  // ------------------------------------------------------------------ weekly periodicity

  lemma WeeklyPeriodic(r: Rule, day: int)
    requires r.interval >= 1 && r.frequency == Weekly
    ensures Matches(r, day) <==> Matches(r, day + 7 * r.interval)
  {
    var weeks := (day - r.first) / 7;
    assert (day + 7 * r.interval - r.first) / 7 == weeks + r.interval;
    DueShift(weeks, weeks + r.interval, r.interval);
    assert WeekDay(day + 7 * r.interval) == WeekDay(day);
  }

  /** How many of the `n` days from `from` on match. */
  function CountMatches(r: Rule, from: int, n: nat): nat
    requires r.interval >= 1
  {
    if n == 0 then 0 else CountMatches(r, from, n - 1) + (if Matches(r, from + n - 1) then 1 else 0)
  }

  lemma {:induction false} CountSplit(r: Rule, from: int, a: nat, b: nat)
    requires r.interval >= 1
    ensures CountMatches(r, from, a + b) == CountMatches(r, from, a) + CountMatches(r, from + a, b)
  {
    if b > 0 {
      CountSplit(r, from, a, b - 1);
    }
  }

  lemma {:induction false} CountNone(r: Rule, from: int, n: nat)
    requires r.interval >= 1 && forall d :: from <= d < from + n ==> !Matches(r, d)
    ensures CountMatches(r, from, n) == 0
  {
    if n > 0 {
      CountNone(r, from, n - 1);
    }
  }

  lemma CountOne(r: Rule, day: int)
    requires r.interval >= 1
    ensures CountMatches(r, day, 1) == if Matches(r, day) then 1 else 0
  {
    assert CountMatches(r, day, 0) == 0;
  }

  /** Moving a window of one period by a day loses and gains the same match. */
  lemma CountSlide(r: Rule, w: int, p: int)
    requires r.interval >= 1 && r.frequency == Weekly && p == 7 * r.interval
    ensures CountMatches(r, w + 1, p) == CountMatches(r, w, p)
  {
    CountSplit(r, w, 1, p);
    CountSplit(r, w, p, 1);
    CountOne(r, w);
    CountOne(r, w + p);
    WeeklyPeriodic(r, w);
  }

  lemma {:induction false} CountSlides(r: Rule, from: int, shift: nat, p: int)
    requires r.interval >= 1 && r.frequency == Weekly && p == 7 * r.interval
    ensures CountMatches(r, from + shift, p) == CountMatches(r, from, p)
  {
    if shift > 0 {
      CountSlides(r, from, shift - 1, p);
      CountSlide(r, from + shift - 1, p);
    }
  }

  /** The chosen weekdays among the first `n` days. */
  function WeekdaysMet(r: Rule, n: nat): set<int>
  {
    if n == 0 then {}
    else
      var w := WeekDay(r.first + n - 1);
      WeekdaysMet(r, n - 1) + (if w in ChosenWeekdays(r) then {w} else {})
  }

  predicate FallsOn(first: int, i: int, w: int) { WeekDay(first + i) == w }

  /** The weekdays met are the chosen ones among those days. */
  lemma {:induction false} MetWithin(r: Rule, n: nat, w: int)
    ensures w in WeekdaysMet(r, n) <==> w in ChosenWeekdays(r) && exists i :: 0 <= i < n && FallsOn(r.first, i, w)
  {
    if n > 0 {
      MetWithin(r, n - 1, w);
      assert WeekDay(r.first + n - 1) == w <==> FallsOn(r.first, n - 1, w);
    }
  }

  lemma WeekDaysDiffer(first: int, i: int, j: int)
    requires 0 <= i < j < 7
    ensures WeekDay(first + i) != WeekDay(first + j)
  {
  }

  /** A week meets every weekday. */
  lemma WeekDayAhead(first: int, w: int) returns (i: int)
    requires 0 <= w < 7
    ensures 0 <= i < 7 && FallsOn(first, i, w)
  {
    i := (w - 4 - first) % 7;
  }

  lemma FirstWeekMatches(r: Rule, day: int)
    requires r.interval >= 1 && r.frequency == Weekly && r.first <= day < r.first + 7
    ensures Matches(r, day) <==> WeekDay(day) in ChosenWeekdays(r)
  {
    assert (day - r.first) / 7 == 0;
  }

  lemma NotMetBefore(r: Rule, n: nat)
    requires n < 7
    ensures WeekDay(r.first + n) !in WeekdaysMet(r, n)
  {
    var w := WeekDay(r.first + n);
    MetWithin(r, n, w);
    forall i | 0 <= i < n
      ensures !FallsOn(r.first, i, w)
    {
      WeekDaysDiffer(r.first, i, n);
    }
  }

  lemma {:induction false} FirstWeek(r: Rule, n: nat)
    requires r.interval >= 1 && r.frequency == Weekly && n <= 7
    ensures CountMatches(r, r.first, n) == |WeekdaysMet(r, n)|
  {
    if n > 0 {
      FirstWeek(r, n - 1);
      NotMetBefore(r, n - 1);
      FirstWeekMatches(r, r.first + n - 1);
    }
  }

  /** The distinct chosen weekdays. */
  function ChosenSet(r: Rule): set<int> { set w | w in ChosenWeekdays(r) }

  lemma ChosenInRange(r: Rule)
    requires ValidRule(r)
    ensures forall w :: w in ChosenWeekdays(r) ==> 0 <= w < 7
  {
  }

  lemma WholeWeekMeetsAll(r: Rule)
    requires ValidRule(r)
    ensures WeekdaysMet(r, 7) == ChosenSet(r)
  {
    ChosenInRange(r);
    forall w
      ensures w in WeekdaysMet(r, 7) <==> w in ChosenSet(r)
    {
      MetWithin(r, 7, w);
      if w in ChosenWeekdays(r) { var i := WeekDayAhead(r.first, w); }
    }
  }

  /** The first week of a period is the only one with dates. */
  lemma LaterWeeksAreQuiet(r: Rule, day: int)
    requires r.interval >= 1 && r.frequency == Weekly && r.first + 7 <= day < r.first + 7 * r.interval
    ensures !Matches(r, day)
  {
    var weeks := (day - r.first) / 7;
    assert 0 < weeks < r.interval;
  }

  lemma FirstPeriod(r: Rule, p: int)
    requires ValidRule(r) && r.frequency == Weekly && p == 7 * r.interval
    ensures CountMatches(r, r.first, p) == |ChosenSet(r)|
  {
    CountSplit(r, r.first, 7, p - 7);
    FirstWeek(r, 7);
    WholeWeekMeetsAll(r);
    forall d | r.first + 7 <= d < r.first + 7 + (p - 7)
      ensures !Matches(r, d)
    {
      LaterWeeksAreQuiet(r, d);
    }
    CountNone(r, r.first + 7, p - 7);
  }

  /** Weekly plans repeat every 7 * interval days: any window of that length from the start on holds
      exactly as many dates as there are distinct chosen weekdays. */
  lemma WeeklyWindow(r: Rule, from: int, p: int)
    requires ValidRule(r) && r.frequency == Weekly && from >= r.first && p == 7 * r.interval
    ensures CountMatches(r, from, p) == |ChosenSet(r)|
  {
    FirstPeriod(r, p);
    CountSlides(r, r.first, from - r.first, p);
  }

  /** The window count is the number of generated dates in it. */
  lemma {:induction false} ScanCounts(r: Rule, from: int, n: nat)
    requires r.interval >= 1
    ensures |Scan(r, from, from + n - 1)| == CountMatches(r, from, n)
  {
    if n > 0 {
      ScanCounts(r, from, n - 1);
    }
  }

  lemma {:induction false} ScanSplit(r: Rule, from: int, cut: int, last: int)
    requires r.interval >= 1 && from <= cut <= last + 1
    ensures Scan(r, from, last) == Scan(r, from, cut - 1) + Scan(r, cut, last)
    decreases last - cut
  {
    if cut <= last {
      ScanSplit(r, from, cut, last - 1);
    }
  }

  lemma ScanSplitTwice(r: Rule, from: int, b: int, c: int, last: int)
    requires r.interval >= 1 && from <= b <= c <= last + 1
    ensures Scan(r, from, last) == Scan(r, from, b - 1) + (Scan(r, b, c - 1) + Scan(r, c, last))
  {
    ScanSplit(r, from, b, last);
    ScanSplit(r, b, c, last);
  }

  /** So the generated dates split around any such window, which holds one date per chosen weekday. */
  lemma WeeklyWindowDates(r: Rule, from: int, p: int, last: int, window: seq<int>)
    requires ValidRule(r) && r.frequency == Weekly && p == 7 * r.interval
    requires r.first <= from && from + p - 1 <= last && window == Scan(r, from, from + p - 1)
    ensures Days(r, last) == Scan(r, r.first, from - 1) + (window + Scan(r, from + p, last))
    ensures |window| == |ChosenSet(r)|
  {
    ScanSplitTwice(r, r.first, from, from + p, last);
    ScanCounts(r, from, p);
    WeeklyWindow(r, from, p);
  }

  // ------------------------------------------------------------------ monthly and yearly

  /** A month holds a date of the plan exactly when it is a multiple of the interval away from the
      start month, has the chosen day, and that day is in range; then it is that day and no other. */
  lemma MonthlyExact(r: Rule, last: int, y: int, m: int, d: int)
    requires r.interval >= 1 && r.frequency == Monthly && 0 <= m < 12
    ensures d in Days(r, last) && MonthIndex(d) == 12 * y + m <==>
            && Due(12 * y + m - MonthIndex(r.first), r.interval)
            && ValidDate(y, m, ChosenDate(r)) && d == DayNumber(y, m, ChosenDate(r))
            && r.first <= d <= last
  {
    InDays(r, last, d);
    MonthAndDate(y, m, ChosenDate(r), d);
  }

  /** So no calendar month holds two dates. */
  lemma AtMostOnePerMonth(r: Rule, last: int, a: int, b: int)
    requires r.interval >= 1 && r.frequency == Monthly
    requires a in Days(r, last) && b in Days(r, last) && MonthIndex(a) == MonthIndex(b)
    ensures a == b
  {
    InDays(r, last, a);
    InDays(r, last, b);
    MonthAndDateDetermine(a, b);
  }

  /** The same date `n` months later, when every month has it. */
  lemma MonthsLater(day: int, n: int) returns (later: int)
    requires Date(day) <= 28
    ensures MonthIndex(later) == MonthIndex(day) + n && Date(later) == Date(day)
  {
    var index := MonthIndex(day) + n;
    var y, m := index / 12, index % 12;
    later := DayNumber(y, m, Date(day));
    MonthAndDate(y, m, Date(day), later);
  }

  lemma MonthsApart(x: int, y: int, start: int, n: int)
    requires n >= 1 && Due(x - start, n) && Due(y - start, n) && x < y
    ensures x + n <= y
  {
    DueApart(x - start, y - start, n);
  }

  lemma MonthlyGap(r: Rule, a: int, b: int)
    requires r.interval >= 1 && r.frequency == Monthly && Matches(r, a) && Matches(r, b) && a < b
    ensures Date(a) == Date(b) == ChosenDate(r)
    ensures MonthIndex(a) + r.interval <= MonthIndex(b)
  {
    SameDateOrder(a, b);
    MonthsApart(MonthIndex(a), MonthIndex(b), MonthIndex(r.first), r.interval);
  }

  lemma MonthlyNext(r: Rule, a: int, b: int) returns (d: int)
    requires r.interval >= 1 && r.frequency == Monthly && ChosenDate(r) <= 28
    requires Matches(r, a) && Matches(r, b) && a < b
    ensures a < d <= b && MonthIndex(d) == MonthIndex(a) + r.interval && Date(d) == ChosenDate(r)
  {
    MonthlyGap(r, a, b);
    d := MonthsLater(a, r.interval);
    SameDateOrder(a, d);
    SameDateOrder(b, d);
  }

  lemma MonthlyNextMatches(r: Rule, a: int, d: int)
    requires r.interval >= 1 && r.frequency == Monthly && Matches(r, a)
    requires MonthIndex(d) == MonthIndex(a) + r.interval && Date(d) == ChosenDate(r)
    ensures Matches(r, d)
  {
    var there, here := MonthIndex(d) - MonthIndex(r.first), MonthIndex(a) - MonthIndex(r.first);
    DueShift(here, there, r.interval);
  }

  lemma NothingBetween(s: seq<int>, i: nat, d: int)
    requires Increasing(s) && i + 1 < |s| && d in s && s[i] < d <= s[i + 1]
    ensures d == s[i + 1]
  {
    var j :| 0 <= j < |s| && s[j] == d;
    assert j <= i || j >= i + 1;
  }

  /** When every month has the chosen day, consecutive dates are exactly `interval` months apart. */
  lemma MonthlyStep(r: Rule, last: int, i: nat, ds: seq<int>)
    requires ValidRule(r) && r.frequency == Monthly && ChosenDate(r) <= 28
    requires ds == Days(r, last) && i + 1 < |ds|
    ensures MonthIndex(ds[i + 1]) == MonthIndex(ds[i]) + r.interval
  {
    var a, b := ds[i], ds[i + 1];
    InDays(r, last, a);
    InDays(r, last, b);
    var d := MonthlyNext(r, a, b);
    MonthlyNextMatches(r, a, d);
    InDays(r, last, d);
    NothingBetween(ds, i, d);
  }

  /** A yearly plan is a monthly plan of twelve times the interval, so the above holds of it too. */
  lemma YearlyIsMonthly(r: Rule, day: int)
    requires r.interval >= 1 && r.frequency == Yearly
    ensures Matches(r, day) <==> Matches(r.(frequency := Monthly, interval := 12 * r.interval), day)
  {
    MonthsOfYears(Year(day) - Year(r.first), Month(day), Month(r.first), r.interval);
  }

  lemma {:induction false} YearlyScanIsMonthly(r: Rule, from: int, last: int)
    requires r.interval >= 1 && r.frequency == Yearly
    ensures Scan(r, from, last) == Scan(r.(frequency := Monthly, interval := 12 * r.interval), from, last)
    decreases last - from
  {
    if from <= last {
      YearlyScanIsMonthly(r, from, last - 1);
      YearlyIsMonthly(r, last);
    }
  }

  // ------------------------------------------------------------------ in the terms of a configuration

  lemma LastIsGreatest(a: seq<int>, d: int)
    requires Increasing(a) && a != []
    ensures d in a ==> d <= a[|a| - 1]
    ensures d in a[..|a| - 1] <==> d in a && d != a[|a| - 1]
  {
    if d in a && d != a[|a| - 1] {
      var i :| 0 <= i < |a| && a[i] == d;
      assert a[..|a| - 1][i] == d;
    }
    if d in a[..|a| - 1] {
      var i :| 0 <= i < |a| - 1 && a[i] == d;
    }
  }

  lemma FirstIsIn(b: seq<int>)
    ensures b == [] || b[0] in b
  {
  }

  lemma {:induction false} IncreasingUnique(a: seq<int>, b: seq<int>)
    requires Increasing(a) && Increasing(b) && forall d :: d in a <==> d in b
    ensures a == b
  {
    if a == [] {
      FirstIsIn(b);
    } else {
      var x := a[|a| - 1];
      assert x in a && x in b && b[|b| - 1] in b;
      LastIsGreatest(a, b[|b| - 1]);
      LastIsGreatest(b, x);
      var a', b' := a[..|a| - 1], b[..|b| - 1];
      forall d
        ensures d in a' <==> d in b'
      {
        LastIsGreatest(a, d);
        LastIsGreatest(b, d);
      }
      IncreasingUnique(a', b');
      assert a == a' + [x] && b == b' + [x];
    }
  }

  /** A weekly plan has, in any 7 * interval days from its start on, one date for each of its distinct
      weekdays, or for the start's weekday if it names none. */
  lemma WeeklyPlanCount(c: Config, from: int, p: int, window: seq<int>)
    requires ValidConfig(c) && c.frequency == Weekly && p == 7 * c.interval && UtcDay(c.start) <= from
    requires Increasing(window) && forall d :: d in window <==> from <= d < from + p && MeetsRule(c, d)
    ensures |window| == if c.weekdays == [] then 1 else |set w | w in c.weekdays|
  {
    var r := RuleOf(c);
    var scan := Scan(r, from, from + p - 1);
    ScanExact(r, from, from + p - 1);
    forall d
      ensures d in window <==> d in scan
    {
      MeetsRuleMatches(c, d);
    }
    IncreasingUnique(window, scan);
    ScanCounts(r, from, p);
    WeeklyWindow(r, from, p);
    if c.weekdays == [] {
      assert ChosenSet(r) == {WeekDay(r.first)};
    } else {
      assert ChosenSet(r) == set w | w in c.weekdays;
    }
  }

  /** A monthly plan's date in a month: the chosen day of the month, or the start's, where it exists, in
      every `interval`-th month. */
  lemma MonthlyPlanDate(c: Config, y: int, m: int, d: int, chosen: int)
    requires c.interval >= 1 && c.frequency == Monthly && 0 <= m < 12
    requires chosen == if c.monthDay.Some? then c.monthDay.value else Date(UtcDay(c.start))
    ensures MeetsRule(c, d) && MonthIndex(d) == 12 * y + m <==>
            && UtcDay(c.start) <= d && (12 * y + m - MonthIndex(UtcDay(c.start))) % c.interval == 0
            && ValidDate(y, m, chosen) && d == DayNumber(y, m, chosen)
  {
    MonthAndDate(y, m, chosen, d);
  }
}
