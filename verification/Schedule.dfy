/** When a job runs next, at a fixed offset from UTC of whole minutes. */
module Schedule {
  import opened Events
  import opened Calendar

  /** How far ahead a cron expression is searched: five long years. */
  const MAX_LOOKAHEAD: int := 5 * 366 * DAY

  // ---- Cron expressions ----

  /** The fields of a cron expression; a bit set is the set of its bits. */
  datatype CronExpr = CronExpr(min: set<int>, hour: set<int>, dom: set<int>, month: set<int>, dow: set<int>,
                               domStar: bool, dowStar: bool)

  /** The day part. A field counts as a star if its text starts with one. */
  predicate DayMatches(c: CronExpr, t: int) {
    var dom, dow := Day(DayNo(t)) in c.dom, Weekday(DayNo(t)) in c.dow;
    if c.domStar && c.dowStar then true
    else if c.domStar then dow
    else if c.dowStar then dom
    else dom || dow
  }

  predicate Matches(c: CronExpr, t: int) {
    Month(DayNo(t)) in c.month && DayMatches(c, t) && HourOf(t) in c.hour && MinuteOf(t) in c.min
  }

  /** The first match among the whole minutes from t to limit, one by one. */
  function Scan(c: CronExpr, t: int, limit: int): Option<int>
    decreases limit - t
  {
    if t >= limit then None else if Matches(c, t) then Some(t) else Scan(c, t + MINUTE, limit)
  }

  /** The first whole minute after t. */
  function NextMinute(t: int): int {
    t / MINUTE * MINUTE + MINUTE
  }

  predicate WholeMinute(t: int) {
    t % MINUTE == 0
  }

  // ---- What the scan means ----

  lemma {:induction false} ScanMeans(c: CronExpr, t: int, limit: int)
    requires WholeMinute(t)
    ensures var r := Scan(c, t, limit);
            && (r.Some? ==> t <= r.value < limit && WholeMinute(r.value) && Matches(c, r.value))
            && forall x :: t <= x < limit && WholeMinute(x) && Matches(c, x) ==> r.Some? && r.value <= x
    decreases limit - t
  {
    hide Matches, WholeMinute;
    if t < limit && !Matches(c, t) {
      WholeMinutesApart(t);
      ScanMeans(c, t + MINUTE, limit);
    }
  }

  lemma WholeMinutesApart(t: int)
    requires WholeMinute(t)
    ensures WholeMinute(t + MINUTE) && forall x :: WholeMinute(x) && x > t ==> x >= t + MINUTE
  {
  }

  /** A skip from t to t' that jumps over no match. */
  ghost predicate Skips(c: CronExpr, t: int, t': int) {
    WholeMinute(t') && t < t' && forall x :: t <= x < t' && WholeMinute(x) ==> !Matches(c, x)
  }

  /** Skipping minutes that do not match changes nothing. */
  lemma {:induction false} SkipKeepsScan(c: CronExpr, t: int, t': int, limit: int)
    requires WholeMinute(t) && Skips(c, t, t')
    ensures Scan(c, t, limit) == Scan(c, t', limit)
    decreases t' - t
  {
    WholeMinutesApart(t);
    if t + MINUTE < t' {
      SkipKeepsScan(c, t + MINUTE, t', limit);
    }
  }

  // ---- The search ----

  lemma TruncatedIs(t: int)
    ensures WholeMinute(NextMinute(t)) && t < NextMinute(t) && NextMinute(t) - MINUTE <= t
  {
  }

  /** Going to the first of the next month skips only this month. */
  lemma MonthSkip(c: CronExpr, t: int)
    requires Month(DayNo(t)) !in c.month
    ensures Skips(c, t, Date(Year(DayNo(t)), Month(DayNo(t)) + 1, 1, 0, 0))
  {
    var n := DayNo(t);
    NextMonth(n);
    var f := DateNo(Year(n), Month(n) + 1, 1);
    MidnightAfter(t, f);
    forall x | t <= x < f * DAY ensures !Matches(c, x) {
      DaysBetween(t, x, f);
    }
  }

  lemma MidnightAfter(t: int, f: int)
    requires f > DayNo(t)
    ensures WholeMinute(f * DAY) && t < f * DAY
  {
    DivisionIs(f * DAY, MINUTE, f * 1440, 0);
  }

  lemma DaysBetween(t: int, x: int, f: int)
    requires t <= x < f * DAY
    ensures DayNo(t) <= DayNo(x) < f
  {
  }

  lemma DaySkip(c: CronExpr, t: int)
    requires !DayMatches(c, t)
    ensures Skips(c, t, Date(Year(DayNo(t)), Month(DayNo(t)), Day(DayNo(t)) + 1, 0, 0))
  {
    hide DayNo, Year, Month, Day, DateNo, HourOf, MinuteOf;
    var n := DayNo(t);
    DateCountsDays(n, 1);
    MidnightAfter(t, n + 1);
    forall x | t <= x < (n + 1) * DAY ensures !Matches(c, x) {
      DaysBetween(t, x, n + 1);
    }
  }

  lemma HourIs(x: int, n: int, h: int)
    requires 0 <= h < 24
    ensures DayNo(x) == n && HourOf(x) == h <==> n * DAY + h * HOUR <= x < n * DAY + (h + 1) * HOUR
  {
    if n * DAY + h * HOUR <= x < n * DAY + (h + 1) * HOUR {
      DivisionIs(x, DAY, n, x - n * DAY);
      DivisionIs(x - n * DAY, HOUR, h, x - n * DAY - h * HOUR);
    }
  }

  lemma HourSkip(c: CronExpr, t: int)
    requires HourOf(t) !in c.hour
    ensures Skips(c, t, Date(Year(DayNo(t)), Month(DayNo(t)), Day(DayNo(t)), HourOf(t) + 1, 0))
  {
    hide DayNo, HourOf, Month, Year, Day, DateNo, DayMatches, MinuteOf;
    var n, h := DayNo(t), HourOf(t);
    DateCountsDays(n, 0);
    HourIs(t, n, h);
    HourStarts(n, h + 1);
    forall x | t <= x < n * DAY + (h + 1) * HOUR ensures !Matches(c, x) {
      HourIs(x, n, h);
    }
  }

  lemma HourStarts(n: int, h: int)
    ensures WholeMinute(n * DAY + h * HOUR)
  {
    DivisionIs(n * DAY + h * HOUR, MINUTE, n * 1440 + h * 60, 0);
  }

  lemma MinuteSkip(c: CronExpr, t: int)
    requires WholeMinute(t) && !Matches(c, t)
    ensures Skips(c, t, t + MINUTE)
  {
    WholeMinutesApart(t);
  }

  lemma SkipsForward(c: CronExpr, t: int, t': int)
    requires Skips(c, t, t')
    ensures t < t' && WholeMinute(t')
  {
  }

  function TruncateHour(t: int): int {
    t / HOUR * HOUR
  }

  /** The next match strictly after t: the first that a minute-by-minute scan
      of the window would find, and none exactly when it would find none. */
  method CronNext(c: CronExpr, after: int) returns (r: Option<int>)
    ensures r == Scan(c, NextMinute(after), NextMinute(after) + MAX_LOOKAHEAD)
  {
    hide Skips, Date, Year, Month, Day, DayNo, HourOf, MinuteOf, DayMatches, NextMinute, WholeMinute;
    var t := NextMinute(after);
    var limit := t + MAX_LOOKAHEAD;
    TruncatedIs(after);
    while t < limit
      invariant WholeMinute(t) && Scan(c, t, limit) == Scan(c, NextMinute(after), limit)
      decreases limit - t
    {
      var n := DayNo(t);
      ghost var was := t;
      if Month(n) !in c.month {
        MonthSkip(c, t);
        t := Date(Year(n), Month(n) + 1, 1, 0, 0);
      } else if !DayMatches(c, t) {
        DaySkip(c, t);
        t := Date(Year(n), Month(n), Day(n) + 1, 0, 0);
      } else if HourOf(t) !in c.hour {
        HourSkip(c, t);
        SkipsForward(c, t, Date(Year(n), Month(n), Day(n), HourOf(t) + 1, 0));
        var next := Date(Year(n), Month(n), Day(n), HourOf(t) + 1, 0);
        if next <= t {  // never, at a fixed offset
          next := TruncateHour(t + HOUR);
        }
        t := next;
      } else if MinuteOf(t) !in c.min {
        MinuteSkip(c, t);
        t := t + MINUTE;
      } else {
        return Some(t);
      }
      SkipKeepsScan(c, was, t, limit);
      SkipsForward(c, was, t);
    }
    return None;
  }

  lemma NextMinutesOrdered(t: int, u: int)
    requires t <= u
    ensures t < NextMinute(t) <= NextMinute(u)
  {
  }

  lemma NoneBefore(after: int, x: int)
    requires after < x && WholeMinute(x)
    ensures x >= NextMinute(after)
  {
  }

  ghost predicate CronSlot(c: CronExpr, x: int) {
    WholeMinute(x) && Matches(c, x)
  }

  /** So it is the least matching minute strictly after, if there is one
      within the window. */
  lemma CronNextIsLeast(c: CronExpr, after: int)
    ensures var r := Scan(c, NextMinute(after), NextMinute(after) + MAX_LOOKAHEAD);
            && (r.Some? ==> after < r.value < NextMinute(after) + MAX_LOOKAHEAD && CronSlot(c, r.value))
            && (forall x :: after < x < NextMinute(after) + MAX_LOOKAHEAD && CronSlot(c, x) ==> r.Some? && r.value <= x)
  {
    hide NextMinute, WholeMinute, Matches;
    var t := NextMinute(after);
    TruncatedIs(after);
    ScanMeans(c, t, t + MAX_LOOKAHEAD);
    forall x | after < x < t + MAX_LOOKAHEAD && CronSlot(c, x)
      ensures x >= t
    {
      NoneBefore(after, x);
    }
  }

  // ---- When there is none to find ----

  /** The day part of a match, for day n. */
  predicate DayFits(c: CronExpr, n: int) {
    Month(n) in c.month && DayMatches(c, n * DAY)
  }

  predicate TimeFits(c: CronExpr, x: int) {
    WholeMinute(x) && HourOf(x) in c.hour && MinuteOf(x) in c.min
  }

  /** The expression names an hour and a minute of it. */
  ghost predicate SomeTime(c: CronExpr) {
    exists h, mi :: 0 <= h < 24 && 0 <= mi < 60 && h in c.hour && mi in c.min
  }

  predicate LeapDay(n: int) {
    Month(n) == 2 && Day(n) == 29
  }

  ghost predicate NoDayFits(c: CronExpr) {
    forall n :: !DayFits(c, n)
  }

  /** The only days it ever matches are 29 February. */
  ghost predicate OnlyLeapDays(c: CronExpr) {
    forall n :: DayFits(c, n) ==> LeapDay(n)
  }

  /** Some time the expression names, on a 29 February, lies in the window. */
  ghost predicate LeapDayInWindow(c: CronExpr, after: int) {
    exists x :: after < x < NextMinute(after) + MAX_LOOKAHEAD && TimeFits(c, x) && LeapDay(DayNo(x))
  }

  lemma SlotIsDayAndTime(c: CronExpr, x: int)
    ensures CronSlot(c, x) <==> DayFits(c, DayNo(x)) && TimeFits(c, x)
  {
    hide Month, Day, Weekday, HourOf, MinuteOf;
    DivisionIs(DayNo(x) * DAY, DAY, DayNo(x), 0);
  }

  /** A time of a day. */
  lemma TimeOfDay(n: int, h: int, mi: int)
    requires ValidClock(h, mi)
    ensures var x := n * DAY + h * HOUR + mi * MINUTE;
            WholeMinute(x) && DayNo(x) == n && HourOf(x) == h && MinuteOf(x) == mi && x < (n + 1) * DAY
  {
    var x := n * DAY + h * HOUR + mi * MINUTE;
    DivisionIs(x, MINUTE, n * 1440 + h * 60 + mi, 0);
    HourIs(x, n, h);
    DivisionIs(x, HOUR, n * 24 + h, mi * MINUTE);
    DivisionIs(mi * MINUTE, MINUTE, mi, 0);
  }

  /** Every day of the year after this one lies in the window. */
  lemma NextYearInWindow(after: int, m: int, x: int)
    requires YearStart(Year(DayNo(after)) + 1) <= m < YearStart(Year(DayNo(after)) + 5) && m * DAY <= x < (m + 1) * DAY
    ensures after < x < NextMinute(after) + MAX_LOOKAHEAD
  {
    hide YearStart, Year, DayNo;
    var n := DayNo(after);
    var y := Year(n);
    YearBounds(n);
    FiveYears(y);
    DayBounds(after);
  }

  lemma DayBounds(t: int)
    ensures DayNo(t) * DAY <= t < (DayNo(t) + 1) * DAY
  {
  }

  lemma FiveYears(y: int)
    ensures YearStart(y) < YearStart(y + 1) && YearStart(y + 5) <= YearStart(y) + 5 * 366
  {
    hide YearStart, IsLeap;
    YearLength(y);
    YearLength(y + 1);
    YearLength(y + 2);
    YearLength(y + 3);
    YearLength(y + 4);
  }

  /** A day of month m of year y on a given day of the week. */
  lemma WeekdayInMonth(y: int, m: int, w: int) returns (k: int)
    requires 1 <= m <= 12 && 0 <= w < 7
    ensures Weekday(k) == w && Month(k) == m && Year(k) == y
  {
    hide MonthStart, Weekday;
    var first := MonthStart(y, m);
    k := first + (w - Weekday(first)) % 7;
    WeekdayShifts(first, w);
    MonthLong(y, m);
    MonthIs(k, y, m);
  }

  lemma WeekdayShifts(n: int, w: int)
    requires 0 <= w < 7
    ensures Weekday(n + (w - Weekday(n)) % 7) == w
  {
  }

  lemma MonthLong(y: int, m: int)
    requires 1 <= m <= 12
    ensures MonthStart(y, m + 1) >= MonthStart(y, m) + 28
  {
  }

  /** A date other than 29 February exists in every year. */
  lemma DateEveryYear(n: int, y: int) returns (k: int)
    requires !LeapDay(n)
    ensures Year(k) == y && Month(k) == Month(n) && Day(k) == Day(n)
  {
    k := MonthStart(y, Month(n)) + Day(n) - 1;
    MonthsAsLong(Year(n), y, Month(n), Day(n));
    MonthIs(k, y, Month(n));
  }

  lemma MonthsAsLong(y: int, y': int, m: int, d: int)
    requires 1 <= m <= 12 && 1 <= d <= MonthStart(y, m + 1) - MonthStart(y, m) && !(m == 2 && d == 29)
    ensures d <= MonthStart(y', m + 1) - MonthStart(y', m)
  {
    hide YearStart, IsLeap;
  }

  /** Day n fits whatever its date: no field restricts days, or its day of the
      week is one the expression names. */
  predicate AnyDate(c: CronExpr, n: int) {
    if c.dowStar then c.domStar else Weekday(n) in c.dow
  }

  lemma FitsByDate(c: CronExpr, n: int)
    ensures DayFits(c, n) <==> Month(n) in c.month && (AnyDate(c, n) || (!c.domStar && Day(n) in c.dom))
  {
    hide Month, Day, Weekday;
    DivisionIs(n * DAY, DAY, n, 0);
  }

  /** A day that fits and is no 29 February has one like it in every year. */
  lemma FitsEveryYear(c: CronExpr, n: int, y: int) returns (k: int)
    requires DayFits(c, n) && !LeapDay(n)
    ensures DayFits(c, k) && Year(k) == y
  {
    hide DayFits, Year, Month, Day, Weekday, LeapDay;
    FitsByDate(c, n);
    if !c.dowStar && Weekday(n) in c.dow {
      k := WeekdayInMonth(y, Month(n), Weekday(n));
    } else {
      k := DateEveryYear(n, y);
    }
    FitsByDate(c, k);
  }

  /** If only leap days fit, all of them do. */
  lemma LeapDaysAlike(c: CronExpr, n: int, m: int)
    requires OnlyLeapDays(c) && DayFits(c, n) && LeapDay(m)
    ensures DayFits(c, m)
  {
    hide DayFits, Year, Month, Day, Weekday;
    FitsByDate(c, n);
    FitsByDate(c, m);
    if AnyDate(c, n) {
      WeekBefore(c, n);
    }
  }

  /** A day that fits whatever its date is not the only one of its month. */
  lemma WeekBefore(c: CronExpr, n: int)
    requires AnyDate(c, n) && LeapDay(n) && DayFits(c, n)
    ensures DayFits(c, n - 7) && !LeapDay(n - 7)
  {
    hide DayFits, Year, Month, Day, Weekday;
    EarlierInFebruary(n);
    FitsByDate(c, n);
    FitsByDate(c, n - 7);
  }

  lemma EarlierInFebruary(n: int)
    requires LeapDay(n)
    ensures Month(n - 7) == 2 && Day(n - 7) == 22 && Weekday(n - 7) == Weekday(n)
  {
    hide Year, MonthStart;
    MonthLong(Year(n), 2);
    MonthIs(n - 7, Year(n), 2);
  }

  /** The search finds nothing for one of two reasons, and no other: no day of
      the calendar ever matches, or only leap days do and none lies within the
      window. */
  lemma WhoIsMissed(c: CronExpr, after: int)
    requires SomeTime(c)
    ensures Scan(c, NextMinute(after), NextMinute(after) + MAX_LOOKAHEAD).None? <==>
            NoDayFits(c) || (OnlyLeapDays(c) && !LeapDayInWindow(c, after))
  {
    hide Scan, NextMinute, DayFits, TimeFits, LeapDay, CronSlot, DayNo;
    var r := Scan(c, NextMinute(after), NextMinute(after) + MAX_LOOKAHEAD);
    CronNextIsLeast(c, after);
    if r.Some? {
      SlotIsDayAndTime(c, r.value);
    } else {
      forall n | DayFits(c, n) ensures LeapDay(n) {
        if !LeapDay(n) {
          FoundInWindow(c, n, after);
        }
      }
      if LeapDayInWindow(c, after) {
        var x :| after < x < NextMinute(after) + MAX_LOOKAHEAD && TimeFits(c, x) && LeapDay(DayNo(x));
        forall n | DayFits(c, n) ensures false {
          LeapDaysAlike(c, n, DayNo(x));
          SlotIsDayAndTime(c, x);
        }
      }
    }
  }

  /** A day that fits and is no 29 February is found, or one like it. */
  lemma FoundInWindow(c: CronExpr, n: int, after: int)
    requires SomeTime(c) && DayFits(c, n) && !LeapDay(n)
    ensures exists x :: after < x < NextMinute(after) + MAX_LOOKAHEAD && CronSlot(c, x)
  {
    hide Year, Month, Day, DayFits, LeapDay, CronSlot, YearStart, DayNo;
    var y := Year(DayNo(after)) + 1;
    var k := FitsEveryYear(c, n, y);
    var x := SlotOn(c, k);
    YearBounds(k);
    YearsIncrease(y + 1, y + 4);
    NextYearInWindow(after, k, x);
  }

  lemma SlotOn(c: CronExpr, n: int) returns (x: int)
    requires SomeTime(c) && DayFits(c, n)
    ensures CronSlot(c, x) && DayNo(x) == n && n * DAY <= x < (n + 1) * DAY
  {
    hide DayFits, CronSlot;
    var h, mi :| 0 <= h < 24 && 0 <= mi < 60 && h in c.hour && mi in c.min;
    x := n * DAY + h * HOUR + mi * MINUTE;
    TimeOfDay(n, h, mi);
    SlotIsDayAndTime(c, x);
  }

  /** So leap days are only missed around a year divisible by 100 and not by
      400: within the four years before it. */
  lemma LeapDayNear(c: CronExpr, after: int)
    requires SomeTime(c) && !LeapDayInWindow(c, after)
    ensures exists y :: Year(DayNo(after)) < y <= Year(DayNo(after)) + 4 && y % 100 == 0 && y % 400 != 0
  {
    hide LeapDayInWindow, YearStart, Year, Month, Day, MonthStart, DayNo;
    var y0 := Year(DayNo(after));
    var y := y0 + 4 - y0 % 4;
    MultipleOfFour(y0);
    if IsLeap(y) {
      LeapDayOf(y);
      FindsLeapDay(c, after, y, MonthStart(y, 2) + 28);
    } else {
      assert y % 100 == 0 && y % 400 != 0;
    }
  }

  lemma MultipleOfFour(y: int)
    ensures (y + 4 - y % 4) % 4 == 0
  {
  }

  lemma LeapDayOf(y: int)
    requires IsLeap(y)
    ensures LeapDay(MonthStart(y, 2) + 28) && Year(MonthStart(y, 2) + 28) == y
    ensures YearStart(y) <= MonthStart(y, 2) + 28 < YearStart(y + 1)
  {
    MonthIs(MonthStart(y, 2) + 28, y, 2);
    YearLength(y);
  }

  lemma FindsLeapDay(c: CronExpr, after: int, y: int, n: int)
    requires SomeTime(c) && LeapDay(n) && YearStart(y) <= n < YearStart(y + 1)
    requires Year(DayNo(after)) < y <= Year(DayNo(after)) + 4
    ensures LeapDayInWindow(c, after)
  {
    hide YearStart, Year, Month, Day, DayNo, HourOf, MinuteOf, WholeMinute, LeapDay, NextMinute;
    var h, mi :| 0 <= h < 24 && 0 <= mi < 60 && h in c.hour && mi in c.min;
    var x := n * DAY + h * HOUR + mi * MINUTE;
    TimeOfDay(n, h, mi);
    var y0 := Year(DayNo(after));
    if y0 + 1 < y { YearsIncrease(y0 + 1, y); }
    if y < y0 + 4 { YearsIncrease(y + 1, y0 + 5); }
    NextYearInWindow(after, n, x);
    assert TimeFits(c, x) && LeapDay(DayNo(x));
  }

  /** "0 0 29 2 *" */
  const LEAP_DAYS := CronExpr({0}, {0}, {29}, {2}, {0, 1, 2, 3, 4, 5, 6, 7}, false, true)

  lemma LeapDayYear(n: int)
    requires Month(n) == 2 && Day(n) == 29
    ensures IsLeap(Year(n)) && n == MonthStart(Year(n), 2) + 28
  {
  }

  lemma NamedYears()
    ensures DateNo(2096, 3, 1) == YearStart(2096) + 60 && MonthStart(2096, 2) + 28 == YearStart(2096) + 59
    ensures YearStart(2102) > YearStart(2096) + 60 + 5 * 366
  {
  }

  lemma YearsNear(n: int)
    requires DateNo(2096, 3, 1) <= n <= DateNo(2096, 3, 1) + 5 * 366
    ensures 2096 <= Year(n) <= 2101 && MonthStart(2096, 2) + 28 < n
  {
    hide Year, YearStart, DateNo, MonthStart;
    var y := Year(n);
    NamedYears();
    YearBounds(n);
    if y > 2102 {
      YearsIncrease(2102, y);
    } else if y + 1 < 2096 {
      YearsIncrease(y + 1, 2096);
    }
  }

  lemma NoLeapDayNear(n: int)
    requires DateNo(2096, 3, 1) <= n <= DateNo(2096, 3, 1) + 5 * 366
    ensures !(Month(n) == 2 && Day(n) == 29)
  {
    hide Year, Month, Day, MonthStart, YearStart, DateNo, IsLeap;
    YearsNear(n);
    OneLeapYear(Year(n));
    if Month(n) == 2 && Day(n) == 29 {
      LeapDayYear(n);
    }
  }

  lemma OneLeapYear(y: int)
    requires 2096 <= y <= 2101
    ensures IsLeap(y) ==> y == 2096
  {
  }

  /** And there one is: no leap day lies within five years of
      March 2096, so the search gives up although 29 February 2104 matches. */
  lemma LeapDayMissed()
    ensures var after, leap := Date(2096, 3, 1, 0, 0), Date(2104, 2, 29, 0, 0);
            && Scan(LEAP_DAYS, NextMinute(after), NextMinute(after) + MAX_LOOKAHEAD).None?
            && after < leap && CronSlot(LEAP_DAYS, leap)
  {
    var after, leap := Date(2096, 3, 1, 0, 0), Date(2104, 2, 29, 0, 0);
    var r := Scan(LEAP_DAYS, NextMinute(after), NextMinute(after) + MAX_LOOKAHEAD);
    hide Scan, DateNo, Date, Year, Month, Day, Weekday, NextMinute, DayNo, HourOf, MinuteOf, WholeMinute;
    MidnightIs(2096, 3, 1);
    MidnightIs(2104, 2, 29);
    LeapDay2104();
    CronNextIsLeast(LEAP_DAYS, after);
    if r.Some? {
      InWindow(DateNo(2096, 3, 1), r.value);
      NoLeapDayNear(DayNo(r.value));
    }
    MidnightParts(DateNo(2104, 2, 29));
  }

  lemma LeapDay2104()
    ensures var n := DateNo(2104, 2, 29);
            DateNo(2096, 3, 1) < n && Month(n) == 2 && Day(n) == 29
  {
    DateReadsBack(2104, 2, 29);
  }

  lemma MidnightIs(y: int, m: int, d: int)
    ensures Date(y, m, d, 0, 0) == DateNo(y, m, d) * DAY
  {
  }

  lemma InWindow(n: int, x: int)
    requires n * DAY < x < NextMinute(n * DAY) + MAX_LOOKAHEAD
    ensures n <= DayNo(x) <= n + 5 * 366
  {
  }

  lemma MidnightParts(n: int)
    ensures DayNo(n * DAY) == n && HourOf(n * DAY) == 0 && MinuteOf(n * DAY) == 0 && WholeMinute(n * DAY)
  {
    DivisionIs(n * DAY, DAY, n, 0);
    DivisionIs(n * DAY, HOUR, n * 24, 0);
    DivisionIs(n * DAY, MINUTE, n * 1440, 0);
  }

  // ---- Every so often ----

  /** t moved by k days, as AddDate moves it. */
  function AddDays(t: int, k: int): int {
    var n := DayNo(t);
    Date(Year(n), Month(n), Day(n) + k, 0, 0) + t % DAY
  }

  lemma AddDaysIs(t: int, k: int)
    ensures AddDays(t, k) == t + k * DAY && DayNo(AddDays(t, k)) == DayNo(t) + k
  {
    DateCountsDays(DayNo(t), k);
    hide Year, Month, Day, DateNo;
    assert t == DayNo(t) * DAY + t % DAY;
    assert (t + k * DAY) / DAY == t / DAY + k;
  }

  /** A time of day on the date of t. */
  function On(t: int, h: int, mi: int): int {
    var n := DayNo(t);
    Date(Year(n), Month(n), Day(n), h, mi)
  }

  lemma OnIs(t: int, h: int, mi: int)
    ensures On(t, h, mi) == DayNo(t) * DAY + h * HOUR + mi * MINUTE
  {
    hide DayNo, Year, Month, Day, DateNo;
    DateCountsDays(DayNo(t), 0);
  }

  /** The minute a time of day falls in. */
  function FloorMinute(off: int): int {
    off - off % MINUTE
  }

  /** off is a multiple of d in the minute that starts at y. */
  predicate InMinute(d: int, y: int, off: int)
    requires d > 0
  {
    off % d == 0 && y <= off < y + MINUTE
  }

  /** "every d": the minutes the multiples of d from each midnight fall in. */
  ghost predicate IntervalSlot(d: int, x: int)
    requires d > 0
  {
    WholeMinute(x % DAY) && exists off :: InMinute(d, x % DAY, off)
  }

  /** What is accepted for d: anything up to a day. It is a number of minutes or
      hours unless the multiplication wrapped around; see Every. */
  predicate ValidInterval(d: int) {
    MINUTE <= d <= DAY
  }

  const TWO_64: int := 2 * (MAX_INT64 + 1)

  /** What an int64 holds of x. */
  function Wrapped(x: int): int {
    (x + MAX_INT64 + 1) % TWO_64 - MAX_INT64 - 1
  }

  /** "every n minutes" or hours: the interval, if it is accepted. A number too
      large for an int64 is read as the largest, and the product wraps around. */
  function Every(n: nat, unit: int): Option<int> {
    var d := Wrapped((if n > MAX_INT64 then MAX_INT64 else n) * unit);
    if d < MINUTE || d > DAY then None else Some(d)
  }

  /** What an int64 holds is the one number it can that is the same but for
      multiples of 2 to the 64. */
  lemma WrappedIs(x: int, d: int)
    requires -MAX_INT64 - 1 <= d <= MAX_INT64
    ensures Wrapped(x) == d <==> (x - d) % TWO_64 == 0
  {
    var y := x + MAX_INT64 + 1;
    if (x - d) % TWO_64 == 0 {
      var q := (x - d) / TWO_64;
      DivisionIs(y, TWO_64, q, d + MAX_INT64 + 1);
    } else if Wrapped(x) == d {
      DivisionIs(x - d, TWO_64, y / TWO_64, 0);
    }
  }

  /** Which interval d is accepted for what was written: one between a minute
      and a day that the product is but for multiples of 2 to the 64, so the
      product itself exactly when it lies there. A number too large for an int64
      is refused. */
  lemma EveryMeans(n: nat, unit: int, d: int)
    requires unit == MINUTE || unit == HOUR
    ensures Every(n, unit) == Some(d) <==>
            n <= MAX_INT64 && ValidInterval(d) && (n * unit - d) % TWO_64 == 0
    ensures Every(n, unit) == Some(n * unit) <==> ValidInterval(n * unit)
  {
    if n <= MAX_INT64 {
      if ValidInterval(d) {
        WrappedIs(n * unit, d);
      }
      if ValidInterval(n * unit) {
        WrappedIs(n * unit, n * unit);
      }
    } else {
      DivisionIs(MAX_INT64 * unit + unit, TWO_64, unit / 2, 0);
      WrappedIs(MAX_INT64 * unit, -unit);
    }
  }

  const WRAPPED_MINUTES := 3_749_353_613_647_812

  /** So "every 3749353613647812m" is accepted, as an interval a little over a
      minute, and runs every minute. */
  lemma EveryWraps(x: int)
    ensures Every(WRAPPED_MINUTES, MINUTE) == Some(60_000_002_048)
    ensures IntervalSlot(60_000_002_048, x) <==> WholeMinute(x % DAY)
  {
    if WholeMinute(x % DAY) {
      SlightlyOver(60_000_002_048, x % DAY);
    }
  }

  /** An interval over a minute by so little that its multiples fall in every
      minute of a day. */
  lemma SlightlyOver(d: int, y: int)
    requires MINUTE <= d && 1440 * (d - MINUTE) < MINUTE && WholeMinute(y) && 0 <= y < DAY
    ensures InMinute(d, y, y / MINUTE * d)
  {
    var k, e := y / MINUTE, d - MINUTE;
    DivisionIs(k * d, d, k, 0);
    MultiplesGrow(k, 1440, if e > 0 then e else 1);
    assert k * d == k * MINUTE + k * e && k * MINUTE == y;
  }

  /** When d is a whole number of minutes, the slots are its multiples. */
  lemma WholeIntervalSlots(d: int, x: int)
    requires ValidInterval(d) && d % MINUTE == 0
    ensures IntervalSlot(d, x) <==> x % DAY % d == 0
  {
    var y := x % DAY;
    if IntervalSlot(d, x) {
      var off :| InMinute(d, y, off);
      WholeMinutes(off, d);
      FloorMinuteIs(off, y);
    }
    if y % d == 0 {
      WholeMinutes(y, d);
      assert InMinute(d, y, y);
    }
  }

  /** The minute a time falls in is the only whole one close enough. */
  lemma FloorMinuteIs(off: int, y: int)
    requires WholeMinute(y) && y <= off < y + MINUTE
    ensures FloorMinute(off) == y
  {
    DivisionIs(off, MINUTE, y / MINUTE, off - y);
  }

  lemma FloorMinutes(a: int, b: int)
    ensures WholeMinute(FloorMinute(a)) && FloorMinute(a) <= a < FloorMinute(a) + MINUTE
    ensures a <= b ==> FloorMinute(a) <= FloorMinute(b)
  {
  }

  lemma ClockParts(off: int)
    ensures off / HOUR * HOUR + off % HOUR / MINUTE * MINUTE == FloorMinute(off)
  {
    var h := off / HOUR;
    var r := off % HOUR;
    assert off == h * HOUR + r && r == r / MINUTE * MINUTE + r % MINUTE;
    DivisionIs(off, MINUTE, h * 60 + r / MINUTE, r % MINUTE);
  }

  lemma WholeMinutes(x: int, d: int)
    requires d > 0 && x % d == 0 && d % MINUTE == 0
    ensures x % MINUTE == 0
  {
    var a, b := x / d, d / MINUTE;
    assert x == a * d && d == MINUTE * b;
    Reordered(a, b);
    var y := a * b;
    assert x == MINUTE * y;
  }

  lemma Reordered(a: int, b: int)
    ensures a * (MINUTE * b) == MINUTE * (a * b)
  {
  }

  /** A slot of the day after the one at off is at the next multiple or later. */
  lemma SlotsApart(start: int, off: int, d: int, x: int)
    requires ValidInterval(d) && start % DAY == 0 && 0 <= off < DAY && off % d == 0
    requires start + FloorMinute(off) < x < start + DAY && IntervalSlot(d, x)
    ensures x >= start + FloorMinute(off + d)
  {
    hide FloorMinute, WholeMinute;
    var y := x - start;
    FloorMinutes(off, off + d);
    DivisionIs(x, DAY, start / DAY, y);
    var off' :| InMinute(d, y, off');
    MinutesOrdered(FloorMinute(off), y);
    MultiplesApart(off, off', d);
    FloorMinuteIs(off', y);
    FloorMinutes(off + d, off');
  }

  lemma MinutesOrdered(a: int, b: int)
    requires WholeMinute(a) && WholeMinute(b) && a < b
    ensures a + MINUTE <= b
  {
  }

  lemma MultiplesApart(a: int, b: int, d: int)
    requires d > 0 && a % d == 0 && b % d == 0 && a < b
    ensures a + d <= b
  {
    var p, q := a / d, b / d;
    assert a == p * d && b == q * d;
    if q <= p {
      MultiplesGrow(q, p, d);
    } else {
      MultiplesGrow(p + 1, q, d);
      assert (p + 1) * d == p * d + d;
    }
  }

  /** No slot lies after the given time and before lo. */
  ghost predicate NoneUntil(d: int, after: int, lo: int)
    requires d > 0
  {
    forall x :: after < x && IntervalSlot(d, x) ==> lo <= x
  }

  /** Where in the day the slot for offset off is, or the end of the day. */
  function Cap(off: int): int {
    if off < DAY then FloorMinute(off) else DAY
  }

  lemma StepsOn(d: int, after: int, start: int, off: int)
    requires ValidInterval(d) && start % DAY == 0 && 0 <= off < DAY && off % d == 0
    requires start + FloorMinute(off) <= after && NoneUntil(d, after, start + FloorMinute(off))
    ensures NoneUntil(d, after, start + Cap(off + d)) && (off + d) % d == 0
  {
    hide FloorMinute, IntervalSlot, Cap;
    forall x | after < x && IntervalSlot(d, x) ensures start + Cap(off + d) <= x {
      StepOver(d, start, off, x);
    }
    NextMultiple(off, d);
  }

  lemma StepOver(d: int, start: int, off: int, x: int)
    requires ValidInterval(d) && start % DAY == 0 && 0 <= off < DAY && off % d == 0
    requires start + FloorMinute(off) < x && IntervalSlot(d, x)
    ensures start + Cap(off + d) <= x
  {
    hide FloorMinute, IntervalSlot, Cap;
    CapWithin(off + d);
    if x < start + DAY {
      SlotsApart(start, off, d, x);
    }
  }

  lemma MidnightIsFirst()
    ensures Cap(0) == 0
  {
  }

  lemma DayEnds(off: int)
    ensures off >= DAY ==> FloorMinute(off) >= DAY
  {
    FloorMinutes(DAY, off);
    FloorMinuteIs(DAY, DAY);
  }

  /** Where the slot for offset off of a day is. */
  lemma SlotAt(d: int, start: int, off: int)
    requires ValidInterval(d) && start % DAY == 0 && 0 <= off < DAY && off % d == 0
    ensures On(start, off / HOUR, off % HOUR / MINUTE) == start + FloorMinute(off)
    ensures IntervalSlot(d, start + FloorMinute(off)) && start <= start + FloorMinute(off) < start + DAY
  {
    hide On, FloorMinute, WholeMinute;
    OnIs(start, off / HOUR, off % HOUR / MINUTE);
    ClockParts(off);
    FloorMinutes(0, off);
    FloorMinutes(off, off);
    FloorMinuteIs(0, 0);
    DivisionIs(start + FloorMinute(off), DAY, start / DAY, FloorMinute(off));
    DivisionIs(start, DAY, start / DAY, 0);
    assert InMinute(d, FloorMinute(off), off);
  }

  lemma MidnightOf(t: int)
    ensures On(t, 0, 0) % DAY == 0 && On(t, 0, 0) <= t < On(t, 0, 0) + DAY
  {
    hide On;
    OnIs(t, 0, 0);
  }

  lemma DayLater(day: int, k: int)
    requires day % DAY == 0
    ensures AddDays(day, k) == day + k * DAY && AddDays(day, k) % DAY == 0
  {
    AddDaysIs(day, k);
  }

  /** The first multiple of d at or after y. */
  function Ceiling(y: int, d: int): int
    requires d > 0
  {
    (y + d - 1) / d * d
  }

  /** The first slot after t: that of the next multiple of d at or after the next
      minute of the day, or midnight. */
  function IntervalAfter(d: int, t: int): int
    requires d > 0
  {
    DayNo(t) * DAY + Cap(Ceiling(FloorMinute(t % DAY) + MINUTE, d))
  }

  lemma CeilingIs(y: int, d: int)
    requires d > 0 && y >= 0
    ensures Ceiling(y, d) % d == 0 && y <= Ceiling(y, d) < y + d
    ensures forall off :: off % d == 0 && off >= y ==> off >= Ceiling(y, d)
  {
    var c := Ceiling(y, d);
    var q, r := (y + d - 1) / d, (y + d - 1) % d;
    assert y + d - 1 == q * d + r && 0 <= r < d;
    DivisionIs(q * d, d, q, 0);
    forall off | off % d == 0 && off >= y ensures off >= c {
      if off < c {
        MultiplesApart(off, c, d);
      }
    }
  }

  lemma IntervalAfterIsLeast(d: int, t: int)
    requires ValidInterval(d)
    ensures t < IntervalAfter(d, t) && IntervalSlot(d, IntervalAfter(d, t))
    ensures forall x :: t < x < IntervalAfter(d, t) ==> !IntervalSlot(d, x)
  {
    hide DayNo, IntervalSlot, FloorMinute, Ceiling;
    var n, y := DayNo(t), t % DAY;
    var z := FloorMinute(y) + MINUTE;
    DayParts(t);
    FloorMinutes(0, y);
    FloorMinutes(y, y);
    FloorMinuteIs(0, 0);
    CeilingIs(z, d);
    IntervalAfterLater(n, y, z, Ceiling(z, d));
    IntervalAfterSlot(d, n, Ceiling(z, d));
    forall x | t < x < IntervalAfter(d, t) ensures !IntervalSlot(d, x) {
      IntervalBetween(d, n, y, x);
    }
  }

  /** The slot found is past the minute t is in. */
  lemma IntervalAfterLater(n: int, y: int, z: int, off: int)
    requires 0 <= y < DAY && z == FloorMinute(y) + MINUTE && z <= off
    ensures y < Cap(off)
  {
    hide FloorMinute;
    FloorMinutes(y, y);
    FloorMinutes(z, off);
    NextWholeMinute(y, z);
  }

  lemma NextWholeMinute(y: int, z: int)
    requires z == FloorMinute(y) + MINUTE
    ensures WholeMinute(z) && FloorMinute(z) == z
  {
  }

  lemma IntervalAfterSlot(d: int, n: int, off: int)
    requires ValidInterval(d) && off % d == 0 && 0 <= off
    ensures IntervalSlot(d, n * DAY + Cap(off))
  {
    hide IntervalSlot, FloorMinute;
    if off < DAY {
      DivisionIs(n * DAY, DAY, n, 0);
      SlotAt(d, n * DAY, off);
    } else {
      MidnightIsSlot(d, n + 1);
    }
  }

  lemma MidnightIsSlot(d: int, n: int)
    requires d > 0
    ensures IntervalSlot(d, n * DAY)
  {
    DivisionIs(n * DAY, DAY, n, 0);
    assert InMinute(d, 0, 0);
  }

  lemma IntervalBetween(d: int, n: int, y: int, x: int)
    requires ValidInterval(d) && 0 <= y < DAY
    requires n * DAY + y < x < n * DAY + Cap(Ceiling(FloorMinute(y) + MINUTE, d))
    ensures !IntervalSlot(d, x)
  {
    hide FloorMinute, WholeMinute, Ceiling;
    var y', z := x - n * DAY, FloorMinute(y) + MINUTE;
    FloorMinutes(0, y);
    FloorMinutes(y, y);
    FloorMinuteIs(0, 0);
    CeilingIs(z, d);
    CapWithin(Ceiling(z, d));
    DivisionIs(x, DAY, n, y');
    if IntervalSlot(d, x) {
      var off :| InMinute(d, y', off);
      MinutesOrdered(FloorMinute(y), y');
      FloorMinuteIs(off, y');
      FloorMinutes(Ceiling(z, d), off);
    }
  }

  lemma CapWithin(off: int)
    ensures Cap(off) <= DAY && (Cap(off) == FloorMinute(off) || off >= DAY)
    ensures off >= DAY ==> FloorMinute(off) >= DAY
  {
    DayEnds(off);
    FloorMinutes(off, off);
  }

  lemma DayParts(t: int)
    ensures t == DayNo(t) * DAY + t % DAY && 0 <= t % DAY < DAY
  {
  }

  /** Always the least slot strictly after: slots start again at each
      midnight, so there is one by the next. */
  method IntervalNext(d: int, after: int) returns (r: Option<int>)
    requires ValidInterval(d)
    ensures r.Some? && after < r.value && IntervalSlot(d, r.value)
    ensures forall x :: after < x && IntervalSlot(d, x) ==> r.value <= x
    ensures r == Some(IntervalAfter(d, after))
  {
    hide IntervalAfter, AddDays, On, WholeMinute, NoneUntil, IntervalSlot, FloorMinute;
    var day := On(after, 0, 0);
    MidnightOf(after);
    NoneYet(d, after, day);
    var k := 0;
    while k < 3
      invariant 0 <= k <= 1 && NoneUntil(d, after, day + k * DAY)
      decreases 3 - k
    {
      var start := AddDays(day, k);
      var end := AddDays(start, 1);
      DayLater(day, k);
      DayLater(start, 1);
      MidnightIsFirst();
      var off := 0;
      while off < DAY
        invariant 0 <= off && off % d == 0 && (k == 1 ==> off == 0)
        invariant NoneUntil(d, after, start + Cap(off))
        decreases DAY - off
      {
        var slot := On(start, off / HOUR, off % HOUR / MINUTE);
        SlotAt(d, start, off);
        if slot >= end {  // never, at a fixed offset
          break;
        }
        if slot > after {
          FirstIsLeast(d, after, slot);
          return Some(slot);
        }
        StepsOn(d, after, start, off);
        off := off + d;
      }
      k := k + 1;
    }
    return None;
  }

  lemma NoneYet(d: int, after: int, lo: int)
    requires d > 0 && lo <= after
    ensures NoneUntil(d, after, lo)
  {
  }

  lemma FirstIsLeast(d: int, after: int, slot: int)
    requires ValidInterval(d) && NoneUntil(d, after, slot) && after < slot && IntervalSlot(d, slot)
    ensures slot == IntervalAfter(d, after) && forall x :: after < x && IntervalSlot(d, x) ==> slot <= x
  {
    hide IntervalAfter, IntervalSlot;
    IntervalAfterIsLeast(d, after);
  }

  lemma NextMultiple(a: int, d: int)
    requires d > 0 && a % d == 0
    ensures (a + d) % d == 0
  {
    var p := a / d;
    assert a == p * d;
    assert a + d == (p + 1) * d;
    DivisionIs(a + d, d, p + 1, 0);
  }

  // ---- Once ----

  function OnceNext(at: int, after: int): (r: Option<int>)
    ensures r.Some? <==> after < at
    ensures r.Some? ==> r.value == at
  {
    if at > after then Some(at) else None
  }

  // ---- On some days ----

  /** "daily at hour:min", on the days of the week given. */
  predicate DailySlot(days: set<int>, hour: int, min: int, x: int) {
    x % DAY == hour * HOUR + min * MINUTE && Weekday(DayNo(x)) in days
  }

  predicate ValidClock(hour: int, min: int) {
    0 <= hour < 24 && 0 <= min < 60
  }

  /** So a slot is that hour and minute, on the dot, of such a day. */
  lemma DailyMeans(days: set<int>, hour: int, min: int, x: int)
    requires ValidClock(hour, min)
    ensures DailySlot(days, hour, min, x) <==>
            WholeMinute(x) && HourOf(x) == hour && MinuteOf(x) == min && Weekday(DayNo(x)) in days
  {
    hide HourOf, MinuteOf, WholeMinute, Weekday;
    var n := DayNo(x);
    assert x == n * DAY + x % DAY;
    if x % DAY == hour * HOUR + min * MINUTE {
      TimeOfDay(n, hour, min);
    }
    if WholeMinute(x) && HourOf(x) == hour && MinuteOf(x) == min {
      ClockIs(n, hour, min, x);
    }
  }

  lemma ClockIs(n: int, h: int, mi: int, x: int)
    requires ValidClock(h, mi) && DayNo(x) == n && HourOf(x) == h && MinuteOf(x) == mi && WholeMinute(x)
    ensures x % DAY == h * HOUR + mi * MINUTE
  {
    hide DayNo, HourOf;
    HourIs(x, n, h);
    var rest := x - n * DAY - h * HOUR;
    DivisionIs(x, HOUR, n * 24 + h, rest);
    DivisionIs(x, MINUTE, n * 1440 + h * 60 + rest / MINUTE, rest % MINUTE);
    DivisionIs(x, DAY, n, h * HOUR + rest);
  }

  /** No slot lies after the given time and before day lo. */
  ghost predicate NoDayUntil(days: set<int>, hour: int, min: int, after: int, lo: int) {
    forall x :: after < x && DailySlot(days, hour, min, x) ==> lo <= DayNo(x)
  }

  lemma DailyAt(days: set<int>, hour: int, min: int, day: int)
    requires ValidClock(hour, min) && Weekday(DayNo(day)) in days
    ensures var slot := On(day, hour, min); DailySlot(days, hour, min, slot) && DayNo(slot) == DayNo(day)
    ensures forall x :: DailySlot(days, hour, min, x) && DayNo(x) == DayNo(day) ==> x == On(day, hour, min)
  {
    hide On;
    OnIs(day, hour, min);
    assert hour * HOUR + min * MINUTE < DAY;
  }

  lemma DayPasses(days: set<int>, hour: int, min: int, after: int, day: int)
    requires ValidClock(hour, min) && NoDayUntil(days, hour, min, after, DayNo(day))
    requires Weekday(DayNo(day)) in days ==> On(day, hour, min) <= after
    ensures NoDayUntil(days, hour, min, after, DayNo(day) + 1)
  {
    hide On, DayNo;
    forall x | after < x && DailySlot(days, hour, min, x) ensures DayNo(day) + 1 <= DayNo(x) {
      if DayNo(x) == DayNo(day) {
        DailyAt(days, hour, min, day);
      }
    }
  }

  lemma NoDayYet(days: set<int>, hour: int, min: int, after: int)
    ensures NoDayUntil(days, hour, min, after, DayNo(after))
  {
  }

  lemma LaterDays(x: int, y: int)
    requires DayNo(x) < DayNo(y)
    ensures x < y
  {
  }

  lemma DayIsLeast(days: set<int>, hour: int, min: int, after: int, day: int)
    requires ValidClock(hour, min) && Weekday(DayNo(day)) in days && NoDayUntil(days, hour, min, after, DayNo(day))
    ensures forall x :: after < x && DailySlot(days, hour, min, x) ==> On(day, hour, min) <= x
  {
    hide On, DailySlot, DayNo, Weekday;
    DailyAt(days, hour, min, day);
    forall x | after < x && DailySlot(days, hour, min, x) ensures On(day, hour, min) <= x {
      if DayNo(x) != DayNo(day) {
        LaterDays(On(day, hour, min), x);
      }
    }
  }

  /** Some day of the week is one of days. */
  ghost predicate SomeDay(days: set<int>) {
    exists w :: 0 <= w < 7 && w in days
  }

  predicate DayOff(days: set<int>, n: int, k: int) {
    Weekday(n + k) !in days
  }

  lemma WeekHasDay(days: set<int>, n: int)
    requires forall k :: 1 <= k <= 7 ==> DayOff(days, n, k)
    ensures !SomeDay(days)
  {
    forall w | 0 <= w < 7 ensures w !in days {
      var k := (w - Weekday(n) - 1) % 7 + 1;
      assert Weekday(n + k) == w && DayOff(days, n, k);
    }
  }

  /** The first slot after t, from day k after it on. */
  function DailyFrom(days: set<int>, hour: int, min: int, t: int, k: nat): Option<int>
    decreases 9 - k
  {
    if k > 8 then None
    else
      var slot := (DayNo(t) + k) * DAY + hour * HOUR + min * MINUTE;
      if Weekday(DayNo(t) + k) in days && slot > t then Some(slot) else DailyFrom(days, hour, min, t, k + 1)
  }

  function DailyAfter(days: set<int>, hour: int, min: int, t: int): Option<int> {
    DailyFrom(days, hour, min, t, 0)
  }

  ghost predicate DailyLeast(days: set<int>, hour: int, min: int, t: int, r: Option<int>) {
    && (r.Some? <==> SomeDay(days))
    && (r.Some? ==> t < r.value && DailySlot(days, hour, min, r.value))
    && (forall x :: t < x && DailySlot(days, hour, min, x) ==> r.Some? && r.value <= x)
  }

  lemma DayAt(n: int, hour: int, min: int)
    requires ValidClock(hour, min)
    ensures DayNo(n * DAY) == n && On(n * DAY, hour, min) == n * DAY + hour * HOUR + min * MINUTE
    ensures DayNo(n * DAY + hour * HOUR + min * MINUTE) == n
  {
    hide On, DayNo;
    MidnightParts(n);
    OnIs(n * DAY, hour, min);
    TimeOfDay(n, hour, min);
  }

  lemma {:induction false} DailyFromIsLeast(days: set<int>, hour: int, min: int, t: int, k: nat)
    requires ValidClock(hour, min) && k <= 9 && NoDayUntil(days, hour, min, t, DayNo(t) + k)
    requires forall j :: 1 <= j < k ==> DayOff(days, DayNo(t), j)
    ensures DailyLeast(days, hour, min, t, DailyFrom(days, hour, min, t, k))
    decreases 9 - k
  {
    hide On, DailySlot, NoDayUntil, Weekday, DayNo, SomeDay;
    if k > 8 {
      WeekHasDay(days, DayNo(t));
      NoDayNoSlot(days, hour, min);
    } else {
      var n := DayNo(t) + k;
      var slot := n * DAY + hour * HOUR + min * MINUTE;
      DayAt(n, hour, min);
      if Weekday(n) in days {
        WeekdayInWeek(days, n);
        DailyAt(days, hour, min, n * DAY);
      }
      if Weekday(n) in days && slot > t {
        DayIsLeast(days, hour, min, t, n * DAY);
      } else {
        DayPasses(days, hour, min, t, n * DAY);
        if Weekday(n) in days {
          LaterDay(t, slot, k);
        }
        DailyFromIsLeast(days, hour, min, t, k + 1);
      }
    }
  }

  lemma NoDayNoSlot(days: set<int>, hour: int, min: int)
    requires !SomeDay(days)
    ensures forall x :: !DailySlot(days, hour, min, x)
  {
  }

  lemma DailyAfterIsLeast(days: set<int>, hour: int, min: int, t: int)
    requires ValidClock(hour, min)
    ensures DailyLeast(days, hour, min, t, DailyAfter(days, hour, min, t))
  {
    NoDayYet(days, hour, min, t);
    DailyFromIsLeast(days, hour, min, t, 0);
  }

  /** The least slot strictly after, whenever the days name any; none exactly
      when they do not. */
  method DailyNext(days: set<int>, hour: int, min: int, after: int) returns (r: Option<int>)
    requires ValidClock(hour, min)
    ensures r.Some? <==> SomeDay(days)
    ensures r.Some? ==> after < r.value && DailySlot(days, hour, min, r.value)
    ensures r.Some? ==> forall x :: after < x && DailySlot(days, hour, min, x) ==> r.value <= x
    ensures r == DailyAfter(days, hour, min, after)
  {
    hide DailyAfter;
    DailyAfterIsLeast(days, hour, min, after);
    hide AddDays, On, DailySlot, NoDayUntil, Weekday, DayNo, SomeDay;
    NoDayYet(days, hour, min, after);
    var k := 0;
    while k <= 8
      invariant 0 <= k <= 9 && NoDayUntil(days, hour, min, after, DayNo(after) + k)
      invariant forall j :: 1 <= j < k ==> DayOff(days, DayNo(after), j)
      decreases 9 - k
    {
      var day := AddDays(after, k);
      AddDaysIs(after, k);
      if Weekday(DayNo(day)) !in days {
        DayPasses(days, hour, min, after, day);
        k := k + 1;
        continue;
      }
      DailyAt(days, hour, min, day);
      WeekdayInWeek(days, DayNo(day));
      var slot := On(day, hour, min);
      if slot > after {
        DayIsLeast(days, hour, min, after, day);
        return Some(slot);
      }
      LaterDay(after, slot, k);
      DayPasses(days, hour, min, after, day);
      k := k + 1;
    }
    WeekHasDay(days, DayNo(after));
    return None;
  }

  lemma WeekdayInWeek(days: set<int>, n: int)
    requires Weekday(n) in days
    ensures SomeDay(days)
  {
  }

  /** A slot on a later day is later. */
  lemma LaterDay(after: int, slot: int, k: int)
    requires slot <= after && DayNo(slot) == DayNo(after) + k && k >= 0
    ensures k == 0
  {
  }
}
