/** Wall-clock time at a fixed offset: nanoseconds since midnight of
    Monday 1 January of the year 1, and the Gregorian calendar over it, for
    times before that too. */
module Calendar {

  const MINUTE: int := 60_000_000_000
  const HOUR: int := 60 * MINUTE
  const DAY: int := 24 * HOUR

  /** Days in 400 years. */
  const ERA: int := 146097

  // ---- Division ----

  lemma {:induction false} MultiplesGrow(p: int, q: int, d: int)
    requires p <= q && d > 0
    ensures p * d <= q * d
    decreases q - p
  {
    if p < q {
      MultiplesGrow(p, q - 1, d);
      assert q * d == (q - 1) * d + d;
    }
  }

  /** The one way to write x as a multiple of d and a remainder. */
  lemma DivisionIs(x: int, d: int, q: int, r: int)
    requires d > 0 && x == q * d + r && 0 <= r < d
    ensures x / d == q && x % d == r
  {
    var p := x / d;
    assert x == p * d + x % d && (q + 1) * d == q * d + d && (p + 1) * d == p * d + d;
    if p > q {
      MultiplesGrow(q + 1, p, d);
    } else if p < q {
      MultiplesGrow(p + 1, q, d);
    }
  }

  // ---- Years ----

  predicate IsLeap(y: int) {
    y % 4 == 0 && (y % 100 != 0 || y % 400 == 0)
  }

  /** The day number of 1 January of year y. */
  function YearStart(y: int): int {
    365 * (y - 1) + (y - 1) / 4 - (y - 1) / 100 + (y - 1) / 400
  }

  lemma QuotientSteps(x: int, d: int)
    requires d > 0
    ensures x / d - (x - 1) / d == if x % d == 0 then 1 else 0
  {
    var q, r := x / d, x % d;
    assert x == q * d + r && (q - 1) * d == q * d - d;
    if r == 0 {
      DivisionIs(x - 1, d, q - 1, d - 1);
    } else {
      DivisionIs(x - 1, d, q, r - 1);
    }
  }

  lemma Centuries(y: int)
    ensures y % 100 == 0 ==> y % 4 == 0
    ensures y % 400 == 0 ==> y % 100 == 0
  {
    if y % 100 == 0 {
      DivisionIs(y, 4, 25 * (y / 100), 0);
    }
    if y % 400 == 0 {
      DivisionIs(y, 100, 4 * (y / 400), 0);
    }
  }

  lemma YearLength(y: int)
    ensures YearStart(y + 1) - YearStart(y) == if IsLeap(y) then 366 else 365
  {
    QuotientSteps(y, 4);
    QuotientSteps(y, 100);
    QuotientSteps(y, 400);
    Centuries(y);
  }

  lemma {:induction false} YearsIncrease(y: int, y': int)
    requires y < y'
    ensures YearStart(y) < YearStart(y')
    decreases y' - y
  {
    YearLength(y' - 1);
    if y < y' - 1 {
      YearsIncrease(y, y' - 1);
    }
  }

  /** The year, in the first 400, that day d falls in, from y on. */
  function YearFrom(d: int, y: int): (r: int)
    requires 1 <= y <= 400 && YearStart(y) <= d < ERA
    ensures y <= r <= 400 && YearStart(r) <= d < YearStart(r + 1)
    decreases 400 - y
  {
    if y == 400 || d < YearStart(y + 1) then y else YearFrom(d, y + 1)
  }

  lemma QuotientShifts(x: int, d: int, k: int)
    requires d > 0
    ensures (x + k * d) / d == x / d + k
  {
    var q, r := x / d, x % d;
    assert x == q * d + r && (q + k) * d == q * d + k * d;
    DivisionIs(x + k * d, d, q + k, r);
  }

  lemma EraLength(y: int, e: int)
    ensures YearStart(y + 400 * e) == YearStart(y) + ERA * e
  {
    QuotientShifts(y - 1, 4, 100 * e);
    QuotientShifts(y - 1, 100, 4 * e);
    QuotientShifts(y - 1, 400, e);
  }

  function Year(d: int): int {
    YearFrom(d % ERA, 1) + 400 * (d / ERA)
  }

  lemma FirstYear()
    ensures YearStart(1) == 0
  {
  }

  lemma YearBounds(d: int)
    ensures YearStart(Year(d)) <= d < YearStart(Year(d) + 1)
  {
    hide YearStart;
    FirstYear();
    var e, y := d / ERA, YearFrom(d % ERA, 1);
    EraLength(y, e);
    EraLength(y + 1, e);
  }

  lemma YearIs(d: int, y: int)
    requires YearStart(y) <= d < YearStart(y + 1)
    ensures Year(d) == y
  {
    hide YearStart, Year;
    YearBounds(d);
    if Year(d) + 1 < y {
      YearsIncrease(Year(d) + 1, y);
    } else if y + 1 < Year(d) {
      YearsIncrease(y + 1, Year(d));
    }
  }

  // ---- Months and days ----

  /** Days of the year before month m; month 13 is the end of the year. */
  function DaysBefore(leap: bool, m: int): (d: int)
    requires 1 <= m <= 13
  {
    var l := if leap then 1 else 0;
    if m == 1 then 0 else if m == 2 then 31 else if m == 3 then 59 + l else if m == 4 then 90 + l
    else if m == 5 then 120 + l else if m == 6 then 151 + l else if m == 7 then 181 + l else if m == 8 then 212 + l
    else if m == 9 then 243 + l else if m == 10 then 273 + l else if m == 11 then 304 + l else if m == 12 then 334 + l
    else 365 + l
  }

  /** The day number of the first of month m. */
  function MonthStart(y: int, m: int): int
    requires 1 <= m <= 13
  {
    YearStart(y) + DaysBefore(IsLeap(y), m)
  }

  lemma MonthsIncrease(y: int, m: int, m': int)
    requires 1 <= m < m' <= 13
    ensures MonthStart(y, m) < MonthStart(y, m')
  {
  }

  function MonthFrom(d: int, y: int, m: int): (r: int)
    requires 1 <= m <= 12 && MonthStart(y, m) <= d < MonthStart(y, 13)
    ensures m <= r <= 12 && MonthStart(y, r) <= d < MonthStart(y, r + 1)
    decreases 12 - m
  {
    if d < MonthStart(y, m + 1) then m else MonthFrom(d, y, m + 1)
  }

  function Month(d: int): (m: int)
    ensures 1 <= m <= 12 && MonthStart(Year(d), m) <= d < MonthStart(Year(d), m + 1)
  {
    YearBounds(d);
    YearLength(Year(d));
    MonthFrom(d, Year(d), 1)
  }

  function Day(d: int): (n: int)
    ensures 1 <= n <= 31
  {
    d - MonthStart(Year(d), Month(d)) + 1
  }

  /** 0 is Sunday. */
  function Weekday(d: int): (w: int)
    ensures 0 <= w < 7
  {
    (d + 1) % 7
  }

  lemma MonthInYear(y: int, m: int)
    requires 1 <= m <= 12
    ensures YearStart(y) <= MonthStart(y, m) && MonthStart(y, m + 1) <= YearStart(y + 1)
  {
    hide YearStart;
    YearLength(y);
  }

  lemma MonthIs(d: int, y: int, m: int)
    requires 1 <= m <= 12 && MonthStart(y, m) <= d < MonthStart(y, m + 1)
    ensures Year(d) == y && Month(d) == m && Day(d) == d - MonthStart(y, m) + 1
  {
    hide YearStart, Year, MonthStart, Month;
    MonthInYear(y, m);
    YearIs(d, y);
    if Month(d) + 1 < m {
      MonthsIncrease(y, Month(d) + 1, m);
    } else if m + 1 < Month(d) {
      MonthsIncrease(y, m + 1, Month(d));
    }
  }

  // ---- Dates ----

  /** The day number of a date whose month and day may lie outside their
      range, as time.Date takes them. */
  function DateNo(y: int, m: int, d: int): int {
    MonthStart(y + (m - 1) / 12, (m - 1) % 12 + 1) + d - 1
  }

  function Date(y: int, m: int, d: int, h: int, mi: int): int {
    DateNo(y, m, d) * DAY + h * HOUR + mi * MINUTE
  }

  function DayNo(t: int): int {
    t / DAY
  }

  function HourOf(t: int): (h: int)
    ensures 0 <= h < 24
  {
    t % DAY / HOUR
  }

  function MinuteOf(t: int): (m: int)
    ensures 0 <= m < 60
  {
    t % HOUR / MINUTE
  }

  lemma DateNoIs(y: int, m: int, d: int)
    requires 1 <= m <= 13
    ensures DateNo(y, m, d) == MonthStart(y, m) + d - 1
  {
    if m == 13 {
      YearLength(y);
      assert (m - 1) / 12 == 1 && (m - 1) % 12 == 0;
    } else {
      assert (m - 1) / 12 == 0 && (m - 1) % 12 == m - 1;
    }
  }

  /** Reading a day's date and putting it back, some days on, is counting
      days. */
  lemma DateCountsDays(n: int, j: int)
    ensures DateNo(Year(n), Month(n), Day(n) + j) == n + j
  {
    hide DateNo, MonthStart, Year, Month;
    DateNoIs(Year(n), Month(n), Day(n) + j);
  }

  /** Every date that exists is read back as it is. */
  lemma DateReadsBack(y: int, m: int, d: int)
    requires 1 <= m <= 12 && 1 <= d <= MonthStart(y, m + 1) - MonthStart(y, m)
    ensures var n := DateNo(y, m, d); Year(n) == y && Month(n) == m && Day(n) == d
  {
    MonthIs(DateNo(y, m, d), y, m);
  }

  /** The first of the next month comes next after the days of this one. */
  lemma NextMonth(n: int)
    ensures var f := DateNo(Year(n), Month(n) + 1, 1);
            f > n && forall x :: n <= x < f ==> Month(x) == Month(n)
  {
    hide DateNo, MonthStart, Year, Month;
    var y, m := Year(n), Month(n);
    DateNoIs(y, m + 1, 1);
    forall x | n <= x < MonthStart(y, m + 1) ensures Month(x) == m {
      MonthIs(x, y, m);
    }
  }

  /** 1 January 1970 was a Thursday, and so is every seventh day from it. */
  lemma Thursdays(k: int)
    ensures Weekday(DateNo(1970, 1, 1 + 7 * k)) == 4
  {
  }
}
