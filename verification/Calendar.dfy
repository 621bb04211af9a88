/** The calendar arithmetic of DAF::Date_Time: Gregorian dates and Julian day numbers after Algorithm 199 of the
    Communications of the ACM (volume 6, number 8, August 1963, p. 444), against the rules of the calendar. */
module Calendar {

  /** Integer division of the source language: towards zero. */
  function Div(a: int, b: int): int
    requires b > 0
  {
    if a >= 0 then a / b else -(-a / b)
  }

  datatype Date = Date(day: int, month: int, year: int)

  // ----- the rules of the calendar

  predicate IsLeapYear(y: int) {
    if y % 4 != 0 then false else if y % 400 != 0 then y % 100 != 0 else true
  }

  /** The table of the source. */
  function MonthLength(y: int, m: int): int {
    if m == 2 then (if IsLeapYear(y) then 29 else 28)
    else if m == 4 || m == 6 || m == 9 || m == 11 then 30
    else 31
  }

  predicate ValidDate(dt: Date) {
    1 <= dt.year && 1 <= dt.month <= 12 && 1 <= dt.day <= MonthLength(dt.year, dt.month)
  }

  /** The day after. */
  function NextDay(dt: Date): Date {
    if dt.day < MonthLength(dt.year, dt.month) then Date(dt.day + 1, dt.month, dt.year)
    else if dt.month < 12 then Date(1, dt.month + 1, dt.year)
    else Date(1, 1, dt.year + 1)
  }

  // ----- the algorithm

  const EPOCH := 1721119

  /** JUGDay */
  function DayNumber(dt: Date): int {
    var y := if dt.month > 2 then dt.year else dt.year - 1;
    var ma := if dt.month > 2 then dt.month - 3 else dt.month + 9;
    var ca := Div(y, 100);
    var ya := y - ca * 100;
    dt.day + Div(ca * 146097, 4) + Div(ya * 1461, 4) + Div(ma * 153 + 2, 5) + EPOCH
  }

  /** JUGDate, before the range checks of the constructor. */
  function DateOf(jd: int): Date {
    var j0 := jd - EPOCH;
    var y0 := Div(j0 * 4 - 1, 146097);
    var j1 := (j0 * 4 - 1) - y0 * 146097;
    var d1 := Div(j1, 4);
    var j2 := Div(d1 * 4 + 3, 1461);
    var d2 := (d1 * 4 + 3) - j2 * 1461;
    var d3 := Div(d2 + 4, 4);
    var m0 := Div(d3 * 5 - 3, 153);
    var d4 := (d3 * 5 - 3) - m0 * 153;
    var y1 := 100 * y0 + j2;
    Date(Div(d4 + 5, 5), if m0 < 10 then m0 + 3 else m0 - 9, if m0 < 10 then y1 else y1 + 1)
  }

  /** Days before March of year y, and days from March to month `ma` counted from March. */
  function YearStart(y: int): int { Div(Div(y, 100) * 146097, 4) + Div((y - Div(y, 100) * 100) * 1461, 4) }
  function MonthStart(ma: int): int { Div(ma * 153 + 2, 5) }

  /** The algorithm counts years and months from March. */
  function MarchYear(dt: Date): int { if dt.month > 2 then dt.year else dt.year - 1 }
  function MarchMonth(dt: Date): int { if dt.month > 2 then dt.month - 3 else dt.month + 9 }

  lemma DayNumberIs(dt: Date)
    ensures DayNumber(dt) == dt.day + YearStart(MarchYear(dt)) + MonthStart(MarchMonth(dt)) + EPOCH
  {
    hide Div;
  }

  // ----- inversion

  lemma MonthFromDay(ma: int, day: int)
    requires 0 <= ma <= 11 && 1 <= day <= 31
    requires day == 31 ==> ma !in {1, 3, 6, 8, 11}
    ensures var d3 := day + MonthStart(ma);
            Div(d3 * 5 - 3, 153) == ma && Div(d3 * 5 - 3 - ma * 153 + 5, 5) == day
  {
  }

  /** The two outer divisions: century, then year of the century. */
  lemma CenturyFromDay(ca: int, dc: int)
    requires ca >= 0 && 0 <= dc <= 36524 && (dc == 36524 ==> ca % 4 == 3)
    ensures var j := dc + 1 + Div(ca * 146097, 4);
            Div(j * 4 - 1, 146097) == ca && Div(j * 4 - 1 - ca * 146097, 4) == dc
  {
    var j := dc + 1 + Div(ca * 146097, 4);
    assert j * 4 - 1 == 146097 * ca + (4 * dc + 3 - ca % 4);
  }

  lemma YearFromDay(ya: int, dy: int)
    requires 0 <= ya <= 99 && 0 <= dy <= 365 && (dy == 365 ==> ya % 4 == 3)
    ensures var d := dy + Div(ya * 1461, 4);
            Div(d * 4 + 3, 1461) == ya && Div(d * 4 + 3 - ya * 1461 + 4, 4) == dy + 1
  {
    var d := dy + Div(ya * 1461, 4);
    assert d * 4 + 3 == 1461 * ya + (4 * dy + 3 - ya % 4);
  }

  /** A year has a 366th day, and a century a 36525th, only when it ends in a leap year. */
  lemma LeapDayBounds(dt: Date, ca: int, ya: int, dy: int)
    requires ValidDate(dt)
    requires ca == Div(MarchYear(dt), 100) && ya == MarchYear(dt) - ca * 100
    requires dy == dt.day - 1 + MonthStart(MarchMonth(dt))
    ensures ca >= 0 && 0 <= ya <= 99 && 0 <= dy <= 365 && (dy == 365 ==> ya % 4 == 3)
    ensures var dc := dy + Div(ya * 1461, 4); 0 <= dc <= 36524 && (dc == 36524 ==> ca % 4 == 3)
  {
  }

  /** DateOf undoes the five divisions one by one. */
  lemma DateOfParts(ca: int, ya: int, ma: int, day: int, jd: int)
    requires 0 <= ca && 0 <= ya <= 99 && 0 <= ma <= 11 && 1 <= day <= 31 && (day == 31 ==> ma !in {1, 3, 6, 8, 11})
    requires var dy := day - 1 + MonthStart(ma);
             && 0 <= dy <= 365 && (dy == 365 ==> ya % 4 == 3)
             && 0 <= dy + Div(ya * 1461, 4) <= 36524 && (dy + Div(ya * 1461, 4) == 36524 ==> ca % 4 == 3)
    requires jd == day + Div(ca * 146097, 4) + Div(ya * 1461, 4) + MonthStart(ma) + EPOCH
    ensures DateOf(jd) == Date(day, if ma < 10 then ma + 3 else ma - 9, 100 * ca + ya + if ma < 10 then 0 else 1)
  {
    hide Div, MonthStart;
    var dy := day - 1 + MonthStart(ma);
    CenturyFromDay(ca, dy + Div(ya * 1461, 4));
    YearFromDay(ya, dy);
    MonthFromDay(ma, day);
    var j0 := jd - EPOCH;
    assert Div(j0 * 4 - 1, 146097) == ca;
    var d1 := Div((j0 * 4 - 1) - ca * 146097, 4);
    assert d1 == dy + Div(ya * 1461, 4);
    assert Div(d1 * 4 + 3, 1461) == ya;
    var d3 := Div((d1 * 4 + 3) - ya * 1461 + 4, 4);
    assert d3 == dy + 1 == day + MonthStart(ma);
    assert Div(d3 * 5 - 3, 153) == ma;
  }

  lemma DateOfDayNumber(dt: Date)
    requires ValidDate(dt)
    ensures DateOf(DayNumber(dt)) == dt
  {
    hide DateOf, DayNumber, Div, MonthStart;
    var ca, ma := Div(MarchYear(dt), 100), MarchMonth(dt);
    var ya := MarchYear(dt) - ca * 100;
    DayNumberIs(dt);
    LeapDayBounds(dt, ca, ya, dt.day - 1 + MonthStart(ma));
    DateOfParts(ca, ya, ma, dt.day, DayNumber(dt));
  }

  // ----- the algorithm follows the calendar

  /** A century has 36524 days and every fourth one more; so have years, with 365. */
  lemma Quarters(n: int)
    requires n >= 0
    ensures Div(n * 146097, 4) == 36524 * n + n / 4 && Div(n * 1461, 4) == 365 * n + n / 4
  {
  }

  lemma QuarterStep(n: int)
    requires n >= 0
    ensures (n + 1) / 4 == n / 4 + if (n + 1) % 4 == 0 then 1 else 0
  {
  }

  lemma HundredsAndFours(n: int, k: int)
    requires n >= 0 && 0 <= k <= 99
    ensures (100 * n + k) % 4 == k % 4
    ensures k == 0 ==> ((100 * n) % 400 == 0 <==> n % 4 == 0)
  {
    assert 100 * n + k == 4 * (25 * n + k / 4) + k % 4;
    assert 100 * n == 400 * (n / 4) + 100 * (n % 4);
  }

  lemma CenturyStep(y: int)
    requires y >= 0
    ensures var ca := Div(y, 100);
            if y % 100 == 99 then Div(y + 1, 100) == ca + 1 && y + 1 == 100 * (ca + 1)
            else Div(y + 1, 100) == ca && 0 <= y - 100 * ca < 99
  {
    assert y == 100 * (y / 100) + y % 100;
  }

  /** From March to March there is a leap day if and only if the year reached is a leap year. */
  lemma YearStep(y: int)
    requires y >= 0
    ensures YearStart(y + 1) == YearStart(y) + if IsLeapYear(y + 1) then 366 else 365
  {
    hide Div;
    CenturyStep(y);
    var ca, ya := Div(y, 100), y - Div(y, 100) * 100;
    Quarters(ca);
    Quarters(ya);
    if y % 100 == 99 {
      HundredsAndFours(ca + 1, 0);
      Quarters(ca + 1);
      Quarters(0);
      QuarterStep(ca);
    } else {
      HundredsAndFours(ca, ya + 1);
      Quarters(ya + 1);
      QuarterStep(ya);
    }
  }

  lemma MonthStep(y: int, m: int)
    requires 1 <= m <= 12 && m != 2
    ensures var ma := if m > 2 then m - 3 else m + 9;
            ma < 11 && MonthStart(ma + 1) == MonthStart(ma) + MonthLength(y, m)
  {
  }

  lemma MonthStartEnds()
    ensures MonthStart(11) == 337 && MonthStart(0) == 0
  {
  }

  /** Day numbers run on from the last day of a month. */
  lemma NextMonthStarts(dt: Date)
    requires ValidDate(dt) && dt.day == MonthLength(dt.year, dt.month)
    ensures DayNumber(NextDay(dt)) == DayNumber(dt) + 1
  {
    hide DayNumber, YearStart, MonthStart;
    DayNumberIs(dt);
    DayNumberIs(NextDay(dt));
    if dt.month == 2 {
      MonthStartEnds();
      YearStep(dt.year - 1);
    } else {
      MonthStep(dt.year, dt.month);
    }
  }

  lemma DayOfMonthAdds(dt: Date, day: int)
    ensures DayNumber(dt) == DayNumber(dt.(day := day)) + dt.day - day
  {
    hide DayNumber, YearStart, MonthStart;
    DayNumberIs(dt);
    DayNumberIs(dt.(day := day));
  }

  /** The calendar's next day has the next number. */
  lemma NextDayIsNextNumber(dt: Date)
    requires ValidDate(dt)
    ensures ValidDate(NextDay(dt)) && DayNumber(NextDay(dt)) == DayNumber(dt) + 1
  {
    hide DayNumber;
    if dt.day == MonthLength(dt.year, dt.month) { NextMonthStarts(dt); } else { DayOfMonthAdds(dt, dt.day + 1); }
  }

  const FIRST := 1721426  // 1 January of year 1

  /** Every number from the first day on is the number of a valid date. */
  lemma {:induction false} EveryNumberIsADate(jd: int) returns (dt: Date)
    requires jd >= FIRST
    ensures ValidDate(dt) && DayNumber(dt) == jd
  {
    if jd == FIRST {
      dt := Date(1, 1, 1);
    } else {
      hide DayNumber;
      dt := EveryNumberIsADate(jd - 1);
      NextDayIsNextNumber(dt);
      dt := NextDay(dt);
    }
  }

  lemma DayNumberOfDate(jd: int)
    requires jd >= FIRST
    ensures ValidDate(DateOf(jd)) && DayNumber(DateOf(jd)) == jd
  {
    hide DateOf, DayNumber;
    var dt := EveryNumberIsADate(jd);
    DateOfDayNumber(dt);
  }

  /** Before that day the algorithm yields no year of the accepted range. */
  lemma DateOfEarlyNumber(jd: int)
    requires jd < FIRST
    ensures DateOf(jd).year <= 0
  {
    var j0 := jd - EPOCH;
    var y0 := Div(j0 * 4 - 1, 146097);
    var j1 := (j0 * 4 - 1) - y0 * 146097;
    var d1 := Div(j1, 4);
    var j2 := Div(d1 * 4 + 3, 1461);
    var d2 := (d1 * 4 + 3) - j2 * 1461;
    var d3 := Div(d2 + 4, 4);
    if j0 > 0 {
      assert y0 == 0 && d1 == j0 - 1 && j2 == 0 && d3 == j0;
      assert Div(d3 * 5 - 3, 153) < 10;
    } else {
      assert y0 <= 0 && -146097 < j1 <= 0;
      assert d1 <= 0 && j2 <= 0 && d2 <= 3 && d3 <= 1;
    }
  }

  // ----- adding days, and the order of dates

  /** The date n calendar days after dt. */
  function DaysAfter(dt: Date, n: nat): Date {
    if n == 0 then dt else NextDay(DaysAfter(dt, n - 1))
  }

  lemma {:induction false} DaysAfterNumber(dt: Date, n: nat)
    requires ValidDate(dt)
    ensures ValidDate(DaysAfter(dt, n)) && DayNumber(DaysAfter(dt, n)) == DayNumber(dt) + n
  {
    hide DayNumber;
    if n > 0 {
      DaysAfterNumber(dt, n - 1);
      NextDayIsNextNumber(DaysAfter(dt, n - 1));
    }
  }

  /** Adding n to the day number is n steps of the calendar. */
  lemma AddingIsCounting(dt: Date, n: nat)
    requires ValidDate(dt)
    ensures DateOf(DayNumber(dt) + n) == DaysAfter(dt, n)
  {
    hide DateOf, DayNumber;
    DaysAfterNumber(dt, n);
    DateOfDayNumber(DaysAfter(dt, n));
  }

  /** Year first, then month, then day. */
  predicate Before(a: Date, b: Date) {
    a.year < b.year || (a.year == b.year && (a.month < b.month || (a.month == b.month && a.day < b.day)))
  }

  lemma {:induction false} LaterIsAfter(dt: Date, n: nat)
    requires ValidDate(dt) && n > 0
    ensures Before(dt, DaysAfter(dt, n))
  {
    hide DayNumber;
    DaysAfterNumber(dt, n - 1);
    if n > 1 { LaterIsAfter(dt, n - 1); }
  }

  /** The order of dates is the order of their numbers. */
  lemma OrderIsLinear(a: Date, b: Date)
    requires ValidDate(a) && ValidDate(b)
    ensures Before(a, b) <==> DayNumber(a) < DayNumber(b)
    ensures a == b <==> DayNumber(a) == DayNumber(b)
  {
    hide DateOf, DayNumber;
    var n := DayNumber(b) - DayNumber(a);
    DateOfDayNumber(a);
    DateOfDayNumber(b);
    if n > 0 {
      AddingIsCounting(a, n);
      LaterIsAfter(a, n);
    } else if n < 0 {
      AddingIsCounting(b, -n);
      LaterIsAfter(b, -n);
    }
  }

  // ----- days of the week and of the year

  function Abs(a: int): nat { if a < 0 then -a else a }

  /** WEEKDay: 0 is Sunday. */
  function WeekDay(jd: int): int { (Abs(jd + 1) % 7 + 7) % 7 }

  lemma WeekDayIs(jd: int)
    requires jd >= -1
    ensures WeekDay(jd) == (jd + 1) % 7
  {
  }

  /** next(weekday) and prev(weekday), on day numbers. */
  function NextWeekDay(jd: int, d: int): int { jd + (6 + d - WeekDay(jd)) % 7 + 1 }
  function PrevWeekDay(jd: int, d: int): int { jd - (6 + WeekDay(jd) - d) % 7 - 1 }

  lemma ModShift(a: nat, i: nat)
    requires i <= 7
    ensures (a + i) % 7 == if a % 7 + i < 7 then a % 7 + i else a % 7 + i - 7
  {
    var k := a / 7;
    assert a + i == 7 * k + (a % 7 + i);
    assert a % 7 + i >= 7 ==> a + i == 7 * (k + 1) + (a % 7 + i - 7);
  }

  /** The weekday i days on. */
  lemma WeekDayShift(jd: int, i: int)
    requires jd >= -1 && 0 <= i <= 7
    ensures WeekDay(jd + i) == if WeekDay(jd) + i < 7 then WeekDay(jd) + i else WeekDay(jd) + i - 7
  {
    hide WeekDay;
    WeekDayIs(jd);
    WeekDayIs(jd + i);
    ModShift(jd + 1, i);
  }

  /** next gives the first day strictly after with the weekday asked for. */
  lemma NextIsNearest(jd: int, d: int, other: int)
    requires jd >= -1 && 0 <= d <= 6
    ensures jd < NextWeekDay(jd, d) <= jd + 7 && WeekDay(NextWeekDay(jd, d)) == d
    ensures jd < other < NextWeekDay(jd, d) ==> WeekDay(other) != d
  {
    hide WeekDay;
    WeekDayIs(jd);
    var next := NextWeekDay(jd, d);
    WeekDayShift(jd, next - jd);
    if jd < other < next { WeekDayShift(jd, other - jd); }
  }

  /** prev gives the last day strictly before with the weekday asked for. */
  lemma PrevIsNearest(jd: int, d: int, other: int)
    requires jd >= 6 && 0 <= d <= 6
    ensures jd - 7 <= PrevWeekDay(jd, d) < jd && WeekDay(PrevWeekDay(jd, d)) == d
    ensures PrevWeekDay(jd, d) < other < jd ==> WeekDay(other) != d
  {
    hide WeekDay;
    WeekDayIs(jd);
    var prev := PrevWeekDay(jd, d);
    WeekDayIs(prev);
    WeekDayShift(prev, jd - prev);
    if prev < other < jd { WeekDayShift(prev, other - prev); }
  }

  /** Thursday 1 January 1970 has the number the conversion to seconds takes as its origin. */
  const UNIX_EPOCH := 2440588

  lemma UnixEpoch()
    ensures DayNumber(Date(1, 1, 1970)) == UNIX_EPOCH && WeekDay(UNIX_EPOCH) == 4
  {
  }

  /** julianDay: the day of the year. */
  function JulianDay(dt: Date): int { DayNumber(dt) - DayNumber(Date(31, 12, dt.year - 1)) }

  /** The table of the source, corrected for leap years. */
  function FirstDayOfMonth(y: int, m: int): int
    requires 1 <= m <= 12
  {
    [1, 32, 60, 91, 121, 152, 182, 213, 244, 274, 305, 335][m - 1] + if m > 2 && IsLeapYear(y) then 1 else 0
  }

  function DaysBefore(y: int, m: int): int
    requires 1 <= m <= 12
    decreases m
  {
    if m == 1 then 0 else DaysBefore(y, m - 1) + MonthLength(y, m - 1)
  }

  lemma {:induction false} TableCountsDays(y: int, m: int)
    requires 1 <= m <= 12
    ensures FirstDayOfMonth(y, m) == DaysBefore(y, m) + 1
    decreases m
  {
    if m > 1 { TableCountsDays(y, m - 1); }
  }

  lemma NewYear(y: int)
    requires y >= 1
    ensures DayNumber(Date(1, 1, y)) == DayNumber(Date(31, 12, y - 1)) + 1
  {
  }

  lemma {:induction false} JulianDayOfFirst(y: int, m: int)
    requires y >= 1 && 1 <= m <= 12
    ensures JulianDay(Date(1, m, y)) == DaysBefore(y, m) + 1
    decreases m
  {
    hide DayNumber, MonthLength;
    if m == 1 {
      NewYear(y);
    } else {
      JulianDayOfFirst(y, m - 1);
      NextMonthIsMonthLater(y, m);
    }
  }

  lemma NextMonthIsMonthLater(y: int, m: int)
    requires y >= 1 && 1 < m <= 12
    ensures DayNumber(Date(1, m, y)) == DayNumber(Date(1, m - 1, y)) + MonthLength(y, m - 1)
  {
    hide DayNumber, IsLeapYear;
    var last := Date(MonthLength(y, m - 1), m - 1, y);
    DayOfMonthAdds(last, 1);
    NextMonthStarts(last);
  }

  /** julianDay counts the days of the months before, and agrees with the table of firstDayOfMonth. */
  lemma JulianDayCounts(dt: Date)
    requires ValidDate(dt)
    ensures JulianDay(dt) == DaysBefore(dt.year, dt.month) + dt.day
    ensures JulianDay(dt) == FirstDayOfMonth(dt.year, dt.month) + dt.day - 1
    ensures 1 <= JulianDay(dt) <= if IsLeapYear(dt.year) then 366 else 365
  {
    hide DayNumber;
    TableCountsDays(dt.year, dt.month);
    JulianDayOfFirst(dt.year, dt.month);
    DayOfMonthAdds(dt, 1);
  }
}
