/** DAF::Date_Time: range checks, adding days in place, the nearest weekday, comparison, and conversion to seconds. */
module DateTime {
  import opened Calendar
  import opened Lexicographic

  datatype Stamp = Stamp(date: Date, hour: int, minute: int, second: int, microsec: int)

  /** The exceptions of the source. */
  datatype Outcome = Ok | DateTimeException | IllegalArgumentException

  const LAST_YEAR := 3000

  predicate ValidStamp(s: Stamp) {
    && ValidDate(s.date) && s.date.year <= LAST_YEAR
    && 0 <= s.hour <= 23 && 0 <= s.minute <= 59 && 0 <= s.second <= 59 && 0 <= s.microsec <= 999999
  }

  /** assertDateRange: asking for the length of a month or of a year out of range throws at once; anything else out of
      range makes the constructor throw. */
  function CheckRange(s: Stamp): (r: Outcome)
    ensures r == Ok <==> ValidStamp(s)
    ensures r == IllegalArgumentException <==>
              1 <= s.date.day <= 31 && !(1 <= s.date.month <= 12 && 1 <= s.date.year <= LAST_YEAR)
  {
    if !(1 <= s.date.day <= 31) then DateTimeException
    else if !(1 <= s.date.month <= 12) || !(1 <= s.date.year <= LAST_YEAR) then IllegalArgumentException
    else if s.date.day > MonthLength(s.date.year, s.date.month) then DateTimeException
    else if !(0 <= s.hour <= 23) || !(0 <= s.minute <= 59) || !(0 <= s.second <= 59) then DateTimeException
    else if !(0 <= s.microsec <= 999999) then DateTimeException
    else Ok
  }

  /** The last day number of the accepted range. */
  const LAST := 2817152

  lemma LastDay()
    ensures DayNumber(Date(31, 12, LAST_YEAR)) == LAST
  {
  }

  /** The constructor accepts what JUGDate computes exactly for the day numbers of the accepted years. */
  lemma DateOfIsAcceptedInRange(jd: int, s: Stamp)
    requires ValidStamp(s)
    ensures CheckRange(s.(date := DateOf(jd))) == Ok <==> FIRST <= jd <= LAST
  {
    hide DateOf, DayNumber;
    var last := Date(31, 12, LAST_YEAR);
    LastDay();
    if jd < FIRST {
      DateOfEarlyNumber(jd);
    } else {
      DayNumberOfDate(jd);
      OrderIsLinear(last, DateOf(jd));
    }
  }

  lemma StampInRange(s: Stamp)
    requires ValidStamp(s)
    ensures FIRST <= DayNumber(s.date) <= LAST
  {
    hide DateOf, DayNumber;
    DateOfDayNumber(s.date);
    DateOfIsAcceptedInRange(DayNumber(s.date), s);
  }

  // ----- adding days

  /** Whether a sum stays in the accepted range. */
  predicate Accepts(s: Stamp, days: int) {
    FIRST <= DayNumber(s.date) + days <= LAST
  }

  function PlusDays(s: Stamp, days: int): Stamp {
    s.(date := DateOf(DayNumber(s.date) + days))
  }

  /** Adding days is an action of the integers: in range, days add up, nothing is the identity, and subtracting undoes
      adding. */
  lemma AdditionIsAnAction(s: Stamp, a: int, b: int)
    requires ValidStamp(s) && Accepts(s, a)
    ensures ValidStamp(PlusDays(s, a)) && DayNumber(PlusDays(s, a).date) == DayNumber(s.date) + a
    ensures Accepts(PlusDays(s, a), b) <==> Accepts(s, a + b)
    ensures PlusDays(PlusDays(s, a), b) == PlusDays(s, a + b)
    ensures PlusDays(s, 0) == s
    ensures PlusDays(PlusDays(s, a), -a) == s
  {
    hide DateOf, DayNumber;
    DateOfIsAcceptedInRange(DayNumber(s.date) + a, s);
    DayNumberOfDate(DayNumber(s.date) + a);
    DateOfDayNumber(s.date);
    assert DayNumber(s.date) + a + b == DayNumber(s.date) + (a + b);
    assert DayNumber(s.date) + a + -a == DayNumber(s.date);
  }

  /** Adding n days is n steps of the calendar. */
  lemma AdditionIsCounting(s: Stamp, n: nat)
    requires ValidStamp(s)
    ensures PlusDays(s, n) == s.(date := DaysAfter(s.date, n))
  {
    hide DateOf, DayNumber;
    AddingIsCounting(s.date, n);
  }

  // ----- comparison and time

  /** The fields in the order in which compare_to looks at them. */
  function Keys(s: Stamp): (keys: seq<int>)
    ensures |keys| == 7
  {
    [s.date.year, s.date.month, s.date.day, s.hour, s.minute, s.second, s.microsec]
  }

  lemma KeysTellApart(a: Stamp, b: Stamp)
    ensures LexSign(Keys(a), Keys(b)) == 0 <==> a == b
  {
    hide LexSign;
    LexSignZero(Keys(a), Keys(b));
    var x, y := Keys(a), Keys(b);
    if x == y { assert x[0] == y[0] && x[1] == y[1] && x[2] == y[2] && x[3] == y[3] && x[4] == y[4] && x[5] == y[5]; }
  }

  /** operator ACE_Time_Value: seconds since the start of 1970, and microseconds. */
  function Seconds(s: Stamp): int {
    86400 * (DayNumber(s.date) - UNIX_EPOCH) + 3600 * s.hour + 60 * s.minute + s.second
  }

  /** Midnight of 1 January 1970 is second 0, the next day of the calendar begins 86400 seconds later, and an hour, a
      minute and a second add what they should. */
  lemma SecondsCount(s: Stamp, n: int)
    requires ValidDate(s.date)
    ensures Seconds(Stamp(Date(1, 1, 1970), 0, 0, 0, n)) == 0
    ensures Seconds(s.(date := NextDay(s.date))) == Seconds(s) + 86400
    ensures Seconds(s.(hour := s.hour + n)) == Seconds(s) + 3600 * n
    ensures Seconds(s.(minute := s.minute + n)) == Seconds(s) + 60 * n
    ensures Seconds(s.(second := s.second + n)) == Seconds(s) + n && Seconds(s.(microsec := n)) == Seconds(s)
  {
    UnixEpoch();
    NextDayIsNextNumber(s.date);
    hide DayNumber, NextDay;
  }

  lemma SecondsOrder(a: Stamp, b: Stamp)
    requires ValidStamp(a) && ValidStamp(b)
    ensures Before(a.date, b.date) ==> Seconds(a) < Seconds(b)
    ensures a.date == b.date ==>
              Sign(Seconds(a), Seconds(b)) == LexSign([a.hour, a.minute, a.second], [b.hour, b.minute, b.second])
  {
    hide DateOf, DayNumber;
    OrderIsLinear(a.date, b.date);
    var x, y := [a.hour, a.minute, a.second], [b.hour, b.minute, b.second];
    LexSignAt(x, y,
              if a.hour != b.hour then 0 else if a.minute != b.minute then 1 else if a.second != b.second then 2 else 3);
  }

  /** The order of the fields is the order of time: compare_to has the sign of the comparison of (seconds,
      microseconds). */
  lemma ComparisonIsTimeOrder(a: Stamp, b: Stamp)
    requires ValidStamp(a) && ValidStamp(b)
    ensures LexSign(Keys(a), Keys(b)) == LexSign([Seconds(a), a.microsec], [Seconds(b), b.microsec])
    ensures LexSign(Keys(a), Keys(b)) == 0 <==> a == b
  {
    hide DateOf, DayNumber, Seconds;
    SecondsOrder(a, b);
    SecondsOrder(b, a);
    var x, y := Keys(a), Keys(b);
    var k := if x[0] != y[0] then 0 else if x[1] != y[1] then 1 else if x[2] != y[2] then 2 else if x[3] != y[3] then 3
             else if x[4] != y[4] then 4 else if x[5] != y[5] then 5 else if x[6] != y[6] then 6 else 7;
    LexSignAt(x, y, k);
    var p, q := [a.hour, a.minute, a.second], [b.hour, b.minute, b.second];
    if k >= 3 { LexSignAt(p, q, if k == 3 then 0 else if k == 4 then 1 else if k == 5 then 2 else 3); }
    LexSignAt([Seconds(a), a.microsec], [Seconds(b), b.microsec],
              if Seconds(a) != Seconds(b) then 0 else if a.microsec != b.microsec then 1 else 2);
  }

  // ----- the class

  class DateTime {
    var day: int
    var month: int
    var year: int
    var hour: int
    var minute: int
    var second: int
    var microsec: int
    var weekday: int

    ghost function Abs(): Stamp
      reads this
    {
      Stamp(Date(day, month, year), hour, minute, second, microsec)
    }

    /** An object never holds a date out of range, and its weekday is that of its date. */
    ghost predicate Valid()
      reads this
    {
      ValidStamp(Abs()) && weekday == WeekDay(DayNumber(Abs().date))
    }

    constructor (s: Stamp)
      requires ValidStamp(s)
      ensures Valid() && Abs() == s
    {
      day, month, year := s.date.day, s.date.month, s.date.year;
      hour, minute, second, microsec := s.hour, s.minute, s.second, s.microsec;
      weekday := WeekDay(DayNumber(s.date));
    }

    /** The constructors of the source, which throw instead of making an object out of range. */
    static method Create(s: Stamp) returns (r: Outcome, dt: DateTime?)
      ensures r == CheckRange(s)
      ensures r == Ok <==> dt != null
      ensures dt != null ==> fresh(dt) && dt.Valid() && dt.Abs() == s
    {
      r, dt := CheckRange(s), null;
      if r == Ok { dt := new DateTime(s); }
    }

    /** operator =: any value out of range is refused, with the same exception, and changes nothing. */
    method Assign(s: Stamp) returns (r: Outcome)
      modifies this
      ensures r == if ValidStamp(s) then Ok else IllegalArgumentException
      ensures r == Ok ==> Valid() && Abs() == s
      ensures r != Ok ==> unchanged(this)
    {
      if CheckRange(s) != Ok { return IllegalArgumentException; }
      day, month, year := s.date.day, s.date.month, s.date.year;
      hour, minute, second, microsec := s.hour, s.minute, s.second, s.microsec;
      weekday := WeekDay(DayNumber(Date(day, month, year)));
      return Ok;
    }

    /** operator +=: the sum is stored if its year is accepted; otherwise an exception leaves the object as it was. */
    method AddDays(days: int) returns (r: Outcome)
      requires Valid()
      modifies this
      ensures Valid()
      ensures r == Ok <==> Accepts(old(Abs()), days)
      ensures r == CheckRange(PlusDays(old(Abs()), days))
      ensures Abs() == if r == Ok then PlusDays(old(Abs()), days) else old(Abs())
    {
      hide DateOf, DayNumber;
      var jd := DayNumber(Date(day, month, year)) + days;
      var sum := Stamp(DateOf(jd), hour, minute, second, microsec);
      DateOfIsAcceptedInRange(jd, Abs());
      r := CheckRange(sum);
      if r == Ok { r := Assign(sum); }
    }

    /** operator -= */
    method SubtractDays(days: int) returns (r: Outcome)
      requires Valid()
      modifies this
      ensures Valid()
      ensures r == Ok <==> Accepts(old(Abs()), -days)
      ensures r == CheckRange(PlusDays(old(Abs()), -days))
      ensures Abs() == if r == Ok then PlusDays(old(Abs()), -days) else old(Abs())
    {
      hide DateOf, DayNumber;
      var jd := DayNumber(Date(day, month, year)) - days;
      var difference := Stamp(DateOf(jd), hour, minute, second, microsec);
      DateOfIsAcceptedInRange(jd, Abs());
      r := CheckRange(difference);
      if r == Ok { r := Assign(difference); }
    }

    /** compare_to: field after field until one differs. For an operand in range that is the order of time. */
    method CompareTo(that: Stamp) returns (rtn: int)
      requires Valid()
      ensures rtn == LexSign(Keys(Abs()), Keys(that))
      ensures ValidStamp(that) ==> rtn == LexSign([Seconds(Abs()), microsec], [Seconds(that), that.microsec])
      ensures rtn == 0 <==> Abs() == that
    {
      hide LexSign, Seconds, DayNumber;
      ghost var a, b := Keys(Abs()), Keys(that);
      var idx := 0;
      rtn := 0;
      while rtn == 0 && idx < 7
        invariant 0 <= idx <= 7
        invariant forall i :: 0 <= i < idx && (rtn == 0 || i < idx - 1) ==> a[i] == b[i]
        invariant rtn != 0 ==> idx > 0 && a[idx - 1] != b[idx - 1] && rtn == Sign(a[idx - 1], b[idx - 1])
        decreases 7 - idx
      {
        match idx {
          case 0 => rtn := Sign(year, that.date.year);
          case 1 => rtn := Sign(month, that.date.month);
          case 2 => rtn := Sign(day, that.date.day);
          case 3 => rtn := Sign(hour, that.hour);
          case 4 => rtn := Sign(minute, that.minute);
          case 5 => rtn := Sign(second, that.second);
          case _ => rtn := Sign(microsec, that.microsec);
        }
        idx := idx + 1;
      }
      LexSignAt(a, b, if rtn == 0 then 7 else idx - 1);
      KeysTellApart(Abs(), that);
      if ValidStamp(that) { ComparisonIsTimeOrder(Abs(), that); }
    }

    /** next: the nearest later day with weekday d, if d is one and the day is in range. */
    method Next(d: int) returns (r: Outcome, s: Stamp)
      requires Valid()
      ensures !(0 <= d <= 6) ==> r == IllegalArgumentException
      ensures 0 <= d <= 6 ==> (r == Ok <==> NextWeekDay(DayNumber(Abs().date), d) <= LAST)
      ensures r == Ok ==> s == Abs().(date := s.date) && ValidStamp(s)
      ensures r == Ok ==> DayNumber(s.date) == NextWeekDay(DayNumber(Abs().date), d)
    {
      hide DateOf, DayNumber;
      s := Stamp(Date(day, month, year), hour, minute, second, microsec);
      if !(0 <= d <= 6) { return IllegalArgumentException, s; }
      var jd := DayNumber(s.date);
      var next := NextWeekDay(jd, d);
      StampInRange(s);
      NextIsNearest(jd, d, jd);
      DateOfIsAcceptedInRange(next, s);
      DayNumberOfDate(next);
      s := s.(date := DateOf(next));
      r := CheckRange(s);
    }

    /** prev: the nearest earlier day with weekday d, if d is one and the day is in range. */
    method Prev(d: int) returns (r: Outcome, s: Stamp)
      requires Valid()
      ensures !(0 <= d <= 6) ==> r == IllegalArgumentException
      ensures 0 <= d <= 6 ==> (r == Ok <==> FIRST <= PrevWeekDay(DayNumber(Abs().date), d))
      ensures r == Ok ==> s == Abs().(date := s.date) && ValidStamp(s)
      ensures r == Ok ==> DayNumber(s.date) == PrevWeekDay(DayNumber(Abs().date), d)
    {
      hide DateOf, DayNumber;
      s := Stamp(Date(day, month, year), hour, minute, second, microsec);
      if !(0 <= d <= 6) { return IllegalArgumentException, s; }
      var jd := DayNumber(s.date);
      var prev := PrevWeekDay(jd, d);
      StampInRange(s);
      PrevIsNearest(jd, d, jd);
      DateOfIsAcceptedInRange(prev, s);
      if FIRST <= prev { DayNumberOfDate(prev); }
      s := s.(date := DateOf(prev));
      r := CheckRange(s);
    }
  }
}
