/**
 Which valid expressions always have a next run, and when the others are refused.

 The search looks 366 days ahead.  From any start it meets every month and day of a common year once, but
 29 February and a day of the month that must also fall on certain weekdays can be further away.
 */
module CronReach {
  import opened Calendar
  import opened Cron
  import opened Modulo
  import opened Text

  /** Some later minute matches wherever one starts. */
  ghost predicate Perpetual(expr: string) {
    CronValid(expr) && forall after: nat :: !NoMatchAhead(expr, after)
  }

  // ---------- What the fields allow ----------

  predicate AllowsTime(expr: string, hour: int, minute: int)
    requires |Words(expr)| == 5
  {
    && 0 <= hour < 24 && 0 <= minute < 60
    && FieldAllows(Words(expr)[0], 0, 59, minute) && FieldAllows(Words(expr)[1], 0, 23, hour)
  }

  predicate AllowsDate(expr: string, date: Date)
    requires |Words(expr)| == 5
  {
    FieldAllows(Words(expr)[2], 1, 31, date.day) && FieldAllows(Words(expr)[3], 1, 12, date.month)
  }

  predicate AllowsWeekday(expr: string, weekday: int)
    requires |Words(expr)| == 5
  {
    FieldAllows(Words(expr)[4], 0, 6, weekday)
  }

  /** The minute of a day at some time. */
  function MinuteAt(day: nat, hour: int, minute: int): (t: nat)
    requires 0 <= hour < 24 && 0 <= minute < 60
    ensures DayOf(t) == day && HourOf(t) == hour && MinuteOfHour(t) == minute && TimeOfDay(t) == hour * 60 + minute
  {
    day * DAY_MINUTES + hour * 60 + minute
  }

  lemma MatchesAt(expr: string, day: nat, hour: int, minute: int)
    requires |Words(expr)| == 5 && AllowsTime(expr, hour, minute)
    requires AllowsDate(expr, DateOf(day)) && AllowsWeekday(expr, Weekday(day))
    ensures CronMatches(expr, MinuteAt(day, hour, minute))
  {
  }

  lemma MatchAllows(expr: string, t: nat)
    requires CronMatches(expr, t)
    ensures |Words(expr)| == 5 && AllowsTime(expr, HourOf(t), MinuteOfHour(t))
    ensures AllowsDate(expr, DateOf(DayOf(t))) && AllowsWeekday(expr, Weekday(DayOf(t)))
  {
  }

  /** A valid field allows some value of its range. */
  lemma FieldAllowsSome(field: string, min: int, max: int) returns (v: int)
    requires FieldValid(field, min, max) && min <= max
    ensures min <= v <= max && FieldAllows(field, min, max, v)
  {
    v := min;
    if field != "*" {
      var pieces := Pieces(field);
      var p := ReadPiece(pieces[0]);
      assert PieceValid(p, min, max);
      if p.Number? { v := p.value; }
      assert PieceAllows(p, min, max, v);
    }
  }

  lemma SomeTime(expr: string) returns (hour: int, minute: int)
    requires CronValid(expr)
    ensures AllowsTime(expr, hour, minute)
  {
    minute := FieldAllowsSome(Words(expr)[0], 0, 59);
    hour := FieldAllowsSome(Words(expr)[1], 0, 23);
  }

  // ---------- What lies within the horizon ----------

  /** The days ahead are searched completely, today after the start, and the 366th day up to the time of the start. */
  predicate InReach(after: nat, k: nat, time: int) {
    0 < k < 366 || (k == 0 && time > TimeOfDay(after)) || (k == 366 && time <= TimeOfDay(after))
  }

  lemma ReachIsHorizon(after: nat, k: nat, hour: int, minute: int)
    requires 0 <= hour < 24 && 0 <= minute < 60
    ensures after < MinuteAt(DayOf(after) + k, hour, minute) <= after + HORIZON <==>
            InReach(after, k, hour * 60 + minute)
  {
    assert after == DayOf(after) * DAY_MINUTES + TimeOfDay(after);
  }

  lemma TimeFromHours(t: nat)
    ensures TimeOfDay(t) == HourOf(t) * 60 + MinuteOfHour(t) && HourOf(t) < 24
  {
    RemainderOfRemainder(t, DAY_MINUTES, 60);
    var time := TimeOfDay(t);
    assert time == 60 * (time / 60) + time % 60;
  }

  lemma HorizonIsReach(after: nat, u: nat)
    requires after < u <= after + HORIZON
    ensures DayOf(after) <= DayOf(u) <= DayOf(after) + 366
    ensures InReach(after, DayOf(u) - DayOf(after), TimeOfDay(u))
    ensures TimeOfDay(u) == HourOf(u) * 60 + MinuteOfHour(u)
  {
    assert after == DayOf(after) * DAY_MINUTES + TimeOfDay(after);
    assert u == DayOf(u) * DAY_MINUTES + TimeOfDay(u);
    TimeFromHours(u);
  }

  lemma ReachedMatch(expr: string, after: nat, k: nat, hour: int, minute: int)
    requires |Words(expr)| == 5 && AllowsTime(expr, hour, minute) && InReach(after, k, hour * 60 + minute)
    requires AllowsDate(expr, DateOf(DayOf(after) + k)) && AllowsWeekday(expr, Weekday(DayOf(after) + k))
    ensures !NoMatchAhead(expr, after)
  {
    MatchesAt(expr, DayOf(after) + k, hour, minute);
    ReachIsHorizon(after, k, hour, minute);
  }

  // ---------- Expressions that restrict one of the day fields at most ----------

  predicate IsCommonDate(d: Date) {
    1 <= d.month <= 12 && 1 <= d.day <= DaysInMonth(1970, d.month)
  }

  /** The month and day fields allow a date that every year has. */
  ghost predicate AllowsCommonDate(expr: string)
    requires |Words(expr)| == 5
  {
    exists d: Date :: IsCommonDate(d) && AllowsDate(expr, d)
  }

  /** The place of a common date in every March year. */
  function Place(d: Date): (p: int)
    requires IsCommonDate(d)
    ensures 0 <= p <= 364
  {
    SinceMarchFits(d.(year := 1970));
    SinceMarch(d.(year := 1970))
  }

  lemma PlaceDecides(a: Date, d: Date)
    requires IsDate(a) && IsCommonDate(d) && SinceMarch(a) == Place(d)
    ensures a.month == d.month && a.day == d.day
  {
    SinceMarchDecides(a, d.(year := 1970));
  }

  lemma LaterThisYear(day: nat, d: Date) returns (k: nat)
    requires IsCommonDate(d) && Place(d) >= SinceMarch(DateOf(day))
    ensures k == Place(d) - SinceMarch(DateOf(day))
    ensures DateOf(day + k).month == d.month && DateOf(day + k).day == d.day
  {
    k := Place(d) - SinceMarch(DateOf(day));
    DatesInMarchYear(day, k);
    PlaceDecides(DateOf(day + k), d);
  }

  lemma InNextYear(day: nat, d: Date) returns (k: nat)
    requires IsCommonDate(d) && Place(d) <= SinceMarch(DateOf(day))
    ensures k == LastSinceMarch(MarchYear(DateOf(day))) + 1 + Place(d) - SinceMarch(DateOf(day))
    ensures DateOf(day + k).month == d.month && DateOf(day + k).day == d.day
  {
    SinceMarchFits(DateOf(day));
    k := LastSinceMarch(MarchYear(DateOf(day))) + 1 + Place(d) - SinceMarch(DateOf(day));
    DatesInNextMarchYear(day, k);
    PlaceDecides(DateOf(day + k), d);
  }

  /** Every date of a common year is met: later in this March year, or in the next one. */
  lemma CommonDateAhead(after: nat, d: Date, time: int) returns (k: nat)
    requires IsCommonDate(d)
    ensures InReach(after, k, time)
    ensures DateOf(DayOf(after) + k).month == d.month && DateOf(DayOf(after) + k).day == d.day
  {
    var s := SinceMarch(DateOf(DayOf(after)));
    SinceMarchFits(DateOf(DayOf(after)));
    if Place(d) > s || (Place(d) == s && time > TimeOfDay(after)) {
      k := LaterThisYear(DayOf(after), d);
    } else {
      k := InNextYear(DayOf(after), d);
    }
  }

  lemma AnyWeekdayReaches(expr: string, after: nat)
    requires CronValid(expr) && Words(expr)[4] == "*" && AllowsCommonDate(expr)
    ensures !NoMatchAhead(expr, after)
  {
    var hour, minute := SomeTime(expr);
    var d: Date :| IsCommonDate(d) && AllowsDate(expr, d);
    var k := CommonDateAhead(after, d, hour * 60 + minute);
    ReachedMatch(expr, after, k, hour, minute);
  }

  /** Where seven days of a month in a row begin: later in this March year, or in the next one. */
  function WeekStart(day: nat, month: int): int
    requires 1 <= month <= 12
  {
    var s, p := SinceMarch(DateOf(day)), SinceMarch(Date(1970, month, 1));
    if s < p then p - s else if s < p + 14 then 1 else LastSinceMarch(MarchYear(DateOf(day))) + 1 + p - s
  }

  lemma WeekAhead(day: nat, month: int, j: nat)
    requires 1 <= month <= 12 && j < 7
    ensures 0 < WeekStart(day, month) && WeekStart(day, month) + 6 < 366
    ensures DateOf(day + (WeekStart(day, month) + j)).month == month
  {
    var s, p := SinceMarch(DateOf(day)), SinceMarch(Date(1970, month, 1));
    SinceMarchFits(DateOf(day));
    assert 0 <= p <= 337;
    var k := WeekStart(day, month) + j;
    if s < p + 14 { DatesInMarchYear(day, k); } else { DatesInNextMarchYear(day, k); }
    MonthFromMarch(DateOf(day + k), month);
  }

  lemma MonthFromMarch(d: Date, month: int)
    requires IsDate(d) && 1 <= month <= 12
    requires 0 <= SinceMarch(d) - SinceMarch(Date(1970, month, 1)) < 28
    ensures d.month == month
  {
  }

  lemma WeekdayInWeek(day: nat, weekday: int) returns (j: nat)
    requires 0 <= weekday <= 6
    ensures j < 7 && Weekday(day + j) == weekday
  {
    j := (weekday - Weekday(day)) % 7;
  }

  lemma AnyDayOfMonthReaches(expr: string, after: nat)
    requires CronValid(expr) && Words(expr)[2] == "*"
    ensures !NoMatchAhead(expr, after)
  {
    var hour, minute := SomeTime(expr);
    var month := FieldAllowsSome(Words(expr)[3], 1, 12);
    var weekday := FieldAllowsSome(Words(expr)[4], 0, 6);
    WeekAhead(DayOf(after), month, 0);
    var k: nat := WeekStart(DayOf(after), month);
    var j := WeekdayInWeek(DayOf(after) + k, weekday);
    WeekAhead(DayOf(after), month, j);
    ReachedMatch(expr, after, k + j, hour, minute);
  }

  lemma AnyDayIsCommon(expr: string)
    requires CronValid(expr) && Words(expr)[2] == "*"
    ensures AllowsCommonDate(expr)
  {
    var month := FieldAllowsSome(Words(expr)[3], 1, 12);
    assert IsCommonDate(Date(1970, month, 1)) && AllowsDate(expr, Date(1970, month, 1));
  }

  /** Without such a date only 29 February is left. */
  lemma OnlyLeapDays(expr: string, d: Date)
    requires |Words(expr)| == 5 && !AllowsCommonDate(expr) && IsDate(d) && AllowsDate(expr, d)
    ensures IsLeapDay(d)
  {
    assert !IsCommonDate(d);
  }

  /** No 29 February lies in the 366 days after 1 March 1970. */
  lemma NoLeapDayAfterFirstMarch(first: nat, k: nat)
    requires DateOf(first) == Date(1970, 3, 1) && k <= 366
    ensures !IsLeapDay(DateOf(first + k))
  {
    if k <= 364 { DatesInMarchYear(first, k); } else { DatesInNextMarchYear(first, k); }
    LeapDaySinceMarch(DateOf(first + k));
  }

  lemma NeedsCommonDate(expr: string) returns (after: nat)
    requires CronValid(expr) && !AllowsCommonDate(expr)
    ensures NoMatchAhead(expr, after)
  {
    var first := FirstMarch(0);
    after := MinuteAt(first, 0, 0);
    forall u: nat | after < u <= after + HORIZON ensures !CronMatches(expr, u) {
      HorizonIsReach(after, u);
      NoLeapDayAfterFirstMarch(first, DayOf(u) - first);
      if CronMatches(expr, u) {
        MatchAllows(expr, u);
        OnlyLeapDays(expr, DateOf(DayOf(u)));
      }
    }
  }

  /** Whatever it restricts, an expression that always has a next run allows a date that every year has. */
  lemma PerpetualNeedsCommonDate(expr: string)
    requires Perpetual(expr)
    ensures AllowsCommonDate(expr)
  {
    if !AllowsCommonDate(expr) {
      var _ := NeedsCommonDate(expr);
    }
  }

  /**
   A valid expression that leaves the day of the month or the weekday open always has a next run if and only if
   its month and day fields allow some date that every year has.
   */
  lemma PerpetualIff(expr: string)
    requires CronValid(expr) && (Words(expr)[2] == "*" || Words(expr)[4] == "*")
    ensures Perpetual(expr) <==> AllowsCommonDate(expr)
  {
    if Perpetual(expr) { PerpetualNeedsCommonDate(expr); }
    if AllowsCommonDate(expr) {
      forall after: nat ensures !NoMatchAhead(expr, after) {
        if Words(expr)[2] == "*" { AnyDayOfMonthReaches(expr, after); } else { AnyWeekdayReaches(expr, after); }
      }
    }
  }

  /** In particular every valid expression that leaves the day of the month open, whatever its months and weekdays. */
  lemma AnyDayIsPerpetual(expr: string)
    requires CronValid(expr) && Words(expr)[2] == "*"
    ensures Perpetual(expr)
  {
    AnyDayIsCommon(expr);
    PerpetualIff(expr);
  }

  // ---------- When expressions for 29 February are refused ----------

  ghost predicate AllowsTimeAfter(expr: string, time: int)
    requires |Words(expr)| == 5
  {
    exists hour, minute :: AllowsTime(expr, hour, minute) && hour * 60 + minute > time
  }

  ghost predicate AllowsTimeUpTo(expr: string, time: int)
    requires |Words(expr)| == 5
  {
    exists hour, minute :: AllowsTime(expr, hour, minute) && hour * 60 + minute <= time
  }

  /**
   A 29 February is ahead: this winter's, unless it is today and its times have passed; or, on the last 28 February
   before a leap year, the one 366 days away, for the times up to now.
   */
  ghost predicate LeapDayAhead(expr: string, after: nat)
    requires |Words(expr)| == 5
  {
    var date, time := DateOf(DayOf(after)), TimeOfDay(after);
    var y := MarchYear(date);
    if Leap(y + 1) then !IsLeapDay(date) || AllowsTimeAfter(expr, time)
    else date.month == 2 && date.day == 28 && Leap(y + 2) && AllowsTimeUpTo(expr, time)
  }

  lemma LeapDayAt(day: nat, k: nat)
    requires k <= 366
    ensures var s, y := SinceMarch(DateOf(day)), MarchYear(DateOf(day));
            IsLeapDay(DateOf(day + k)) <==>
            if Leap(y + 1) then s + k == 365 else Leap(y + 2) && s == 364 && k == 366
  {
    var s, y := SinceMarch(DateOf(day)), MarchYear(DateOf(day));
    SinceMarchFits(DateOf(day));
    LeapDaySinceMarch(DateOf(day + k));
    NoTwoLeapYears(y + 1);
    var next := IntoNextMarchYear(day, k);
    if next < 0 {
      DatesInMarchYear(day, k);
    } else if next <= LastSinceMarch(y + 1) {
      DatesInNextMarchYear(day, k);
    } else {
      DatesBeyondNextMarchYear(day, k);
    }
  }

  lemma NoTwoLeapYears(year: int)
    ensures !Leap(year) || !Leap(year + 1)
  {
  }

  lemma LastOfFebruary(d: Date)
    requires IsDate(d)
    ensures SinceMarch(d) == 364 <==> d.month == 2 && d.day == 28
  {
  }

  lemma AheadIsFound(expr: string, after: nat)
    requires CronValid(expr) && Words(expr)[4] == "*" && AllowsDate(expr, Date(1972, 2, 29))
             && LeapDayAhead(expr, after)
    ensures !NoMatchAhead(expr, after)
  {
    var day, time := DayOf(after), TimeOfDay(after);
    var s, y := SinceMarch(DateOf(day)), MarchYear(DateOf(day));
    SinceMarchFits(DateOf(day));
    LeapDaySinceMarch(DateOf(day));
    LastOfFebruary(DateOf(day));
    var hour, minute := SomeTime(expr);
    var k := 366;
    if Leap(y + 1) {
      k := 365 - s;
      if k == 0 { hour, minute :| AllowsTime(expr, hour, minute) && hour * 60 + minute > time; }
    } else {
      hour, minute :| AllowsTime(expr, hour, minute) && hour * 60 + minute <= time;
    }
    LeapDayAt(day, k);
    ReachedMatch(expr, after, k, hour, minute);
  }

  lemma FoundIsAhead(expr: string, after: nat, u: nat)
    requires CronMatches(expr, u) && !AllowsCommonDate(expr) && after < u <= after + HORIZON
    ensures AllowsDate(expr, Date(1972, 2, 29)) && LeapDayAhead(expr, after)
  {
    MatchAllows(expr, u);
    HorizonIsReach(after, u);
    OnlyLeapDays(expr, DateOf(DayOf(u)));
    LeapDayAt(DayOf(after), DayOf(u) - DayOf(after));
    LeapDaySinceMarch(DateOf(DayOf(after)));
    LastOfFebruary(DateOf(DayOf(after)));
  }

  /**
   A valid expression with an open weekday that allows no date of every year is refused, on whatever day and at
   whatever time, exactly unless it allows 29 February and one is ahead.
   */
  lemma RefusedUnlessLeapDayAhead(expr: string, after: nat)
    requires CronValid(expr) && Words(expr)[4] == "*" && !AllowsCommonDate(expr)
    ensures NoMatchAhead(expr, after) <==> !(AllowsDate(expr, Date(1972, 2, 29)) && LeapDayAhead(expr, after))
  {
    if AllowsDate(expr, Date(1972, 2, 29)) && LeapDayAhead(expr, after) { AheadIsFound(expr, after); }
    if !NoMatchAhead(expr, after) {
      var u: nat :| after < u <= after + HORIZON && CronMatches(expr, u);
      FoundIsAhead(expr, after, u);
    }
  }

  lemma NumberField(field: string, value: int, min: int, max: int, v: int)
    requires field != "" && AllDigits(field) && DecimalValue(field) == value
    ensures FieldAllows(field, min, max, v) <==> v == value
  {
    NumberPiece(field);
    NoComma(field);
    SinglePiece(field, min, max);
  }

  lemma NoComma(field: string)
    requires field != "" && AllDigits(field)
    ensures ',' !in field && field != "*"
  {
    assert IsDigit(field[0]);
  }

  lemma TwoDigits(a: char, b: char)
    requires IsDigit(a) && IsDigit(b)
    ensures DecimalValue([a, b]) == DigitValue(a) * 10 + DigitValue(b)
    ensures DecimalValue([a]) == DigitValue(a)
  {
    var one, two := [a], [a, b];
    assert one[..0] == [] && two[..1] == one;
    assert DecimalValue(one) == DecimalValue(one[..0]) * 10 + DigitValue(one[0]);
    assert DecimalValue(two) == DecimalValue(two[..1]) * 10 + DigitValue(two[1]);
  }

  /** The plain expressions for 29 February are of this kind: they are refused exactly when none is ahead. */
  lemma LeapDayRefusedIff(expr: string, after: nat)
    requires CronValid(expr) && Words(expr)[2] == "29" && Words(expr)[3] == "2" && Words(expr)[4] == "*"
    ensures NoMatchAhead(expr, after) <==> !LeapDayAhead(expr, after)
  {
    TwoDigits('2', '9');
    forall d: Date ensures AllowsDate(expr, d) <==> IsLeapDay(d) {
      NumberField("29", 29, 1, 31, d.day);
      NumberField("2", 2, 1, 12, d.month);
    }
    RefusedUnlessLeapDayAhead(expr, after);
  }

  // ---------- Expressions that restrict both day fields ----------

  lemma WeekdaysGoOn(day: nat, k: nat)
    ensures Weekday(day + k) == (Weekday(day) + k) % 7
  {
  }

  /** The thirteenths of a March year. */
  lemma Thirteenths(d: Date)
    requires IsDate(d)
    ensures d.day == 13 <==> SinceMarch(d) in {12, 43, 73, 104, 134, 165, 196, 226, 257, 287, 318, 349}
  {
  }

  lemma FridaysThisYear(day: nat, k: nat)
    requires SinceMarch(DateOf(day)) == 166 && Weekday(day) == 6 && IntoNextMarchYear(day, k) < 0
    ensures !(DateOf(day + k).day == 13 && Weekday(day + k) == 5)
  {
    DatesInMarchYear(day, k);
    Thirteenths(DateOf(day + k));
    WeekdaysGoOn(day, k);
  }

  lemma FridaysNextYear(day: nat, k: nat)
    requires SinceMarch(DateOf(day)) == 166 && Weekday(day) == 6 && IntoNextMarchYear(day, k) >= 0 && k <= 366
    ensures DateOf(day + k).day == 13 && Weekday(day + k) == 5 <==> !Leap(MarchYear(DateOf(day)) + 1) && k == 272
  {
    DatesInNextMarchYear(day, k);
    Thirteenths(DateOf(day + k));
    WeekdaysGoOn(day, k);
  }

  /** After a Friday 13 August the next Friday the 13th comes in May, unless the next year is a leap year. */
  lemma FridaysTheThirteenth(day: nat, k: nat)
    requires SinceMarch(DateOf(day)) == 166 && Weekday(day) == 6 && k <= 366
    ensures DateOf(day + k).day == 13 && Weekday(day + k) == 5 <==> !Leap(MarchYear(DateOf(day)) + 1) && k == 272
  {
    if IntoNextMarchYear(day, k) < 0 { FridaysThisYear(day, k); } else { FridaysNextYear(day, k); }
  }

  predicate ForFridaysTheThirteenth(expr: string) {
    CronValid(expr) && Words(expr)[2] == "13" && Words(expr)[3] == "*" && Words(expr)[4] == "5"
  }

  lemma FridayFields(expr: string, d: Date, weekday: int)
    requires ForFridaysTheThirteenth(expr)
    ensures AllowsDate(expr, d) <==> d.day == 13
    ensures AllowsWeekday(expr, weekday) <==> weekday == 5
  {
    TwoDigits('1', '3');
    TwoDigits('5', '5');
    NumberField("13", 13, 1, 31, d.day);
    NumberField("5", 5, 0, 6, weekday);
  }

  /** 14 August after a Friday the 13th. */
  predicate AfterFridayInAugust(day: nat) {
    SinceMarch(DateOf(day)) == 166 && Weekday(day) == 6
  }

  lemma NextFridayInMay(expr: string, after: nat)
    requires ForFridaysTheThirteenth(expr) && AfterFridayInAugust(DayOf(after))
             && !Leap(MarchYear(DateOf(DayOf(after))) + 1)
    ensures !NoMatchAhead(expr, after)
  {
    var hour, minute := SomeTime(expr);
    FridaysTheThirteenth(DayOf(after), 272);
    FridayFields(expr, DateOf(DayOf(after) + 272), 5);
    ReachedMatch(expr, after, 272, hour, minute);
  }

  lemma NoFridayBeforeLeapYear(expr: string, after: nat, u: nat)
    requires ForFridaysTheThirteenth(expr) && AfterFridayInAugust(DayOf(after))
             && Leap(MarchYear(DateOf(DayOf(after))) + 1)
    requires after < u <= after + HORIZON
    ensures !CronMatches(expr, u)
  {
    HorizonIsReach(after, u);
    FridaysTheThirteenth(DayOf(after), DayOf(u) - DayOf(after));
    FridayFields(expr, DateOf(DayOf(u)), Weekday(DayOf(u)));
    if CronMatches(expr, u) { MatchAllows(expr, u); }
  }

  /**
   On 14 August after a Friday the 13th, an expression for Fridays the 13th of any month is refused exactly before
   a leap year.
   */
  lemma FridayThirteenthRefusedIff(expr: string, after: nat)
    requires ForFridaysTheThirteenth(expr) && AfterFridayInAugust(DayOf(after))
    ensures NoMatchAhead(expr, after) <==> Leap(MarchYear(DateOf(DayOf(after))) + 1)
  {
    if Leap(MarchYear(DateOf(DayOf(after))) + 1) {
      forall u: nat | after < u <= after + HORIZON ensures !CronMatches(expr, u) {
        NoFridayBeforeLeapYear(expr, after, u);
      }
    } else {
      NextFridayInMay(expr, after);
    }
  }

  lemma NextFirst(first: nat, y: int) returns (day: nat)
    requires DateOf(first) == Date(y, 3, 1)
    ensures DateOf(day) == Date(y + 1, 3, 1) && day == first + LastSinceMarch(y) + 1
    ensures Weekday(day) == (Weekday(first) + (day - first)) % 7
  {
    var k := LastSinceMarch(y) + 1;
    NextFirstOfMarch(first, y);
    WeekdaysGoOn(first, k);
    day := first + k;
  }

  lemma PlaceInYear(first: nat, s: nat, y: int)
    requires DateOf(first) == Date(y, 3, 1) && s <= LastSinceMarch(y)
    ensures SinceMarch(DateOf(first + s)) == s && MarchYear(DateOf(first + s)) == y
    ensures Weekday(first + s) == (Weekday(first) + s) % 7
  {
    DatesInMarchYear(first, s);
    WeekdaysGoOn(first, s);
  }

  /** 14 August 1971 was such a day, and 1972 a leap year. */
  lemma AugustNineteenSeventyOne() returns (day: nat)
    ensures AfterFridayInAugust(day) && MarchYear(DateOf(day)) == 1971
  {
    var first := FirstMarch(0);
    var second := MondayFirst(first);
    AugustAfterMonday(second, 1971);
    day := second + 166;
  }

  lemma AugustAfterMonday(first: nat, y: int)
    requires DateOf(first) == Date(y, 3, 1) && Weekday(first) == 1
    ensures AfterFridayInAugust(first + 166) && MarchYear(DateOf(first + 166)) == y
  {
    PlaceInYear(first, 166, y);
  }

  lemma MondayFirst(first: nat) returns (second: nat)
    requires DateOf(first) == Date(1970, 3, 1) && Weekday(first) == 0
    ensures DateOf(second) == Date(1971, 3, 1) && Weekday(second) == 1
  {
    second := NextFirst(first, 1970);
    assert LastSinceMarch(1970) == 364;
  }

  lemma ThirteenthIsCommon(expr: string)
    requires ForFridaysTheThirteenth(expr)
    ensures AllowsCommonDate(expr)
  {
    FridayFields(expr, Date(1970, 1, 13), 5);
    assert IsCommonDate(Date(1970, 1, 13));
  }

  /** So a date that every year has is not enough when the weekday is restricted too. */
  lemma FridayThirteenthIsNotPerpetual(expr: string)
    requires ForFridaysTheThirteenth(expr)
    ensures AllowsCommonDate(expr) && !Perpetual(expr)
  {
    ThirteenthIsCommon(expr);
    var day := AugustNineteenSeventyOne();
    var after := MinuteAt(day, 0, 0);
    assert Leap(1972);
    FridayThirteenthRefusedIff(expr, after);
  }

  // ---------- Every expression: 28 years decide ----------

  /** Days on which the following year looks the same: place in the March year, weekday and the length of this and
      the next March year. */
  predicate Twins(a: nat, b: nat) {
    var x, y := DateOf(a), DateOf(b);
    && SinceMarch(x) == SinceMarch(y) && Weekday(a) == Weekday(b)
    && LastSinceMarch(MarchYear(x)) == LastSinceMarch(MarchYear(y))
    && LastSinceMarch(MarchYear(x) + 1) == LastSinceMarch(MarchYear(y) + 1)
  }

  lemma TwinsInMarchYear(a: nat, b: nat, k: nat)
    requires Twins(a, b) && IntoNextMarchYear(a, k) < 0
    ensures DateOf(a + k).month == DateOf(b + k).month && DateOf(a + k).day == DateOf(b + k).day
  {
    DatesInMarchYear(a, k);
    DatesInMarchYear(b, k);
    SinceMarchDecides(DateOf(a + k), DateOf(b + k));
  }

  lemma TwinsInNextMarchYear(a: nat, b: nat, k: nat)
    requires Twins(a, b) && 0 <= IntoNextMarchYear(a, k) <= LastSinceMarch(MarchYear(DateOf(a)) + 1)
    ensures DateOf(a + k).month == DateOf(b + k).month && DateOf(a + k).day == DateOf(b + k).day
  {
    TwinsMoveOn(a, b, k);
    assert SinceMarch(DateOf(a + k)) == IntoNextMarchYear(a, k) by { DatesInNextMarchYear(a, k); }
    assert SinceMarch(DateOf(b + k)) == IntoNextMarchYear(b, k) by { DatesInNextMarchYear(b, k); }
    SinceMarchDecides(DateOf(a + k), DateOf(b + k));
  }

  lemma TwinsMoveOn(a: nat, b: nat, k: nat)
    requires Twins(a, b)
    ensures IntoNextMarchYear(a, k) == IntoNextMarchYear(b, k)
  {
  }

  lemma TwinsBeyond(a: nat, b: nat, k: nat)
    requires Twins(a, b) && k <= 366 && IntoNextMarchYear(a, k) > LastSinceMarch(MarchYear(DateOf(a)) + 1)
    ensures DateOf(a + k).month == DateOf(b + k).month && DateOf(a + k).day == DateOf(b + k).day
  {
    DatesBeyondNextMarchYear(a, k);
    DatesBeyondNextMarchYear(b, k);
  }

  lemma TwinsStayAlike(a: nat, b: nat, k: nat)
    requires Twins(a, b) && k <= 366
    ensures DateOf(a + k).month == DateOf(b + k).month && DateOf(a + k).day == DateOf(b + k).day
    ensures Weekday(a + k) == Weekday(b + k)
  {
    WeekdaysGoOn(a, k);
    WeekdaysGoOn(b, k);
    var next := IntoNextMarchYear(a, k);
    if next < 0 {
      TwinsInMarchYear(a, b, k);
    } else if next <= LastSinceMarch(MarchYear(DateOf(a)) + 1) {
      TwinsInNextMarchYear(a, b, k);
    } else {
      TwinsBeyond(a, b, k);
    }
  }

  /** What a match at some days' distance says, and what makes one. */
  lemma TwinMatchAt(expr: string, a: nat, b: nat, k: nat, u: nat)
    requires Twins(a, b) && k <= 366 && CronMatches(expr, u) && DayOf(u) == a + k
    ensures HourOf(u) < 24 && CronMatches(expr, MinuteAt(b + k, HourOf(u), MinuteOfHour(u)))
  {
    TimeFromHours(u);
    TwinsStayAlike(a, b, k);
    MatchAllows(expr, u);
    MatchesAt(expr, b + k, HourOf(u), MinuteOfHour(u));
  }

  lemma SameReach(after: nat, other: nat, u: nat, k: nat)
    requires TimeOfDay(after) == TimeOfDay(other) && after < u <= after + HORIZON && DayOf(u) == DayOf(after) + k
    ensures k <= 366 && HourOf(u) < 24
    ensures other < MinuteAt(DayOf(other) + k, HourOf(u), MinuteOfHour(u)) <= other + HORIZON
  {
    HorizonIsReach(after, u);
    TimeFromHours(u);
    ReachIsHorizon(other, k, HourOf(u), MinuteOfHour(u));
  }

  lemma TwinMatch(expr: string, after: nat, other: nat, u: nat) returns (v: nat)
    requires Twins(DayOf(after), DayOf(other)) && TimeOfDay(after) == TimeOfDay(other)
    requires after < u <= after + HORIZON && CronMatches(expr, u)
    ensures other < v <= other + HORIZON && CronMatches(expr, v)
  {
    var k := DaysBetween(after, u);
    SameReach(after, other, u, k);
    TwinMatchAt(expr, DayOf(after), DayOf(other), k, u);
    v := MinuteAt(DayOf(other) + k, HourOf(u), MinuteOfHour(u));
  }

  lemma DaysBetween(after: nat, u: nat) returns (k: nat)
    requires after < u
    ensures DayOf(u) == DayOf(after) + k
  {
    k := DayOf(u) - DayOf(after);
  }

  lemma TwinsAreRefusedAlike(expr: string, after: nat, other: nat)
    requires Twins(DayOf(after), DayOf(other)) && TimeOfDay(after) == TimeOfDay(other)
    requires !NoMatchAhead(expr, after)
    ensures !NoMatchAhead(expr, other)
  {
    var u: nat :| after < u <= after + HORIZON && CronMatches(expr, u);
    var _ := TwinMatch(expr, after, other, u);
  }

  /** The firsts of March of the years from 1970 on, with their weekdays. */
  lemma {:induction false} MarchFirst(n: nat) returns (day: nat)
    requires n <= 27
    ensures DateOf(day) == Date(1970 + n, 3, 1) && 0 < day < 60 + 366 * n
    ensures Weekday(day) == (n + (n + 2) / 4) % 7
  {
    if n == 0 {
      day := FirstMarch(0);
    } else {
      var before := MarchFirst(n - 1);
      day := NextFirst(before, 1969 + n);
      LeapYearsAfter1970(n);
      FirstsMoveOn(n, day - before);
    }
  }

  /** The weekday of 1 March moves on by one, and by one more over a leap day. */
  lemma FirstsMoveOn(n: nat, k: nat)
    requires 0 < n && k == if n % 4 == 2 then 366 else 365
    ensures ((n - 1 + (n + 1) / 4) % 7 + k) % 7 == (n + (n + 2) / 4) % 7
  {
    var x := n - 1 + (n + 1) / 4;
    assert (n + 2) / 4 == (n + 1) / 4 + (if n % 4 == 2 then 1 else 0);
    SameWeekday(x % 7 + k, n + (n + 2) / 4, 52 - x / 7);
  }

  lemma SameWeekday(x: int, y: int, weeks: int)
    requires x == y + 7 * weeks
    ensures x % 7 == y % 7
  {
  }

  lemma LeapYearsAfter1970(n: nat)
    requires n <= 29
    ensures Leap(1970 + n) <==> n % 4 == 2
  {
  }

  /** Every weekday of 1 March occurs with every kind of year within 28 years. */
  lemma YearOfKind(weekday: int, leapNow: bool, leapNext: bool) returns (n: nat)
    requires 0 <= weekday <= 6 && !(leapNow && leapNext)
    ensures n <= 26 && (n + (n + 2) / 4) % 7 == weekday
    ensures LastSinceMarch(1970 + n) == (if leapNow then 365 else 364)
    ensures LastSinceMarch(1970 + n + 1) == (if leapNext then 365 else 364)
  {
    var r := if leapNow then 1 else if leapNext then 0 else 2;
    var c := if leapNow then 1 else if leapNext then 0 else 3;
    var q := 3 * (weekday - c) % 7;
    n := 4 * q + r;
    assert (n + 2) / 4 == q + c - r;
    LeapYearsAfter1970(n + 1);
    LeapYearsAfter1970(n + 2);
  }

  /** How many days a check of an expression has to start from. */
  const SAMPLE_DAYS := 28 * 366

  lemma TwinInSample(day: nat) returns (twin: nat)
    ensures Twins(twin, day) && 0 < twin < SAMPLE_DAYS
  {
    var s, y := SinceMarch(DateOf(day)), MarchYear(DateOf(day));
    SinceMarchFits(DateOf(day));
    NoTwoLeapYears(y + 1);
    var n := YearOfKind((Weekday(day) - s) % 7, Leap(y + 1), Leap(y + 2));
    var first := MarchFirst(n);
    BackToWeekday(Weekday(day), s);
    twin := first + s;
    PlaceInYear(first, s, 1970 + n);
    TwinOfKind(twin, day, 1970 + n);
  }

  lemma TwinOfKind(twin: nat, day: nat, year: int)
    requires SinceMarch(DateOf(twin)) == SinceMarch(DateOf(day)) && Weekday(twin) == Weekday(day)
    requires MarchYear(DateOf(twin)) == year
    requires LastSinceMarch(year) == LastSinceMarch(MarchYear(DateOf(day)))
    requires LastSinceMarch(year + 1) == LastSinceMarch(MarchYear(DateOf(day)) + 1)
    ensures Twins(twin, day)
  {
  }

  lemma BackToWeekday(weekday: int, s: int)
    requires 0 <= weekday < 7
    ensures ((weekday - s) % 7 + s) % 7 == weekday
  {
    SameWeekday((weekday - s) % 7 + s, weekday, -((weekday - s) / 7));
  }

  lemma SampleReaches(expr: string, after: nat)
    requires forall other: nat :: 0 < DayOf(other) < SAMPLE_DAYS ==> !NoMatchAhead(expr, other)
    ensures !NoMatchAhead(expr, after)
  {
    var twin := TwinInSample(DayOf(after));
    var hour, minute := HourOf(after), MinuteOfHour(after);
    TimeFromHours(after);
    TwinsAreRefusedAlike(expr, MinuteAt(twin, hour, minute), after);
  }

  /**
   Any valid expression at all, whichever fields it restricts, always has a next run if and only if it has one from
   every minute of 28 years.
   */
  lemma PerpetualIffSampled(expr: string)
    requires CronValid(expr)
    ensures Perpetual(expr) <==> forall after: nat :: DayOf(after) < SAMPLE_DAYS ==> !NoMatchAhead(expr, after)
  {
    if forall after: nat :: DayOf(after) < SAMPLE_DAYS ==> !NoMatchAhead(expr, after) {
      forall after: nat ensures !NoMatchAhead(expr, after) {
        SampleReaches(expr, after);
      }
    }
  }

  // ---------- Every expression: its day fields decide ----------

  /** The month, day and weekday fields allow a day. */
  predicate AllowsDay(expr: string, day: nat)
    requires |Words(expr)| == 5
  {
    AllowsDate(expr, DateOf(day)) && AllowsWeekday(expr, Weekday(day))
  }

  /** They allow one of the 366 days after this one. */
  ghost predicate AllowsDayAfter(expr: string, day: nat)
    requires |Words(expr)| == 5
  {
    exists d: nat :: day < d <= day + 366 && AllowsDay(expr, d)
  }

  lemma MatchAllowsDay(expr: string, u: nat)
    requires CronMatches(expr, u)
    ensures |Words(expr)| == 5 && AllowsDay(expr, DayOf(u))
  {
    MatchAllows(expr, u);
  }

  /** From the last minute of a day the search meets the times of the 366 days after it. */
  lemma ReachNeedsDay(expr: string, after: nat)
    requires CronValid(expr) && !NoMatchAhead(expr, after) && TimeOfDay(after) == DAY_MINUTES - 1
    ensures AllowsDayAfter(expr, DayOf(after))
  {
    var u: nat :| after < u <= after + HORIZON && CronMatches(expr, u);
    HorizonIsReach(after, u);
    MatchAllowsDay(expr, u);
    TimeFitsDay(u);
  }

  lemma TimeFitsDay(t: nat)
    ensures TimeOfDay(t) < DAY_MINUTES
  {
  }

  lemma ReachedDay(expr: string, after: nat, day: nat, hour: int, minute: int)
    requires |Words(expr)| == 5 && AllowsTime(expr, hour, minute) && AllowsDay(expr, day)
    requires DayOf(after) <= day && InReach(after, day - DayOf(after), hour * 60 + minute)
    ensures !NoMatchAhead(expr, after)
  {
    ReachedMatch(expr, after, day - DayOf(after), hour, minute);
  }

  /** From within a day it meets a time on this day, on the 365 days after it, or again up to the time of the start. */
  lemma DaysGiveReach(expr: string, after: nat, day: nat)
    requires CronValid(expr) && day + 1 == DayOf(after)
    requires AllowsDayAfter(expr, day) && AllowsDayAfter(expr, day + 1)
    ensures !NoMatchAhead(expr, after)
  {
    var hour, minute := SomeTime(expr);
    var later: nat :| day + 1 < later <= day + 1 + 366 && AllowsDay(expr, later);
    if later < day + 1 + 366 || hour * 60 + minute <= TimeOfDay(after) {
      ReachedDay(expr, after, later, hour, minute);
    } else {
      var sooner: nat :| day < sooner <= day + 366 && AllowsDay(expr, sooner);
      ReachedDay(expr, after, sooner, hour, minute);
    }
  }

  lemma LastMinute(day: nat) returns (after: nat)
    ensures DayOf(after) == day && TimeOfDay(after) == DAY_MINUTES - 1
  {
    after := MinuteAt(day, 23, 59);
  }

  /**
   Whichever fields it restricts, a valid expression always has a next run if and only if each day of 28 years is
   followed, within 366 days, by one that its month, day and weekday fields allow.
   */
  lemma PerpetualIffDaysAllowed(expr: string)
    requires CronValid(expr)
    ensures Perpetual(expr) <==> forall day: nat :: day < SAMPLE_DAYS ==> AllowsDayAfter(expr, day)
  {
    if Perpetual(expr) {
      forall day: nat | day < SAMPLE_DAYS ensures AllowsDayAfter(expr, day) {
        var after := LastMinute(day);
        ReachNeedsDay(expr, after);
      }
    }
    if forall day: nat :: day < SAMPLE_DAYS ==> AllowsDayAfter(expr, day) {
      forall other: nat | 0 < DayOf(other) < SAMPLE_DAYS ensures !NoMatchAhead(expr, other) {
        DaysGiveReach(expr, other, DayOf(other) - 1);
      }
      forall after: nat ensures !NoMatchAhead(expr, after) {
        SampleReaches(expr, after);
      }
    }
  }
}
