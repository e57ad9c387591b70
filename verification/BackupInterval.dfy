/**
 The backup interval in minutes and the cron expression that stands for it.
 */
module BackupInterval {
  import opened Calendar
  import opened Cron
  import opened Modulo
  import opened Wrappers

  function Decimal(n: nat): string {
    (if n < 10 then "" else Decimal(n / 10)) + [(n % 10 + '0' as int) as char]
  }

  lemma {:induction false} DecimalRoundTrip(n: nat)
    ensures Decimal(n) != "" && AllDigits(Decimal(n)) && DecimalValue(Decimal(n)) == n
  {
    var s := Decimal(n);
    assert s[..|s| - 1] == if n < 10 then "" else Decimal(n / 10);
    if n >= 10 { DecimalRoundTrip(n / 10); }
  }

  function MinutesToCron(minutes: nat): string {
    if minutes < 60 then "*/" + Decimal(minutes) + " * * * *"
    else if minutes == 60 then "0 * * * *"
    else if minutes < 1440 && minutes % 60 == 0 then "0 */" + Decimal(minutes / 60) + " * * *"
    else "0 0 * * *"
  }

  /** The number between a literal start and a literal end. */
  function StepBetween(cron: string, start: string, end: string): Option<nat> {
    if |cron| > |start| + |end| && cron[..|start|] == start && cron[|cron| - |end|..] == end
        && AllDigits(cron[|start|..|cron| - |end|])
    then Some(DecimalValue(cron[|start|..|cron| - |end|])) else None
  }

  function CronToMinutes(cron: string): nat {
    var minuteStep := StepBetween(cron, "*/", " * * * *");
    var hourStep := StepBetween(cron, "0 */", " * * *");
    if minuteStep.Some? then minuteStep.value
    else if hourStep.Some? then hourStep.value * 60
    else if cron == "0 * * * *" then 60
    else if cron == "0 0 * * *" then 1440
    else 60
  }

  lemma StepIsFound(start: string, n: nat, end: string)
    ensures StepBetween(start + Decimal(n) + end, start, end) == Some(n)
  {
    DecimalRoundTrip(n);
    var cron := start + Decimal(n) + end;
    assert cron[..|start|] == start && cron[|cron| - |end|..] == end && cron[|start|..|cron| - |end|] == Decimal(n);
  }

  lemma OtherStart(cron: string, start: string, end: string, k: nat)
    requires k < |start| && k < |cron| && cron[k] != start[k]
    ensures StepBetween(cron, start, end) == None
  {
    if |cron| > |start| { assert cron[..|start|][k] == cron[k]; }
  }

  lemma StepIsRead(start: string, digits: string, end: string)
    requires digits != "" && AllDigits(digits)
    ensures StepBetween(start + digits + end, start, end) == Some(DecimalValue(digits))
  {
    var cron := start + digits + end;
    assert cron[..|start|] == start && cron[|cron| - |end|..] == end && cron[|start|..|cron| - |end|] == digits;
  }

  lemma StepIsThere(cron: string, start: string, end: string)
    requires StepBetween(cron, start, end).Some?
    ensures exists digits :: digits != "" && AllDigits(digits) && cron == start + digits + end
  {
    var digits := cron[|start|..|cron| - |end|];
    assert cron == cron[..|start|] + digits + cron[|cron| - |end|..] == start + digits + end;
    assert digits != "" && AllDigits(digits);
  }

  /** A step of minutes or of hours. */
  ghost predicate IsStep(cron: string) {
    exists s :: s != "" && AllDigits(s) && (cron == "*/" + s + " * * * *" || cron == "0 */" + s + " * * *")
  }

  /** Every expression is read as an interval: a step of minutes or hours, the daily run, and an hour for all others. */
  lemma EveryExpressionIsRead(cron: string, digits: string)
    requires digits != "" && AllDigits(digits)
    ensures CronToMinutes("*/" + digits + " * * * *") == DecimalValue(digits)
    ensures CronToMinutes("0 */" + digits + " * * *") == DecimalValue(digits) * 60
    ensures CronToMinutes("0 0 * * *") == 1440
    ensures !IsStep(cron) && cron != "0 0 * * *" ==> CronToMinutes(cron) == 60
  {
    StepIsRead("*/", digits, " * * * *");
    StepIsRead("0 */", digits, " * * *");
    OtherStart("0 */" + digits + " * * *", "*/", " * * * *", 0);
    OtherStart("0 0 * * *", "*/", " * * * *", 0);
    OtherStart("0 0 * * *", "0 */", " * * *", 2);
    if StepBetween(cron, "*/", " * * * *").Some? { StepIsThere(cron, "*/", " * * * *"); }
    if StepBetween(cron, "0 */", " * * *").Some? { StepIsThere(cron, "0 */", " * * *"); }
  }

  /** The interval survives the way through its expression exactly when the expression can say it. */
  lemma RoundTripIff(minutes: nat)
    ensures CronToMinutes(MinutesToCron(minutes)) == minutes <==>
            minutes <= 60 || minutes == 1440 || (minutes < 1440 && minutes % 60 == 0)
  {
    var cron := MinutesToCron(minutes);
    if minutes < 60 {
      StepIsFound("*/", minutes, " * * * *");
    } else {
      OtherStart(cron, "*/", " * * * *", 0);
      if 60 < minutes < 1440 && minutes % 60 == 0 {
        StepIsFound("0 */", minutes / 60, " * * *");
      } else if minutes == 60 {
        OtherStart(cron, "0 */", " * * *", 3);
      } else {
        OtherStart(cron, "0 */", " * * *", 2);
      }
    }
  }

  // ---------- The fields of the expressions ----------

  /** The five fields of an expression, one by one. */
  ghost predicate HasFields(expr: string, a: string, b: string, c: string) {
    Words(expr) == [a, b, c, "*", "*"]
  }

  lemma StepSpelledOut(step: string)
    ensures step + " * * * *" == Joined(step, "*", "*", "*", "*")
    ensures "0 " + step + " * * *" == Joined("0", step, "*", "*", "*")
  {
  }

  lemma NumbersSpelledOut()
    ensures "0 * * * *" == Joined("0", "*", "*", "*", "*")
    ensures "0 0 * * *" == Joined("0", "0", "*", "*", "*")
  {
  }

  lemma StepIsWord(n: nat)
    ensures IsWord("*/" + Decimal(n)) && IsWord("*") && IsWord("0")
  {
    DecimalRoundTrip(n);
  }

  lemma FieldsOf(minutes: nat)
    ensures minutes < 60 ==> HasFields(MinutesToCron(minutes), "*/" + Decimal(minutes), "*", "*")
    ensures minutes == 60 ==> HasFields(MinutesToCron(minutes), "0", "*", "*")
    ensures 60 < minutes < 1440 && minutes % 60 == 0 ==>
            HasFields(MinutesToCron(minutes), "0", "*/" + Decimal(minutes / 60), "*")
    ensures (minutes > 60 && minutes % 60 != 0) || minutes >= 1440 ==> HasFields(MinutesToCron(minutes), "0", "0", "*")
  {
    NumbersSpelledOut();
    if minutes < 60 {
      StepSpelledOut("*/" + Decimal(minutes));
      StepIsWord(minutes);
      WordsOfJoined("*/" + Decimal(minutes), "*", "*", "*", "*");
    } else if minutes == 60 {
      StepIsWord(0);
      WordsOfJoined("0", "*", "*", "*", "*");
    } else if minutes < 1440 && minutes % 60 == 0 {
      StepSpelledOut("*/" + Decimal(minutes / 60));
      assert "0 */" + Decimal(minutes / 60) + " * * *" == "0 " + ("*/" + Decimal(minutes / 60)) + " * * *";
      StepIsWord(minutes / 60);
      WordsOfJoined("0", "*/" + Decimal(minutes / 60), "*", "*", "*");
    } else {
      StepIsWord(0);
      WordsOfJoined("0", "0", "*", "*", "*");
    }
  }

  lemma StepField(n: nat, max: nat, v: int)
    ensures FieldAllows("*/" + Decimal(n), 0, max, v) <==> PieceAllows(Step(n), 0, max, v)
  {
    DecimalRoundTrip(n);
    StepPiece(Decimal(n));
    SinglePiece("*/" + Decimal(n), 0, max);
  }

  lemma ZeroField(max: nat, v: int)
    ensures FieldAllows("0", 0, max, v) <==> v == 0
  {
    NumberPiece("0");
    SinglePiece("0", 0, max);
    assert DecimalValue("0") == 0;
  }

  /** With the last three fields open only the minute and the hour decide. */
  lemma OpenDays(expr: string, a: string, b: string, t: nat)
    requires HasFields(expr, a, b, "*")
    ensures CronMatches(expr, t) <==> FieldAllows(a, 0, 59, MinuteOfHour(t)) && FieldAllows(b, 0, 23, HourOf(t))
  {
  }

  lemma MinuteStepMatches(minutes: nat, t: nat)
    requires minutes < 60
    ensures CronMatches(MinutesToCron(minutes), t) <==> minutes > 0 && t % 60 % minutes == 0
  {
    FieldsOf(minutes);
    OpenDays(MinutesToCron(minutes), "*/" + Decimal(minutes), "*", t);
    StepField(minutes, 59, MinuteOfHour(t));
  }

  lemma HourStepMatches(minutes: nat, t: nat)
    requires 60 < minutes < 1440 && minutes % 60 == 0
    ensures CronMatches(MinutesToCron(minutes), t) <==> t % 60 == 0 && HourOf(t) % (minutes / 60) == 0
  {
    FieldsOf(minutes);
    OpenDays(MinutesToCron(minutes), "0", "*/" + Decimal(minutes / 60), t);
    ZeroField(59, MinuteOfHour(t));
    StepField(minutes / 60, 23, HourOf(t));
  }

  lemma HourlyMatches(t: nat)
    ensures CronMatches(MinutesToCron(60), t) <==> t % 60 == 0
  {
    FieldsOf(60);
    OpenDays(MinutesToCron(60), "0", "*", t);
    ZeroField(59, MinuteOfHour(t));
  }

  lemma AtMidnight(t: nat)
    ensures t % 60 == 0 && HourOf(t) == 0 <==> t % 1440 == 0
  {
    RemainderOfRemainder(t, 1440, 60);
    var time := t % 1440;
    assert HourOf(t) == time / 60 && time == 60 * (time / 60) + time % 60;
  }

  lemma DailyMatches(minutes: nat, t: nat)
    requires (minutes > 60 && minutes % 60 != 0) || minutes >= 1440
    ensures CronMatches(MinutesToCron(minutes), t) <==> t % 1440 == 0
  {
    FieldsOf(minutes);
    OpenDays(MinutesToCron(minutes), "0", "0", t);
    AtMidnight(t);
    ZeroField(59, MinuteOfHour(t));
    ZeroField(23, HourOf(t));
  }

  // ---------- How far apart the runs are ----------

  ghost predicate RunsFrom(expr: string, after: nat, minutes: nat) {
    exists a: nat :: IsNext(expr, after, a) && IsNext(expr, a, a + minutes)
  }

  /** From every start there is a next run, and the one after it comes exactly so many minutes later. */
  ghost predicate RunsEvery(expr: string, minutes: nat) {
    forall after: nat :: RunsFrom(expr, after, minutes)
  }

  ghost predicate MatchesMultiples(expr: string, minutes: nat)
    requires minutes > 0
  {
    forall t: nat :: CronMatches(expr, t) <==> t % minutes == 0
  }

  lemma NextMultipleIsNext(expr: string, minutes: nat, after: nat, a: nat)
    requires 0 < minutes <= HORIZON && MatchesMultiples(expr, minutes)
    requires a % minutes == 0 && a - minutes <= after < a
    ensures IsNext(expr, after, a)
  {
    forall u: nat | after < u < a ensures !CronMatches(expr, u) {
      assert (a - minutes) % minutes == 0 by { PreviousMultiple(a, minutes); }
      OffsetFromMultiple(a - minutes, u - (a - minutes), minutes);
    }
  }

  lemma MultiplesRunEvery(expr: string, minutes: nat)
    requires 0 < minutes <= HORIZON && MatchesMultiples(expr, minutes)
    ensures RunsEvery(expr, minutes)
  {
    forall after: nat ensures RunsFrom(expr, after, minutes) {
      var last := after - after % minutes;
      assert last % minutes == 0
          by { assert last == minutes * (after / minutes); RemainderIs(last, minutes, after / minutes, 0); }
      NextMultiple(last, minutes);
      NextMultiple(last + minutes, minutes);
      NextMultipleIsNext(expr, minutes, after, last + minutes);
      NextMultipleIsNext(expr, minutes, last + minutes, last + minutes + minutes);
    }
  }

  /** Minutes that divide the hour, and hours that divide the day. */
  predicate IsEven(minutes: nat)
    requires minutes > 0
  {
    60 % minutes == 0 || (minutes % 60 == 0 && 24 % (minutes / 60) == 0)
  }

  lemma HoursAreMultiples(minutes: nat, t: nat)
    requires 60 <= minutes && minutes % 60 == 0 && 24 % (minutes / 60) == 0
    ensures t % minutes == 0 <==> t % 60 == 0 && HourOf(t) % (minutes / 60) == 0
  {
    var h := minutes / 60;
    var k := 24 / h;
    assert 24 == h * k;
    assert 1440 == minutes * k by { assert minutes == 60 * h; assert (60 * h) * k == 60 * (h * k); }
    RemainderIs(1440, minutes, k, 0);
    RemainderOfRemainder(t, 1440, minutes);
    var s, p, q := t % 1440, HourOf(t) / h, HourOf(t) % h;
    assert HourOf(t) == h * p + q;
    assert s == 60 * HourOf(t) + t % 60;
    assert s == minutes * p + (60 * q + t % 60) by { assert minutes == 60 * h; assert 60 * (h * p) == (60 * h) * p; }
    RemainderIs(s, minutes, p, 60 * q + t % 60);
  }

  lemma EvenMatches(minutes: nat, t: nat)
    requires minutes > 0 && IsEven(minutes)
    ensures CronMatches(MinutesToCron(minutes), t) <==> t % minutes == 0
  {
    if minutes < 60 {
      MinuteStepMatches(minutes, t);
      RemainderOfRemainder(t, 60, minutes);
    } else if minutes == 60 {
      HourlyMatches(t);
    } else if minutes < 1440 {
      HourStepMatches(minutes, t);
      HoursAreMultiples(minutes, t);
    } else {
      DailyMatches(minutes, t);
    }
  }

  lemma SomeGap(expr: string, minutes: nat, after: nat) returns (c: nat)
    requires RunsEvery(expr, minutes)
    ensures IsNext(expr, after, c) && IsNext(expr, c, c + minutes)
  {
    assert RunsFrom(expr, after, minutes);
    c :| IsNext(expr, after, c) && IsNext(expr, c, c + minutes);
  }

  /** A next run that is known decides whether runs can be so many minutes apart. */
  lemma GapDecides(expr: string, minutes: nat, after: nat, a: nat, b: nat)
    requires RunsEvery(expr, minutes)
    requires IsNext(expr, after, a) && IsNext(expr, a, b)
    ensures b == a + minutes
  {
    var c := SomeGap(expr, minutes, after);
    NextIsUnique(expr, after, a, c);
    NextIsUnique(expr, a, b, c + minutes);
  }

  /** Two neighbouring matches at another distance. */
  lemma OtherGap(expr: string, minutes: nat, a: nat, b: nat)
    requires 0 < a < b <= a + HORIZON && b != a + minutes
    requires CronMatches(expr, a) && CronMatches(expr, b)
    requires forall t: nat :: a < t < b ==> !CronMatches(expr, t)
    ensures !RunsEvery(expr, minutes)
  {
    assert IsNext(expr, a - 1, a) && IsNext(expr, a, b);
    if RunsEvery(expr, minutes) { GapDecides(expr, minutes, a - 1, a, b); }
  }

  /** The last multiple below n, when n itself is none. */
  lemma LastMultiple(n: nat, m: nat) returns (a: nat)
    requires 0 < m < n && n % m != 0
    ensures 0 < a < n && a % m == 0 && n < a + m
  {
    a := n - n % m;
    assert a == m * (n / m);
    RemainderIs(a, m, n / m, 0);
  }

  /** From the last multiple below n on, only that multiple and n itself reduce to a multiple. */
  lemma MultiplesAtTheEnd(n: nat, m: nat, a: nat, x: nat)
    requires 0 < m < n && a % m == 0 && a < n < a + m && a <= x <= n
    ensures x % n % m == 0 <==> x == a || x == n
  {
    if x < n {
      RemainderIs(x, n, 0, x);
      OffsetFromMultiple(a, x - a, m);
    } else {
      RemainderIs(n, n, 1, 0);
      RemainderIs(0, m, 0, 0);
    }
  }

  lemma HourOfDay(t: nat)
    ensures HourOf(t) == t / 60 % 24
  {
    var day, time := t / 1440, t % 1440;
    assert t == 1440 * day + time;
    assert t / 60 == 24 * day + time / 60;
    RemainderIs(t / 60, 24, day, time / 60);
  }

  lemma MinuteStepsAtTheEnd(minutes: nat, a: nat, t: nat)
    requires 0 < minutes < 60 && a % minutes == 0 && a < 60 < a + minutes && a <= t <= 60
    ensures CronMatches(MinutesToCron(minutes), t) <==> t == a || t == 60
  {
    MinuteStepMatches(minutes, t);
    MultiplesAtTheEnd(60, minutes, a, t);
  }

  lemma HoursAtTheEnd(h: nat, a: nat, t: nat)
    requires 0 < h < 24 && a % h == 0 && a < 24 < a + h && 60 * a <= t <= 1440
    ensures t % 60 == 0 && HourOf(t) % h == 0 <==> t == 60 * a || t == 1440
  {
    MultiplesAtTheEnd(24, h, a, t / 60);
    HourOfDay(t);
  }

  lemma HourStepsAtTheEnd(minutes: nat, a: nat, t: nat)
    requires 60 < minutes < 1440 && minutes % 60 == 0
    requires a % (minutes / 60) == 0 && a < 24 < a + minutes / 60 && 60 * a <= t <= 1440
    ensures CronMatches(MinutesToCron(minutes), t) <==> t == 60 * a || t == 1440
  {
    HourStepMatches(minutes, t);
    HoursAtTheEnd(minutes / 60, a, t);
  }

  /** The last step of the hour comes too close to the full hour. */
  lemma UnevenMinutes(minutes: nat)
    requires 0 < minutes < 60 && 60 % minutes != 0
    ensures !RunsEvery(MinutesToCron(minutes), minutes)
  {
    var a := LastMultiple(60, minutes);
    forall t: nat | a <= t <= 60 ensures CronMatches(MinutesToCron(minutes), t) <==> t == a || t == 60 {
      MinuteStepsAtTheEnd(minutes, a, t);
    }
    OtherGap(MinutesToCron(minutes), minutes, a, 60);
  }

  /** The last step of the day comes too close to midnight. */
  lemma UnevenHours(minutes: nat)
    requires 60 < minutes < 1440 && minutes % 60 == 0 && 24 % (minutes / 60) != 0
    ensures !RunsEvery(MinutesToCron(minutes), minutes)
  {
    var h := minutes / 60;
    var a := LastMultiple(24, h);
    forall t: nat | 60 * a <= t <= 1440 ensures CronMatches(MinutesToCron(minutes), t) <==> t == 60 * a || t == 1440 {
      HourStepsAtTheEnd(minutes, a, t);
    }
    OtherGap(MinutesToCron(minutes), minutes, 60 * a, 1440);
  }

  /** Every other interval is stored as a daily run. */
  lemma DailyInstead(minutes: nat)
    requires (minutes > 60 && minutes % 60 != 0) || minutes > 1440
    ensures !RunsEvery(MinutesToCron(minutes), minutes)
  {
    forall t: nat ensures CronMatches(MinutesToCron(minutes), t) <==> t % 1440 == 0 {
      DailyMatches(minutes, t);
    }
    OtherGap(MinutesToCron(minutes), minutes, 1440, 2880);
  }

  /**
   Backups run exactly so many minutes apart, across hours and days and from every start, if and only if
   the interval divides the hour or is a number of hours that divides the day.
   */
  lemma RunsEveryIffEven(minutes: nat)
    requires minutes > 0
    ensures RunsEvery(MinutesToCron(minutes), minutes) <==> IsEven(minutes)
  {
    if IsEven(minutes) {
      forall t: nat ensures CronMatches(MinutesToCron(minutes), t) <==> t % minutes == 0 {
        EvenMatches(minutes, t);
      }
      MultiplesRunEvery(MinutesToCron(minutes), minutes);
    } else if minutes < 60 {
      UnevenMinutes(minutes);
    } else if minutes % 60 == 0 && minutes < 1440 {
      UnevenHours(minutes);
    } else {
      DailyInstead(minutes);
    }
  }

  // ---------- Every interval has a next run ----------

  lemma StepFieldValid(n: nat, max: nat)
    requires 0 < n <= max
    ensures FieldValid("*/" + Decimal(n), 0, max)
  {
    DecimalRoundTrip(n);
    StepPiece(Decimal(n));
    SinglePiece("*/" + Decimal(n), 0, max);
  }

  lemma ZeroFieldValid(max: nat)
    ensures FieldValid("0", 0, max)
  {
    NumberPiece("0");
    SinglePiece("0", 0, max);
    assert DecimalValue("0") == 0;
  }

  lemma IntervalIsValid(minutes: nat)
    requires minutes > 0
    ensures CronValid(MinutesToCron(minutes))
  {
    FieldsOf(minutes);
    ZeroFieldValid(59);
    ZeroFieldValid(23);
    if minutes < 60 { StepFieldValid(minutes, 59); }
    if 60 < minutes < 1440 && minutes % 60 == 0 { StepFieldValid(minutes / 60, 23); }
  }

  lemma MidnightMatches(minutes: nat, t: nat)
    requires minutes > 0 && t % 1440 == 0
    ensures CronMatches(MinutesToCron(minutes), t)
  {
    AtMidnight(t);
    if minutes < 60 {
      RemainderIs(0, minutes, 0, 0);
      MinuteStepMatches(minutes, t);
    } else if minutes == 60 {
      HourlyMatches(t);
    } else if minutes < 1440 && minutes % 60 == 0 {
      RemainderIs(0, minutes / 60, 0, 0);
      HourStepMatches(minutes, t);
    } else {
      DailyMatches(minutes, t);
    }
  }

  lemma IntervalAlwaysHasNext(minutes: nat, after: nat)
    requires minutes > 0
    ensures !NoMatchAhead(MinutesToCron(minutes), after)
  {
    var midnight := after - after % 1440 + 1440;
    MidnightMatches(minutes, midnight);
  }
}
