/**
 Dates and times of day at a fixed offset from UTC.

 Time is counted from the start of 1970-01-01, a Thursday; instants are in milliseconds.
 */
module Calendar {

  const MINUTE := 60 * 1000
  const DAY_MINUTES := 24 * 60

  datatype Date = Date(year: int, month: int, day: int)

  predicate Leap(year: int) {
    year % 4 == 0 && (year % 100 != 0 || year % 400 == 0)
  }

  function DaysInMonth(year: int, month: int): int {
    if month == 2 then (if Leap(year) then 29 else 28)
    else if month in {4, 6, 9, 11} then 30
    else 31
  }

  predicate IsDate(d: Date) {
    1 <= d.month <= 12 && 1 <= d.day <= DaysInMonth(d.year, d.month)
  }

  function NextDay(d: Date): (r: Date)
    requires IsDate(d)
    ensures IsDate(r)
  {
    if d.day < DaysInMonth(d.year, d.month) then d.(day := d.day + 1)
    else if d.month < 12 then Date(d.year, d.month + 1, 1)
    else Date(d.year + 1, 1, 1)
  }

  /** The date of the day with the given number. */
  function DateOf(day: nat): (r: Date)
    ensures IsDate(r)
  {
    if day == 0 then Date(1970, 1, 1) else NextDay(DateOf(day - 1))
  }

  /** 0 is Sunday. */
  function Weekday(day: nat): int {
    (day + 4) % 7
  }

  // ---------- Fields of a minute ----------

  function MinuteOf(instant: nat): nat {
    instant / MINUTE
  }

  /** The instant at which a minute begins. */
  function StartOf(minute: nat): (instant: nat)
    ensures MinuteOf(instant) == minute
  {
    minute * MINUTE
  }

  function DayOf(minute: nat): nat {
    minute / DAY_MINUTES
  }

  function TimeOfDay(minute: nat): nat {
    minute % DAY_MINUTES
  }

  function HourOf(minute: nat): nat {
    TimeOfDay(minute) / 60
  }

  function MinuteOfHour(minute: nat): nat {
    minute % 60
  }

  // ---------- A year counted from March ----------

  /** How many days after 1 March of its March year a date is. */
  function SinceMarch(d: Date): int
    requires IsDate(d)
  {
    d.day - 1 +
    match d.month
    case 3 => 0 case 4 => 31 case 5 => 61 case 6 => 92 case 7 => 122 case 8 => 153
    case 9 => 184 case 10 => 214 case 11 => 245 case 12 => 275 case 1 => 306 case _ => 337
  }

  function MarchYear(d: Date): int {
    if d.month >= 3 then d.year else d.year - 1
  }

  /** The last day of a March year, 28 or 29 February. */
  function LastSinceMarch(marchYear: int): int {
    if Leap(marchYear + 1) then 365 else 364
  }

  lemma NextDayInMarchYear(d: Date)
    requires IsDate(d) && SinceMarch(d) < LastSinceMarch(MarchYear(d))
    ensures SinceMarch(NextDay(d)) == SinceMarch(d) + 1 && MarchYear(NextDay(d)) == MarchYear(d)
  {
  }

  /** The days of a March year follow one another. */
  lemma {:induction false} DatesInMarchYear(day: nat, k: nat)
    requires SinceMarch(DateOf(day)) + k <= LastSinceMarch(MarchYear(DateOf(day)))
    ensures SinceMarch(DateOf(day + k)) == SinceMarch(DateOf(day)) + k
    ensures MarchYear(DateOf(day + k)) == MarchYear(DateOf(day))
  {
    if k > 0 {
      DatesInMarchYear(day, k - 1);
      NextDayInMarchYear(DateOf(day + k - 1));
    }
  }

  /** The last day leads to the first of the next March year. */
  lemma NextMarchYear(day: nat)
    ensures var y := MarchYear(DateOf(day));
            DateOf(day + LastSinceMarch(y) - SinceMarch(DateOf(day)) + 1) == Date(y + 1, 3, 1)
  {
    var date := DateOf(day);
    SinceMarchFits(date);
    var k := LastSinceMarch(MarchYear(date)) - SinceMarch(date);
    DatesInMarchYear(day, k);
    LastDayOfMarchYear(DateOf(day + k));
    assert DateOf(day + k + 1) == NextDay(DateOf(day + k));
  }

  lemma NextFirstOfMarch(day: nat, y: int)
    requires DateOf(day) == Date(y, 3, 1)
    ensures DateOf(day + (LastSinceMarch(y) + 1)) == Date(y + 1, 3, 1)
  {
    NextMarchYear(day);
    assert SinceMarch(DateOf(day)) == 0;
  }

  lemma SinceMarchFits(d: Date)
    requires IsDate(d)
    ensures 0 <= SinceMarch(d) <= LastSinceMarch(MarchYear(d))
  {
  }

  lemma LastDayOfMarchYear(d: Date)
    requires IsDate(d) && SinceMarch(d) == LastSinceMarch(MarchYear(d))
    ensures NextDay(d) == Date(MarchYear(d) + 1, 3, 1)
  {
  }

  /** How many of the years up to y have a leap day in the Gregorian calendar. */
  function LeapYears(y: nat): int {
    y / 4 - y / 100 + y / 400
  }

  lemma NextFourth(y: nat)
    ensures (y + 1) / 4 - y / 4 == if (y + 1) % 4 == 0 then 1 else 0
  {
  }

  lemma NextCentury(y: nat)
    ensures (y + 1) / 100 - y / 100 == if (y + 1) % 100 == 0 then 1 else 0
    ensures (y + 1) % 100 == 0 ==> (y + 1) % 4 == 0
  {
  }

  lemma NextFourthCentury(y: nat)
    ensures (y + 1) / 400 - y / 400 == if (y + 1) % 400 == 0 then 1 else 0
    ensures (y + 1) % 400 == 0 ==> (y + 1) % 100 == 0
  {
  }

  lemma NextYearsLeapDay(y: nat)
    ensures LeapYears(y + 1) - LeapYears(y) == if Leap(y + 1) then 1 else 0
  {
    NextFourth(y);
    NextCentury(y);
    NextFourthCentury(y);
  }

  /** The day number of every date in closed form; 1 March 1970 has number 59. */
  lemma {:induction false} DayNumberOfDate(day: nat)
    ensures var y := MarchYear(DateOf(day));
            y >= 1969
            && day == 59 + 365 * (y - 1970) + LeapYears(y) - LeapYears(1970) + SinceMarch(DateOf(day))
  {
    if day == 0 {
      FirstDay(day);
    } else {
      DayNumberOfDate(day - 1);
      var before := DateOf(day - 1);
      if SinceMarch(before) < LastSinceMarch(MarchYear(before)) {
        NextDayInMarchYear(before);
      } else {
        SinceMarchFits(before);
        LastDayOfMarchYear(before);
        NextYearsLeapDay(MarchYear(before));
      }
    }
  }

  /** How far a number of days leads into the next March year; negative within the same one. */
  function IntoNextMarchYear(day: nat, k: nat): int {
    SinceMarch(DateOf(day)) + k - LastSinceMarch(MarchYear(DateOf(day))) - 1
  }

  lemma DatesInNextMarchYear(day: nat, k: nat)
    requires var y := MarchYear(DateOf(day)); 0 <= IntoNextMarchYear(day, k) <= LastSinceMarch(y + 1)
    ensures SinceMarch(DateOf(day + k)) == IntoNextMarchYear(day, k)
    ensures MarchYear(DateOf(day + k)) == MarchYear(DateOf(day)) + 1
  {
    SinceMarchFits(DateOf(day));
    NextMarchYear(day);
    var next := IntoNextMarchYear(day, k);
    DatesInMarchYear(day + k - next, next);
  }

  /** 366 days ahead lies at most the first day after the next March year. */
  lemma DatesBeyondNextMarchYear(day: nat, k: nat)
    requires k <= 366 && IntoNextMarchYear(day, k) > LastSinceMarch(MarchYear(DateOf(day)) + 1)
    ensures DateOf(day + k) == Date(MarchYear(DateOf(day)) + 2, 3, 1)
  {
    var y := MarchYear(DateOf(day));
    SinceMarchFits(DateOf(day));
    NextMarchYear(day);
    NextMarchYear(day + k - IntoNextMarchYear(day, k));
  }

  /** The place in the March year decides month and day. */
  lemma SinceMarchDecides(a: Date, b: Date)
    requires IsDate(a) && IsDate(b) && SinceMarch(a) == SinceMarch(b)
    ensures a.month == b.month && a.day == b.day
  {
  }

  predicate IsLeapDay(d: Date) {
    d.month == 2 && d.day == 29
  }

  lemma LeapDaySinceMarch(d: Date)
    requires IsDate(d)
    ensures IsLeapDay(d) <==> SinceMarch(d) == 365
  {
  }

  lemma FirstDay(day: nat)
    requires day == 0
    ensures SinceMarch(DateOf(day)) == 306 && MarchYear(DateOf(day)) == 1969
  {
  }

  /** 1 March 1970, a Sunday. */
  lemma FirstMarch(zero: nat) returns (day: nat)
    requires zero == 0
    ensures day < 60 && DateOf(day) == Date(1970, 3, 1) && Weekday(day) == 0
  {
    FirstDay(zero);
    NextMarchYear(zero);
    assert LastSinceMarch(1969) == 364;
    day := zero + 364 - 306 + 1;
  }
}
