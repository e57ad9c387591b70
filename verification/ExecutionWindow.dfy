/**
 Clamping a run to a daily execution window.

 A window runs from its start to its end minute, both included; with a start after its end it wraps
 over midnight.
 */
module ExecutionWindow {
  import opened Calendar
  import opened Wrappers

  datatype Window = Window(startHour: nat, startMinute: nat, endHour: nat, endMinute: nat)

  /** Both times read HH:mm. */
  predicate IsWindow(w: Window) {
    w.startHour < 24 && w.startMinute < 60 && w.endHour < 24 && w.endMinute < 60
  }

  function Opening(w: Window): nat {
    w.startHour * 60 + w.startMinute
  }

  function Closing(w: Window): nat {
    w.endHour * 60 + w.endMinute
  }

  predicate Wraps(w: Window) {
    Opening(w) > Closing(w)
  }

  predicate InWindow(w: Window, instant: nat) {
    var time := TimeOfDay(MinuteOf(instant));
    if Wraps(w) then time >= Opening(w) || time <= Closing(w) else Opening(w) <= time <= Closing(w)
  }

  /** One time on the clock is not after another. */
  predicate NotAfter(hour: nat, minute: nat, otherHour: nat, otherMinute: nat) {
    hour < otherHour || (hour == otherHour && minute <= otherMinute)
  }

  /** Being inside read off the clock: both ends belong to the window, and one that starts after its end wraps. */
  lemma InWindowOnTheClock(w: Window, instant: nat)
    requires IsWindow(w)
    ensures var hour, minute := HourOf(MinuteOf(instant)), MinuteOfHour(MinuteOf(instant));
            var started := NotAfter(w.startHour, w.startMinute, hour, minute);
            var notClosed := NotAfter(hour, minute, w.endHour, w.endMinute);
            InWindow(w, instant) <==>
              if NotAfter(w.startHour, w.startMinute, w.endHour, w.endMinute) then started && notClosed
              else started || notClosed
  {
    HourAndMinute(MinuteOf(instant));
  }

  lemma HourAndMinute(minute: nat)
    ensures TimeOfDay(minute) == HourOf(minute) * 60 + MinuteOfHour(minute)
    ensures HourOf(minute) < 24 && MinuteOfHour(minute) < 60
  {
    assert DAY_MINUTES % 60 == 0;
  }

  /** The same or the next day at the opening time. */
  function OpeningOn(day: nat, w: Window): nat {
    StartOf(day * DAY_MINUTES + Opening(w))
  }

  function Clamp(date: nat, window: Option<Window>): nat {
    if window.None? then date
    else
      var w := window.value;
      var day, now := DayOf(MinuteOf(date)), TimeOfDay(MinuteOf(date));
      if Opening(w) <= Closing(w) && Opening(w) <= now <= Closing(w) then date
      else if Opening(w) <= Closing(w) && now < Opening(w) then OpeningOn(day, w)
      else OpeningOn(day + 1, w)
  }

  /** The first instant inside the window that is not before from. */
  ghost predicate Earliest(w: Window, from: nat, instant: nat) {
    && from <= instant && InWindow(w, instant)
    && forall u: nat :: from <= u < instant ==> !InWindow(w, u)
  }

  lemma TimeAndDay(minute: nat, day: nat, time: nat)
    requires time < DAY_MINUTES && minute == day * DAY_MINUTES + time
    ensures DayOf(minute) == day && TimeOfDay(minute) == time
  {
  }

  /** Times grow with the instant, within a day and over days. */
  lemma LaterSameDay(u: nat, v: nat)
    requires u <= v
    ensures DayOf(MinuteOf(u)) <= DayOf(MinuteOf(v))
    ensures DayOf(MinuteOf(u)) == DayOf(MinuteOf(v)) ==> TimeOfDay(MinuteOf(u)) <= TimeOfDay(MinuteOf(v))
  {
  }

  lemma OpeningOnIsInside(day: nat, w: Window)
    requires IsWindow(w)
    ensures DayOf(MinuteOf(OpeningOn(day, w))) == day && TimeOfDay(MinuteOf(OpeningOn(day, w))) == Opening(w)
    ensures InWindow(w, OpeningOn(day, w))
  {
    TimeAndDay(day * DAY_MINUTES + Opening(w), day, Opening(w));
  }

  /** Strictly before the opening instant it is an earlier day or an earlier time. */
  lemma BeforeOpening(u: nat, day: nat, w: Window)
    requires IsWindow(w) && u < OpeningOn(day, w)
    ensures DayOf(MinuteOf(u)) < day || (DayOf(MinuteOf(u)) == day && TimeOfDay(MinuteOf(u)) < Opening(w))
  {
    var opening := OpeningOn(day, w);
    OpeningOnIsInside(day, w);
    LaterSameDay(u, opening);
    assert MinuteOf(u) < MinuteOf(opening);
  }

  /** The other direction: an earlier day or time is an earlier instant. */
  lemma EarlierThanOpening(u: nat, day: nat, w: Window)
    requires IsWindow(w)
    requires DayOf(MinuteOf(u)) < day || (DayOf(MinuteOf(u)) == day && TimeOfDay(MinuteOf(u)) < Opening(w))
    ensures u < OpeningOn(day, w)
  {
    OpeningOnIsInside(day, w);
    if u >= OpeningOn(day, w) { LaterSameDay(OpeningOn(day, w), u); }
  }

  /** A run that is moved starts with the window's first minute. */
  lemma ClampMovesToOpening(date: nat, w: Window)
    requires IsWindow(w) && Clamp(date, Some(w)) != date
    ensures var moved := Clamp(date, Some(w));
            HourOf(MinuteOf(moved)) == w.startHour && MinuteOfHour(MinuteOf(moved)) == w.startMinute
                && moved % 60000 == 0
  {
    var day := DayOf(MinuteOf(date));
    OpeningOnIsInside(day, w);
    OpeningOnIsInside(day + 1, w);
    HourAndMinute(MinuteOf(Clamp(date, Some(w))));
  }

  /** A clamped run is inside the window and never before the unclamped one. */
  lemma ClampLandsInside(date: nat, w: Window)
    requires IsWindow(w)
    ensures InWindow(w, Clamp(date, Some(w))) && date <= Clamp(date, Some(w))
  {
    var day := DayOf(MinuteOf(date));
    OpeningOnIsInside(day, w);
    OpeningOnIsInside(day + 1, w);
    EarlierThanOpening(date, day + 1, w);
    if TimeOfDay(MinuteOf(date)) < Opening(w) { EarlierThanOpening(date, day, w); }
  }

  lemma ClampIsEarliest(date: nat, w: Window)
    requires IsWindow(w) && !Wraps(w)
    ensures Earliest(w, date, Clamp(date, Some(w)))
  {
    var day, now, clamped := DayOf(MinuteOf(date)), TimeOfDay(MinuteOf(date)), Clamp(date, Some(w));
    ClampLandsInside(date, w);
    if clamped != date {
      forall u: nat | date <= u < clamped ensures !InWindow(w, u) {
        LaterSameDay(date, u);
        BeforeOpening(u, if now < Opening(w) then day else day + 1, w);
      }
    }
  }

  /** A wrapping window always costs a day: today's opening, or the date itself, would have done. */
  lemma WrappingSkipsADay(date: nat, w: Window)
    requires IsWindow(w) && Wraps(w)
    ensures Clamp(date, Some(w)) == OpeningOn(DayOf(MinuteOf(date)) + 1, w)
    ensures exists u: nat :: date <= u < Clamp(date, Some(w)) && InWindow(w, u)
  {
    var day := DayOf(MinuteOf(date));
    EarlierThanOpening(date, day + 1, w);
    if !InWindow(w, date) {
      OpeningOnIsInside(day, w);
      EarlierThanOpening(date, day, w);
      EarlierThanOpening(OpeningOn(day, w), day + 1, w);
      assert InWindow(w, OpeningOn(day, w));
    }
  }

  /** Clamping finds the earliest allowed instant exactly for the windows that do not wrap. */
  lemma ClampIsEarliestIffNoWrap(date: nat, w: Window)
    requires IsWindow(w)
    ensures Earliest(w, date, Clamp(date, Some(w))) <==> !Wraps(w)
  {
    if Wraps(w) { WrappingSkipsADay(date, w); } else { ClampIsEarliest(date, w); }
  }

  /** Clamping twice changes nothing exactly for the windows that do not wrap. */
  lemma ClampIdempotentIffNoWrap(date: nat, w: Window)
    requires IsWindow(w)
    ensures Clamp(Clamp(date, Some(w)), Some(w)) == Clamp(date, Some(w)) <==> !Wraps(w)
  {
    var once := Clamp(date, Some(w));
    if Wraps(w) {
      WrappingSkipsADay(once, w);
    } else {
      ClampLandsInside(date, w);
    }
  }
}
