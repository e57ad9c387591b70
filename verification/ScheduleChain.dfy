/**
 The chain of fires: what keeps an enabled schedule queued at its next run time, and what cuts it.
 */
module ScheduleChain {
  import BackupInterval
  import opened Calendar
  import opened Cron
  import opened CronReach
  import opened ExecutionWindow
  import opened Scheduler
  import opened Wrappers

  /** Rows have a time and, if any, a proper window. */
  predicate HasTime(s: Schedule) {
    s.nextRunAt.Some? && (s.window.Some? ==> IsWindow(s.window.value))
  }

  predicate Timed(st: State) {
    forall id :: 0 <= id < |st.schedules| ==> HasTime(st.schedules[id])
  }

  /** The schedule is to run, but no fire is queued at its next run time. */
  predicate Cut(st: State, id: ScheduleId) {
    && Live(st, id) && st.schedules[id].enabled
    && (st.schedules[id].nextRunAt.Some? ==> Fire(id, st.schedules[id].nextRunAt.value) !in st.fires)
  }

  // ---------- What cuts the chain ----------

  /** The fire writes a further time into the row. */
  ghost predicate FireMovesTime(st: State, fire: Fire, now: nat, io: Io)
    requires Live(st, fire.schedule)
  {
    var s := st.schedules[fire.schedule];
    io.found && io.checked && Books(Busy(st.runs, fire.schedule, s), io) && NextRun(s.cron, s.window, now).Some?
  }

  /**
   The fire of the next run time finds no further time or fails before it is written, or a further time is written
   but its fire cannot be queued and is not there already.
   */
  ghost predicate FireCuts(st: State, fire: Fire, now: nat, io: Io) {
    && Live(st, fire.schedule) && st.schedules[fire.schedule].enabled
    && var s := st.schedules[fire.schedule];
    var next := NextRun(s.cron, s.window, now);
    if !FireMovesTime(st, fire, now, io) then s.nextRunAt == Some(fire.at)
    else !Requeues(Busy(st.runs, fire.schedule, s), io) && Fire(fire.schedule, next.value) !in st.fires
  }

  /** The new schedule is enabled, but its first fire cannot be queued. */
  ghost predicate CreationCuts(st: State, now: nat, d: NewSchedule, added: bool) {
    var next := NextRun(d.cron, None, now);
    next.Some? && d.enabled && !added && Fire(|st.schedules|, next.value) !in st.fires
  }

  /** An accepted change withdraws the old fire or computes a new time, but the new fire cannot be queued. */
  ghost predicate ChangeCuts(st: State, now: nat, id: ScheduleId, c: Change, withdrawn: bool, added: bool) {
    && Live(st, id) && !Refused(c, now) && !added
    && var s := st.schedules[id];
    var changed := Changed(s, c, NewTime(c, now));
    changed.enabled && (changed.nextRunAt.Some? ==>
        Fire(id, changed.nextRunAt.value) !in st.fires - Withdrawn(id, s, withdrawn))
  }

  ghost predicate Cuts(st: State, e: Event, id: ScheduleId) {
    CanHappen(st, e) &&
    match e
    case Fires(now, fire, io) => fire.schedule == id && FireCuts(st, fire, now, io)
    case Creates(now, d, added) => id == |st.schedules| && CreationCuts(st, now, d, added)
    case Updates(now, changedId, c, withdrawn, added) => changedId == id && ChangeCuts(st, now, id, c, withdrawn, added)
    case _ => false
  }

  lemma {:induction false} HydrateKeepsTimes(st: State, now: nat, n: nat)
    requires Timed(st) && n <= |st.schedules|
    ensures Timed(HydrateUpTo(st, now, n))
  {
    if n > 0 {
      HydrateKeepsTimes(st, now, n - 1);
    }
  }

  lemma StepKeepsTimes(st: State, e: Event)
    requires Timed(st)
    ensures Timed(Advance(st, e))
  {
    if CanHappen(st, e) && e.Hydrates? { HydrateKeepsTimes(st, e.now, e.n); }
  }

  lemma CutsCut(st: State, e: Event, id: ScheduleId)
    requires Timed(st) && Cuts(st, e, id)
    ensures Cut(Advance(st, e), id)
  {
  }

  lemma {:induction false} HydrateCutsNothing(st: State, now: nat, n: nat, id: ScheduleId)
    requires n <= |st.schedules| && !Cut(st, id)
    ensures !Cut(HydrateUpTo(st, now, n), id)
  {
    if n > 0 {
      HydrateCutsNothing(st, now, n - 1, id);
    }
  }

  lemma FireCutsNothing(st: State, fire: Fire, now: nat, io: Io, id: ScheduleId)
    requires Timed(st) && fire.at <= now && !Cut(st, id)
    requires fire.schedule == id ==> !FireCuts(st, fire, now, io)
    ensures !Cut(Process(st, fire, now, io), id)
  {
    if fire.schedule == id && Live(st, id) {
      var s := st.schedules[id];
      if NextRun(s.cron, s.window, now).Some? { NextRunIsLater(s.cron, s.window, now); }
    }
  }

  lemma OnlyCutsCut(st: State, e: Event, id: ScheduleId)
    requires Timed(st) && !Cut(st, id) && !Cuts(st, e, id)
    ensures !Cut(Advance(st, e), id)
  {
    if CanHappen(st, e) {
      match e
      case Hydrates(now, n, _) => HydrateCutsNothing(st, now, n, id);
      case Fires(now, fire, io) => FireCutsNothing(st, fire, now, io, id);
      case _ =>
    }
  }

  /** At some point of a run the schedule is enabled without a queued fire. */
  ghost predicate EverCut(st: State, events: seq<Event>, id: ScheduleId)
    decreases |events|
  {
    Cut(st, id) || (events != [] && EverCut(Advance(st, events[0]), events[1..], id))
  }

  /** At some point of a run one of the three things happens to the schedule. */
  ghost predicate EverCuts(st: State, events: seq<Event>, id: ScheduleId)
    decreases |events|
  {
    events != [] && (Cuts(st, events[0], id) || EverCuts(Advance(st, events[0]), events[1..], id))
  }

  lemma {:induction false} CutIffCuts(st: State, events: seq<Event>, id: ScheduleId)
    requires Timed(st) && !Cut(st, id)
    ensures EverCut(st, events, id) <==> EverCuts(st, events, id)
    decreases |events|
  {
    if events != [] {
      StepKeepsTimes(st, events[0]);
      if Cuts(st, events[0], id) {
        CutsCut(st, events[0], id);
      } else {
        OnlyCutsCut(st, events[0], id);
        CutIffCuts(Advance(st, events[0]), events[1..], id);
      }
    }
  }

  /**
   Over all runs from the start: an enabled schedule is ever without a queued fire at its next run time if and only
   if the fire of that time found no further run or failed before writing it, or queueing the next fire failed.
   */
  lemma ChainIsCutIff(events: seq<Event>, id: ScheduleId)
    ensures EverCut(EMPTY, events, id) <==> EverCuts(EMPTY, events, id)
  {
    CutIffCuts(EMPTY, events, id);
  }

  /**
   It is reached with a queue that works: an enabled schedule is created, and its first fire cannot look up the row.
   What is left is no fire at all.
   */
  lemma CutIsReached(d: NewSchedule) returns (events: seq<Event>)
    requires d.enabled && Perpetual(d.cron)
    ensures Cut(After(EMPTY, events), 0) && After(EMPTY, events).fires == {}
  {
    PerpetualHasNext(d.cron, None, 0);
    var t := NextRun(d.cron, None, 0).value;
    var first := Creates(0, d, true);
    var second := Fires(t, Fire(0, t), Io(false, true, AllFine, true, true, true, true));
    events := [first, second];
    assert events[1..] == [second] && [second][1..] == [];
    var created := State([FirstRow(d, Some(t))], {Fire(0, t)}, [], 0);
    assert Advance(EMPTY, first) == created;
    assert After(created, [second]) == Advance(created, second);
    assert After(EMPTY, events) == After(created, [second]);
  }

  /** A queue without fires stays empty, and no run is created, until a restart, a change or a new schedule. */
  lemma {:induction false} NothingComesBack(st: State, events: seq<Event>)
    requires st.fires == {} && forall i :: 0 <= i < |events| ==>
               !(events[i].Hydrates? || events[i].Updates? || events[i].Creates?)
    ensures After(st, events).fires == {} && |After(st, events).runs| == |st.runs|
    decreases |events|
  {
    if events != [] {
      NothingComesBack(Advance(st, events[0]), events[1..]);
    }
  }

  // ---------- Schedules that always have a next run ----------

  /** The lookups, bookings and queue calls of the step succeed; creating the run may fail. */
  predicate ChainWorks(e: Event) {
    match e
    case Fires(_, _, io) => io.found && io.checked && io.booked && io.added && io.rebooked && io.retried
    case Creates(_, _, added) => added
    case Updates(_, _, _, _, added) => added
    case _ => true
  }

  ghost predicate Chained(st: State, id: ScheduleId) {
    Cut(st, id) ==> !Perpetual(st.schedules[id].cron)
  }

  lemma EmptyIsNotPerpetual()
    ensures !Perpetual("")
  {
    assert Words("") == [];
  }

  lemma {:induction false} HydrateKeepsChain(st: State, now: nat, n: nat, id: ScheduleId)
    requires n <= |st.schedules| && Chained(st, id)
    ensures Chained(HydrateUpTo(st, now, n), id)
  {
    if n > 0 {
      HydrateKeepsChain(st, now, n - 1, id);
    }
  }

  lemma FireKeepsChain(st: State, fire: Fire, now: nat, io: Io, id: ScheduleId)
    requires Timed(st) && fire.at <= now && ChainWorks(Fires(now, fire, io)) && Chained(st, id)
    ensures Chained(Process(st, fire, now, io), id)
  {
    if fire.schedule == id && Live(st, id) {
      var s := st.schedules[id];
      if Perpetual(s.cron) { PerpetualHasNext(s.cron, s.window, now); }
    }
  }

  lemma ChangeKeepsChain(st: State, now: nat, changed: ScheduleId, c: Change, withdrawn: bool, id: ScheduleId)
    requires Timed(st) && Chained(st, id)
    ensures Chained(Update(st, now, changed, c, withdrawn, true), id)
  {
    EmptyIsNotPerpetual();
  }

  lemma CreationKeepsChain(st: State, now: nat, d: NewSchedule, id: ScheduleId)
    requires Timed(st) && Chained(st, id)
    ensures Chained(Create(st, now, d, true), id)
  {
  }

  lemma RestartKeepsChain(st: State, now: nat, n: nat, half: bool, id: ScheduleId)
    requires n <= |st.schedules| && Chained(st, id)
    ensures Chained(Hydrate(st, now, n, half), id)
  {
    HydrateKeepsChain(st, now, n, id);
    assert Hydrate(st, now, n, half).schedules == HydrateUpTo(st, now, n).schedules;
    assert HydrateUpTo(st, now, n).fires <= Hydrate(st, now, n, half).fires;
  }

  lemma StepKeepsChain(st: State, e: Event, id: ScheduleId)
    requires Timed(st) && ChainWorks(e) && Chained(st, id)
    ensures Chained(Advance(st, e), id)
  {
    if CanHappen(st, e) {
      match e
      case Hydrates(now, n, half) => RestartKeepsChain(st, now, n, half, id);
      case Creates(now, d, _) => CreationKeepsChain(st, now, d, id);
      case Fires(now, fire, io) => FireKeepsChain(st, fire, now, io, id);
      case Updates(now, changed, c, withdrawn, _) => ChangeKeepsChain(st, now, changed, c, withdrawn, id);
      case _ =>
    }
  }

  lemma {:induction false} RunKeepsChain(st: State, events: seq<Event>, id: ScheduleId)
    requires Timed(st) && Chained(st, id)
    requires forall i :: 0 <= i < |events| ==> ChainWorks(events[i])
    ensures Timed(After(st, events)) && Chained(After(st, events), id)
    decreases |events|
  {
    if events != [] {
      StepKeepsTimes(st, events[0]);
      StepKeepsChain(st, events[0], id);
      RunKeepsChain(Advance(st, events[0]), events[1..], id);
    }
  }

  /**
   In every run in which these calls succeed, an enabled schedule whose expression always has a next run has a queued
   fire at exactly its next run time, whatever expressions it had before.
   */
  lemma EnabledSchedulesAreQueued(events: seq<Event>, id: nat)
    requires forall i :: 0 <= i < |events| ==> ChainWorks(events[i])
    requires Live(After(EMPTY, events), id)
    ensures var st := After(EMPTY, events); var s := st.schedules[id];
            && s.nextRunAt.Some?
            && (s.enabled && Perpetual(s.cron) ==> Fire(id, s.nextRunAt.value) in st.fires)
  {
    RunKeepsChain(EMPTY, events, id);
  }

  /** The fields of an expression that always has a next run, as far as one day field is left open. */
  ghost predicate PlainlyPerpetual(expr: string) {
    && CronValid(expr)
    && (Words(expr)[2] == "*" || (Words(expr)[4] == "*" && AllowsCommonDate(expr)))
  }

  /**
   So an enabled schedule is queued if its fields leave the day of the month open, or the weekday with a common
   date.
   */
  lemma PlainSchedulesAreQueued(events: seq<Event>, id: nat)
    requires forall i :: 0 <= i < |events| ==> ChainWorks(events[i])
    requires Live(After(EMPTY, events), id)
    requires var s := After(EMPTY, events).schedules[id]; s.enabled && PlainlyPerpetual(s.cron)
    ensures var st := After(EMPTY, events); var s := st.schedules[id];
            s.nextRunAt.Some? && Fire(id, s.nextRunAt.value) in st.fires
  {
    var cron := After(EMPTY, events).schedules[id].cron;
    if Words(cron)[2] == "*" { AnyDayIsPerpetual(cron); } else { PerpetualIff(cron); }
    EnabledSchedulesAreQueued(events, id);
  }

  /** The schedules of automatic backups are of this kind, whatever their interval. */
  lemma BackupsArePerpetual(minutes: nat)
    requires minutes > 0
    ensures Perpetual(BackupInterval.MinutesToCron(minutes))
  {
    BackupInterval.IntervalIsValid(minutes);
    forall after: nat ensures !NoMatchAhead(BackupInterval.MinutesToCron(minutes), after) {
      BackupInterval.IntervalAlwaysHasNext(minutes, after);
    }
  }

  // ---------- One fire ----------

  /**
   The fire of the next run time moves the schedule on, to a queued fire in a later minute, if and only if the
   search finds a next run, it is written, and its fire can be queued or is there already.
   */
  lemma ProcessMovesOnIff(st: State, fire: Fire, now: nat, io: Io)
    requires Timed(st) && Live(st, fire.schedule) && fire.at <= now
    requires var s := st.schedules[fire.schedule]; s.enabled && s.nextRunAt == Some(fire.at)
    ensures var s, after := st.schedules[fire.schedule], Process(st, fire, now, io);
            var found, next := NextRun(s.cron, s.window, now), after.schedules[fire.schedule].nextRunAt;
            next.Some? && MinuteOf(next.value) > MinuteOf(now) && Fire(fire.schedule, next.value) in after.fires <==>
            FireMovesTime(st, fire, now, io) && (Requeues(Busy(st.runs, fire.schedule, s), io)
                || Fire(fire.schedule, found.value) in st.fires)
  {
    var s := st.schedules[fire.schedule];
    if NextRun(s.cron, s.window, now).Some? {
      NextRunIsLater(s.cron, s.window, now);
    } else {
      NotLater(fire.at, now);
    }
  }

  lemma NotLater(at: nat, now: nat)
    requires at <= now
    ensures MinuteOf(at) <= MinuteOf(now)
  {
  }
}
