/**
 What the handlers do to a schedule, in terms of its row, its fires and the runs it creates.
 */
module ScheduleEffects {
  import opened Calendar
  import opened Cron
  import opened ExecutionWindow
  import opened Scheduler
  import opened Text
  import opened Wrappers

  function Given<T>(change: Option<T>, before: T): T {
    if change.Some? then change.value else before
  }

  predicate OthersSame(st: State, t: State, id: ScheduleId) {
    && |t.schedules| == |st.schedules|
    && forall other :: 0 <= other < |st.schedules| && other != id ==> t.schedules[other] == st.schedules[other]
  }

  /** A change is accepted unless it gives a non-empty expression without a next run. */
  ghost predicate Acceptable(c: Change, now: nat) {
    c.cron.Some? && c.cron.value != "" ==> NextRun(c.cron.value, None, now).Some?
  }

  /** Every field that is given has its new value, every other one its old value. */
  lemma ChangeTakesEffect(st: State, now: nat, id: ScheduleId, c: Change, withdrawn: bool, added: bool)
    requires st.clock <= now && Live(st, id) && Acceptable(c, now)
    ensures var t := Advance(st, Updates(now, id, c, withdrawn, added));
            && t.runs == st.runs && OthersSame(st, t, id)
            && var s, r := st.schedules[id], t.schedules[id];
            && r.enabled == Given(c.enabled, s.enabled) && r.cron == Given(c.cron, s.cron)
            && r.jobType == Given(c.jobType, s.jobType) && r.payloadId == Given(c.payloadId, s.payloadId)
            && r.nextRunAt == (if Given(c.cron, "") != "" then NextRun(c.cron.value, None, now) else s.nextRunAt)
            && r.server == s.server && r.sevenDays == s.sevenDays && r.window == s.window && r.deleted == s.deleted
            && r.lastOutcome == s.lastOutcome && r.runCount == s.runCount && r.failureCount == s.failureCount
  {
  }

  /** Its fires: the old one goes if it can be withdrawn, and one at the next time comes if it is on and queueable. */
  lemma ChangeMovesFire(st: State, now: nat, id: ScheduleId, c: Change, withdrawn: bool, added: bool, fire: Fire)
    requires st.clock <= now && Live(st, id) && Acceptable(c, now)
    ensures var s, t := st.schedules[id], Advance(st, Updates(now, id, c, withdrawn, added));
            fire in t.fires <==>
            || (fire in st.fires && !(withdrawn && fire.schedule == id && s.nextRunAt == Some(fire.at)))
            || (added && fire.schedule == id && t.schedules[id].enabled && t.schedules[id].nextRunAt == Some(fire.at))
  {
  }

  /** Anything else is refused and changes nothing. */
  lemma RefusedChangesNothing(st: State, now: nat, id: ScheduleId, c: Change, withdrawn: bool, added: bool)
    requires st.clock <= now && !(Live(st, id) && Acceptable(c, now))
    ensures Advance(st, Updates(now, id, c, withdrawn, added)) == st.(clock := now)
  {
  }

  /** A new schedule is stored as given, without a window, and queued when it is on. */
  lemma CreationTakesEffect(st: State, now: nat, d: NewSchedule, added: bool)
    requires st.clock <= now && NextRun(d.cron, None, now).Some?
    ensures var t, id := Advance(st, Creates(now, d, added)), |st.schedules|;
            && |t.schedules| == id + 1 && t.schedules[..id] == st.schedules && t.runs == st.runs
            && var r := t.schedules[id];
            && r.server == d.server && r.sevenDays == d.sevenDays && r.cron == d.cron && r.jobType == d.jobType
            && r.payloadId == d.payloadId && r.enabled == d.enabled && r.window == None && !r.deleted
            && r.nextRunAt == NextRun(d.cron, None, now) && r.runCount == r.failureCount == 0 && r.lastOutcome == None
            && (forall fire: Fire :: fire in t.fires <==>
                  fire in st.fires || (added && d.enabled && fire.schedule == id && r.nextRunAt == Some(fire.at)))
  {
  }

  // ---------- Switched off ----------

  /** The schedule is switched off, deleted or not there yet. */
  predicate Off(st: State, id: ScheduleId) {
    id < |st.schedules| && (st.schedules[id].deleted || !st.schedules[id].enabled)
  }

  predicate SwitchesOn(e: Event, id: ScheduleId) {
    e.Updates? && e.id == id && e.change.enabled == Some(true)
  }

  lemma {:induction false} HydrateKeepsOff(st: State, now: nat, n: nat, id: ScheduleId)
    requires n <= |st.schedules| && Off(st, id)
    ensures Off(HydrateUpTo(st, now, n), id) && HydrateUpTo(st, now, n).runs == st.runs
    ensures HydrateUpTo(st, now, n).schedules[id].deleted == st.schedules[id].deleted
    ensures forall fire: Fire :: fire.schedule == id && fire in HydrateUpTo(st, now, n).fires ==> fire in st.fires
  {
    if n > 0 {
      HydrateKeepsOff(st, now, n - 1, id);
    }
  }

  /** No step creates a run of a schedule that is off, queues a fire of it or switches it on by itself. */
  lemma OffStaysOff(st: State, e: Event, id: ScheduleId)
    requires Off(st, id) && (st.schedules[id].deleted || !SwitchesOn(e, id))
    ensures var t := Advance(st, e);
            && Off(t, id) && |st.runs| <= |t.runs| && (st.schedules[id].deleted ==> t.schedules[id].deleted)
            && (forall i :: 0 <= i < |st.runs| ==> t.runs[i].creator == st.runs[i].creator)
            && (forall i :: |st.runs| <= i < |t.runs| ==> t.runs[i].creator != id)
            && (forall fire: Fire :: fire.schedule == id && fire in t.fires ==> fire in st.fires)
  {
    if CanHappen(st, e) && e.Hydrates? { HydrateKeepsOff(st, e.now, e.n, id); }
  }

  /**
   Once a schedule is switched off no run of it appears, whatever fires are left and however often the control plane
   restarts, until a change switches it on; and once it is deleted no run of it appears ever again.
   */
  lemma {:induction false} OffCreatesNothing(st: State, events: seq<Event>, id: ScheduleId)
    requires Off(st, id)
    requires st.schedules[id].deleted || forall i :: 0 <= i < |events| ==> !SwitchesOn(events[i], id)
    ensures var t := After(st, events);
            && Off(t, id) && |st.runs| <= |t.runs|
            && (forall i :: 0 <= i < |st.runs| ==> t.runs[i].creator == st.runs[i].creator)
            && (forall i :: |st.runs| <= i < |t.runs| ==> t.runs[i].creator != id)
            && (forall fire: Fire :: fire.schedule == id && fire in t.fires ==> fire in st.fires)
    decreases |events|
  {
    if events != [] {
      OffStaysOff(st, events[0], id);
      OffCreatesNothing(Advance(st, events[0]), events[1..], id);
    }
  }

  /** Switching off takes the queued fire away, and from then on no run of the schedule appears. */
  lemma SwitchingOffStops(st: State, now: nat, id: ScheduleId, added: bool, events: seq<Event>)
    requires st.clock <= now && Live(st, id) && forall i :: 0 <= i < |events| ==> !SwitchesOn(events[i], id)
    ensures var off := Advance(st, Updates(now, id, Change(Some(false), None, None, None), true, added));
            var t := After(off, events);
            && (st.schedules[id].nextRunAt.Some? ==> Fire(id, st.schedules[id].nextRunAt.value) !in t.fires)
            && |st.runs| <= |t.runs| && forall i :: |st.runs| <= i < |t.runs| ==> t.runs[i].creator != id
  {
    var c := Change(Some(false), None, None, None);
    var off := Advance(st, Updates(now, id, c, true, added));
    ChangeTakesEffect(st, now, id, c, true, added);
    OffCreatesNothing(off, events, id);
    if st.schedules[id].nextRunAt.Some? {
      var fire := Fire(id, st.schedules[id].nextRunAt.value);
      ChangeMovesFire(st, now, id, c, true, added, fire);
      assert fire !in off.fires;
    }
  }

  /** Deleting marks the row and leaves everything else, and from then on no run of the schedule appears. */
  lemma DeletionStops(st: State, id: ScheduleId, events: seq<Event>)
    requires Live(st, id)
    ensures var gone := Advance(st, Deletes(id));
            var t := After(gone, events);
            && OthersSame(st, gone, id) && gone.schedules[id] == st.schedules[id].(deleted := true)
            && gone.fires == st.fires && gone.runs == st.runs && gone.clock == st.clock
            && |st.runs| <= |t.runs| && forall i :: |st.runs| <= i < |t.runs| ==> t.runs[i].creator != id
  {
    OffCreatesNothing(Advance(st, Deletes(id)), events, id);
  }

  // ---------- What a fire does ----------

  /** Some run of this server and type carries the id of the schedule and has not ended. */
  predicate Unfinished(st: State, id: ScheduleId, server: nat, jobType: string) {
    exists i :: 0 <= i < |st.runs| && st.runs[i].status != Ended && st.runs[i].server == server
                && st.runs[i].jobType == jobType && st.runs[i].tag == id
  }

  /** A restart of a 7DTD server becomes a safe one; all other jobs are created as configured. */
  predicate TypeOfRun(s: Schedule, jobType: string) {
    jobType == if s.sevenDays && Lower(s.jobType) == "server_restart" then "SERVER_SAFE_RESTART" else s.jobType
  }

  lemma BusyIsUnfinished(st: State, id: ScheduleId, jobType: string)
    requires id < |st.schedules| && TypeOfRun(st.schedules[id], jobType)
    ensures Busy(st.runs, id, st.schedules[id]) <==> Unfinished(st, id, st.schedules[id].server, jobType)
  {
    var s := st.schedules[id];
    if i :| 0 <= i < |st.runs| && Blocks(st.runs[i], id, s) {
      assert Unfinished(st, id, s.server, jobType);
    }
    if i :| 0 <= i < |st.runs| && st.runs[i].status != Ended && st.runs[i].server == s.server
            && st.runs[i].jobType == jobType && st.runs[i].tag == id {
      assert Blocks(st.runs[i], id, s);
    }
  }

  /**
   A fire whose lookups succeed creates one pending run, of the schedule's server and under the id in its payload,
   exactly if no run it waits for is unfinished and the creation succeeds.
   */
  lemma FireCreatesRun(st: State, now: nat, fire: Fire, io: Io, jobType: string)
    requires CanHappen(st, Fires(now, fire, io)) && Live(st, fire.schedule)
    requires TypeOfRun(st.schedules[fire.schedule], jobType)
    ensures var s, t := st.schedules[fire.schedule], Advance(st, Fires(now, fire, io));
            var creates := io.found && io.checked && s.enabled && !io.creation.CreateFails?
                           && !Unfinished(st, fire.schedule, s.server, jobType);
            var tag := Given(s.payloadId, fire.schedule);
            t.runs == st.runs + if creates
            then [Run(fire.schedule, s.server, tag, jobType, Pending, io.creation.AllFine?)] else []
  {
    BusyIsUnfinished(st, fire.schedule, jobType);
  }

  predicate SameSettings(s: Schedule, r: Schedule) {
    && r.server == s.server && r.sevenDays == s.sevenDays && r.cron == s.cron && r.window == s.window
    && r.jobType == s.jobType && r.payloadId == s.payloadId && r.enabled == s.enabled && r.deleted == s.deleted
  }

  /**
   What a fire writes, whichever calls fail.  The first attempt writes the row unless the creation failed, and is fine
   if a further fire is queued after that or there is none; a fire that waits is not attempted again.
   */
  lemma FireStoresOutcome(st: State, now: nat, fire: Fire, io: Io, jobType: string)
    requires CanHappen(st, Fires(now, fire, io)) && Live(st, fire.schedule) && st.schedules[fire.schedule].enabled
    requires TypeOfRun(st.schedules[fire.schedule], jobType) && io.found && io.checked
    ensures var id := fire.schedule; var s := st.schedules[id]; var t := Advance(st, Fires(now, fire, io));
            var r, busy, next := t.schedules[id], Unfinished(st, id, s.server, jobType), NextRun(s.cron, s.window, now);
            var wrote := io.booked && (busy || io.creation.AllFine?);
            var fine := wrote && (next.None? || io.added);
            var again := !busy && !fine && io.rebooked;
            && OthersSame(st, t, id) && SameSettings(s, r)
            && r.nextRunAt == (if next.Some? && (wrote || again) then next else s.nextRunAt)
            && r.lastOutcome == Some(if !fine then SchedulerFailed else if busy then SkippedBusy else Success)
            && r.runCount - s.runCount == (if wrote && !busy then 1 else 0)
            && r.failureCount - s.failureCount == (if fine then 0 else if again then 2 else 1)
            && forall f: Fire :: f in t.fires <==>
                 || (f in st.fires && f != fire)
                 || (f.schedule == id && next == Some(f.at) && ((wrote && io.added) || (again && io.retried)))
  {
    BusyIsUnfinished(st, fire.schedule, jobType);
  }

  /** A fire whose lookups fail is counted as a failure; one of a row that is off or gone does nothing. */
  lemma FireIsCountedOrDropped(st: State, now: nat, fire: Fire, io: Io)
    requires CanHappen(st, Fires(now, fire, io))
    requires !io.found || !io.checked || !Live(st, fire.schedule) || !st.schedules[fire.schedule].enabled
    ensures var id, t := fire.schedule, Advance(st, Fires(now, fire, io));
            && t.runs == st.runs && t.fires == st.fires - {fire}
            && if !Live(st, id) || (io.found && !st.schedules[id].enabled) then t.schedules == st.schedules
               else
                 var s, r := st.schedules[id], t.schedules[id];
                 && OthersSame(st, t, id) && SameSettings(s, r) && r.nextRunAt == s.nextRunAt
                 && r.lastOutcome == Some(SchedulerFailed) && r.failureCount == s.failureCount + 1
                 && r.runCount == s.runCount
  {
  }

  // ---------- The next run ----------

  /** The start of the first matching minute of the next 366 days; nothing for an invalid expression or without one. */
  lemma NextRunIff(cron: string, now: nat)
    ensures match NextRun(cron, None, now)
            case Some(time) =>
              CronValid(cron)
              && exists m: nat :: MinuteOf(now) < m <= MinuteOf(now) + 527040 && time == m * 60000
                                  && CronMatches(cron, m)
                                  && forall u: nat :: MinuteOf(now) < u < m ==> !CronMatches(cron, u)
            case None =>
              !CronValid(cron)
              || forall u: nat :: MinuteOf(now) < u <= MinuteOf(now) + 527040 ==> !CronMatches(cron, u)
  {
    if NextRun(cron, None, now).Some? {
      var m: nat :| IsNext(cron, MinuteOf(now), m) && NextRun(cron, None, now).value == Clamp(StartOf(m), None);
      assert CronMatches(cron, m);
    } else if CronValid(cron) {
      if u: nat :| MinuteOf(now) < u <= MinuteOf(now) + 527040 && CronMatches(cron, u) {
        LeastMatch(cron, MinuteOf(now), u);
      }
    }
  }

  // ---------- Execution windows are kept at start-up and at fires ----------

  predicate KeepsWindow(s: Schedule, time: nat) {
    s.window.Some? && IsWindow(s.window.value) ==> InWindow(s.window.value, time)
  }

  lemma NextRunKeepsWindow(s: Schedule, now: nat)
    requires NextRun(s.cron, s.window, now).Some?
    ensures KeepsWindow(s, NextRun(s.cron, s.window, now).value)
  {
    var m: nat :| IsNext(s.cron, MinuteOf(now), m)
                  && NextRun(s.cron, s.window, now).value == Clamp(StartOf(m), s.window);
    if s.window.Some? && IsWindow(s.window.value) { ClampLandsInside(StartOf(m), s.window.value); }
  }

  lemma {:induction false} HydrateTouchesUpTo(st: State, now: nat, n: nat, id: ScheduleId)
    requires n <= id < |st.schedules|
    ensures HydrateUpTo(st, now, n).schedules[id] == st.schedules[id]
  {
    if n > 0 {
      HydrateTouchesUpTo(st, now, n - 1, id);
    }
  }

  /** What start-up makes of a row it reaches. */
  ghost predicate Restarted(st: State, t: State, now: nat, id: ScheduleId)
    requires id < |st.schedules| == |t.schedules|
  {
    var s, r := st.schedules[id], t.schedules[id];
    var next := NextRun(s.cron, s.window, now);
    if !s.deleted && s.enabled && next.Some? then
      r == s.(nextRunAt := next) && KeepsWindow(s, next.value) && Fire(id, next.value) in t.fires
    else r == s
  }

  lemma LaterRowsKeepIt(st: State, t: State, u: State, now: nat, id: ScheduleId)
    requires id < |st.schedules| == |t.schedules| == |u.schedules| && Restarted(st, t, now, id)
    requires u.schedules[id] == t.schedules[id] && t.fires <= u.fires
    ensures Restarted(st, u, now, id)
  {
  }

  lemma OneRowRestarts(st: State, before: State, now: nat, id: ScheduleId)
    requires id < |st.schedules| == |before.schedules| && before.schedules[id] == st.schedules[id]
    ensures Restarted(st, HydrateOne(before, now, id), now, id)
  {
    var s := st.schedules[id];
    if NextRun(s.cron, s.window, now).Some? { NextRunKeepsWindow(s, now); }
  }

  lemma {:induction false} HydrateRestarts(st: State, now: nat, n: nat, id: ScheduleId)
    requires id < n <= |st.schedules|
    ensures Restarted(st, HydrateUpTo(st, now, n), now, id)
  {
    var before := HydrateUpTo(st, now, n - 1);
    if id < n - 1 {
      HydrateRestarts(st, now, n - 1, id);
      LaterRowsKeepIt(st, before, HydrateOne(before, now, n - 1), now, id);
    } else {
      HydrateTouchesUpTo(st, now, n - 1, id);
      OneRowRestarts(st, before, now, id);
    }
  }

  /** Start-up queues a fire for the row at this time. */
  ghost predicate Queues(s: Schedule, now: nat, at: nat) {
    !s.deleted && s.enabled && NextRun(s.cron, s.window, now) == Some(at)
  }

  lemma {:induction false} HydrateFiresIff(st: State, now: nat, n: nat, fire: Fire)
    requires n <= |st.schedules|
    ensures fire in HydrateUpTo(st, now, n).fires <==>
            fire in st.fires || (fire.schedule < n && Queues(st.schedules[fire.schedule], now, fire.at))
  {
    if n > 0 {
      HydrateFiresIff(st, now, n - 1, fire);
      HydrateTouchesUpTo(st, now, n - 1, n - 1);
    }
  }

  /**
   After start-up every enabled row that was reached is queued at its next time, which lies in its window, and the
   others are as they were; the row at which a call failed may have been queued without being written.
   */
  lemma StartUpQueuesRows(st: State, now: nat, n: nat, half: bool, id: ScheduleId)
    requires CanHappen(st, Hydrates(now, n, half)) && id < |st.schedules|
    ensures var t := Advance(st, Hydrates(now, n, half));
            && |t.schedules| == |st.schedules| && t.runs == st.runs
            && (if id < n then Restarted(st, t, now, id) else t.schedules[id] == st.schedules[id])
            && (forall fire: Fire :: fire in t.fires <==>
                  || fire in st.fires
                  || ((fire.schedule < n || (half && fire.schedule == n < |st.schedules|))
                      && Queues(st.schedules[fire.schedule], now, fire.at)))
  {
    HydrateAddsFires(st, now, n);
    if id < n { HydrateRestarts(st, now, n, id); } else { HydrateTouchesUpTo(st, now, n, id); }
    if n < |st.schedules| { HydrateTouchesUpTo(st, now, n, n); }
    forall fire: Fire ensures fire in HydrateUpTo(st, now, n).fires <==>
        fire in st.fires || (fire.schedule < n && Queues(st.schedules[fire.schedule], now, fire.at)) {
      HydrateFiresIff(st, now, n, fire);
    }
  }

  lemma {:induction false} HydrateAddsFires(st: State, now: nat, n: nat)
    requires n <= |st.schedules|
    ensures HydrateUpTo(st, now, n).runs == st.runs && st.fires <= HydrateUpTo(st, now, n).fires
  {
    if n > 0 {
      HydrateAddsFires(st, now, n - 1);
    }
  }

  /** So does a fire that writes a further time. */
  lemma FiresKeepWindow(st: State, now: nat, fire: Fire, io: Io)
    requires CanHappen(st, Fires(now, fire, io)) && Live(st, fire.schedule)
    ensures var s, r := st.schedules[fire.schedule], Advance(st, Fires(now, fire, io)).schedules[fire.schedule];
            r.nextRunAt == s.nextRunAt || (r.nextRunAt.Some? && KeepsWindow(s, r.nextRunAt.value))
  {
    var s := st.schedules[fire.schedule];
    if NextRun(s.cron, s.window, now).Some? { NextRunKeepsWindow(s, now); }
  }

  // ---------- Restarts of 7DTD servers ----------

  predicate OfSevenDays(st: State, id: ScheduleId) {
    id < |st.schedules| && st.schedules[id].sevenDays
  }

  predicate NoUnsafeRestart(st: State) {
    forall i :: 0 <= i < |st.runs| ==>
      st.runs[i].creator < |st.schedules|
      && (OfSevenDays(st, st.runs[i].creator) ==> Lower(st.runs[i].jobType) != "server_restart")
  }

  lemma SafeIsNotRestart()
    ensures Lower("SERVER_SAFE_RESTART") != "server_restart"
  {
    assert |Lower("SERVER_SAFE_RESTART")| == 19;
  }

  lemma HydrateOneKeepsKinds(st: State, now: nat, id: ScheduleId)
    requires id < |st.schedules|
    ensures var t := HydrateOne(st, now, id);
            && t.runs == st.runs && |t.schedules| == |st.schedules|
            && forall k :: 0 <= k < |st.schedules| ==> t.schedules[k].sevenDays == st.schedules[k].sevenDays
  {
  }

  lemma {:induction false} HydrateKeepsKinds(st: State, now: nat, n: nat)
    requires n <= |st.schedules|
    ensures var t := HydrateUpTo(st, now, n);
            && t.runs == st.runs && |t.schedules| == |st.schedules|
            && forall k :: 0 <= k < |st.schedules| ==> t.schedules[k].sevenDays == st.schedules[k].sevenDays
  {
    if n > 0 {
      HydrateKeepsKinds(st, now, n - 1);
      HydrateOneKeepsKinds(HydrateUpTo(st, now, n - 1), now, n - 1);
    }
  }

  lemma StepKeepsSafe(st: State, e: Event)
    requires NoUnsafeRestart(st)
    ensures NoUnsafeRestart(Advance(st, e))
  {
    SafeIsNotRestart();
    if CanHappen(st, e) && e.Hydrates? { HydrateKeepsKinds(st, e.now, e.n); }
  }

  lemma {:induction false} RunKeepsSafe(st: State, events: seq<Event>)
    requires NoUnsafeRestart(st)
    ensures NoUnsafeRestart(After(st, events))
    decreases |events|
  {
    if events != [] {
      StepKeepsSafe(st, events[0]);
      RunKeepsSafe(Advance(st, events[0]), events[1..]);
    }
  }

  /** No schedule ever creates a plain restart of a 7DTD server, however its job type is spelled. */
  lemma SevenDaysRestartSafely(events: seq<Event>, i: nat)
    requires i < |After(EMPTY, events).runs| && OfSevenDays(After(EMPTY, events), After(EMPTY, events).runs[i].creator)
    ensures Lower(After(EMPTY, events).runs[i].jobType) != "server_restart"
  {
    RunKeepsSafe(EMPTY, events);
  }
}
