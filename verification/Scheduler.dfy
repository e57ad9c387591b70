/**
 Schedules, their queued fires and the runs they create.

 A fire is a delayed queue entry named after its schedule and its time, so adding it twice has no
 effect.  Every handler is one atomic step at one clock reading; any of its calls to the database or
 the queue may fail.  Runs are also moved by the agents: a queued run may start, a running one may end.
 */
module Scheduler {
  import opened Calendar
  import opened Cron
  import opened CronReach
  import opened ExecutionWindow
  import opened Text
  import opened Wrappers

  type ScheduleId = nat

  datatype Outcome = Success | SkippedBusy | SchedulerFailed

  /**
   payloadId is the schedule id the configured payload carries itself, if any; it is merged over the
   id of the schedule.
   */
  datatype Schedule = Schedule(
    server: nat, sevenDays: bool, cron: string, window: Option<Window>, jobType: string, payloadId: Option<ScheduleId>,
    enabled: bool, deleted: bool, nextRunAt: Option<nat>,
    lastOutcome: Option<Outcome>, runCount: nat, failureCount: nat)

  datatype Fire = Fire(schedule: ScheduleId, at: nat)

  datatype RunStatus = Pending | Running | Ended

  /**
   tag is the schedule id in the payload, creator the schedule that made the run; queued says whether an agent can
   find it.
   */
  datatype Run = Run(creator: ScheduleId, server: nat, tag: ScheduleId, jobType: string, status: RunStatus,
      queued: bool)

  datatype State = State(schedules: seq<Schedule>, fires: set<Fire>, runs: seq<Run>, clock: nat)

  const EMPTY := State([], {}, [], 0)

  // ---------- The next run of a schedule ----------

  /** The next run, or nothing when the expression is refused. */
  ghost function NextRun(cron: string, window: Option<Window>, from: nat): (r: Option<nat>)
    ensures r.Some? ==> exists m: nat :: IsNext(cron, MinuteOf(from), m) && r.value == Clamp(StartOf(m), window)
  {
    if CronValid(cron) && exists m: nat :: IsNext(cron, MinuteOf(from), m) then
      var m: nat :| IsNext(cron, MinuteOf(from), m);
      Some(Clamp(StartOf(m), window))
    else None
  }

  lemma {:induction false} LeastMatch(expr: string, after: nat, u: nat)
    requires after < u <= after + HORIZON && CronMatches(expr, u)
    ensures exists m: nat :: IsNext(expr, after, m)
    decreases u
  {
    if v: nat :| after < v < u && CronMatches(expr, v) {
      LeastMatch(expr, after, v);
    } else {
      assert IsNext(expr, after, u);
    }
  }

  lemma PerpetualHasNext(cron: string, window: Option<Window>, from: nat)
    requires Perpetual(cron)
    ensures NextRun(cron, window, from).Some?
  {
    assert !NoMatchAhead(cron, MinuteOf(from));
    var u: nat :| MinuteOf(from) < u <= MinuteOf(from) + HORIZON && CronMatches(cron, u);
    LeastMatch(cron, MinuteOf(from), u);
  }

  /** The next run lies in a later minute, also after clamping. */
  lemma NextRunIsLater(cron: string, window: Option<Window>, from: nat)
    requires window.Some? ==> IsWindow(window.value)
    requires NextRun(cron, window, from).Some?
    ensures NextRun(cron, window, from).value > from && MinuteOf(NextRun(cron, window, from).value) > MinuteOf(from)
  {
    var r := NextRun(cron, window, from).value;
    var m: nat :| IsNext(cron, MinuteOf(from), m) && r == Clamp(StartOf(m), window);
    if window.Some? { ClampLandsInside(StartOf(m), window.value); }
    LaterMinute(from, m, r);
  }

  lemma LaterMinute(from: nat, m: nat, r: nat)
    requires MinuteOf(from) < m && StartOf(m) <= r
    ensures from < r && MinuteOf(from) < MinuteOf(r)
  {
  }

  lemma FoundIsNextRun(cron: string, window: Option<Window>, from: nat, m: nat)
    requires CronValid(cron) && IsNext(cron, MinuteOf(from), m)
    ensures NextRun(cron, window, from) == Some(Clamp(StartOf(m), window))
  {
    var k: nat :| IsNext(cron, MinuteOf(from), k) && NextRun(cron, window, from).value == Clamp(StartOf(k), window);
    NextIsUnique(cron, MinuteOf(from), k, m);
  }

  lemma NothingFound(cron: string, window: Option<Window>, from: nat)
    requires NoMatchAhead(cron, MinuteOf(from))
    ensures NextRun(cron, window, from) == None
  {
    if m: nat :| IsNext(cron, MinuteOf(from), m) { assert false; }
  }

  method ComputeNextRun(cron: string, window: Option<Window>, from: nat) returns (r: Option<nat>)
    ensures r == NextRun(cron, window, from)
  {
    var found := GetNextCronRun(cron, from);
    match found
    case Ok(next) =>
      FoundIsNextRun(cron, window, from, MinuteOf(next));
      return Some(Clamp(next, window));
    case Err(e) =>
      if e == NoNextRun { NothingFound(cron, window, from); }
      return None;
  }

  // ---------- Handlers ----------

  /** Letter case of job types is compared in ASCII. */
  function EffectiveType(s: Schedule): string {
    if s.sevenDays && Lower(s.jobType) == "server_restart" then "SERVER_SAFE_RESTART" else s.jobType
  }

  function TagOf(id: ScheduleId, s: Schedule): ScheduleId {
    if s.payloadId.Some? then s.payloadId.value else id
  }

  predicate Active(r: Run) {
    r.status != Ended
  }

  /** The run the overlap check of a schedule looks for. */
  predicate Blocks(r: Run, id: ScheduleId, s: Schedule) {
    Active(r) && r.server == s.server && r.jobType == EffectiveType(s) && r.tag == id
  }

  predicate Busy(runs: seq<Run>, id: ScheduleId, s: Schedule) {
    exists i :: 0 <= i < |runs| && Blocks(runs[i], id, s)
  }

  function FireAt(id: ScheduleId, at: Option<nat>): set<Fire> {
    if at.Some? then {Fire(id, at.value)} else {}
  }

  function Or(next: Option<nat>, otherwise: Option<nat>): Option<nat> {
    if next.Some? then next else otherwise
  }

  predicate Live(st: State, id: ScheduleId) {
    id < |st.schedules| && !st.schedules[id].deleted
  }

  /** How far creating the run of a fire gets. */
  datatype Creation = AllFine | QueueFails | CreateFails

  /**
   Which calls of a fire succeed: looking up the schedule and its unfinished runs, creating the run, writing the row
   and queueing the next fire, and both of these once more when the first attempt failed.
   */
  datatype Io = Io(found: bool, checked: bool, creation: Creation, booked: bool, added: bool, rebooked: bool,
      retried: bool)

  /** The row is written as planned. */
  predicate BooksFirst(busy: bool, io: Io) {
    io.booked && (busy || io.creation.AllFine?)
  }

  /** The row gets the next time; only a fire that is not busy is booked again, as failed. */
  predicate Books(busy: bool, io: Io) {
    BooksFirst(busy, io) || (!busy && io.rebooked)
  }

  predicate Requeues(busy: bool, io: Io) {
    (BooksFirst(busy, io) && io.added) || (!busy && io.rebooked && io.retried)
  }

  /** The row after the failure handler of the worker. */
  function Failed(s: Schedule): Schedule {
    s.(lastOutcome := Some(SchedulerFailed), failureCount := s.failureCount + 1)
  }

  /** The bookkeeping of a fire; a failure is counted by the handler that catches it and once more by the worker. */
  function Booked(s: Schedule, busy: bool, io: Io, next: Option<nat>): Schedule {
    var fine := BooksFirst(busy, io) && (next.Some? ==> io.added);
    var timed := if Books(busy, io) then s.(nextRunAt := Or(next, s.nextRunAt)) else s;
    if busy then if fine then timed.(lastOutcome := Some(SkippedBusy)) else Failed(timed)
    else
      var counted := if BooksFirst(busy, io) then timed.(runCount := s.runCount + 1) else timed;
      if fine then counted.(lastOutcome := Some(Success))
      else if io.rebooked then Failed(Failed(counted))
      else Failed(counted)
  }

  function RunsOfFire(id: ScheduleId, s: Schedule, busy: bool, creation: Creation): seq<Run> {
    if busy || creation.CreateFails? then []
    else [Run(id, s.server, TagOf(id, s), EffectiveType(s), Pending, creation.AllFine?)]
  }

  /** The handler looks up the row and its unfinished runs; when it cannot, only the worker's failure handler runs. */
  ghost function Process(st: State, fire: Fire, now: nat, io: Io): State {
    var id, rest := fire.schedule, st.(fires := st.fires - {fire}, clock := now);
    if !Live(st, id) || (io.found && !st.schedules[id].enabled) then rest
    else if !io.found || !io.checked then rest.(schedules := st.schedules[id := Failed(st.schedules[id])])
    else
      var s, busy := st.schedules[id], Busy(st.runs, id, st.schedules[id]);
      var next := NextRun(s.cron, s.window, now);
      rest.(schedules := st.schedules[id := Booked(s, busy, io, next)],
            fires := rest.fires + (if Requeues(busy, io) then FireAt(id, next) else {}),
            runs := st.runs + RunsOfFire(id, s, busy, io.creation))
  }

  /** At start-up every enabled schedule is queued afresh, row by row. */
  ghost function HydrateUpTo(st: State, now: nat, n: nat): State
    requires n <= |st.schedules|
    ensures |HydrateUpTo(st, now, n).schedules| == |st.schedules|
  {
    if n == 0 then st.(clock := now)
    else
      var before, id := HydrateUpTo(st, now, n - 1), n - 1;
      HydrateOne(before, now, id)
  }

  ghost function HydrateOne(st: State, now: nat, id: ScheduleId): State
    requires id < |st.schedules|
  {
    var s := st.schedules[id];
    var next := NextRun(s.cron, s.window, now);
    if s.deleted || !s.enabled || next.None? then st
    else st.(schedules := st.schedules[id := s.(nextRunAt := next)], fires := st.fires + FireAt(id, next))
  }

  /** A failing call ends that after n rows; the next fire may have been queued without its row being written. */
  ghost function Hydrate(st: State, now: nat, n: nat, half: bool): State
    requires n <= |st.schedules|
  {
    var before := HydrateUpTo(st, now, n);
    if half && n < |st.schedules| then before.(fires := HydrateOne(before, now, n).fires) else before
  }

  datatype NewSchedule = NewSchedule(
    server: nat, sevenDays: bool, cron: string, jobType: string, payloadId: Option<ScheduleId>, enabled: bool)

  function FirstRow(d: NewSchedule, next: Option<nat>): Schedule {
    Schedule(d.server, d.sevenDays, d.cron, None, d.jobType, d.payloadId, d.enabled, false, next, None, 0, 0)
  }

  /** A new schedule has no window; an expression without a next run is refused. */
  ghost function Create(st: State, now: nat, d: NewSchedule, added: bool): State {
    var next := NextRun(d.cron, None, now);
    if next.None? then st.(clock := now)
    else
      st.(schedules := st.schedules + [FirstRow(d, next)],
          fires := st.fires + (if d.enabled && added then FireAt(|st.schedules|, next) else {}),
          clock := now)
  }

  datatype Change = Change(
    enabled: Option<bool>, cron: Option<string>, jobType: Option<string>, payloadId: Option<Option<ScheduleId>>)

  /** An empty expression is stored without being looked at. */
  predicate ChangesTime(c: Change) {
    c.cron.Some? && c.cron.value != ""
  }

  function Changed(s: Schedule, c: Change, next: Option<nat>): Schedule {
    s.(cron := if c.cron.Some? then c.cron.value else s.cron,
       nextRunAt := if ChangesTime(c) then next else s.nextRunAt,
       jobType := if c.jobType.Some? then c.jobType.value else s.jobType,
       payloadId := if c.payloadId.Some? then c.payloadId.value else s.payloadId,
       enabled := if c.enabled.Some? then c.enabled.value else s.enabled)
  }

  /** The time a change computes; it ignores the window. */
  ghost function NewTime(c: Change, now: nat): Option<nat> {
    if ChangesTime(c) then NextRun(c.cron.value, None, now) else None
  }

  /** A change whose expression has no next run is refused. */
  ghost predicate Refused(c: Change, now: nat) {
    ChangesTime(c) && NewTime(c, now).None?
  }

  /** A failure to withdraw the old fire is ignored. */
  function Withdrawn(id: ScheduleId, s: Schedule, withdrawn: bool): set<Fire> {
    if withdrawn then FireAt(id, s.nextRunAt) else {}
  }

  ghost function Update(st: State, now: nat, id: ScheduleId, c: Change, withdrawn: bool, added: bool): State {
    if !Live(st, id) || Refused(c, now) then st.(clock := now)
    else
      var s := st.schedules[id];
      var changed := Changed(s, c, NewTime(c, now));
      st.(schedules := st.schedules[id := changed],
          fires := st.fires - Withdrawn(id, s, withdrawn) +
                   (if changed.enabled && added then FireAt(id, changed.nextRunAt) else {}),
          clock := now)
  }

  /** Queued fires of a deleted schedule stay in the queue. */
  function Delete(st: State, id: ScheduleId): State {
    if Live(st, id) then st.(schedules := st.schedules[id := st.schedules[id].(deleted := true)]) else st
  }

  // ---------- Runs of the system ----------

  datatype Event =
    | Hydrates(now: nat, n: nat, half: bool)
    | Creates(now: nat, data: NewSchedule, added: bool)
    | Updates(now: nat, id: ScheduleId, change: Change, withdrawn: bool, added: bool)
    | Deletes(id: ScheduleId)
    | Fires(now: nat, fire: Fire, io: Io)
    | RunMoves(i: nat, to: RunStatus)
    | WindowIsSet(id: ScheduleId, window: Option<Window>)

  /** Time never goes back, a fire is not processed early, and only a queued run is ever started. */
  predicate CanHappen(st: State, e: Event) {
    match e
    case Hydrates(now, n, _) => st.clock <= now && n <= |st.schedules|
    case Creates(now, _, _) => st.clock <= now
    case Updates(now, _, _, _, _) => st.clock <= now
    case Deletes(_) => true
    case Fires(now, fire, _) => st.clock <= now && fire in st.fires && fire.at <= now
    case RunMoves(i, to) =>
      && i < |st.runs| && st.runs[i].queued && to != Pending
      && (st.runs[i].status == Pending || (st.runs[i].status == Running && to == Ended))
    case WindowIsSet(id, window) => Live(st, id) && (window.Some? ==> IsWindow(window.value))
  }

  /** No handler writes the window columns: rows carry them from elsewhere. */
  ghost function Advance(st: State, e: Event): State {
    if !CanHappen(st, e) then st
    else
      match e
      case Hydrates(now, n, half) => Hydrate(st, now, n, half)
      case Creates(now, data, added) => Create(st, now, data, added)
      case Updates(now, id, change, withdrawn, added) => Update(st, now, id, change, withdrawn, added)
      case Deletes(id) => Delete(st, id)
      case Fires(now, fire, io) => Process(st, fire, now, io)
      case RunMoves(i, to) => st.(runs := st.runs[i := st.runs[i].(status := to)])
      case WindowIsSet(id, window) => st.(schedules := st.schedules[id := st.schedules[id].(window := window)])
  }

  ghost function After(st: State, events: seq<Event>): State
    decreases |events|
  {
    if events == [] then st else After(Advance(st, events[0]), events[1..])
  }

  // ---------- The service ----------

  class SchedulerService {
    var schedules: seq<Schedule>
    var fires: set<Fire>
    var runs: seq<Run>
    var clock: nat

    ghost function Snapshot(): State
      reads this
    {
      State(schedules, fires, runs, clock)
    }

    constructor ()
      ensures Snapshot() == EMPTY
    {
      schedules, fires, runs, clock := [], {}, [], 0;
    }

    /** Queue entries are named by schedule and time. */
    method AddFire(id: ScheduleId, at: nat)
      modifies this`fires
      ensures fires == old(fires) + {Fire(id, at)}
    {
      fires := fires + {Fire(id, at)};
    }

    /** One row is queued at its next run, if it has one. */
    method HydrateSchedule(now: nat, id: ScheduleId)
      requires id < |schedules|
      modifies this`schedules, this`fires
      ensures Snapshot() == HydrateOne(old(Snapshot()), now, id)
    {
      var s := schedules[id];
      if s.enabled && !s.deleted {
        var next := ComputeNextRun(s.cron, s.window, now);
        if next.Some? {
          AddFire(id, next.value);
          schedules := schedules[id := s.(nextRunAt := next)];
        }
      }
    }

    /** Row by row until a call fails, which is at row reached or not at all. */
    method HydrateSchedules(now: nat, reached: nat, half: bool)
      requires clock <= now && reached <= |schedules|
      modifies this
      ensures Snapshot() == Advance(old(Snapshot()), Hydrates(now, reached, half))
    {
      ghost var before := Snapshot();
      clock := now;
      ghost var state := HydrateUpTo(before, now, 0);
      for n := 0 to reached
        invariant |schedules| == |before.schedules|
        invariant Snapshot() == state && state == HydrateUpTo(before, now, n)
      {
        HydrateSchedule(now, n);
        state := HydrateOne(state, now, n);
      }
      if half && reached < |schedules| && schedules[reached].enabled && !schedules[reached].deleted {
        var next := ComputeNextRun(schedules[reached].cron, schedules[reached].window, now);
        if next.Some? { AddFire(reached, next.value); }
      }
    }

    method FindActiveRun(id: ScheduleId, s: Schedule) returns (busy: bool)
      ensures busy == Busy(runs, id, s)
    {
      for i := 0 to |runs|
        invariant forall j :: 0 <= j < i ==> !Blocks(runs[j], id, s)
      {
        if Blocks(runs[i], id, s) { return true; }
      }
      return false;
    }

    /** The run of a fire, unless the schedule is busy. */
    method CreateRun(id: ScheduleId, creation: Creation) returns (busy: bool)
      requires id < |schedules|
      modifies this`runs
      ensures busy == Busy(old(runs), id, schedules[id])
      ensures runs == old(runs) + RunsOfFire(id, schedules[id], busy, creation)
    {
      var s := schedules[id];
      busy := FindActiveRun(id, s);
      if !busy && !creation.CreateFails? {
        runs := runs + [Run(id, s.server, TagOf(id, s), EffectiveType(s), Pending, creation.AllFine?)];
      }
    }

    /** The failure handler of the worker. */
    method HandleWorkerFailure(id: ScheduleId)
      requires id < |schedules|
      modifies this`schedules
      ensures schedules == old(schedules)[id := Failed(old(schedules)[id])]
    {
      var s := schedules[id];
      schedules := schedules[id := s.(lastOutcome := Some(SchedulerFailed), failureCount := s.failureCount + 1)];
    }

    /** The row after a fire, with the failures of its handler and of the worker. */
    method Book(id: ScheduleId, next: Option<nat>, busy: bool, io: Io)
      requires id < |schedules|
      modifies this`schedules
      ensures schedules == old(schedules)[id := Booked(old(schedules)[id], busy, io, next)]
    {
      var s := schedules[id];
      var time := Or(next, s.nextRunAt);
      var missed := next.Some? && !io.added;
      if busy {
        if io.booked { schedules := schedules[id := s.(lastOutcome := Some(SkippedBusy), nextRunAt := time)]; }
        if !io.booked || missed { HandleWorkerFailure(id); }
        return;
      }
      if io.creation.AllFine? && io.booked {
        s := s.(lastOutcome := Some(Success), runCount := s.runCount + 1, nextRunAt := time);
        schedules := schedules[id := s];
        if !missed { return; }
      }
      if io.rebooked {
        s := s.(lastOutcome := Some(SchedulerFailed), failureCount := s.failureCount + 1, nextRunAt := time);
        schedules := schedules[id := s];
      }
      HandleWorkerFailure(id);
    }

    method ProcessScheduleFire(fire: Fire, now: nat, io: Io)
      requires clock <= now && fire in fires && fire.at <= now
      modifies this
      ensures Snapshot() == Advance(old(Snapshot()), Fires(now, fire, io))
    {
      fires := fires - {fire};
      clock := now;
      var id := fire.schedule;
      if id >= |schedules| || schedules[id].deleted { return; }
      if io.found && !schedules[id].enabled { return; }
      if !io.found || !io.checked {
        HandleWorkerFailure(id);
        return;
      }
      var s := schedules[id];
      var busy := CreateRun(id, io.creation);
      var next := ComputeNextRun(s.cron, s.window, now);
      Book(id, next, busy, io);
      if next.Some? && Requeues(busy, io) { AddFire(id, next.value); }
    }

    method CreateSchedule(now: nat, d: NewSchedule, added: bool) returns (created: bool)
      requires clock <= now
      modifies this
      ensures Snapshot() == Advance(old(Snapshot()), Creates(now, d, added))
      ensures created <==> |schedules| == |old(schedules)| + 1
    {
      clock := now;
      var next := ComputeNextRun(d.cron, None, now);
      if next.None? { return false; }
      var id := |schedules|;
      schedules := schedules + [FirstRow(d, next)];
      if d.enabled && added { AddFire(id, next.value); }
      return true;
    }

    method UpdateSchedule(now: nat, id: ScheduleId, c: Change, withdrawn: bool, added: bool) returns (updated: bool)
      requires clock <= now
      modifies this
      ensures Snapshot() == Advance(old(Snapshot()), Updates(now, id, c, withdrawn, added))
      ensures !updated ==> schedules == old(schedules) && fires == old(fires)
    {
      clock := now;
      if id >= |schedules| || schedules[id].deleted { return false; }
      var s := schedules[id];
      var next: Option<nat> := None;
      if ChangesTime(c) {
        next := ComputeNextRun(c.cron.value, None, now);
        if next.None? { return false; }
      }
      var changed := Changed(s, c, next);
      schedules := schedules[id := changed];
      if s.nextRunAt.Some? && withdrawn { fires := fires - {Fire(id, s.nextRunAt.value)}; }
      if changed.enabled && added && changed.nextRunAt.Some? { AddFire(id, changed.nextRunAt.value); }
      return true;
    }

    method DeleteSchedule(id: ScheduleId) returns (deleted: bool)
      modifies this`schedules
      ensures Snapshot() == Advance(old(Snapshot()), Deletes(id))
      ensures deleted == old(Live(Snapshot(), id))
    {
      if id >= |schedules| || schedules[id].deleted { return false; }
      schedules := schedules[id := schedules[id].(deleted := true)];
      return true;
    }
  }
}
