/**
 The overlap check of schedules, and runs that were created but never queued.
 */
module ScheduleOverlap {
  import opened Calendar
  import opened Cron
  import opened CronReach
  import opened ExecutionWindow
  import opened Scheduler
  import opened Wrappers

  // ---------- Runs of one schedule do not stack ----------

  /** Two unfinished runs of one schedule and type, both carrying the id of that schedule. */
  predicate Stacked(a: Run, b: Run) {
    Active(a) && Active(b) && a.creator == b.creator && a.jobType == b.jobType && a.tag == a.creator
        && b.tag == b.creator
  }

  ghost predicate NothingStacked(st: State) {
    && (forall i :: 0 <= i < |st.runs| ==>
          st.runs[i].creator < |st.schedules| && st.runs[i].server == st.schedules[st.runs[i].creator].server)
    && (forall i, j :: 0 <= i < j < |st.runs| ==> !Stacked(st.runs[i], st.runs[j]))
  }

  lemma ProcessStacksNothing(st: State, fire: Fire, now: nat, io: Io)
    requires NothingStacked(st)
    ensures NothingStacked(Process(st, fire, now, io))
  {
    var after, n := Process(st, fire, now, io), |st.runs|;
    if |after.runs| > n {
      forall i | 0 <= i < n ensures !Stacked(st.runs[i], after.runs[n]) {
        assert !Blocks(st.runs[i], fire.schedule, st.schedules[fire.schedule]);
      }
    }
  }

  /** Schedules are only added, and keep their server. */
  predicate SameServers(before: State, after: State) {
    && |before.schedules| <= |after.schedules|
    && forall id :: 0 <= id < |before.schedules| ==> after.schedules[id].server == before.schedules[id].server
  }

  lemma {:induction false} HydrateKeepsRuns(st: State, now: nat, n: nat)
    requires n <= |st.schedules|
    ensures HydrateUpTo(st, now, n).runs == st.runs && SameServers(st, HydrateUpTo(st, now, n))
  {
    if n > 0 {
      HydrateKeepsRuns(st, now, n - 1);
    }
  }

  lemma OthersKeepRuns(st: State, e: Event)
    requires CanHappen(st, e) && !e.Fires? && !e.RunMoves?
    ensures Advance(st, e).runs == st.runs && SameServers(st, Advance(st, e))
  {
    if e.Hydrates? { HydrateKeepsRuns(st, e.now, e.n); }
  }

  lemma StepStacksNothing(st: State, e: Event)
    requires NothingStacked(st)
    ensures NothingStacked(Advance(st, e))
  {
    if CanHappen(st, e) {
      match e
      case Fires(now, fire, io) => ProcessStacksNothing(st, fire, now, io);
      case RunMoves(_, _) =>
      case _ => OthersKeepRuns(st, e);
    }
  }

  lemma {:induction false} RunStacksNothing(st: State, events: seq<Event>)
    requires NothingStacked(st)
    ensures NothingStacked(After(st, events))
    decreases |events|
  {
    if events != [] {
      StepStacksNothing(st, events[0]);
      RunStacksNothing(Advance(st, events[0]), events[1..]);
    }
  }

  /** In every run a schedule has at most one unfinished run per job type that carries its own id. */
  lemma AtMostOneActiveRun(events: seq<Event>, i: nat, j: nat)
    requires i < |After(EMPTY, events).runs| && j < |After(EMPTY, events).runs|
    requires Stacked(After(EMPTY, events).runs[i], After(EMPTY, events).runs[j])
    ensures i == j
  {
    RunStacksNothing(EMPTY, events);
  }

  // ---------- Payloads with a schedule id of their own ----------

  /** The configured payload carries no schedule id, or that of its own schedule. */
  predicate OwnPayload(st: State, id: ScheduleId) {
    id < |st.schedules| ==> TagOf(id, st.schedules[id]) == id
  }

  ghost predicate OwnPayloadThroughout(st: State, events: seq<Event>, id: ScheduleId)
    decreases |events|
  {
    OwnPayload(st, id) && (events == [] || OwnPayloadThroughout(Advance(st, events[0]), events[1..], id))
  }

  predicate OwnTags(st: State, id: ScheduleId) {
    forall i :: 0 <= i < |st.runs| && st.runs[i].creator == id ==> st.runs[i].tag == id
  }

  lemma StepKeepsOwnTags(st: State, e: Event, id: ScheduleId)
    requires OwnTags(st, id) && OwnPayload(st, id)
    ensures OwnTags(Advance(st, e), id)
  {
    if CanHappen(st, e) && !e.Fires? && !e.RunMoves? { OthersKeepRuns(st, e); }
  }

  lemma {:induction false} RunKeepsOwnTags(st: State, events: seq<Event>, id: ScheduleId)
    requires OwnTags(st, id) && OwnPayloadThroughout(st, events, id)
    ensures OwnTags(After(st, events), id)
    decreases |events|
  {
    if events != [] {
      StepKeepsOwnTags(st, events[0], id);
      RunKeepsOwnTags(Advance(st, events[0]), events[1..], id);
    }
  }

  /** Two unfinished runs of one schedule and job type. */
  predicate Overlap(a: Run, b: Run) {
    Active(a) && Active(b) && a.creator == b.creator && a.jobType == b.jobType
  }

  /**
   In every run in which the payload of a schedule never carries another schedule's id, the schedule never has two
   unfinished runs of one job type.
   */
  lemma OwnPayloadNeverOverlaps(events: seq<Event>, id: ScheduleId, i: nat, j: nat)
    requires OwnPayloadThroughout(EMPTY, events, id)
    requires i < |After(EMPTY, events).runs| && j < |After(EMPTY, events).runs|
    requires After(EMPTY, events).runs[i].creator == id
             && Overlap(After(EMPTY, events).runs[i], After(EMPTY, events).runs[j])
    ensures i == j
  {
    RunKeepsOwnTags(EMPTY, events, id);
    AtMostOneActiveRun(events, i, j);
  }

  /** The schedule creates runs of this type. */
  predicate OwnType(st: State, id: ScheduleId, jobType: string) {
    id < |st.schedules| ==> EffectiveType(st.schedules[id]) == jobType
  }

  ghost predicate OwnTypeThroughout(st: State, events: seq<Event>, id: ScheduleId, jobType: string)
    decreases |events|
  {
    OwnType(st, id, jobType) && (events == [] || OwnTypeThroughout(Advance(st, events[0]), events[1..], id, jobType))
  }

  predicate AllOfType(st: State, id: ScheduleId, jobType: string) {
    forall i :: 0 <= i < |st.runs| && st.runs[i].creator == id ==> st.runs[i].jobType == jobType
  }

  lemma StepKeepsType(st: State, e: Event, id: ScheduleId, jobType: string)
    requires AllOfType(st, id, jobType) && OwnType(st, id, jobType)
    ensures AllOfType(Advance(st, e), id, jobType)
  {
    if CanHappen(st, e) && !e.Fires? && !e.RunMoves? { OthersKeepRuns(st, e); }
  }

  lemma {:induction false} RunKeepsType(st: State, events: seq<Event>, id: ScheduleId, jobType: string)
    requires AllOfType(st, id, jobType) && OwnTypeThroughout(st, events, id, jobType)
    ensures AllOfType(After(st, events), id, jobType)
    decreases |events|
  {
    if events != [] {
      StepKeepsType(st, events[0], id, jobType);
      RunKeepsType(Advance(st, events[0]), events[1..], id, jobType);
    }
  }

  /** If its job type does not change either, the schedule never has two unfinished runs at all. */
  lemma FixedTypeNeverOverlaps(events: seq<Event>, id: ScheduleId, jobType: string, i: nat, j: nat)
    requires OwnPayloadThroughout(EMPTY, events, id) && OwnTypeThroughout(EMPTY, events, id, jobType)
    requires i < |After(EMPTY, events).runs| && j < |After(EMPTY, events).runs|
    requires var a, b := After(EMPTY, events).runs[i], After(EMPTY, events).runs[j];
             Active(a) && Active(b) && a.creator == b.creator == id
    ensures i == j
  {
    RunKeepsType(EMPTY, events, id, jobType);
    OwnPayloadNeverOverlaps(events, id, i, j);
  }

  /**
   A fire adds a second unfinished run beside one of its schedule and type exactly when the overlap check finds
   none.
   */
  lemma SecondRunIff(st: State, fire: Fire, now: nat, io: Io, i: nat)
    requires Live(st, fire.schedule) && st.schedules[fire.schedule].enabled && i < |st.runs|
    requires Active(st.runs[i]) && st.runs[i].creator == fire.schedule
    requires st.runs[i].jobType == EffectiveType(st.schedules[fire.schedule])
    ensures var after := Process(st, fire, now, io);
            && |st.runs| <= |after.runs| && after.runs[i] == st.runs[i]
            && ((exists j :: |st.runs| <= j < |after.runs| && Overlap(after.runs[i], after.runs[j])) <==>
                io.found && io.checked && !Busy(st.runs, fire.schedule, st.schedules[fire.schedule])
                && !io.creation.CreateFails?)
  {
    var s, after := st.schedules[fire.schedule], Process(st, fire, now, io);
    if io.found && io.checked && !Busy(st.runs, fire.schedule, s) && !io.creation.CreateFails? {
      assert Overlap(after.runs[i], after.runs[|st.runs|]);
    }
  }

  const FINE := Io(true, true, AllFine, true, true, true, true)

  lemma FirstFire(st: State, id: ScheduleId, at: nat, now: nat)
    requires Live(st, id) && st.schedules[id].enabled && !Busy(st.runs, id, st.schedules[id])
    requires NextRun(st.schedules[id].cron, st.schedules[id].window, now).Some?
    ensures var s, after := st.schedules[id], Process(st, Fire(id, at), now, FINE);
            && Live(after, id) && after.schedules[id].cron == s.cron && after.schedules[id].window == s.window
            && after.schedules[id].enabled && after.schedules[id].server == s.server
            && after.schedules[id].payloadId == s.payloadId && EffectiveType(after.schedules[id]) == EffectiveType(s)
            && after.runs == st.runs + [Run(id, s.server, TagOf(id, s), EffectiveType(s), Pending, true)]
            && Fire(id, NextRun(s.cron, s.window, now).value) in after.fires
            && after.clock == now
  {
  }

  lemma AfterThree(st: State, e1: Event, e2: Event, e3: Event)
    ensures After(st, [e1, e2, e3]) == Advance(Advance(Advance(st, e1), e2), e3)
  {
    assert [e1, e2, e3][1..] == [e2, e3] && [e2, e3][1..] == [e3] && [e3][1..] == [];
    assert After(st, [e1, e2, e3]) == After(Advance(st, e1), [e2, e3]);
    assert After(Advance(st, e1), [e2, e3]) == After(Advance(Advance(st, e1), e2), [e3]);
  }

  lemma FirstSchedule(d: NewSchedule, at: nat)
    requires d.enabled && NextRun(d.cron, None, 0) == Some(at)
    ensures Advance(EMPTY, Creates(0, d, true)) == State([FirstRow(d, Some(at))], {Fire(0, at)}, [], 0)
  {
  }

  lemma NotBusyWithForeignRun(runs: seq<Run>, id: ScheduleId, s: Schedule)
    requires forall i :: 0 <= i < |runs| ==> runs[i].tag != id
    ensures !Busy(runs, id, s)
  {
  }

  /** Two fires in a row overlap when the payload carries another id. */
  lemma TwoFiresOverlap(d: NewSchedule, t1: nat, t2: nat)
    requires d.payloadId.Some? && d.payloadId != Some(0) && d.enabled && t1 < t2
    requires NextRun(d.cron, None, t1) == Some(t2) && NextRun(d.cron, None, t2).Some?
    ensures var s0 := State([FirstRow(d, Some(t1))], {Fire(0, t1)}, [], 0);
            var runs := Advance(Advance(s0, Fires(t1, Fire(0, t1), FINE)), Fires(t2, Fire(0, t2), FINE)).runs;
            |runs| == 2 && Overlap(runs[0], runs[1])
  {
    var s0 := State([FirstRow(d, Some(t1))], {Fire(0, t1)}, [], 0);
    NotBusyWithForeignRun(s0.runs, 0, s0.schedules[0]);
    FirstFire(s0, 0, t1, t1);
    var s1 := Process(s0, Fire(0, t1), t1, FINE);
    NotBusyWithForeignRun(s1.runs, 0, s1.schedules[0]);
    FirstFire(s1, 0, t2, t2);
  }

  /**
   The condition is needed: a schedule whose payload carries another id is created, fires twice, and has two
   unfinished runs.
   */
  lemma OverlapIsReached(d: NewSchedule, other: ScheduleId) returns (events: seq<Event>)
    requires d.enabled && d.payloadId == Some(other) && other != 0 && Perpetual(d.cron)
    ensures var runs := After(EMPTY, events).runs; |runs| == 2 && Overlap(runs[0], runs[1])
  {
    PerpetualHasNext(d.cron, None, 0);
    var t1 := NextRun(d.cron, None, 0).value;
    PerpetualHasNext(d.cron, None, t1);
    var t2 := NextRun(d.cron, None, t1).value;
    NextRunIsLater(d.cron, None, t1);
    PerpetualHasNext(d.cron, None, t2);
    events := [Creates(0, d, true), Fires(t1, Fire(0, t1), FINE), Fires(t2, Fire(0, t2), FINE)];
    AfterThree(EMPTY, events[0], events[1], events[2]);
    FirstSchedule(d, t1);
    TwoFiresOverlap(d, t1, t2);
  }

  // ---------- A run that was never queued ----------

  /** A pending run no agent will ever find. */
  predicate Orphan(r: Run) {
    r.status == Pending && !r.queued
  }

  predicate HasOrphan(st: State, id: ScheduleId) {
    exists i :: 0 <= i < |st.runs| && st.runs[i].creator == id && Orphan(st.runs[i])
  }

  /** A fire of a live, enabled schedule that is not busy creates its run but fails to queue it. */
  predicate LosesRun(st: State, e: Event, id: ScheduleId) {
    && CanHappen(st, e) && e.Fires? && e.fire.schedule == id && e.io.found && e.io.checked && e.io.creation.QueueFails?
    && Live(st, id) && st.schedules[id].enabled && !Busy(st.runs, id, st.schedules[id])
  }

  ghost predicate EverLosesRun(st: State, events: seq<Event>, id: ScheduleId)
    decreases |events|
  {
    events != [] && (LosesRun(st, events[0], id) || EverLosesRun(Advance(st, events[0]), events[1..], id))
  }

  lemma LostRunIsOrphan(st: State, e: Event, id: ScheduleId)
    requires LosesRun(st, e, id)
    ensures HasOrphan(Advance(st, e), id)
  {
    var after := Advance(st, e);
    assert after.runs[|st.runs|].creator == id && Orphan(after.runs[|st.runs|]);
  }

  lemma StepKeepsOrphan(st: State, e: Event, i: nat)
    requires i < |st.runs| && Orphan(st.runs[i])
    ensures i < |Advance(st, e).runs| && Advance(st, e).runs[i] == st.runs[i]
  {
    if CanHappen(st, e) && !e.Fires? && !e.RunMoves? { OthersKeepRuns(st, e); }
  }

  /** Nothing ever ends such a run. */
  lemma {:induction false} OrphansStay(st: State, events: seq<Event>, i: nat)
    requires i < |st.runs| && Orphan(st.runs[i])
    ensures i < |After(st, events).runs| && After(st, events).runs[i] == st.runs[i]
    decreases |events|
  {
    if events != [] {
      StepKeepsOrphan(st, events[0], i);
      OrphansStay(Advance(st, events[0]), events[1..], i);
    }
  }

  predicate AllQueued(st: State, id: ScheduleId) {
    forall i :: 0 <= i < |st.runs| && st.runs[i].creator == id ==> st.runs[i].queued
  }

  lemma StepKeepsQueued(st: State, e: Event, id: ScheduleId)
    requires AllQueued(st, id) && !LosesRun(st, e, id)
    ensures AllQueued(Advance(st, e), id)
  {
    if CanHappen(st, e) && !e.Fires? && !e.RunMoves? { OthersKeepRuns(st, e); }
  }

  lemma {:induction false} OrphanIffLost(st: State, events: seq<Event>, id: ScheduleId)
    requires AllQueued(st, id)
    ensures HasOrphan(After(st, events), id) <==> EverLosesRun(st, events, id)
    decreases |events|
  {
    if events != [] {
      var next := Advance(st, events[0]);
      if LosesRun(st, events[0], id) {
        LostRunIsOrphan(st, events[0], id);
        var i :| 0 <= i < |next.runs| && next.runs[i].creator == id && Orphan(next.runs[i]);
        OrphansStay(next, events[1..], i);
      } else {
        StepKeepsQueued(st, events[0], id);
        OrphanIffLost(next, events[1..], id);
      }
    }
  }

  /**
   Over all runs from the start, a schedule has a run that no agent will ever find if and only if the queue failed
   at a fire of the schedule that created a run.
   */
  lemma OrphanIffQueueFailed(events: seq<Event>, id: ScheduleId)
    ensures HasOrphan(After(EMPTY, events), id) <==> EverLosesRun(EMPTY, events, id)
  {
    OrphanIffLost(EMPTY, events, id);
  }

  lemma AfterTwo(st: State, e1: Event, e2: Event)
    ensures After(st, [e1, e2]) == Advance(Advance(st, e1), e2)
  {
    assert [e1, e2][1..] == [e2] && [e2][1..] == [];
    assert After(st, [e1, e2]) == After(Advance(st, e1), [e2]);
  }

  /** It is reached: a schedule is created, and the queue of runs fails at its first fire. */
  lemma OrphanIsReached(d: NewSchedule) returns (events: seq<Event>)
    requires d.enabled && Perpetual(d.cron)
    ensures HasOrphan(After(EMPTY, events), 0)
  {
    PerpetualHasNext(d.cron, None, 0);
    var t := NextRun(d.cron, None, 0).value;
    events := [Creates(0, d, true), Fires(t, Fire(0, t), FINE.(creation := QueueFails))];
    AfterTwo(EMPTY, events[0], events[1]);
    FirstSchedule(d, t);
    LostRunIsOrphan(Advance(EMPTY, events[0]), events[1], 0);
  }

  /** However long the system runs on, a fire that finds the orphan creates no run. */
  lemma OrphanBlocksForever(st: State, events: seq<Event>, i: nat, fire: Fire, now: nat, io: Io)
    requires i < |st.runs| && Orphan(st.runs[i])
    requires var later := After(st, events);
             && Live(later, fire.schedule) && later.schedules[fire.schedule].enabled
             && st.runs[i].server == later.schedules[fire.schedule].server
             && st.runs[i].jobType == EffectiveType(later.schedules[fire.schedule])
             && st.runs[i].tag == fire.schedule
    ensures var later := After(st, events); var after := Process(later, fire, now, io);
            after.runs == later.runs
                && after.schedules[fire.schedule].runCount == later.schedules[fire.schedule].runCount
  {
    OrphansStay(st, events, i);
    var later := After(st, events);
    assert Blocks(later.runs[i], fire.schedule, later.schedules[fire.schedule]);
  }

  /** A run that is not in the queue stays pending. */
  predicate UnqueuedPending(st: State) {
    forall i :: 0 <= i < |st.runs| && !st.runs[i].queued ==> st.runs[i].status == Pending
  }

  lemma {:induction false} RunKeepsUnqueued(st: State, events: seq<Event>)
    requires UnqueuedPending(st)
    ensures UnqueuedPending(After(st, events))
    decreases |events|
  {
    if events != [] {
      if CanHappen(st, events[0]) && !events[0].Fires? && !events[0].RunMoves? { OthersKeepRuns(st, events[0]); }
      RunKeepsUnqueued(Advance(st, events[0]), events[1..]);
    }
  }

  /**
   In every run, once the agents have ended all queued runs, a schedule is still busy if and only if an orphan of its
   server and job type carries its id.
   */
  lemma BusyForGoodIffOrphan(events: seq<Event>, id: ScheduleId)
    requires var st := After(EMPTY, events);
             Live(st, id) && forall i :: 0 <= i < |st.runs| && st.runs[i].queued ==> !Active(st.runs[i])
    ensures var st := After(EMPTY, events); var s := st.schedules[id];
            Busy(st.runs, id, s) <==>
            exists i :: 0 <= i < |st.runs| && Orphan(st.runs[i]) && st.runs[i].server == s.server
                        && st.runs[i].jobType == EffectiveType(s) && st.runs[i].tag == id
  {
    RunKeepsUnqueued(EMPTY, events);
    var st := After(EMPTY, events);
    var s := st.schedules[id];
    if i :| 0 <= i < |st.runs| && Orphan(st.runs[i]) && st.runs[i].server == s.server
            && st.runs[i].jobType == EffectiveType(s) && st.runs[i].tag == id {
      assert Blocks(st.runs[i], id, s);
    }
  }
}
