/**
 The claim protocol between one agent and the control plane.

 The agent's poll loop, its execution limiter and its worker goroutines run interleaved with each
 other and with every handler of the control plane.  Between clearing the busy flag and returning
 the mutation token the limiter is in a state where a poll may already claim the next mutation.
 The module proves, for every interleaving, that a host never has two unfinished mutations, how many
 jobs it can hold, and how the run table and the agent agree about what is running.
 */
module Dispatch {
  import opened JobQueue
  import opened Wrappers
  import opened ControlPlane

  // ---------- The execution limiter ----------

  /** The channel of read slots, the one-slot channel holding the mutation token, and the busy flag. */
  datatype Limiter = Limiter(readLimit: nat, held: nat, token: bool, busy: bool)

  const DEFAULT_READ_LIMIT := 8

  function NewLimiter(maxConcurrentReads: int): Limiter {
    Limiter(if maxConcurrentReads <= 0 then DEFAULT_READ_LIMIT else maxConcurrentReads, 0, true, false)
  }

  function TakeSlot(l: Limiter): Limiter { l.(held := l.held + 1) }

  function GiveSlot(l: Limiter): Limiter { l.(held := if l.held > 0 then l.held - 1 else 0) }

  function TakeToken(l: Limiter): Limiter { l.(token := false, busy := true) }

  function DropFlag(l: Limiter): Limiter { l.(busy := false) }

  function GiveToken(l: Limiter): Limiter { l.(token := true) }

  class ExecutionLimiter {
    const readLimit: nat
    var held: nat
    var token: bool
    var mutationBusy: bool

    function State(): Limiter
      reads this
    {
      Limiter(readLimit, held, token, mutationBusy)
    }

    constructor (maxConcurrentReads: int)
      ensures State() == NewLimiter(maxConcurrentReads)
    {
      readLimit := if maxConcurrentReads <= 0 then DEFAULT_READ_LIMIT else maxConcurrentReads;
      held, token, mutationBusy := 0, true, false;
    }

    /** The select of an acquisition: it goes through when a slot is free, and gives up only when cancelled. */
    method AcquireRead(cancelled: bool) returns (acquired: bool)
      requires held < readLimit || cancelled
      modifies this
      ensures acquired ==> old(held) < readLimit
      ensures !acquired ==> cancelled
      ensures State() == if acquired then TakeSlot(old(State())) else old(State())
    {
      acquired := held < readLimit;
      if acquired {
        held := held + 1;
      }
    }

    method ReleaseRead()
      requires held > 0
      modifies this
      ensures State() == GiveSlot(old(State()))
    {
      held := held - 1;
    }

    method AcquireMutation(cancelled: bool) returns (acquired: bool)
      requires token || cancelled
      modifies this
      ensures acquired ==> old(token)
      ensures !acquired ==> cancelled
      ensures State() == if acquired then TakeToken(old(State())) else old(State())
    {
      acquired := token;
      if acquired {
        token := false;
        mutationBusy := true;
      }
    }

    /** First half of releasing a mutation. */
    method ClearBusy()
      modifies this
      ensures State() == DropFlag(old(State()))
    {
      mutationBusy := false;
    }

    /** Second half of releasing a mutation. */
    method ReturnToken()
      requires !token
      modifies this
      ensures State() == GiveToken(old(State()))
    {
      token := true;
    }
  }

  // ---------- The agent and the whole system ----------

  /** Executing until the result was submitted, then releasing; a mutation clears the flag before the token. */
  datatype Stage = Executing | Returned | Cleared

  datatype Worker = Worker(job: QueueJob, readOnly: bool, stage: Stage)

  /** Where the poll loop stands: about to read the flag, waiting for the answer, or dispatching a job. */
  datatype Pc = Ready | Polling(busy: bool) | Holding(job: QueueJob) | Stopped

  datatype Agent = Agent(host: HostId, pc: Pc, limiter: Limiter, workers: map<RunId, Worker>)

  /**
   lost remembers the runs whose result never reached the control plane, and those whose job never reached the agent
   or was dropped by it on shutdown or restart.
   */
  datatype System = System(agent: Agent, plane: Plane, lost: set<RunId>)

  datatype Action =
    | ReadFlag
    | PollFails
    | PollAnswered
    | AnswerLost
    | StartWorker
    | Shutdown
    | Restart
    | Finish(runId: RunId, ok: bool, delivered: bool)
    | ReleaseRead(runId: RunId)
    | ClearBusy(runId: RunId)
    | ReturnToken(runId: RunId)
    | Environment(event: Event)

  /** Everything the control plane does on behalf of anyone but this host's agent. */
  predicate Foreign(e: Event, host: HostId) {
    match e
    case EvPoll(h, _) => h != host
    case EvReport(h, _, _) => h != host
    case _ => true
  }

  predicate Enabled(s: System, a: Action) {
    var agent := s.agent;
    match a
    case ReadFlag => agent.pc.Ready?
    case PollFails => agent.pc.Polling?
    case PollAnswered => agent.pc.Polling?
    case AnswerLost => agent.pc.Polling?
    case StartWorker =>
      agent.pc.Holding? &&
      if AgentReadOnly(agent.pc.job.jobType) then agent.limiter.held < agent.limiter.readLimit else agent.limiter.token
    case Shutdown => true
    case Restart => true
    case Finish(r, _, _) => r in agent.workers && agent.workers[r].stage == Executing
    case ReleaseRead(r) => r in agent.workers && agent.workers[r].readOnly && agent.workers[r].stage == Returned
    case ClearBusy(r) => r in agent.workers && !agent.workers[r].readOnly && agent.workers[r].stage == Returned
    case ReturnToken(r) => r in agent.workers && agent.workers[r].stage == Cleared
    case Environment(e) => Foreign(e, agent.host)
  }

  function Remove(workers: map<RunId, Worker>, r: RunId): map<RunId, Worker> {
    map w | w in workers && w != r :: workers[w]
  }

  /** The runs the agent still owes a result for. */
  function Owed(a: Agent): set<RunId> {
    (set r | r in a.workers && a.workers[r].stage == Executing) +
    (if a.pc.Holding? then {a.pc.job.runId} else {})
  }

  function Act(s: System, a: Action): System
    requires Enabled(s, a)
  {
    var agent, limiter := s.agent, s.agent.limiter;
    match a
    case ReadFlag => s.(agent := agent.(pc := Polling(limiter.busy)))
    case PollFails => s.(agent := agent.(pc := Ready))
    case PollAnswered =>
      var answer := Claimed(s.plane.queue, agent.host, agent.pc.busy);
      s.(plane := Poll(s.plane, agent.host, agent.pc.busy),
         agent := agent.(pc := if answer.Some? then Holding(answer.value) else Ready))
    case AnswerLost =>
      var answer := Claimed(s.plane.queue, agent.host, agent.pc.busy);
      s.(plane := Poll(s.plane, agent.host, agent.pc.busy), agent := agent.(pc := Ready),
         lost := if answer.Some? then s.lost + {answer.value.runId} else s.lost)
    case StartWorker =>
      var job := agent.pc.job;
      var readOnly := AgentReadOnly(job.jobType);
      s.(agent := agent.(
           pc := Ready,
           limiter := if readOnly then TakeSlot(limiter) else TakeToken(limiter),
           workers := agent.workers[job.runId := Worker(job, readOnly, Executing)]))
    case Shutdown =>
      s.(agent := agent.(pc := Stopped), lost := if agent.pc.Holding? then s.lost + {agent.pc.job.runId} else s.lost)
    case Restart =>
      s.(agent := Agent(agent.host, Ready, Limiter(limiter.readLimit, 0, true, false), map[]),
         lost := s.lost + Owed(agent))
    case Finish(r, ok, delivered) =>
      s.(agent := agent.(workers := agent.workers[r := agent.workers[r].(stage := Returned)]),
         plane := if delivered then Report(s.plane, agent.host, r, ok) else s.plane,
         lost := if delivered then s.lost else s.lost + {r})
    case ReleaseRead(r) =>
      s.(agent := agent.(limiter := GiveSlot(limiter), workers := Remove(agent.workers, r)))
    case ClearBusy(r) =>
      s.(agent := agent.(limiter := DropFlag(limiter),
          workers := agent.workers[r := agent.workers[r].(stage := Cleared)]))
    case ReturnToken(r) =>
      s.(agent := agent.(limiter := GiveToken(limiter), workers := Remove(agent.workers, r)))
    case Environment(e) => s.(plane := Step(s.plane, e))
  }

  function Start(host: HostId, maxConcurrentReads: int): System {
    System(Agent(host, Ready, NewLimiter(maxConcurrentReads), map[]), EMPTY, {})
  }

  /** Every sequence of enabled actions is an interleaving of the protocol. */
  predicate IsRun(s: System, actions: seq<Action>)
    decreases |actions|
  {
    actions == [] || (Enabled(s, actions[0]) && IsRun(Act(s, actions[0]), actions[1..]))
  }

  function After(s: System, actions: seq<Action>): System
    requires IsRun(s, actions)
    decreases |actions|
  {
    if actions == [] then s else After(Act(s, actions[0]), actions[1..])
  }

  // ---------- The invariant ----------

  function ReadWorkers(workers: map<RunId, Worker>): set<RunId> {
    set r | r in workers && workers[r].readOnly
  }

  function MutationWorkers(workers: map<RunId, Worker>): set<RunId> {
    set r | r in workers && !workers[r].readOnly
  }

  /** Slots and tokens are held by workers, and the flag is up from acquisition until the first half of the release. */
  ghost predicate LimiterMatches(a: Agent) {
    && a.limiter.held == |ReadWorkers(a.workers)| <= a.limiter.readLimit
    && |MutationWorkers(a.workers)| == (if a.limiter.token then 0 else 1)
    && (a.limiter.busy <==> exists r :: r in a.workers && !a.workers[r].readOnly && a.workers[r].stage != Cleared)
    && (forall r :: r in a.workers && a.workers[r].stage == Cleared ==> !a.workers[r].readOnly)
    && (a.pc == Polling(false) ==> !a.limiter.busy)
    && (a.pc.Holding? && !AgentReadOnly(a.pc.job.jobType) ==> !a.limiter.busy)
  }

  /** A claimed job's run is running, unless it was released as stale. */
  ghost predicate ClaimedRun(s: System, job: QueueJob) {
    && job.runId < |s.plane.runs|
    && s.plane.runs[job.runId].hostId == s.agent.host
    && s.plane.runs[job.runId].jobType == job.jobType
    && (s.plane.runs[job.runId].status == Running || s.plane.runs[job.runId].stale)
  }

  ghost predicate WorkersMatch(s: System) {
    && (forall r :: r in s.agent.workers ==>
          var w := s.agent.workers[r];
          && w.job.runId == r < |s.plane.runs|
          && w.readOnly == AgentReadOnly(w.job.jobType)
          && s.plane.runs[r].status != Pending
          && (w.stage == Executing ==> ClaimedRun(s, w.job)))
    && (s.agent.pc.Holding? ==> ClaimedRun(s, s.agent.pc.job) && s.agent.pc.job.runId !in s.agent.workers)
  }

  /** The agent still owes a result for r. */
  ghost predicate Unfinished(a: Agent, r: RunId) {
    || (r in a.workers && a.workers[r].stage == Executing)
    || (a.pc.Holding? && a.pc.job.runId == r)
  }

  ghost predicate RunningIsUnfinished(s: System) {
    forall r ::
      0 <= r < |s.plane.runs| && s.plane.runs[r].hostId == s.agent.host && s.plane.runs[r].status == Running ==>
        Unfinished(s.agent, r) || r in s.lost
  }

  ghost predicate SystemInv(s: System) {
    Inv(s.plane) && LimiterMatches(s.agent) && WorkersMatch(s) && RunningIsUnfinished(s)
  }

  // ---------- Workers ----------

  lemma OneMore(a: set<RunId>, r: RunId)
    requires r !in a
    ensures |a + {r}| == |a| + 1
  {
  }

  lemma WorkerAdded(workers: map<RunId, Worker>, r: RunId, w: Worker)
    requires r !in workers
    ensures ReadWorkers(workers[r := w]) == ReadWorkers(workers) + (if w.readOnly then {r} else {})
    ensures MutationWorkers(workers[r := w]) == MutationWorkers(workers) + (if w.readOnly then {} else {r})
  {
  }

  lemma WorkerRemoved(workers: map<RunId, Worker>, r: RunId)
    requires r in workers
    ensures |ReadWorkers(Remove(workers, r))| == |ReadWorkers(workers)| - (if workers[r].readOnly then 1 else 0)
    ensures |MutationWorkers(Remove(workers, r))| == |MutationWorkers(workers)| - (if workers[r].readOnly then 0 else 1)
  {
    assert ReadWorkers(Remove(workers, r)) == ReadWorkers(workers) - (if workers[r].readOnly then {r} else {});
    assert MutationWorkers(Remove(workers, r)) == MutationWorkers(workers) - (if workers[r].readOnly then {} else {r});
  }

  lemma WorkerRestaged(workers: map<RunId, Worker>, r: RunId, stage: Stage)
    requires r in workers
    ensures ReadWorkers(workers[r := workers[r].(stage := stage)]) == ReadWorkers(workers)
    ensures MutationWorkers(workers[r := workers[r].(stage := stage)]) == MutationWorkers(workers)
  {
  }

  /** With a single mutation worker, any two mutation workers are the same. */
  lemma MutationWorkerUnique(workers: map<RunId, Worker>, r: RunId, q: RunId)
    requires |MutationWorkers(workers)| <= 1
    requires r in workers && !workers[r].readOnly && q in workers && !workers[q].readOnly
    ensures r == q
  {
    if r != q {
      assert {r, q} <= MutationWorkers(workers);
      CardinalityMonotonic({r, q}, MutationWorkers(workers));
    }
  }

  lemma {:induction false} CardinalityMonotonic(a: set<RunId>, b: set<RunId>)
    requires a <= b
    ensures |a| <= |b|
  {
    assert b == a + (b - a);
  }

  // ---------- Every action keeps the limiter consistent ----------

  lemma PollKeepsLimiter(s: System)
    requires Enabled(s, PollAnswered) && LimiterMatches(s.agent)
    ensures LimiterMatches(Act(s, PollAnswered).agent)
  {
    var pc := Act(s, PollAnswered).agent.pc;
    if pc.Holding? {
      assert Eligible(pc.job, s.agent.host, s.agent.pc.busy);
      AllowlistsAgree(pc.job.jobType);
    }
  }

  lemma StartReadKeepsLimiter(a: Agent, b: Agent, w: Worker)
    requires LimiterMatches(a) && a.limiter.held < a.limiter.readLimit
    requires w.readOnly && w.stage == Executing && w.job.runId !in a.workers
    requires b == a.(pc := Ready, limiter := TakeSlot(a.limiter), workers := a.workers[w.job.runId := w])
    ensures LimiterMatches(b)
  {
    WorkerAdded(a.workers, w.job.runId, w);
    OneMore(ReadWorkers(a.workers), w.job.runId);
    assert forall q :: q in a.workers ==> b.workers[q] == a.workers[q];
  }

  lemma StartMutationKeepsLimiter(a: Agent, b: Agent, w: Worker)
    requires LimiterMatches(a) && a.limiter.token
    requires !w.readOnly && w.stage == Executing && w.job.runId !in a.workers
    requires b == a.(pc := Ready, limiter := TakeToken(a.limiter), workers := a.workers[w.job.runId := w])
    ensures LimiterMatches(b)
  {
    WorkerAdded(a.workers, w.job.runId, w);
    OneMore(MutationWorkers(a.workers), w.job.runId);
    assert ReadWorkers(b.workers) == ReadWorkers(a.workers);
    assert b.workers[w.job.runId] == w;
  }

  lemma StartKeepsLimiter(s: System)
    requires Enabled(s, StartWorker) && LimiterMatches(s.agent)
    requires s.agent.pc.job.runId !in s.agent.workers
    ensures LimiterMatches(Act(s, StartWorker).agent)
  {
    var t := Act(s, StartWorker).agent;
    var w := t.workers[s.agent.pc.job.runId];
    if w.readOnly {
      StartReadKeepsLimiter(s.agent, t, w);
    } else {
      StartMutationKeepsLimiter(s.agent, t, w);
    }
  }

  lemma FinishKeepsLimiter(s: System, r: RunId, ok: bool, delivered: bool)
    requires Enabled(s, Finish(r, ok, delivered)) && LimiterMatches(s.agent)
    ensures LimiterMatches(Act(s, Finish(r, ok, delivered)).agent)
  {
    var agent, t := s.agent, Act(s, Finish(r, ok, delivered)).agent;
    WorkerRestaged(agent.workers, r, Returned);
    assert forall q :: q in agent.workers && q != r ==> t.workers[q] == agent.workers[q];
    assert t.workers[r].stage == Returned;
  }

  lemma ReleaseReadKeepsLimiter(s: System, r: RunId)
    requires Enabled(s, ReleaseRead(r)) && LimiterMatches(s.agent)
    ensures LimiterMatches(Act(s, ReleaseRead(r)).agent)
  {
    var agent, t := s.agent, Act(s, ReleaseRead(r)).agent;
    WorkerRemoved(agent.workers, r);
    assert forall q :: q in t.workers ==> q in agent.workers && t.workers[q] == agent.workers[q];
    assert forall q :: q in agent.workers && q != r ==> q in t.workers;
  }

  lemma ClearBusyKeepsLimiter(s: System, r: RunId)
    requires Enabled(s, ClearBusy(r)) && LimiterMatches(s.agent)
    ensures LimiterMatches(Act(s, ClearBusy(r)).agent)
  {
    var agent, t := s.agent, Act(s, ClearBusy(r)).agent;
    WorkerRestaged(agent.workers, r, Cleared);
    forall q | q in t.workers && !t.workers[q].readOnly ensures t.workers[q].stage == Cleared {
      MutationWorkerUnique(agent.workers, r, q);
    }
  }

  lemma ReturnTokenKeepsLimiter(s: System, r: RunId)
    requires Enabled(s, ReturnToken(r)) && LimiterMatches(s.agent)
    ensures LimiterMatches(Act(s, ReturnToken(r)).agent)
  {
    var agent := s.agent;
    WorkerRemoved(agent.workers, r);
    forall q | q in agent.workers && !agent.workers[q].readOnly ensures q == r {
      MutationWorkerUnique(agent.workers, r, q);
    }
  }

  // ---------- Every action keeps the agent and the run table in agreement ----------

  /** What other parties do never takes a claimed run away from the agent, and never starts a run on its host. */
  lemma ForeignKeepsClaims(p: Plane, e: Event, host: HostId, r: RunId)
    requires Inv(p) && Foreign(e, host) && r < |Step(p, e).runs| && Step(p, e).runs[r].hostId == host
    ensures Step(p, e).runs[r].status == Running ==> r < |p.runs| && p.runs[r].status == Running
    ensures r < |p.runs| && (p.runs[r].status == Running || p.runs[r].stale) ==>
              Step(p, e).runs[r].status == Running || Step(p, e).runs[r].stale
  {
    if r < |p.runs| {
      StatusMovesForward(p, e, r);
    }
    if e.EvPoll? {
      PollStartsClaim(p, e.host, e.mutationBusy);
    }
  }

  lemma EnvironmentKeepsMatch(s: System, e: Event)
    requires SystemInv(s) && Foreign(e, s.agent.host)
    ensures SystemInv(Act(s, Environment(e)))
  {
    var t := Act(s, Environment(e));
    StepKeepsInv(s.plane, e);
    forall r | r in s.agent.workers ensures t.plane.runs[r].status != Pending && r < |t.plane.runs| {
      StatusMovesForward(s.plane, e, r);
    }
    forall job: QueueJob | ClaimedRun(s, job) ensures ClaimedRun(t, job) {
      StatusMovesForward(s.plane, e, job.runId);
      ForeignKeepsClaims(s.plane, e, s.agent.host, job.runId);
    }
    forall r | 0 <= r < |t.plane.runs| && t.plane.runs[r].hostId == s.agent.host && t.plane.runs[r].status == Running
      ensures Unfinished(t.agent, r) || r in t.lost
    {
      ForeignKeepsClaims(s.plane, e, s.agent.host, r);
      if r < |s.plane.runs| {
        StatusMovesForward(s.plane, e, r);
      }
      assert Unfinished(s.agent, r) || r in s.lost;
    }
  }

  lemma PollKeepsMatch(s: System)
    requires SystemInv(s) && Enabled(s, PollAnswered)
    ensures SystemInv(Act(s, PollAnswered))
  {
    PollKeepsLimiter(s);
    StepKeepsInv(s.plane, EvPoll(s.agent.host, s.agent.pc.busy));
    PollKeepsClaims(s);
  }

  lemma PollKeepsClaims(s: System)
    requires QueueMatches(s.plane) && WorkersMatch(s) && RunningIsUnfinished(s) && Enabled(s, PollAnswered)
    ensures WorkersMatch(Act(s, PollAnswered)) && RunningIsUnfinished(Act(s, PollAnswered))
  {
    var t := Act(s, PollAnswered);
    PollStartsClaim(s.plane, s.agent.host, s.agent.pc.busy);
    forall r | 0 <= r < |t.plane.runs| && t.plane.runs[r].hostId == s.agent.host && t.plane.runs[r].status == Running
      ensures Unfinished(t.agent, r) || r in t.lost
    {
      assert s.plane.runs[r].status == Running ==> Unfinished(s.agent, r) || r in s.lost;
    }
  }

  /** A claim whose answer is lost counts as lost. */
  lemma LostAnswerKeepsMatch(s: System)
    requires SystemInv(s) && Enabled(s, AnswerLost)
    ensures SystemInv(Act(s, AnswerLost))
  {
    StepKeepsInv(s.plane, EvPoll(s.agent.host, s.agent.pc.busy));
    LostAnswerKeepsClaims(s);
  }

  lemma LostAnswerKeepsClaims(s: System)
    requires QueueMatches(s.plane) && WorkersMatch(s) && RunningIsUnfinished(s) && Enabled(s, AnswerLost)
    ensures WorkersMatch(Act(s, AnswerLost)) && RunningIsUnfinished(Act(s, AnswerLost))
  {
    var t := Act(s, AnswerLost);
    PollStartsClaim(s.plane, s.agent.host, s.agent.pc.busy);
    forall r | 0 <= r < |t.plane.runs| && t.plane.runs[r].hostId == s.agent.host && t.plane.runs[r].status == Running
      ensures Unfinished(t.agent, r) || r in t.lost
    {
      assert s.plane.runs[r].status == Running ==> Unfinished(s.agent, r) || r in s.lost;
    }
  }

  lemma FinishKeepsPlane(s: System, r: RunId, ok: bool, delivered: bool)
    requires Inv(s.plane) && Enabled(s, Finish(r, ok, delivered))
    ensures Inv(Act(s, Finish(r, ok, delivered)).plane)
  {
    StepKeepsInv(s.plane, EvReport(s.agent.host, r, ok));
    assert Act(s, Finish(r, ok, delivered)).plane == if delivered then Step(s.plane, EvReport(s.agent.host, r, ok))
        else s.plane;
  }

  lemma FinishKeepsMatch(s: System, r: RunId, ok: bool, delivered: bool)
    requires SystemInv(s) && Enabled(s, Finish(r, ok, delivered))
    ensures SystemInv(Act(s, Finish(r, ok, delivered)))
  {
    FinishKeepsPlane(s, r, ok, delivered);
    FinishKeepsLimiter(s, r, ok, delivered);
    FinishKeepsWorkers(s, r, ok, delivered);
    FinishKeepsRunning(s, r, ok, delivered);
  }

  lemma FinishKeepsWorkers(s: System, r: RunId, ok: bool, delivered: bool)
    requires WorkersMatch(s) && Enabled(s, Finish(r, ok, delivered))
    ensures WorkersMatch(Act(s, Finish(r, ok, delivered)))
  {
    var t := Act(s, Finish(r, ok, delivered));
    assert |t.plane.runs| == |s.plane.runs|;
    assert forall q :: 0 <= q < |s.plane.runs| && q != r ==> t.plane.runs[q] == s.plane.runs[q];
  }

  lemma FinishKeepsRunning(s: System, r: RunId, ok: bool, delivered: bool)
    requires WorkersMatch(s) && RunningIsUnfinished(s) && Enabled(s, Finish(r, ok, delivered))
    ensures RunningIsUnfinished(Act(s, Finish(r, ok, delivered)))
  {
    var t := Act(s, Finish(r, ok, delivered));
    assert ClaimedRun(s, s.agent.workers[r].job);
    forall q | 0 <= q < |t.plane.runs| && t.plane.runs[q].hostId == s.agent.host && t.plane.runs[q].status == Running
      ensures Unfinished(t.agent, q) || q in t.lost
    {
      assert Unfinished(s.agent, q) || q in s.lost;
    }
  }

  /** The agent's own actions leave the tables alone. */
  predicate Local(a: Action) {
    !a.Environment? && !a.PollAnswered? && !a.AnswerLost? && !a.Finish?
  }

  lemma LocalKeepsLimiter(s: System, a: Action)
    requires Enabled(s, a) && Local(a) && LimiterMatches(s.agent)
    requires s.agent.pc.Holding? ==> s.agent.pc.job.runId !in s.agent.workers
    ensures LimiterMatches(Act(s, a).agent)
  {
    match a {
      case StartWorker => StartKeepsLimiter(s);
      case Restart => assert ReadWorkers(map[]) == {} && MutationWorkers(map[]) == {};
      case ReleaseRead(r) => ReleaseReadKeepsLimiter(s, r);
      case ClearBusy(r) => ClearBusyKeepsLimiter(s, r);
      case ReturnToken(r) => ReturnTokenKeepsLimiter(s, r);
      case _ =>
    }
  }

  lemma LocalKeepsClaims(s: System, a: Action)
    requires Enabled(s, a) && Local(a) && WorkersMatch(s) && RunningIsUnfinished(s) && StaleFailed(s.plane.runs)
    ensures WorkersMatch(Act(s, a)) && RunningIsUnfinished(Act(s, a))
  {
    var t := Act(s, a);
    forall r | 0 <= r < |t.plane.runs| && t.plane.runs[r].hostId == t.agent.host && t.plane.runs[r].status == Running
      ensures Unfinished(t.agent, r) || r in t.lost
    {
      assert Unfinished(s.agent, r) || r in s.lost;
    }
  }

  lemma ActKeepsInv(s: System, a: Action)
    requires SystemInv(s) && Enabled(s, a)
    ensures SystemInv(Act(s, a))
  {
    match a {
      case Environment(e) => EnvironmentKeepsMatch(s, e);
      case PollAnswered => PollKeepsMatch(s);
      case AnswerLost => LostAnswerKeepsMatch(s);
      case Finish(r, ok, delivered) => FinishKeepsMatch(s, r, ok, delivered);
      case _ =>
        LocalKeepsLimiter(s, a);
        LocalKeepsClaims(s, a);
        assert Act(s, a).plane == s.plane;
    }
  }

  lemma {:induction false} RunsKeepSystemInv(s: System, actions: seq<Action>)
    requires SystemInv(s) && IsRun(s, actions)
    ensures SystemInv(After(s, actions))
    decreases |actions|
  {
    if actions != [] {
      ActKeepsInv(s, actions[0]);
      RunsKeepSystemInv(Act(s, actions[0]), actions[1..]);
    }
  }

  lemma StartIsGood(host: HostId, maxConcurrentReads: int)
    ensures SystemInv(Start(host, maxConcurrentReads))
  {
  }

  // ---------- Safety of every interleaving ----------

  function Executed(a: Agent, readOnly: bool): set<RunId> {
    set r | r in a.workers && a.workers[r].stage == Executing && a.workers[r].readOnly == readOnly
  }

  function Held(a: Agent, readOnly: bool): set<RunId> {
    if a.pc.Holding? && AgentReadOnly(a.pc.job.jobType) == readOnly then {a.pc.job.runId} else {}
  }

  lemma AtMostOne(a: set<RunId>)
    requires forall r, q :: r in a && q in a ==> r == q
    ensures |a| <= 1
  {
    if r :| r in a {
      assert a == {r};
    }
  }

  /** A mutation in the loop's hands and a mutation being executed exclude each other. */
  lemma MutationsExclude(a: Agent)
    requires LimiterMatches(a)
    ensures |Executed(a, false) + Held(a, false)| <= 1
  {
    if Held(a, false) != {} {
      assert !a.limiter.busy;
      assert Executed(a, false) == {};
    } else {
      forall r, q | r in Executed(a, false) && q in Executed(a, false) ensures r == q {
        MutationWorkerUnique(a.workers, r, q);
      }
      AtMostOne(Executed(a, false));
      assert Executed(a, false) + Held(a, false) == Executed(a, false);
    }
  }

  lemma UnionBound(a: set<RunId>, b: set<RunId>)
    ensures |a + b| <= |a| + |b|
  {
    assert a + b == a + (b - a);
    CardinalityMonotonic(b - a, b);
  }

  lemma ClaimsBound(a: Agent)
    requires LimiterMatches(a)
    ensures |Executed(a, true)| <= a.limiter.readLimit
    ensures |Executed(a, true) + Held(a, true) + (Executed(a, false) + Held(a, false))| <= a.limiter.readLimit + 2
  {
    assert Executed(a, true) <= ReadWorkers(a.workers);
    CardinalityMonotonic(Executed(a, true), ReadWorkers(a.workers));
    UnionBound(Executed(a, true), Held(a, true));
    MutationsExclude(a);
    UnionBound(Executed(a, true) + Held(a, true), Executed(a, false) + Held(a, false));
  }

  /**
   In every interleaving of the poll loop, the workers, the other hosts and the control plane, with lost answers and
   restarts of the agent, the host has at most one claimed and unfinished mutation, at most as many executing reads as
   configured (8 without a configured number), and at most two more claimed and unfinished jobs.
   */
  lemma ClaimsInEveryRun(host: HostId, maxConcurrentReads: int, actions: seq<Action>)
    requires IsRun(Start(host, maxConcurrentReads), actions)
    ensures var a := After(Start(host, maxConcurrentReads), actions).agent;
            var limit := if maxConcurrentReads <= 0 then 8 else maxConcurrentReads;
            && |Executed(a, false) + Held(a, false)| <= 1
            && |Executed(a, true)| <= limit
            && |Executed(a, true) + Held(a, true) + (Executed(a, false) + Held(a, false))| <= limit + 2
  {
    var s := Start(host, maxConcurrentReads);
    StartIsGood(host, maxConcurrentReads);
    RunsKeepSystemInv(s, actions);
    LimitIsConstant(s, actions);
    MutationsExclude(After(s, actions).agent);
    ClaimsBound(After(s, actions).agent);
  }

  lemma {:induction false} LimitIsConstant(s: System, actions: seq<Action>)
    requires IsRun(s, actions)
    ensures After(s, actions).agent.limiter.readLimit == s.agent.limiter.readLimit
    ensures After(s, actions).agent.host == s.agent.host
    decreases |actions|
  {
    if actions != [] {
      LimitIsConstant(Act(s, actions[0]), actions[1..]);
    }
  }

  // ---------- Nobody waits for ever ----------

  /** Some next action of the worker of this run can be taken. */
  predicate CanMove(s: System, r: RunId) {
    || Enabled(s, Finish(r, true, true)) || Enabled(s, ReleaseRead(r)) || Enabled(s, ClearBusy(r))
    || Enabled(s, ReturnToken(r))
  }

  lemma WorkersMove(s: System, r: RunId)
    requires LimiterMatches(s.agent) && r in s.agent.workers
    ensures CanMove(s, r)
  {
    match s.agent.workers[r].stage
    case Executing => assert Enabled(s, Finish(r, true, true));
    case Returned => assert Enabled(s, ReleaseRead(r)) || Enabled(s, ClearBusy(r));
    case Cleared => assert Enabled(s, ReturnToken(r));
  }

  /**
   In every interleaving no slot and no token is lost: a job that cannot start waits for a worker of its own kind, and
   that worker can move on.
   */
  lemma WaitingHasReason(host: HostId, maxConcurrentReads: int, actions: seq<Action>)
    requires IsRun(Start(host, maxConcurrentReads), actions)
    ensures var s := After(Start(host, maxConcurrentReads), actions);
            s.agent.pc.Holding? && !Enabled(s, StartWorker) ==>
              exists r :: r in s.agent.workers && CanMove(s, r)
                          && s.agent.workers[r].readOnly == AgentReadOnly(s.agent.pc.job.jobType)
  {
    var s := After(Start(host, maxConcurrentReads), actions);
    StartIsGood(host, maxConcurrentReads);
    RunsKeepSystemInv(Start(host, maxConcurrentReads), actions);
    LimitIsConstant(Start(host, maxConcurrentReads), actions);
    if s.agent.pc.Holding? && !Enabled(s, StartWorker) {
      var readOnly := AgentReadOnly(s.agent.pc.job.jobType);
      var holders := if readOnly then ReadWorkers(s.agent.workers) else MutationWorkers(s.agent.workers);
      assert holders != {};
      var r :| r in holders;
      WorkersMove(s, r);
    }
  }

  /** When that worker gives back its slot or its token, the job can start. */
  lemma ReleaseEndsWait(s: System, r: RunId)
    requires SystemInv(s) && s.agent.pc.Holding?
    ensures AgentReadOnly(s.agent.pc.job.jobType) && Enabled(s, ReleaseRead(r)) ==>
              Enabled(Act(s, ReleaseRead(r)), StartWorker)
    ensures !AgentReadOnly(s.agent.pc.job.jobType) && Enabled(s, ReturnToken(r)) ==>
              Enabled(Act(s, ReturnToken(r)), StartWorker)
  {
    if Enabled(s, ReleaseRead(r)) {
      assert r in ReadWorkers(s.agent.workers);
      WorkerRemoved(s.agent.workers, r);
    }
  }

  /** The runs the run table shows as running mutations of the host. */
  function RunningMutations(s: System): set<RunId> {
    set r: RunId | r < |s.plane.runs| && s.plane.runs[r].hostId == s.agent.host
                   && s.plane.runs[r].status == Running && !QueueReadOnly(s.plane.runs[r].jobType)
  }

  /**
   In every interleaving the run table itself shows at most one running mutation per host, apart from lost jobs and
   results.
   */
  lemma RunningMutationsInEveryRun(host: HostId, maxConcurrentReads: int, actions: seq<Action>)
    requires IsRun(Start(host, maxConcurrentReads), actions)
    ensures var t := After(Start(host, maxConcurrentReads), actions);
            |RunningMutations(t) - t.lost| <= 1
  {
    var s := Start(host, maxConcurrentReads);
    var t := After(s, actions);
    StartIsGood(host, maxConcurrentReads);
    RunsKeepSystemInv(s, actions);
    MutationsExclude(t.agent);
    forall r | r in RunningMutations(t) - t.lost ensures r in Executed(t.agent, false) + Held(t.agent, false) {
      AllowlistsAgree(t.plane.runs[r].jobType);
      assert Unfinished(t.agent, r);
    }
    CardinalityMonotonic(RunningMutations(t) - t.lost, Executed(t.agent, false) + Held(t.agent, false));
  }

  /** A job handed to the agent was pending until then, so no run is ever handed out twice. */
  lemma ClaimedOnce(host: HostId, maxConcurrentReads: int, actions: seq<Action>)
    requires IsRun(Start(host, maxConcurrentReads), actions)
    ensures var t := After(Start(host, maxConcurrentReads), actions);
            t.agent.pc.Polling? ==>
              match Claimed(t.plane.queue, host, t.agent.pc.busy)
              case None => true
              case Some(job) =>
                job.runId < |t.plane.runs| && t.plane.runs[job.runId].status == Pending && job.runId !in t.agent.workers
  {
    var s := Start(host, maxConcurrentReads);
    var t := After(s, actions);
    StartIsGood(host, maxConcurrentReads);
    RunsKeepSystemInv(s, actions);
    LimitIsConstant(s, actions);
    if t.agent.pc.Polling? {
      PollStartsClaim(t.plane, host, t.agent.pc.busy);
    }
  }
}
