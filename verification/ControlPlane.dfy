/**
 Job runs and batches in the control plane.

 Every handler is one atomic step on the tables: the waiting queue, the run rows and the batch rows
 with their five counters.  A run's id is its position in the run table.  Two facts are kept for the
 proofs only: whether a run was released as stale (its batch is never told), and which batches
 somebody cancelled.
 */
module ControlPlane {
  import opened JobQueue
  import opened Wrappers

  type BatchId = nat

  datatype RunStatus = Pending | Running | Success | Failed | Cancelled

  datatype Run = Run(status: RunStatus, hostId: HostId, jobType: string, batch: Option<BatchId>, stale: bool)

  datatype BatchStatus = InProgress | Aborted | Completed | CompletedWithFailures

  datatype Batch = Batch(
    status: BatchStatus, total: int,
    pending: int, running: int, success: int, failed: int, cancelled: int)

  /** A batch's id is its position in the batch table. */
  datatype Plane = Plane(queue: seq<QueueJob>, runs: seq<Run>, batches: seq<Batch>, aborted: set<BatchId>)

  /** What a client asks for: a job of some type on some server's host. */
  datatype Request = Request(hostId: HostId, jobType: string)

  /** Three minutes without a sign of life. */
  const STALE_AFTER := 180000

  // ---------- Batch counters ----------

  /** A batch with no pending and no running runs left is given its final status. */
  function Finalised(b: Batch): Batch {
    if b.pending <= 0 && b.running <= 0 then
      b.(status := if b.failed > 0 then CompletedWithFailures else Completed)
    else b
  }

  function BatchStarted(batches: seq<Batch>, batch: Option<BatchId>): seq<Batch> {
    if batch.Some? && batch.value < |batches| then
      var b := batches[batch.value];
      batches[batch.value := b.(pending := b.pending - 1, running := b.running + 1)]
    else batches
  }

  function BatchCompleted(batches: seq<Batch>, batch: Option<BatchId>, ok: bool): seq<Batch> {
    if batch.Some? && batch.value < |batches| then
      var b := batches[batch.value];
      var counted := if ok then b.(success := b.success + 1) else b.(failed := b.failed + 1);
      batches[batch.value := Finalised(counted.(running := counted.running - 1))]
    else batches
  }

  // ---------- Handlers as functions on the tables ----------

  function NewRuns(requests: seq<Request>, batch: Option<BatchId>): seq<Run> {
    seq(|requests|, k requires 0 <= k < |requests| =>
          Run(Pending, requests[k].hostId, requests[k].jobType, batch, false))
  }

  function NewJobs(first: RunId, requests: seq<Request>): seq<QueueJob> {
    seq(|requests|, k requires 0 <= k < |requests| => QueueJob(first + k, requests[k].hostId, requests[k].jobType))
  }

  /** New runs start pending, and each one is put in the queue. */
  function AddRuns(p: Plane, requests: seq<Request>, batch: Option<BatchId>): Plane {
    p.(queue := p.queue + NewJobs(|p.runs|, requests), runs := p.runs + NewRuns(requests, batch))
  }

  /** A batch has one run for each of its servers, of which there is at least one. */
  function CreateBatch(p: Plane, requests: seq<Request>): Plane {
    if requests == [] then p
    else
      var n := |requests|;
      AddRuns(p, requests, Some(|p.batches|)).(batches := p.batches + [Batch(InProgress, n, n, 0, 0, 0, 0)])
  }

  function MarkStarted(p: Plane, host: HostId, r: RunId): Plane {
    if r >= |p.runs| || p.runs[r].hostId != host || p.runs[r].status != Pending then p
    else
      p.(runs := p.runs[r := p.runs[r].(status := Running)], batches := BatchStarted(p.batches, p.runs[r].batch))
  }

  function Poll(p: Plane, host: HostId, mutationBusy: bool): Plane {
    match Claimed(p.queue, host, mutationBusy)
    case None => p
    case Some(job) => MarkStarted(p.(queue := AfterClaim(p.queue, host, mutationBusy)), host, job.runId)
  }

  datatype ReportOutcome = Accepted | NotFound | WrongHost | NotRunning

  function ReportOutcomeOf(p: Plane, host: HostId, r: RunId): ReportOutcome {
    if r >= |p.runs| then NotFound
    else if p.runs[r].hostId != host then WrongHost
    else if p.runs[r].status != Running then NotRunning
    else Accepted
  }

  function Report(p: Plane, host: HostId, r: RunId, ok: bool): Plane {
    if ReportOutcomeOf(p, host, r) != Accepted then p
    else
      p.(runs := p.runs[r := p.runs[r].(status := if ok then Success else Failed)],
         batches := BatchCompleted(p.batches, p.runs[r].batch, ok))
  }

  /** A running run whose last sign of life is too old fails; its batch is not told. */
  function Released(run: Run, heartbeat: int, now: int): Run {
    if run.status == Running && heartbeat < now - STALE_AFTER then run.(status := Failed, stale := true) else run
  }

  /** The time of the last sign of life, zero when there is none. */
  function HeartbeatOf(heartbeat: map<RunId, int>, r: RunId): int {
    if r in heartbeat then heartbeat[r] else 0
  }

  function FailStale(p: Plane, heartbeat: map<RunId, int>, now: int): Plane {
    p.(runs := seq(|p.runs|, r requires 0 <= r < |p.runs| => Released(p.runs[r], HeartbeatOf(heartbeat, r), now)))
  }

  datatype CancelOutcome = CancelAccepted | NoSuchBatch | BatchNotRunning

  function CancelOutcomeOf(p: Plane, id: BatchId): CancelOutcome {
    if id >= |p.batches| then NoSuchBatch
    else if p.batches[id].status != InProgress then BatchNotRunning
    else CancelAccepted
  }

  predicate Droppable(run: Run, id: BatchId) {
    run.batch == Some(id) && run.status == Pending
  }

  function Dropped(run: Run, id: BatchId): Run {
    if Droppable(run, id) then run.(status := Cancelled) else run
  }

  function AllDropped(runs: seq<Run>, id: BatchId): seq<Run> {
    seq(|runs|, r requires 0 <= r < |runs| => Dropped(runs[r], id))
  }

  /** The queue without those of the first n runs that a cancellation drops. */
  function Kept(queue: seq<QueueJob>, runs: seq<Run>, n: nat, id: BatchId): seq<QueueJob>
    requires n <= |runs|
  {
    if queue == [] then []
    else
      var rest := Kept(queue[1..], runs, n, id);
      if queue[0].runId < n && Droppable(runs[queue[0].runId], id) then rest else [queue[0]] + rest
  }

  function CancelBatch(p: Plane, id: BatchId): Plane {
    if CancelOutcomeOf(p, id) != CancelAccepted then p
    else
      var b, dropped := p.batches[id], Count(p.runs, id, PendingColumn);
      p.(queue := Kept(p.queue, p.runs, |p.runs|, id),
         runs := AllDropped(p.runs, id),
         batches := p.batches[id := b.(status := Aborted, pending := b.pending - dropped,
             cancelled := b.cancelled + dropped)],
         aborted := p.aborted + {id})
  }

  datatype Event =
    | EvCreate(request: Request)
    | EvCreateBatch(requests: seq<Request>)
    | EvPoll(host: HostId, mutationBusy: bool)
    | EvReport(host: HostId, runId: RunId, ok: bool)
    | EvRecover(heartbeat: map<RunId, int>, now: int)
    | EvCancel(id: BatchId)

  function Step(p: Plane, e: Event): Plane {
    match e
    case EvCreate(request) => AddRuns(p, [request], None)
    case EvCreateBatch(requests) => CreateBatch(p, requests)
    case EvPoll(host, busy) => Poll(p, host, busy)
    case EvReport(host, r, ok) => Report(p, host, r, ok)
    case EvRecover(heartbeat, now) => FailStale(p, heartbeat, now)
    case EvCancel(id) => CancelBatch(p, id)
  }

  const EMPTY := Plane([], [], [], {})

  function RunEvents(p: Plane, events: seq<Event>): Plane
    decreases |events|
  {
    if events == [] then p else RunEvents(Step(p, events[0]), events[1..])
  }

  // ---------- Counting the runs of a batch ----------

  /** The counters of a batch row.  A run released as stale still counts as running. */
  datatype Column = TotalColumn | PendingColumn | RunningColumn | SuccessColumn | FailedColumn | CancelledColumn

  predicate InColumn(run: Run, id: BatchId, column: Column) {
    && run.batch == Some(id)
    && match column
       case TotalColumn => true
       case PendingColumn => run.status == Pending
       case RunningColumn => run.status == Running || run.stale
       case SuccessColumn => run.status == Success
       case FailedColumn => run.status == Failed && !run.stale
       case CancelledColumn => run.status == Cancelled
  }

  function One(holds: bool): nat {
    if holds then 1 else 0
  }

  /** How many of the first n runs count in a column of batch id. */
  function CountUpTo(runs: seq<Run>, n: nat, id: BatchId, column: Column): nat
    requires n <= |runs|
  {
    if n == 0 then 0 else CountUpTo(runs, n - 1, id, column) + One(InColumn(runs[n - 1], id, column))
  }

  function Count(runs: seq<Run>, id: BatchId, column: Column): nat {
    CountUpTo(runs, |runs|, id, column)
  }

  /** Replacing one run exchanges exactly its share. */
  lemma {:induction false} CountOfUpdate(runs: seq<Run>, r: nat, run: Run, n: nat, id: BatchId, column: Column)
    requires r < |runs| && n <= |runs|
    ensures CountUpTo(runs[r := run], n, id, column) ==
              if r < n
              then CountUpTo(runs, n, id, column) + One(InColumn(run, id, column)) - One(InColumn(runs[r], id, column))
              else CountUpTo(runs, n, id, column)
  {
    if n > 0 {
      CountOfUpdate(runs, r, run, n - 1, id, column);
    }
  }

  /** Rows that stay in their columns keep the count. */
  lemma {:induction false} CountOfSame(runs: seq<Run>, after: seq<Run>, n: nat, id: BatchId, column: Column)
    requires n <= |runs| && n <= |after|
    requires forall r :: 0 <= r < n ==> (InColumn(after[r], id, column) <==> InColumn(runs[r], id, column))
    ensures CountUpTo(after, n, id, column) == CountUpTo(runs, n, id, column)
  {
    if n > 0 {
      CountOfSame(runs, after, n - 1, id, column);
    }
  }

  /** New rows that all count, or all do not. */
  lemma {:induction false} CountOfNew(runs: seq<Run>, after: seq<Run>, n: nat, id: BatchId, column: Column,
      counts: bool)
    requires |runs| <= n <= |after|
    requires after[..|runs|] == runs
    requires forall r :: |runs| <= r < n ==> (InColumn(after[r], id, column) <==> counts)
    ensures CountUpTo(after, n, id, column) == Count(runs, id, column) + if counts then n - |runs| else 0
  {
    if n > |runs| {
      CountOfNew(runs, after, n - 1, id, column, counts);
    } else {
      assert forall r :: 0 <= r < n ==> after[r] == after[..n][r];
      CountOfSame(runs, after, n, id, column);
    }
  }

  /** Runs that all leave one column for another. */
  lemma {:induction false} CountOfMoved(runs: seq<Run>, after: seq<Run>, n: nat, id: BatchId, from: Column, to: Column)
    requires n <= |runs| && n <= |after|
    requires forall r :: 0 <= r < n ==> !InColumn(after[r], id, from)
    requires forall r :: 0 <= r < n ==>
             (InColumn(after[r], id, to) <==> InColumn(runs[r], id, from) || InColumn(runs[r], id, to))
    requires forall r :: 0 <= r < n ==> !(InColumn(runs[r], id, from) && InColumn(runs[r], id, to))
    ensures CountUpTo(after, n, id, from) == 0
    ensures CountUpTo(after, n, id, to) == CountUpTo(runs, n, id, from) + CountUpTo(runs, n, id, to)
  {
    if n > 0 {
      CountOfMoved(runs, after, n - 1, id, from, to);
    }
  }

  /** Every run of a batch counts in exactly one column besides the total. */
  lemma {:induction false} ColumnsAddUp(runs: seq<Run>, n: nat, id: BatchId)
    requires n <= |runs| && StaleFailed(runs)
    ensures CountUpTo(runs, n, id, TotalColumn) ==
              CountUpTo(runs, n, id, PendingColumn) + CountUpTo(runs, n, id, RunningColumn)
              + CountUpTo(runs, n, id, SuccessColumn)
              + CountUpTo(runs, n, id, FailedColumn) + CountUpTo(runs, n, id, CancelledColumn)
  {
    if n > 0 {
      ColumnsAddUp(runs, n - 1, id);
    }
  }

  // ---------- The invariant ----------

  function Counter(b: Batch, column: Column): int {
    match column
    case TotalColumn => b.total
    case PendingColumn => b.pending
    case RunningColumn => b.running
    case SuccessColumn => b.success
    case FailedColumn => b.failed
    case CancelledColumn => b.cancelled
  }

  ghost predicate CountersMatch(p: Plane, id: BatchId)
    requires id < |p.batches|
  {
    && p.batches[id].total > 0
    && forall column :: Counter(p.batches[id], column) == Count(p.runs, id, column)
  }

  /** What the status of a batch says about its counters. */
  predicate StatusMatches(b: Batch, aborted: bool) {
    if aborted then
      b.pending == 0 && b.status != InProgress && (b.running > 0 ==> b.status == Aborted)
    else
      b.status == if b.pending > 0 || b.running > 0 then InProgress
                  else if b.failed > 0 then CompletedWithFailures
                  else Completed
  }

  ghost predicate StaleFailed(runs: seq<Run>) {
    forall r :: 0 <= r < |runs| && runs[r].stale ==> runs[r].status == Failed
  }

  ghost predicate BatchesMatch(p: Plane) {
    && StaleFailed(p.runs)
    && (forall id :: 0 <= id < |p.batches| ==> CountersMatch(p, id) && StatusMatches(p.batches[id], id in p.aborted))
    && (forall r :: 0 <= r < |p.runs| && p.runs[r].batch.Some? ==> p.runs[r].batch.value < |p.batches|)
    && (forall id :: id in p.aborted ==> id < |p.batches|)
  }

  /** The queue holds exactly the pending runs, each once. */
  ghost predicate QueueMatches(p: Plane) {
    && DistinctRuns(p.queue)
    && (forall r: RunId :: Queued(p.queue, r) <==> r < |p.runs| && p.runs[r].status == Pending)
    && (forall job :: job in p.queue ==>
          job.runId < |p.runs| && p.runs[job.runId].hostId == job.hostId && p.runs[job.runId].jobType == job.jobType)
  }

  ghost predicate Inv(p: Plane) {
    QueueMatches(p) && BatchesMatch(p)
  }

  // ---------- Every handler keeps the batch rows right ----------

  lemma StartKeepsBatches(p: Plane, host: HostId, r: RunId)
    requires BatchesMatch(p)
    ensures BatchesMatch(MarkStarted(p, host, r))
  {
    var q := MarkStarted(p, host, r);
    if q != p {
      assert !p.runs[r].stale;
      forall id | 0 <= id < |q.batches| ensures CountersMatch(q, id) && StatusMatches(q.batches[id], id in q.aborted) {
        assert CountersMatch(p, id);
        forall column ensures Counter(q.batches[id], column) == Count(q.runs, id, column) {
          assert Counter(p.batches[id], column) == Count(p.runs, id, column);
          CountOfUpdate(p.runs, r, q.runs[r], |p.runs|, id, column);
        }
        assert Counter(q.batches[id], PendingColumn) >= 0 && Counter(q.batches[id], RunningColumn) >= 0;
        assert Counter(p.batches[id], RunningColumn) >= 0;
      }
    }
  }

  lemma ReportKeepsBatches(p: Plane, host: HostId, r: RunId, ok: bool)
    requires BatchesMatch(p)
    ensures BatchesMatch(Report(p, host, r, ok))
  {
    var q := Report(p, host, r, ok);
    if ReportOutcomeOf(p, host, r) == Accepted {
      assert !p.runs[r].stale;
      forall id | 0 <= id < |q.batches| ensures CountersMatch(q, id) && StatusMatches(q.batches[id], id in q.aborted) {
        assert CountersMatch(p, id);
        forall column ensures Counter(q.batches[id], column) == Count(q.runs, id, column) {
          assert Counter(p.batches[id], column) == Count(p.runs, id, column);
          CountOfUpdate(p.runs, r, q.runs[r], |p.runs|, id, column);
        }
        assert Counter(q.batches[id], PendingColumn) >= 0 && Counter(q.batches[id], RunningColumn) >= 0;
      }
    }
  }

  lemma RecoverKeepsBatches(p: Plane, heartbeat: map<RunId, int>, now: int)
    requires BatchesMatch(p)
    ensures BatchesMatch(FailStale(p, heartbeat, now))
  {
    var q := FailStale(p, heartbeat, now);
    forall id | 0 <= id < |q.batches| ensures CountersMatch(q, id) {
      assert CountersMatch(p, id);
      forall column ensures Counter(q.batches[id], column) == Count(q.runs, id, column) {
        assert Counter(p.batches[id], column) == Count(p.runs, id, column);
        CountOfSame(p.runs, q.runs, |p.runs|, id, column);
      }
    }
  }

  lemma CancelKeepsBatches(p: Plane, id: BatchId)
    requires BatchesMatch(p)
    ensures BatchesMatch(CancelBatch(p, id))
  {
    var q := CancelBatch(p, id);
    if CancelOutcomeOf(p, id) == CancelAccepted {
      forall other | 0 <= other < |q.batches|
          ensures CountersMatch(q, other) && StatusMatches(q.batches[other], other in q.aborted) {
        assert CountersMatch(p, other);
        forall column ensures Counter(q.batches[other], column) == Count(q.runs, other, column) {
          assert Counter(p.batches[other], column) == Count(p.runs, other, column);
          if other == id && (column == PendingColumn || column == CancelledColumn) {
            CountOfMoved(p.runs, q.runs, |p.runs|, id, PendingColumn, CancelledColumn);
          } else {
            CountOfSame(p.runs, q.runs, |p.runs|, other, column);
          }
        }
        assert Counter(p.batches[other], PendingColumn) == Count(p.runs, other, PendingColumn);
      }
    }
  }

  lemma CreateKeepsBatches(p: Plane, requests: seq<Request>)
    requires BatchesMatch(p)
    ensures BatchesMatch(AddRuns(p, requests, None))
  {
    var q := AddRuns(p, requests, None);
    forall id | 0 <= id < |q.batches| ensures CountersMatch(q, id) {
      assert CountersMatch(p, id);
      forall column ensures Counter(q.batches[id], column) == Count(q.runs, id, column) {
        assert Counter(p.batches[id], column) == Count(p.runs, id, column);
        CountOfNew(p.runs, q.runs, |q.runs|, id, column, false);
      }
    }
  }

  lemma {:induction false} NoMembersNoCount(runs: seq<Run>, n: nat, id: BatchId, column: Column)
    requires n <= |runs| && forall r :: 0 <= r < n ==> runs[r].batch != Some(id)
    ensures CountUpTo(runs, n, id, column) == 0
  {
    if n > 0 {
      NoMembersNoCount(runs, n - 1, id, column);
    }
  }

  lemma CreateBatchKeepsBatches(p: Plane, requests: seq<Request>)
    requires BatchesMatch(p)
    ensures BatchesMatch(CreateBatch(p, requests))
  {
    var q, newId := CreateBatch(p, requests), |p.batches|;
    if requests != [] {
      forall id | 0 <= id < |q.batches| ensures CountersMatch(q, id) && StatusMatches(q.batches[id], id in q.aborted) {
        assert id != newId ==> CountersMatch(p, id);
        forall column ensures Counter(q.batches[id], column) == Count(q.runs, id, column) {
          CountOfNew(p.runs, q.runs, |q.runs|, id, column,
                     id == newId && (column == TotalColumn || column == PendingColumn));
          if id == newId {
            NoMembersNoCount(p.runs, |p.runs|, id, column);
          } else {
            assert Counter(p.batches[id], column) == Count(p.runs, id, column);
          }
        }
      }
    }
  }

  // ---------- Every handler keeps the queue right ----------

  /** Cancelling removes exactly the dropped runs from the queue. */
  lemma {:induction false} KeptQueue(queue: seq<QueueJob>, runs: seq<Run>, n: nat, id: BatchId)
    requires n <= |runs|
    ensures forall job :: job in Kept(queue, runs, n, id) <==>
            job in queue && !(job.runId < n && Droppable(runs[job.runId], id))
    ensures DistinctRuns(queue) ==> DistinctRuns(Kept(queue, runs, n, id))
  {
    if queue != [] {
      KeptQueue(queue[1..], runs, n, id);
      var rest := Kept(queue[1..], runs, n, id);
      assert queue == [queue[0]] + queue[1..];
      if DistinctRuns(queue) {
        forall k | 0 <= k < |rest| ensures rest[k].runId != queue[0].runId {
          assert rest[k] in queue[1..];
        }
      }
    }
  }

  lemma QueuedIffIn(queue: seq<QueueJob>, r: RunId)
    ensures Queued(queue, r) <==> exists job :: job in queue && job.runId == r
  {
    if Queued(queue, r) {
      var k :| 0 <= k < |queue| && queue[k].runId == r;
      assert queue[k] in queue;
    }
  }

  lemma CancelKeepsQueue(p: Plane, id: BatchId)
    requires QueueMatches(p)
    ensures QueueMatches(CancelBatch(p, id))
  {
    var q := CancelBatch(p, id);
    KeptQueue(p.queue, p.runs, |p.runs|, id);
    if q != p {
      forall r: RunId ensures Queued(q.queue, r) <==> r < |q.runs| && q.runs[r].status == Pending {
        QueuedIffIn(p.queue, r);
        QueuedIffIn(q.queue, r);
        assert Queued(p.queue, r) <==> r < |p.runs| && p.runs[r].status == Pending;
      }
    }
  }

  lemma NewJobsAreDistinct(p: Plane, requests: seq<Request>)
    requires QueueMatches(p)
    ensures DistinctRuns(p.queue + NewJobs(|p.runs|, requests))
  {
    forall k | 0 <= k < |p.queue| ensures p.queue[k].runId < |p.runs| {
      assert p.queue[k] in p.queue;
    }
  }

  lemma NewJobsArePending(p: Plane, requests: seq<Request>, batch: Option<BatchId>, r: RunId)
    requires QueueMatches(p)
    ensures var q := AddRuns(p, requests, batch); Queued(q.queue, r) <==> r < |q.runs| && q.runs[r].status == Pending
  {
    var jobs := NewJobs(|p.runs|, requests);
    assert Queued(p.queue, r) <==> r < |p.runs| && p.runs[r].status == Pending;
    if k :| 0 <= k < |p.queue| && p.queue[k].runId == r {
      assert (p.queue + jobs)[k].runId == r;
    } else if |p.runs| <= r < |p.runs| + |requests| {
      assert (p.queue + jobs)[|p.queue| + r - |p.runs|].runId == r;
    }
  }

  lemma CreateKeepsQueue(p: Plane, requests: seq<Request>, batch: Option<BatchId>)
    requires QueueMatches(p)
    ensures QueueMatches(AddRuns(p, requests, batch))
  {
    NewJobsAreDistinct(p, requests);
    forall r: RunId
      ensures var q := AddRuns(p, requests, batch); Queued(q.queue, r) <==> r < |q.runs| && q.runs[r].status == Pending
    {
      NewJobsArePending(p, requests, batch, r);
    }
  }

  /** What a poll hands out was pending on that host, and is running afterwards. */
  lemma PollStartsClaim(p: Plane, host: HostId, mutationBusy: bool)
    requires QueueMatches(p)
    ensures QueueMatches(Poll(p, host, mutationBusy))
    ensures match Claimed(p.queue, host, mutationBusy)
            case None => Poll(p, host, mutationBusy) == p
            case Some(job) =>
              && Eligible(job, host, mutationBusy)
              && job.runId < |p.runs| && p.runs[job.runId].status == Pending
              && p.runs[job.runId].hostId == host && p.runs[job.runId].jobType == job.jobType
              && Poll(p, host, mutationBusy).runs == p.runs[job.runId := p.runs[job.runId].(status := Running)]
  {
    match Claimed(p.queue, host, mutationBusy) {
      case None =>
      case Some(job) =>
        ClaimRemovesOneRun(p.queue, host, mutationBusy, job);
        QueuedIffIn(p.queue, job.runId);
        assert Queued(p.queue, job.runId);
    }
  }

  /** A single new run. */
  lemma AddOneRun(p: Plane, request: Request, batch: Option<BatchId>)
    requires QueueMatches(p)
    ensures AddRuns(p, [request], batch) ==
            p.(runs := p.runs + [Run(Pending, request.hostId, request.jobType, batch, false)],
               queue := p.queue + [QueueJob(|p.runs|, request.hostId, request.jobType)])
    ensures QueueMatches(AddRuns(p, [request], batch)) && !Queued(p.queue, |p.runs|)
  {
    CreateKeepsQueue(p, [request], batch);
  }

  // ---------- Safety over whole runs ----------

  lemma PollKeepsBatches(p: Plane, host: HostId, busy: bool)
    requires Inv(p)
    ensures BatchesMatch(Step(p, EvPoll(host, busy)))
  {
    PollStartsClaim(p, host, busy);
    match Claimed(p.queue, host, busy)
    case None =>
    case Some(job) => StartKeepsBatches(p.(queue := AfterClaim(p.queue, host, busy)), host, job.runId);
  }

  lemma StepKeepsBatches(p: Plane, e: Event)
    requires Inv(p)
    ensures BatchesMatch(Step(p, e))
  {
    match e
    case EvCreate(request) => CreateKeepsBatches(p, [request]);
    case EvCreateBatch(requests) => CreateBatchKeepsBatches(p, requests);
    case EvPoll(host, busy) => PollKeepsBatches(p, host, busy);
    case EvReport(host, r, ok) => ReportKeepsBatches(p, host, r, ok);
    case EvRecover(heartbeat, now) => RecoverKeepsBatches(p, heartbeat, now);
    case EvCancel(id) => CancelKeepsBatches(p, id);
  }

  lemma StepKeepsQueue(p: Plane, e: Event)
    requires Inv(p)
    ensures QueueMatches(Step(p, e))
  {
    match e
    case EvCreate(request) => CreateKeepsQueue(p, [request], None);
    case EvCreateBatch(requests) => CreateKeepsQueue(p, requests, Some(|p.batches|));
    case EvPoll(host, busy) => PollStartsClaim(p, host, busy);
    case EvReport(_, _, _) =>
    case EvRecover(_, _) =>
    case EvCancel(id) => CancelKeepsQueue(p, id);
  }

  lemma StepKeepsInv(p: Plane, e: Event)
    requires Inv(p)
    ensures Inv(Step(p, e))
  {
    StepKeepsBatches(p, e);
    StepKeepsQueue(p, e);
  }

  lemma {:induction false} RunsKeepInv(p: Plane, events: seq<Event>)
    requires Inv(p)
    ensures Inv(RunEvents(p, events))
    decreases |events|
  {
    if events != [] {
      StepKeepsInv(p, events[0]);
      RunsKeepInv(Step(p, events[0]), events[1..]);
    }
  }

  /** In every reachable state the five counters are the run counts, are not negative and sum to the total. */
  lemma CountersInEveryRun(events: seq<Event>, id: BatchId)
    requires id < |RunEvents(EMPTY, events).batches|
    ensures var p := RunEvents(EMPTY, events); var b := p.batches[id];
            && b.total == Count(p.runs, id, TotalColumn) == b.pending + b.running + b.success + b.failed + b.cancelled
            && b.pending == Count(p.runs, id, PendingColumn) >= 0
            && b.running == Count(p.runs, id, RunningColumn) >= 0
            && b.success == Count(p.runs, id, SuccessColumn) >= 0
            && b.failed == Count(p.runs, id, FailedColumn) >= 0
            && b.cancelled == Count(p.runs, id, CancelledColumn) >= 0
  {
    RunsKeepInv(EMPTY, events);
    var p := RunEvents(EMPTY, events);
    assert CountersMatch(p, id);
    forall column ensures Counter(p.batches[id], column) == Count(p.runs, id, column) {
    }
    assert Counter(p.batches[id], TotalColumn) == Count(p.runs, id, TotalColumn);
    assert Counter(p.batches[id], PendingColumn) == Count(p.runs, id, PendingColumn);
    assert Counter(p.batches[id], RunningColumn) == Count(p.runs, id, RunningColumn);
    assert Counter(p.batches[id], SuccessColumn) == Count(p.runs, id, SuccessColumn);
    assert Counter(p.batches[id], FailedColumn) == Count(p.runs, id, FailedColumn);
    assert Counter(p.batches[id], CancelledColumn) == Count(p.runs, id, CancelledColumn);
    ColumnsAddUp(p.runs, |p.runs|, id);
  }

  predicate Follows(before: RunStatus, after: RunStatus) {
    || after == before
    || (before == Pending && (after == Running || after == Cancelled))
    || (before == Running && (after == Success || after == Failed))
  }

  /**
   Runs only move from pending to running to success or failed, or from pending to cancelled; nothing else of them
   changes.
   */
  lemma StatusMovesForward(p: Plane, e: Event, r: RunId)
    requires Inv(p) && r < |p.runs|
    ensures r < |Step(p, e).runs|
    ensures var before, after := p.runs[r], Step(p, e).runs[r];
            && Follows(before.status, after.status)
            && after.hostId == before.hostId && after.jobType == before.jobType && after.batch == before.batch
            && (after.stale && !before.stale ==> e.EvRecover? && before.status == Running)
  {
    if e.EvPoll? {
      PollStartsClaim(p, e.host, e.mutationBusy);
    }
  }

  /**
   Recovery fails exactly the running runs without a sign of life in the last three minutes, one without any counting
   from zero, and changes nothing else.
   */
  lemma RecoveryFailsSilentRuns(p: Plane, heartbeat: map<RunId, int>, now: int, r: RunId)
    requires r < |p.runs|
    ensures var q := Step(p, EvRecover(heartbeat, now));
            var silent := now - (if r in heartbeat then heartbeat[r] else 0) > 180000;
            && |q.runs| == |p.runs| && q.queue == p.queue && q.batches == p.batches && q.aborted == p.aborted
            && q.runs[r] == (if p.runs[r].status == Running && silent then p.runs[r].(status := Failed, stale := true)
                             else p.runs[r])
  {
  }

  // ---------- The outcome of a batch ----------

  lemma {:induction false} CountPositive(runs: seq<Run>, n: nat, id: BatchId, column: Column)
    requires n <= |runs|
    ensures CountUpTo(runs, n, id, column) > 0 <==> exists r :: 0 <= r < n && InColumn(runs[r], id, column)
  {
    if n > 0 {
      CountPositive(runs, n - 1, id, column);
    }
  }

  ghost predicate SomeRun(p: Plane, id: BatchId, column: Column) {
    exists r :: 0 <= r < |p.runs| && InColumn(p.runs[r], id, column)
  }

  /**
   A batch nobody cancelled is in progress exactly while a run is pending, running or was released as
   stale; otherwise it completed, with failures exactly if a run reported failure.
   */
  lemma BatchOutcome(p: Plane, id: BatchId)
    requires Inv(p) && id < |p.batches| && id !in p.aborted
    ensures p.batches[id].status == InProgress <==> SomeRun(p, id, PendingColumn) || SomeRun(p, id, RunningColumn)
    ensures p.batches[id].status == CompletedWithFailures <==>
              p.batches[id].status != InProgress && SomeRun(p, id, FailedColumn)
  {
    assert CountersMatch(p, id) && StatusMatches(p.batches[id], false);
    assert Counter(p.batches[id], PendingColumn) == Count(p.runs, id, PendingColumn);
    assert Counter(p.batches[id], RunningColumn) == Count(p.runs, id, RunningColumn);
    assert Counter(p.batches[id], FailedColumn) == Count(p.runs, id, FailedColumn);
    CountPositive(p.runs, |p.runs|, id, PendingColumn);
    CountPositive(p.runs, |p.runs|, id, RunningColumn);
    CountPositive(p.runs, |p.runs|, id, FailedColumn);
  }

  /** Without stale runs the status says whether some run is unfinished, and whether some run failed. */
  lemma BatchOutcomeWithoutStaleRuns(p: Plane, id: BatchId)
    requires Inv(p) && id < |p.batches| && id !in p.aborted
    requires forall r :: 0 <= r < |p.runs| && p.runs[r].batch == Some(id) ==> !p.runs[r].stale
    ensures p.batches[id].status == InProgress <==>
              exists r :: 0 <= r < |p.runs| && p.runs[r].batch == Some(id)
                  && (p.runs[r].status == Pending || p.runs[r].status == Running)
    ensures p.batches[id].status != InProgress ==>
              (p.batches[id].status == CompletedWithFailures <==>
                 exists r :: 0 <= r < |p.runs| && p.runs[r].batch == Some(id) && p.runs[r].status == Failed)
  {
    BatchOutcome(p, id);
    if r :| 0 <= r < |p.runs| && p.runs[r].batch == Some(id)
            && (p.runs[r].status == Pending || p.runs[r].status == Running) {
      assert InColumn(p.runs[r], id, PendingColumn) || InColumn(p.runs[r], id, RunningColumn);
    }
    if r :| 0 <= r < |p.runs| && p.runs[r].batch == Some(id) && p.runs[r].status == Failed {
      assert InColumn(p.runs[r], id, FailedColumn);
    }
  }

  /**
   A batch whose runs have all finished still shows as in progress if and only if one of them was
   released as stale: that failure is never counted.
   */
  lemma FinishedBatchStuckIffStale(p: Plane, id: BatchId)
    requires Inv(p) && id < |p.batches| && id !in p.aborted
    requires forall r :: 0 <= r < |p.runs| && p.runs[r].batch == Some(id) ==>
             p.runs[r].status != Pending && p.runs[r].status != Running
    ensures p.batches[id].status == InProgress <==>
              exists r :: 0 <= r < |p.runs| && p.runs[r].batch == Some(id) && p.runs[r].stale
  {
    BatchOutcome(p, id);
    if r :| 0 <= r < |p.runs| && p.runs[r].batch == Some(id) && p.runs[r].stale {
      assert InColumn(p.runs[r], id, RunningColumn);
    }
  }

  /** One stale run keeps its batch in progress through every further run of the system, until somebody cancels it. */
  lemma {:induction false} StaleRunKeepsBatchOpen(p: Plane, events: seq<Event>, r: RunId, id: BatchId)
    requires Inv(p) && r < |p.runs| && p.runs[r].stale && p.runs[r].batch == Some(id)
    requires id !in RunEvents(p, events).aborted
    ensures id < |RunEvents(p, events).batches| && RunEvents(p, events).batches[id].status == InProgress
    decreases |events|
  {
    if events == [] {
      BatchOutcome(p, id);
      assert InColumn(p.runs[r], id, RunningColumn);
    } else {
      StepKeepsInv(p, events[0]);
      StatusMovesForward(p, events[0], r);
      StaleStaysStale(p, events[0], r);
      StaleRunKeepsBatchOpen(Step(p, events[0]), events[1..], r, id);
    }
  }

  lemma StaleStaysStale(p: Plane, e: Event, r: RunId)
    requires Inv(p) && r < |p.runs| && p.runs[r].stale
    ensures r < |Step(p, e).runs| && Step(p, e).runs[r] == p.runs[r]
  {
    if e.EvPoll? {
      PollStartsClaim(p, e.host, e.mutationBusy);
    }
  }

  /** The agent's late result for a stale run is refused. */
  lemma LateResultRefused(p: Plane, host: HostId, r: RunId, ok: bool)
    requires Inv(p) && r < |p.runs| && p.runs[r].stale && p.runs[r].hostId == host
    ensures ReportOutcomeOf(p, host, r) == NotRunning && Report(p, host, r, ok) == p
  {
  }

  /** A cancelled batch keeps that status until its last running run reports, which overwrites it. */
  lemma CancelledUntilLastReport(p: Plane, host: HostId, r: RunId, ok: bool, id: BatchId)
    requires Inv(p) && id < |p.batches| && p.batches[id].status == Aborted
    requires ReportOutcomeOf(p, host, r) == Accepted && p.runs[r].batch == Some(id)
    ensures var b := Report(p, host, r, ok).batches[id];
            if p.batches[id].running > 1 then b.status == Aborted
            else b.status == if p.batches[id].failed > 0 || !ok then CompletedWithFailures else Completed
  {
    assert CountersMatch(p, id) && StatusMatches(p.batches[id], id in p.aborted);
    assert Counter(p.batches[id], RunningColumn) == Count(p.runs, id, RunningColumn);
    assert InColumn(p.runs[r], id, RunningColumn);
    CountPositive(p.runs, |p.runs|, id, RunningColumn);
    assert Counter(p.batches[id], FailedColumn) == Count(p.runs, id, FailedColumn);
  }

  /** What a step does to a cancelled batch: with no run left running nothing, and the last report ends the status. */
  lemma StepOfCancelled(p: Plane, e: Event, id: BatchId)
    requires Inv(p) && id < |p.batches| && id in p.aborted
    ensures Inv(Step(p, e)) && id < |Step(p, e).batches| && id in Step(p, e).aborted
    ensures var b, c := p.batches[id], Step(p, e).batches[id];
            && 0 <= c.running <= b.running
            && (b.running == 0 ==> c == b)
            && (c.running > 0 ==> c.status == Aborted)
            && (b.running > 0 && c.running == 0 ==> c.status != Aborted)
  {
    StepKeepsInv(p, e);
    CancelledCounters(p, id);
    CancelledCounters(Step(p, e), id);
    if e.EvPoll? {
      PollStartsClaim(p, e.host, e.mutationBusy);
      NoPendingRun(p, id);
    }
  }

  lemma NoPendingRun(p: Plane, id: BatchId)
    requires Inv(p) && id < |p.batches| && id in p.aborted
    ensures forall r :: 0 <= r < |p.runs| && p.runs[r].batch == Some(id) ==> p.runs[r].status != Pending
  {
    CancelledCounters(p, id);
    CountPositive(p.runs, |p.runs|, id, PendingColumn);
    forall r | 0 <= r < |p.runs| && p.runs[r].batch == Some(id) ensures p.runs[r].status != Pending {
      assert !InColumn(p.runs[r], id, PendingColumn);
    }
  }

  lemma CancelledCounters(p: Plane, id: BatchId)
    requires Inv(p) && id < |p.batches| && id in p.aborted
    ensures p.batches[id].pending == Count(p.runs, id, PendingColumn) == 0
    ensures p.batches[id].running == Count(p.runs, id, RunningColumn)
    ensures p.batches[id].running > 0 ==> p.batches[id].status == Aborted
    ensures p.batches[id].running > 0 <==> SomeRun(p, id, RunningColumn)
  {
    assert CountersMatch(p, id) && StatusMatches(p.batches[id], true);
    assert Counter(p.batches[id], PendingColumn) == Count(p.runs, id, PendingColumn);
    assert Counter(p.batches[id], RunningColumn) == Count(p.runs, id, RunningColumn);
    CountPositive(p.runs, |p.runs|, id, RunningColumn);
  }

  lemma {:induction false} CancelledUntilNoneRuns(p: Plane, events: seq<Event>, id: BatchId)
    requires Inv(p) && id < |p.batches| && id in p.aborted
    ensures var q := RunEvents(p, events);
            && Inv(q) && id < |q.batches| && id in q.aborted
            && 0 <= q.batches[id].running <= p.batches[id].running
            && (p.batches[id].running == 0 ==> q.batches[id] == p.batches[id])
            && (q.batches[id].running > 0 ==> q.batches[id].status == Aborted)
            && (p.batches[id].running > 0 && q.batches[id].running == 0 ==> q.batches[id].status != Aborted)
    decreases |events|
  {
    CancelledCounters(p, id);
    if events != [] {
      StepOfCancelled(p, events[0], id);
      CancelledUntilNoneRuns(Step(p, events[0]), events[1..], id);
    }
  }

  /**
   However the system runs on after a cancellation: the batch has lost its cancelled status if and only if some run of
   it was running when it was cancelled and none is running any more, a stale one counting as running.
   */
  lemma CancelledStatusLostIff(p: Plane, id: BatchId, events: seq<Event>)
    requires Inv(p) && CancelOutcomeOf(p, id) == CancelAccepted
    ensures var q := RunEvents(CancelBatch(p, id), events);
            && id < |q.batches|
            && (q.batches[id].status != Aborted <==> SomeRun(p, id, RunningColumn) && !SomeRun(q, id, RunningColumn))
  {
    StepKeepsInv(p, EvCancel(id));
    var cancelled := CancelBatch(p, id);
    CancelledUntilNoneRuns(cancelled, events, id);
    CancelledCounters(cancelled, id);
    CancelledCounters(RunEvents(cancelled, events), id);
    CancellingKeepsRunning(p, id);
  }

  lemma CancellingKeepsRunning(p: Plane, id: BatchId)
    ensures SomeRun(CancelBatch(p, id), id, RunningColumn) <==> SomeRun(p, id, RunningColumn)
  {
    var q := CancelBatch(p, id);
    if r :| 0 <= r < |p.runs| && InColumn(p.runs[r], id, RunningColumn) {
      assert InColumn(q.runs[r], id, RunningColumn);
    }
    if r :| 0 <= r < |q.runs| && InColumn(q.runs[r], id, RunningColumn) {
      assert InColumn(p.runs[r], id, RunningColumn);
    }
  }

  // ---------- Two runs of the system ----------

  function OneRun(host: HostId, jobType: string, status: RunStatus, stale: bool): seq<Run> {
    [Run(status, host, jobType, Some(0), stale)]
  }

  /** A batch of one job is created and its job polled. */
  lemma CreatedAndPolled(host: HostId, jobType: string, rest: seq<Event>)
    ensures RunEvents(EMPTY, [EvCreateBatch([Request(host, jobType)]), EvPoll(host, false)] + rest) ==
            RunEvents(Plane([], OneRun(host, jobType, Running, false), [Batch(InProgress, 1, 0, 1, 0, 0, 0)], {}), rest)
  {
    var create, poll := EvCreateBatch([Request(host, jobType)]), EvPoll(host, false);
    var events, job := [create, poll] + rest, QueueJob(0, host, jobType);
    var created := Plane([job], OneRun(host, jobType, Pending, false), [Batch(InProgress, 1, 1, 0, 0, 0, 0)], {});
    assert Step(EMPTY, create) == created;
    assert events[1..] == [poll] + rest && ([poll] + rest)[1..] == rest;
    PolledOnce(host, jobType);
    assert RunEvents(EMPTY, events) == RunEvents(created, [poll] + rest) == RunEvents(Step(created, poll), rest);
  }

  lemma PolledOnce(host: HostId, jobType: string)
    ensures Step(Plane([QueueJob(0, host, jobType)], OneRun(host, jobType, Pending, false),
                       [Batch(InProgress, 1, 1, 0, 0, 0, 0)], {}), EvPoll(host, false)) ==
            Plane([], OneRun(host, jobType, Running, false), [Batch(InProgress, 1, 0, 1, 0, 0, 0)], {})
  {
    var queue := [QueueJob(0, host, jobType)];
    assert ClaimIndex(queue, host, false, 0) == 0 && RemoveAt(queue, 0) == [];
  }

  lemma OneEvent(p: Plane, e: Event)
    ensures RunEvents(p, [e]) == Step(p, e)
  {
    assert [e][1..] == [];
  }

  /** The only run of a batch goes stale: it has finished, and the batch shows as in progress. */
  lemma StuckBatchIsReached(host: HostId, jobType: string) returns (events: seq<Event>)
    ensures var p := RunEvents(EMPTY, events);
            |p.runs| == |p.batches| == 1 && p.runs[0].status == Failed && p.batches[0].status == InProgress
  {
    var recover := EvRecover(map[], STALE_AFTER + 1);
    events := [EvCreateBatch([Request(host, jobType)]), EvPoll(host, false)] + [recover];
    CreatedAndPolled(host, jobType, [recover]);
    OneEvent(Plane([], OneRun(host, jobType, Running, false), [Batch(InProgress, 1, 0, 1, 0, 0, 0)], {}), recover);
  }

  /** A batch is cancelled while its only run is running, and ends as completed. */
  lemma CancelledBatchCompletes(host: HostId, jobType: string) returns (events: seq<Event>)
    ensures EvCancel(0) in events
    ensures var p := RunEvents(EMPTY, events); |p.batches| == 1 && p.aborted == {0} && p.batches[0].status == Completed
  {
    var cancel, report := EvCancel(0), EvReport(host, 0, true);
    events := [EvCreateBatch([Request(host, jobType)]), EvPoll(host, false)] + [cancel, report];
    CreatedAndPolled(host, jobType, [cancel, report]);
    var runs := OneRun(host, jobType, Running, false);
    var polled := Plane([], runs, [Batch(InProgress, 1, 0, 1, 0, 0, 0)], {});
    var cancelled := Plane([], runs, [Batch(Aborted, 1, 0, 1, 0, 0, 0)], {0});
    NothingDropped(host, jobType);
    assert [cancel, report][1..] == [report];
    OneEvent(cancelled, report);
    assert RunEvents(polled, [cancel, report]) == RunEvents(cancelled, [report]);
  }

  lemma NothingDropped(host: HostId, jobType: string)
    ensures var runs := OneRun(host, jobType, Running, false);
            Step(Plane([], runs, [Batch(InProgress, 1, 0, 1, 0, 0, 0)], {}), EvCancel(0)) ==
            Plane([], runs, [Batch(Aborted, 1, 0, 1, 0, 0, 0)], {0})
  {
    var runs := OneRun(host, jobType, Running, false);
    assert AllDropped(runs, 0) == runs;
    NoMembersLeft(runs);
  }

  lemma NoMembersLeft(runs: seq<Run>)
    requires |runs| == 1 && runs[0].status != Pending
    ensures Count(runs, 0, PendingColumn) == 0
  {
    CountPositive(runs, 1, 0, PendingColumn);
  }

  // ---------- The services ----------

  lemma AddRunsAppend(p: Plane, requests: seq<Request>, last: Request, batch: Option<BatchId>)
    ensures AddRuns(AddRuns(p, requests, batch), [last], batch) == AddRuns(p, requests + [last], batch)
  {
    assert NewRuns(requests + [last], batch) == NewRuns(requests, batch) + NewRuns([last], batch);
    assert NewJobs(|p.runs|, requests + [last]) == NewJobs(|p.runs|, requests) + NewJobs(|p.runs| + |requests|, [last]);
  }

  /** Dropping runs one after the other leaves the queue that dropping them at once would leave. */
  lemma {:induction false} KeptStep(queue: seq<QueueJob>, runs: seq<Run>, r: nat, id: BatchId)
    requires r < |runs|
    ensures Kept(queue, runs, r + 1, id) ==
              if Droppable(runs[r], id) then WithoutRun(Kept(queue, runs, r, id), r) else Kept(queue, runs, r, id)
  {
    if queue != [] {
      KeptStep(queue[1..], runs, r, id);
      WithoutRunHead(queue[0], Kept(queue[1..], runs, r, id), r);
    }
  }

  lemma WithoutRunHead(job: QueueJob, rest: seq<QueueJob>, r: RunId)
    ensures WithoutRun([job] + rest, r) == if job.runId == r then WithoutRun(rest, r) else [job] + WithoutRun(rest, r)
  {
    assert ([job] + rest)[1..] == rest;
  }

  lemma {:induction false} KeptNothing(queue: seq<QueueJob>, runs: seq<Run>, id: BatchId)
    ensures Kept(queue, runs, 0, id) == queue
  {
    if queue != [] {
      KeptNothing(queue[1..], runs, id);
    }
  }

  lemma KeptIsDistinct(queue: seq<QueueJob>, runs: seq<Run>, n: nat, id: BatchId)
    requires DistinctRuns(queue) && n <= |runs|
    ensures DistinctRuns(Kept(queue, runs, n, id))
  {
    KeptQueue(queue, runs, n, id);
  }

  /** The handlers of the jobs and batches services, over one queue and two tables. */
  class Services {
    const queue: JobsQueue
    var runs: seq<Run>
    var batches: seq<Batch>
    ghost var aborted: set<BatchId>

    ghost function State(): Plane
      reads this, queue
    {
      Plane(queue.waiting, runs, batches, aborted)
    }

    constructor ()
      ensures fresh(queue) && State() == EMPTY
    {
      queue := new JobsQueue();
      runs, batches, aborted := [], [], {};
    }

    /** A pending run and its queue entry. */
    method AddRun(request: Request, batch: Option<BatchId>)
      requires QueueMatches(State())
      modifies this`runs, queue
      ensures State() == AddRuns(old(State()), [request], batch) && QueueMatches(State())
    {
      ghost var before := State();
      AddOneRun(before, request, batch);
      var id := |runs|;
      runs := runs + [Run(Pending, request.hostId, request.jobType, batch, false)];
      queue.AddJob(QueueJob(id, request.hostId, request.jobType));
    }

    method CreateJob(request: Request)
      requires Inv(State())
      modifies this, queue
      ensures State() == Step(old(State()), EvCreate(request)) && Inv(State())
    {
      StepKeepsInv(State(), EvCreate(request));
      AddRun(request, None);
    }

    /** One job, run and queue entry for every server of the batch. */
    method CreateBatch(requests: seq<Request>) returns (created: bool)
      requires Inv(State())
      modifies this, queue
      ensures created <==> requests != []
      ensures State() == Step(old(State()), EvCreateBatch(requests)) && Inv(State())
    {
      StepKeepsInv(State(), EvCreateBatch(requests));
      if requests == [] {
        return false;
      }
      var id := |batches|;
      batches := batches + [Batch(InProgress, |requests|, |requests|, 0, 0, 0, 0)];
      ghost var start := State();
      var k := 0;
      assert AddRuns(start, [], Some(id)) == start;
      while k < |requests|
        invariant 0 <= k <= |requests|
        invariant State() == AddRuns(start, requests[..k], Some(id)) && QueueMatches(State())
      {
        AddRunsAppend(start, requests[..k], requests[k], Some(id));
        assert requests[..k] + [requests[k]] == requests[..k + 1];
        AddRun(requests[k], Some(id));
        k := k + 1;
      }
      assert requests[..k] == requests;
      return true;
    }

    method RecordJobRunStarted(batch: Option<BatchId>)
      modifies this`batches
      ensures batches == BatchStarted(old(batches), batch)
    {
      if batch.Some? && batch.value < |batches| {
        var b := batches[batch.value];
        batches := batches[batch.value := b.(pending := b.pending - 1, running := b.running + 1)];
      }
    }

    /** Called with the prior status running only, as the callers do. */
    method RecordJobRunCompleted(batch: Option<BatchId>, ok: bool)
      modifies this`batches
      ensures batches == BatchCompleted(old(batches), batch, ok)
    {
      if batch.Some? && batch.value < |batches| {
        var b := batches[batch.value];
        if ok {
          b := b.(success := b.success + 1);
        } else {
          b := b.(failed := b.failed + 1);
        }
        b := b.(running := b.running - 1);
        if b.pending <= 0 && b.running <= 0 {
          b := b.(status := if b.failed > 0 then CompletedWithFailures else Completed);
        }
        batches := batches[batch.value := b];
      }
    }

    method MarkJobRunStarted(host: HostId, r: RunId)
      modifies this`runs, this`batches
      ensures State() == MarkStarted(old(State()), host, r)
    {
      if r >= |runs| || runs[r].hostId != host {
        return;
      }
      if runs[r].status != Pending {
        return;
      }
      var batch := runs[r].batch;
      runs := runs[r := runs[r].(status := Running)];
      RecordJobRunStarted(batch);
    }

    /** An agent's poll: claim from the queue, then mark the run started. */
    method HandlePoll(host: HostId, mutationBusy: bool) returns (job: Option<QueueJob>)
      requires Inv(State())
      modifies this, queue
      ensures job == Claimed(old(State()).queue, host, mutationBusy)
      ensures State() == Step(old(State()), EvPoll(host, mutationBusy)) && Inv(State())
    {
      StepKeepsInv(State(), EvPoll(host, mutationBusy));
      job := queue.GetNextJobForHost(host, mutationBusy);
      match job {
        case None =>
        case Some(claimed) => MarkJobRunStarted(host, claimed.runId);
      }
    }

    method ReportJobResult(host: HostId, r: RunId, ok: bool) returns (outcome: ReportOutcome)
      requires Inv(State())
      modifies this
      ensures outcome == ReportOutcomeOf(old(State()), host, r)
      ensures State() == Step(old(State()), EvReport(host, r, ok)) && Inv(State())
    {
      StepKeepsInv(State(), EvReport(host, r, ok));
      if r >= |runs| {
        return NotFound;
      }
      if runs[r].hostId != host {
        return WrongHost;
      }
      if runs[r].status != Running {
        return NotRunning;
      }
      var batch := runs[r].batch;
      runs := runs[r := runs[r].(status := if ok then Success else Failed)];
      RecordJobRunCompleted(batch, ok);
      return Accepted;
    }

    method FailStaleRunningJobs(heartbeat: map<RunId, int>, now: int)
      requires Inv(State())
      modifies this
      ensures State() == Step(old(State()), EvRecover(heartbeat, now)) && Inv(State())
    {
      ghost var before := State();
      StepKeepsInv(before, EvRecover(heartbeat, now));
      var cutoff := now - STALE_AFTER;
      var r := 0;
      while r < |runs|
        invariant 0 <= r <= |runs| == |before.runs|
        invariant batches == before.batches && aborted == before.aborted
        invariant forall k :: 0 <= k < r ==> runs[k] == Released(before.runs[k], HeartbeatOf(heartbeat, k), now)
        invariant forall k :: r <= k < |runs| ==> runs[k] == before.runs[k]
      {
        if runs[r].status == Running {
          var last := if r in heartbeat then heartbeat[r] else 0;
          if last < cutoff {
            runs := runs[r := runs[r].(status := Failed, stale := true)];
          }
        }
        r := r + 1;
      }
      assert runs == FailStale(before, heartbeat, now).runs;
    }

    method CancelBatch(id: BatchId) returns (outcome: CancelOutcome)
      requires Inv(State())
      modifies this, queue
      ensures outcome == CancelOutcomeOf(old(State()), id)
      ensures State() == Step(old(State()), EvCancel(id)) && Inv(State())
    {
      ghost var before := State();
      StepKeepsInv(before, EvCancel(id));
      if id >= |batches| {
        return NoSuchBatch;
      }
      if batches[id].status != InProgress {
        return BatchNotRunning;
      }
      var cancelled := CancelRuns(id);
      var b := batches[id];
      batches := batches[id := b.(status := Aborted, pending := b.pending - cancelled,
          cancelled := b.cancelled + cancelled)];
      aborted := aborted + {id};
      return CancelAccepted;
    }

    method DropRun(r: RunId)
      requires r < |runs| && DistinctRuns(queue.waiting)
      modifies this`runs, queue
      ensures runs == old(runs)[r := old(runs)[r].(status := Cancelled)]
      ensures queue.waiting == WithoutRun(old(queue.waiting), r)
    {
      runs := runs[r := runs[r].(status := Cancelled)];
      queue.Remove(r);
    }

    /** Marks the pending runs of a batch cancelled, takes them out of the queue and counts them. */
    method CancelRuns(id: BatchId) returns (cancelled: nat)
      requires DistinctRuns(queue.waiting)
      modifies this`runs, queue
      ensures cancelled == Count(old(runs), id, PendingColumn)
      ensures runs == AllDropped(old(runs), id)
      ensures queue.waiting == Kept(old(queue.waiting), old(runs), |old(runs)|, id)
    {
      ghost var runs0, queue0 := runs, queue.waiting;
      cancelled := 0;
      var r := 0;
      KeptNothing(queue0, runs0, id);
      while r < |runs|
        invariant 0 <= r <= |runs| == |runs0|
        invariant forall k :: 0 <= k < |runs| ==> runs[k] == if k < r then Dropped(runs0[k], id) else runs0[k]
        invariant queue.waiting == Kept(queue0, runs0, r, id)
        invariant cancelled == CountUpTo(runs0, r, id, PendingColumn)
      {
        KeptStep(queue0, runs0, r, id);
        KeptIsDistinct(queue0, runs0, r, id);
        if runs[r].batch == Some(id) && runs[r].status == Pending {
          DropRun(r);
          cancelled := cancelled + 1;
        }
        r := r + 1;
      }
    }
  }
}
