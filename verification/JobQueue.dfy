/**
 The waiting queue of an organisation and the claim made by an agent's poll.

 Queue entries are claimed by removing them: a claimed job exists only at the agent that took it.
 An agent that is executing a mutation reports itself busy and may then claim audited read-only
 jobs only.
 */
module JobQueue {
  import opened Wrappers

  type RunId = nat
  type HostId = nat

  datatype QueueJob = QueueJob(runId: RunId, hostId: HostId, jobType: string)

  /** How many queue entries one poll inspects. */
  const CLAIM_WINDOW := 500

  /** The control plane's read-only allowlist. */
  const READ_ONLY_TYPES := [
    "MOD_LIST", "MOD_QUARANTINE_LIST", "MOD_CONFIG_READ", "PROFILE_LIST",
    "PROFILE_READ", "PLAYER_LIST_SYNC", "PLAYER_ADMIN_LIST", "SAVE_LIST"
  ]

  predicate QueueReadOnly(jobType: string) {
    jobType in READ_ONLY_TYPES
  }

  /** The agent's own switch over job types. */
  predicate AgentReadOnly(jobType: string) {
    match jobType
    case "MOD_LIST" => true
    case "MOD_QUARANTINE_LIST" => true
    case "MOD_CONFIG_READ" => true
    case "PROFILE_LIST" => true
    case "PROFILE_READ" => true
    case "PLAYER_LIST_SYNC" => true
    case "PLAYER_ADMIN_LIST" => true
    case "SAVE_LIST" => true
    case _ => false
  }

  /** The two components classify every job type alike. */
  lemma AllowlistsAgree(jobType: string)
    ensures AgentReadOnly(jobType) <==> QueueReadOnly(jobType)
  {
    var types := READ_ONLY_TYPES;
    assert types[0] == "MOD_LIST" && types[1] == "MOD_QUARANTINE_LIST" && types[2] == "MOD_CONFIG_READ";
    assert types[3] == "PROFILE_LIST" && types[4] == "PROFILE_READ" && types[5] == "PLAYER_LIST_SYNC";
    assert types[6] == "PLAYER_ADMIN_LIST" && types[7] == "SAVE_LIST";
  }

  predicate Eligible(job: QueueJob, host: HostId, mutationBusy: bool) {
    job.hostId == host && (mutationBusy ==> QueueReadOnly(job.jobType))
  }

  function Window(waiting: seq<QueueJob>): nat {
    if |waiting| < CLAIM_WINDOW then |waiting| else CLAIM_WINDOW
  }

  /** The first eligible entry at or after k, or the end of the inspected window. */
  function ClaimIndex(waiting: seq<QueueJob>, host: HostId, mutationBusy: bool, k: nat): (r: nat)
    requires k <= Window(waiting)
    ensures k <= r <= Window(waiting)
    ensures r < Window(waiting) ==> Eligible(waiting[r], host, mutationBusy)
    ensures forall j :: k <= j < r ==> !Eligible(waiting[j], host, mutationBusy)
    decreases Window(waiting) - k
  {
    if k == Window(waiting) || Eligible(waiting[k], host, mutationBusy) then k
    else ClaimIndex(waiting, host, mutationBusy, k + 1)
  }

  function Claimed(waiting: seq<QueueJob>, host: HostId, mutationBusy: bool): Option<QueueJob> {
    var k := ClaimIndex(waiting, host, mutationBusy, 0);
    if k < Window(waiting) then Some(waiting[k]) else None
  }

  function AfterClaim(waiting: seq<QueueJob>, host: HostId, mutationBusy: bool): seq<QueueJob> {
    var k := ClaimIndex(waiting, host, mutationBusy, 0);
    if k < Window(waiting) then RemoveAt(waiting, k) else waiting
  }

  predicate Queued(waiting: seq<QueueJob>, runId: RunId) {
    exists k :: 0 <= k < |waiting| && waiting[k].runId == runId
  }

  predicate DistinctRuns(waiting: seq<QueueJob>) {
    forall i, j :: 0 <= i < j < |waiting| ==> waiting[i].runId != waiting[j].runId
  }

  function RemoveAt(waiting: seq<QueueJob>, k: nat): seq<QueueJob>
    requires k < |waiting|
  {
    waiting[..k] + waiting[k + 1..]
  }

  lemma RemoveAtKeepsOthers(waiting: seq<QueueJob>, k: nat, r: RunId)
    requires DistinctRuns(waiting) && k < |waiting|
    ensures Queued(RemoveAt(waiting, k), r) <==> Queued(waiting, r) && r != waiting[k].runId
  {
    if Queued(waiting, r) && r != waiting[k].runId {
      var i :| 0 <= i < |waiting| && waiting[i].runId == r;
      assert RemoveAt(waiting, k)[if i < k then i else i - 1] == waiting[i];
    }
  }

  /** A claim takes exactly one run out of the queue and nothing else. */
  lemma ClaimRemovesOneRun(waiting: seq<QueueJob>, host: HostId, mutationBusy: bool, job: QueueJob)
    requires DistinctRuns(waiting)
    requires Claimed(waiting, host, mutationBusy) == Some(job)
    ensures job in waiting && Eligible(job, host, mutationBusy)
    ensures var left := AfterClaim(waiting, host, mutationBusy);
            && DistinctRuns(left)
            && (forall other :: other in left ==> other in waiting)
            && (forall r: RunId :: Queued(left, r) <==> Queued(waiting, r) && r != job.runId)
  {
    var k := ClaimIndex(waiting, host, mutationBusy, 0);
    assert AfterClaim(waiting, host, mutationBusy) == RemoveAt(waiting, k);
    forall r: RunId
      ensures Queued(RemoveAt(waiting, k), r) <==> Queued(waiting, r) && r != job.runId
    {
      RemoveAtKeepsOthers(waiting, k, r);
    }
  }

  /** An agent may take an entry of its own host, and while it is busy only one of the audited read-only types. */
  predicate MayTake(job: QueueJob, host: HostId, mutationBusy: bool) {
    && job.hostId == host
    && (mutationBusy ==> AgentReadOnly(job.jobType))
  }

  /** A poll is answered with the first entry of the first 500 that the agent may take, if there is one. */
  lemma ClaimIsFirstAllowed(waiting: seq<QueueJob>, host: HostId, mutationBusy: bool)
    ensures match Claimed(waiting, host, mutationBusy)
            case Some(job) =>
              exists k :: 0 <= k < |waiting| && k < 500 && waiting[k] == job && MayTake(job, host, mutationBusy)
                          && forall j :: 0 <= j < k ==> !MayTake(waiting[j], host, mutationBusy)
            case None => forall j :: 0 <= j < |waiting| && j < 500 ==> !MayTake(waiting[j], host, mutationBusy)
  {
    forall job: QueueJob ensures MayTake(job, host, mutationBusy) <==> Eligible(job, host, mutationBusy) {
      AllowlistsAgree(job.jobType);
    }
  }

  function WithoutRun(waiting: seq<QueueJob>, r: RunId): seq<QueueJob> {
    if waiting == [] then []
    else (if waiting[0].runId == r then [] else [waiting[0]]) + WithoutRun(waiting[1..], r)
  }

  /** Taking one entry out of a queue with distinct runs takes that run out. */
  lemma {:induction false} RemoveAtIsWithoutRun(waiting: seq<QueueJob>, k: nat)
    requires DistinctRuns(waiting) && k < |waiting|
    ensures RemoveAt(waiting, k) == WithoutRun(waiting, waiting[k].runId)
  {
    if k == 0 {
      WithoutAbsentRun(waiting[1..], waiting[0].runId);
    } else {
      RemoveAtIsWithoutRun(waiting[1..], k - 1);
      assert RemoveAt(waiting, k) == [waiting[0]] + RemoveAt(waiting[1..], k - 1);
    }
  }

  lemma {:induction false} WithoutAbsentRun(waiting: seq<QueueJob>, r: RunId)
    requires forall k :: 0 <= k < |waiting| ==> waiting[k].runId != r
    ensures WithoutRun(waiting, r) == waiting
  {
    if waiting != [] {
      WithoutAbsentRun(waiting[1..], r);
    }
  }

  class JobsQueue {
    var waiting: seq<QueueJob>

    constructor ()
      ensures waiting == []
    {
      waiting := [];
    }

    /** Adding is idempotent per run: the run id is the queue's own job id. */
    method AddJob(job: QueueJob)
      modifies this
      ensures waiting == if Queued(old(waiting), job.runId) then old(waiting) else old(waiting) + [job]
      ensures DistinctRuns(old(waiting)) ==> DistinctRuns(waiting)
    {
      if !Queued(waiting, job.runId) {
        waiting := waiting + [job];
      }
    }

    /** Claims the first eligible entry among the first 500 by removing it. */
    method GetNextJobForHost(host: HostId, mutationBusy: bool) returns (job: Option<QueueJob>)
      modifies this
      ensures job == Claimed(old(waiting), host, mutationBusy)
      ensures waiting == AfterClaim(old(waiting), host, mutationBusy)
    {
      var inspected := waiting[..Window(waiting)];
      var k := 0;
      while k < |inspected|
        invariant 0 <= k <= |inspected|
        invariant waiting == old(waiting)
        invariant ClaimIndex(waiting, host, mutationBusy, 0) == ClaimIndex(waiting, host, mutationBusy, k)
      {
        var candidate := inspected[k];
        if candidate.hostId == host {
          if !(mutationBusy && !QueueReadOnly(candidate.jobType)) {
            waiting := RemoveAt(waiting, k);
            return Some(candidate);
          }
        }
        k := k + 1;
      }
      return None;
    }

    /** Removing a run that is not queued any more is no error. */
    method Remove(r: RunId)
      requires DistinctRuns(waiting)
      modifies this
      ensures waiting == WithoutRun(old(waiting), r)
    {
      var k := 0;
      while k < |waiting|
        invariant 0 <= k <= |waiting|
        invariant waiting == old(waiting)
        invariant forall j :: 0 <= j < k ==> waiting[j].runId != r
      {
        if waiting[k].runId == r {
          RemoveAtIsWithoutRun(waiting, k);
          waiting := RemoveAt(waiting, k);
          return;
        }
        k := k + 1;
      }
      WithoutAbsentRun(waiting, r);
    }
  }
}
