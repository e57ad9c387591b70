# Verification of the server panel

A Dafny model of the parts of a game-server panel that carry real algorithms and protocols, with proofs
about every input, every run and every interleaving. The panel consists of an agent on each game host, a
control plane that queues jobs, keeps batches, players and schedules, and a web interface.

`dafny verify dfyconfig.toml` checks the whole project. Each database or queue handler is one atomic step,
tables are sequences or maps, and calls that may fail are parameters.

- **Line diff** (`LineDiff`): the table of the mod editor's comparison and its greedy walk, proved optimal
  against every edit script and every common subsequence.
- **Job claims** (`JobQueue`, `ControlPlane`, `Dispatch`): the queue filter, the state machine of runs, the
  counters of batches, and every interleaving of the agent's poll loop and workers with the control plane.
- **Logs** (`LogTail`, `LogCuts`, `LogLatency`, `LogStream`, `LogPipeline`, `KeywordScan`): the tailer under
  failures, truncation and rotation, what becomes of every byte and how long it waits, the line buffers and keyword
  scanner, each against a specification of the whole stream of every server, and the way from the file to the lines.
- **Players** (`PlayerLedger`): online state, sessions and playtime under player lists, log lines and merges.
- **Schedules** (`Calendar`, `Cron`, `CronReach`, `ExecutionWindow`, `BackupInterval`, `Scheduler`,
  `ScheduleEffects`, `ScheduleChain`, `ScheduleOverlap`): the search for the next run and which expressions always
  have one, execution windows, the intervals of automatic backups, what changes and fires do, and the chain of fires
  with its overlap check.
- **File transactions** (`ProfileInstall`, `ModArchive`): installing player profiles with a stop at any point,
  and finding and extracting the mods of an uploaded archive.
- **Small protocols** (`RateLimit`, `AlertDedup`, `Rcon`): a fixed-window limiter, a pruned cache and a packet
  format.

`Wrappers`, `Text` and `Modulo` hold what several modules share. Where the source updates fields or fills
buffers, a class or an imperative method does the same and is proved equal to a specification function; the
properties are then proved of that function over all runs.

## Properties the code does not have

Each of these has a theorem with the exact condition under which the expected property holds, or with the
family of inputs for which it fails.

- The tailer can lose bytes of a rotated log in three ways, and the stream is complete exactly if none of them
  happens (`LogTail.OrderlyRunDeliversStream`): what is pending or unread of a file it leaves exceeds one batch, the
  file grows after it was left, or the log is rotated again before its file was opened
  (`LogTail.NamesAreOpenedIff`, `LogTail.RotatedFileIsNeverOpened`).
- A log that is cut in place is read again only if a wake-up finds it shorter than what was read; if it has grown
  past that point by then its beginning is missed, and if it is replaced while bytes are pending all of it is. These
  are among the losses that `LogCuts.EveryGenerationIsAccountedFor` lists.
- A batch whose runs have all finished stays in progress exactly if one of them was failed as stale
  (`ControlPlane.FinishedBatchStuckIffStale`), and a cancelled batch loses that status exactly when the last run that
  was running when it was cancelled reports (`ControlPlane.CancelledStatusLostIff`).
- Playtime can fall behind the sessions after two online rows are merged (`PlayerLedger.MergedPlaytimeFallsBehind`);
  it is complete exactly if no closing of a row with several open sessions took a full second
  (`PlayerLedger.PlaytimeIsCompleteIff`).
- Valid expressions can be refused as if they were invalid. Those that leave a day field open never are if and only
  if they allow a date that every year has (`CronReach.PerpetualIff`); of the others with an open weekday it is
  decided for every start (`CronReach.RefusedUnlessLeapDayAhead`). Restricting both day fields fails for dates of
  every year too (`CronReach.FridayThirteenthIsNotPerpetual`); there the days of 28 years decide
  (`CronReach.PerpetualIffDaysAllowed`).
- An enabled schedule can drop out of the queue, exactly when its fire finds no further run or fails before writing
  it, or queueing fails (`ScheduleChain.ChainIsCutIff`).
- An execution window that wraps over midnight always costs a day (`ExecutionWindow.ClampIsEarliestIffNoWrap`).
- Backup intervals that divide neither the hour nor the day are not kept (`BackupInterval.RunsEveryIffEven`).
- A run that no agent will ever find exists exactly if the queue failed at a fire that created a run
  (`ScheduleOverlap.OrphanIffQueueFailed`), and then blocks its schedule (`ScheduleOverlap.BusyForGoodIffOrphan`).
- Runs of a schedule can overlap when its payload carries another schedule's id (`ScheduleOverlap.OverlapIsReached`),
  and only then (`ScheduleOverlap.OwnPayloadNeverOverlaps`).
- The queue of staged profiles is blocked by an entry exactly if a staging of it stopped in writing its metadata, or
  right before that over earlier metadata that does not fit, or an installation between its two removals, and no
  staging of it renewed its data under whole metadata since (`ProfileInstall.StepBlocksIff`); equal
  timestamps cost a backup (`ProfileInstall.BackupSurvivesIff`).
- A mod nested in a mod at the top of an archive is noticed exactly if the top does not sort last
  (`ModArchive.ScanPassesIff`).
- The limiter configured as ten per minute lets 19 through (`RateLimit.NineteenGetThrough`); which minutes see more
  than ten is decided by `RateLimit.MoreThanTenIff`.

Where a comment and the code disagree the code is followed: a poll inspects 500 queue entries, not 50; a staged
profile may have 64 KiB, not the 2 MiB its error message names; day of month and day of week must both hold.

## Model

| member | source | states |
|---|---|---|
| LineDiff.MakeDiff | web/src/app/(dashboard)/mods/page.tsx:48 | two files within 250000 table cells give an optimal diff, larger ones the two notice rows |
| LineDiff.DiffLines | web/src/app/(dashboard)/mods/page.tsx:48 | the imperative table and walk produce rows that are correct, form an edit script and are beaten by no edit script |
| LineDiff.FillMatrix | web/src/app/(dashboard)/mods/page.tsx:48 | every cell holds the length of the longest common subsequence of the two rests, within 32 bits |
| LineDiff.FillRow | web/src/app/(dashboard)/mods/page.tsx:48 | one pass of the inner loop completes a row of the table from the row below it |
| LineDiff.Decide | web/src/app/(dashboard)/mods/page.tsx:48 | reading the table makes the greedy choice, additions first on a tie |
| LineDiff.WalkMatrix | web/src/app/(dashboard)/mods/page.tsx:48 | the walk over the table, with its two cursors, lists exactly the rows of the specified walk |
| LineDiff.WalkLists | web/src/app/(dashboard)/mods/page.tsx:48 | kept and removed rows list the old file, kept and added rows the new one, each line once with its number |
| LineDiff.ListingIsScript | web/src/app/(dashboard)/mods/page.tsx:48 | rows that list both files are an edit script from one to the other |
| LineDiff.NoScriptKeepsMore | web/src/app/(dashboard)/mods/page.tsx:48 | no edit script at all keeps more lines than the table promises |
| LineDiff.WalkKeepsTable | web/src/app/(dashboard)/mods/page.tsx:48 | the greedy walk keeps exactly as many lines as the table promises |
| LineDiff.WalkIsOptimal | web/src/app/(dashboard)/mods/page.tsx:48 | no edit script between the two files has fewer changed rows |
| LineDiff.WalkAddsBeforeRemoving | web/src/app/(dashboard)/mods/page.tsx:48 | of all listings with as few changed rows it is the one that, where they part, keeps or adds before it removes |
| LineDiff.SubsequenceHasScript | web/src/app/(dashboard)/mods/page.tsx:48 | every common subsequence of two files is what some edit script keeps |
| LineDiff.WalkKeepsLongestCommonSubsequence | web/src/app/(dashboard)/mods/page.tsx:48 | the unchanged rows are a longest common subsequence of the two files |
| Text.SplitLinesRoundTrip | web/src/app/(dashboard)/mods/page.tsx:48 | splitting at newlines loses nothing and leaves no newline inside a line |
| JobQueue.JobsQueue.AddJob | control-plane/src/jobs/jobs-queue.service.ts:41-48 | adding a run that is queued already changes nothing; otherwise it goes to the end |
| JobQueue.JobsQueue.GetNextJobForHost | control-plane/src/jobs/jobs-queue.service.ts:55-75 | takes the first eligible entry of the inspected window out of the queue, and only that one |
| JobQueue.ClaimRemovesOneRun | control-plane/src/jobs/jobs-queue.service.ts:55-75 | a claimed entry is the host's own, read-only while a mutation runs, and leaves every other run queued |
| JobQueue.ClaimIsFirstAllowed | control-plane/src/jobs/jobs-queue.service.ts:55-75 | a poll is answered with the first of the first 500 entries that is the host's own and, while a mutation runs, of a read-only type, and with nothing exactly if there is none |
| JobQueue.AllowlistsAgree | control-plane/src/jobs/jobs-queue.service.ts:77-82 | queue and agent classify every job type alike |
| JobQueue.JobsQueue.Remove | control-plane/src/batches/batches.service.ts:289-296 | taking out a run leaves all other runs queued, and an absent run is no error |
| ControlPlane.Services.AddRun | control-plane/src/jobs/jobs.service.ts:55-158 | a new run is pending and queued exactly once |
| ControlPlane.Services.CreateJob | control-plane/src/jobs/jobs.service.ts:55-158 | a single job adds one pending, queued run and keeps the invariant |
| ControlPlane.Services.CreateBatch | control-plane/src/batches/batches.service.ts:61-142 | one run per server, or a refusal of the empty batch |
| ControlPlane.Services.RecordJobRunStarted | control-plane/src/batches/batches.service.ts:250-269 | moves one run of the batch from pending to running |
| ControlPlane.Services.RecordJobRunCompleted | control-plane/src/batches/batches.service.ts:193-247 | moves one run from running to success or failed and settles the batch when nothing is left |
| ControlPlane.Services.MarkJobRunStarted | control-plane/src/jobs/jobs.service.ts:224-240 | a pending run of the host starts, with its batch; anything else is left alone |
| ControlPlane.Services.HandlePoll | control-plane/src/jobs/agent-jobs.controller.ts:48-62 | a poll claims at most one queued run and marks that run started |
| ControlPlane.Services.ReportJobResult | control-plane/src/jobs/jobs.service.ts:163-219 | a result is accepted only for a running run of the reporting host, and moves run and batch together |
| ControlPlane.Services.FailStaleRunningJobs | control-plane/src/jobs/jobs.service.ts:39-50 | running runs without a sign of life for three minutes fail, their batches untouched |
| ControlPlane.RecoveryFailsSilentRuns | control-plane/src/jobs/jobs.service.ts:39-50 | exactly the running runs without a heartbeat in the last 180000 ms become failed, and nothing else in runs, queue or batches changes |
| ControlPlane.Services.CancelBatch | control-plane/src/batches/batches.service.ts:271-318 | only a batch in progress is cancelled; its pending runs leave table and queue together |
| ControlPlane.Services.CancelRuns | control-plane/src/batches/batches.service.ts:285-303 | the loop drops exactly the pending runs of the batch and counts them |
| ControlPlane.ColumnsAddUp | control-plane/src/batches/batches.service.ts:193-318 | every run of a batch counts in exactly one of the five columns |
| ControlPlane.StepKeepsInv | control-plane/src/batches/batches.service.ts:61-318 | every handler keeps the queue equal to the pending runs and every counter equal to its run count |
| ControlPlane.RunsKeepInv | control-plane/src/batches/batches.service.ts:61-318 | so does every sequence of handlers |
| ControlPlane.CountersInEveryRun | control-plane/src/batches/batches.service.ts:193-318 | in every reachable state the five counters are the run counts, none is negative, and they sum to the total |
| ControlPlane.StatusMovesForward | control-plane/src/jobs/jobs.service.ts:163-240 | runs move only from pending to running to success or failed, or from pending to cancelled |
| ControlPlane.PollStartsClaim | control-plane/src/jobs/agent-jobs.controller.ts:48-62 | what a poll hands out was pending on that host and is running afterwards |
| ControlPlane.BatchOutcome | control-plane/src/batches/batches.service.ts:193-247 | an uncancelled batch is in progress exactly while a run is pending, running or stale; otherwise it ended with failures exactly if a run reported one |
| ControlPlane.BatchOutcomeWithoutStaleRuns | control-plane/src/batches/batches.service.ts:193-247 | without stale runs: running exactly while some run is unfinished, failures exactly if some run failed |
| ControlPlane.FinishedBatchStuckIffStale | control-plane/src/jobs/jobs.service.ts:39-50 | a batch whose runs have all finished still shows as running if and only if one of them was failed as stale |
| ControlPlane.StaleRunKeepsBatchOpen | control-plane/src/jobs/jobs.service.ts:39-50 | that state lasts through every further run of the system until the batch is cancelled |
| ControlPlane.StuckBatchIsReached | control-plane/src/jobs/jobs.service.ts:39-50 | a run from the empty tables: the only run of a batch goes stale and the batch shows as in progress |
| ControlPlane.LateResultRefused | control-plane/src/jobs/jobs.service.ts:163-190 | the agent's late result for a stale run changes nothing |
| ControlPlane.CancelledUntilLastReport | control-plane/src/batches/batches.service.ts:205-247 | a cancelled batch keeps its status only until its last running run reports, which overwrites it |
| ControlPlane.CancelledStatusLostIff | control-plane/src/batches/batches.service.ts:205-318 | however the system runs on after a cancellation, the batch has lost its cancelled status if and only if some run of it was running when it was cancelled and none is running or stale any more |
| ControlPlane.CancelledBatchCompletes | control-plane/src/batches/batches.service.ts:205-318 | a run from the empty tables: a batch is cancelled while its only run is running, and ends as completed |
| Dispatch.ExecutionLimiter.AcquireRead | agent/internal/jobs/loop.go:119-129 | a slot is taken when one is free; without one only cancellation ends the wait |
| Dispatch.ExecutionLimiter.ReleaseRead | agent/internal/jobs/loop.go:131-134 | a slot is given back |
| Dispatch.ExecutionLimiter.AcquireMutation | agent/internal/jobs/loop.go:136-146 | the token is taken and the busy flag raised together |
| Dispatch.ExecutionLimiter.ClearBusy | agent/internal/jobs/loop.go:148-151 | releasing first lowers the flag |
| Dispatch.ExecutionLimiter.ReturnToken | agent/internal/jobs/loop.go:148-151 | and then returns the token |
| Dispatch.ActKeepsInv | agent/internal/jobs/loop.go:19-81 | every action of loop, workers and environment keeps limiter, workers, claims and run table consistent |
| Dispatch.RunsKeepSystemInv | agent/internal/jobs/loop.go:19-81 | so does every interleaving |
| Dispatch.ForeignKeepsClaims | control-plane/src/jobs/jobs.service.ts:39-50 | nothing other parties do takes a claimed run away or starts a run on the host |
| Dispatch.MutationsExclude | agent/internal/jobs/loop.go:136-153 | a mutation held by the loop and one being executed exclude each other |
| Dispatch.ClaimsInEveryRun | agent/internal/jobs/loop.go:19-165 | in every interleaving, lost answers and agent restarts included: at most one claimed unfinished mutation, at most as many executing reads as configured (8 by default), at most two more claimed jobs |
| Dispatch.RunningMutationsInEveryRun | agent/internal/jobs/loop.go:19-165 | the run table itself shows at most one running mutation per host, apart from lost jobs and results |
| Dispatch.ClaimedOnce | agent/internal/jobs/loop.go:19-81 | a run handed to the agent was pending until then and is not being executed already |
| Dispatch.WaitingHasReason | agent/internal/jobs/loop.go:100-153 | in every interleaving no slot and no token is lost: a job that cannot start waits for a worker of its own kind, and that worker can move on |
| Dispatch.ReleaseEndsWait | agent/internal/jobs/loop.go:131-151 | when it gives back its slot or token the waiting job can start |
| LogTail.NothingReadIsLost | agent/internal/logtail/logtail.go:101-148 | in every run, whatever fails, the uploaded batches followed by the pending bytes are the bytes read, in order; batches have 1 to 65536 bytes; the offsets differ by the pending bytes |
| LogTail.SwitchUploadsOneBatch | agent/internal/logtail/logtail.go:101-148 | a step that leaves a file has uploaded the first 64 KiB of what was pending or unread |
| LogTail.RotationLosslessIffFits | agent/internal/logtail/logtail.go:101-148 | one switch loses nothing of the file it leaves if and only if pending and unread bytes fit one batch |
| LogTail.NamesAreOpenedIff | agent/internal/logtail/logtail.go:101-221 | over all runs, the files opened and the one still waiting are the files the path came to name, in order, if and only if no file was named while the one before was still waiting |
| LogTail.EveryByteIsAccountedFor | agent/internal/logtail/logtail.go:101-221 | in every run without truncation, each byte of every file the path came to name is passed over by the first open, uploaded, pending, unread, waiting or lost, and without a loss they come in this order |
| LogTail.OrderlyRunDeliversStream | agent/internal/logtail/logtail.go:101-221 | in every run without truncation, what was passed over, uploaded, is pending, unread or waiting is the complete files the path came to name, as the disk holds them at the end, if and only if every file left fits its last batch and grows no more, and every file skipped is empty |
| LogTail.RotatedFileIsNeverOpened | agent/internal/logtail/logtail.go:101-221 | a run from the start: uploads fail during two rotations, and the file in between is never opened though everything left fits one batch |
| LogTail.Tailer.WakeUp | agent/internal/logtail/logtail.go:101-148 | one wake-up changes every field exactly as the step that the theorems of LogTail, LogCuts and LogLatency are about |
| LogTail.Tailer.OpenFile | agent/internal/logtail/logtail.go:151-173 | a first open starts at most 64 KiB before the end, later ones at the beginning |
| LogTail.Tailer.Observe | agent/internal/logtail/logtail.go:175-195 | the open file is compared with the read offset and with the file the path names; what follows from it is stated by the rows of LogCuts and LogLatency |
| LogTail.Tailer.ResetFile | agent/internal/logtail/logtail.go:197-204 | a truncated file is read again from its start |
| LogTail.Tailer.SwitchToReplacement | agent/internal/logtail/logtail.go:206-221 | the new file is followed from its beginning |
| LogTail.Tailer.FlushBatch | agent/internal/logtail/logtail.go:231-245 | a failed upload keeps the batch, a successful one acknowledges exactly it |
| LogTail.Tailer.ReadFile | agent/internal/logtail/logtail.go:120-136 | a read fills the batch with everything available up to its free space |
| LogTail.Tailer.DeliverBatch | agent/internal/logtail/logtail.go:120-147 | reading, uploading and following a replacement in this order |
| LogTail.Tailer.PrepareFile | agent/internal/logtail/logtail.go:105-118 | opening, looking at the path and rewinding in this order |
| LogCuts.EveryGenerationIsAccountedFor | agent/internal/logtail/logtail.go:101-221 | in every run whatsoever, files cut in place included: each byte of each generation of the log is passed over by the first open, uploaded, pending, still to be read, waiting or lost, none twice, and in the order of the log if and only if nothing is lost, as long as only the named file is cut |
| LogCuts.CutFileIsReadAgain | agent/internal/logtail/logtail.go:110-131 | a wake-up that finds the open file shorter than what it read, with nothing pending, reads it from its start, up to 64 KiB |
| LogCuts.PendingGoesFirst | agent/internal/logtail/logtail.go:110-148 | with bytes pending such a wake-up reads nothing; after they are uploaded the next one reads from the start, whatever the size by then |
| LogCuts.LongFileIsReadOn | agent/internal/logtail/logtail.go:114-131 | a wake-up that finds the file long enough, and owes no new start, reads on where it stopped: a file that was not cut is never read again |
| LogLatency.UploadsIffDue | agent/internal/logtail/logtail.go:120-143 | a wake-up uploads what is pending and new, up to 64 KiB, exactly if that is 64 KiB, has waited 350 ms, or is the rest of a file the path no longer names; otherwise it waits on |
| LogLatency.FollowsIffDrained | agent/internal/logtail/logtail.go:145-148 | and then follows the file the path names exactly if nothing is pending |
| LogLatency.FailedUploadKeepsBatch | agent/internal/logtail/logtail.go:139-143 | an upload that fails keeps the whole batch for later, and the wake-up fails |
| LogLatency.SucceedsIff | agent/internal/logtail/logtail.go:145-148 | a wake-up whose calls succeed fails itself exactly if it should follow another file and the path names none |
| LogLatency.FirstOpenReadsLastPart | agent/internal/logtail/logtail.go:151-173 | the first open reads the last 64 KiB of the log and uploads them at once if they are that many |
| LogLatency.ReadIsUploadedInTime | agent/internal/logtail/logtail.go:101-148 | over all runs, whatever the disk does and whichever calls fail: what some wake-up has read is uploaded by the first one that comes 350 ms later and succeeds, unless the clock goes back |
| LogStream.ExtractionIsFaithful | control-plane/src/logs/logs.service.ts:188-190 | for every division of a stream into chunks there is one emitted line per complete line, a suffix of it, and equal to it when line and CR have at most 4096 characters |
| LogStream.ExtractOne | control-plane/src/logs/logs.service.ts:188-190 | what one chunk emits and leaves behind follows from the true partial line |
| LogStream.LineBuffers.TakeLines | control-plane/src/logs/logs.service.ts:40-42 | however the chunks of all servers are interleaved, the lines are those this chunk completes in the stream of its own server, and the buffers of the others stay |
| LogStream.LineEndsAreDropped | control-plane/src/logs/logs.service.ts:188-190 | a line loses its line end, with one carriage return in front of it, and nothing else |
| KeywordScan.TailIsEnough | control-plane/src/logs/logs.service.ts:270-283 | the 256-character tail decides exactly whether an occurrence ends in the chunk, for keywords of up to 257 characters |
| KeywordScan.ScanIsExact | control-plane/src/logs/logs.service.ts:238-283 | for admissible keywords and every earlier division of the stream, one event is raised if and only if an occurrence ends in the chunk |
| KeywordScan.LongerKeywordIsMissed | control-plane/src/logs/logs.service.ts:270-283 | the tail is too short for every longer keyword |
| KeywordScan.ExcerptShowsMatch | control-plane/src/logs/logs.service.ts:284-290 | the stored excerpt contains the occurrence |
| KeywordScan.MatchesAreExact | control-plane/src/logs/logs.service.ts:270-292 | with only the tail of a stream: an event with id and keyword of a rule exactly if the rule is of this server and an occurrence of its keyword of up to 257 characters ends in the chunk, at most one for a rule, in rule order, with the text around the last occurrence |
| KeywordScan.OccursInText | control-plane/src/logs/logs.service.ts:270-283 | an occurrence is the keyword itself, or without regard to case the keyword up to letter case |
| KeywordScan.KeywordScanner.MatchKeywordAlerts | control-plane/src/logs/logs.service.ts:270-292 | the same of the method, for every interleaving of the chunks of all servers, and the new tail of this one |
| LogPipeline.LinesAreFaithfulEndToEnd | control-plane/src/logs/logs.service.ts:188-190 | however the tailer cut the stream of an orderly run into batches and whatever failed, the emitted lines are faithful to the first lines of the files the path came to name, and complete once nothing is pending, unread or waiting |
| LogPipeline.StreamOfUploads | agent/internal/logtail/logtail.go:231-245 | the stream of the control plane is what the tailer uploaded |
| PlayerLedger.StepKeepsInv | control-plane/src/jobs/jobs.service.ts:274-323 | every player list, log line, merge and listing keeps identity keys unique and every row in agreement with its sessions |
| PlayerLedger.RowsAgreeInEveryRun | control-plane/src/logs/logs.service.ts:187-229 | in every reachable state: online iff a session start is set iff a session is open; playtime is at most the closed time, and equal to it with at most one open session while no merge joined two online rows; keys are unique |
| PlayerLedger.MergeKeepsInv | control-plane/src/players/player-identity.ts:36-57 | merging two rows into one keeps both |
| PlayerLedger.ReconcileDoublesIff | control-plane/src/players/player-identity.ts:15-57 | two online rows are merged exactly if an identity takes over the row of its name while both are online |
| PlayerLedger.ReconcileConserves | control-plane/src/players/player-identity.ts:15-57 | a promotion or merge conserves total playtime and changes nothing of a session but its owner |
| PlayerLedger.ListingConserves | control-plane/src/players/players.service.ts:50-56 | so does the loop before a listing |
| PlayerLedger.ClosingGap | control-plane/src/jobs/jobs.service.ts:305-312 | closing widens the gap between sessions and playtime by the duration of all open sessions but one |
| PlayerLedger.ClosingKeepsEqualIff | control-plane/src/jobs/jobs.service.ts:305-312 | playtime stays equal to the closed time at closing if and only if one session is open or the session took no second |
| PlayerLedger.PlaytimeIsCompleteIff | control-plane/src/jobs/jobs.service.ts:274-323 | over all runs, playtime is behind the closed sessions by exactly what closings booked more than once; every row's playtime equals its closed time if and only if no closing of a row with two or more open sessions took a full second |
| PlayerLedger.PlaytimeIsTimeThere | control-plane/src/jobs/jobs.service.ts:274-323 | over all runs with a clock that does not go back: the start of an online row is the least start of its open sessions, and without a merge of two online rows every closed session lasted from its start to its end and playtime is the sum of these |
| PlayerLedger.EnterSeesOne | control-plane/src/jobs/jobs.service.ts:279-303 | a player that is seen is online under the own identity and name, last seen now; no session ends and new ones start now; every other row stays, apart from a name row taken over |
| PlayerLedger.LeaveEndsOne | control-plane/src/logs/logs.service.ts:217-227 | a player that leaves is offline, last seen now if online before, and every other row stays |
| PlayerLedger.LeaveEndsSessions | control-plane/src/logs/logs.service.ts:217-227 | the sessions that end then are the own ones, now |
| PlayerLedger.SyncEndsOthers | control-plane/src/jobs/jobs.service.ts:274-323 | after a complete list, listed players were last seen now and every other row is as it was, but offline |
| PlayerLedger.SyncEndsSessions | control-plane/src/jobs/jobs.service.ts:274-323 | sessions then go on, start now, or end when their player was last seen |
| PlayerLedger.MergedPlaytimeFallsBehind | control-plane/src/players/player-identity.ts:31-57 | three joins and a leave line after one second, with a merge of two online rows: the second is in the sessions twice and in the playtime once |
| PlayerLedger.SyncLeavesExactlyListedOnline | control-plane/src/jobs/jobs.service.ts:274-323 | after a complete player list a row is online exactly when its identity was listed |
| PlayerLedger.ListingKeeps | control-plane/src/players/players.service.ts:50-56 | the rows left by the listing loop are exactly those that are not the name row of a stable row |
| PlayerLedger.ListingLeavesNoTwins | control-plane/src/players/players.service.ts:50-56 | after a listing no stable row coexists with the name row of its own name |
| PlayerLedger.PlayerStore.ReconcileNameFallback | control-plane/src/players/player-identity.ts:7-58 | nothing, promotion or merge, in the order of the lookups |
| PlayerLedger.PlayerStore.UpsertOnline | control-plane/src/jobs/jobs.service.ts:297-303 | a session starts unless the row was online |
| PlayerLedger.PlayerStore.Close | control-plane/src/jobs/jobs.service.ts:305-312 | the row goes offline, all its open sessions end, the time is booked once |
| PlayerLedger.PlayerStore.ParseLine | control-plane/src/logs/logs.service.ts:205-227 | one join or leave line |
| PlayerLedger.PlayerStore.ReconcilePlayers | control-plane/src/jobs/jobs.service.ts:274-323 | one complete player list |
| PlayerLedger.PlayerStore.List | control-plane/src/players/players.service.ts:50-66 | merges first; then the running session of online rows counts towards the playtime shown |
| Cron.ParseSet | control-plane/src/scheduler/cron-next.ts:43-59 | a field is accepted exactly if each of its pieces is, and then admits exactly the values some piece allows |
| Cron.AddSteps | control-plane/src/scheduler/cron-next.ts:47-53 | a step adds every so-manieth value from the minimum on |
| Cron.ParseCron | control-plane/src/scheduler/cron-next.ts:13-20 | an expression is accepted exactly if its five fields are, and the parsed fields admit exactly its matching minutes |
| Cron.GetNextCronRun | control-plane/src/scheduler/cron-next.ts:12-41 | the least matching minute strictly after the minute of the start; an error exactly for invalid expressions or when none of the next 527040 minutes matches |
| Cron.WordsOfJoined | control-plane/src/scheduler/cron-next.ts:13-14 | five words joined by spaces are read back as these words |
| Cron.StepValidIff | control-plane/src/scheduler/cron-next.ts:47-53 | a step is accepted exactly if it is at least 1 and leads from the least value at most one behind the greatest |
| Cron.NumberRead | control-plane/src/scheduler/cron-next.ts:54-57 | a number is read up to the first character behind it that is no digit, with a sign in front or without |
| Cron.NegativeValidIff | control-plane/src/scheduler/cron-next.ts:54-57 | with minus it is accepted exactly for zero, where zero is allowed |
| CronReach.PerpetualIff | control-plane/src/scheduler/cron-next.ts:12-41 | a valid expression that leaves the day of the month or the weekday open has a next run from every start if and only if its month and day fields allow a date that every year has |
| CronReach.AnyDayIsPerpetual | control-plane/src/scheduler/cron-next.ts:12-41 | in particular every valid expression with an open day of the month, whatever its months and weekdays |
| CronReach.PerpetualNeedsCommonDate | control-plane/src/scheduler/cron-next.ts:12-41 | whatever an expression restricts, allowing such a date is necessary |
| CronReach.PerpetualIffSampled | control-plane/src/scheduler/cron-next.ts:12-41 | any valid expression at all has a next run from every start if and only if it has one from every minute of 28 years |
| CronReach.PerpetualIffDaysAllowed | control-plane/src/scheduler/cron-next.ts:12-41 | any valid expression at all has a next run from every start if and only if each day of 28 years is followed within 366 days by one that its month, day and weekday fields allow |
| CronReach.RefusedUnlessLeapDayAhead | control-plane/src/scheduler/cron-next.ts:12-41 | an expression with an open weekday that allows no date of every year is refused, on whatever day and at whatever time, exactly unless it allows 29 February and one is ahead |
| CronReach.LeapDayRefusedIff | control-plane/src/scheduler/cron-next.ts:12-41 | from every start, a plain expression for 29 February is refused if and only if none is ahead |
| CronReach.FridayThirteenthRefusedIff | control-plane/src/scheduler/cron-next.ts:12-41 | on 14 August after a Friday the 13th, an expression for Fridays the 13th is refused if and only if the next year is a leap year |
| CronReach.FridayThirteenthIsNotPerpetual | control-plane/src/scheduler/cron-next.ts:12-41 | when both day fields are restricted, a date of every year is not enough: Fridays the 13th are refused at times, as in August 1971 |
| CronReach.CommonDateAhead | control-plane/src/scheduler/cron-next.ts:22-36 | within the horizon of every start lies every date of a common year at every time of day |
| CronReach.LeapDayAt | control-plane/src/scheduler/cron-next.ts:26-36 | where in the 366 days after any day the 29 February lies |
| CronReach.TwinInSample | control-plane/src/scheduler/cron-next.ts:26-36 | every day has a day within 28 years whose following year looks the same |
| Calendar.DatesInMarchYear | control-plane/src/scheduler/cron-next.ts:28 | the dates of a March year follow one another without gaps |
| Calendar.DatesInNextMarchYear | control-plane/src/scheduler/cron-next.ts:28 | and go on with the first of March of the next one |
| Calendar.DayNumberOfDate | control-plane/src/scheduler/cron-next.ts:28 | the number of every day follows from its date in closed form, with the leap years of the Gregorian calendar |
| ExecutionWindow.ClampIsEarliest | control-plane/src/scheduler/cron-next.ts:65-88 | for a window within a day the clamped time is the earliest allowed instant not before the given one |
| ExecutionWindow.ClampIsEarliestIffNoWrap | control-plane/src/scheduler/cron-next.ts:65-88 | that holds exactly for the windows that do not wrap over midnight |
| ExecutionWindow.ClampIdempotentIffNoWrap | control-plane/src/scheduler/cron-next.ts:65-88 | clamping twice changes nothing exactly for those windows |
| ExecutionWindow.ClampLandsInside | control-plane/src/scheduler/cron-next.ts:65-88 | a clamped time is inside its window and never earlier |
| ExecutionWindow.WrappingSkipsADay | control-plane/src/scheduler/cron-next.ts:84-87 | a wrapping window always yields the next day's opening although an earlier instant was allowed |
| ExecutionWindow.InWindowOnTheClock | control-plane/src/scheduler/cron-next.ts:65-88 | being inside read off hours and minutes: both ends belong to the window, and it wraps exactly if it starts after its end |
| ExecutionWindow.ClampMovesToOpening | control-plane/src/scheduler/cron-next.ts:72-87 | a run that is moved starts at the hour and minute of the opening, at second zero |
| BackupInterval.RoundTripIff | web/src/app/(dashboard)/saves/page.tsx:46-47 | an interval survives the conversion to an expression and back exactly if it is at most 60, whole hours below a day, or a day |
| BackupInterval.EveryExpressionIsRead | web/src/app/(dashboard)/saves/page.tsx:47 | an expression is read as the number of its minute step, 60 times that of its hour step, 1440 for the daily run, and 60 for all others |
| BackupInterval.RunsEveryIffEven | web/src/app/(dashboard)/saves/page.tsx:46 | from every start the runs are exactly that many minutes apart if and only if the interval divides the hour or is a number of hours that divides the day |
| BackupInterval.HoursAreMultiples | web/src/app/(dashboard)/saves/page.tsx:46 | a full hour whose number is a multiple of h is a multiple of 60 h minutes, across days |
| BackupInterval.UnevenMinutes | web/src/app/(dashboard)/saves/page.tsx:46 | an interval that does not divide the hour runs too early at the full hour |
| BackupInterval.UnevenHours | web/src/app/(dashboard)/saves/page.tsx:46 | hours that do not divide the day run too early at midnight |
| BackupInterval.DailyInstead | web/src/app/(dashboard)/saves/page.tsx:46 | every other interval is stored as a daily run |
| BackupInterval.IntervalAlwaysHasNext | web/src/app/(dashboard)/saves/page.tsx:46 | the expression of every positive interval has a next run from every start |
| ScheduleChain.ChainIsCutIff | control-plane/src/scheduler/scheduler.service.ts:49-325 | over all runs: an enabled schedule is ever without a queued fire at its next run time if and only if the fire of that time found no further run or failed before writing it, or queueing failed at a fire, a creation or a change |
| ScheduleChain.CutIsReached | control-plane/src/scheduler/scheduler.service.ts:49-325 | a run from the start: an enabled schedule is created, its first fire cannot look up its row, and no fire is left |
| ScheduleChain.NothingComesBack | control-plane/src/scheduler/scheduler.service.ts:49-325 | without a queued fire none appears and no run is created until a restart, a change or a new schedule |
| ScheduleChain.EnabledSchedulesAreQueued | control-plane/src/scheduler/scheduler.service.ts:49-325 | in every run in which lookups, bookings and queueing the fires succeed, an enabled schedule whose expression always has a next run has a queued fire at exactly its next run time |
| ScheduleChain.PlainSchedulesAreQueued | control-plane/src/scheduler/scheduler.service.ts:49-325 | so has every enabled schedule whose expression leaves the day of the month open, or the weekday with a date of every year allowed |
| ScheduleChain.ProcessMovesOnIff | control-plane/src/scheduler/scheduler.service.ts:87-206 | the fire of the next run time moves the schedule to a queued fire in a later minute if and only if the search finds a run, it is written, and its fire can be queued or is there |
| ScheduleChain.OnlyCutsCut | control-plane/src/scheduler/scheduler.service.ts:49-325 | no other step of any handler takes an enabled schedule out of the queue |
| ScheduleChain.StepKeepsChain | control-plane/src/scheduler/scheduler.service.ts:49-325 | every handler keeps schedules that always have a next run queued |
| ScheduleChain.BackupsArePerpetual | web/src/app/(dashboard)/saves/page.tsx:46 | the schedules of automatic backups always have a next run |
| ScheduleOverlap.OwnPayloadNeverOverlaps | control-plane/src/scheduler/scheduler.service.ts:101-127 | in every run in which the payload of a schedule never carries another id, the schedule has at most one unfinished run per job type |
| ScheduleOverlap.FixedTypeNeverOverlaps | control-plane/src/scheduler/scheduler.service.ts:101-127 | if its job type does not change either, the schedule never has two unfinished runs at all |
| ScheduleOverlap.AtMostOneActiveRun | control-plane/src/scheduler/scheduler.service.ts:118-127 | runs that carry the id of their schedule never overlap, whatever the payload was at other times |
| ScheduleOverlap.SecondRunIff | control-plane/src/scheduler/scheduler.service.ts:118-165 | a fire adds a second unfinished run beside one of its schedule and type if and only if its lookups succeed, the overlap check finds none and the run can be created |
| ScheduleOverlap.OverlapIsReached | control-plane/src/scheduler/scheduler.service.ts:101-165 | a schedule whose payload carries another id is created, fires twice, and has two unfinished runs |
| ScheduleOverlap.OrphanIffQueueFailed | control-plane/src/scheduler/scheduler.service.ts:130-206 | over all runs, a schedule has a run that no agent will ever find if and only if the queue failed at a fire of it that created a run |
| ScheduleOverlap.OrphanIsReached | control-plane/src/scheduler/scheduler.service.ts:130-206 | a run from the start: a schedule is created and the queue of runs fails at its first fire |
| ScheduleOverlap.OrphansStay | control-plane/src/scheduler/scheduler.service.ts:130-206 | nothing that happens later ends such a run |
| ScheduleOverlap.OrphanBlocksForever | control-plane/src/scheduler/scheduler.service.ts:118-127 | no later fire that finds it creates a run |
| ScheduleOverlap.BusyForGoodIffOrphan | control-plane/src/scheduler/scheduler.service.ts:118-127 | once the agents have ended all queued runs, a schedule is busy if and only if an orphan of its server and type carries its id |
| Scheduler.NextRunIsLater | control-plane/src/scheduler/scheduler.service.ts:74-85 | the next run lies in a later minute, also after clamping |
| Scheduler.ComputeNextRun | control-plane/src/scheduler/scheduler.service.ts:74-85 | search and clamping together, nothing when the search fails |
| Scheduler.SchedulerService.HydrateSchedule | control-plane/src/scheduler/scheduler.service.ts:55-71 | an enabled schedule with a next run is queued afresh |
| Scheduler.SchedulerService.HydrateSchedules | control-plane/src/scheduler/scheduler.service.ts:49-72 | row by row, until a failing call ends the loop, perhaps between queueing a fire and writing its row |
| Scheduler.SchedulerService.FindActiveRun | control-plane/src/scheduler/scheduler.service.ts:118-121 | the overlap check looks at server, job type and the id in the payload |
| Scheduler.SchedulerService.CreateRun | control-plane/src/scheduler/scheduler.service.ts:118-165 | the run of a fire unless the schedule is busy, for each call that may fail |
| Scheduler.SchedulerService.Book | control-plane/src/scheduler/scheduler.service.ts:122-206 | the row after a fire: outcome, counters and next time, for every combination of failing database and queue calls |
| Scheduler.SchedulerService.HandleWorkerFailure | control-plane/src/scheduler/scheduler.service.ts:208-217 | a failed handler is counted once more |
| Scheduler.SchedulerService.ProcessScheduleFire | control-plane/src/scheduler/scheduler.service.ts:87-206 | one fire, from lookup to the next fire, whichever calls fail |
| Scheduler.SchedulerService.CreateSchedule | control-plane/src/scheduler/scheduler.service.ts:230-274 | refused without a next run; queued when enabled |
| Scheduler.SchedulerService.UpdateSchedule | control-plane/src/scheduler/scheduler.service.ts:276-319 | the old fire is withdrawn, unless that fails, and the new one queued; an empty expression is stored as it is |
| Scheduler.SchedulerService.DeleteSchedule | control-plane/src/scheduler/scheduler.service.ts:321-325 | the row goes, its fires stay queued |
| ScheduleEffects.ChangeTakesEffect | control-plane/src/scheduler/scheduler.service.ts:276-319 | after an accepted change every given field has its new value and all others keep theirs, the next run follows a given expression, and runs and other rows stay |
| ScheduleEffects.ChangeMovesFire | control-plane/src/scheduler/scheduler.service.ts:305-316 | a change takes the fire of the old time out unless that fails, and queues the next time exactly if the row is on and queueing succeeds |
| ScheduleEffects.RefusedChangesNothing | control-plane/src/scheduler/scheduler.service.ts:281-292 | a change of no row, or to an expression without a next run, changes nothing |
| ScheduleEffects.CreationTakesEffect | control-plane/src/scheduler/scheduler.service.ts:242-274 | a new row holds what was given, no window and zero counters, and is queued exactly if it is on and queueing succeeds |
| ScheduleEffects.OffCreatesNothing | control-plane/src/scheduler/scheduler.service.ts:49-325 | over all runs: no run of a schedule that is off appears, stale fires and restarts included, until a change switches it on, and of a deleted one never again |
| ScheduleEffects.SwitchingOffStops | control-plane/src/scheduler/scheduler.service.ts:276-319 | switching off takes the queued fire away and no run appears in any continuation without switching on |
| ScheduleEffects.DeletionStops | control-plane/src/scheduler/scheduler.service.ts:321-325 | deleting marks the row, leaves all else, and no run appears in any continuation |
| ScheduleEffects.FireCreatesRun | control-plane/src/scheduler/scheduler.service.ts:87-165 | a fire creates one pending run, for the schedule's server and of the effective type, exactly if the lookups succeed, the row is on, no run with its id, server and type is unfinished, and the creation succeeds |
| ScheduleEffects.FireStoresOutcome | control-plane/src/scheduler/scheduler.service.ts:118-217 | what it writes whichever calls fail: outcome, both counters, next time, and exactly which fires are queued then |
| ScheduleEffects.FireIsCountedOrDropped | control-plane/src/scheduler/scheduler.service.ts:87-121 | a fire whose lookups fail counts one failure; one of a row that is off or gone does nothing |
| ScheduleEffects.StartUpQueuesRows | control-plane/src/scheduler/scheduler.service.ts:49-72 | every enabled row that start-up reaches is queued at its next run, inside its window; no other row changes and no other fire comes, but that of the row at which a call failed |
| ScheduleEffects.NextRunIff | control-plane/src/scheduler/cron-next.ts:12-41 | without a window the next run is the start of the first matching minute of the next 366 days; there is none exactly for an invalid expression or without such a minute |
| ScheduleEffects.FiresKeepWindow | control-plane/src/scheduler/scheduler.service.ts:74-206 | a further time that a fire writes lies in the window |
| ScheduleEffects.SevenDaysRestartSafely | control-plane/src/scheduler/scheduler.service.ts:97-100 | no schedule ever creates a plain restart of a 7DTD server, however its job type is spelled |
| ProfileInstall.LiveIsOldOrStaged | agent/internal/games/7dtd/adapter.go:589-691 | wherever the agent stops, the live file is the complete old one up to the rename and the complete staged one from then on |
| ProfileInstall.BackupHoldsReplaced | agent/internal/games/7dtd/adapter.go:589-691 | from the first operation on the backup holds the content about to be replaced |
| ProfileInstall.BackupIsComplete | agent/internal/games/7dtd/adapter.go:635-653 | before the live file is replaced its companion and the note about the profile are beside that backup |
| ProfileInstall.ReplacementLeftIff | agent/internal/games/7dtd/adapter.go:655-682 | the temporary file stays behind if and only if the agent is stopped for good between its creation and the rename |
| ProfileInstall.StagedDataIsWhole | agent/internal/games/7dtd/adapter.go:573-585 | an interrupted staging leaves the old staged data, the complete new data or none |
| ProfileInstall.StagesExactlyProfiles | agent/internal/games/7dtd/adapter.go:547-587 | content that starts with ttp and a zero byte and has at most 65536 bytes, like the live file, is queued by an undisturbed staging; any other changes nothing |
| ProfileInstall.StepKeepsInv | agent/internal/games/7dtd/adapter.go:547-691 | saving, staging and installing keep live and staged files complete and every backup intact |
| ProfileInstall.ProfilesSurvive | agent/internal/games/7dtd/adapter.go:547-691 | over all runs with stops anywhere and distinct timestamps: live files are complete, and everything ever replaced is in its backup |
| ProfileInstall.BackupSurvivesIff | agent/internal/games/7dtd/adapter.go:632-645 | an installation spares an earlier backup if and only if the names differ or the content is the same |
| ProfileInstall.SameStampLosesBackup | agent/internal/games/7dtd/adapter.go:632-645 | with equal timestamps two profiles of one base name overwrite each other's backup |
| ProfileInstall.QueueIsInstalled | agent/internal/games/7dtd/adapter.go:589-691 | an undisturbed run installs every queued profile and empties the queue |
| ProfileInstall.StopBetweenRemovalsBlocks | agent/internal/games/7dtd/adapter.go:683-688 | stopped between its two removals, an installation leaves an entry no later run gets past, though the profile is installed |
| ProfileInstall.BlockedIffBetweenRemovals | agent/internal/games/7dtd/adapter.go:683-688 | a stopped installation leaves an entry later runs refuse if and only if it stopped between its two removals |
| ProfileInstall.StagingBlocksIff | agent/internal/games/7dtd/adapter.go:574-586 | a staging leaves an entry later runs refuse if and only if it stopped in writing the metadata, right before that with earlier metadata that does not fit, or before the data with the entry blocked already; a completed one makes it ready |
| ProfileInstall.StepBlocksIff | agent/internal/games/7dtd/adapter.go:547-691 | after any step an entry is blocked if and only if a staging or installation of it just stopped at such a point, or it was blocked and no staging of it renewed its data under whole metadata |
| ProfileInstall.QueueSucceedsIff | agent/internal/games/7dtd/adapter.go:589-691 | a run over the queue succeeds if and only if no entry is refused |
| ProfileInstall.QueueStopsAtRefused | agent/internal/games/7dtd/adapter.go:589-691 | it ends at the first refused entry, whatever comes behind it |
| ProfileInstall.OthersStayReady | agent/internal/games/7dtd/adapter.go:589-691 | installing one profile changes nothing for another |
| ProfileInstall.Host.StagePlayerProfile | agent/internal/games/7dtd/adapter.go:547-587 | the operations of staging, cut short anywhere |
| ProfileInstall.Host.BackUp | agent/internal/games/7dtd/adapter.go:635-653 | the copies of the live file and its companion and the note about them, cut short anywhere |
| ProfileInstall.Host.InstallProfile | agent/internal/games/7dtd/adapter.go:606-688 | the operations of one installation, cut short anywhere, with the removal of the temporary file on errors |
| ProfileInstall.Host.ApplyStagedPlayerProfiles | agent/internal/games/7dtd/adapter.go:589-691 | nothing while the game runs; otherwise entry after entry until one is refused or the agent stops |
| ModArchive.ScanPassesIff | agent/internal/games/7dtd/adapter.go:795-802 | on sorted roots the forward scan passes if and only if no named root contains another and the top of the archive sorts last |
| ModArchive.NestedTopGoesUnnoticed | agent/internal/games/7dtd/adapter.go:795-802 | a mod nested in a mod at the top passes when its path sorts before the dot |
| ModArchive.AtMostOneNamedRoot | agent/internal/games/7dtd/adapter.go:847-852 | an entry belongs to at most one named root |
| ModArchive.ModInfoFindsItsRoot | agent/internal/games/7dtd/adapter.go:847-852 | a ModInfo.xml file is extracted for its own directory and no other root |
| ModArchive.EveryRootGetsModInfo | agent/internal/games/7dtd/adapter.go:846-862 | every mod found comes out with a ModInfo.xml at the top of its folder |
| ModArchive.OutputIsInside | agent/internal/games/7dtd/adapter.go:853-867 | every output lies below the folder of its mod, on a clean path |
| ModArchive.OutputIsBelow | agent/internal/games/7dtd/adapter.go:820-867 | every output is a clean path below a folder whose name is proper, plain and at most 100 characters long |
| ModArchive.SanitizedIsComponent | agent/internal/games/7dtd/adapter.go:820-832 | a derived folder that is not empty is a proper, plain name of at most 100 characters |
| ModArchive.ScanForNesting | agent/internal/games/7dtd/adapter.go:795-802 | the nested loops compute the scan |
| ModArchive.FindRoots | agent/internal/games/7dtd/adapter.go:762-790 | exactly the directories of ModInfo.xml files |
| ModArchive.SortRoots | agent/internal/games/7dtd/adapter.go:791-795 | a sorted listing of the set of roots |
| ModArchive.AssignFolders | agent/internal/games/7dtd/adapter.go:817-845 | one safe folder per root, different in more than letter case and not in quarantine already; a refusal names its reason |
| ModArchive.Extract | agent/internal/games/7dtd/adapter.go:846-898 | every output is written once, and a clash is the only reason to give up |
| ModArchive.CheckRoots | agent/internal/games/7dtd/adapter.go:788-802 | refused exactly without a root or with a nesting that the scan notices; otherwise a sorted listing of the roots that passes it |
| ModArchive.ScanPassesIffNotNoticed | agent/internal/games/7dtd/adapter.go:795-802 | the scan over sorted roots refuses exactly if a named root contains another or the top is a root that does not sort last |
| ModArchive.Place | agent/internal/games/7dtd/adapter.go:817-898 | accepted if and only if the folders fit and no two entries go to the same output |
| ModArchive.OutputIffGoesTo | agent/internal/games/7dtd/adapter.go:848-866 | the first root in sorted order is the one an entry belongs to: its named root, or the top of the archive without one |
| ModArchive.InstallUpload | agent/internal/games/7dtd/adapter.go:744-898 | accepted if and only if there is a root, no nesting is noticed, the folders fit and no two entries go to the same output; a refusal names its reason, and an accepted upload writes exactly every entry below a mod to that mod's folder followed by the rest of its name, ModInfo.xml files under that spelling, each file once |
| ModArchive.GoesToIff | agent/internal/games/7dtd/adapter.go:846-866 | an entry goes to an output exactly if it lies below a root and the output is the folder of that root with the rest of the entry's name, or with the same directory and ModInfo.xml if it is one in any letter case |
| ModArchive.IsRootIff | agent/internal/games/7dtd/adapter.go:762-790 | the roots are exactly the directories of files that are called ModInfo.xml in any letter case |
| ModArchive.PlainFolderIsKept | agent/internal/games/7dtd/adapter.go:817-832 | a mod in a directory with a plain name keeps it as the name of its folder |
| ModArchive.TopIsNamedAfterArchive | agent/internal/games/7dtd/adapter.go:817-832 | a mod at the top, or in a directory called Mods, is named after the archive |
| ModArchive.RunBecomesUnderscore | agent/internal/games/7dtd/adapter.go:820-832 | other characters become one underscore for each run of them, and plain ones stay |
| ModArchive.SanitizedIsCore | agent/internal/games/7dtd/adapter.go:820-832 | then dots, underscores and dashes are dropped at both ends and 100 characters kept |
| RateLimit.Limiter.TryConsume | control-plane/src/discord/discord.service.ts:50-67 | one request against the entry of its key |
| RateLimit.AtMostNineteenPerMinute | control-plane/src/discord/discord.service.ts:50-67 | over all request sequences with a clock that never goes back, no half-open minute sees more than 19 accepted sends of a key |
| RateLimit.NineteenGetThrough | control-plane/src/discord/discord.constants.ts:2-7 | 19 do get through within two milliseconds, so the configured 10 per minute is not enforced |
| RateLimit.AtMostTenFromOpening | control-plane/src/discord/discord.service.ts:50-67 | the minute that starts with the opening of a window sees at most the configured ten |
| RateLimit.MoreThanTenIff | control-plane/src/discord/discord.service.ts:50-67 | a minute sees more than ten accepted sends if and only if a window opens inside it and the sends accepted before that and the requests from then on, ten at most, exceed ten |
| RateLimit.RefusedOnlyAfterTen | control-plane/src/discord/discord.service.ts:50-67 | a refusal means ten sends of the key were accepted in the minute that ends with it |
| AlertDedup.Alerts.SendLifecycleAlert | control-plane/src/alerts/alerts.service.ts:109-123 | one alert against the map, which is pruned above 1000 entries |
| AlertDedup.Alerts.Prune | control-plane/src/alerts/alerts.service.ts:118-122 | the loop deletes exactly the entries that are at least 15 seconds old |
| AlertDedup.PruningIsInvisible | control-plane/src/alerts/alerts.service.ts:109-123 | no decision ever differs from that of a map that is never pruned |
| AlertDedup.SentIffQuiet | control-plane/src/alerts/alerts.service.ts:109-123 | an alert is sent exactly when none of its key was sent in the 15 seconds before |
| AlertDedup.SentAlertsAreApart | control-plane/src/alerts/alerts.service.ts:109-123 | sent alerts of one key are at least 15 seconds apart |
| AlertDedup.LargeMapIsRecent | control-plane/src/alerts/alerts.service.ts:109-123 | the map holds more than a thousand keys only if each was alerted within the 15 seconds before one sent alert |
| AlertDedup.SmallMapIsComplete | control-plane/src/alerts/alerts.service.ts:109-123 | up to a thousand keys nothing is forgotten |
| Rcon.Client.NextID | agent/internal/games/minecraft/rcon.go:59-62 | ids count up and wrap around at 32 bits |
| Rcon.Client.Send | agent/internal/games/minecraft/rcon.go:65-78 | the buffer filled at its offsets is the frame of the message |
| Rcon.Client.Recv | agent/internal/games/minecraft/rcon.go:81-104 | one packet off the stream, or the reason why not |
| Rcon.Int32RoundTrip | agent/internal/games/minecraft/rcon.go:65-104 | four little-endian bytes carry every signed 32-bit number |
| Rcon.FrameLayout | agent/internal/games/minecraft/rcon.go:65-78 | a packet is its length, its id and its type as little-endian numbers, its payload and two zero bytes |
| Rcon.ReceivedLayout | agent/internal/games/minecraft/rcon.go:81-104 | what is received was laid out so, with a length from 10 to 4112 and a payload up to a zero byte |
| Rcon.RefusedIff | agent/internal/games/minecraft/rcon.go:81-104 | a packet is too large, too short or incomplete exactly by its length field and what is there |
| Rcon.ReceiveFrame | agent/internal/games/minecraft/rcon.go:65-104 | a frame gives back its id and the payload up to its first zero byte, and leaves the rest of the stream |
| Rcon.RoundTripIff | agent/internal/games/minecraft/rcon.go:65-104 | a payload survives if and only if it has no zero byte and at most 4102 bytes |
| Rcon.FramesRoundTrip | agent/internal/games/minecraft/rcon.go:65-104 | frames that follow one another come back one by one |

## Left out

- HTTP, telnet, TCP, Redis, the database and process calls: a queue is a sequence, a table a sequence or map, and a handler one atomic step; crashes between two database calls are outside this model.
- Retained completed queue jobs, which make the queue ignore a later job of the same name: not modelled; a name can be used again once its entry is gone.
- ControlPlane.Services.RecordJobRunCompleted: takes the outcomes its callers pass, success or failed of a running run; the branches for a cancelled result and for a run that was still pending are never reached.
- JobQueue.JobsQueue.AddJob: the order in which the queue library lists waiting entries is abstract; here a new one is listed last, and no property turns on it.
- JobQueue.JobsQueue.GetNextJobForHost: the listing order is abstract; an entry taken by another poll at the same moment cannot occur between atomic steps, so the branch that skips it is left out.
- Dispatch.ClaimsInEveryRun: one agent process at a time serves a host, and a restart ends its jobs; two agents under one host id are left out.
- LogTail.Tailer.WakeUp: the file system does not change within one wake-up, and cancellation during an upload is one of its failures.
- LogTail.Tailer.ReadFile: a read returns everything available up to the free space of the batch.
- LogStream.ExtractionIsFaithful: characters are whole, so invalid UTF-8 at the edge of a chunk is left out.
- KeywordScan.ScanIsExact: without regard to case letters are folded in ASCII only.
- PlayerLedger.PlayerStore.UpsertOnline: kills, deaths, level, addresses and entity ids follow their source line by line and are left out, as is the time of the first sight; names are lower-cased in ASCII only.
- PlayerLedger.PlayerStore.ParseLine: a line is an abstract join or leave with its identity; the patterns that recognise it are left out, and so are the alerts it sends.
- PlayerLedger.PlayerStore.List: the order of the rows, online and most recently seen first, is left out.
- LogPipeline.LinesAreFaithfulEndToEnd: logs are taken as ASCII, one character a byte.
- Cron.GetNextCronRun: times are counted from 1970 at a fixed offset from UTC; daylight-saving changes are left out.
- ExecutionWindow.ClampLandsInside: the two times of a window are numbers of an HH:mm text; other texts are left out.
- Scheduler.SchedulerService.CreateRun: the merged payload is reduced to the schedule id in it, and retry counts are left out; job types are compared in ASCII.
- Scheduler.SchedulerService.ProcessScheduleFire: one clock reading serves the whole handler, and the worker's failure handler is taken to succeed.
- CronReach.FridayThirteenthRefusedIff: decides one family and one day of the year; for expressions that restrict both day fields in other ways the exact condition is that of `CronReach.PerpetualIffDaysAllowed`.
- ProfileInstall.Host.InstallProfile: permissions, symbolic links and flushing to disk are left out, as is the text of the metadata; metadata written in part counts as unreadable.
- ModArchive.InstallUpload: size limits, link entries, permissions, the move into quarantine and its rollback are left out, as is which of several unfit folders is reported; letter case is ASCII, names are taken as validated, and a file in the way of a directory is an I/O error of the extraction.
- Rcon.Client.Recv: a read that returns fewer bytes than asked for, which the client does not notice, is left out, as is the joining of several responses.
- AlertDedup.Alerts.SendLifecycleAlert: alerts without a player pass without being looked at and are left out, as are rules, messages and delivery.
- React pages apart from the line diff and the two interval functions, Discord formatting, authentication and settings would only add easy members.
