# Verification of the flux services

A model of three parts of the flux back end that work with concurrent state, and proofs about them.

1. **The task scheduler** reserves CPU and memory for tasks, kills running long tasks of lower priority to make room,
   retries through a wait queue with rising priority, and gets resources back through an asynchronous channel.
2. **The submission pipeline**: the manager and its watchers, the bot monitors, the master with its slaves, the bot
   manager, a slave's confirmation of what it submitted, and the load monitor.
3. **The tournament timeline**: locks, contests and rounds, kept in order by checks spread over three services.

## How it is built

Each part has a machine: a datatype for its state, events for what can happen, and a total `Step` in which an event
that cannot happen changes nothing. `Run` (`Execute` for the scheduler) folds steps, so a statement about runs is
about every interleaving. Code that the source writes as methods over fields is a class; its methods are proved to
make exactly such steps, or, where other goroutines may act between two database calls or while a lock is held, to
be runs of the machine with any steps of the others in between. Beside that they say in terms of the fields what
they change and when.

| file | what it models |
|---|---|
| `KillPlan.dfy` | two-component resources, the choice of victims and its optimality |
| `SchedulerModel.dfy`, `SchedulerSafety.dfy`, `SchedulerDecisions.dfy`, `SchedulerService.dfy` | the scheduler's machine, its invariants and termination measure, what its steps decide, its methods |
| `SubmissionTables.dfy` | the submission tables, the two-pointer merge, the monitor's transaction |
| `SubmissionStages.dfy`, `SubmissionService.dfy` | manager, watchers and monitors interleaving on the tables; the handlers |
| `TournamentModel.dfy`, `TournamentService.dfy` | the tables of locks, contests and rounds; the service calls |
| `MasterModel.dfy`, `LoadReport.dfy`, `MasterService.dfy` | the master's inventory, its counters, load reports; the handlers |
| `BotModel.dfy`, `BotService.dfy` | distribution and rotation of bots; the bot manager |
| `SlaveSubmission.dfy` | the confirmation loop, and slaves submitting between two refreshes |
| `StopDecision.dfy` | life signals of a bot's monitor |
| `LoadMonitor.dfy` | the one-minute window and the two averages |
| `Options.dfy`, `Sums.dfy`, `Filtering.dfy`, `Sorting.dfy` | option type, sums over maps, lists with elements left out, the contract of the library sort |

`dafny verify dfyconfig.toml` checks everything.

## Where the code and its documentation disagree

- `internal/service/submission_service/bot_manager.go:258-263` says that a slave keeps its last used bot, but writes
  it into the record that is about to be dropped. The model does what the code does: `AllHeldIffNoneTaken` says
  exactly when a bot is lost, `UsedBotIsLost` gives an instance, `KeepingLastUsedHoldsAll` proves the intended form.
- `internal/service/submission_service/nyx_master.go:463-470` means to warn about a result whose slave has left the
  inventory, but reads a field of the nil slave. `RunCrashesIff` gives the exact condition,
  `CanCrashIff` the states it threatens, `KilledSlaveThenResultCrashes` a run, `IdleDeparturesNeverCrash` runs that are
  safe.
- `internal/service/scheduler_service/schedule.go:50` refuses a request only when both components are negative.
  `FreeStaysWithinTotalIff` says exactly which requests can be let in without making more free than there is,
  `MixedSignsInventResources` gives one that cannot. Conservation needs no such condition.
- Between the check for the end of the latest round and the insert of the next one nothing holds a lock:
  `InterleavedCreationOverlaps` gives a run that ends in overlapping rounds, `TimelineOrderedIff` says exactly which
  runs stay in order, and `TimelyRoundsNeverOverlap` that rounds do not overlap in them.
- A bot with which a submission is still under way can be dealt to another slave, and then one Codeforces id is
  reported twice: `DroppedSlaveSharesItsBot`. `SuccessesHaveNewIdsIff` gives the exact condition, checkable right after
  a refresh, and `ListedSlavesStayApart` what the removal of last used bots does for it.
- A stop signal sets the start of the monitor's countdown to the time it was sent, even if an alert has moved it on
  since: `LateStopShortensGrace`, with the exact condition in `HoldsOffIff`.

## Assumptions

- Verdicts fetched from Codeforces are never flux states, and a query for a handle returns only submissions made
  with that bot; a handle's latest submission id never decreases, and a refresh does not interrupt a submission.
- UUIDs are fresh, a slave's mail id is never used twice, and the mail ids of watchers do not collide (they carry a
  prefix of a UUID).
- A transaction that has inserted a key keeps others from inserting the same key until it ends.
- A death mail comes only for a task the master has scheduled.

## Model

| member | source | states |
|---|---|---|
| KillPlan.KillsIffFeasible | internal/service/scheduler_service/plan.go:57-73 | for non-negative holdings, victims are chosen exactly when some subset of the candidates would free enough for the request |
| KillPlan.ShortestFittingPrefix | internal/service/scheduler_service/plan.go:57-73 | the victims are a prefix of the dying order that frees enough, and no shorter prefix does |
| KillPlan.NoCheaperVictims | internal/service/scheduler_service/plan.go:57-73 | every set of candidates that would do contains one that dies no earlier than the last victim chosen |
| KillPlan.SmallestMaximumPriority | internal/service/scheduler_service/plan.go:44-101 | no feasible set of victims has a smaller maximum priority than the one chosen |
| KillPlan.FreedIsHeld | internal/service/scheduler_service/plan.go:60-68 | the total the loop accumulates is the free amount plus what the set of victims holds, in any order |
| KillPlan.TakenStopsAtTheFirstFit | internal/service/scheduler_service/plan.go:60-68 | the loop stops at the first prefix that frees enough and not before |
| SchedulerService.SortWithPriorityAndLaunchTime | internal/service/scheduler_service/scheduler_utils.go:40-61 | a rearrangement of the candidates, priorities ascending and the younger first among equals |
| SchedulerService.Scheduler.ScheduleTask | internal/service/scheduler_service/schedule.go:12-45 | accepted exactly when not both components are negative, the priority is not negative and there is a launch callback; then recorded and queued last, otherwise nothing changes |
| SchedulerService.Scheduler.CleanTaskReleasedResources | internal/service/scheduler_service/scheduler_utils.go:250-259 | everything in the release channel has become free, and nothing else has changed |
| SchedulerService.Scheduler.QueueWaitingTask | internal/service/scheduler_service/scheduler_utils.go:147-158 | the entry leaves the wait queue for the end of the task queue |
| SchedulerService.Scheduler.ExecuteLongRunningTask | internal/service/scheduler_service/execute.go:73-123 | a started process runs; a failed start reports failure and returns nothing to the release channel |
| SchedulerService.Scheduler.ReleaseAfterExit | internal/service/scheduler_service/execute.go:57-60 | the resources of a task that is over go into the release channel, before its state is updated |
| SchedulerService.Scheduler.RecordResult | internal/service/scheduler_service/execute.go:125-146 | the final state and the completion callback after the release |
| SchedulerService.Scheduler.CollectCandidates | internal/service/scheduler_service/plan.go:44-54 | lists exactly the records in state running of long tasks with a priority below the request's, once each |
| SchedulerService.Scheduler.PickVictims | internal/service/scheduler_service/plan.go:44-73 | the candidates in dying order and the victims chosen from them, all running long tasks of lower priority |
| SchedulerService.Scheduler.ReserveIfGreater | internal/service/scheduler_service/scheduler_utils.go:17-38 | reserves the request exactly when both components are strictly larger |
| SchedulerService.Scheduler.Decide | internal/service/scheduler_service/plan.go:22-73 | the fast path, the choice of victims, or refusal, as one transition of the machine |
| SchedulerService.Scheduler.KillAndRecheck | internal/service/scheduler_service/plan.go:74-99 | after the kills and whatever else happens meanwhile: drain, look again, grant exactly when both components now suffice |
| SchedulerService.Scheduler.Plan | internal/service/scheduler_service/plan.go:16-102 | the whole plan, with other goroutines acting until and after each cleaning, before the decision and before the second look; keeps every safe state safe, with something free and no more than the total |
| SchedulerService.Scheduler.LaunchTask | internal/service/scheduler_service/launch.go:19-93 | one turn of the launching goroutine: a try is counted, the task is launched, failed or put off with ten more priority; keeps every safe state safe |
| SchedulerService.Scheduler.FinishLaunching | internal/service/scheduler_service/launch.go:50-92 | launched now; or failed, exactly when no try is left; or on the wait queue with ten more priority |
| SchedulerService.PlanIsARun | internal/service/scheduler_service/plan.go:16-102 | a plan, interleaved with other goroutines, is a sequence of machine steps: its own, which schedule nothing, and the listed ones of the others |
| SchedulerService.PlanKeepsSafe | internal/service/scheduler_service/plan.go:16-102 | so the account still balances after a plan, and what is free stays positive and within the total |
| SchedulerService.LaunchIsARun | internal/service/scheduler_service/launch.go:19-93 | the same for a whole launch, which adds its beginning and its end |
| SchedulerService.LaunchKeepsSafe | internal/service/scheduler_service/launch.go:19-93 | and what is free stays positive and within the total through a launch |
| SchedulerService.Scheduler.TakeVictims | internal/service/scheduler_service/plan.go:60-72 | the accumulating loop computes the chosen victims, or none when all together are not enough |
| SchedulerModel.StateFromReport | internal/service/scheduler_service/scheduler_utils.go:193-238 | every exit report maps to a final state, and to completion exactly for a clean exit or exit code zero |
| SchedulerSafety.ResourcesConserved | internal/service/scheduler_service/execute.go:57-139 | over all interleavings, free + reserved by launched unfinished tasks + in the release channel + stranded by failed starts equals the total, component by component |
| SchedulerSafety.SchedulerRunsSafely | internal/service/scheduler_service/plan.go:16-102 | as long as every accepted request is non-negative or never fits, in every reachable state every id is tracked, the account balances, and what is free stays positive and within the total |
| SchedulerSafety.FreeStaysWithinTotalIff | internal/service/scheduler_service/schedule.go:47-72 | for any set of requests let in: every run keeps what is free within the total exactly when each valid one is non-negative in both components or does not fit into the whole machine |
| SchedulerSafety.LoneRequestIsGranted | internal/service/scheduler_service/plan.go:22-31 | a valid request that fits, alone in the scheduler, is granted whatever its signs: what is free becomes the total minus the request |
| SchedulerSafety.MixedSignsInventResources | internal/service/scheduler_service/schedule.go:47-72 | validation refuses only requests negative in both components: a valid one leaves more free than exists, on any machine |
| SchedulerSafety.ChoiceIsOptimal | internal/service/scheduler_service/plan.go:44-101 | inside the machine: kills exactly when killing can help, otherwise nothing changes, and no feasible set has a smaller maximum priority |
| SchedulerDecisions.VictimsAreLowerRunning | internal/service/scheduler_service/plan.go:44-54 | every victim is the record of a running long task with a priority below the request's, each at most once |
| SchedulerDecisions.KillsIffSomeWouldDo | internal/service/scheduler_service/plan.go:44-73 | killing starts exactly when some set of such records would free enough; otherwise the request is denied and nothing else changes |
| SchedulerDecisions.SparedOutrankVictims | internal/service/scheduler_service/scheduler_utils.go:40-61 | a lower-priority running task that is spared has a higher priority than each victim, or the same and was not launched later |
| SchedulerDecisions.DeniedFailsIffOutOfTries | internal/service/scheduler_service/launch.go:50-92 | a denied task is finished and failed exactly when its tries have reached the retries, and on the wait queue with ten more priority exactly when not |
| SchedulerDecisions.GivenUpAfterAllTries | internal/service/scheduler_service/launch.go:43-92 | over all runs: a task never granted is given up after exactly max(1, retries) tries, and until then has gained ten points per try |
| SchedulerDecisions.BeginTakesTheFirst | internal/service/scheduler_service/launch.go:13-45 | the task that has waited longest is tried next, and the try is counted |
| SchedulerDecisions.GrantedIsLaunched | internal/service/scheduler_service/launch.go:86-92 | a granted task goes to a goroutine that executes it, launched now |
| SchedulerDecisions.RecheckGrantsIff | internal/service/scheduler_service/plan.go:74-99 | the second look grants exactly when both components suffice |
| SchedulerDecisions.UnknownTypeFails | internal/service/scheduler_service/execute.go:49-63 | a task of an unknown execution type ends failed and gives back what it held |
| SchedulerSafety.RunKeepsTracked | internal/service/scheduler_service/launch.go:43-92 | every accepted id is in exactly one of task queue, wait queue, launch, execution, finished; its priority is the initial one plus ten for every postponement and its tries stay within max(1, retries) |
| SchedulerSafety.CallbacksAtMostOnce | internal/service/scheduler_service/execute.go:94-146 | each callback fires at most once, completion only after a launch callback, never after a failed start; tries within the limit |
| SchedulerSafety.CompletionNeedsAStart | internal/service/scheduler_service/execute.go:73-146 | the completion callback fires only on a running record, and only a successful start makes a record running |
| SchedulerSafety.FinalStateNeverChanges | internal/service/scheduler_service/execute.go:12-146 | a record in a final state is never changed by any run |
| SchedulerProgress.StepReducesWork | internal/service/service.go:99-129 | every step other than a new request lowers a measure in which the remaining tries dominate |
| SchedulerProgress.RunsOutOfSteps | internal/service/scheduler_service/launch.go:43-92 | so a run without new requests has no more steps than the measure it starts with |
| Sorting.SortSlice | internal/service/scheduler_service/scheduler_utils.go:40-61 | the contract of the library sort: a permutation with no element before one it should follow |
| StagesMoveForward.StagesAreOneWay | internal/service/submission_service/nyx_watcher.go:342-400 | in every interleaving of watchers, manager and monitors, stages only move from the flux states to non-sink to sink |
| StagesMoveForward.StepKeepsSound | internal/service/submission_service/nyx_watcher.go:224-400 | each single step, including reads made outside the transaction that writes, keeps the invariant and moves no stage back |
| StagesMoveForward.RowsAgreeWithStates | sql/schema/009_submissions.sql:15-23 | in every reachable state a submission has a cf_submissions row exactly when its state is not a flux state |
| StagesMoveForward.SingleWatcher | internal/service/submission_service/nyx_manager.go:161-190 | a submission without a row has at most one watcher that has not ended |
| StagesMoveForward.MonitorTables | internal/service/submission_service/cf_bot_monitor.go:250-287 | a monitor's transaction moves no stage back, loses no row and leaves the submissions of other bots alone |
| StagesMoveForward.WatcherLeavesRow | internal/service/submission_service/nyx_watcher.go:224-327 | watchers never move a row a monitor has read |
| StagesMoveForward.OtherMonitorLeavesRow | sql/queries/submissions.sql:53-57 | nor do the monitors of other bots |
| StagesMoveForward.MailMeansRow | internal/service/submission_service/nyx_manager.go:105-138 | the manager forgets a watcher only for a submission that has its row |
| StagesMoveForward.SharedEntryGoesBackwards | internal/service/submission_service/cf_bot_monitor.go:185-290 | were one entry given to two monitors, the later transaction could undo a sink state |
| SubmissionService.Pipeline.HandleSubmission | internal/service/submission_service/nyx_manager.go:161-190 | passes the submission to its watcher and creates one only when there is none |
| SubmissionService.Pipeline.HandleCfSubResult | internal/service/submission_service/nyx_manager.go:105-138 | removes the watcher of the submission, if present |
| SubmissionService.Pipeline.MayMove | internal/service/submission_service/nyx_watcher.go:345-400 | the check admits exactly the moves that do not go back and do not start at a sink state |
| SubmissionService.Pipeline.CfSubmit | internal/service/submission_service/nyx_watcher.go:115-222 | is a run of the machine whose own steps follow the handler; ends the watch exactly when the row is there; asks the master exactly when all reads succeed |
| SubmissionService.Pipeline.HandleSubResult | internal/service/submission_service/nyx_watcher.go:224-327 | is a run of the machine with other goroutines between its database calls; commits exactly when no call fails, no key is a duplicate and the state read may change; a commit writes the verdict, the time, the memory and the tests passed of the result, nothing else, and tells the manager; the watch ends exactly after a duplicate or a commit |
| SubmissionService.Pipeline.UpdateSubStateToFailure | internal/service/submission_service/nyx_watcher.go:333-340 | the deferred update as a run: writes flux_failed, and nothing else, exactly when no call fails and the state read is a flux state |
| SubmissionService.Pipeline.FinishTransaction | internal/service/submission_service/nyx_watcher.go:293-327 | state check and commit as a run; commits exactly when the calls succeed and the state read may change, and writes exactly the result |
| SubmissionService.NewResultsAreAdmitted | internal/service/submission_service/nyx_watcher.go:293-300 | in every reachable state the check admits a result that was inserted, whatever others do in between |
| SubmissionService.FailedAttemptsAreRecorded | internal/service/submission_service/nyx_watcher.go:333-400 | in every reachable state an attempt that leaves the submission without a row finds it in a flux state, so the deferred update writes |
| SubmissionTables.FinalVerdicts | internal/service/submission_service/nyx_models.go:22-26 | the fifteen sink states, none of them a flux state |
| MergeUpdates.MergeEntries | internal/service/submission_service/cf_bot_monitor.go:218-243 | the two-pointer loop over sorted lists yields six columns of equal length that are, row by row, the nested-loop join |
| MergeUpdates.JoinExact | internal/service/submission_service/cf_bot_monitor.go:218-243 | an update is listed exactly for an id present on both sides with differing fields, with the database's submission id |
| MergeUpdates.JoinAscending | internal/service/submission_service/cf_bot_monitor.go:218-243 | the updates come in id order, each id once |
| MergeUpdates.UpdateReconciles | sql/queries/submissions.sql:59-89 | applying the updates makes every open fetched row equal to the fetched one and leaves all others unchanged |
| MergeUpdates.SecondPassFindsNothing | internal/service/submission_service/cf_bot_monitor.go:185-290 | a second pass over the same fetch has nothing to update |
| MonitorUpdate.SubmissionDb.GetBulkEntries | sql/queries/submissions.sql:53-57 | exactly the rows of submissions that have not reached a sink state, ids distinct |
| MonitorUpdate.SubmissionDb.UpdateEntriesIntoDb | internal/service/submission_service/cf_bot_monitor.go:185-290 | reports whether some open row differs from the fetch; when query and transaction succeed, each open fetched row and its submission hold what was fetched, column by column, and all others are as before |
| MonitorUpdate.StaleRowsMeanUpdates | internal/service/submission_service/cf_bot_monitor.go:233-248 | the join is non-empty exactly when some open row differs from what was fetched |
| MonitorUpdate.SortHttp | internal/service/submission_service/cf_bot_monitor.go:191-192 | fetched entries in ascending id order |
| MonitorUpdate.SortDb | internal/service/submission_service/cf_bot_monitor.go:207-208 | database entries in ascending id order |
| TournamentTimeline.RoundsNeverOverlap | internal/service/tournament_service/change_tournament_contest.go:47-129 | in every store that calls taken as single steps can produce, every contest of a round ends no later than any contest of a later round starts, and no contest is in two rounds of a tournament |
| TournamentTimeline.TimelyRoundsNeverOverlap | internal/service/tournament_service/create_tournament_round.go:39-95 | the same with round creation split in two, when each insert comes after the contests of the latest round have ended |
| TournamentTimeline.TimelineOrderedIff | internal/service/tournament_service/create_tournament_round.go:39-95 | under a non-decreasing clock and with creation split, a run goes through stores in order all the way exactly when each of its inserts waits for the end of the latest round |
| TournamentTimeline.StepKeepsOrderedIff | internal/service/tournament_service/create_tournament_round.go:39-95 | one call keeps the store in order exactly when it is not such an early insert |
| TournamentTimeline.StepKeepsFixed | internal/service/lock_service/update_lock.go:70-89 | no call changes the times of a contest that hangs on a timer lock |
| TournamentTimeline.NewLinks | internal/service/tournament_service/change_tournament_contest.go:145-208 | a newly linked contest is fixed, belongs to the latest round and has not started |
| TournamentTimeline.CreationWaitsForTheLatest | internal/service/tournament_service/create_tournament_round.go:39-57 | a round can be created only when every contest of the latest one has ended |
| TournamentTimeline.RoundNumbersContiguous | sql/schema/007_tournaments.sql:41-59 | round numbers are exactly 1..Rounds in every reachable store, even when creators interleave between read and insert |
| TournamentTimeline.OnlyNextIsInserted | internal/service/tournament_service/create_tournament_round.go:78-95 | the uniqueness constraint lets only the next number through, however old the number read was |
| TournamentTimeline.LateInsertKeepsOrderIff | internal/service/tournament_service/create_tournament_round.go:39-95 | with check and insert apart, the insert keeps earlier rounds ended exactly when the check would pass again |
| TournamentTimeline.InterleavedCreationOverlaps | internal/service/tournament_service/create_tournament_round.go:39-95 | a concrete interleaving of a creation with a change of contests gives overlapping rounds |
| TournamentTimeline.HalvesMakeACreation | internal/service/tournament_service/create_tournament_round.go:39-95 | check and insert with nothing in between are the creation in one step |
| TournamentService.Services.CreateLock | internal/service/lock_service/create_lock.go:13-56 | accepted exactly for a valid lock; the only change is the new row |
| TournamentService.Services.UpdateLock | internal/service/lock_service/update_lock.go:12-89 | timer locks and changes of kind are refused |
| TournamentService.Services.DeleteLock | internal/service/lock_service/delete_lock.go:13-58 | timer locks and locks in use are never deleted |
| TournamentService.Services.CreateContest | internal/service/contest_service/create_contest.go:14-144 | contests enter the store only as valid private or public ones |
| TournamentService.Services.UpdateContest | internal/service/contest_service/update_contest.go:11-67 | public contests are refused; the statement looks for the all-zero id |
| TournamentService.Services.DeleteContest | internal/service/contest_service/delete_contest.go:13-94 | accepted exactly under the checks of the source, and removes the row with its links |
| TournamentService.Services.CreateTournament | internal/service/tournament_service/create_tournament.go:13-61 | the new tournament has no rounds |
| TournamentService.Services.LatestRoundNumber | sql/queries/tournaments.sql:35-51 | the loop computes the greatest round number, 0 when there is none |
| TournamentService.Services.RoundEndTime | sql/queries/tournaments.sql:7-26 | the latest end time among the contests of the latest round, the epoch when there is none |
| TournamentService.Services.CreateTournamentRound | internal/service/tournament_service/create_tournament_round.go:14-105 | accepted exactly when the latest round has ended and the lock is a manual one; inserts the next number |
| TournamentService.Services.ValidateTournamentContests | internal/service/tournament_service/change_tournament_contest.go:145-208 | all requested contests exist and each is public, timed by a timer lock and not started |
| TournamentService.Services.ChangeTournamentContests | internal/service/tournament_service/change_tournament_contest.go:17-143 | accepted exactly for distinct, existing, timed and unstarted contests of the latest round; afterwards the round holds exactly the contests asked for, and every other round what it held |
| SlaveLifecycle.SlavesLiveOnce | internal/service/submission_service/nyx_master.go:606-744 | under any order and repetition of mails a slave task is in at most one of pending, active and killed, and in none for ever once its death mail was handled |
| SlaveLifecycle.StepKeepsOneLife | internal/service/submission_service/nyx_master.go:660-744 | each mail keeps that |
| SlaveLifecycle.KeepAndDrop | internal/service/submission_service/nyx_master.go:921-940 | omitting moves slaves between the two lists and loses none |
| SlaveLifecycle.KeepIsExact | internal/service/submission_service/nyx_master.go:921-940 | the slaves kept are those with other mail ids, as often as they were there and in order |
| SlaveLifecycle.DropIsExact | internal/service/submission_service/nyx_master.go:921-940 | the slaves omitted are the others, as often as they were there and in order |
| MasterService.DeathTakesOnlyItsTask | internal/service/submission_service/nyx_master.go:660-744 | a death mail takes its task out of the first of the active, killed and pending slaves that has it, and leaves everything else as it is |
| SlaveLoads.CountersAgreeWithIndex | internal/service/submission_service/nyx_master.go:330-473 | duplicates, reassignment and late results included, every inventoried slave's counter is the number of active entries naming it, hence never negative |
| SlaveLoads.RunCrashesIff | internal/service/submission_service/nyx_master.go:463-473 | a run meets the nil slave exactly when a result arrives in it for a submission active on a slave that has left the inventory |
| SlaveLoads.CanCrashIff | internal/service/submission_service/nyx_master.go:463-473 | some mail can crash a state exactly when it has an active submission whose slave has left the inventory |
| SlaveLoads.KilledSlaveThenResultCrashes | internal/service/submission_service/nyx_master.go:463-473 | a concrete run that does: the slave is killed while it works |
| SlaveLoads.IdleDeparturesNeverCrash | internal/service/submission_service/nyx_master.go:424-473 | on runs in which only idle slaves are killed or die the nil slave is never met |
| SlaveLoads.FreshRequestsStayBalanced | internal/service/submission_service/nyx_master.go:386-403 | requests for new submissions alone keep the loads within one of each other, and each adds one |
| MasterModel.LeastLoaded | internal/service/submission_service/nyx_master.go:386-392 | the first slave with the smallest load |
| MasterService.Master.HandleCfSubRequest | internal/service/submission_service/nyx_master.go:330-422 | a duplicate is ignored exactly while its slave is in the inventory; otherwise the least loaded slave is asked and the entry names it |
| MasterService.Master.HandleCfSubResult | internal/service/submission_service/nyx_master.go:424-473 | the watcher that asked is told, the entry goes and its slave's load falls by one |
| MasterService.Master.NextSlave | internal/service/submission_service/nyx_master.go:386-392 | the scan finds the first least loaded slave |
| MasterService.Master.SlaveExist | internal/service/submission_service/nyx_master.go:946-953 | true exactly when a slave in the inventory has the mail id |
| MasterService.Master.GetSlaveByMailID | internal/service/submission_service/nyx_master.go:1008-1015 | the first slave with the mail id, if any |
| MasterService.Master.HandleSlaveReady | internal/service/submission_service/nyx_master.go:606-658 | a pending slave becomes active with no submissions; anything else changes nothing |
| MasterService.Master.HandleDeadSlave | internal/service/submission_service/nyx_master.go:660-744 | the dead slave leaves the list it is in, looked for among active, killed, pending in this order |
| MasterService.Master.OmitSlaves | internal/service/submission_service/nyx_master.go:921-940 | exactly the named slaves move to the end of the killed list, exactly the others stay, both in order |
| MasterService.Master.KillSlaveWithID | internal/service/submission_service/nyx_master.go:890-919 | moves the slave exactly when it exists and the scheduler agrees |
| MasterService.Master.KillLeastRecentlyUsedSlaves | internal/service/submission_service/nyx_master.go:847-888 | omits those of the least loaded slaves that the scheduler agrees to kill, no more than asked |
| MasterService.Master.StartSlave | internal/service/submission_service/nyx_master.go:958-1006 | a task the scheduler accepted becomes pending |
| MasterService.Master.LaunchSlaves | internal/service/submission_service/nyx_master.go:806-820 | one request per missing slave, with priorities falling by ten from 80 down to 30 |
| MasterService.Master.HandleLoadReport | internal/service/submission_service/nyx_master.go:791-845 | the cap computed from the report decides launches and kills |
| LoadReport.NeverLaunchesAndKills | internal/service/submission_service/nyx_master.go:791-845 | a report never both launches and kills |
| LoadReport.ReportLeavesEnough | internal/service/submission_service/nyx_master.go:791-888 | killing leaves at least max(1, cap) and never the last slave, whatever the scheduler refuses; when all launches succeed active + pending reach max(1, cap) |
| LoadReport.RepeatedReportDoesNothing | internal/service/submission_service/nyx_master.go:791-845 | when launches and kills succeed, the same report at once again changes nothing |
| LoadReport.LeastUsedGo | internal/service/submission_service/nyx_master.go:847-888 | a killed slave has no more active submissions than any that stays without the scheduler having refused to kill it |
| LoadReport.SlavesFitTheLoad | internal/service/submission_service/nyx_master.go:791-845 | when launches and kills succeed: with those on their way at least one, and at least as many as half the bots or the load minus 0.4; no launch beyond the load plus 0.6 or half the bots; at most one active slave more than these; nobody killed unless two were too many |
| LoadReport.RecommendationRoundsUp | internal/service/submission_service/nyx_master.go:794-797 | the recommendation is the only whole number from the load minus 0.4, exclusive, to the load plus 0.6 |
| BotPartition.RefreshHoldsTheRest | internal/service/submission_service/bot_manager.go:219-288 | in any map order every list is at most ceil(n/m) long, no bot is in two places, and together they hold exactly the bots not taken out as last used |
| BotPartition.AllHeldIffNoneTaken | internal/service/submission_service/bot_manager.go:258-267 | every bot is held once exactly when no slave's last used bot was taken out |
| BotService.UsedBotIsLost | internal/service/submission_service/bot_manager.go:258-267 | one slave that has used its one bot is left without any by the next refresh |
| BotPartition.KeepingLastUsedHoldsAll | internal/service/submission_service/bot_manager.go:258-288 | were each slave's last used bot put into its new record, every bot would be held exactly once, last used ones first in the list of the slave that used them |
| BotPartition.RefreshedOnce | internal/service/submission_service/bot_manager.go:158-291 | every outcome of a refresh, early returns included, has no bot in two places and holds exactly the bots not taken out |
| BotService.BotManager.RefreshBots | internal/service/submission_service/bot_manager.go:158-291 | both early returns, new monitors, and otherwise the dealing out described above |
| BotService.BotManager.TakeLastUsed | internal/service/submission_service/bot_manager.go:225-264 | every listed slave gets an empty record, and the last used bots that still exist leave the bots to hand out |
| BotService.BotManager.Distribute | internal/service/submission_service/bot_manager.go:266-288 | lists filled one after the other up to the quota, in any order of slaves and bots |
| BotService.BotManager.SignalMonitors | internal/service/submission_service/bot_manager.go:162-199 | stops the monitors of absent bots, keeps the others, starts those of new bots |
| BotService.BotManager.GetBot | internal/service/submission_service/bot_manager.go:312-344 | the next bot of the slave's list in turn; errors for unknown slaves and empty lists |
| BotService.BotManager.DeleteBotFromDist | internal/service/submission_service/bot_manager.go:143-156 | in every list the entries for the bot are gone, each other entry is there as often as before and in the old order, and the pointers stay |
| BotService.BotManager.HandleCorruptedBot | internal/service/submission_service/bot_manager.go:95-121 | deletes the bot and stops its monitor if there is one |
| BotRotation.RotationIsFair | internal/service/submission_service/bot_manager.go:338-343 | from a fresh record, n requests give each of k bots n/k turns, the first n mod k of them one more, whatever other slaves ask in between |
| BotRotation.HandedInTurn | internal/service/submission_service/bot_manager.go:338-343 | the i-th bot handed out is the i-th from the record's position, round and round |
| BotRotation.AlwaysInRange | internal/service/submission_service/bot_manager.go:312-344 | under any interleaving of requests, deletions and refreshes the bot handed out is one of the slave's |
| BotRotation.CorruptedIsNeverHanded | internal/service/submission_service/bot_manager.go:95-102 | a bot reported corrupted is handed to nobody until a refresh supplies it |
| BotRotation.StepKeepsBotsApart | internal/service/submission_service/bot_manager.go:143-156 | requests and deletions never put a bot in two places |
| BotRotation.DeletionIsExact | internal/service/submission_service/bot_manager.go:143-156 | the same for one list |
| SlaveConfirm.Confirm | internal/service/submission_service/nyx_slave.go:391-417 | success exactly when the first reply that is neither an error nor the old id is larger than the old id, within three tries |
| BotIds.SuccessesHaveNewIdsIff | internal/service/submission_service/nyx_slave.go:310-434 | after any history that ends with a refresh: every continuation up to the next refresh reports strictly increasing ids for each bot, over all successes, exactly when no bot in use is in another slave's new list or in use at another slave |
| BotIds.IdsIncreaseIff | internal/service/submission_service/nyx_slave.go:310-434 | the same for any sane state right after a refresh |
| BotIds.ListedSlavesStayApart | internal/service/submission_service/bot_manager.go:225-264 | taking out last used bots makes a refresh safe in that sense when every slave at work is on the list and its record still points at the bot it uses |
| BotIds.IsHanded | internal/service/submission_service/bot_manager.go:338-343 | a slave that keeps asking is handed each bot of its list |
| BotIds.DroppedSlaveSharesItsBot | internal/service/submission_service/nyx_slave.go:391-417 | two refreshes from the start reach a state in which an id can repeat: a slave at work is dropped from the list and its bot is dealt to another |
| StopDecision.StopsIffLatestIsStop | internal/service/submission_service/cf_bot_monitor.go:76-108 | for signals with distinct times after the start, whatever mails interleave, the latest one is kept and the end of life holds exactly when it is a stop |
| StopDecision.OrderIsIrrelevantIff | internal/service/submission_service/cf_bot_monitor.go:76-108 | the decision is the same for every order of delivery exactly when signals sent at the same latest moment are of one kind |
| StopDecision.OnlySignalsDecide | internal/service/submission_service/cf_bot_monitor.go:76-108 | no other mail has any part in it |
| StopDecision.StoppedByLatestSignal | internal/service/submission_service/cf_bot_monitor.go:109-128 | a monitor that stops was last told to |
| StopDecision.HoldsOffIff | internal/service/submission_service/cf_bot_monitor.go:76-108 | the countdown never starts before a given time exactly when no mail that moves it carries an older one |
| StopDecision.AlertGivesFiveMinutes | internal/service/submission_service/cf_bot_monitor.go:95-128 | so after a submission alert the monitor goes on for five minutes |
| StopDecision.LateStopShortensGrace | internal/service/submission_service/cf_bot_monitor.go:77-83 | unless a stop signal sent before the alert arrives after it |
| StopDecision.CfBotMonitor.ProcessMail | internal/service/submission_service/cf_bot_monitor.go:76-108 | the effect of each mail on the decision and on the map of statuses |
| StopDecision.CfBotMonitor.ProcessTick | internal/service/submission_service/cf_bot_monitor.go:109-128 | stops exactly when life is over and five minutes have passed since the last stop decision |
| LoadMonitor.LoadManager.MonitorLoad | internal/service/submission_service/nyx_load_monitor.go:59-94 | evicts exactly what is a minute old and averages over the size of what is left |
| LoadMonitor.NewerKeepsExactly | internal/service/submission_service/nyx_load_monitor.go:65-82 | each newer time stays as often as it was there, each older one goes |
| LoadMonitor.LoadManager.Add | internal/service/submission_service/nyx_load_monitor.go:33-43 | the queue hands out the oldest time first |
| LoadMonitor.AverageIsWeightedSum | internal/service/submission_service/nyx_load_monitor.go:83-90 | after n ticks the average is the start decayed by 0.45^n plus the sum of 0.55 * 0.45^(n-k) * c_k |
| LoadMonitor.AverageIsBounded | internal/service/submission_service/nyx_load_monitor.go:83-90 | from 0 it lies between 0 and max(c) * (1 - 0.45^n) |
| LoadMonitor.ConstantLoadContracts | internal/service/submission_service/nyx_load_monitor.go:83-90 | towards a constant load the distance shrinks by 0.45 per tick |
| LoadMonitor.LoadManager.MonitorSubTime | internal/service/submission_service/nyx_load_monitor.go:123-151 | blends the sample into the average with the exponential of the time since the last one, five milliseconds for samples out of order |
| LoadMonitor.SameSamplesCompose | internal/service/submission_service/nyx_load_monitor.go:138-147 | by the law of the exponential, two samples of one duration weigh as much as one after the whole time |
| LoadMonitor.LongerGapsTrustTheSample | internal/service/submission_service/nyx_load_monitor.go:138-147 | the longer ago the last sample, the nearer to the new one the average moves |
| LoadMonitor.BlendStaysBetween | internal/service/submission_service/nyx_load_monitor.go:141-147 | the new average lies between the old one and the sample, strictly for a weight strictly between 0 and 1 |

## Left out

- HTTP handlers, JSON, authentication, e-mail, logging, files, sockets, OS processes and signals: started or not,
  exited, killed, reply or error are parameters and events.
- Problem, user and role services, pagination and search filters: lookups that would only add easy members.
- Bounded channels, deadlock and liveness: `ScheduleTask` sends while it holds the lock `launchTask` needs; channels
  are unbounded here and only safety (and the bound on the number of steps) is proved.
- 32-bit width of resources and priorities: what is free stays within the total for the requests
  `FreeStaysWithinTotalIff` describes, so it does not wrap; the running
  sum over victims and the priority that grows by ten are unbounded here.
- The pass over all tasks that collects victims sees one state of the records, although the source locks them one by
  one; a victim whose release was already drained is covered.
- Records the source holds by pointer (tasks, slave containers, bot records) are values in the maps and lists of
  their owner; sharing one record between two owners is not modelled.
- `sort.Slice`, the priority queue of the lane library, the validator and pgx are represented by their contracts; the
  sort is a method on values that returns the rearranged list.
- The watcher restart after a panic (`handleFailedWatcher`), and mails the code sends to the wrong recipient or with
  the wrong kind of name (`watcherFailed`, `mnrStopped`): no property rests on them.
- The replacement of empty verdicts, which the source writes to a loop copy.
- `handleSlaveBotError`: it kills through the same method as a load report, but promises no floor.
- Errors of the tournament, contest and lock calls are only accepted or refused, without their kind.
- TournamentTimeline.RoundsNeverOverlap: each service call is one step; with creation split the statement is
  TimelyRoundsNeverOverlap.
- LoadMonitor.LoadManager.MonitorSubTime: over reals, without rounding; the exponential is any function with its law.
