# Goalflow: a verified model of its backend's hard parts

The backend keeps its promises through small atomic steps on a handful of tables. This project models
those steps in Dafny and proves what holds over every interleaving, every input and every run. Nothing was executed.

Methods stand for the functions that update rows, loop or fill dictionaries; each is proved equal to a
specification function, and the theorems are about those functions and about runs of them.

| part | files |
|---|---|
| durable jobs: submit, claim, renew, stage, commit, settle, stale, cancel, recover, outbox | `JobModel`, `JobInvariant`, `JobTheorems`, `JobLeases`, `JobEffects`, `JobTables`, `JobOutcome`, `JobRun` |
| the event stream reader | `JobStream` |
| the deterministic scheduler | `Tasks`, `Ordering`, `Engine`, `EngineProofs`, `EnginePlans`, `EnginePriority`, `EngineRisks`, `EngineOrder` |
| snapshot, day constraints and the must-do budget check | `Planning`, `PlanningInputs` |
| optimistic agenda generation, and as jobs | `AgendaGeneration`, `AgendaJobs` |
| dependency graph, goal links, unlink proposals | `CycleSearch`, `LinkModel`, `LinkProofs`, `LinkEffects`, `LinkCommands` |
| idempotency store | `Idempotency` |
| fixed-window limiter | `Limiter` |

## How to read it

- A write transaction is one step, because `Database.write()` is BEGIN IMMEDIATE; a read transaction sees one
  state. A transaction that raises changes nothing. A run is any sequence of steps by any actors.
- Ids and lease tokens are fresh: jobs and tokens come from one counter, link and proposal rows are
  numbered by position since they are never deleted.
- Instants are microseconds and dates are day numbers, both plain integers. Clock readings are inputs.
- A worker's handler, its commit callback, the delivery of broker messages and everybody else's steps are
  inputs too, so a statement about `RunJob` or `GenerateAgenda` covers every behaviour of them.
- A job entry holds the job row, its event log, its outbox rows and the business rows its commit wrote.
- Owning a job means holding its current token. An expired lease that nobody has recovered still commits,
  as in the code.

## Where the code and its documents disagree, or a promise has an exact limit

- `docs/development/13-scheduling-engine.md` (section 7) and the description of `UserPlanningState` say that task status
  changes bump the planning revision. The code does not. So agenda validation covers preferences, availability, overrides,
  constraints and link edges; `UnguardedInputsMayBeOld` is the concrete run in which a status change slips through, and
  `StoredUnguardedInputs` says which value is stored and exactly when it is current.
- For the same reason the edges an unlink proposal shows are exact when it is accepted, but its split into satisfied
  and unsatisfied ones may be old (`ImpactMayBeOld`); `SplitCurrentExactly` says when it is current.
- `confirm_goal_link` asks for the dependencies of the proposal, but the link does not remember them
  (`ProposeForgetsDependencies`), so others may be confirmed (`ConfirmMayDiffer`, `ConfirmStoresItsOwn`).
- Every link command hashes only its operation name (`_idempotent_request` is always given no body), and so does
  `ensure_agenda`. So one key used for two links, or for two dates, replays the first result: `OneKeyTwoLinks`, and
  `BodilessReplayedExactly` for when.
- The mandatory-overflow conflict lists tasks in the order they were read. Everything else about a plan is independent
  of that order; `OverflowConflictFollowsListing` says when two listings give the same conflicts.
- The must-do check looks at specifications, the engine at what is left of running tasks and at what locks were planned
  with. `AcceptedConflictsExactly` says exactly when an accepted constraint leads to a conflict: never for a task that is
  not running on a day without locks (`AcceptedConstraintNeverConflicts`), and `RunningTaskMayConflict` and
  `LockedTaskMayConflict` are two that do.
- A flexible task of no minutes gets an item of no minutes while time is left (`ZeroMinuteItem`), which the agenda table's
  CHECK refuses; `ItemsPositiveExactly` says when a plan is free of such items.
- The limiter lets through up to `2 * limit - 1` hits in one window length, not `limit`; `AtMostTwiceTheLimit` and
  `TheBoundIsReached` show that this is the exact maximum.

## Model

| member | source | states |
|---|---|---|
| JobTheorems.ForeignTokenChangesNothing | backend/src/goalflow/jobs/store.py:134-168 | any renew, stage, commit, settle or stale step under a token that is not the job's current one leaves every table as it was |
| JobTheorems.LostLeaseStaysLost | backend/src/goalflow/jobs/worker.py:119-152 | a token once lost is never current again, in any run |
| JobTheorems.LateWorkerIsInvisible | backend/src/goalflow/jobs/worker.py:155-303 | removing all steps of an attempt that lost its lease, wherever they fall in a run, gives the same final tables |
| JobTheorems.OnlyTheHolderCommits | backend/src/goalflow/jobs/worker.py:155-206 | business rows change only in a commit under the current token with no cancel request, and exactly when the job turns succeeded |
| JobTheorems.BusinessWrittenExactlyOnce | backend/src/goalflow/jobs/worker.py:155-206 | in every reachable state a job has one set of business rows if it succeeded, the ones its result refers to, and none otherwise |
| JobInvariant.StepKeepsInv | backend/src/goalflow/jobs/service.py:71-122 | every step keeps the column, attempt, effect and log invariants of all rows, the unique (owner, kind, dedupe key) and the distinctness of tokens |
| JobInvariant.RunKeepsInv | backend/src/goalflow/jobs/worker.py:63-303 | so does every run |
| JobInvariant.RunEvolves | backend/src/goalflow/jobs/store.py:65-111 | over any run a job keeps its identity, its log and business rows only grow, a finished row is frozen, a cancel request stays |
| JobTheorems.LogRefinesStatus | backend/src/goalflow/jobs/store.py:83-168 | in every reachable state events are numbered 1..n, replaying them gives the status, started events count the attempts, a confirmation request is followed at once by completion, nothing follows a terminal event |
| JobTheorems.AcceptedLogShape | backend/src/goalflow/jobs/worker.py:166-203 | what the replay automaton accepts has that shape |
| JobTheorems.BoundedLife | backend/src/goalflow/jobs/store.py:141-163 | after submission at most eight status changes and three attempts, in any run |
| JobTheorems.ChangesCostMoves | backend/src/goalflow/jobs/worker.py:119-152 | each status change uses up the measure on attempts left and status |
| JobTheorems.FinishedIsFinal | backend/src/goalflow/jobs/store.py:65-80 | a finished job's row, log and business rows never change again |
| JobTheorems.BackoffInRange | backend/src/goalflow/jobs/store.py:56-58 | a retry is scheduled only by settling, after the first or second attempt, at that attempt's delay, so the table index is in range |
| JobTheorems.CancelIsSticky | backend/src/goalflow/jobs/service.py:174-215 | once a cancel request is on record the job is running or cancelled in every later state, without business rows |
| JobTheorems.AcceptedCancelPreventsResults | backend/src/goalflow/jobs/service.py:174-215 | after an accepted cancel every run ends running or cancelled and writes nothing |
| JobTheorems.RecoverLeavesNothingStuck | backend/src/goalflow/jobs/service.py:291-355 | after a scan every running job's lease reaches now, every waiting job is due later, every queued job was updated or sent recently |
| JobTheorems.QuietScanChangesNothing | backend/src/goalflow/jobs/service.py:291-355 | a scan with nothing stuck changes no row and reports zeros |
| JobTheorems.RecoverTwice | backend/src/goalflow/jobs/service.py:291-355 | a second scan at the same instant does nothing |
| JobTheorems.ResubmitReturnsTheSameJob | backend/src/goalflow/jobs/service.py:71-122 | while a job holds its key, resubmission in any later state creates nothing and no other job has the key |
| JobTheorems.OutboxBackoffDoublesToTheCap | backend/src/goalflow/jobs/store.py:61-62 | the resend delay starts at 10 s, doubles, and stays at ten minutes |
| JobLeases.LeaseIsRespected | backend/src/goalflow/jobs/worker.py:338-361 | while a lease runs, no step of anybody else takes the attempt away, in any run: not a cancel request, not a late worker, not a scan up to the end of the lease |
| JobLeases.RenewalHolds | backend/src/goalflow/jobs/worker.py:338-361 | after a renewal by the holder at `now` for `lease`, a scan up to `now + lease` leaves the job exactly as it is under that token; any later one takes it away: cancelled, waiting or failed, and logged |
| JobLeases.ClaimHolds | backend/src/goalflow/jobs/worker.py:119-152 | the same after a claim |
| JobLeases.ScanAtTheEnd | backend/src/goalflow/jobs/service.py:298-319 | the same for any lease, whoever set it |
| JobLeases.RenewalLeases | backend/src/goalflow/jobs/worker.py:338-361 | a renewal moves the end of the lease to `now + lease` and touches nothing else of the job, not even the revision a cancel request names |
| JobLeases.ClaimLeases | backend/src/goalflow/jobs/worker.py:119-152 | a claim of a queued job starts its next attempt under the fresh token, for exactly the lease, and logs it |
| JobLeases.OnlyQueuedIsClaimed | backend/src/goalflow/jobs/worker.py:119-152 | a claim of a job that is not queued changes no row |
| JobLeases.QueueingIsAnnounced | backend/src/goalflow/jobs/service.py:218-231 | only submitting and scanning queue a job, and each time one new outbox row is left, pending, never tried and due at once |
| JobLeases.ForgottenIsAnnounced | backend/src/goalflow/jobs/service.py:339-347 | a scan announces a queued job once more exactly if neither the job nor its outbox moved in the last five minutes |
| JobEffects.ChangesAreStamped | backend/src/goalflow/jobs/store.py:65-111 | in every step the revision and the time of change move exactly when the status or the cancel request does, and what is logged, finished or requested carries the time and the owner |
| JobEffects.SubmitExactly | backend/src/goalflow/jobs/service.py:71-122 | one job appears exactly if the kind is registered, the key has 1 to 200 characters and no waiting, running or succeeded job has it; the new job is untouched, logged and announced; otherwise nothing changes |
| JobEffects.CancelAnswersExactly | backend/src/goalflow/jobs/service.py:182-194 | when each of the four answers is given |
| JobEffects.CancelExactly | backend/src/goalflow/jobs/service.py:174-215 | an accepted request only marks a running job, and ends a waiting one with a last event; any other answer changes nothing |
| JobEffects.StageExactly | backend/src/goalflow/jobs/handlers.py:112-134 | one event exactly while the token is current, and nothing else |
| JobEffects.CommitLogsExactly | backend/src/goalflow/jobs/worker.py:166-203 | what a commit leaves: status, result, business rows, and the wait for a confirmation before the completion exactly if the result asks for one |
| JobEffects.SettleExactly | backend/src/goalflow/jobs/store.py:114-168 | an attempt that did not commit is cancelled if asked to, waits 30 or 120 seconds if it may be tried again and fewer than three were, and fails otherwise; its lease is released and the end logged |
| JobEffects.StaleExactly | backend/src/goalflow/jobs/worker.py:266-303 | outdated inputs end the attempt as stale exactly if it holds the job and no cancel is on record |
| JobEffects.WriteBackExactly | backend/src/goalflow/jobs/service.py:259-280 | a write-back touches one pending row: sent now, or tried once more after the delay of the count that was read |
| JobEffects.OnlyWriteBacksTouchRows | backend/src/goalflow/jobs/service.py:218-281 | no other step changes or removes an outbox row |
| JobTables.Database.Transition | backend/src/goalflow/jobs/store.py:65-80 | the conditional update touches exactly the matching row, bumping its revision and time |
| JobTables.Database.AppendTo | backend/src/goalflow/jobs/store.py:83-111 | an event gets the next number of its job |
| JobTables.Database.SettleAttempt | backend/src/goalflow/jobs/store.py:114-168 | the table becomes the settle step's; the result is cancelled, retry or failed in that priority, or none without the lease |
| JobTables.Database.SubmitJob | backend/src/goalflow/jobs/service.py:71-122 | the submit step, its two errors exactly, and whether the job is new |
| JobTables.Database.ClaimJob | backend/src/goalflow/jobs/worker.py:119-152 | the claim step, with a fresh token even if nothing is claimed |
| JobTables.Database.RenewLease | backend/src/goalflow/jobs/worker.py:338-361 | the renew step; renewed exactly when the token is current |
| JobTables.Database.CompleteStage | backend/src/goalflow/jobs/handlers.py:112-134 | the stage step; held exactly when the token is current |
| JobTables.Database.PassesCheckpoint | backend/src/goalflow/jobs/handlers.py:98-110 | passes exactly when the token is current and no cancel is requested |
| JobTables.Database.TryCommit | backend/src/goalflow/jobs/worker.py:155-206 | the commit step if its callback returns and the worker may finish; otherwise nothing changes |
| JobTables.Database.SettleUnfinished | backend/src/goalflow/jobs/worker.py:209-237 | an interrupted attempt is settled as retryable under its own token |
| JobTables.Database.SettleError | backend/src/goalflow/jobs/worker.py:240-263 | a failed attempt is settled under its own token |
| JobTables.Database.MarkStale | backend/src/goalflow/jobs/worker.py:266-303 | the stale step, taken exactly when the worker may finish |
| JobTables.Database.RequestCancellation | backend/src/goalflow/jobs/service.py:174-215 | the cancel step with its four outcomes |
| JobTables.Database.RecoverScan | backend/src/goalflow/jobs/service.py:291-355 | the three loops together are the recover step, the report counts the rows each of them moved, and nothing is left stuck |
| JobTables.Database.SettleExpired | backend/src/goalflow/jobs/service.py:299-319 | the first loop settles exactly the expired leases, in any order |
| JobTables.Database.RequeueDue | backend/src/goalflow/jobs/service.py:321-337 | the second requeues exactly the due retries |
| JobTables.Database.RedispatchForgotten | backend/src/goalflow/jobs/service.py:339-347 | the third adds an outbox row exactly for the forgotten queued jobs |
| JobTables.Database.DispatchOutbox | backend/src/goalflow/jobs/service.py:234-281 | with others' transactions before every write-back and a store that may refuse it: the tables go through exactly these transactions, the count is the successful publishes, and a row published and written back is sent, whoever else dispatched it |
| JobTables.QuietBatch | backend/src/goalflow/jobs/service.py:234-281 | an undisturbed batch of due rows: each is sent exactly if published, none is due any more, no job row or log moved |
| JobTables.StepKeepsAttempting | backend/src/goalflow/jobs/worker.py:63-116 | no step of anybody else makes a worker's token write business rows |
| JobRun.RunJob | backend/src/goalflow/jobs/worker.py:63-116 | for every handler, commit outcome and interleaving: only transactions of the model change the tables; a run that got the job does not hold it on return and reports its status; success exactly if business rows were written under its token; any other status is the one its failure leads to, and without a failure the attempt was cancelled; unless somebody else took its lease away it always reports one; a run that did not get the job reports none |
| JobRun.Begin | backend/src/goalflow/jobs/worker.py:79-85 | a run gets the job exactly if it was queued, and then holds it under its fresh token for the whole lease |
| JobRun.CommitOrSettle | backend/src/goalflow/jobs/worker.py:94-114 | the same for the commit and what follows it |
| JobRun.JobContext.Except | backend/src/goalflow/jobs/worker.py:95-114 | each kind of failure ends as cancelled if a cancel is on record, else stale, retry or failed by its kind and the attempts left; an attempt barred before can only have been cancelled |
| JobRun.SettleReleases | backend/src/goalflow/jobs/worker.py:209-263 | settling lets go of the lease and lands on the settle target, which its own row still shows |
| JobOutcome.EndStatusExactly | backend/src/goalflow/jobs/worker.py:95-114 | which failure ends an attempt as cancelled, stale, waiting or failed |
| JobStream.FollowEvents | backend/src/goalflow/jobs/stream.py:75-110 | over any interleaving with writers: the items sent are exactly the log after the starting cursor up to the final cursor, a deliberate end leaves nothing unread, and a finished job keeps the stream open for full batches only; it ends timed out exactly at its first look at the clock that is `maxDuration` after the start, and its heartbeats are those its passes call for |
| JobStream.Round | backend/src/goalflow/jobs/stream.py:87-110 | one pass of the loop: finished with nothing unread, timed out with nothing unread exactly if the clock is `maxDuration` past the start, or the reading goes on, after a heartbeat exactly if nothing was sent for the interval |
| JobStream.AfterBatch | backend/src/goalflow/jobs/stream.py:99-109 | what follows a batch: the end, another poll at once, or a look at the clock with its three outcomes |
| JobStream.HeartbeatsExactly | backend/src/goalflow/jobs/stream.py:104-109 | an item is a heartbeat if and only if some pass sent its events up to there, went on, and by then nothing had been sent for the heartbeat interval |
| JobStream.StoppingAnywhere | backend/src/goalflow/jobs/stream.py:95-98 | a consumer that stops after any item has the log from the starting cursor without a gap or a repeat |
| JobStream.ReadBatch | backend/src/goalflow/jobs/stream.py:52-72 | one poll sends the next stretch of the log, and a short one empties it |
| JobStream.ObservedPoll | backend/src/goalflow/jobs/stream.py:52-72 | whenever it happens, a query returns the gap-free next stretch of at most a batch |
| JobStream.FinishedStreamIsComplete | backend/src/goalflow/jobs/stream.py:75-110 | an end because the job finished means the terminal event was delivered or was at or before the starting cursor |
| JobStream.ReconnectComposes | backend/src/goalflow/jobs/stream.py:75-110 | reading to a sequence and reconnecting from it gives one reading of the later log |
| Ordering.SortPermuted | backend/src/goalflow/scheduling/engine.py:305-324 | sorting by a total key forgets the order of the input |
| Engine.CalculateAgenda | backend/src/goalflow/scheduling/engine.py:230-439 | the loops compute the plan the theorems are about; it is stated through that plan, whose parts the theorems below pin one by one |
| Engine.PlaceMandatory | backend/src/goalflow/scheduling/engine.py:301-318 | the mandatory loop with its early exit is the recursive packing |
| Engine.PlaceFlexible | backend/src/goalflow/scheduling/engine.py:320-365 | the flexible loop is the recursive packing |
| EngineProofs.UrgencyKeyMeansGoesFirst | backend/src/goalflow/scheduling/engine.py:174-210 | the nine-part key is exactly the rule: deadline band, weekly gap band, starving, focus, rank, more unscheduled days, fits, then ids; the first criterion that differs decides |
| EngineProofs.PlanIgnoresListingOrder | backend/src/goalflow/scheduling/engine.py:230-439 | permuting goals and tasks gives the same items, ranks, minutes, capacity and status, and equal multisets of the rest |
| EngineProofs.OverflowConflictFollowsListing | backend/src/goalflow/scheduling/engine.py:273-299 | on overflow two listings report the same conflicts if and only if they list the mandatory tasks alike |
| EngineProofs.OverflowConflictFollowsListingExample | backend/src/goalflow/scheduling/engine.py:273-299 | two listings of one snapshot whose conflicts differ |
| EngineProofs.PackFlexibleSound | backend/src/goalflow/scheduling/engine.py:320-365 | packing keeps ranks consecutive, conserves minutes and never overdraws |
| EngineProofs.PackFlexibleMaximal | backend/src/goalflow/scheduling/engine.py:320-365 | each task gets its need, or if it may be split all that its predecessors left, at least its floor and then leaving nothing; otherwise it could not use the final leftover |
| EngineProofs.PackMandatoryExact | backend/src/goalflow/scheduling/engine.py:301-318 | when the total fits, every positive mandatory demand is granted in full and the rest is the total |
| EnginePlans.PackingConserves | backend/src/goalflow/scheduling/engine.py:301-365 | ranks are 1..n, reserved plus remaining is the starting capacity, remaining is not negative |
| EnginePlans.PackingIsMaximal | backend/src/goalflow/scheduling/engine.py:246-365 | mandatory tasks are granted in full; a flexible task gets its need, or if it may be split all that is left at its turn, or is deferred and unable to use what is left in the end; blocked tasks are deferred as blocked |
| EnginePlans.OneDecisionPerTask | backend/src/goalflow/scheduling/engine.py:246-365 | no task is planned twice, deferred twice, or both |
| EnginePriority.ItemsPositiveExactly | backend/src/goalflow/scheduling/engine.py:320-365 | all items of a plan are positive if and only if every flexible task that asks for nothing comes when no time is left |
| EnginePriority.ZeroMinuteItem | backend/src/goalflow/scheduling/engine.py:320-365 | a day on which a task of no minutes gets an item of no minutes |
| EnginePriority.PriorityStability | backend/src/goalflow/scheduling/engine.py:200-210 | if two snapshots agree up to a key, every item and deferral of a mandatory task or of a flexible task up to that key is in the one plan exactly if it is in the other |
| EnginePriority.ALaterTaskMovesNobody | backend/src/goalflow/scheduling/engine.py:305-365 | so after inserting a flexible task that sorts later, anywhere in the listing |
| EnginePriority.DecidedInHead | backend/src/goalflow/scheduling/engine.py:320-365 | a flexible task up to a key is decided in the packing of the tasks up to it, and nowhere else |
| EnginePriority.LaterTasksChangeNothing | backend/src/goalflow/scheduling/engine.py:200-210 | snapshots that agree up to a sort key give the same decisions up to it, ranks included |
| EnginePriority.AddingALaterTask | backend/src/goalflow/scheduling/engine.py:305-365 | a flexible task inserted anywhere in the listing that sorts later moves nothing before it |
| EnginePriority.DecisionsStandInPlan | backend/src/goalflow/scheduling/engine.py:320-365 | the decisions up to a key are an initial part of the plan's items and flexible deferrals |
| EnginePriority.PreferencesNeverMoveMandatory | backend/src/goalflow/scheduling/engine.py:246-318 | changing focus or rank of any goals leaves mandatory items and the overflow exit as they were |
| EngineRisks.DeadlineRiskExactly | backend/src/goalflow/scheduling/engine.py:382-420 | a deadline risk is reported and an extension proposed exactly for tasks past their date or whose work left after today exceeds the forecast up to it |
| EngineRisks.WeeklyConflictExactly | backend/src/goalflow/scheduling/engine.py:366-380 | without overflow the week is reported as too full if and only if the unpaused goals lack more minutes than the week has left: once, with the difference as its gap, naming exactly the flexible tasks without an item |
| EngineRisks.OverflowExit | backend/src/goalflow/scheduling/engine.py:272-299 | on overflow nothing is planned, the one conflict names the mandatory tasks and the excess, and exactly the flexible tasks are put off |
| EngineRisks.ClassesExactly | backend/src/goalflow/scheduling/engine.py:246-268 | which tasks are mandatory, overdue, blocked or flexible, by execution, dates and constraints |
| EngineRisks.OutsidersAreIgnored | backend/src/goalflow/scheduling/engine.py:238-251 | nothing of a paused goal and nothing that is neither pending nor running gets an item or a deferral |
| EngineRisks.BlockedExactly | backend/src/goalflow/scheduling/engine.py:265-267 | without overflow exactly the blocked tasks are deferred for their dependencies |
| EngineOrder.ItemsStandInOrder | backend/src/goalflow/scheduling/engine.py:301-365 | of any two items of a plan the first is the one whose task comes first: mandatory before flexible, the larger demand before the smaller, flexible tasks by the priority rule |
| EngineOrder.DeferralsStandInOrder | backend/src/goalflow/scheduling/engine.py:320-354 | tasks put off for lack of time are listed by the priority rule |
| EngineOrder.LeftOutStandInOrder | backend/src/goalflow/scheduling/engine.py:371 | so are those a too full week is reported for |
| EngineOrder.DemandKeyMeansAsksMore | backend/src/goalflow/scheduling/engine.py:303 | the key of mandatory tasks is exactly: larger demand first, equal ones by id |
| EngineOrder.SummaryExactly | backend/src/goalflow/scheduling/engine.py:160-164 | in both exits the summary carries basis, quota and spent minutes, what is given away plus what remains is the time left of the day, and the plan is conflicted exactly if it lists a conflict |
| EngineOrder.RiskGapExactly | backend/src/goalflow/scheduling/engine.py:382-420 | a deadline risk names the missing minutes; that of an overdue task names none |
| Planning.LatestSpecIsMaximal | backend/src/goalflow/scheduling/service.py:358-370 | the kept specification exists exactly if the task has one, and has the highest number |
| Planning.IndexLatest | backend/src/goalflow/scheduling/service.py:358-370 | the dictionary filled while reading holds exactly those |
| Planning.SnapshotWellFormed | backend/src/goalflow/scheduling/service.py:189-343 | every task of a snapshot has its goal there, so the engine's lookup never fails |
| PlanningInputs.SnapshotTasksExactly | backend/src/goalflow/scheduling/service.py:222-297 | the tasks of a snapshot are the pending and running rows of active goals with a specification, described by the newest one and by what is left of a running task |
| PlanningInputs.SnapshotGoalsExactly | backend/src/goalflow/scheduling/service.py:206-220 | the goals are the active ones, none paused, with the preference of the user or else unfocused in the last place |
| PlanningInputs.BlockedRowsWait | backend/src/goalflow/scheduling/service.py:279-297 | a pending row that nothing forces onto the day and whose dates admit it is deferred for its dependencies if and only if it is blocked, and a blocked one never gets an item |
| PlanningInputs.WeekLeft | backend/src/goalflow/scheduling/service.py:315-325 | what is left of the week is the capacity from today to Sunday |
| PlanningInputs.ForecastIsCapacity | backend/src/goalflow/scheduling/service.py:315-325 | what the forecast holds up to a date is the capacity of the days from tomorrow to that date, thirteen at most |
| PlanningInputs.WeekFromTables | backend/src/goalflow/scheduling/service.py:263-325 | the plan of the tables reports the week as too full if and only if the open rows of active goals need more than is planned for their tasks and left until Sunday, with that excess as its gap |
| PlanningInputs.RiskFromTables | backend/src/goalflow/scheduling/service.py:189-343 | for a pending row without a constraint: at risk if and only if it is past its date, or open and what the plan leaves of it exceeds the capacity from tomorrow to its date |
| PlanningInputs.RiskGapFromTables | backend/src/goalflow/scheduling/service.py:189-343 | and by how much |
| Planning.PlanningDesk.MandatoryMinutesExcluding | backend/src/goalflow/scheduling/service.py:669-696 | the loop adds up what the check counts, leaving one task out |
| Planning.PlanningDesk.ConstrainTask | backend/src/goalflow/scheduling/service.py:699-785 | sets, clears or refuses a constraint, with the reported gap, and bumps both revisions; what each case means is stated by the lemmas on `Constrain` below |
| PlanningInputs.ClearSucceedsIff | backend/src/goalflow/scheduling/service.py:714-733 | clearing succeeds if and only if the task exists, the revision matches and a constraint is active |
| PlanningInputs.ClearedIsGone | backend/src/goalflow/scheduling/service.py:728-733 | afterwards neither kind is in force for the task that day, every other row is as before, and every row is due what it would be without the constraint |
| PlanningInputs.ClearUndoesSet | backend/src/goalflow/scheduling/service.py:728-767 | setting a constraint and clearing it restores what is due that day |
| PlanningInputs.SetSucceedsIff | backend/src/goalflow/scheduling/service.py:735-748 | setting succeeds if and only if the task exists, the revision matches and what is checked leaves room for its specification; otherwise the missing minutes are named |
| PlanningInputs.SetIsInForce | backend/src/goalflow/scheduling/service.py:749-769 | afterwards exactly that kind is in force, and every other row is as before |
| PlanningInputs.RefusedFirst | backend/src/goalflow/scheduling/service.py:714-727 | an unknown task and an outdated revision are refused before anything else |
| PlanningInputs.CheckedExactly | backend/src/goalflow/scheduling/service.py:669-696 | what the check counts for a row |
| Planning.EngineCountsWhatIsChecked | backend/src/goalflow/scheduling/service.py:669-696 | without locks the engine counts for every task exactly the minutes the check counts |
| Planning.EngineCountsWhatIsDue | backend/src/goalflow/scheduling/service.py:222-297 | locks or not, the engine counts for a row exactly what is due: what is left of a running task, the minutes planned this week under a lock, the need of a must-do or of a task due today |
| Planning.OverflowsExactly | backend/src/goalflow/scheduling/service.py:189-343 | for all tables, the engine reports a mandatory overflow if and only if more is due than the day has |
| Planning.AcceptedConflictsExactly | backend/src/goalflow/scheduling/service.py:735-767 | an accepted constraint of either kind, on any task, beside any locks, overflows the day if and only if what is due for the others plus what this task will need exceeds it |
| Planning.UnlockedConflictsExactly | backend/src/goalflow/scheduling/service.py:735-767 | with no other task locked: if and only if the check's own total plus that need exceeds the day |
| Planning.RunningConflictsExactly | backend/src/goalflow/scheduling/service.py:735-748 | for a must-do on a running task on a day without locks: if and only if the check's total of the others plus its estimate exceeds the day |
| Planning.AcceptedConstraintFits | backend/src/goalflow/scheduling/service.py:735-767 | after an accepted must-do for a task that is not running, on a day without locks, mandatory demand fits the day |
| Planning.AcceptedConstraintNeverConflicts | backend/src/goalflow/scheduling/service.py:735-767 | so the resulting plan has no mandatory capacity conflict |
| Planning.RunningTaskMayConflict | backend/src/goalflow/scheduling/service.py:735-748 | a running task whose accepted must-do meets that condition |
| Planning.LockedTaskMayConflict | backend/src/goalflow/scheduling/service.py:735-748 | an accepted lock that meets it |
| AgendaGeneration.RunKeepsInv | backend/src/goalflow/scheduling/jobs.py:32-61 | over any interleaving, with attempts that are repeated or given up, a result is at most as old as its input revision, a day and revision has one job, and a day's versions are 1..n with strictly rising input revisions |
| AgendaGeneration.CommitStoresCurrentInputs | backend/src/goalflow/scheduling/jobs.py:39-58 | whatever interleaved, a stored agenda was computed from the guarded inputs exactly as they stand at its commit |
| AgendaGeneration.EqualRevisionMeansCurrent | backend/src/goalflow/scheduling/service.py:395-507 | at any later time an agenda whose input revision is the current one still stands for the current guarded inputs, and it is the only one of its day with that revision |
| AgendaGeneration.EditedInputsGoStale | backend/src/goalflow/scheduling/jobs.py:45-59 | a worker whose inputs were edited after submission stores nothing in any run, however often it retries |
| AgendaGeneration.UnguardedInputsMayBeOld | backend/src/goalflow/scheduling/jobs.py:32-61 | a run in which a status change between reading and committing leaves an agenda of old inputs |
| AgendaGeneration.UnguardedInputsAreThoseRead | backend/src/goalflow/scheduling/jobs.py:32-61 | in any run, the inputs of a result under way are those of one single read by the attempt still under way |
| AgendaGeneration.StoredUnguardedInputs | backend/src/goalflow/scheduling/jobs.py:32-61 | a stored agenda carries the unguarded inputs of that read, and they are current when it is stored if and only if what was read still stands |
| AgendaGeneration.ComputesExactly | backend/src/goalflow/scheduling/jobs.py:32-44 | whatever others do between its two reads, an attempt computes, from the inputs of the second, exactly if the revision at the first was that of its job; otherwise it is stale at once |
| AgendaGeneration.UndisturbedStores | backend/src/goalflow/scheduling/jobs.py:32-61 | left alone, an attempt adds an agenda of the inputs as they are if and only if its job was submitted at the current revision; otherwise it ends stale and stores nothing |
| AgendaGeneration.PlanningDb.GenerateAgenda | backend/src/goalflow/scheduling/jobs.py:32-61 | the handler with others' steps between its transactions: stored exactly if it ends persisted, and then from the current guarded inputs |
| AgendaJobs.RunKeepsInv | backend/src/goalflow/scheduling/jobs.py:32-61 | agenda generation as jobs, with attempts of one job that overlap or come late: requests, keys, attempts, stored agendas and their jobs agree in every run |
| AgendaJobs.OneAgendaPerJob | backend/src/goalflow/scheduling/jobs.py:45-59 | a job that succeeded has stored exactly one agenda, of its day and revision; any other has stored none |
| AgendaJobs.OneJobPerAgenda | backend/src/goalflow/scheduling/service.py:915-925 | every stored agenda was stored by exactly one job, which succeeded |
| AgendaJobs.OverlappingAttemptsStoreCurrent | backend/src/goalflow/scheduling/jobs.py:45-59 | in every reachable state the attempt that stores ends its job as succeeded and stores the agenda of the guarded inputs as they are then |
| AgendaJobs.UndisturbedAttemptStores | backend/src/goalflow/scheduling/jobs.py:32-61 | the same for an attempt that holds a job of the job tables, whose job then succeeds |
| CycleSearch.CycleExists | backend/src/goalflow/links/service.py:196-221 | the search terminates and answers true if and only if stored plus candidate edges contain a directed cycle |
| CycleSearch.BuildAdjacency | backend/src/goalflow/links/service.py:203-205 | the dictionary has an edge exactly if the lists do |
| CycleSearch.Search.Visit | backend/src/goalflow/links/service.py:210-219 | true only with a cycle; otherwise everything reachable is done and the open path is as before |
| CycleSearch.ClosesCycle | backend/src/goalflow/links/service.py:212-215 | an edge back to a node being visited closes a cycle |
| CycleSearch.FallingMeansAcyclic | backend/src/goalflow/links/service.py:218-219 | an order that falls along every edge rules cycles out |
| LinkProofs.GraphStaysAcyclic | backend/src/goalflow/links/service.py:357-375 | from any acyclic plan edges, no run of commands and other edits stores a cycle |
| LinkProofs.StepKeepsInv | backend/src/goalflow/links/service.py:272-645 | every step keeps: linked edges lie under an active link and span its pair, rows are unique, one link not removed per ordered pair, current proposals show what stands |
| LinkProofs.RunKeepsInv | backend/src/goalflow/links/service.py:272-645 | so does every run, with the history of applied proposals |
| LinkProofs.AppliedRevisionsRise | backend/src/goalflow/links/service.py:572-580 | applied proposals carry strictly increasing input revisions and distinct links |
| LinkProofs.RemovedIffApplied | backend/src/goalflow/links/service.py:596-616 | a link is removed if and only if an applied proposal names it |
| LinkProofs.ProposeSucceedsIff | backend/src/goalflow/links/service.py:272-320 | exactly when proposing succeeds, independent of the order of its checks |
| LinkProofs.ConfirmSucceedsIff | backend/src/goalflow/links/service.py:344-401 | exactly when confirming succeeds, including plan membership and the unique row constraint |
| LinkProofs.AcceptSucceedsIff | backend/src/goalflow/links/service.py:563-617 | in reachable states accepting succeeds exactly for a pending proposal of the current revision, and deletes exactly the edges it shows |
| LinkProofs.DeadProposalsStayDead | backend/src/goalflow/links/service.py:563-571 | a stale, rejected or applied proposal stays so and is refused in every later state |
| LinkProofs.OutdatedNeverApplied | backend/src/goalflow/links/service.py:549-560 | once the revision has moved past a proposal no run applies it |
| LinkProofs.AddEdgesExactly | backend/src/goalflow/links/service.py:362-375 | inserting one by one succeeds exactly if every successor has a plan and all rows stay distinct, and then appends them all |
| LinkProofs.NoFaultSpans | backend/src/goalflow/links/service.py:224-239 | the edge check passes exactly if every edge spans the pair |
| LinkProofs.EveryEdgeIsEffective | backend/src/goalflow/scheduling/service.py:159-186 | in reachable states the filter on active links excludes nothing: a task is blocked exactly by its unsatisfied edges |
| LinkEffects.BlockedIffWaiting | backend/src/goalflow/scheduling/service.py:159-186 | a task is blocked exactly if a dependency of it, in one plan or under an active link, asks for a verification or for a predecessor that is not completed |
| LinkProofs.UnlinkFreesExactly | backend/src/goalflow/links/service.py:596-600 | accepting frees exactly the tasks whose every unsatisfied effective edge was under that link |
| LinkProofs.ConfirmBlocksExactly | backend/src/goalflow/links/service.py:362-379 | confirming blocks exactly the successors of its unsatisfied dependencies, besides those blocked before |
| LinkProofs.TalkingBlocksNothing | backend/src/goalflow/links/service.py:636-645 | proposing, asking to unlink, rejecting and expiring change neither edges, revision nor blocked tasks |
| LinkProofs.ProposalSplitsExactly | backend/src/goalflow/links/service.py:421-482 | an unlink proposal lists exactly the link's edges that hold their successor back and those that do not |
| LinkProofs.UnlinkUndoesConfirm | backend/src/goalflow/links/service.py:344-617 | confirm, ask and accept restores every edge, moves the revision by two, and frees the pair |
| LinkProofs.ImpactMayBeOld | backend/src/goalflow/links/service.py:445-450 | a proposal that stays acceptable although its split is out of date |
| LinkProofs.SplitCurrentExactly | backend/src/goalflow/links/service.py:431-450 | after any run that leaves a proposal pending at the current revision, its split is current if and only if, for each shown edge that waits for a completed task, that task is completed now exactly if it was then |
| LinkProofs.ProposeForgetsDependencies | backend/src/goalflow/links/service.py:272-320 | the proposed link is the same whatever dependencies it was proposed with |
| LinkProofs.ConfirmStoresItsOwn | backend/src/goalflow/links/service.py:344-380 | the dependencies stored under the link are the proposed ones if and only if confirming was given the same ones, in any order |
| LinkProofs.ConfirmMayDiffer | backend/src/goalflow/links/service.py:344-380 | a link proposed with one dependency and confirmed with another |
| LinkCommands.DependencyBlockedTaskIds | backend/src/goalflow/scheduling/service.py:159-186 | the loop collects exactly the blocked tasks among those asked for |
| LinkCommands.LinkDesk.ValidateEdgesCrossGoal | backend/src/goalflow/links/service.py:224-239 | the first fault in order, or the candidate edges |
| LinkCommands.LinkDesk.ProposeGoalLink | backend/src/goalflow/links/service.py:272-320 | the propose step with its errors in order |
| LinkCommands.LinkDesk.ConfirmGoalLink | backend/src/goalflow/links/service.py:344-380 | the confirm step; any error leaves every row as it was |
| LinkCommands.LinkDesk.ProposeUnlinkOf | backend/src/goalflow/links/service.py:421-482 | the unlink proposal with its edges split |
| LinkCommands.LinkDesk.MarkProposalStaleIfOutdated | backend/src/goalflow/links/service.py:549-560 | the first transaction of accepting |
| LinkCommands.LinkDesk.ApplyProposal | backend/src/goalflow/links/service.py:563-617 | the second |
| LinkCommands.LinkDesk.AcceptChangeProposal | backend/src/goalflow/links/service.py:524-546 | both transactions with any steps between them: succeeds exactly if the proposal existed at first and is pending and current for the second; an outdated one ends stale in spite of the error; it ends pending exactly if it was current at first and is still pending but outdated for the second |
| LinkCommands.RevisionMovesInBetween | backend/src/goalflow/links/service.py:573-580 | if the revision moves between the two transactions, accepting fails and leaves the proposal pending |
| LinkCommands.LinkDesk.Perform | backend/src/goalflow/links/service.py:272-645 | every command method is the step of the model it stands for |
| LinkCommands.LinkDesk.RejectChangeProposal | backend/src/goalflow/links/service.py:636-645 | the reject step |
| LinkEffects.FaultIsFirst | backend/src/goalflow/links/service.py:224-239 | the first edge that does not cross between the two goals decides the error |
| LinkEffects.CycleIsOverBoth | backend/src/goalflow/links/service.py:196-221 | the cycle check is about stored and requested edges together |
| LinkEffects.ProposeFailsWith | backend/src/goalflow/links/service.py:272-307 | which error proposing gives, in the order of its checks |
| LinkEffects.ProposeAdds | backend/src/goalflow/links/service.py:294-320 | it adds one proposed link of exactly these goals, the smaller id first, and nothing else |
| LinkEffects.ConfirmFailsWith | backend/src/goalflow/links/service.py:344-360 | which error confirming gives |
| LinkEffects.ConfirmSucceedsExactly | backend/src/goalflow/links/service.py:344-401 | confirming succeeds exactly for a proposed link and a well-formed request that crosses between its goals, closes no cycle, and whose rows can be stored: every successor in a plan, no stored row and no second request for the same tasks in it |
| LinkEffects.ConfirmAdds | backend/src/goalflow/links/service.py:362-401 | it appends one row per request, under the link and in the plan of the successor, activates the link and moves the revision by one |
| LinkEffects.ProposeUnlinkExactly | backend/src/goalflow/links/service.py:421-482 | errors of asking to unlink, and the pending proposal with exactly the edges under the link and the current revision |
| LinkEffects.AcceptExactly | backend/src/goalflow/links/service.py:563-617 | errors of accepting, and what it changes: link removed, exactly its edges gone, proposal applied, revision moved by one |
| LinkEffects.MarkStaleExactly | backend/src/goalflow/links/service.py:549-560 | exactly an outdated pending proposal turns stale |
| LinkEffects.RejectExactly | backend/src/goalflow/links/service.py:636-645 | exactly a pending proposal is rejected |
| Idempotency.IdempotencyStore.RunIdempotent | backend/src/goalflow/idempotency/service.py:124-180 | the reply and the new table; a request that does not execute successfully leaves every record as it was |
| Idempotency.IdempotencyStore.PurgeExpiredRecords | backend/src/goalflow/idempotency/service.py:183-187 | exactly the live records stay, and the count is what went |
| Idempotency.ReplaysTheFirst | backend/src/goalflow/idempotency/service.py:144-156 | within the retention period of an execution the same key is replayed with its result and status, or refused for other content |
| Idempotency.RunsWhenNothingIsRemembered | backend/src/goalflow/idempotency/service.py:157-180 | without an execution in the retention period before it a request runs its own code |
| Idempotency.AtMostOncePerRetention | backend/src/goalflow/idempotency/service.py:120-180 | two executions under one key are at least the retention period apart |
| Idempotency.ReplaysAreGenuine | backend/src/goalflow/idempotency/service.py:152-156 | every replay repeats an earlier execution of the same key and content |
| Idempotency.PurgingIsInvisible | backend/src/goalflow/idempotency/service.py:183-187 | with a monotone clock purges at any points of any history change no reply |
| Idempotency.PurgeVisibleExactly | backend/src/goalflow/idempotency/service.py:183-187 | a purge by any clock at any point of a history changes a later reply if and only if a later call uses a key whose record it removed although it still counts by the call's clock |
| Idempotency.BodilessReplayedExactly | backend/src/goalflow/links/service.py:99-105 | a request whose hash covers its operation only is replayed if and only if the same operation was executed under its owner and key within the retention period |
| Idempotency.OneKeyTwoLinks | backend/src/goalflow/links/service.py:323-341 | one key for two links: the second command is not run and gets the first one's result |
| Idempotency.PurgingAheadIsVisible | backend/src/goalflow/idempotency/service.py:183-187 | with a clock running ahead, a history in which a purge makes a key run twice |
| Limiter.FixedWindowRateLimiter.HitOnce | backend/src/goalflow/auth/rate_limit.py:56-76 | the decision, the waiting time and the new windows |
| Limiter.FixedWindowRateLimiter.Serve | backend/src/goalflow/auth/rate_limit.py:56-76 | a fresh limiter gives exactly the replies the theorems are about |
| Limiter.PruningIsInvisible | backend/src/goalflow/auth/rate_limit.py:60-62 | for rules no longer than the longest window, dropping old windows changes no decision and no waiting time |
| Limiter.PruningDropsExactly | backend/src/goalflow/auth/rate_limit.py:60-62 | above ten thousand windows, and only then, those that began an hour ago or earlier are dropped |
| Limiter.RulesAreShort | backend/src/goalflow/auth/rate_limit.py:30-46 | every rule of the application is such a rule |
| Limiter.AtMostTwiceTheLimit | backend/src/goalflow/auth/rate_limit.py:64-76 | in any half-open interval of one window length at most `2 * limit - 1` hits of a slot are accepted |
| Limiter.BoundsOfTheApplication | backend/src/goalflow/auth/rate_limit.py:30-46 | the five bounds that follow for the rules of the application |
| Limiter.TheBoundIsReached | backend/src/goalflow/auth/rate_limit.py:64-76 | for every such rule a history that accepts exactly that many |
| Limiter.WaitIsHonoured | backend/src/goalflow/auth/rate_limit.py:69-75 | with only refusals in between, a hit after the reported wait is accepted if and only if the limit is positive, and one a second or more short of it is refused |

## Left out

- Sessions, SQL, migrations, ORM mappings, and database errors outside a worker's commit: tables are maps, a transaction is a step.
- HTTP routes, request validation, identifier length limits, error messages, `error_code`, payloads and titles: opaque data. A requested dependency outcome is text and is checked.
- Celery, Redis and publishing: a job may be run any number of times, and each publish attempt may succeed or fail.
- A store that fails while an attempt is being settled: `RunJob` is stated for a run that returns normally.
- `run_agenda_generation`, a second way to store an agenda, which no route or job uses.
- The recursion limit of Python in the cycle search, and the order in which dictionaries list nodes: the search takes them in any order.
- Selection order and size of a dispatch batch: the due rows that were read are an input.
- Several users: links, planning inputs and dependency rows belong to one owner.
- A task in several plan versions: the membership that confirming reads is an input, as the query takes any.
- How agendas of the week are summed into planned minutes and unscheduled days, and how availability and overrides give a day's capacity: tables of the snapshot.
- Affected milestones of an unlink proposal, and the cancellation of tasks whose criteria cannot be met, whose list is always empty.
- The idempotency wrapper around link commands: the store is modelled on its own, with the request's hash and execution as inputs.
- Retry-After is computed from a float in the source; the model rounds exact microseconds, which agree for windows of an hour.
- Goal lifecycle, profile, route and draft editing, authentication, encryption, model probes and the frontend.
