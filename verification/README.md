# Verified protocols of SEEKMORE

A Dafny model of the small protocols over shared state on which the SEEKMORE backend and desktop shell rest, with proofs over every
run of each. A database transaction, a conditional update, and the code between two awaits are one atomic step; requests, ticks,
timers, polls and crashes interleave freely. `dafny verify dfyconfig.toml` checks everything.

- **Automations** (`CivilCalendar`, `AutomationLifecycle`, `AutomationRow`, `AutomationCharts`, `AutomationPromises`,
  `AutomationSystem`, `AutomationRuns`, `AutomationWallClock`, `AutomationService`, `AutomationScheduler`): triggers and wake-ups, the
  transactions on one automation and its runs, charts of what they do to each part of it, all automations together, whole runs, daily
  and weekly local times, the service class that performs the transactions in place, and the scheduler process, whose ticks give way
  at every await.
- **Message tree** (`BranchSelection`, `Conversation`, `AutomationMessages`, `AutomationMessageTree`, `AutomationMessageRuns`): selecting the
  current branch of a parent map that may contain cycles; what automation runs do to the tree, the leaf and the message count; and
  both together with the automations, from the first step of an executor to the last, where the tree is proved to stay a tree.
- **Tool runtime** (`ToolSemaphore`, `IdempotencyLease`, `JsonText`, `CanonicalJson`, `CanonicalJsonProofs`, `ToolsDispatcher`): slots
  and queue of a tool, the lease that protects a key without checking ownership, the canonical text behind keys and descriptors, and
  the worker pool.
- **Approvals** (`ActionRisk`, `ApprovalProtocol`, `ApprovalReconcile`): deciders, polls, timer and abort racing on one row, and
  reconciliation after a change of policy.
- **Sessions** (`RefreshRotation`): refreshes in two phases against session creation.
- **Renderer** (`RendererRecovery`): the pruned list that bounds reloads.

Objects that the source updates in place are classes; each method is proved equal to a function or step on values, and the theorems
are about those. Where the source branches on a failure, the model returns it.

Beside the theorems stand charts. Each spells out, with the source's own constants and conditions, what one operation does in every
case, so that an operation that takes another branch contradicts its chart: `RefusalChart`, `CreatedChart`, `UpdatedChart`,
`UpdateAcceptedIff`, `StartIff` and `EndFailsIff` for the transactions on an automation, `EventOnTheRest`, `InterruptedOnce` and
`OpenTracesIff` for the system and service, `FiringIff` and `TickGoesOn` for the ticks; `PreparedIff`, `PreparedMessages`, `NoticeIff`,
`HiddenMessages` and `CleanedMessages` for the messages, `JudgedIff`, `ExecutorGoesOn`, `RestoredLeafIs`, `CleanedUpIff`,
`EventOnMessages`, `NoticeSentIff` and `OtherRunningIff` for the executors; `ArrivalIff`, `LockIff` and `ProbeIff` for the tools; `ClosingIff`,
`ResumingKeepsTheDecision`, `DecisionIff`, `UnknownIsNotDecided`, `GrantSetsTheMode` and `SecondResolutionIsIdle` for approvals;
`SessionUserIff` and `AdmittedIff` for sessions.

## Where the code falls short

Each of these is proved. Where a promise fails, the condition under which it holds is exact, except that `CarefulRunsConserveCount`
is sufficient only; most failures are also shown by a run.

- An update that asks an interval automation to run at the very millisecond for which it already has a run (accepted because of
  `allowNow`, automation-lifecycle.service.ts:182) leaves it active with no wake-up and no open run once that run ends: the
  next claim meets the old row under the unique key. `UpdateKeepsHealthy`, `CollisionOrphans`, `CollisionOrphansAtOnce`,
  `CollisionReachesAnOrphan`.
- A limit that is not an integer, such as "ten" or 2.5, is accepted and dropped (automation-lifecycle.service.ts:67-70), and a unit
  such as "constructor" passes for one, because the table of units is an object literal (line 35); such an interval never has a next
  wake-up. `NamedLimitIsEnforcedIff`, `UnreadableLimitIsDropped`; `OnlyInheritedUnitsHaveNoNext`, `InheritedUnitIsAccepted`.
- expireDue looks at the end in its query only, so an automation that was extended or paused since is completed as EXPIRED all the
  same (automation.service.ts:488-500, 756-769). `ExpiredIsTrueIff`, `ExpiredTooEarly`,
  `ExpiredTooEarlyIsReached`.
- Recovery computes the next wake-up from the interrupted run even if the trigger was updated meanwhile, which finishing a run
  does not (automation.service.ts:455-477 against 665-677). `RecoveryOfOlderRun`, `RecoveryLosesAnchor`.
- Lowering `maxRuns` below what is already counted or under way exceeds the new limit. `UpdateKeepsBudget`.
- Conversation deletion does not ask runs of automations that already ended to stop, although it puts them to CANCELLING, and does not
  clean up after them (automation.service.ts:296-306). `DeletionAsksIff`.
- The message count is wrong exactly when three kinds of steps do not balance: an answer that deletion passed over is hidden in the
  recycle bin; an answer that deletion covered is hidden after restoring; a commit writes back the visibility it read before
  deletion. `CountIsAccountedFor`, `HidingIsRightIff`, `OtherStepsKeepTheBooks`, `CarefulRunsConserveCount`; `PassedOverIsMiscounted`,
  `RestoredIsMiscounted`, `CommitUndoesDeletion`, `CancelledThenDeleted`, `DeletedThenRestored`.
- Hiding an answer under a remembered parent that was itself hidden meanwhile brings that parent back, which takes a run of a stopped
  automation. The tree stays a tree all the same (`TreeStaysAcyclic`). `HidingMovesBranch`, `HideIsExactIff`,
  `OnlyStoppedRunsAreBuiltOn`, `StaleParentRevivesHiddenAnswer`, `HiddenAnswerComesBack`.
- A queue timeout above 30 seconds, which the configuration accepts, lets a marker expire while its owner is in flight; a second call
  then runs with the same key. `DefaultTtlCoversIff`, `TooShortALeaseIsUnsafe`.
- A per-call maximum is not a bound on concurrency. `WokenAboveItsMaximum`, `PerCallMaximumIsNotACap`.
- `[undefined]` and `[]` get the same idempotency key; undefined and the string `__undefined__` the same risk descriptor.
  `ToolKeyTextIff`, `RiskTextIff`, `UndefinedCollides`.
- Reconciliation looks at the oldest fifty pending rows only, so fifty rows that must be asked keep every younger row from ever being
  resolved automatically. `StarvedIff`.
- A wait for an approval can time out, or be aborted, although a decision gets recorded and published. `MissedDecisionIff`,
  `TimeoutMayMissTheDecision`.

## Assumptions

- The clock is monotone. Steps may share a millisecond; the only such coincidence that is excluded from the automation system is the
  update described above. That the recovery limiter of the renderer needs this is shown by `SteppingBackDefeatsTheBound`.
- A request is one step, although pause, update and cancel read the automation before they write it. One scheduler process runs. An
  executor ends its run once: a second end from the exception path (automation-runner.service.ts:240-261) is kept out of the step
  relation.
- The database client refuses a `Date` that is no date, and the transaction around it is rolled back.
- A stored tool result reads back as it was written.
- Database and Redis calls take no time, a Redis key lives up to and including its expiry, and timers fire on time.
- A pass of reconciliation and a service method run undisturbed as methods; their interleaving is modelled by the transition systems.
  Policies do not change during a pass. Rows with equal creation times come in the order of the table.
- Hashes are injective, identifiers are fresh, and only tokens the service signed verify.
- An approval has one waiting call. Each dispatch answers; its failures are answers.
- A finite JSON number stands for itself by the decimal text that ECMAScript prints for it. A time zone is any pair of functions
  between instants and local times; only the theorems of `AutomationWallClock` take it that an instant read from a local time shows
  that local time.
- Chat outside automations adds messages one by one at the leaf, one unit of the count each.

## Model

| member | source | states |
|---|---|---|
| CivilCalendar.CivilRoundTrip | backend/src/modules/automation/automation-lifecycle.service.ts:148-167 | the day number determines the civil date: reading a date back after writing it changes nothing |
| CivilCalendar.ShiftAddsDays | backend/src/modules/automation/automation-lifecycle.service.ts:148-167 | normalising `Date.UTC(y, m - 1, d + step)` is adding `step` to the civil day number, across months and leap years, until a `Date` overflows; years 0 to 99 excepted, as in section 21.4.1 of ECMA-262 |
| CivilCalendar.DayNumbersCountDates | backend/src/modules/automation/automation-lifecycle.service.ts:148-167 | day numbers count the dates of the Gregorian calendar one by one from the first of January 1970 |
| CivilCalendar.ShiftIsRepeatedNextDate | backend/src/modules/automation/automation-lifecycle.service.ts:148-167 | shifting by a number of days is going to the next date that often |
| CivilCalendar.TwoDigitYears | backend/src/modules/automation/automation-lifecycle.service.ts:148-167 | dates of the years 0 to 99 are shifted as dates of the twentieth century |
| AutomationLifecycle.NormalizeTrigger | backend/src/modules/automation/automation-lifecycle.service.ts:14-51 | an accepted trigger wakes now or later, and at this very millisecond only as an interval whose `runAt` is now (line 182); it has no wake-up exactly when its unit is an inherited name and no first run is named |
| AutomationLifecycle.NormalizeStopPolicy | backend/src/modules/automation/automation-lifecycle.service.ts:60-94 | an accepted policy ends in the future; an indefinite one has no end, limit or condition; where the request names no end, one is filled in exactly for a lasting trigger whose accepted policy has no bound |
| AutomationLifecycle.LimitsAreKept | backend/src/modules/automation/automation-lifecycle.service.ts:60-94 | a policy is accepted exactly when its limit, if it is an integer, is 1 to 1000000, its end is ahead and an indefinite one has no bound, with the error for each refusal; an integer limit and an end are kept as named, and a default end is the configured number of days away |
| AutomationLifecycle.NamedLimitIsEnforcedIff | backend/src/modules/automation/automation-lifecycle.service.ts:66-70 | an accepted request gets the limit it names if and only if that is an integer |
| AutomationLifecycle.UnreadableLimitIsDropped | backend/src/modules/automation/automation-lifecycle.service.ts:66-70 | a limit of "ten" is accepted and dropped |
| AutomationLifecycle.StoredPolicyIsStable | backend/src/modules/automation/automation.service.ts:161-173 | reading an accepted policy again, as an update does, gives it back until it has expired, or adds the default lifetime to one without any bound |
| AutomationLifecycle.UnitsAreNamedAndNested | backend/src/modules/automation/automation-lifecycle.service.ts:14-51 | exactly four units are named, one to one, and are multiples of each other; besides, exactly the names that every object literal inherits are accepted as units |
| AutomationLifecycle.OnlyInheritedUnitsHaveNoNext | backend/src/modules/automation/automation-lifecycle.service.ts:96-122 | away from the wall clock the next wake-up fails, after a run and on resuming, exactly for inherited names |
| AutomationLifecycle.InheritedUnitIsAccepted | backend/src/modules/automation/automation-lifecycle.service.ts:14-51 | an interval of one "constructor" with a first run is accepted |
| AutomationLifecycle.TriggersAreKept | backend/src/modules/automation/automation-lifecycle.service.ts:14-51 | which triggers are accepted, the error for each refusal, and that everything named is stored as named, with its first wake-up |
| AutomationLifecycle.WallClockIsForDaysAndWeeks | backend/src/modules/automation/automation-lifecycle.service.ts:96-105 | only days and weeks in a named zone follow the wall clock, and there the step in days is the interval |
| AutomationLifecycle.ComputeNextAfterRun | backend/src/modules/automation/automation-lifecycle.service.ts:96-105 | the loop that adds intervals terminates and computes the closed form |
| AutomationLifecycle.ComputeNextWallClock | backend/src/modules/automation/automation-lifecycle.service.ts:148-167 | the loop over local dates terminates within its guard and computes the recursive search |
| AutomationLifecycle.NextGridPointIsLeast | backend/src/modules/automation/automation-lifecycle.service.ts:96-105 | the next wake-up lies on the grid of the run that ended, after now, and no later point of the grid lies between |
| AutomationLifecycle.GridIsTransitive | backend/src/modules/automation/automation-lifecycle.service.ts:96-105 | grids compose, so one step after another never drifts |
| AutomationLifecycle.NextAfterRunIsLater | backend/src/modules/automation/automation-lifecycle.service.ts:96-105 | whatever the time zone does, a finished run never wakes in the past |
| AutomationLifecycle.NextOnResumeIsLater | backend/src/modules/automation/automation-lifecycle.service.ts:107-122 | a resumed automation wakes later than now, whatever the time zone does |
| AutomationLifecycle.LoopFindsLeast | backend/src/modules/automation/automation-lifecycle.service.ts:148-167 | the search returns the first round whose local time exists in the zone and lies after now, and fails exactly when no round within the guard does |
| AutomationLifecycle.WallClockRecurrence | backend/src/modules/automation/automation-lifecycle.service.ts:148-167 | the next wake-up is the same local time of day on date d0 + k * step for the least such k >= 1 |
| AutomationLifecycle.TimeAfterRun | backend/src/modules/automation/automation-lifecycle.service.ts:96-105 | after a run: nothing for a single one; the run's local time on the least later date of its series for days and weeks in a named zone; the least later point of the run's grid otherwise |
| AutomationLifecycle.ResumedTime | backend/src/modules/automation/automation-lifecycle.service.ts:107-122 | on resuming: what is still ahead; a missed single run in exactly a second; the first run's local time on the least later date of its series for days and weeks in a named zone; exactly one interval from now otherwise |
| AutomationLifecycle.WeeklyKeepsWeekday | backend/src/modules/automation/automation-lifecycle.service.ts:148-167 | a weekly trigger keeps its day of the week |
| AutomationRow.UpdateKeepsHealthy | backend/src/modules/automation/automation.service.ts:130-189 | an update keeps the automation healthy if and only if it does not ask a running automation to run at the millisecond it already has a run for |
| AutomationRow.ResumeKeepsHealthy | backend/src/modules/automation/automation.service.ts:216-235 | resuming keeps the invariant |
| AutomationRow.ClaimInsertsFreshRun | backend/src/modules/automation/automation.service.ts:522-557 | the upsert of a claim never meets an old row under the unique key: it appends one pending run and takes the wake-up |
| AutomationRow.PrepareKeepsHealthy | backend/src/modules/automation/automation.service.ts:567-594 | starting a run, or completing instead of starting it, keeps the invariant |
| AutomationRow.FinishKeepsHealthy | backend/src/modules/automation/automation.service.ts:600-682 | ending a run keeps the invariant: what stays active has a wake-up |
| AutomationRow.RequeueKeepsHealthy | backend/src/modules/automation/automation.service.ts:684-689 | handing a run back keeps the invariant |
| AutomationRow.RecoverKeepsHealthy | backend/src/modules/automation/automation.service.ts:403-486 | recovering an interrupted run keeps the invariant |
| AutomationRow.StepKeepsHealthy | backend/src/modules/automation/automation.service.ts:130-272 | every permitted transaction keeps: one open run at most and only the last, pending exactly without trace, times strictly increasing and past, statuses in agreement, never orphaned |
| AutomationRow.TerminalIsAbsorbing | backend/src/modules/automation/automation.service.ts:756-769 | COMPLETED and CANCELLED are absorbing under every transaction, unconditionally |
| AutomationCharts.StatusChart | backend/src/modules/automation/automation.service.ts:130-769 | the status after every transaction, exactly |
| AutomationCharts.RunChart | backend/src/modules/automation/automation.service.ts:130-689 | what every transaction makes of each run: who is stopped, started, handed back, and what an ended run records, which is its outcome unless the automation was stopping and it did not succeed |
| AutomationCharts.NewRunChart | backend/src/modules/automation/automation.service.ts:535-556 | only a claim adds a run: a pending one at the end, exactly when it takes the wake-up and there is none of that time |
| AutomationCharts.CountChart | backend/src/modules/automation/automation.service.ts:600-640 | the count rises by exactly one when a run ends that was not cancelled, or is recovered from an active automation, and never otherwise |
| AutomationCharts.WakeChart | backend/src/modules/automation/automation.service.ts:130-689 | only active automations wait; a waiting time stays except where it is claimed, or a new one is due after the end of a run |
| AutomationCharts.RestChart | backend/src/modules/automation/automation.service.ts:130-769 | the reason that is recorded on completion, and that all other parts change by updates alone |
| AutomationCharts.ResumedAutomationWaits | backend/src/modules/automation/automation.service.ts:216-235 | where a resumed automation waits, case by case, and that nothing else about it changes |
| AutomationPromises.StoppingTwiceIsStoppingOnce | backend/src/modules/automation/automation.service.ts:191-272 | requests that stop an automation can be repeated without effect |
| AutomationPromises.ReasonIsTrue | backend/src/modules/automation/automation-lifecycle.service.ts:124-136 | a reason given on finishing, preparing, recovering or resuming is the case at that moment; SCHEDULE_COMPLETED is never given; `AutomationRuns.ExpiredIsTrueIff` is the same for expireDue |
| AutomationPromises.UsedUpMeansCompleted | backend/src/modules/automation/automation.service.ts:640-682 | after an unblocked end an automation stays active exactly when it may run again |
| AutomationPromises.PauseThenResume | backend/src/modules/automation/automation.service.ts:191-235 | a pause with nothing under way can be taken back: only a pending run and the wake-up are lost |
| AutomationPromises.CreatedRunsBeforeItsEnd | backend/src/modules/automation/automation.service.ts:30-95 | a new automation has nothing behind it and wakes before it ends |
| AutomationPromises.UpdateTouchesWhatItNames | backend/src/modules/automation/automation.service.ts:130-189 | an update changes only what it names, and leaves the wake-up before the end |
| AutomationPromises.StepCountsOnce | backend/src/modules/automation/automation.service.ts:600-689 | no transaction counts a run twice or before it ended |
| AutomationPromises.StepKeepsBudget | backend/src/modules/automation/automation-lifecycle.service.ts:124-136 | no transaction lets counted runs plus the run under way exceed an unchanged limit |
| AutomationPromises.UpdateKeepsBudget | backend/src/modules/automation/automation.service.ts:130-189 | an update keeps the budget if and only if the limit it sets covers the runs already counted or under way |
| AutomationPromises.StepStaysOnSchedule | backend/src/modules/automation/automation.service.ts:600-682 | between re-anchoring steps every scheduled time and the next wake-up stay on the grid of the anchor |
| AutomationPromises.AnchorsStartAGrid | backend/src/modules/automation/automation.service.ts:216-235 | creating, re-triggering and resuming each start a fresh grid at the wake-up they set |
| AutomationPromises.RecoveryOfOlderRun | backend/src/modules/automation/automation.service.ts:455-477 | recovering a run from before the anchor lands on the anchored grid if and only if the old run already lay on it |
| AutomationPromises.RecoveryLosesAnchor | backend/src/modules/automation/automation.service.ts:455-477 | such a drift, in numbers: 15:00 instead of the 14:30 that was asked for |
| AutomationPromises.CollisionOrphans | backend/src/modules/automation/automation.service.ts:535-556 | after the one excluded update, made while the run of that millisecond is open, pending or under way, that run ends and the next claim inserts nothing: the automation is active with no wake-up and no open run |
| AutomationPromises.CollisionOrphansAtOnce | backend/src/modules/automation/automation.service.ts:535-556 | when that run has ended before the update, the very next claim does this |
| AutomationSystem.StepOpensNothing | backend/src/modules/automation/automation.service.ts:522-557 | only a claim opens a run, so what claimDue found stays claimable while others act |
| AutomationSystem.StepKeepsUnderWay | backend/src/modules/automation/automation.service.ts:600-689 | only its executor, or recovery, takes a run out of RUNNING and CANCELLING |
| AutomationSystem.RowStepKeepsInv | backend/src/modules/automation/automation.service.ts:130-689 | one transaction on one row keeps the invariant of the whole system: healthy rows, claimable due list, executors that hold the last open run, retired automations in deleted conversations |
| AutomationSystem.DeletionKeepsInv | backend/src/modules/automation/automation.service.ts:291-397 | deleting a conversation retires all its automations and keeps the invariant |
| AutomationSystem.ClaimKeepsInv | backend/src/modules/automation/automation.service.ts:522-557 | a claim keeps the invariant although anything may have happened since its query |
| AutomationSystem.StartKeepsInv | backend/src/modules/automation/automation.service.ts:567-594 | an executor that starts a run holds it |
| AutomationSystem.EventKeepsInv | backend/src/modules/automation/automation.service.ts:488-689 | every event of requests, lists found earlier, executors, crash and recovery keeps the invariant |
| AutomationRuns.RunsKeepInv | backend/src/modules/automation/automation.service.ts:130-689 | the invariant over whole runs |
| AutomationRuns.ReachableStatesAreHealthy | backend/src/modules/automation/automation.service.ts:522-689 | in every reachable state: no orphan, at most one open run, its trace and status rules, no wake-up unless active, strictly increasing past times |
| AutomationRuns.DeletedConversationsStaySilent | backend/src/modules/automation/automation.service.ts:291-397 | in the recycle bin nothing is scheduled, pending or running |
| AutomationRuns.DeletionSilences | backend/src/modules/automation/automation.service.ts:291-397 | deleting a conversation puts all its automations there |
| AutomationRuns.RestartMakesRecoverable | backend/src/modules/automation/automation.service.ts:403-486 | after a crash recovery may end every interrupted or abandoned run, and what it ends is closed |
| AutomationRuns.AbandonedRunIsUnheld | backend/src/modules/automation/automation-runner.service.ts:157-161 | a run its executor abandons stays under way, held by nobody |
| AutomationRuns.EventOnOneAutomation | backend/src/modules/automation/automation.service.ts:130-689 | each event is, for one automation, nothing or one permitted transaction |
| AutomationRuns.BudgetIsKept | backend/src/modules/automation/automation.service.ts:622-660 | over whole runs, with crashes, requeues, blocked last runs and resumes, a fixed limit is never exceeded |
| AutomationRuns.CreatedBudgetIsKept | backend/src/modules/automation/automation.service.ts:30-95 | an automation created with an integer limit never counts more runs than that, from its creation through every state in which the limit was not changed |
| AutomationRuns.RunsCountOnce | backend/src/modules/automation/automation.service.ts:600-689 | over whole runs every run is counted at most once and the count only grows |
| AutomationRuns.ScheduleDoesNotDrift | backend/src/modules/automation/automation.service.ts:665-677 | over whole runs between re-anchoring steps, all times lie on one grid |
| AutomationRuns.WaitingGridIsKept | backend/src/modules/automation/automation.service.ts:665-677 | in every reachable state the time for which an interval automation waits starts a grid that all its times keep until the next anchor |
| AutomationWallClock.SearchStaysInSeries | backend/src/modules/automation/automation-lifecycle.service.ts:148-167 | one search lands on the local time of the series again, a whole number of steps after its start |
| AutomationWallClock.StepStaysOnClock | backend/src/modules/automation/automation.service.ts:600-682 | no transaction that sets no anchor leaves the series of local times |
| AutomationWallClock.LocalTimeIsKept | backend/src/modules/automation/automation.service.ts:665-677 | over whole runs between re-anchoring steps, every claimed and waiting time of a daily or weekly automation shows the local time of its anchor on a date a whole number of steps later, in every zone that shows the local times it reads |
| AutomationWallClock.AnchorsStartASeries | backend/src/modules/automation/automation-lifecycle.service.ts:148-167 | whatever sets a wake-up starts a series at the local time it shows |
| AutomationWallClock.WaitingLocalTimeIsKept | backend/src/modules/automation/automation.service.ts:665-677 | in every reachable state the local time for which a daily or weekly automation waits is the local time of all runs it gets until the next anchor, on days a whole number of steps apart |
| AutomationRuns.HistoryIsKept | backend/src/modules/automation/automation.service.ts:522-557 | terminal statuses and the times of past runs are never rewritten |
| AutomationRuns.LaterClaimsAreLater | backend/prisma/schema.prisma:1316 | a later claim is for a strictly later time than every earlier run, so the unique key never repeats |
| AutomationRuns.OnlyUpdatesMoveTheEnd | backend/src/modules/automation/automation.service.ts:130-189 | over whole runs the end of an automation is the one its last successful update gave it |
| AutomationRuns.ExpiredIsTrueIff | backend/src/modules/automation/automation.service.ts:488-500 | whatever happens between the query of expireDue and its write, the row is completed as EXPIRED, and that is the case if and only if the last update in between, if any, gave it an end that is over too |
| AutomationRuns.ExpiredTooEarly | backend/src/modules/automation/automation.service.ts:756-769 | from every state with an overdue automation, three enabled events after which it is completed as EXPIRED a second before its end |
| AutomationRuns.ExpiredTooEarlyIsReached | backend/src/modules/automation/automation.service.ts:488-500 | the same as a run of five events from the empty database |
| AutomationRuns.CollisionReachesAnOrphan | backend/src/modules/automation/automation-lifecycle.service.ts:169-186 | from the empty database, a run of nine events, one of them the excluded update, that ends in an orphan |
| AutomationService.Service.CreateAutomation | backend/src/modules/automation/automation.service.ts:30-95 | creation in a live conversation, or an error and an unchanged table |
| AutomationService.Service.UpdateAutomation | backend/src/modules/automation/automation.service.ts:130-189 | the update transaction on one row, everything else unchanged |
| AutomationService.Service.PauseAutomation | backend/src/modules/automation/automation.service.ts:191-214 | pausing, and the traces of exactly the open runs to be cancelled |
| AutomationService.Service.ResumeAutomation | backend/src/modules/automation/automation.service.ts:216-235 | the resume transaction |
| AutomationService.Service.CancelAutomation | backend/src/modules/automation/automation.service.ts:237-272 | the cancel transaction, and the traces of exactly the open runs of an automation that had not ended |
| AutomationService.Service.CompleteInternal | backend/src/modules/automation/automation.service.ts:756-769 | completion on request, by a run or by resuming too late |
| AutomationService.Service.DeleteConversation | backend/src/modules/automation/automation.service.ts:291-397 | the loop over the automations of a conversation changes exactly those; the runs to stop are those of `DeletionAsksIff`, and the traces to cancel are theirs |
| AutomationService.DeletionAsksIff | backend/src/modules/automation/automation.service.ts:296-321 | deletion puts every running run of the conversation to CANCELLING and asks it to stop if and only if its automation is active or paused |
| AutomationService.Service.FindOver | backend/src/modules/automation/automation.service.ts:488-493 | a batch of distinct active automations past their end, all of them when they fit |
| AutomationService.Service.ExpireFound | backend/src/modules/automation/automation.service.ts:494-500 | each row found that has not ended meanwhile is completed as EXPIRED, whatever else happened to it, and no other |
| AutomationService.Service.FindDue | backend/src/modules/automation/automation.service.ts:522-534 | a batch of due automations, spelled out, in order of wake-up, none of which is overtaken by one left out |
| AutomationService.Service.ClaimDue | backend/src/modules/automation/automation.service.ts:522-557 | undisturbed, every automation found loses its wake-up and gets one pending last run for it, and no other changes |
| AutomationService.Service.PrepareRun | backend/src/modules/automation/automation.service.ts:567-594 | the prepare transaction, and whether the run starts |
| AutomationService.Service.FinishRun | backend/src/modules/automation/automation.service.ts:600-682 | the finish transaction; an error changes nothing |
| AutomationService.Service.MarkRunPending | backend/src/modules/automation/automation.service.ts:684-689 | the requeue transaction |
| AutomationService.Service.FindInterrupted | backend/src/modules/automation/automation.service.ts:403-412 | distinct interrupted rows, all of them when they fit the batch |
| AutomationService.Service.RecoverInterruptedRun | backend/src/modules/automation/automation.service.ts:403-486 | the recovery transaction of one row; an error changes nothing |
| AutomationService.Service.RecoverInterruptedRuns | backend/src/modules/automation/automation.service.ts:403-486 | each interrupted row recovered in its own transaction; in a healthy table each as if alone, and no other automation changes |
| AutomationService.RecoveredTogether | backend/src/modules/automation/automation.service.ts:403-486 | rows of different automations are recovered independently of each other |
| AutomationScheduler.StepKeepsInv | backend/src/modules/automation/automation-scheduler.service.ts:30-53 | every step of the process keeps: the flag is up exactly while a tick is between begin and end, and it is only one; a list that is not worked off belongs to it; in flight means one executor |
| AutomationScheduler.StepIsEnabled | backend/src/modules/automation/automation-scheduler.service.ts:30-53 | a tick queries only when no list is left over, which the system of automations demands of its events |
| AutomationScheduler.ScheduledRunsAreFeasible | backend/src/modules/automation/automation-scheduler.service.ts:30-53 | every interleaving of ticks, failing ticks, requests, executors and restarts is a feasible run of the system of automations |
| AutomationScheduler.TicksDoNotOverlap | backend/src/modules/automation/automation-scheduler.service.ts:30-53 | over every interleaving at most one tick is between begin and end, and no run has two executors |
| AutomationScheduler.TickCanFinish | backend/src/modules/automation/automation-scheduler.service.ts:30-53 | in every state that keeps the invariant a tick under way can be brought to its end by steps of its own |
| AutomationScheduler.StartedOnce | backend/src/modules/automation/automation-scheduler.service.ts:40-48 | a tick starts a run of its list once, and exactly when it is not in flight |
| AutomationScheduler.SettledRunsMayStartAgain | backend/src/modules/automation/automation-scheduler.service.ts:44-48 | a run under execution is not started again; once settled it is, by the next tick that finds it pending |
| AutomationScheduler.Scheduler.Launch | backend/src/modules/automation/automation-scheduler.service.ts:40-52 | the loop over the pending runs starts exactly those and puts them in flight |
| BranchSelection.SelectionIsBranch | backend/src/modules/chat/chat.service.ts:193-218 | on any parent map, cycles included, the walk ends and yields a duplicate-free chain that ends in the leaf and could not be continued |
| BranchSelection.BranchIsUnique | backend/src/modules/chat/chat.service.ts:193-218 | a leaf has only one such chain, so the property determines the selection |
| BranchSelection.SelectionIsRootPath | backend/src/modules/chat/chat.service.ts:193-218 | where a path to a root exists, the selection is that whole path |
| BranchSelection.SelectCurrentBranchRows | backend/src/modules/chat/chat.service.ts:193-218 | the loop returns all rows for an unknown leaf and otherwise the rows of the branch, root first |
| BranchSelection.ShellKeepsChain | backend/src/modules/chat/chat.service.ts:151-183 | adding the shell of the answer being written keeps the branch a chain and adds that row or nothing |
| BranchSelection.ShellIsAddedIff | backend/src/modules/chat/chat.service.ts:151-183 | the shell is added exactly when it is not on the branch, exists, is an assistant's, and hangs below the end of the branch |
| BranchSelection.SpliceLeavesOthers | backend/src/modules/automation/automation-runner.service.ts:532-604 | branches that do not pass through the hidden message are untouched |
| BranchSelection.SpliceRemovesExactly | backend/src/modules/automation/automation-runner.service.ts:532-604 | a branch through the hidden message loses exactly that message if and only if the new parent fits |
| BranchSelection.SpliceKeepsAcyclicIff | backend/src/modules/automation/automation-runner.service.ts:532-604 | splicing keeps the parent relation acyclic if and only if the new parent does not hang below the hidden message |
| BranchSelection.SplicedBranch | backend/src/modules/automation/automation-runner.service.ts:532-604 | every branch after splicing, whichever parent was remembered: below the message it is that parent's branch and what came after the message, elsewhere as before |
| BranchSelection.SplicedBranchIsExactIff | backend/src/modules/automation/automation-runner.service.ts:532-604 | a selected branch loses exactly the hidden message if and only if the new parent fits |
| BranchSelection.SpliceCommutesWithSelection | backend/src/modules/automation/automation-runner.service.ts:532-604 | splicing and selecting commute for every leaf but the hidden message |
| BranchSelection.ParentBranch | backend/src/modules/automation/automation.service.ts:353-369 | the branch of the parent is the branch of the message without it |
| Conversation.Store.PrepareMessages | backend/src/modules/automation/automation-runner.service.ts:265-396 | the prepare transaction: stopped, busy, or two messages, a leaf and a count |
| Conversation.Store.PublishExpiryNotice | backend/src/modules/automation/automation-runner.service.ts:64-149 | the notice is published exactly for an automation that expired and has no notice yet, where it fits, and leaves its mark |
| Conversation.Store.HideSuppressedMessage | backend/src/modules/automation/automation-runner.service.ts:532-604 | the hide transaction with its two leaf paths |
| Conversation.Store.RestoreAdvancedLeaf | backend/src/modules/automation/automation-runner.service.ts:823-842 | the leaf moves back only from the answer that advanced it; `AutomationMessageTree.DeliveringPutsTheLeafBack` says exactly when it does |
| Conversation.Store.CleanUpAnswers | backend/src/modules/automation/automation.service.ts:322-377 | the loop of conversation deletion over the answers it is given; `AutomationMessages` gives those of runs under way of active and paused automations |
| Conversation.HideKeepsBranch | backend/src/modules/automation/automation-runner.service.ts:532-604 | hiding keeps an acyclic tree acyclic if and only if the remembered parent does not hang below the message; if that parent is still the message's own, the branch of the resulting leaf is its old branch with exactly the message removed |
| Conversation.HideMovesBranch | backend/src/modules/automation/automation-runner.service.ts:532-604 | the branch after hiding below any parent that does not hang below the message, and exactly when it is the old branch without the message |
| Conversation.HideIsExactIff | backend/src/modules/automation/automation-runner.service.ts:532-604 | hiding is exact if and only if the remembered parent still fits |
| Conversation.PrepareExtendsBranch | backend/src/modules/automation/automation-runner.service.ts:265-396 | on any acyclic closed tree: a prepared run shows as one more message at the end of the branch; its instruction does not show |
| Conversation.HideUndoesPrepare | backend/src/modules/automation/automation-runner.service.ts:532-604 | on any acyclic closed tree: hiding the answer of a silent run restores branch, leaf and count |
| Conversation.CleanUpKeepsBranch | backend/src/modules/automation/automation.service.ts:322-377 | on any acyclic closed tree: deleting a conversation removes from the branch exactly the stopped answers that hang below another message |
| Conversation.CleanUpAllKeepsCount | backend/src/modules/automation/automation.service.ts:322-377 | clean-up counts each hidden answer once |
| Conversation.HideKeepsCountIff | backend/src/modules/automation/automation-runner.service.ts:559-602 | hiding keeps the count right if and only if the message was counted and the conversation is not recycled, or neither |
| Conversation.HideChangesSurplus | backend/src/modules/automation/automation-runner.service.ts:559-602 | by how much hiding changes the difference between stored count and visible messages, in all four cases |
| AutomationMessages.StepKeepsInv | backend/src/modules/automation/automation-runner.service.ts:151-263 | every step of executors, requests, deletion, restoring and crashes on automations, messages and the count keeps the joint invariant: each answer belongs to one started run, and is internal exactly where the history says so |
| AutomationMessages.CountIsAccountedFor | backend/src/modules/automation/automation-runner.service.ts:532-604 | over every run from the empty database: the stored count is the visible messages, plus answers hidden in the recycle bin that deletion had passed over, minus those subtracted again after restoring, minus those a late commit showed again; right exactly when these balance |
| AutomationMessages.HidingIsRightIff | backend/src/modules/automation/automation-runner.service.ts:559-602 | hiding an answer keeps the count right if and only if the conversation is recycled exactly when its deletion covered the answer |
| AutomationMessages.OtherStepsKeepTheBooks | backend/src/modules/seekmore-agent/finalization/agent-turn-finalization.service.ts:18-76 | of all other steps only a commit changes the difference, and exactly when deletion hid the answer between its read and its write |
| AutomationMessages.CarefulRunsConserveCount | backend/src/modules/automation/automation.service.ts:291-397 | a sufficient condition on deletions and restorings alone: the stored count is the number of visible messages after every run whose deletions find no unsettled answer of an ended automation or in the middle of its commit, and whose restorings find none unsettled |
| AutomationMessageTree.StepKeepsOrder | backend/src/modules/automation/automation-runner.service.ts:151-263 | every step keeps an order of messages in which parents come before children and the parent an executor remembers before its answer |
| AutomationMessageTree.TreeStaysAcyclic | backend/src/modules/automation/automation-runner.service.ts:532-604 | over every run from the empty database the parent relation stays acyclic and closed, stale parents included, and there is a current branch once there are messages |
| AutomationMessageTree.HidingMovesBranch | backend/src/modules/automation/automation-runner.service.ts:532-604 | after any run, hiding an answer: where the leaf goes, that the tree stays acyclic, what the branch becomes, and that it is the old one without the answer if and only if the remembered parent is still the answer's own |
| AutomationMessageTree.CommittingMovesLeaf | backend/src/modules/seekmore-agent/finalization/agent-turn-finalization.service.ts:18-76 | after any run, committing an unfinished answer moves the conversation to it, even in the recycle bin, and writes back the visibility that was read |
| AutomationMessageTree.DeliveringPutsTheLeafBack | backend/src/modules/automation/automation-runner.service.ts:823-842 | after any run, delivering goes back to the leaf seen before the commit, exactly if the conversation is at the answer, not recycled, and that leaf is another message; its branch is then the current one |
| AutomationMessageTree.DeliveredRunKeepsTheLeaf | backend/src/modules/automation/automation-runner.service.ts:212-225 | after any run, a delivered answer that nothing disturbs leaves the conversation at the user's leaf and on the same branch, except in the recycle bin |
| AutomationMessageTree.PreparingExtendsBranch | backend/src/modules/automation/automation-runner.service.ts:265-396 | after any run, a prepared run shows as one more message at the end of the branch and its instruction does not show |
| AutomationMessageTree.SilentRunLeavesNoTrace | backend/src/modules/automation/automation-runner.service.ts:151-263 | after any run, an undisturbed silent run from preparing to hiding leaves branch, leaf and count as they were |
| AutomationMessageTree.DeletingMovesBranch | backend/src/modules/automation/automation.service.ts:291-397 | after any run, deleting the conversation takes exactly the answers of the runs it stops off the branch |
| AutomationMessages.NoticedOnce | backend/src/modules/automation/automation-runner.service.ts:64-149 | once an expiry notice was sent, no run sends another for the same automation |
| AutomationMessageRuns.PassedOverIsMiscounted | backend/src/modules/automation/automation.service.ts:296-306 | whenever deletion passes over an answer about to be hidden, because its automation has ended, the count is left one too high |
| AutomationMessageRuns.RestoredIsMiscounted | backend/src/modules/chat/conversation/chat-conversation.service.ts:435-545 | whenever the conversation is restored before such an answer is hidden, the count is left one too low |
| AutomationMessageRuns.CommitUndoesDeletion | backend/src/modules/seekmore-agent/finalization/agent-turn-finalization.service.ts:18-76 | whenever deletion comes between the read and the write of a commit, the answer is visible again and not counted |
| AutomationMessageRuns.CancelledThenDeleted | backend/src/modules/automation/automation.service.ts:296-306 | a run from the empty database that ends with a count one too high |
| AutomationMessageRuns.DeletedThenRestored | backend/src/modules/chat/conversation/chat-conversation.service.ts:435-545 | a run from the empty database that ends with a count one too low |
| AutomationMessageRuns.OnlyStoppedRunsAreBuiltOn | backend/src/modules/automation/automation-runner.service.ts:296-308 | with the guard of preparing computed from the runs: an answer is prepared below an unsettled one only while that one's run is CANCELLING and its automation stopped |
| AutomationMessageRuns.StaleParentRevivesHiddenAnswer | backend/src/modules/automation/automation-runner.service.ts:532-604 | from every state in which a silent run is about to prepare below such an answer, eight possible steps bring the hidden answer back onto the branch |
| AutomationMessageRuns.HiddenAnswerComesBack | backend/src/modules/automation/automation-runner.service.ts:532-604 | a run from the empty database that ends with a hidden answer on the current branch |
| ToolSemaphore.ResolveMaxConcurrent | backend/src/tools/toolsregistry.ts:357-359 | a per-call maximum is clamped between one and the registered concurrency |
| ToolSemaphore.RegisteredConcurrency | backend/src/tools/toolsregistry.ts:83-101 | what was asked for, but at least one; eight when nothing was |
| ToolSemaphore.RegisteredTool.Acquire | backend/src/tools/toolsregistry.ts:365-399 | a call is admitted, queued or refused |
| ToolSemaphore.RegisteredTool.Release | backend/src/tools/toolsregistry.ts:401-404 | a slot is given back and handed to the head of the queue |
| ToolSemaphore.RegisteredTool.Leave | backend/src/tools/toolsregistry.ts:374-399 | an aborted or timed-out waiter leaves the queue, wherever it stands; by `GivingUpLeavesOthers` all others stay in their order |
| ToolSemaphore.RegisteredTool.Shutdown | backend/src/tools/toolsregistry.ts:68-77 | shutdown rejects exactly the queued waiters |
| ToolSemaphore.CallStepKeepsInv | backend/src/tools/toolsregistry.ts:313-339 | every step keeps the accounting, and giving back never meets an empty counter: the clamp does not fire |
| ToolSemaphore.SlotsAreAccountedFor | backend/src/tools/toolsregistry.ts:365-404 | in every reachable state active is granted minus released and within the registered concurrency, the queue within its limit, no waiter is left that the counter would admit, and waiters are woken first in, first out |
| ToolSemaphore.GivingUpLeavesOthers | backend/src/tools/toolsregistry.ts:374-399 | giving up removes exactly that waiter, and all others stay in their order |
| ToolSemaphore.NobodyGetsLost | backend/src/tools/toolsregistry.ts:365-404 | after any run every ticket has exactly one fate; it waits exactly if it is queued, was woken exactly if listed, and who was let in holds a slot or is done |
| ToolSemaphore.FatesAreFinal | backend/src/tools/toolsregistry.ts:68-77 | only who waits is woken, gives up or is shut out, each by exactly one kind of step; all other fates stay |
| ToolSemaphore.WokenAboveItsMaximum | backend/src/tools/toolsregistry.ts:374-404 | a waiter is admitted at the current level, so its own maximum holds if and only if that level equals it |
| ToolSemaphore.PerCallMaximumIsNotACap | backend/src/tools/toolsregistry.ts:374-404 | a reachable state in which a call that allows only itself runs beside another |
| IdempotencyLease.ResolveTimeout | backend/src/tools/toolsregistry.ts:361-363 | the first timeout given of call, tool, registration and default, but at least a tenth of a second |
| IdempotencyLease.Store.Acquire | backend/src/tools/idempotency/tool-idempotency.store.ts:15-29 | a lock and, when it is refused, a later probe of the protocol, on one key; every other key stays |
| IdempotencyLease.Store.Complete | backend/src/tools/idempotency/tool-idempotency.store.ts:31-33 | the store shows the state after the protocol's success step, on its key alone |
| IdempotencyLease.Store.Release | backend/src/tools/idempotency/tool-idempotency.store.ts:35-37 | the store shows the state after the protocol's failure step, on its key alone |
| IdempotencyLease.DefaultTtlCoversIff | backend/src/common/config/security.config.ts:92 | the default lifetime covers waiting plus running for every timeout if and only if the queue timeout is at most 30 seconds; the configuration allows ten minutes |
| IdempotencyLease.LeaseStepKeepsInv | backend/src/tools/toolsregistry.ts:299-344 | every step keeps: a call in flight owns the living marker until its deadline |
| IdempotencyLease.LeaseIsSafe | backend/src/tools/toolsregistry.ts:299-344 | under any interleaving with expiry at most one call per key is in flight, and a failing holder deletes only its own marker |
| IdempotencyLease.SuccessIsServed | backend/src/tools/toolsregistry.ts:299-344 | over every run, from a success until its lifetime is over the key holds exactly its result, and calls that come after it get that or are still asking |
| IdempotencyLease.FailureFreesTheKey | backend/src/tools/idempotency/tool-idempotency.store.ts:35-37 | a call that fails frees the key at once: the next call gets it |
| IdempotencyLease.TooShortALeaseIsUnsafe | backend/src/tools/toolsregistry.ts:299-344 | every lifetime that does not cover the call admits a run with two calls in flight |
| IdempotencyLease.StoredResultIsServed | backend/src/tools/idempotency/tool-idempotency.store.ts:15-37 | a stored result is neither removed nor replaced before its lifetime ends, and every call that asks gets exactly it |
| JsonText.UnquoteQuoteBody | backend/src/tools/idempotency/tool-idempotency.store.ts:52-58 | any string, unpaired surrogates included, is read back from its quoted form (section 7 of RFC 8259) |
| JsonText.OnlyWhatMustBeEscapedIs | backend/src/tools/idempotency/tool-idempotency.store.ts:52-58 | quotes, backslashes, control characters and unpaired surrogates are escaped, nothing else (section 7 of RFC 8259) |
| JsonText.ShortEscapesAre | backend/src/tools/idempotency/tool-idempotency.store.ts:52-58 | the seven short escapes (section 25.5.2.3 of ECMA-262) |
| JsonText.RestIsHexadecimal | backend/src/tools/idempotency/tool-idempotency.store.ts:52-58 | every other escape is four hexadecimal digits of the code unit |
| JsonText.SortSorts | backend/src/tools/idempotency/tool-idempotency.store.ts:52-58 | sorting puts distinct keys into code-unit order |
| JsonText.SortedIsUnique | backend/src/tools/idempotency/tool-idempotency.store.ts:52-58 | two sorted sequences with the same members are equal |
| CanonicalJsonProofs.RoundTrip | backend/src/tools/idempotency/tool-idempotency.store.ts:52-58 | a parser undoes the printer, in front of any text that does not continue a number |
| CanonicalJsonProofs.NormalIffSame | backend/src/tools/idempotency/tool-idempotency.store.ts:52-58 | the sorted normal form decides equality up to key order |
| CanonicalJsonProofs.NormalPrintsTheSame | backend/src/tools/idempotency/tool-idempotency.store.ts:52-58 | sorting the keys first does not change the text |
| CanonicalJsonProofs.CanonicalTextIff | backend/src/tools/toolsregistry.ts:583-589 | for JSON values without undefined, both printers: same text if and only if equal up to key order |
| CanonicalJsonProofs.ToolKeyTextIff | backend/src/tools/idempotency/tool-idempotency.store.ts:52-58 | on all values the tool runtime identifies key order and `[undefined]` with `[]`, and nothing else |
| CanonicalJsonProofs.RiskTextIff | backend/src/modules/approval/runtime-action-risk.service.ts:137-150 | on all values the risk service identifies key order and undefined with the string `__undefined__`, and nothing else |
| CanonicalJsonProofs.UndefinedCollides | backend/src/modules/approval/runtime-action-risk.service.ts:137-150 | these two collisions, as values |
| CanonicalJsonProofs.SameKeyIff | backend/src/tools/idempotency/tool-idempotency.store.ts:39-50 | two calls share an idempotency key if and only if supplied key, user, tenant, tool and version agree and the arguments are equal up to key order |
| ToolsDispatcher.WorkerCount | backend/src/tools/toolsdispatcher.ts:185-207 | one to `concurrency` workers, four by default, never more than invocations |
| ToolsDispatcher.StepKeepsInv | backend/src/tools/toolsdispatcher.ts:189-205 | every index below the shared counter was taken once and is answered or with its one worker |
| ToolsDispatcher.StepsRunOut | backend/src/tools/toolsdispatcher.ts:189-205 | every step of a worker brings the pool closer to its end |
| ToolsDispatcher.StuckMeansSettled | backend/src/tools/toolsdispatcher.ts:189-208 | no step is possible exactly when every worker is done or has failed |
| ToolsDispatcher.InFlightIsBounded | backend/src/tools/toolsdispatcher.ts:207-208 | at most one dispatch per worker is under way |
| ToolsDispatcher.DoneMeansAllAnswered | backend/src/tools/toolsdispatcher.ts:207-209 | workers all done means every invocation was dispatched once and every answer is in its place; an aborted pool is never done |
| ToolsDispatcher.EveryInterleavingAnswersAll | backend/src/tools/toolsdispatcher.ts:185-209 | over every interleaving: bounded concurrency, at most three steps for each invocation, and complete answers |
| ToolsDispatcher.AbortFailsThePool | backend/src/tools/toolsdispatcher.ts:189-197 | a check that finds the signal aborted fails its worker, and the pool is never done, whatever follows |
| ToolsDispatcher.DispatchSequential | backend/src/tools/toolsdispatcher.ts:169-188 | the answers in order, or an error at the first check that sees the abort, with what had been dispatched |
| ToolsDispatcher.ParallelRun.Take | backend/src/tools/toolsdispatcher.ts:191-195 | a worker takes the shared index |
| ToolsDispatcher.ParallelRun.Return | backend/src/tools/toolsdispatcher.ts:196-203 | a worker stores its answer at its own index |
| ToolsDispatcher.DispatchParallel | backend/src/tools/toolsdispatcher.ts:185-209 | for any schedule the parallel mode answers exactly when the sequential mode does, and the same |
| ApprovalProtocol.StepKeepsInv | backend/src/modules/approval/runtime-approval.service.ts:84-146 | every step of waiter, polls, timer, abort and deciders keeps the agreement invariant |
| ApprovalProtocol.DecisionIsFinal | backend/src/modules/approval/runtime-approval.service.ts:308-354 | a decision, once written, is never replaced, nor is the outcome of the waiting call |
| ApprovalProtocol.ClosedRowStaysUndecided | backend/src/modules/approval/runtime-approval.service.ts:105-141 | a row that left pending without a decision is never decided, nobody is answered and nothing is published |
| ApprovalProtocol.Agreement | backend/src/modules/approval/runtime-approval.service.ts:84-146 | after any interleaving an answered call has the persisted decision, an expired or cancelled row answered nobody, and at most one decision was written |
| ApprovalProtocol.PublishedOnce | backend/src/modules/approval/runtime-approval.service.ts:308-354 | with no decider under way, a decided row was published exactly once with its decision, any other not at all |
| ApprovalProtocol.NextPollAnswers | backend/src/modules/approval/runtime-approval.service.ts:113-123 | no lost wake-up: a call still waiting on a decided row is answered by its next poll |
| ApprovalProtocol.WinnerAnswers | backend/src/modules/approval/runtime-approval.service.ts:308-354 | a winning decider that found the waiter has settled it |
| ApprovalProtocol.UninterruptedDecision | backend/src/modules/approval/runtime-approval.service.ts:173-231 | alone, a decider decides exactly a pending row and answers exactly a waiting call |
| ApprovalProtocol.WaitBegins | backend/src/modules/approval/runtime-approval.service.ts:84-146 | how a wait begins whatever comes between its read and its registration: answered, aborted, or waiting |
| ApprovalProtocol.TimeoutMayMissTheDecision | backend/src/modules/approval/runtime-approval.service.ts:105-111 | such a run: a timeout, with the decision recorded and published |
| ApprovalProtocol.MissedDecisionIff | backend/src/modules/approval/runtime-approval.service.ts:105-141 | a wait that ends by timer or abort misses a decision if and only if the row was decided before the update that closes it, whatever happens before, between and after |
| ActionRisk.DecideIsMonotone | backend/src/modules/approval/runtime-action-risk.service.ts:72-95 | freer modes, lower risk and waived confirmation never allow less; exactly the forbidden level is blocked |
| ActionRisk.UndeclaredToolsAreJudgedByEffect | backend/src/modules/approval/runtime-action-risk.service.ts:97-117 | tools without declared risk: asking for each action only harmless ones run unasked, auditing all but irreversible writes and processes, and none is banned |
| ActionRisk.DeclaredToolsAreJudgedByLevel | backend/src/modules/approval/runtime-action-risk.service.ts:72-117 | for declared levels the effect never matters: low without confirmation always runs, high runs unasked with full access alone, and only forbidden is blocked |
| ApprovalReconcile.SettleIff | backend/src/modules/approval/runtime-action-risk.service.ts:72-95 | which approvals a pass keeps, spelled out: closed task, or same workspace and confirm mode, or audited mode and high risk |
| ApprovalReconcile.PassIsExact | backend/src/modules/approval/runtime-approval.service.ts:233-296 | with at most fifty pending rows, those left pending are exactly the kept ones, untouched, and rows of others are untouched |
| ApprovalReconcile.PassDecides | backend/src/modules/approval/runtime-approval.service.ts:233-296 | what a pass makes of each pending row of its window, in full: left, rejected or approved once, and the mode it takes |
| ApprovalReconcile.PassSparesOthers | backend/src/modules/approval/runtime-approval.service.ts:237-245 | decided rows and those of other users and conversations are untouched |
| ApprovalReconcile.AutoApprovalNeedsAllow | backend/src/modules/approval/runtime-approval.service.ts:233-296 | a pass approves once, and only what the current policy of an open task in the same workspace allows outright |
| ApprovalReconcile.PassLeaves | backend/src/modules/approval/runtime-approval.service.ts:233-296 | a pass over the table is a pass over the list of pending rows |
| ApprovalReconcile.PassIsIdleIff | backend/src/modules/approval/runtime-approval.service.ts:237-245 | a pass resolves nothing if and only if each of the oldest fifty is kept; a second pass over at most fifty resolves nothing |
| ApprovalReconcile.StarvedIff | backend/src/modules/approval/runtime-approval.service.ts:237-245 | however often it is repeated, the pass never reaches a row exactly when fifty kept rows are older |
| ApprovalReconcile.StarvedRowsIff | backend/src/modules/approval/runtime-approval.service.ts:237-245 | the same on the table |
| ApprovalReconcile.AnsweredIff | backend/src/modules/approval/runtime-approval.service.ts:316-342 | a pass answers exactly the calls that wait for a row it resolves, with the decision it writes |
| ApprovalReconcile.GrantDrainsTheTask | backend/src/modules/approval/runtime-approval.service.ts:196-228 | what a grant makes of each other pending approval of its task: granting audited runs leaves exactly those of high risk in the same workspace, as they were; full access leaves none; forbidden ones and those of other workspaces are rejected, the rest approved once |
| ApprovalReconcile.DecisionIsRecorded | backend/src/modules/approval/runtime-approval.service.ts:208-228 | the decided row records the decision and the mode it sets; unless it is a grant no other row changes |
| ApprovalReconcile.GoneAfterIff | backend/src/modules/approval/runtime-approval.service.ts:219-228 | what is published and answered after a grant concerns exactly the rows it made the pass decide |
| ApprovalReconcile.RuntimeApprovalService.ResolvePendingRow | backend/src/modules/approval/runtime-approval.service.ts:308-354 | the row, the waiting call and the event |
| ApprovalReconcile.RuntimeApprovalService.ReconcilePendingForConversation | backend/src/modules/approval/runtime-approval.service.ts:233-296 | the loop settles exactly the window, counts what it resolved, publishes it in order and answers its waiters |
| ApprovalReconcile.RuntimeApprovalService.Decide | backend/src/modules/approval/runtime-approval.service.ts:173-231 | each refusal, each answer without effect, and the effect of a decision or grant on rows, policies, events and waiting calls |
| RefreshRotation.StepKeepsInv | backend/src/modules/auth/auth.service.ts:57-171 | every step keeps: the stored hash is of an unredeemed token of the stored session and user, minted tokens are not stored or redeemed before their swap |
| RefreshRotation.StoredHashBelongsToTheSession | backend/src/modules/auth/auth.service.ts:184-301 | for every interleaving the stored hash belongs to a token of the stored session |
| RefreshRotation.RedeemedAtMostOnce | backend/src/modules/auth/auth.service.ts:271-292 | two refreshes that succeed did not present the same token |
| RefreshRotation.ExpiryIsFixed | backend/src/modules/auth/auth.service.ts:261-292 | refreshing never changes the expiry of the session |
| RefreshRotation.RefusedIff | backend/src/modules/auth/auth.service.ts:220-250 | at any moment a token is refused exactly if user, session, activity of the user, stored hash or expiry is against it |
| RefreshRotation.ExpiredSessionIsRefused | backend/src/modules/auth/auth.service.ts:245-259 | after any run, every refresh of an expired session is refused and changes nothing else |
| RefreshRotation.NothingIsIssuedAfterThirtyDays | backend/src/modules/auth/auth.service.ts:57-171 | over every run each token of a session is issued less than 2592000000 milliseconds after the session was created |
| RefreshRotation.SessionIsCreatedIff | backend/src/modules/auth/auth.service.ts:57-171 | when a session is created, exactly: fresh, for an active user, ending in thirty days |
| RefreshRotation.ReplacedSessionIsDead | backend/src/common/guards/jwt.guard.ts:53-68 | the access tokens of a replaced session never pass again and none of its refresh tokens is redeemed, not even by a refresh already under way |
| RefreshRotation.UninterruptedRefresh | backend/src/modules/auth/auth.service.ts:184-301 | alone, a refresh succeeds exactly if user, session, activity, hash and expiry agree; it then spends its token and stores the fresh one, and is refused otherwise |
| RefreshRotation.SecondSwapIsRefused | backend/src/modules/auth/auth.service.ts:271-292 | of two refreshes that validated one token the second to swap changes nothing |
| RefreshRotation.AuthService.CreateLocalSession | backend/src/modules/auth/auth.service.ts:57-171 | whom a new session belongs to, when it is refused, and the row it leaves; a user created with it is active |
| RefreshRotation.AuthService.ValidateAndMint | backend/src/modules/auth/auth.service.ts:220-269 | the first half of a refresh: minted exactly if user, session, activity, hash and expiry agree |
| RefreshRotation.AuthService.Rotate | backend/src/modules/auth/auth.service.ts:271-282 | the conditional update compares user and hash only |
| RendererRecovery.FilterIsSuffix | desktop/src/main/window-manager.ts:242-247 | on an ascending list, filtering by age drops a prefix |
| RendererRecovery.RecoverRemembers | desktop/src/main/window-manager.ts:224-266 | one call on any remembered history: refused exactly when three accepted recoveries are inside the window |
| RendererRecovery.RunsRemember | desktop/src/main/window-manager.ts:242-266 | the pruned list is always the in-window suffix of the whole history |
| RendererRecovery.FourRecoveriesSpanTheWindow | desktop/src/main/window-manager.ts:56-63 | over the whole history any four accepted recoveries span at least 60 seconds |
| RendererRecovery.SuppressedExactly | desktop/src/main/window-manager.ts:249-266 | a call is suppressed exactly when three recoveries were accepted in the last minute |
| RendererRecovery.SteppingBackDefeatsTheBound | desktop/src/main/window-manager.ts:240-247 | with a clock that steps back the bound fails |
| RendererRecovery.WindowManager.RecoverRenderer | desktop/src/main/window-manager.ts:224-266 | the new list, whether a reload is scheduled, and nothing for a quitting application or a missing window |

## Left out

- AutomationService.Service.RecoverInterruptedRuns: which two hundred of more interrupted rows are recovered first is not fixed, because the model's table carries no creation times.
- AutomationMessages.StepKeepsInv: an executor that fails after its answer was settled takes no further step, and the exception path commits as the regular path does; edits, regeneration and purging of chat messages are not part of this model.
- Automation titles, instructions, ownership checks and event payloads: carried along without any effect on the state modelled here.
- Liveness of a run whose automation is paused between the busy answer and the hand-back (automation-runner.service.ts:157-161): it stays CANCELLING until a restart, and only safety and recoverability are claimed.
- `executeResolved` (toolsregistry.ts:241-257) opens fresh slots for every call, so no limit is shared between such calls and there is nothing to prove about one.
- Tool work that goes on after its timeout was reported: in flight means until the call settles.
- Several waiting calls for one approval, a failing database during a poll, and approval rows purged with their conversation.
- Stream hooks that throw out of a dispatch, call ids, and result redaction and truncation.
- Expiry and verification failures inside the token library, cookies, and user attributes in tokens; a token that fails to verify takes no step.
- The reload itself, fifteen-second unresponsiveness detection and the rest of the window manager.
- `Date.UTC` maps years 0 to 99 to the twentieth century; the recurrence theorem excludes starting dates in those years and before the range of a `Date`.
- NestJS wiring, DTOs, gateways, providers, file and terminal tools, React and Electron interface code: no shared state worth an invariant.
- Contents, summaries and timelines of messages, and the chat turn orchestrator beyond what its call sites show.
