# TaktaPlus: verified model of its stateful core

TaktaPlus manages fleets of network devices. This project models the parts of it whose
correctness depends on more than one function at a time and proves properties of every run or every
input:

- **Change rollout.** A change goes draft, pending, approved, running, finished. `Execution` is one
  rollout as a small-step machine: canaries one at a time, then workers behind a semaphore, two
  `stop()` checks, a failure counter behind a mutex, a cancel flag set from outside, and the final
  statements one by one. Every lock region, statement and channel operation is one step, so a run of
  the machine is one interleaving. `ExecutionRuns` and `ExecutionOutcomes` have the theorems over all
  interleavings. `Workflow` is one stored row and what each request does to it. `Engine` puts rows, the maps
  `running` and `cancel`, the scheduler, any number of rollouts, crashes and recovery into one
  machine. Over all its histories: `EngineRuns` (locks, lifecycle, restarts), `SchedulerRuns` (what a pass
  starts and what it passes over), `RequestHistories` (status, votes and mode told from the requests),
  `RolloutHistories` and `TargetHistories` (one change and its targets told from the events) and
  `SuccessHistories` (that changes can be run to success, and stopped). `ChangeService` holds the
  requests, lock regions, the scheduler pass and recovery as methods that update these tables in
  place, each tied to the functions the machine steps with.
- **Maintenance windows** (`Windows`), approvals required and the creation of a change (`Requests`).
- **Firmware upgrade paths** (`Firmware`): the breadth-first search with its in-place sort.
- **Configuration comparison** (`ConfigText`, `ConfigSource`, `ConfigMeaning`): normalizing, flattening, diffing,
  what lines and nested blocks mean, and which change a single edit is.
- **Alerts** (`Alerts`, `AlertNotes`, `AlertRuns`, `AlertService`): two tables reconciled with each evaluation. `Alerts` and
  `AlertNotes` count a notification when it is queued; `AlertRuns` is the service as it runs, where apply commits and
  queues, notify sends one by one and acknowledgements come in between, and refines them.
- **Backups** (`Retention`, `Schedule`): what is deleted and when policies run.
- **Two-factor codes** (`Sms`, `Challenges`): the limit on messages and the outstanding codes.

Times are integers in nanoseconds, days have 24 hours. SQL tables are maps or sequences of records and
each transaction is one step. Methods follow the code that works by changing things step by step; their
contracts give the new state as a function of the old one, and the lemmas beside them say what these
functions guarantee.

## Where the code and its comments differ

The model follows the code. These are proved, not only noted:

- A cancel that arrives after the final status was chosen is lost: a change ends cancelled if and only
  if the request came before that (`ExecutionRuns.CancelledIffInTime`, `LateCancelIsLost`).
- `nextRun` speaks of every window opening in the next week, but asking again one minute after an opening
  returns the same opening (`Windows.NextRepeats`), so it considers one opening per window. It names a past
  time if and only if some enabled window's occurrence in progress began, before now, when the change could
  start (`EstimatePastIff`): also for a change that can start now (`DueNowEstimate`) and for one that cannot
  any more (`EstimateInThePast`). For a change that cannot start now and has no such occurrence it
  names the first possible start if and only if that is some closed window's first opening after now, else
  a later one or none (`EstimateExactIff`, with the input `NextRunMissesOpenings`). It is exact when
  the same windows cover all devices and no other window is open (`EstimateIsFirst`).
- `Policy.next` says that a missed run happens once. `Schedule.DueIff` is the exact condition;
  after more than a day without the server the run is dropped unless another slot is less than a minute
  old (`MissedRunCanBeSkipped`).
- `applyRetention` says that unlocked backups are deleted and the newest is always kept. Failed rows go by
  age, locked or not, even the newest (`Retention.FailedStays`, `NewestRowStays`).
- Acknowledging an alert is to stop its repeats, but notify sends after apply has committed: a repeat that is
  queued when the acknowledgement comes still goes out, once (`AlertRuns.OpenedAfterConfirm`). Every due repeat can be
  overtaken like this (`RepeatOvertakesConfirm`, with the input `RepeatOvertakesOnce`).
- A backup that is locked after retention has fetched the rows is still deleted (`Retention.LateLockIsIgnored`).
- The number of messages in ten minutes is bounded by `MaxSends` only when looking and sending are one
  step; with k senders at once the bound is `MaxSends + k - 1`, and it is reached (`Sms.AtMostIsReached`).
- The failure limit stops a rollout after at most `MaxFailures + Concurrency` failures, and some
  interleaving gets there for every limit and concurrency (`ExecutionRuns.FailureBoundReached`).
- A configuration whose `config` or `edit` lines contain `" > "` can hide a block from the comparison
  (`ConfigText.SeparatorHidesBlock`); `LinesToldApartIffClosed` says exactly which configurations are safe.
- `normalize` never changes what is compared but is not idempotent: normalizing a normal form changes
  nothing if and only if it has no `\r\n` left and does not begin with a volatile line
  (`ConfigSource.NormalizeAgainIff`; `NormalizeIsNotIdempotent` and `IndentedVolatile` are the two ways to fail).

## Model

| member | source | states |
|---|---|---|
| Execution.StepInv | internal/changes/engine.go:167-239 | Every step of every interleaving keeps the inductive invariant: work state and stored row of each target agree, counted failures plus failing workers are the failed rows, failures plus targets past their last check stay within MaxFailures + Concurrency, no other target runs before all canaries succeeded, slots in use stay within Concurrency |
| ExecutionRuns.FailureBound | internal/changes/engine.go:174-214 | In every reachable state failed plus running targets are at most MaxFailures + Concurrency |
| ExecutionRuns.FailureBoundReached | internal/changes/engine.go:196-214 | For every limit and concurrency an interleaving fails exactly MaxFailures + Concurrency targets |
| ExecutionRuns.CanariesFirst | internal/changes/engine.go:188-196 | A target outside the canaries runs only if every canary ran and succeeded |
| ExecutionRuns.StopIsSticky | internal/changes/engine.go:176-180 | After any stop() returned true every later stop() of the execution does |
| ExecutionRuns.Finished | internal/changes/engine.go:216-239 | A finished execution leaves no pending or running target, succeeded + failed + skipped are all targets, the counter equals the failed rows, and an uncancelled status is succeeded, partial or failed exactly by the rows |
| ExecutionRuns.CancelledIffInTime | internal/changes/engine.go:225-235 | The final status is cancelled if and only if a cancel was flagged before the status was chosen |
| ExecutionRuns.ChosenStays | internal/changes/engine.go:233-239 | Whatever comes after the status was chosen, cancel requests too, neither the status nor a target changes |
| ExecutionRuns.LateCancelIsLost | internal/changes/engine.go:233-239 | The run in which a cancel comes right after the switch and is lost |
| ExecutionRuns.StepDecreases | internal/changes/engine.go:167-240 | Every own step of an execution lowers one measure and a cancel leaves it, so nothing loops |
| ExecutionRuns.Progress | internal/changes/engine.go:197-213 | No interleaving deadlocks: until it is done the execution has a next step of its own |
| ExecutionRuns.Terminates | internal/changes/engine.go:167-240 | An execution of n targets takes a number of own steps linear in n, whatever the interleaving and the cancels |
| ExecutionOutcomes.OutcomeIsReported | internal/changes/engine.go:255-294 | In every run a target succeeded exactly if its runner reported success, failed exactly if it reported a failure, and is running exactly in between |
| ExecutionOutcomes.EitherOutcome | internal/changes/engine.go:255-294 | While a target runs its runner can report either |
| ExecutionOutcomes.NothingLoaded | internal/changes/engine.go:167-173 | The execution returned early exactly if loading the targets failed, and then no row changes |
| ExecutionOutcomes.CanariesOneByOne | internal/changes/engine.go:187-194 | While a canary runs all canaries before it have ended and no other target runs or has run |
| ExecutionOutcomes.SkippedForAReason | internal/changes/engine.go:183-221 | In a finished uncancelled execution a canary was skipped if and only if more than MaxFailures canaries before it failed; the others were all skipped if a canary did not succeed, otherwise one was skipped only after more than MaxFailures failures |
| ExecutionOutcomes.AllWellSucceeds | internal/changes/engine.go:181-235 | If nothing fails and nobody cancels every target runs and succeeds and so does the change |
| ExecutionOutcomes.SomeRunSucceeds | internal/changes/engine.go:167-240 | For every configuration and number of targets some interleaving is such a run |
| ExecutionOutcomes.NothingStartsAfterStop | internal/changes/engine.go:176-208 | After a cancel or one failure too many no target runs that had not passed its check before |
| ExecutionOutcomes.NothingLaunchedAfterStop | internal/changes/engine.go:197-210 | After that no goroutine is launched but for the one target that was past its first check |
| Workflow.SubmitRowOk | internal/changes/changes.go:405-417 | Exactly a draft can be submitted; only its status changes, to approved if it needs no approval, else pending, and its invariant holds |
| Workflow.DecideRowCases | internal/changes/changes.go:423-458 | A vote is accepted if and only if the change is pending, the user is not its creator and has not voted; each refusal names its cause; an accepted vote is appended, a rejection rejects, and the approval that makes up the required number approves |
| Workflow.MissingApprovals | internal/changes/changes.go:440-453 | As many further users as approvals are missing, none of them the creator or a voter, bring a pending change to approved one after the other; fewer leave it pending |
| Workflow.ApprovalsCount | internal/changes/changes.go:448-450 | The count of approvals is the number of approving votes |
| Workflow.DecideRowOk | internal/changes/changes.go:423-458 | A vote keeps the invariant: distinct voters, never the creator, approved at exactly the required number, one rejection ends the change |
| Workflow.CancelRowOk | internal/changes/changes.go:462-473 | Exactly a change that has not started can be cancelled; its status and its targets, all skipped, are all that changes, and its invariant holds |
| Workflow.RunNowRowOk | internal/changes/changes.go:485-501 | Exactly a change that has not started can skip the window; its mode becomes now and nothing else changes |
| Workflow.RecoveryConverges | internal/changes/engine.go:305-316 | However often recovery crashes and between whichever of its statements, the restart that gets through leaves what an uninterrupted one leaves |
| Workflow.RecoveredRow | internal/changes/engine.go:306-316 | Recovery fails a running change with its running targets failed and its pending ones skipped, and leaves any other change as it was |
| Engine.StepInv | internal/changes/engine.go:97-316 | Every step of the whole service, crashes included, keeps its invariant: exact locks, valid rows, valid executions, flags only for started changes, running rows only in process |
| Engine.StepForward | internal/changes/changes.go:375-501 | Every step moves every row forward in the lifecycle or not at all |
| EngineRuns.LocksAreExact | internal/changes/engine.go:97-157 | In every history executing changes have disjoint devices, `running` is exactly the devices of executions and of the scheduler's claim, and an execution holds its devices until its final status is stored |
| EngineRuns.RunningIsInProcess | internal/changes/engine.go:167-173 | Outside a restart a stored running change is executing, or its targets failed to load since the last restart |
| EngineRuns.StoredFailureBound | internal/changes/engine.go:174-316 | No stored change ever has more failed targets than MaxFailures + Concurrency, restarts included |
| EngineRuns.StoredVerdict | internal/changes/engine.go:224-239 | In every history: succeeded means every target did, partial means some did and some did not, any ended change but a rejected one has every target decided, a rejected or unstarted one keeps them pending |
| EngineRuns.FailedMeansNone | internal/changes/engine.go:225-232 | Unless the service crashed, a failed change has no succeeded target |
| EngineRuns.StoredCanariesFirst | internal/changes/engine.go:188-196 | In every history, restarts included, a stored target outside the canaries ran only if every stored canary succeeded |
| EngineRuns.ApprovedExactly | internal/changes/changes.go:423-458 | A change that is or was approved has exactly the required approvals, from distinct users other than its creator, and no rejection |
| EngineRuns.HistoryForward | internal/changes/changes.go:375-501 | Between any two moments of a history every row moved forward and kept its request |
| EngineRuns.ApprovalIsForGood | internal/changes/changes.go:423-458 | Once approved the votes never change and the change is never rejected |
| EngineRuns.FinalIsFinal | internal/changes/engine.go:233-239 | A finished, cancelled or rejected change keeps its status for ever |
| EngineRuns.StartsOnce | internal/changes/engine.go:119-132 | A change enters execution at most once, restarts included |
| EngineRuns.RestartSettles | internal/changes/engine.go:305-316 | From a crash to the last statement of recovery, whatever requests and further crashes come in between: a change running when the service first crashed ends as recovery of its row, failed with every target decided; a change without a request of its own is as it was then |
| EngineRuns.NothingRunsAfterRecovery | internal/changes/engine.go:305-316 | When recovery is through no change is stored as running |
| SchedulerRuns.PassedOverWasHeld | internal/changes/engine.go:97-135 | In every history, whatever happens during the pass: a listed due change that is still approved when the pass ends had a device held at its own lock attempt, made after those of the changes before it |
| SchedulerRuns.StartedWasDue | internal/changes/engine.go:108-119 | In every history a change is started only in a pass that listed it as due, after an attempt of that pass that found all its devices free |
| SchedulerRuns.NotDueStays | internal/changes/engine.go:108-118 | In every history a change listed only as not due leaves the pass approved, or cancelled exactly if it was withdrawn during it |
| SchedulerRuns.WholePass | internal/changes/engine.go:97-135 | A pass that nothing interrupts always comes to its end and starts exactly the due changes whose devices are free and not taken by one started before; no other row changes |
| RolloutHistories.StepsAreBounded | internal/changes/engine.go:167-240 | In every history, restarts included, the execution of a change takes at most 10 steps per device and 11 more |
| RolloutHistories.StoredCancelledIffInTime | internal/changes/engine.go:225-237 | In every history a change whose execution stored its final status is cancelled if and only if its cancel was flagged before the execution chose the status |
| TargetHistories.StoredOutcome | internal/changes/engine.go:255-316 | In every history a stored target succeeded exactly if its runner reported success, failed exactly if it reported a failure or a restart came before any report, and is running exactly in between |
| TargetHistories.OwnRun | internal/changes/engine.go:119-134 | The events a history gives a change in execution are a run of the rollout machine that leads to its rows, flag and counters, so what holds over runs holds for stored changes |
| TargetHistories.StoredSkips | internal/changes/engine.go:183-221 | The reasons for skipping hold for every stored change that ran to its end without being asked to stop |
| TargetHistories.StoredSuccess | internal/changes/engine.go:181-239 | A stored change that ran to its end without a failure, and was not asked to stop, succeeded on every device |
| RequestHistories.StatusIsRequested | internal/changes/changes.go:405-501 | In every history a change has exactly the accepted votes in their order, the mode it was created with unless told to run now, and the status its requests lead to unless that is approved and it was started |
| RequestHistories.AcceptedIff | internal/changes/changes.go:405-501 | Which requests on a change a history accepts next, told from its status and the votes so far |
| RequestHistories.FlagIsPending | internal/changes/engine.go:159-163 | The cancel flag of a change is set exactly while a request has set it and neither its execution nor a crash has cleared it |
| SuccessHistories.DraftsCanSucceed | internal/changes/engine.go:97-240 | After any history, while the scheduler rests and its devices are free, a draft can go through approval by any users it needs and execution to success, and the locks are then as before |
| SuccessHistories.ChangesCanSucceed | internal/changes/changes.go:209-289 | Every change that can be created succeeds in some history |
| SuccessHistories.RunningCanBeCancelled | internal/changes/changes.go:474-482 | After any history a change in execution that has not chosen its status can be asked to stop and then ends cancelled |
| ChangeService.Service.Create | internal/changes/changes.go:165-289 | Accepts exactly the valid requests; a refusal names the first fault of the request, or, if it has none, the device planning stopped at; the draft keeps the first places of devices and needs the strictest number of approvals |
| ChangeService.Service.Transition | internal/changes/changes.go:375-390 | Moves the row if its status allows, else reports a missing change or a wrong state and changes nothing |
| ChangeService.Service.Submit | internal/changes/changes.go:405-417 | The stored row becomes what SubmitRow says, or nothing changes and the reason is returned |
| ChangeService.Service.CountApprovals | internal/changes/changes.go:448-452 | The loop counts the approvals |
| ChangeService.Service.Decide | internal/changes/changes.go:423-458 | The stored row becomes what DecideRow says, or nothing changes and the reason is returned |
| ChangeService.Service.Cancel | internal/changes/changes.go:462-482 | A change that has not started is cancelled with its targets skipped; a running one is only flagged |
| ChangeService.Service.RunNow | internal/changes/changes.go:485-501 | Without a reason nothing changes; otherwise the row becomes what RunNowRow says |
| ChangeService.Service.Lock | internal/changes/engine.go:137-149 | Locks all devices if none is held, else none |
| ChangeService.Service.Unlock | internal/changes/engine.go:151-157 | Frees exactly these devices |
| ChangeService.Service.Tick | internal/changes/engine.go:97-135 | A listed change starts if and only if it is due by the groups its devices are in now and shares no device with a change running before or an older one started in the pass; rows and `running` change by exactly these |
| ChangeService.Service.DueRowIff | internal/changes/engine.go:40-53 | Due means: told to run now, or past the run time, or every device changeable by the windows for the group it is in now |
| ChangeService.Service.Recover | internal/changes/engine.go:305-316 | The three statements leave what the whole recovery leaves |
| Windows.OpenAt | internal/changes/windows.go:63-79 | For windows of at most a day the two-day look-back finds an occurrence if and only if some day's occurrence contains t |
| Windows.OccurrenceUnique | internal/changes/windows.go:63-79 | No two occurrences of a valid window share an instant |
| Windows.Next | internal/changes/windows.go:82-98 | An enabled valid window always has a next start within the 0..7 day scan: the occurrence in progress, else the least later start; a stored start time that does not parse gives none |
| Windows.NextUnique | internal/changes/windows.go:82-98 | That start is the only one |
| Windows.NextRepeats | internal/changes/engine.go:76-83 | One minute after an opening the next opening is the same one |
| Windows.InWindowNow | internal/changes/windows.go:101-120 | A device may be changed if and only if no enabled window covers it or a covering one is open |
| Windows.HeldBackIff | internal/changes/windows.go:101-120 | A waiting change is held back exactly by a device for whose group, or for all, there is an enabled window while none of these has an occurrence containing t |
| Windows.DueAt | internal/changes/engine.go:40-53 | A change is due if and only if its mode says so for all its devices |
| Windows.RunNowIsDue | internal/changes/changes.go:485-501 | After a request to run now the change is due at any time |
| Windows.Candidates | internal/changes/engine.go:74-84 | The eight rounds per window add nothing but now and one opening per enabled window |
| Windows.NextRun | internal/changes/engine.go:56-93 | The estimate is a time the change is due: in window mode the earliest due candidate, with a run time exactly the first instant it is due, else now |
| Windows.EstimatePastIff | internal/changes/engine.go:74-92 | For any change the estimate is before now if and only if an enabled window's occurrence in progress began, before now, when the change could start |
| Windows.BlockedPastIff | internal/changes/engine.go:74-92 | For a change that cannot start now the estimate is not after now if and only if there is such an occurrence |
| Windows.DueNowEstimate | internal/changes/engine.go:74-92 | For a change that can start now the estimate is now, or before now exactly with such an occurrence |
| Windows.EstimateExactIff | internal/changes/engine.go:74-92 | For a change that cannot start now the estimate is the first instant it can if and only if there is no such occurrence and that instant is the first opening after now of an enabled window closed now |
| Windows.NeverDueEstimate | internal/changes/engine.go:74-92 | A change that can never start again has an estimate if and only if there is such an occurrence |
| Windows.EstimateIsFirst | internal/changes/engine.go:56-93 | With the same windows over all devices and no other open, the estimate is the first instant the change may start, or not after now when it may start now |
| Windows.NextRunMissesOpenings | internal/changes/engine.go:74-92 | An input for EstimateExactIff: two groups with one common day, a due time within the week and no due candidate |
| Windows.EstimateInThePast | internal/changes/engine.go:74-92 | An input for EstimatePastIff: with another group's window open the estimate is a past time at which the change cannot start any more |
| Requests.RequiredFor | internal/changes/windows.go:190-214 | The result is the largest need over the groups: own policy, else the default, else 1 |
| Requests.NeedIs | internal/changes/windows.go:195-213 | With one policy per group: the policy of the group, without it the default, without that one approval |
| Requests.Dedup | internal/changes/changes.go:170-177 | Distinct devices in the order of their first places |
| Requests.Normalize | internal/changes/changes.go:165-203 | Accepts exactly requests in order, keeping first places of devices; otherwise names the first fault |
| Requests.Plan | internal/changes/changes.go:224-249 | One plan per device in order if all can be planned; otherwise the first unknown device or failed preview, or the collected problems if there is none |
| Firmware.Path | internal/deploy/firmware.go:61-117 | Each error and result case exactly; a path is a chain of compatible newer images of the repository, no shorter one exists, without ties it has the newest versions first among the shortest; an error for no path means no chain exists |
| Firmware.Search | internal/deploy/firmware.go:85-116 | The breadth-first search is sound, shortest and complete, and takes at most one round per image and one more |
| Firmware.FilterLosesNothing | internal/deploy/firmware.go:72-78 | Every upgrade among all images uses only images that pass the version range filter |
| Firmware.SortNewestFirst | internal/deploy/firmware.go:104-110 | The in-place exchange sort puts newer versions first and keeps the images |
| Firmware.ChainsReached | internal/deploy/firmware.go:87-115 | Every chain has a queued node for its end version that is no deeper and, at equal depth, no older |
| Firmware.Round | internal/deploy/firmware.go:97-114 | A round keeps the search invariant and uses up an entry or unseen images, though versions can be queued twice |
| Firmware.Found | internal/deploy/firmware.go:88-96 | When the target is taken from the queue its trail is a shortest upgrade and the newest of these |
| Firmware.Exhausted | internal/deploy/firmware.go:116 | When the queue runs empty no upgrade exists |
| Firmware.Rebuild | internal/deploy/firmware.go:90-95 | Walking back through prev gives the images from first to last |
| ConfigText.FlattenLines | internal/backup/configtext.go:60-99 | The loop over stack, seen, blocks and nested maps computes Flatten |
| ConfigText.FlattenBlocks | internal/backup/configtext.go:60-99 | The block list has no duplicates and is the key set of the settings |
| ConfigText.FlattenOk | internal/backup/configtext.go:60-99 | Without the separator in block lines the parent of every block is a block |
| ConfigText.Diff | internal/backup/configtext.go:102-153 | Lists every difference exactly once and nothing else, block by block, the new blocks in their order and then the old missing ones, settings sorted; empty if and only if the flattened maps are equal, for clean block lines |
| ConfigText.DiffBlock | internal/backup/configtext.go:127-150 | Lists every differing setting of a block once, with its masked values, sorted by name |
| ConfigText.SilentIffEqual | internal/backup/configtext.go:102-164 | For maps closed under parents, nothing is reported if and only if they are equal |
| ConfigText.ToldApartIffClosed | internal/backup/configtext.go:155-164 | A map is told from all of its restrictions if and only if it is closed under parents |
| ConfigText.LinesToldApartIffClosed | internal/backup/configtext.go:155-164 | The same for the lines of configurations: one that is not closed has a real counterpart, its own lines without a block, from which Diff does not tell it |
| ConfigText.CutPrunes | internal/backup/configtext.go:60-99 | Leaving out the lines of a block and of all below it leaves exactly these blocks out of the flattened map |
| ConfigText.SeparatorHidesBlock | internal/backup/configtext.go:157-164 | A new block whose line contains the separator is not reported |
| ConfigText.MissingIsReported | internal/backup/configtext.go:155-166 | Every missing block has a reported topmost ancestor or is reported itself |
| ConfigText.ReportedOnce | internal/backup/configtext.go:155-166 | The reported ancestor of a missing block is its topmost missing one and no other |
| ConfigText.DiffReversed | internal/backup/configtext.go:102-166 | Diff(b, a) is, as a multiset, Diff(a, b) with added and removed, old and new exchanged |
| ConfigText.MissingInOrder | internal/backup/configtext.go:105-109 | The old blocks that are missing are compared in their order |
| ConfigText.LessIff | internal/backup/configtext.go:138 | Settings are sorted by the first character in which their names differ, a shorter name before its extensions |
| ConfigMeaning.LineKinds | internal/backup/configtext.go:66-82 | Every line is exactly one of: comment or blank, opening `config` or `edit`, closing `end` or `next`, setting |
| ConfigMeaning.KeyIff | internal/backup/configtext.go:90-95 | A `set` or `unset` line goes by the name that follows, whatever the spacing, any other setting by its whole line |
| ConfigMeaning.SettingIsStored | internal/backup/configtext.go:82-96 | A setting line is stored in the open block under the name it goes by, in place of an earlier one; nothing else changes |
| ConfigMeaning.NothingMeant | internal/backup/configtext.go:66-81 | Comments, blank lines and a closing line without an open block change nothing |
| ConfigMeaning.BlocksInOrder | internal/backup/configtext.go:68-90 | Blocks are listed in the order in which they first appear |
| ConfigMeaning.FlattenRenders | internal/backup/configtext.go:60-99 | Flattening the lines of any nested blocks and settings gives their meaning and leaves the open blocks open |
| ConfigMeaning.OneValueChanged | internal/backup/configtext.go:102-153 | Two configurations that differ in the value of one setting, which no later line of its block sets again, are reported to differ by exactly that change |
| ConfigMeaning.OneSettingAdded | internal/backup/configtext.go:102-153 | A setting that is new in a block that is there is reported as exactly one addition |
| ConfigMeaning.OneBlockAdded | internal/backup/configtext.go:102-164 | A new block with all that is in it is reported as exactly one addition, for clean block lines |
| ConfigSource.Compact | internal/backup/configtext.go:16-22 | The loop leaves exactly the kept lines, in order and without trailing blanks, at the front of the array |
| ConfigSource.KeptUnlessHeader | internal/backup/configtext.go:12-22 | Wherever it stands a header line that changes on every save goes, and any other line, a comment too, stays without its trailing blanks |
| ConfigSource.NormalizeText | internal/backup/configtext.go:15-24 | The whole of normalize computes Normalize |
| ConfigSource.NormalizeKeepsMeaning | internal/backup/configtext.go:15-24 | A text and its normal form flatten to the same blocks and settings |
| ConfigSource.NormalForm | internal/backup/configtext.go:15-24 | Every normal form is trimmed, has no blanks at line ends and no volatile line but perhaps the first |
| ConfigSource.NormalizeAgainIff | internal/backup/configtext.go:15-24 | Normalizing a normal form again changes nothing if and only if it has no two-character line separator and no volatile first line |
| ConfigSource.NormalizeIsNotIdempotent | internal/backup/configtext.go:15-24 | An input for it: a separator with two carriage returns loses one each time |
| ConfigSource.IndentedVolatile | internal/backup/configtext.go:15-24 | Every indented volatile line at the top of a text is kept once and dropped the next time |
| ConfigSource.DiffTexts | internal/backup/configtext.go:60-153 | The comparison reports the difference, in order, of what the texts mean before normalizing; equal normal forms report nothing |
| Alerts.MirrorsNext | internal/alerts/alerts.go:472-544 | If the tables mirror the history of evaluations they do so after one more |
| Alerts.TablesMirrorHistory | internal/alerts/alerts.go:472-544 | After any run the open alerts are exactly the current conditions whose unbroken run began at least the duration ago, and pending holds when each run began |
| Alerts.EvaluateOpens | internal/alerts/alerts.go:483-529 | Which subjects are pending and open after one evaluation |
| AlertNotes.EvaluateSteps | internal/alerts/alerts.go:496-572 | What one evaluation announces about each alert: opening at creation, again if and only if its condition is mature and a repeat is due, one resolution exactly when its condition ended |
| AlertNotes.EveryStory | internal/alerts/alerts.go:496-572 | Over any run, queued counted as announced, each alert has one opening at creation, repeats at least the interval apart, one resolution exactly when resolved and nothing after |
| AlertNotes.RepeatedIffDue | internal/alerts/alerts.go:510-516 | After any run an open alert whose condition still holds is queued again if and only if the rule repeats, nobody acknowledged it and the interval since it was last announced is over |
| AlertNotes.AckedIff | internal/alerts/alerts.go:310-316 | An alert is flagged as acknowledged exactly when somebody acknowledged it while it was open |
| AlertNotes.MessageIsCurrent | internal/alerts/alerts.go:500-510 | After every evaluation an open alert carries the message its condition has now |
| AlertNotes.AcknowledgedIsQuiet | internal/alerts/alerts.go:310-316 | After an acknowledgement only the resolution is queued |
| AlertRuns.Refines | internal/alerts/alerts.go:472-572 | A run of apply, single sends and acknowledgements in any order leaves what the run that sends at once leaves, with its queue sent |
| AlertRuns.LiveTablesMirror | internal/alerts/alerts.go:472-572 | At every moment of such a run the tables mirror the evaluations so far |
| AlertRuns.LiveStories | internal/alerts/alerts.go:496-572 | At every moment of such a run what was announced about an alert begins its story and what is queued completes it |
| AlertRuns.OneQueued | internal/alerts/alerts.go:483-539 | At most one notification about an alert is queued at a time |
| AlertRuns.QueuedIffDue | internal/alerts/alerts.go:510-516 | The next evaluation queues an open alert whose condition holds again if and only if the rule repeats, it is not acknowledged and the interval since it was last announced is over |
| AlertRuns.AfterConfirm | internal/alerts/alerts.go:310-316 | From an acknowledgement on exactly what was queued about the alert goes out, and its resolution |
| AlertRuns.OpenedAfterConfirm | internal/alerts/alerts.go:546-572 | An acknowledged alert is announced open again if and only if such a notification was queued when the acknowledgement came, and then once |
| AlertRuns.ConfirmQuiets | internal/alerts/alerts.go:310-316 | The same from the request on: an open alert that is acknowledged |
| AlertRuns.RepeatOvertakesConfirm | internal/alerts/alerts.go:546-572 | Whenever a repeat is due, an acknowledgement between apply and notify does not stop it |
| AlertRuns.RepeatOvertakesOnce | internal/alerts/alerts.go:546-572 | An input for it: a rule that repeats every minute and a condition that holds twice |
| AlertService.Service.Reconcile | internal/alerts/alerts.go:483-518 | One condition's statements change the tables as Touch says |
| AlertService.Service.ResolveGone | internal/alerts/alerts.go:519-539 | Conditions that ended lose their pending row and resolve their alert, with one notification each |
| AlertService.Service.Apply | internal/alerts/alerts.go:472-544 | The whole pass commits the tables and queues the notifications of one Apply step |
| AlertService.Service.Send | internal/alerts/alerts.go:555-571 | One notification goes out and stamps its alert if it is of an opening: one Send step |
| AlertService.Service.Notify | internal/alerts/alerts.go:546-572 | The loop announces the whole queue in order and stamps exactly the alerts whose opening is in it |
| AlertService.Service.Check | internal/alerts/alerts.go:439-466 | An evaluation that nothing comes between leaves what the run that sends at once leaves |
| AlertService.Service.Ack | internal/alerts/alerts.go:310-316 | Flags an open alert, reports when there is none: one Confirm step |
| Retention.Choose | internal/backup/backup.go:480-485 | The first of the most specific enabled policies that cover the device, or none if there is none |
| Retention.ChosenTier | internal/backup/backup.go:449-485 | That is the first enabled policy for the device, else for its group, else for all |
| Retention.SafeStay | internal/backup/backup.go:493-507 | The newest successful and every locked successful backup stay |
| Retention.OkStaysIff | internal/backup/backup.go:500-506 | A successful backup stays if and only if it is locked, in use, the newest, no policy applies, or it is within both limits: the age in days, and fewer newer successful ones than the count |
| Retention.FailedStays | internal/backup/backup.go:494-499 | Any failed row, locked or not, stays if and only if it is young enough or in use |
| Retention.NewestRowStays | internal/backup/backup.go:493-507 | The newest row stays if and only if it is successful, young enough or in use |
| Retention.LeavesAtMostKeepCount | internal/backup/backup.go:500-506 | A positive keep count bounds the unlocked successful backups that are left |
| Retention.LeavesEnough | internal/backup/backup.go:500-506 | Without an age limit the newest keep-count successful backups all stay |
| Retention.LeavesNothingOld | internal/backup/backup.go:500-506 | With an age limit no unlocked successful backup past it stays but the newest |
| Retention.AgainRemovesNothing | internal/backup/backup.go:486-508 | Over one fetched list a second pass at the same instant removes nothing; with more rows than one fetch the second one also reaches rows the first did not see |
| Retention.Store.Remove | internal/backup/backup.go:281-297 | Deletes exactly the listed rows that no running restore refers to |
| Retention.LateLockIsIgnored | internal/backup/backup.go:281-284 | Only the lock that was fetched counts: whatever is locked or unlocked before the deletion, a row stays if and only if it was not dropped or is in use |
| Retention.Store.Select | internal/backup/backup.go:480-507 | The policy that applies and exactly the rows its rules drop |
| Retention.Store.ApplyRetention | internal/backup/backup.go:471-509 | When no row changes meanwhile, the dropped rows go and the others remain in order |
| Schedule.DueIff | internal/backup/backup.go:365-380 | Exactly when a pass runs a policy, in terms of the slots since its last run, or since its creation if it never ran |
| Schedule.NothingMissedWithinADay | internal/backup/backup.go:374-378 | While the last run is less than a day back a pass runs the policy if and only if a slot has passed |
| Schedule.MissedRunCanBeSkipped | internal/backup/backup.go:375-378 | A schedule and a downtime after which the missed run does not happen |
| Schedule.NoSlotTwice | internal/backup/backup.go:365-380 | Every run has its own slot of the schedule it was listed with, after the previous run and not after itself, whatever the clock and the edits, also between listing and run |
| Schedule.FirstSlot | internal/backup/backup.go:366-371 | The first run is for a slot after the last one before, or after the creation of a policy that never ran |
| Schedule.PassRunsIfDue | internal/backup/backup.go:512-521 | A pass over a policy runs it and records the time if it is due, and changes nothing otherwise |
| Schedule.OneCatchUp | internal/backup/backup.go:374-378 | At most one run is for the slots of a time without passes |
| Schedule.Scheduler.RunDue | internal/backup/backup.go:512-550 | Runs exactly the policies that are due as listed, whatever was saved since, and records the time for these only |
| Sms.StepKeeps | internal/otp/otp.go:429-440 | Every step of any number of senders keeps the bound over all closed ten minutes |
| Sms.LetThroughIff | internal/otp/otp.go:429-437 | A sender is let through if and only if fewer messages than the limit were sent in the last ten minutes |
| Sms.InFlightIs | internal/otp/otp.go:429-440 | In flight are exactly those let through that have neither sent nor failed |
| Sms.AtMost | internal/smtpgw/smtpgw.go:264-274 | Over any run with at most k senders in flight no closed ten minutes hold more than MaxSends + k - 1 limited messages |
| Sms.AtMostMaxSends | internal/sms/sms.go:246-251 | With look and send as one step the limit is never exceeded |
| Sms.AtMostIsReached | internal/otp/otp.go:429-440 | For every limit and k some run sends MaxSends + k - 1 |
| Challenges.MapMirrors | internal/otp/otp.go:442-485 | The map agrees with the history of guesses: a state in it has its last challenge unsolved with the attempts counted and some left; one not in it was never opened, is solved, used up or expired |
| Challenges.AnswerIff | internal/otp/otp.go:461-485 | A guess is accepted if and only if it is the code of the last challenge opened for its state, in time, not answered before and guessed wrongly fewer times than permitted |
| Challenges.EndedForGood | internal/otp/otp.go:469-485 | After the right code or the last attempt no guess for the challenge is answered again |
| Challenges.Service.Add | internal/otp/otp.go:442-451 | Prunes exactly the expired challenges and adds the new one |
| Challenges.Service.Verify | internal/otp/otp.go:461-485 | The locked region answers and changes the map as the history functions say |

## Left out

- Failing database statements, except loading the targets: a statement that fails inside `runTarget` or at the end of `execute` leaves rows the model does not have.
- Deleting devices or changes, and their rows with them; a scheduler pass reads a change's remaining devices.
- ChangeService.Service.Create: trimming the title, defaults of empty fields, the text of the problems and the previews themselves; a runner's verdict on a device is an input. Validation of windows beyond the bounds used (sorting weekdays, parsing HH:MM) and of policies.
- The caps of `List` (200 changes, 1000 backups for listing): the fetched list is the input of the scheduler pass; retention models its own fetch of 1000. The order of change ids is the order of the list.
- ChangeService.Service.Tick: runs undisturbed and starts changes without running them; its interleaving with requests, executions and cancels is in Engine and SchedulerRuns, where each lock, UPDATE and release is a step and whether a listed change is due is an input; WholePass is the same condition there.
- EngineRuns.StoredVerdict: says of failed and cancelled changes only that every target is decided; recovery fails a change whatever its targets did, and a cancel may come after any of them.
- Time zones, daylight saving and month lengths: days are uniform.
- Version comparison and `upgrade_from` come from a library that is not part of this model: a total preorder and any relation. That the newest images are chosen is stated for repositories whose versions tie only when equal.
- Firmware installation (`Run`, `waitFor`), device drivers, backups before a change, output limits.
- ConfigText.Diff: Mask is any function of a line; white space outside Latin-1 is not trimmed.
- Fingerprints are compared as normal forms: SHA-256 is not modelled.
- Alerts: the conditions a rule finds are an input, with distinct subjects; sending to channels, failures to load them, a crash between apply and notify (the queue is lost), and several rules or devices at once are not modelled. A fixed rule is assumed within a run.
- Retention.Store.ApplyRetention: takes fetch and deletions as one step; what a lock in between does is LateLockIsIgnored, new rows in between are not modelled.
- Schedule.Scheduler.RunDue: its loop runs undisturbed; saves between listing and run are steps of the runs in Schedule.
- Cron parsing: a schedule is any function that gives the least later slot; an expression without slots is not modelled. Files of deleted backups, and the device runs a policy starts.
- Sms: message rows carry one clock that does not go back; messages whose row could not be stored are not counted. Unlimited test messages are counted by the senders but not bounded.
- Challenges: codes stand for their hashes and states are any strings; the user's lock and failure counter, which are read and written without a transaction, are not modelled.
- The web interface, HTTP handlers, permissions, licenses, package synchronisation and monitoring: plumbing and checks without state of their own.
