# ExecQueue: a verified model of the queue protocol

ExecQueue lets several orchestrator workers prepare backlog tasks and several runners execute them, all over two
shared tables. This project models that protocol in Dafny and proves what it keeps and where it stops short.

How the files fit together:

| files | content |
|---|---|
| `Prelude`, `Rendering`, `Tables` | shared facts, number rendering, the rows, the indexes and the database session |
| `Classification`, `BatchPlanning`, `PlannerTheorems` | classifier and batch planner as loops over dictionaries, and what a plan guarantees |
| `Discovery`, `Locking`, `GitNames`, `Preparation`, `Orchestrator`, `Drain` | the preparation cycle, step by step and composed, and its progress |
| `QueuedRecovery` | stale locks go back to the backlog |
| `Claim`, `Polling`, `Dispatch` | the runner's side: claim, poll, dispatch, event numbers |
| `Retry`, `Backoff`, `Stale`, `ExecutionRecovery`, `RecoveryTheorems`, `RecoveryRaces`, `RecoverySchedules` | retry decisions, delays, staleness, the sweep and its convergence, and recovery with its read and write apart |
| `Sse`, `SseTheorems` | the deduplicating event stream |
| `Protocol`, `ProtocolTasks`, `ProtocolExecutions`, `ProtocolCycle`, `ProtocolRecovery` | everything together as one transition system, and statements about all its runs |
| `ProtocolGaps`, `ProtocolWitnesses`, `ProtocolDispatch` | where the protocol stops short: the exact conditions, the runs that show it, and dispatch with its read and write apart |

Each operation that the source performs by changing rows is a method on a `Session` (committed tables plus the
session's own writes) or on the stream handler. Its contract gives the whole new state through a function on rows
or tables. The transition system uses the same functions, so the methods and the runs speak about one meaning.

**Granularity.** One committed transaction is one step, except that a poll, which commits its claims together, and a
sweep are split into claims and picks (`ProtocolCycle.PollIsARun`, `ProtocolCycle.SweepIsARun`). A worker's cycle is a
lock step followed by one step per task it goes on to prepare (`ProtocolCycle.CycleIsARun`). A claim is an earlier check,
and later a compare-and-set with the insert. Any interleaving of any number of workers, runners, dispatches, recoveries
and sweeps is a sequence of labels; a label that is not enabled changes nothing, so statements about all sequences are
statements about all runs. The labels allow more than the code does: a pick may concern any execution, and the times of
labels are free. That only strengthens statements about all runs. The runs of `ProtocolWitnesses` use none of this
freedom: every step is enabled, time goes forward, and every pick is selected by the stale query. Dispatch is one step
in `Protocol` and two in `ProtocolDispatch`; an error or pick is one step in `Protocol` and two in `RecoveryRaces`.

**Functions and fields.** The contracts speak through functions on rows. What each of these computes is said once more on
the plain fields, by lemmas whose statements do not use it: the exits of a preparation (with
`Preparation.LostReleaseExit`), the recovered row and its reason (`QueuedRecovery.ReasonByFields`), the default writer
(`Classification.WritesIff`), phase texts, policies, limits, error texts and events (`RecoverySchedules.PhaseTexts`,
`PolicyOfPhase`, `DefaultNumbers`, `DefaultLimits`, `ErrorTexts`, `RecoveryEventByFields`), event kinds
(`SseTheorems.EventKinds`), the characters of a name (`GitNames.ShortestNames`), the keys behind the label
(`PlannerTheorems.KeyedMembers`), and when a worker turns to a new plan (`ProtocolGaps.TriesOnlyWhenDone`). The rows below
list the others.

**Assumptions.** New execution ids are fresh, and some caller commits what the poll loop claims:
`execqueue/models/task_execution.py:103` gives the id no default and `execqueue/runner/main.py:91-103` never commits.
Time, random draws, the git commit found, the delivery result and the class of an error are parameters.

## What the proofs show about the code

- The claim's check does not protect by itself. There is a run in which a task with an active execution is PREPARED
  again while a second runner still holds a passed check; only the partial unique index stops its insert
  (`ProtocolWitnesses.CheckIsNotEnough`). The check is enough exactly when no claim won since then still has an active
  execution (`ProtocolGaps.CheckSufficesIff`). With the index, one active execution per task holds in every run.
- A claim of a PREPARED row without lock time leaves its task QUEUED without one, and then nothing can move it again.
  Two ways lead there: a worker slower than the stale timeout prepares a task that recovery has taken back
  (`ProtocolWitnesses.SlowWorkerStrands`), and a worker that lost its race prepares a task it never locked
  (`ProtocolWitnesses.LoserStrands`). A QUEUED task can move exactly when it has a lock time or is in a worker's queue
  (`ProtocolGaps.MovesIffNotStranded`). Of that, a runner sees the lock time at its claim, but not the workers' queues
  (`ProtocolGaps.ClaimStrandsIff`).
- `release_lock` never looks at `locked_by`: a slow worker, or one that lost its race, can release the lock of the worker
  that holds the task (`ProtocolWitnesses.ForeignRelease`, `ProtocolWitnesses.LoserReleases`). Exactly when a release is
  the owner's is `ProtocolGaps.PreparesOwnIff`.
- After a lock that lost a race, `locked_task_ids` holds the ids that are still free, not ones this worker holds, and
  the cycle prepares them (`Orchestrator.LostRacePreparesUnheld`, with the exact condition in
  `Orchestrator.PreparesOnlyItsOwnIff`). Ownership is stated for `success=True` only.
- When the database fails inside `release_lock`, its rollback also undoes the attempt counter and the error message;
  the task stays locked until stale recovery (`Preparation.FailuresAreCounted`, `Preparation.TransientFailureReturnsIff`).
- The writes of PREPARED and FAILED do not look at the status they replace; the transition system has them that way.
- `dispatch_prompt` reads QUEUED and later writes without looking again. Two dispatchers that both read first dispatch an
  execution twice (`ProtocolDispatch.DispatchedTwice`), and a write that comes after the execution has failed leaves it
  IN_PROGRESS with a finish time (`ProtocolDispatch.FinishedButInProgress`). An execution past QUEUED is dispatched
  again, and a finished one comes back to life, exactly when someone has read it as QUEUED and not written yet
  (`ProtocolDispatch.AgainIffReader`, `ProtocolDispatch.RevivesIffReader`). The index on active executions holds even
  then.
- Recovery reads `attempt` and writes back one more. Two actors that read the same attempt count one retry for two; the
  budget rests on reads that are not out of date (`RecoveryRaces.FreshRacesKeepBudget`,
  `RecoveryRaces.RetriedAgainIff`).
- The planner passes over all write tasks without conflict key but the first: they are neither included nor excluded
  (`PlannerTheorems.PartitionsIffOneKeyless`). The classifier gives every write task a key, so this needs another
  caller.
- `_validate_ref_name` accepts a name that ends in one newline, because `$` in the pattern does, and its test for `..`
  never decides anything (`GitNames.WhatValidationAccepts`).
- The comment on the discovery order lists a priority; the query orders by execution order, creation time and number.
- The comment on the backoff promises jitter of 0 to 10 percent; the code draws from plus or minus 10 percent. So the
  order of two delays can turn a little before the cap is reached (`Backoff.DelaysIncreaseIff`).
- The stale query ignores phase overrides; it misses rows that the predicate calls stale as soon as one override is
  shorter than the limit it replaces (`Stale.QueryKeepsUpIff`).
- An execution whose `phase` text names no runner phase makes the stale handler raise; each sweep selects it again
  (`RecoveryTheorems.UnreadablePhaseNeverSettles`). Nothing in the repository writes `phase`, and it is empty in every
  reachable state (`ProtocolExecutions.ExecutionsStayGood`), so such a text must come from outside the modelled steps.
  For the same reason the branch for `"adopting_commit"` at `execqueue/runner/recovery.py:244` cannot be reached.
- `execqueue/runner/recovery.py:354` uses `RecoveryAction.RETRY_EXHAUSTED`, which
  `execqueue/runner/error_classification.py:558-565` does not define. As written, building that map raises on every
  application of a decision; the sweep catches the exception at line 330, counts nothing and commits nothing. The model
  of `_apply_recovery_decision`, of the sweep, and every statement about recovery in runs describe the code without
  that one entry.
- A stream is deduplicated to its first occurrences exactly when every repeated id comes back within its block of 101
  different ids (`SseTheorems.ExactIffRepeatsStayInBlock`). The 101st different id empties the window together with
  itself: the same event, sent again at once, gets through a second time (`SseTheorems.OneIdTooMany`).

## Model

| member | source | states |
|---|---|---|
| `ProtocolExecutions.OneActiveAlways` | execqueue/models/task_execution.py:95-100 | in every reachable state of any interleaving each task has at most one active execution |
| `ProtocolExecutions.ExecutionsStayGood` | execqueue/runner/claim.py:141-167 | with dispatch as one step, in every reachable state an execution's log is numbered exactly 1..n and starts with the claim, it is finished iff its status is final, a retry time is set iff it was retried, its attempt is within budget |
| `ProtocolDispatch.EveryRaceKeepsRows` | execqueue/runner/dispatch.py:177-208 | with dispatch's read and write apart, in every reachable state the log is still numbered 1..n and starts with the claim, a final row has a finish time, both ids are set iff there is a dispatched event, and IN_PROGRESS implies one |
| `ProtocolExecutions.InProgressMeansDelivered` | execqueue/runner/dispatch.py:177-208 | with dispatch as one step, an execution IN_PROGRESS has its session id, message id and dispatch time stored and exactly one dispatched event |
| `ProtocolExecutions.StatusOnlyAdvances` | execqueue/runner/recovery.py:376-382 | with dispatch as one step, between any two points of a run the status never goes back, final statuses stay final, and no step returns an execution to QUEUED |
| `ProtocolExecutions.DispatchedAtMostOnce` | execqueue/runner/dispatch.py:113-122 | with dispatch as one step, each execution enters DISPATCHING at most once, and not at all while it is QUEUED |
| `ProtocolDispatch.SerialRacesAreRuns` | execqueue/runner/dispatch.py:103-208 | with dispatch's read and write apart: if every write finds its row still QUEUED, the interleaving is a run with atomic dispatch, to which all statements about runs apply |
| `ProtocolDispatch.AgainIffReader` | execqueue/runner/dispatch.py:113-122 | an execution past QUEUED, finished or not, can be dispatched again in some interleaving iff a dispatcher has read it as QUEUED and not written yet |
| `ProtocolDispatch.RevivesIffReader` | execqueue/runner/dispatch.py:177-184 | a finished execution becomes active again in some interleaving iff such a write is pending |
| `ProtocolDispatch.MovesBackIffReader` | execqueue/runner/dispatch.py:119-122 | the status can move back in some interleaving iff it is past DISPATCHING and such a write is pending |
| `ProtocolDispatch.WriteMovesBackIff` | execqueue/runner/dispatch.py:177-184 | dispatch's write moves a row back iff the row is past IN_PROGRESS, or IN_PROGRESS and the delivery is refused |
| `ProtocolDispatch.FinishedButInProgress` | execqueue/runner/dispatch.py:177-184 | any QUEUED execution: read by a dispatcher, failed by a permanent error, then written IN_PROGRESS with its finish time set |
| `ProtocolDispatch.DispatchedTwice` | execqueue/runner/dispatch.py:119-208 | any QUEUED execution that two dispatchers read before either writes is dispatched twice, each write building on the other's row |
| `ProtocolDispatch.OneActiveInEveryRace` | execqueue/models/task_execution.py:95-100 | one active execution per task holds in every such interleaving as well |
| `ProtocolExecutions.AtMostTwoRetries` | execqueue/runner/claim.py:145-147 | with each error or pick as one step, in no run is an execution scheduled for retry more than twice; its attempt number counts the retries |
| `ProtocolTasks.RunKeepsTable` | execqueue/orchestrator/locking.py:272-283 | in every reachable state task numbers are unique, a BACKLOG row has no owner and no lock time, and branch and worktree are those generated for the row |
| `ProtocolTasks.TasksAreIsolated` | execqueue/orchestrator/git_context.py:163-181 | in every reachable state no two tasks share a branch or a worktree |
| `ProtocolTasks.LocksAreExclusive` | execqueue/orchestrator/locking.py:83-155 | between two successful locks of one task, by whichever workers, lies a release or stale recovery of that task |
| `ProtocolGaps.PreparesOwnIff` | execqueue/orchestrator/locking.py:272-283 | in every run a worker owns the task it is about to prepare, so that its release drops its own lock, iff its latest attempt to lock was a won one that took the task and nothing has unlocked it since |
| `ProtocolGaps.OwnerIffNotUnlocked` | execqueue/orchestrator/locking.py:272-283 | after a worker's lock of a task, and until it locks again, the row is that worker's iff nothing has released or recovered it |
| `ProtocolGaps.LoserOwnsNothing` | execqueue/orchestrator/locking.py:105-136 | after a lost race, and until it locks again, a worker owns none of the tasks it goes on with |
| `ProtocolWitnesses.ForeignRelease` | execqueue/orchestrator/locking.py:272-283 | a run in which a slow worker's failing preparation releases the lock of the worker that holds the task |
| `ProtocolWitnesses.LoserReleases` | execqueue/orchestrator/locking.py:105-136 | a run, all at one moment, in which a worker that lost its race releases a third worker's lock |
| `ProtocolTasks.TokensAreConserved` | execqueue/runner/claim.py:95-102 | in every run, claims of a task plus one if it is PREPARED now never exceed the PREPARED commits on it |
| `ProtocolTasks.OneExecutionPerPreparation` | execqueue/orchestrator/main.py:258-263 | in every run a task has exactly as many executions as successful claims, and never more than it had PREPARED commits |
| `ProtocolCycle.CycleIsARun` | execqueue/orchestrator/main.py:99-187 | a whole cycle, whether it wins or loses the race for its plan, equals a lock step followed by the preparation steps of the transition system |
| `ProtocolCycle.PollIsARun` | execqueue/runner/polling.py:57-71 | the claims of a poll, committed together, leave what checking and claiming one task after the other leaves |
| `ProtocolCycle.SweepIsARun` | execqueue/runner/recovery.py:322-326 | a sweep over the selected executions in any order is one stale pick after the other |
| `ProtocolGaps.ClaimsAreChecked` | execqueue/runner/claim.py:72-100 | in every run a claim is won only by a runner that checked that task before, at a moment when it had no active execution |
| `ProtocolGaps.CheckSufficesIff` | execqueue/runner/claim.py:72-151 | a claim whose check has passed keeps the index by itself iff no claim of the task won since the check still has an active execution |
| `ProtocolGaps.ActiveIffClaimedSince` | execqueue/runner/claim.py:72-79 | a run from a state without an active execution of a task ends in one with one iff it contains a claim of the task whose execution is still active |
| `ProtocolWitnesses.CheckIsNotEnough` | execqueue/runner/claim.py:72-151 | a run, in forward time and with every step enabled, after which a passed check meets a PREPARED task with an active execution |
| `ProtocolGaps.MovesIffNotStranded` | execqueue/orchestrator/recovery.py:120-135 | some run changes the row of a QUEUED task iff it has a lock time or is in some worker's queue |
| `ProtocolGaps.ClaimStrandsIff` | execqueue/runner/claim.py:95-100 | a claim strands its task iff the PREPARED row has no lock time and the task is in no worker's queue |
| `ProtocolWitnesses.SlowWorkerStrands` | execqueue/orchestrator/main.py:258-263 | a run in forward time, its picks selected by the default stale query, that ends with a stranded task and no active execution |
| `ProtocolWitnesses.LoserStrands` | execqueue/orchestrator/locking.py:105-136 | a run, all at one moment, in which a worker that lost its race prepares a task without lock time and the next claim strands it |
| `Drain.BacklogDrains` | execqueue/orchestrator/main.py:115-176 | without rivals and with preparations succeeding, n eligible tasks are gone after n cycles of batch size at least 1 |
| `Drain.EachTaskOnce` | execqueue/orchestrator/main.py:169-176 | over any number of cycles each prepared task appears once in the log, ends PREPARED, and every other row is untouched |
| `Drain.SameKeyKeepsOrder` | execqueue/orchestrator/classification.py:259-270 | of two eligible write tasks with one conflict key the later in discovery order is prepared only in a cycle after the earlier one's |
| `Drain.FirstIsPlanned` | execqueue/orchestrator/classification.py:208-270 | with an eligible task and a batch size of at least 1 the plan is not empty |
| `Drain.EarlierBlocksLater` | execqueue/orchestrator/classification.py:268-270 | while an earlier task with the same key is eligible a later one is not planned, whatever the limit |
| `Orchestrator.RunPreparationCycle` | execqueue/orchestrator/main.py:99-187 | the table and the results after discovery on one state and lock and preparation on a possibly changed one: lock won, lock lost, or database failure |
| `Orchestrator.UndisturbedCycle` | execqueue/orchestrator/locking.py:83-155 | without rivals the lock succeeds: the table after the cycle is the locked plan, prepared in turn |
| `Orchestrator.UndisturbedResults` | execqueue/orchestrator/main.py:115-187 | without rivals a cycle reports one result per planned task, in order, with the outcome that task would have on its own |
| `Orchestrator.LostRacePreparesUnheld` | execqueue/orchestrator/locking.py:105-136 | after a lost race the lost task is untouched and every other planned task is prepared without becoming this worker's |
| `Orchestrator.PreparesOnlyItsOwnIff` | execqueue/orchestrator/main.py:145-176 | all tasks that a cycle prepares are locked by its worker iff, at its lock, the whole plan is still in the backlog or none of it is |
| `Orchestrator.PlanIsLockable` | execqueue/orchestrator/main.py:144-145 | the plan made from a table consists of distinct backlog rows of it, so the lock on an unchanged table succeeds |
| `Orchestrator.CandidatesAreAccountedFor` | execqueue/orchestrator/main.py:89-142 | in a cycle planned and excluded ids partition the candidates, every exclusion is a key block, and reasons are kept for exactly the excluded ids |
| `Orchestrator.BatchEffect` | execqueue/orchestrator/main.py:169-176 | the preparation loop changes each listed row once, from the row it had at the start, and no other row |
| `Classification.Classify` | execqueue/orchestrator/classification.py:54-143 | a task writes iff its details say so or, without a setting, it is an execution task or of unknown type; mode, parallelization and key from the fields |
| `Classification.ConflictMeansSameBranch` | execqueue/orchestrator/classification.py:114-133 | write tasks with different numbers share a conflict key iff they name the same non-empty branch |
| `BatchPlanning.GroupByKey` | execqueue/orchestrator/classification.py:218-224 | the dictionary has the first occurrences' keys in order, and each key's tasks in input order |
| `BatchPlanning.CreateBatchPlan` | execqueue/orchestrator/classification.py:194-292 | the plan is take(max, reads) then take(max, first write of each key); isolated iff there are writes, not exactly one id is included, and no key repeats |
| `PlannerTheorems.VerdictsAreExact` | execqueue/orchestrator/classification.py:226-270 | for distinct ids: a task is included iff the one-pass planner schedules it, excluded with a reason iff it rejects it with that reason, in neither list iff it passes it over |
| `PlannerTheorems.VerdictsMean` | execqueue/orchestrator/classification.py:226-270 | each verdict and reason of the one-pass planner in terms of the tasks before and after: earlier or later write tasks with the key, and room below the cap |
| `PlannerTheorems.PlannerFollowsVerdicts` | execqueue/orchestrator/classification.py:226-270 | even with repeated ids, a scheduled task is included and a rejected one is excluded with the very reason |
| `PlannerTheorems.GroupingPermutes` | execqueue/orchestrator/classification.py:218-224 | flattening the conflict groups gives a permutation of the write tasks |
| `PlannerTheorems.Conservation` | execqueue/orchestrator/classification.py:226-270 | included, excluded and passed-over ids are together the input ids, as multisets |
| `PlannerTheorems.PlanPartitions` | execqueue/orchestrator/classification.py:114-133 | when tasks have keys iff they write, included and excluded ids partition the input |
| `PlannerTheorems.PartitionsIffOneKeyless` | execqueue/orchestrator/classification.py:242-250 | for every cap and input, included and excluded ids are together the input ids iff at most one write task has no conflict key |
| `PlannerTheorems.LaterOfKeyNotIncluded` | execqueue/orchestrator/classification.py:268-270 | of two write tasks with one key the later is never included |
| `PlannerTheorems.CapNeverExcludes` | execqueue/orchestrator/main.py:89-91 | with at most max tasks, as in a cycle, every exclusion is a block by a conflict key |
| `PlannerTheorems.PlannerIsOptimal` | execqueue/orchestrator/classification.py:239-270 | no key-distinct set of write tasks within the cap is larger than the included write set, which is key-distinct itself |
| `PlannerTheorems.LabelIsExact` | execqueue/orchestrator/classification.py:272-283 | a plan for keyed writes with max >= 1 is labelled isolated iff something is written, more than one id is included and all write keys differ, sequential iff something is written and one of these fails; an isolated plan leaves no write task to a key block |
| `Discovery.CandidatesAreTheFirstEligible` | execqueue/orchestrator/candidate_discovery.py:52-110 | the candidates are distinct, eligible, ordered, before every eligible task left out, and min(limit, eligible) many |
| `Discovery.CandidateIff` | execqueue/orchestrator/candidate_discovery.py:67-71 | with room for all, the candidates are the backlog tasks of the planning, execution and analysis types |
| `Discovery.EarlierComesFirst` | execqueue/orchestrator/candidate_discovery.py:92-96 | of two eligible tasks the one with the smaller order, or the only one with an order, or else the older, or else the one with the smaller number is a candidate first |
| `Discovery.SortedIsUnique` | execqueue/orchestrator/candidate_discovery.py:92-96 | the ordering clause leaves exactly one possible result for a set of tasks |
| `Locking.LockTasks` | execqueue/orchestrator/locking.py:56-168 | succeeds iff all ids are distinct backlog rows; then every one is QUEUED and this worker's, otherwise nothing changes, and the two id lists are exactly described |
| `Locking.RowCountDecides` | execqueue/orchestrator/locking.py:100-105 | the affected row count equals the number of ids iff the ids are distinct and all in the backlog |
| `Orchestrator.LostRaceResults` | execqueue/orchestrator/main.py:147-176 | after a lost race the results are a conflict per taken task, then the outcome of each free one, both in the order of the plan |
| `Locking.LockSingleTask` | execqueue/orchestrator/locking.py:170-254 | succeeds iff the row is in the backlog; then that row alone changes |
| `Locking.ReleaseLock` | execqueue/orchestrator/locking.py:256-298 | only a QUEUED row is released, to the target status without owner and lock time; no other row changes |
| `GitNames.WhatValidationAccepts` | execqueue/orchestrator/git_context.py:129-146 | exactly the names accepted; one trailing newline is allowed and the dot-dot test decides nothing |
| `GitNames.FallbackOnlyForHugeNumbers` | execqueue/orchestrator/git_context.py:163-181 | a generated branch name passes validation iff the number has at most 231 digits |
| `GitNames.NamesIsolate` | execqueue/orchestrator/git_context.py:301-303 | equal branch names imply equal task numbers, fallback or not; worktree names are equal iff number and id prefix are |
| `Rendering.DecimalInjective` | execqueue/orchestrator/git_context.py:173-174 | different numbers have different decimal texts |
| `Rendering.DecimalReadsBack` | execqueue/orchestrator/git_context.py:173-174 | the decimal text of a number reads back as that number |
| `Rendering.HexReadsBack` | execqueue/orchestrator/git_context.py:173-174 | the hexadecimal digits of an id read back as the id when there is room for it |
| `GitNames.NameTexts` | execqueue/orchestrator/git_context.py:173-181 | the branch and worktree texts themselves, with number and id prefix, and the fallback without the prefix |
| `Preparation.PrepareTaskContext` | execqueue/orchestrator/main.py:189-331 | the assignments, releases and commits of each exit leave the row that the row function gives, with its result; the following rows say what that is on the fields |
| `Preparation.GitFailureExit` | execqueue/orchestrator/main.py:280-313 | a queued write task under a git conflict or recoverable error is back in the backlog, unlocked, with the message, and reported with that class; under a non-recoverable one it is FAILED |
| `Preparation.ReadOnlyExit` | execqueue/orchestrator/main.py:222-263 | a read-only task is prepared as soon as its context is valid, whatever git does, and otherwise failed with its text |
| `Preparation.WriteExit` | execqueue/orchestrator/main.py:222-263 | a write task with a commit and a valid context is prepared with that commit and its own branch and worktree, and otherwise failed with its text |
| `Preparation.CrashExit` | execqueue/orchestrator/main.py:315-331 | an unexpected error is counted with its message and leaves status and lock alone |
| `Preparation.FailuresAreCounted` | execqueue/orchestrator/main.py:280-313 | the counter rises and the message is kept iff the preparation fails and its release is not rolled back; a prepared write task has branch, worktree and a non-empty commit |
| `QueuedRecovery.RunRecoveryCycle` | execqueue/orchestrator/recovery.py:192-247 | every stale row is recovered and reported once, in one transaction; no other row changes |
| `QueuedRecovery.RecoverTask` | execqueue/orchestrator/recovery.py:137-190 | status and reason for each of the four cases: budget spent, non-recoverable error, conflict, recoverable or no error |
| `QueuedRecovery.RecoveredByFields` | execqueue/orchestrator/recovery.py:120-228 | the whole row after a cycle from the fields before: untouched, FAILED, or BACKLOG with counter and error cleared, at the exact age, worker and attempt limits |
| `QueuedRecovery.RecoveryCycleSettles` | execqueue/orchestrator/recovery.py:208-240 | afterwards no matching stale row remains; FAILED iff given up, otherwise BACKLOG with lock, counter and error cleared; other rows untouched |
| `QueuedRecovery.RecoveryIsIdempotent` | execqueue/orchestrator/recovery.py:120-135 | a second cycle at the same or an earlier cutoff changes nothing |
| `QueuedRecovery.WhoCanBeRecovered` | execqueue/orchestrator/recovery.py:124-129 | some recovery can pick a row up iff it is QUEUED with a lock time |
| `Claim.ClaimTask` | execqueue/runner/claim.py:72-182 | succeeds iff the task is PREPARED without active execution and no rival's row violates the index; each error exactly when; the whole new state |
| `Claim.ClaimKeepsIndex` | execqueue/models/task_execution.py:95-100 | a claim keeps the index, makes its task active and changes no other task's activity |
| `Polling.PollAndClaim` | execqueue/runner/polling.py:24-79 | only PREPARED tasks, as many as the batch allows, and all of them when it is not filled; all claims commit together, or an index violation undoes every one |
| `Polling.ClaimsAreIndependent` | execqueue/runner/polling.py:57-71 | claims of different tasks in one poll do not disturb each other, and the index survives the batch |
| `Dispatch.DispatchPrompt` | execqueue/runner/dispatch.py:103-279 | IN_PROGRESS with both ids iff a QUEUED execution was delivered; a refusal leaves DISPATCHING with an error event; otherwise nothing changes |
| `RecoverySchedules.DispatchByFields` | execqueue/runner/dispatch.py:177-268 | every field that a delivered and a refused dispatch writes, and those they leave |
| `Dispatch.MaxSequenceIsLargest` | execqueue/runner/dispatch.py:282-298 | no event of the execution has a larger number, and some event has it unless it is zero |
| `Dispatch.AllocatorsAgree` | execqueue/runner/dispatch.py:282-298 | in a log numbered 1..n the maximum, the last number and the length agree, and appending max + 1 keeps it so |
| `Retry.CalculateRetry` | execqueue/runner/error_classification.py:290-356 | a retry iff the error is retryable and the attempt below the limit; exhausted iff not; the retry time is the delay from now |
| `Backoff.DelayWithinTenth` | execqueue/runner/error_classification.py:335-348 | for every draw the delay is within a tenth of min(base * 2^(attempt-1), cap) |
| `Backoff.DelaysIncreaseIff` | execqueue/runner/error_classification.py:335-348 | the next delay is longer for every pair of draws iff 11 * base * 2^(attempt-1) is at most 9 * cap |
| `Backoff.DelaysIncrease` | execqueue/runner/error_classification.py:335-348 | in particular while base * 2^attempt has not passed the cap |
| `Backoff.TotalWaitIsBounded` | execqueue/runner/error_classification.py:335-350 | n retries from the first attempt wait at most 1.1 times both base * (2^n - 1) and n * cap |
| `Backoff.DefaultsAreDoubling` | execqueue/runner/error_classification.py:109-156 | every default policy doubles with a tenth of jitter, so these bounds apply to it |
| `Stale.FindStaleExecutions` | execqueue/runner/error_classification.py:453-520 | the disjunction of the three conditions returns exactly the rows past a limit, each once |
| `RecoverySchedules.SelectedIff` | execqueue/runner/error_classification.py:473-511 | the stale query returns exactly the rows that are neither prepared, done, failed nor in review and are past one of the three limits |
| `ProtocolRecovery.NoActiveExecutionEscapes` | execqueue/runner/error_classification.py:473-511 | in every reachable state, every execution that is not done, failed or in review is selected once it is past the update limit or the maximal duration, and no other ever is |
| `Stale.StaleByFields` | execqueue/runner/error_classification.py:413-450 | the predicate from the row's times and the limits of its phase |
| `Stale.PredicateVersusQuery` | execqueue/runner/error_classification.py:413-450 | without overrides the query selects a started row iff the predicate calls it stale or one of its ages is exactly at its limit |
| `Stale.QueryKeepsUpIff` | execqueue/runner/error_classification.py:413-450 | the query selects every started row that the predicate calls stale, at all times, iff every phase override is at least as long as the heartbeat limit and the maximal duration |
| `Stale.UnstartedRows` | execqueue/runner/error_classification.py:404-411 | it keeps up with an unstarted row iff that row was not written after its creation or its heartbeat expires before the limit for starting |
| `Stale.NoEndlessExecution` | execqueue/runner/error_classification.py:503-511 | past the maximal duration a row is selected whatever its heartbeats and updates |
| `Stale.StalenessPersists` | execqueue/runner/error_classification.py:384-450 | predicate and query are both monotone in time for a row that nobody writes to |
| `ExecutionRecovery.HandleError` | execqueue/runner/recovery.py:81-203 | the decision and the row; never OBSERVE, and REVIEW iff the error is a conflict |
| `ExecutionRecovery.HandleStaleExecution` | execqueue/runner/recovery.py:205-306 | a retry within budget, otherwise FAILED; an unreadable phase fails before any write |
| `ExecutionRecovery.ApplyRecoveryDecision` | execqueue/runner/recovery.py:338-389 | event, status, finish time and retry time of one applied decision, committed; other rows unchanged |
| `RecoverySchedules.StalePickByFields` | execqueue/runner/recovery.py:262-306 | a stale pick within the budget counts the attempt and stores a retry time that lies min(base * 2^(attempt-1), cap) of its phase ahead, to within a tenth; past the budget it fails the row and leaves both alone |
| `RecoverySchedules.ErrorByFields` | execqueue/runner/recovery.py:124-203 | the same for errors: only transient errors and timeouts are retried, a conflict goes to review, everything else fails; with event and finish time |
| `ProtocolRecovery.RetriesWait` | execqueue/runner/recovery.py:384-386 | in every run, each step that schedules a retry stores a time the backoff of its attempt ahead |
| `RecoverySchedules.SweptUntilFailed` | execqueue/runner/recovery.py:308-336 | swept at intervals of at least the update limit, an unfinished execution uses up its budget and the next sweep fails it |
| `RecoverySchedules.RefusedDispatchIsFailed` | execqueue/runner/dispatch.py:230-268 | an execution whose delivery was refused is failed by three such sweeps, so it does not block its task |
| `ExecutionRecovery.ProcessStaleExecutions` | execqueue/runner/recovery.py:308-336 | every selected execution is picked once, and the count is the number with a readable phase |
| `RecoveryTheorems.RetryBudget` | execqueue/runner/recovery.py:124-203 | over any sequence of errors, phases and stale picks there are at most max - attempt retries and the attempt never exceeds the maximum |
| `RecoveryRaces.FreshRacesKeepBudget` | execqueue/runner/recovery.py:171-175 | with the attempt read and written back apart, the budget holds if every actor acts on the row's current attempt |
| `RecoveryRaces.RetryCountsIff` | execqueue/runner/recovery.py:171-175 | a retry raises the attempt iff the attempt it read is not behind the row's |
| `RecoveryRaces.RetriedAgainIff` | execqueue/runner/error_classification.py:312-332 | an execution whose budget is spent is retried again in some interleaving iff an actor has read an earlier attempt and not acted yet |
| `RecoveryRaces.RetriesHaveNoBound` | execqueue/runner/recovery.py:262-285 | below its last attempt an execution can be retried any number of times by actors that read first |
| `RecoveryRaces.AttemptStaysInRange` | execqueue/runner/error_classification.py:323-332 | in every such interleaving the attempt number stays between 1 and the maximum |
| `RecoveryTheorems.PicksUntilFailed` | execqueue/runner/recovery.py:262-306 | max - attempt picks keep the execution alive, one more fails it, and no later query selects it |
| `RecoveryTheorems.SweepsConverge` | execqueue/runner/recovery.py:308-336 | any number of sweeps at any times make at most the sum of (max + 1 - attempt) over active executions of picks |
| `RecoveryTheorems.UnreadablePhaseNeverSettles` | execqueue/runner/recovery.py:330-334 | with any other phase text the execution stays selected and unchanged through all sweeps |
| `Sse.SSEEventHandler.CheckDuplicate` | execqueue/runner/sse_handler.py:138-162 | the answer and the new window of one duplicate check, with the window within its limit |
| `Sse.SSEEventHandler.StreamEvents` | execqueue/runner/sse_handler.py:244-279 | the stream loop emits and leaves what the value-level run of the handler does |
| `Sse.SSEEventHandler.ResetSequence` | execqueue/runner/sse_handler.py:307-314 | afterwards the handler is as new: counter, window and terminal flag |
| `SseTheorems.CountingLaw` | execqueue/runner/sse_handler.py:153-160 | emitted events with id plus the initial window = 101 * clears + the window; the window never exceeds 100 |
| `SseTheorems.NumberedConsecutively` | execqueue/runner/sse_handler.py:269-271 | emitted events are numbered consecutively from the initial counter |
| `SseTheorems.TerminalIsSeen` | execqueue/runner/sse_handler.py:257-260 | the terminal flag is set iff a terminal event occurred, a suppressed one included |
| `SseTheorems.WindowHoldsEpoch` | execqueue/runner/sse_handler.py:153-160 | the window holds exactly the ids emitted since it was last emptied |
| `SseTheorems.SuppressedIffRemembered` | execqueue/runner/sse_handler.py:262-267 | an event is suppressed iff its id was emitted since the last emptying |
| `SseTheorems.DifferentIdsAreEmitted` | execqueue/runner/sse_handler.py:147-160 | at most 100 events with different non-empty "id" entries are emitted whole, in order, whatever their "message_id" |
| `SseTheorems.SameIdIsSuppressed` | execqueue/runner/sse_handler.py:147-155 | a repeated non-empty "id" is suppressed there, whatever the "message_id" |
| `SseTheorems.MessageIdDecidesWithoutId` | execqueue/runner/sse_handler.py:151-155 | without an "id" entry an event is suppressed iff its "message_id" occurred before |
| `SseTheorems.NoIdIsLetThrough` | execqueue/runner/sse_handler.py:147-154 | an event with an empty "id" is never suppressed, even when its "message_id" repeats |
| `SseTheorems.OncePerEpoch` | execqueue/runner/sse_handler.py:153-160 | between two emissions of one id the window was emptied |
| `SseTheorems.ShortStreamsAreExact` | execqueue/runner/sse_handler.py:253-278 | in particular every stream with at most 100 different ids is exact, and its window holds them all |
| `SseTheorems.ExactIffRepeatsStayInBlock` | execqueue/runner/sse_handler.py:153-160 | the output is exactly the first occurrences and the id-less events, numbered from 0, iff every repeated id comes back within its block of 101 different ids |
| `SseTheorems.WindowFollowsBlocks` | execqueue/runner/sse_handler.py:153-160 | as long as that is so, the window is exactly the ids seen in the current block |
| `SseTheorems.OneIdTooMany` | execqueue/runner/sse_handler.py:157-160 | the first id past 100 gets through twice when repeated at once |

## Left out

- SQLAlchemy sessions, engines, settings and migrations; kept are conditional update, row count, rollback, commit and the unique constraints.
- Git and GitPython work, `WriteTaskRecovery`, the result inspector and the commit adopter: they rest on git's own semantics. The commit found is a parameter.
- The OpenCode client, the timeouts around the stream, prompt texts and hashes: a dispatch is delivered or refused, a stream is the events that arrive.
- The string tables and exception types of both error classifiers: the resulting class is a parameter or a function parameter, and it would add only case splits.
- HTTP routes, command line, Telegram bot, health, logging, metrics, redaction, watchdog and process launcher.
- Task intake beyond a step that adds a BACKLOG row with a fresh id and an unused number of at least 1.
- `plan_for_single_task`, `count_pending`, `cleanup_worktree` and an explicit branch for `prepare_context`: no cycle calls them.
- Preparation.PrepareTaskContext: a failing final commit is not modelled, because what the session then holds depends on where the flush broke.
- ProtocolExecutions.DispatchedAtMostOnce: holds with dispatch as one step; with its read and write apart the exact condition is `ProtocolDispatch.AgainIffReader`.
- ProtocolExecutions.StatusOnlyAdvances: the same; the exact conditions are `ProtocolDispatch.MovesBackIffReader` and `ProtocolDispatch.RevivesIffReader`.
- ProtocolExecutions.ExecutionsStayGood: the same; what every interleaving keeps is `ProtocolDispatch.EveryRaceKeepsRows`.
- ProtocolExecutions.InProgressMeansDelivered: the same; with the read and the write apart there can be more than one dispatched event.
- ProtocolExecutions.AtMostTwoRetries: holds with each error or pick as one step; with its read and write apart see `RecoveryRaces.RetriedAgainIff`.
- ExecutionRecovery.ApplyRecoveryDecision: describes the code without the undefined map entry; as written every application raises.
- ExecutionRecovery.ProcessStaleExecutions: the same; as written the count is zero and nothing is committed.
- Polling.PollAndClaim: the commit and the rollback belong to the caller; the source's poll loop has neither.
- Protocol: apart from claims, and from dispatch and recovery in their own modules, a transaction's reads and writes are one step, so other lost updates between two open transactions on one row are not modelled.
- Sse: payload truncation and normalized fields other than number and heartbeat flag; ids are text.
- `updated_at` of tasks, reason codes, error message texts and details other than the three keys that are read.
- Wall clock and random source, which are parameters; times and delays are reals, so floating-point rounding is not modelled.
