# Verified model of the task and run lifecycle

The bridge dispatches jobs to an upstream agent runtime. A job lives in two tables: `tasks`, driven
by the task manager, and `executor_runs`, written by dispatch, by polls (from the background watcher
or from a GET), by the manager's lifecycle sync and by a sweep of stale rows. These actors interleave
at every await, so a poll may answer after its task was cancelled, timed out, sent back by the
blocking gate or requeued, and a forced reconcile may overrule the transition table.

The project models that protocol and proves what holds in every state any interleaving can reach. It
also proves the kernels around it: the completion gate with its rescues, the notification gate, the
claim protocol, the rate limiter, the id generator, the step store, the run list, the evidence merge
and the byte-bounded tail.

`dafny verify dfyconfig.toml` checks everything.

## How it is built

The project has three layers.

1. **What each operation makes of the data**, as functions of values: `Models`, `Notification`,
   `Tasks`, `Runs`, `Claims`, `Text`, `Lifecycle`. A `Task` joins a `tasks` row with its
   `task_outputs` row and carries history variables (`Audit`: every status written and why, confirmed
   deliveries, requeues, claims) that no operation reads. `Lifecycle.Machine` is the whole state:
   both tables, every row snapshot some request may still hold across an await, every job some worker
   has found, and the claims won. `Lifecycle.Step` is one atomic step, cut at the awaits of `app.py`;
   `Lifecycle.Execute` is any finite run. Poll answers, transport outcomes, the disk (one answer per
   stat call, so it may change between checks), the clock, the gate configuration and the rows a
   query returns among ties are inputs of the step.
2. **What holds over every run**: `Lives` and `CompletionGate` (one task), `TwoTables` and
   `Interleavings` (what each step keeps), `Safety`, `EndedRuns`, `Polls`, `Blocking`, `Clock`,
   `Precedence` and `FinishTimes` (the theorems). `Columns` and `Answers` say in the columns and words
   themselves what each operation and each step writes, so that no statement rests on a definition
   alone.
3. **The imperative code**: `RunStores.RunStore`, `Managers.TaskManager`, `Bridges.Bridge`,
   `Watchers.ExecutorRunWatcher` and the methods of `ClaimDesk`, with fields rewritten in place,
   loops, and `complete` and `_rescue` calling each other. Each method is proved against the
   functions of layer 1. `Bridge` keeps a ghost `history`, and its invariant says that its tables are
   those of `Execute(history)`; so the theorems of layer 2 are theorems about the objects, and a
   watcher tick, whatever runs during its awaits, is proved to be a stretch of a run.

`RateLimiter`, `Ids`, `Tail`, `Steps` and `Listing` are the small kernels; `EvidenceMerge` and
`Reaching` are proved on top of the lifecycle.

## Where the code does not do what its documentation says

Each of these is a lemma, with the exact condition where there is one; `Reaching` holds short runs
that reach the states in question.

- A second confirmed delivery is possible, but only by a requeue: at most one plus the number of
  requeues, and that many for every number of requeues (`Safety.OneDeliveryPerLife`,
  `Blocking.DeliveryBoundIsAttained`).
- A completed poll can defeat the blocking gate: whatever keeps the manager from completing the task is
  caught, and the task is forced to completed. With the gate on, the task ends completed exactly when
  the manager refuses it or its artifacts are there. It has then reached the final stage exactly when
  the completion is confirmed; or the manager refuses or is muted, and an earlier delivery stands or the
  forced verdict is notified and confirmed (`Polls.PollMeetsTheGateExactly`,
  `Reaching.BypassIsReached`).
- A failed re-check fails a task that still has rescues left, although the comment in `_rescue` takes
  the budget to be spent by then. Budget is wasted exactly when a re-check before the last affordable
  one fails, which no disk can bring about exactly when at most one rescue is left or nothing was
  declared (`CompletionGate.WastedExactly`, `CompletionGate.NeverWastedExactly`).
- The comment on the re-entry of `complete` takes the output text to be stored already; it is not.
  For a task that goes by the polled run and stored no text before, the text of a completed poll is
  shown afterwards exactly when the gate passed at its first check; otherwise it is gone from both
  tables. For every other task, what is shown is the stored text, or the polled one where lifecycle
  sync spares the row (`EvidenceMerge.PolledOutputIsShownExactly`, `Reaching.OutputIsLost`).
- `start` on a running task is refused, in spite of the "idempotent" comment. `POST /runs` swallows a
  refused start and writes a running row all the same (`Polls.RefusedStartDiverges`,
  `Reaching.DivergenceIsReached`).
- A blocked completion sets progress to 80 even if it stood at 95 (`CompletionGate.BlockedExactly`,
  `Reaching.FallFrom95IsReached`).
- A claimed job that fails and is requeued is never offered to a worker again
  (`Safety.ClaimedIsNeverFoundAgain`, `Reaching.AbandonedIsReached`).
- The id generator returns the same id for ever from the 10,000th of a day on
  (`Ids.FreshExactlyBelowTheLimit`).
- A send rate above 200 per hour is no limit at all, since the deque holds 200
  (`RateLimiter.BoundedExactly`).
- A tail bound of zero returns the whole text (`Tail.BoundedExactly`).
- In the run list the row of a run does not always win over its task: when the row fails the filters
  the task, whose status may lag or lead, takes the line (`Reaching.StandInIsReached`). A row that
  passes them always wins, since a task is older than its row (`Precedence.MatchingRowAlwaysWins`).
- The list looks at a window of the newest tasks before it filters them, so it can omit a matching task
  without being full (`Listing.TheWindowHides`, `Reaching.WindowHidesATask`).
- A submit that reports a run over starts its task under a row that no poll reads again. Barring that,
  a run that is over has ended its task (`EndedRuns.DispatchEndsExactly`, `EndedRuns.TablesAgreeBothWays`,
  `Reaching.OpenTaskIsReached`).

A forced reconcile would accept any run id. The service only passes a task its own run; for any other
the tables agree afterwards exactly when no other terminal task goes by the run written
(`TwoTables.ForceAgreesExactly`, `Reaching.BystanderIsReached`).

## Model

| member | source | states |
|---|---|---|
| Models.WhoMayEnter | dispatcher/models.py:166-210 | The transition table read backwards, for every status: completed is entered only from running or a rescue, failed, cancelled and timeout from every open status and no other, the queue only from pending, failed and timeout, waiting and the held status only from running |
| Notification.GateLeavesItsVerdict | dispatcher/manager.py:1909-2033 | A delivery is made if and only if the call is neither suppressed nor a duplicate and a transport confirms; a confirmed result is always backed by the persisted blob for that very verdict |
| Notification.ChainConfirmsExactly | dispatcher/notifier.py:799-888 | The chain confirms a delivery if and only if the gateway or the in-process sender does, the gateway first; otherwise the record is the legacy outcome without a message id |
| Columns.RecordLeft | dispatcher/manager.py:1909-2033 | The record a notification leaves, in its columns: the prior one when muted or repeated, else the verdict with the gateway's, the in-process sender's or the legacy answer |
| Columns.StageDecided | dispatcher/notification_state.py:137-222 | Each of the four stages, decided by the record, the evidence and the finish time |
| Columns.ClampedBudget | dispatcher/manager.py:351-352 | A budget from 0 to 5 is kept, one outside cut to the nearer end, none means one |
| Columns.CreatedRow | dispatcher/manager.py:357-389 | Every column of a new row |
| Columns.QueuedRow | dispatcher/manager.py:483-503 | Accepted exactly from pending, failed and timeout, silent on queued; only the status changes |
| Columns.StartedRow | dispatcher/manager.py:505-530 | Accepted exactly from pending, queued, waiting and a rescue; the status and the Hermes run id change |
| Columns.ProgressedRow | dispatcher/manager.py:532-551 | Accepted exactly for the nine values not below the current one; only progress changes |
| Columns.ClosedRow | dispatcher/manager.py:1584-1688 | Accepted exactly from the five open statuses; status, finish time and record are written, progress, text and evidence kept |
| Columns.FinishedRow | dispatcher/manager.py:898-1062 | Every column of a completion, settled and blocked |
| Columns.ForcedRow | dispatcher/manager.py:1469-1510 | Every column of a forced verdict, from any status, for completed and failed only |
| Columns.ForcedRecord | dispatcher/manager.py:1554-1575 | A forced verdict notifies unless a delivery stands or the same verdict was attempted before |
| Columns.ClaimedRow | dispatcher/db.py:1305-1334 | Accepted exactly on a queued, unowned row; status, worker and token change |
| Columns.MissingExactly | dispatcher/manager.py:777-783 | A path is missed if and only if its own stat call found nothing |
| FinishTimes.TerminalTasksAreFinished | dispatcher/manager.py:1597-1678 | In every reachable state a terminal task has a finish time |
| FinishTimes.FinishIsTheStepsReading | dispatcher/manager.py:898-1062 | In every reachable state a step that writes a terminal status stamps that step's own clock reading, the blocking revert clears it, and a step that writes no status leaves it |
| Lives.CreationIsSound | dispatcher/manager.py:341-389 | A new row, its rescue budget clamped, satisfies every per-task invariant |
| Lives.QueueIsSound | dispatcher/manager.py:483-503 | Requeueing keeps the task's invariants, history, budget and owner |
| Lives.StartIsSound | dispatcher/manager.py:505-530 | So does a start |
| Lives.ProgressIsSound | dispatcher/manager.py:532-551 | Progress stays a legal value and never falls by a report |
| Lives.CloseIsSound | dispatcher/manager.py:1584-1688 | Fail, timeout and cancel keep the delivery budget whatever the transports answer |
| Lives.FinishIsSound | dispatcher/manager.py:898-1062 | So does a completion, blocked or not |
| Lives.ForceIsSound | dispatcher/manager.py:1426-1575 | So does a forced reconcile from any status, repeated or not |
| Lives.ClaimIsSound | dispatcher/db.py:1305-1334 | A claim sets worker and token together and counts once |
| Lives.CompleteIsSound | dispatcher/manager.py:724-1067 | The whole of complete with its rescues keeps every per-task invariant |
| CompletionGate.InspectIsSound | dispatcher/manager.py:767-877 | For any disk: the gate spends at most its budget, makes a bounded number of stat calls, and lets a task pass only right after one check that saw every declared artifact |
| CompletionGate.GateIsSound | dispatcher/manager.py:590-877 | For any disk complete and rescue end: never refused from a legal status, never left in incomplete_delivery, rescues within the budget, at most (2 x rescues left + 1) stat calls per declared path, completed only behind a full check |
| CompletionGate.SteadyVerdict | dispatcher/manager.py:767-877 | On a disk that does not change, the gate passes if and only if every declared artifact is there, at no rescue; an absent one costs one rescue if there is one |
| CompletionGate.FailedRecheckWastesTheBudget | dispatcher/manager.py:674-722 | A failed re-check, in whichever round it comes, fails the task at once and leaves every later rescue unspent |
| CompletionGate.WastedExactly | dispatcher/manager.py:674-722 | For every disk, a failing gate leaves budget unspent if and only if a re-check before the last affordable one still misses something |
| CompletionGate.NeverWastedExactly | dispatcher/manager.py:697-702 | No disk can make the gate waste a rescue if and only if at most one is left or nothing was declared |
| CompletionGate.RescuesAreUsedUpExactly | dispatcher/manager.py:697-702 | The same of a running task: no world can fail it with rescues unspent if and only if at most one is left or it declared nothing |
| CompletionGate.BlockedExactly | dispatcher/manager.py:983-1062 | Past the artifacts, complete is blocked if and only if the gate blocks and no confirmed delivery is seen; then progress is 80 and no delivery was made |
| CompletionGate.BlockingCompleteIsTruthful | dispatcher/manager.py:983-1062 | With the gate on, a completed task has reached the final stage by a confirmed delivery of its completion, or was forced |
| Runs.TimestampsAreOrdered | dispatcher/executor_runs.py:281-296 | Over any history of upserts, heartbeats and sweeps under a monotone clock: created <= completed <= updated, and a terminal row has a completion time |
| Runs.StampsAreKept | dispatcher/executor_runs.py:277-296 | No write deletes a row or changes its creation time; without a sweep the completion time is written once |
| Runs.SweepIsExactAndIdempotent | dispatcher/executor_runs.py:541-625 | A sweep changes exactly the aged task-less rows in flight, to cancelled, and is a no-op when repeated at that instant |
| Runs.UpsertedRow | dispatcher/executor_runs.py:277-341 | Every column after an upsert; the completion time is the one there was, or the reading of the terminal write |
| Runs.FirstTerminalWriteStamps | dispatcher/executor_runs.py:281-296 | After any history, the first terminal write stamps exactly its own reading |
| Runs.BeatenRow | dispatcher/executor_runs.py:771-795 | An open row takes the time of the beat, any other stays |
| Runs.SweptRows | dispatcher/executor_runs.py:574-625 | The sweep in columns: status, link and age decide, completed at the creation time |
| Clock.TimestampsHoldThroughout | dispatcher/executor_runs.py:281-296 | The same order of timestamps in every reachable state of the whole machine |
| RunStores.RunStore.UpsertRun | dispatcher/executor_runs.py:213-341 | The row after INSERT OR REPLACE and the envelope returned, for a new and for an existing id |
| RunStores.RunStore.UpdateHeartbeat | dispatcher/executor_runs.py:720-795 | Refuses a step outside the vocabulary, else stamps exactly rows that exist and are not terminal |
| RunStores.RunStore.ReconcileStaleRuns | dispatcher/executor_runs.py:574-625 | The loops produce the sweep; the ids returned are exactly the rows changed, once each, and the scan count is that of all orphans |
| RunStores.RunStore.ListNonTerminalRuns | dispatcher/executor_runs.py:1191-1221 | The newest rows in flight of one executor, none left out that is newer than one listed |
| Managers.RescueUnfolds | dispatcher/manager.py:674-695 | Entering complete again from a successful rescue is entering the gate once with the whole budget |
| Managers.CollectMissing | dispatcher/manager.py:777-783 | The stat loop collects exactly the paths its stat calls did not find, in order |
| Managers.SendThroughChain | dispatcher/notifier.py:799-888 | The record that the three transports leave: the gateway if it confirms, else the in-process sender if that confirms, else the legacy outcome without a message id |
| Managers.TaskManager.Create | dispatcher/manager.py:341-389 | A new row for any adapter with the clamped rescue budget; an id already present changes nothing |
| Managers.TaskManager.Queue | dispatcher/manager.py:483-503 | Legal requeues only, staying queued is silent |
| Managers.TaskManager.Start | dispatcher/manager.py:505-530 | Legal starts only, the run id stamped |
| Managers.TaskManager.Progress | dispatcher/manager.py:532-551 | Legal values only, never below the current one |
| Managers.TaskManager.NotifyTerminal | dispatcher/manager.py:1909-2033 | Blob, delivery count and result of one notification, deduplicated against the persisted blob |
| Managers.TaskManager.SyncExecutorRunsStatus | dispatcher/manager.py:1304-1391 | The run row keyed by the task's run id, or else by the newest linked row, mirrors the status |
| Managers.TaskManager.Close | dispatcher/manager.py:1584-1688 | Both tables after fail, timeout and cancel, with the finish time, including the refusal |
| Managers.TaskManager.Complete | dispatcher/manager.py:724-1067 | Complete and rescue as mutually recursive methods leave both tables as the gate in closed form does, for any disk |
| Managers.TaskManager.Rescue | dispatcher/manager.py:590-722 | One rescue spent, only the missing paths re-checked, then complete again or fail; a status that cannot run again is left alone |
| Managers.TaskManager.ReconcileExecutorCompletion | dispatcher/manager.py:1426-1575 | Both tables after a forced reconcile, mirrored before it notifies |
| Managers.TaskManager.ClaimJob | dispatcher/db.py:1305-1334 | Compare-and-set on queued and unowned |
| Managers.TaskManager.VerifyClaimToken | dispatcher/db.py:1337-1352 | True for the token hash of the claim and for nothing else |
| TwoTables.ForceKeeps | dispatcher/manager.py:1426-1531 | A forced reconcile onto a run linked to its task, as every reconcile of a polled run is, keeps ownership and agreement |
| TwoTables.ForceAgreesExactly | dispatcher/manager.py:1426-1531 | For any run id: the tables agree after a forced reconcile if and only if no other terminal task goes by the run written |
| TwoTables.DispatchKeeps | app.py:1862-1911 | So does each dispatch route, refused starts included, given a fresh run id |
| Answers.PostRunsWrites | app.py:1862-1911 | Both tables after a submit through POST /runs, column by column, start accepted or refused |
| Answers.PostExecutorWrites | app.py:3345-3378 | The same for the executor endpoint |
| Answers.RerunWrites | app.py:4642-4651 | The same for a rerun: both run ids and no row; nothing when refused |
| Answers.RejectedSubmitFailsItsTask | app.py:3288-3334 | In every reachable state a submit that raised fails its task by force, whatever its status, under the run ids it had, beside a failed row linked to it; no other task changes |
| Answers.RejectedSubmitWithoutATask | app.py:3288-3306 | Without a task exactly that row is written, linked to none |
| TwoTables.SyncAgrees | dispatcher/manager.py:1304-1391 | Lifecycle sync establishes the agreement of its task and disturbs no other |
| TwoTables.PersistKeeps | app.py:2234-2368 | Persisting a verdict from a row read before the await keeps the tables in agreement and re-opens no row |
| Interleavings.StepKeepsTables | app.py:2069-2368 | Every step of every actor keeps both tables consistent, grows the run table and advances each task |
| Answers.ManagerSteps | dispatcher/manager.py:1304-1391 | Complete, close and force write one task, and when settled the row it goes by shows its status |
| Answers.TaskSteps | dispatcher/manager.py:483-551 | Requeue, progress and claim write one task and no run row; a claim is won exactly on a queued, unowned job |
| Answers.CreateStep | dispatcher/manager.py:341-389 | A new id gets its row, a known one changes nothing |
| Answers.UnlinkedSubmitStep | app.py:3355-3378 | A submit without a task writes exactly the row reported |
| Answers.BeatStep | dispatcher/executor_runs.py:771-795 | A heartbeat stamps an open row and nothing else |
| Answers.SweepStep | dispatcher/executor_runs.py:574-625 | A sweep changes exactly the aged rows in flight without a task |
| Answers.ReadStep | app.py:2100-2107 | A reader keeps a snapshot of exactly the Hermes rows that are not terminal |
| Safety.Reachable | app.py:2069-2368 | Every reachable state satisfies the invariant |
| Safety.NothingIsTakenBack | dispatcher/executor_runs.py:277-296 | From any moment to any later one: no run row is deleted, re-created, relinked or re-opened, no task loses history, budget or owner |
| Safety.TablesAgree | dispatcher/manager.py:1304-1391 | Over every interleaving, a terminal task that carries a Hermes run id has a row under it, linked back, with the same status |
| EndedRuns.TablesAgreeBothWays | app.py:2304-2368 | In every run in which no submit reports a run over: a terminal row under a task's run id means a terminal or a requeued task, and for a task never requeued both show the same status as soon as either is terminal |
| EndedRuns.RunsEndTheirTasks | app.py:2304-2368 | The same for all tasks at once, by induction over the steps |
| EndedRuns.DispatchEndsExactly | app.py:3350-3378 | A submit leaves an ended run with an open task if and only if it reports the run over and starts a task never requeued |
| Safety.TerminalRunsStayTerminal | dispatcher/executor_runs.py:771-795 | A run row that is terminal at some moment is terminal at every later one and keeps its creation time |
| Safety.OneDeliveryPerLife | dispatcher/manager.py:1909-2033 | Confirmed deliveries are at most one plus the requeues; a task never requeued gets at most one, and none while open |
| Blocking.DeliveryBoundIsAttained | dispatcher/manager.py:1554-1575 | For every number of requeues some run reaches the bound |
| Reaching.BypassIsReached | app.py:2320-2336 | Create, submit, read, answer: a run with the gate on in which a task ends completed without a delivery |
| Reaching.DivergenceIsReached | app.py:1866-1911 | Create, cancel, submit: a run row shows running what its task shows cancelled |
| Reaching.AbandonedIsReached | dispatcher/db.py:1187-1202 | Create, find, claim, fail, requeue: the only job is queued and no search of any worker finds it |
| Reaching.OutputIsLost | app.py:2316-2336 | A poll whose completion takes a rescue: task and run end completed and the output is shown nowhere |
| Reaching.OpenTaskIsReached | app.py:3350-3378 | A submit that reports completed: the task runs under a terminal row, and no poll reads that row whatever follows |
| Reaching.StandInIsReached | app.py:1399-1461 | A submit that reports queued: the list of running runs shows the task in place of its row |
| Reaching.WindowHidesATask | app.py:1400-1408 | A running task behind a hundred newer failed ones: the list of running runs is empty |
| Reaching.FallFrom95IsReached | dispatcher/manager.py:1031-1038 | A blocked completion of a task at 95 leaves it at 80 |
| Reaching.BystanderIsReached | dispatcher/manager.py:1426-1531 | Two tasks in agreement, one forced onto the run of the other: the agreement is lost |
| Safety.RescueBudgetHolds | dispatcher/manager.py:351-352 | For life: rescues within the budget, the budget within five, progress legal, never left in incomplete_delivery |
| Safety.EveryMoveIsLawful | dispatcher/models.py:166-207 | Every status ever written is an edge of the table, the blocking revert or a forced reconcile |
| Safety.CompletedAndCancelledAbsorb | dispatcher/models.py:166-190 | Without those two exceptions completed and cancelled are never left |
| Safety.ProgressFallsOnlyAtTheRevert | dispatcher/manager.py:1031-1038 | Progress falls only in a step that ends in the blocking revert |
| Safety.ClaimsAreExclusive | dispatcher/db.py:1305-1352 | With any number of workers each task is claimed at most once ever, worker and token come together, and the claimer's search covered the requirements |
| Safety.OwnershipStays | dispatcher/db.py:1305-1352 | From any moment to any later one the worker of a task and the token of its claim never change |
| Safety.ClaimedIsNeverFoundAgain | dispatcher/db.py:1187-1202 | A claimed task is found by no later search, even after a failure and a requeue |
| Polls.PersistSettles | app.py:2234-2368 | One terminal answer settles the linked task whatever its status; the polled row shows the same verdict when the task went by that run or had to be forced |
| Polls.PersistEndsTheRow | app.py:2234-2368 | A terminal answer ends the polled row, linked or not |
| Polls.TerminalPollSettlesBothTables | app.py:2316-2368 | The same in every reachable state, for every snapshot held across an await; a refusal is always forced |
| Answers.WordDecides | app.py:2187-2351 | In every reachable state, by the word itself: one of no success fails the linked task, a success completes it if and only if nothing holds it back, a row of its own shows the status the word names, a shared one the task's |
| Answers.WordIsTaken | app.py:2187-2189 | Which of four statuses a word names: four words for completed, one each for timeout and cancelled, all others failed |
| Answers.NotTakenIsForced | app.py:2320-2351 | When the manager does not take a word and the verdict is forced, in the task's status, the artifacts and the delivery |
| Answers.VanishedRunFails | app.py:2135-2144 | A run upstream no longer knows: the linked task fails, a row without a task shows timeout |
| Answers.OpenAnswers | app.py:2145-2180 | A failed poll changes nothing; a live run is stamped for the watcher only, and only while its row is open |
| Answers.SyncTargetDecided | dispatcher/manager.py:1318-1345 | The row a sync writes: the Hermes run, else the external one, else a newest linked row |
| Answers.SyncedRow | dispatcher/manager.py:1368-1391 | Every column of that row, and that no other row changes |
| Polls.PolledGateExactly | app.py:2320-2336 | With the gate on, for any task, disk and transports: a completed poll completes its task if and only if the manager refuses or the artifacts are there, and then the final stage, and a delivered completion, are reached if and only if a condition on the row and the transports holds before the poll |
| Polls.PollMeetsTheGateExactly | app.py:2234-2368 | The same of the persisted answer; where the condition fails, the task was forced |
| Polls.ReachablePollMeetsTheGateExactly | app.py:2123-2196 | The same in every reachable state, for every snapshot held across an await |
| Polls.PollBypassesTheBlockingGate | app.py:2320-2336 | In particular every unmuted completion the gate would block ends completed by force, without a delivery |
| Polls.RefusedStartDiverges | app.py:1866-1911 | After POST /runs the row and the task show the same status if and only if the task could start or was running |
| Blocking.BlockingModeIsTruthful | dispatcher/notification_state.py:137-222 | In every run with the gate on throughout, a completed task has reached the final stage by a confirmed delivery of its completion, unless its last move was forced |
| Bridges.Bridge.RecordSubmit | app.py:1862-1911 | Both tables after a successful submit on each of the three routes, for whatever adapter the router chose |
| Bridges.Bridge.RecordSubmitFailure | app.py:3288-3334 | Both tables after a submit that raised: the failed row linked to the task or to none, and the task failed under the runs it had |
| Bridges.Bridge.PersistTerminalReconciliation | app.py:2234-2368 | Run row first, then the manager, then by force when the manager raised |
| Bridges.Bridge.HandleAnswer | app.py:2131-2196 | What each poll answer does, the heartbeat only for the watcher |
| Bridges.Bridge.Translate | app.py:2187-2189 | For each status, exactly the words that name it, the empty one included |
| Bridges.Bridge.Perform | app.py:2069-2368 | Whatever an actor does between two awaits is one step of the machine |
| Bridges.Bridge.Yield | dispatcher/executor_watcher.py:170-202 | Everything others do during an await extends the run |
| Bridges.Bridge.Search | dispatcher/db.py:1243-1274 | A search is a step; what it finds is the front suitable job, and nothing only when every suitable one is crowded out |
| Bridges.Bridge.ClaimNext | aee/api/jobs.py:248-300 | Refused exactly for an unregistered worker or one at its cap; else the front suitable job for the named or the registered capabilities, running, owned and within the cap, or none; a job found is never lost |
| Bridges.Bridge.TakeJob | dispatcher/db.py:1305-1334 | A claim is won exactly on a queued, unowned job, and adds one running job to its worker |
| Bridges.Bridge.StopRun | app.py:4342-4364 | Behind the upstream cancel, the newest task carrying the run is cancelled if it is open, and nothing else happens |
| Watchers.AnswerEndsTheRow | app.py:2123-2196 | In every reachable state a final answer leaves the polled row terminal |
| Watchers.ExecutorRunWatcher.SweepWhenDue | dispatcher/executor_watcher.py:143-152 | Every N-th tick sweeps, once |
| Watchers.ExecutorRunWatcher.ReadRows | dispatcher/executor_watcher.py:160-176 | All rows of a tick are read before its first await, newest first, at most 200 |
| Watchers.ExecutorRunWatcher.AwaitPolls | dispatcher/executor_watcher.py:173-207 | One answer per row, each between the others' actions; a row over stays over |
| Watchers.ExecutorRunWatcher.Tick | dispatcher/executor_watcher.py:129-207 | A tick is a stretch of a run whatever others do at its awaits, and every run whose poll came back final is terminal when it ends |
| Claims.PickIsFirst | dispatcher/db.py:1267-1274 | The candidate loop returns the first row the worker covers |
| Claims.SearchIsExact | dispatcher/db.py:1187-1274 | A found job is suitable and no suitable one stands strictly ahead; if none is found, every suitable job has five unsuitable eligible jobs not behind it |
| Claims.SearchInColumns | dispatcher/db.py:1187-1274 | Highest priority first, then oldest: no open job has a higher priority than the one found, nor the same and an earlier creation; if none is found, five jobs the worker cannot take stand in front of every open one |
| Claims.CapabilityMeans | dispatcher/db.py:370-391 | A list stands for the canonical form of each entry that has one |
| ClaimDesk.NormalizeCapabilities | dispatcher/db.py:370-391 | The stored list is strictly ascending and holds exactly the canonical capabilities |
| ClaimDesk.NormalFormIsCanonical | dispatcher/db.py:370-391 | Two lists have one stored form if and only if they stand for the same capabilities, and a stored form is its own |
| ClaimDesk.CapabilitySubsetMatch | dispatcher/db.py:1225-1241 | True if and only if the required capabilities are contained in the worker's |
| ClaimDesk.SelectWindow | dispatcher/db.py:1254-1266 | The five front eligible rows, highest priority first, then oldest |
| ClaimDesk.FindClaimableJob | dispatcher/db.py:1243-1274 | The search as run: the open job of highest priority and then age among those the worker covers, or five in front of each |
| Text.CanonicalIsIdempotent | dispatcher/db.py:385 | Stripping and lower-casing twice is doing it once |
| Text.StripExactly | dispatcher/db.py:385 | Stripping takes all white space off both ends and nothing else |
| Text.SpacesExactly | dispatcher/db.py:385 | The six ASCII characters that count as white space |
| Text.LowerExactly | dispatcher/db.py:385 | Lower case letter by letter; nothing else changes |
| Text.TruncatingTwiceIsTruncatingOnce | app.py:2215-2221 | A truncated summary is not cut again |
| Text.TruncatedExactly | app.py:2215-2221 | Up to 2000 characters are kept; of more, the first 2000 and the mark |
| Text.BeforeExactly | dispatcher/ids.py:39-42 | String order is decided at the first difference, a proper prefix first |
| EvidenceMerge.MergeIsSafe | app.py:3664-3763 | Merging keeps every lifecycle field, replaces no evidence the row has and no confirmed delivery, and does nothing the second time |
| EvidenceMerge.MergeFills | app.py:3664-3763 | What a merge fills in, column by column, and when |
| EvidenceMerge.CollectedExactly | app.py:3481-3653 | What is collected for a task, and when nothing is |
| EvidenceMerge.PolledOutputMoves | app.py:2316-2336 | After a completed poll the row holds the output unless lifecycle sync erased it, and the task stores what the completion keeps, whatever it stored before and whichever run it goes by |
| EvidenceMerge.PolledOutputIsShownExactly | app.py:3664-3763 | What a reader is shown afterwards, for every task; for one that goes by the run and stored no text, the polled output if and only if the completion passed the gate at its first check |
| Listing.ListRuns | app.py:1282-1461 | Refused exactly for a bad limit or status; else newest first, one line per run, filters and limit kept, a missing matching row outranked by a full list, a task in place of a matching row only if created after it, and a missing matching task cut off by a full list or the window |
| Listing.CorrectInColumns | app.py:1399-1461 | The list in columns: creation times fall, ids break ties, each line has the values asked for and is a run row or a task with pending shown as queued and waiting as running |
| Listing.MissingRowInColumns | app.py:1460-1461 | A run row with the values asked for and no line means a full list, no line older |
| Listing.MissingTaskInColumns | app.py:1400-1408 | A dispatched task with the values asked for whose run has no line: the list is full, or more tasks go by a Hermes run than twice the limit and 100 |
| Listing.ValidQueries | app.py:1282-1322 | Limits from 1 to 100 and the seven run statuses |
| Listing.MatchingRowWins | app.py:1460-1461 | When tasks are created before their rows, a task takes the line only of a run without a row or whose row fails the filters |
| Precedence.MatchingRowAlwaysWins | app.py:1399-1461 | The same in every state reachable under a monotone clock |
| Precedence.RunsAreOrdered | app.py:1862-1911 | Under a monotone clock every task is created before every row linked to it |
| Listing.StandInIsLate | app.py:1460-1461 | Behind the cut, a task in place of a matching row is newer than that row |
| Listing.TheWindowHides | app.py:1400-1408 | A task behind as many newer dispatched ones as the window holds has no line, however few of those pass |
| Listing.UnionIsSound | app.py:1399-1453 | The union keeps the selected rows in front, one line per id, every line accepted by the filters |
| Listing.StandsInExactly | app.py:1399-1453 | Before the cut, a task found is in the union if and only if it passes the filters, no selected row has its run id and no earlier task of that id passed |
| Listing.Unite | app.py:1399-1453 | The loop with its set of seen ids computes that union |
| Listing.SelectTop | dispatcher/executor_runs.py:474-499 | ORDER BY created_at DESC, run_id DESC with a limit |
| Listing.RowIsOutranked | app.py:1460-1461 | A row below the limit of the first query is outranked by the whole cut list after the union |
| RateLimiter.WindowHoldsAtMostRate | dispatcher/notifier.py:112-122 | No closed window of 3600 seconds holds more than rate recorded sends, for rates 1 to 200 and both paths mixed |
| RateLimiter.BoundedExactly | dispatcher/notifier.py:112-122 | The bound holds for every run if and only if the rate is between 1 and 200 |
| RateLimiter.RefusedExactly | dispatcher/notifier.py:115-122 | For every monotone run and rate 1 to 200: a check is refused if and only if exactly rate recorded sends lie in the closed 3600 seconds that end with it |
| RateLimiter.NeverRefused | dispatcher/notifier.py:112-122 | Without a positive rate, or with one above 200, no check of any run is refused |
| RateLimiter.PruningKeepsTheYoung | dispatcher/notifier.py:120-121 | After a check the deque is empty or its head is at most an hour old |
| RateLimiter.StampedExactly | dispatcher/notifier.py:279-294 | Which alerts enter the log, by path |
| RateLimiter.PushedExactly | dispatcher/notifier.py:112 | A full deque of 200 drops its oldest entry, any other only grows |
| RateLimiter.SendHistory.WithinRateLimit | dispatcher/notifier.py:115-122 | The while loop prunes exactly the entries at the head that are older than an hour |
| RateLimiter.SendHistory.DispatchStatus | dispatcher/notifier.py:279-294 | The legacy path stamps every enabled attempt within the limit, sent or not |
| RateLimiter.SendHistory.NotifyInprocess | dispatcher/notifier.py:1231-1280 | The in-process path stamps only a successful one |
| Ids.PaddedRoundTrip | dispatcher/ids.py:45-54 | Reading back a padded number gives the number, of any width |
| Ids.OrderIsNumeric | dispatcher/ids.py:39-42 | Digit strings of one length are ordered as their numbers |
| Ids.IdsAreConsecutive | dispatcher/ids.py:16-54 | From an empty day the first 10,000 ids are consecutive and distinct |
| Ids.FreshExactlyBelowTheLimit | dispatcher/ids.py:34-54 | The next id is new if and only if fewer than 10,000 were handed out; after that it is the 10,000th again |
| Ids.NextInAnyState | dispatcher/ids.py:34-54 | The next id on any snapshot, with malformed ids and on an empty day |
| Ids.OtherDaysDoNotMatter | dispatcher/ids.py:39-42 | Ids of other days change nothing |
| Ids.OfDayExactly | dispatcher/ids.py:39-42 | The rows of a day are exactly the ids with its prefix |
| Ids.LastIsGreatest | dispatcher/ids.py:39-42 | The row taken is the greatest string |
| Tail.DecodeEncode | dispatcher/observability.py:172-190 | Decoding what was encoded gives the text back, lone surrogates replaced |
| Tail.SliceDecodes | dispatcher/observability.py:186-190 | Decoding from any byte on gives at most three marks and then a true suffix, losing no whole character |
| Tail.TailIsASuffix | dispatcher/observability.py:172-190 | A text that fits is kept; of a longer one exactly the last bytes are kept, up to three as marks, each costing two bytes more |
| Tail.BoundedExactly | dispatcher/observability.py:172-190 | The size bound holds for every text if and only if the byte bound is positive |
| Tail.EncodedBits | dispatcher/observability.py:184 | The code of RFC 3629 by range: number of bytes, marker bits and payload bits |
| Tail.MarksAndScrubs | dispatcher/observability.py:184-190 | A mark is U+FFFD, a lone surrogate becomes a question mark |
| Tail.BoundsBelowOne | dispatcher/observability.py:185-190 | A bound of zero returns the whole text, a negative one all but that many bytes in front |
| Steps.StoreIsAppendOnly | dispatcher/executor_runs.py:926-1040 | Over any appends no row loses its place, id, key, task id or start time, and keys and ids stay unique; with fresh ids each key appended has its row |
| Steps.RetryReplacesInPlace | dispatcher/executor_runs.py:997-1010 | A retry with the same key keeps the row count and the id and takes over the payload |
| Steps.RetriedRow | dispatcher/executor_runs.py:992-1010 | Every column of a retried step |
| Steps.NewRow | dispatcher/executor_runs.py:984-996 | A new key is appended as it is, or refused when its id is taken |
| Steps.ListedInOrder | dispatcher/executor_runs.py:1066-1088 | A listing in columns: the values asked for, the order, and what may be missing |
| Steps.StepStore.AppendStep | dispatcher/executor_runs.py:926-1040 | The table after an append and the row read back; refused exactly when the id is taken by a row of another key |
| Steps.StepStore.ListSteps | dispatcher/executor_runs.py:1043-1088 | Strictly ordered by generation, attempt, recorded time and insertion, and complete below the limit; empty without a task and a run |

## Left out

- HTTP, authentication, OpenAPI payloads, model routing, safety checks, configuration and CLI: they hold no lifecycle state.
- SQLite, JSON, log files, event rows and transports: tables are maps and sequences, blobs are datatypes, transports are inputs; best-effort writes are taken to succeed, so a write that fails and is swallowed is not modelled, nor is a blob that does not decode.
- Timestamps are one kind of number, although run rows are stamped in whole seconds and tasks in milliseconds and the list compares the strings: `05Z` sorts after `05.500Z`, so a filter from second 05 on drops a task created half a second later.
- One clock reading stands for all readings within one atomic step.
- The Claude CLI and dsh-headless branches of `POST /runs/executor`, which can leave a task failed beside a timed-out run: the agreement is proved for Hermes-dispatched runs.
- Upstream run ids are taken to be fresh at dispatch and different from the constant id of failed submits; a forced reconcile is taken to name a run of its own task. `Bridges.Enabled` states this.
- Snapshots held across an await are never discarded in the model, so it also covers requests that resume later than any real one.
- The reaper and the legacy task watcher appear only as callers of fail and timeout at any moment.
- The workers table beyond type, capabilities and cap: registration, worker heartbeats and status.
- Descriptive columns (titles, durations, start times, result paths, error texts, model names, progress, phase and step of a run row), `derive_phase` and `evaluate_stall`: they feed no decision of the lifecycle.
- The scan for paths in a task's input counts only as whether it recorded an artifact; warning counts and intent detection are left out.
- Fixture suppression inside the transports is the same as a gateway and a legacy sender that send nothing; the shared notification guard is the input `muted`.
- An `adapter_name` that is NULL when a row is mirrored: a task has an adapter from its creation on, since the job endpoint stamps it without an await in between.
- `upsert_run` with an explicit completion time: no caller passes one.
- Upstream words are taken in lower case; case folding and whitespace of capability strings are those of ASCII.
- Task ids with a suffix that Python's `int` accepts but that is not all digits count as malformed.
- The watcher's row limit and the sweep age are the defaults; its tick divisor is a parameter.
- Threads: the bridge runs one event loop, so actors interleave at awaits only.
