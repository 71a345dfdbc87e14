# Scrapio: durable crawls, records and schedules

Scrapio runs published workflows as durable crawls. Three components keep state that several processes change
step by step, and each of them is modelled here together with what it promises.

- **The task protocol** (`internal/repo/task_repo`, `internal/workflow/worker.go`). A run owns a tree of tasks, a task
  has numbered attempts guarded by a lease, and a run budget limits tasks, pages, hosts, depth, time and details per page.
- **The record pipeline** (`internal/workflow/records.go`, `internal/workflow/transform.go`, `internal/record/model.go`,
  `internal/repo/record_repo`). A page becomes candidates, candidates become records with observations and revisions.
- **The scheduler** (`internal/repo/workflow_repo/schedules.go`). Ticks of a cron schedule become events, events start runs.

## How the model is built

| modules | role |
|---|---|
| `CrawlPolicy`, `TaskModel` | the budget and the rows of the task tables; for each transaction, the database it leaves |
| `TaskStore`, `RunSummary`, `Listing` | the same transactions as methods of objects whose fields they update, proved to leave exactly that database |
| `TaskSystem` | all processes at once: a step is one transaction or one unlocked read, a program counter says what a process remembers between two steps and what it still has to do; a run of the system is any sequence of steps, crashes included |
| `RunVerdicts`, `TaskAnswers` | what each transaction answers and writes, said about rows: the verdict on a run, the sweep, refusals, claims, endings, retries |
| `Ownership`, `Protocol`, `Fencing`, `Finishing`, `CancelSubtree`, `BudgetSafety`, `BoundedWork` | what holds in every run of the system |
| `ListingReplay`, `ListingRecovery` | a list page that is interrupted and done again, as one loop on the graph of its run |
| `ListPath`, `ListWorkers`, `ListCounts`, `ListFinished`, `ListLoop`, `ListCrash` | workers on list pages as processes of the system, one check, look-up or request a step: the path of list pages, the counts, what a finished page can still get, the loop as the steps of a worker left alone, and a run in which a crash shows |
| `Json`, `StringOrder`, `RecordModel`, `FieldFlow`, `DocumentPages` | values, normalising, keys, merging; definitions and their field names; a document divided into pages |
| `RecordLog`, `RecordStore`, `RecordTask`, `Preview` | the record repository on values, as an object, under a worker, and its dry run |
| `RecordAnswers`, `FieldAnswers` | which entries and candidates are accepted, which share a record, what saving stores; what each operation and rule of a definition does |
| `JsonPath` | the path language for JSON documents |
| `ScheduleModel`, `ScheduleStore`, `ScheduleRuns`, `ScheduleAnswers` | the scheduler on values, as an object, over whole runs, and what its operations store |

A transaction is one atomic step: it locks its run, dataset or schedule row first, or its guarded update decides. What
the program reads outside a transaction is a step of its own: the attempt and task that `Complete` and `Fail` read, the
counts that `RetryTask` reads, the later look of `tryFinishRun` at a run, and the checks and look-ups of a worker on a list
page. Time is one monotone clock of whole seconds.

## Results that are not what one might expect

- *A retry can strand a task.* `RetryTask` computes the new attempt limit from a row it read before its transaction. Two
  requests for the same failed task, the second committing after the first retry has failed as well, leave the task
  queued with no attempt left, so nobody can claim it (`BoundedWork.StaleRetryStrandsTask`); a committed retry leaves an
  attempt if and only if the attempts made meanwhile are still below the computed limit. A stuck task never gets another
  attempt: it has not failed, so further retries of it are refused, and only a cancel or the deadline ends it
  (`BoundedWork.StuckTaskIsNeverClaimed`).
- *A crash before the last look at a run is not made up.* The comment at `internal/repo/task_repo/budgets.go:303-304`
  says that expiry also finalizes an expired run; it does so exactly if the run has an open task
  (`Finishing.ExpiryFinishesIff`). An active run whose last task ended just before the worker died stays active until a user
  cancels it or the retry of one of its failed tasks commits (`Finishing.CrashedFinishIsNotMadeUp`). Past the deadline every
  retry is refused and only a cancel is left (`Finishing.OverdueRunNeedsCancel`); `Finishing.ACrashStrandsARun` is such a run
  of the system. A finish gets lost in no other way: a run is left unattended if and only if the last process that owes it a
  look crashes (`Finishing.NoFinishIsLost`).
- *A replayed list page can record a second refusal.* If the next page took the last task slot of the run, a detail that had
  been refused for the page is refused again for the run (`ListingReplay.CrashAfterNextPage`); otherwise the replay is exact.
  `ListCrash.ACrashShows` is a run of the system in which that happens.
- *A schedule without a later time gets stuck.* A dispatch that takes a due tick asks for the next time first; if the cron
  expression has none, the transaction rolls back. The due tick is then never recorded and a tick that waits is never
  decided, whatever else happens, until the schedule is edited or its workflow stopped
  (`ScheduleRuns.EndedCalendarHoldsTicks`, with a run of the scheduler in `ScheduleRuns.AWaitingTickIsNeverServed`). As long
  as such a schedule stands first in line, no other schedule is dispatched (`ScheduleStore.EndedScheduleBlocksTheLine`).
- *A field renamed to itself* is kept by the static check and dropped at run time (`FieldFlow.SelfRenameLosesTheKey`).
- *Blank idempotency keys* are looked up but not stored, so they do not make a request idempotent
  (`RecordLog.ReplayIsIdleIffKeyed`).
- *The dry run of a magnet dataset* does not put keys into capitals as saving does (`Preview.MagnetsAreForetoldWrongly`). It
  foretells what is saved exactly if every key is in capitals already (`Preview.MagnetForecastIff`; a key of more than 512
  characters is cut and hashed, and there the hash must tell the key from its form in capitals). A request that was saved
  under an idempotency key and is sent again is answered by saving once more, but the dry run announces a conflict exactly if
  its record key is not in capitals (`Preview.ResendIsMisannouncedIff`).
- *A bracketed index on a JSON object* looks up the member named by the digits (`JsonPath.FollowParts`).

## Model

| member | source | states |
|---|---|---|
| `CrawlPolicy.Allows` | internal/crawlpolicy/budget.go:65-76 | an address is admitted exactly if it is http(s), has a host and no credentials, and its host is listed, letter case aside |
| `CrawlPolicy.AdmissionIgnoresCase` | internal/crawlpolicy/budget.go:65-76 | the letter case of an address's host or a listed host does not matter |
| `CrawlPolicy.EachLimitHasItsRange` | internal/crawlpolicy/budget.go:31-45 | the range of each of the six limits |
| `CrawlPolicy.Validate` | internal/crawlpolicy/budget.go:31-63 | a budget is accepted exactly if its six limits are in range, its hosts are few, exact and distinct, and it admits the entry |
| `CrawlPolicy.DefaultsAreAcceptable` | internal/crawlpolicy/budget.go:22-29 | the default budget passes validation exactly if the entry is a web address without credentials and with a bare hostname |
| `TaskStore.Store.StartRun` | internal/repo/workflow_repo/workflows.go:427-452 | run, budget snapshot and root task appear together |
| `TaskStore.Store.CreateTask` | internal/repo/task_repo/tasks.go:89-191 | an active run gets a child of a running, fenced parent, an existing task for the same work, or a recorded refusal |
| `TaskStore.Store.ChildBudgetReason` | internal/repo/task_repo/budgets.go:98-136 | the first violated limit in the fixed order, or none |
| `TaskStore.Store.ClaimNext` | internal/repo/task_repo/tasks.go:211-284 | the oldest eligible task is claimed with a new numbered attempt; without one nothing changes |
| `TaskStore.Store.RenewLease` | internal/repo/task_repo/tasks.go:448-460 | only the fenced attempt extends its lease |
| `TaskStore.Store.CompleteStatus` | internal/repo/task_repo/tasks.go:334-372 | task and attempt end together under the fence, then the run is looked at; otherwise nothing changes |
| `TaskStore.Store.Fail` | internal/repo/task_repo/tasks.go:374-445 | a failure is queued again or final by the counts read before, with back-off; the run is looked at only after a final one |
| `TaskStore.Store.RecoverTask` | internal/repo/task_repo/tasks.go:610-648 | an expired lease gives the task back, or up if no attempt is left, and the run is looked at |
| `TaskStore.Store.RecoverExpiredLeases` | internal/repo/task_repo/tasks.go:583-608 | the sweep recovers each expired lease in turn and looks at its run, then ends each overdue run; it replies how many leases it recovered |
| `TaskStore.SweepReachesAll` | internal/repo/task_repo/tasks.go:583-608 | after such a sweep no lease is expired and no overdue run has an open task |
| `TaskStore.Store.SaveDocument` | internal/repo/task_repo/tasks.go:492-537 | the document is stored under the fence of an active run or not at all |
| `TaskStore.Store.ReservePage` | internal/repo/task_repo/budgets.go:139-211 | one page slot per task, with the checks and recorded refusals in order |
| `TaskStore.Store.CheckPageUrl` | internal/repo/task_repo/budgets.go:231-276 | a redirect target is admitted with its host reserved, or the refusal is recorded |
| `TaskStore.Store.CancelTask` | internal/repo/task_repo/tasks.go:650-699 | a cancel closes every open task below and its running attempts, or says why not |
| `TaskStore.Store.ExpireRun` | internal/repo/task_repo/budgets.go:320-358 | an overdue run has its open tasks limited with one event each |
| `TaskStore.Store.RetryTask` | internal/repo/task_repo/tasks.go:729-790 | a failed task of a retryable run in time is queued again with a limit it can reach |
| `TaskStore.Store.RerunRun` | internal/repo/task_repo/tasks.go:792-838 | a new run copies budget and root task of an old one |
| `TaskStore.Store.TryFinishRun` | internal/repo/task_repo/tasks.go:1004-1084 | a run without open tasks gets its verdict, others stay as they are |
| `RunSummary.Summarise` | internal/repo/task_repo/tasks.go:1025-1044 | the loop finds an open task or the sum of all rows |
| `RunSummary.SummaryIgnoresRowOrder` | internal/repo/task_repo/run_summary.go:22-70 | the totals do not depend on the order in which rows are read |
| `TaskStore.FinalStatusFromRows` | internal/repo/task_repo/run_summary.go:72-86 | the verdict from the counters is the verdict on the tasks: cancelled, failed without result, limited, partial, succeeded |
| `RunSummary.TotalsAddUp` | internal/repo/task_repo/run_summary.go:22-70 | the counters count each row once, by how its task ended, and each record once, by what became of it |
| `RunVerdicts.WorkflowVerdictIff` | internal/repo/task_repo/run_summary.go:72-86 | one condition each on rows, observations and limit events: cancelled if a task was; else failed without fruits; else limited if a limit made itself felt, whatever has failed; else partial if something failed; else succeeded |
| `RunVerdicts.PlainVerdictIff` | internal/repo/task_repo/tasks.go:1086-1094 | without workflow tasks a failure comes before a cancel, and nothing else matters |
| `RunVerdicts.RecoveryIff` | internal/repo/task_repo/tasks.go:610-648 | exactly a lost lease is recovered: queued if attempts are left, given up otherwise, free at once, its attempt interrupted |
| `RunVerdicts.SweepIff` | internal/repo/task_repo/tasks.go:583-648 | task by task: a lost lease ends queued exactly if it had attempts left and its run has time left, a dead letter without attempts, limited otherwise; open tasks of late runs are limited; nothing else is touched |
| `RunVerdicts.SweepCountsLostLeases` | internal/repo/task_repo/tasks.go:583-608 | the sweep replies how many leases were lost |
| `TaskAnswers.ChildRefusalIff` | internal/repo/task_repo/budgets.go:98-136 | a child is refused exactly for the first limit in the order that it would break |
| `TaskAnswers.ChildIff` | internal/repo/task_repo/tasks.go:89-191 | when a worker is told that its run is over, that it is not in charge, which older task does the work, which limit forbids the child, and what row is added otherwise |
| `TaskAnswers.ReservationIff` | internal/repo/task_repo/budgets.go:139-211 | a page is refused exactly for the first limit in the order that it would break, which is all that is noted; otherwise the task has its one slot |
| `TaskAnswers.RedirectIff` | internal/repo/task_repo/budgets.go:231-276 | the same for a redirect, whatever its task has reserved |
| `TaskAnswers.RerunIff` | internal/repo/task_repo/tasks.go:792-838 | a rerun repeats the oldest root task under the budget of the old run, exactly if there is one |
| `TaskAnswers.ClaimIff` | internal/repo/task_repo/tasks.go:211-284 | exactly which tasks can be claimed, for how long, under which number, and what becomes of the attempt before |
| `TaskAnswers.RenewalIff` | internal/repo/task_repo/tasks.go:448-460 | the present worker's lease runs from now for the time it asks for; no other request changes anything |
| `TaskAnswers.CompletionIff` | internal/repo/task_repo/tasks.go:334-372 | exactly the worker in charge ends task and attempt alike and keeps the output |
| `TaskAnswers.CommittedFailureIff` | internal/repo/task_repo/tasks.go:374-441 | in every run of the system a committed failure gives its task back for the announced time exactly if it is retryable and attempts are left, and gives it up otherwise |
| `TaskAnswers.BackoffDoubles` | internal/repo/task_repo/tasks.go:1127-1139 | the delay is the power of two of the attempt, from two to 256 seconds, and at most half of it more |
| `TaskAnswers.RecordsIff` | internal/workflow/worker.go:475-512 | a batch commits exactly under the fence of a live run, item by item, and keeps what was observed before |
| `TaskAnswers.CancelIff` | internal/repo/task_repo/tasks.go:650-699 | what stands in the way of a cancel, or exactly which rows and attempts it ends |
| `TaskAnswers.SubtreeIsPaths` | internal/repo/task_repo/tasks.go:650-699 | what hangs below a task is what a path of parent links leads to |
| `TaskAnswers.CancelRunIff` | internal/repo/task_repo/tasks.go:701-727 | exactly a live run is cancelled, with its open tasks and their attempts |
| `TaskAnswers.ExpiryIff` | internal/repo/task_repo/budgets.go:320-358 | exactly a run whose time is up has its open tasks limited, with one event each and no other |
| `TaskAnswers.RetryIff` | internal/repo/task_repo/tasks.go:729-790 | exactly when a retry commits, and the rows it leaves |
| `Protocol.StepKeepsInv` | internal/repo/task_repo/tasks.go:211-284 | every step of every process keeps the ownership invariant and moves rows only along their life cycle |
| `Protocol.TasksAreOwned` | internal/repo/task_repo/tasks.go:255-284 | running exactly with one running attempt, the latest, whose worker holds the lease; attempts numbered without gap |
| `Protocol.AttemptsOnlyGrow` | internal/repo/task_repo/tasks.go:256-271 | the attempt count never decreases |
| `Protocol.StoresStayValid` | internal/repo/task_repo/tasks.go:89-191 | in every state ids are in use below the next one and parents are older than their children, which is what the methods of the task store rely on |
| `Fencing.FenceIsTheRunningAttempt` | internal/repo/task_repo/tasks.go:462-471 | at most one claim of a task passes the fence: its running attempt |
| `Fencing.LostFenceStaysLost` | internal/repo/task_repo/tasks.go:506-537 | an attempt outside the fence is outside in every later state |
| `Fencing.NothingCommitsAfterLoss` | internal/repo/task_repo/tasks.go:119-137 | no document, child, page slot, record batch or ending of a superseded attempt ever commits |
| `Fencing.WritesFollowAttemptOrder` | internal/repo/task_repo/tasks.go:342-367 | the committed writes to a task come in the order of its attempts, none after an attempt's end |
| `Fencing.RetryDecisionIsCurrent` | internal/repo/task_repo/tasks.go:374-425 | Fail's decision from an unlocked read agrees with the row whenever its update succeeds |
| `Finishing.FinishEndsOnlyQuietRuns` | internal/repo/task_repo/tasks.go:1004-1084 | looking at an active run ends it exactly if it has no open task |
| `Finishing.ObservedRunIsNoFailure` | internal/repo/task_repo/run_summary.go:72-86 | a run with an observed record never fails; it succeeds exactly without limit, cancel or failure |
| `Finishing.EndedRunsAreQuiet` | internal/repo/task_repo/tasks.go:1021-1040 | an ended run has no queued or running task, in every state |
| `Finishing.SettledRunsStaySettled` | internal/repo/task_repo/tasks.go:745-760 | succeeded, limited and cancelled runs never change again |
| `Finishing.NoFinishIsLost` | internal/repo/task_repo/tasks.go:360-372 | at every moment of a run of the system an active run whose tasks are done has a process that will still look at it, exactly if the last such process never crashes |
| `Finishing.StepAttendsIff` | internal/repo/task_repo/tasks.go:360-372 | a single step leaves a run unattended exactly if it is the crash of its last finisher |
| `Finishing.CrashStrands` | internal/repo/task_repo/tasks.go:364-372 | a crash of the last such process leaves the run active with nobody in charge |
| `Finishing.ACrashStrandsARun` | internal/repo/task_repo/tasks.go:364-372 | a run of the system that gets there from the start, past its deadline, and stays there whatever follows except a cancel of the run |
| `Finishing.ExpiryFinishesIff` | internal/repo/task_repo/budgets.go:303-364 | the expiry of an overdue run ends it exactly if the run has an open task |
| `Finishing.SweepIsExpiryAndLook` | internal/repo/task_repo/budgets.go:320-364 | expiring a run and the look that follows are what the sweep does to it |
| `Finishing.CrashedFinishIsNotMadeUp` | internal/repo/task_repo/budgets.go:303-364 | such a run stays active until a user cancels it or a retry of one of its tasks commits |
| `Finishing.StrandedStepIff` | internal/repo/task_repo/tasks.go:701-790 | a single step gets a run out of this state exactly if it is such a cancel or such a retry |
| `Finishing.OverdueRunNeedsCancel` | internal/repo/task_repo/tasks.go:762-773 | past its deadline such a run stays active until it is cancelled |
| `CancelSubtree.CancelledSubtreeStaysClosed` | internal/repo/task_repo/tasks.go:650-699 | after a cancel the subtree keeps its members and none is open, until a retry of one of them commits |
| `CancelSubtree.ClosedStepIff` | internal/repo/task_repo/tasks.go:650-699 | a step opens a closed subtree exactly if it is the retry of a member and commits |
| `CancelSubtree.ClosedAllAlongIff` | internal/repo/task_repo/tasks.go:762-776 | over any steps a closed subtree is closed at every moment exactly if no retry of a member commits |
| `CancelSubtree.EndedForGood` | internal/repo/task_repo/tasks.go:762-776 | cancelled, succeeded and limited tasks never change status again |
| `CancelSubtree.RunEndsAreComplete` | internal/repo/task_repo/tasks.go:701-727 | cancelling or expiring a run ends all its open tasks, with events for expiry, and touches no other run |
| `BudgetSafety.RunsStayWithinBudget` | internal/repo/task_repo/budgets.go:98-228 | in every state of every run: tasks, page slots, hosts and details per page within the budget, hosts listed |
| `BudgetSafety.ChildrenKeepTheirPlace` | internal/repo/task_repo/budgets.go:98-136 | a child is one deeper than its parent, within the depth limit, at an admitted address no other task of its step has |
| `BudgetSafety.SlotStaysTaken` | internal/repo/task_repo/budgets.go:180-205 | a page slot belongs to its task across all later attempts |
| `BudgetSafety.LateRunGrowsNoMore` | internal/repo/task_repo/budgets.go:98-112 | after its deadline a run gets no further task and no further page |
| `BudgetSafety.ReservePageFits` | internal/repo/task_repo/budgets.go:139-211 | a reservation only notes a limit, or it gives the task its slot at an admitted address, within the limits of pages and hosts, touching no other run |
| `BudgetSafety.CheckPageFits` | internal/repo/task_repo/budgets.go:231-276 | a redirect only notes a limit, or it adds its admitted host within the limit of hosts |
| `BudgetSafety.ChildIsAdmitted` | internal/repo/task_repo/tasks.go:138-177 | a created child is new work that the budget does not refuse, one level below its parent |
| `BoundedWork.AttemptsStayBounded` | internal/repo/task_repo/tasks.go:399-412 | in a run of the system attempts stay within the limit and queued tasks have one left at every moment, exactly if every retry that commits is timely |
| `BoundedWork.RequeueHasAttemptsLeft` | internal/repo/task_repo/tasks.go:399-412 | a failure or an expired lease gives a task back to the queue only while it has attempts left |
| `BoundedWork.RetryLeavesAnAttemptIff` | internal/repo/task_repo/tasks.go:729-776 | a committed retry leaves an attempt exactly if the present count is below the computed limit |
| `BoundedWork.StaleRetryStrandsTask` | internal/repo/task_repo/tasks.go:729-776 | a run of the system in which a late retry leaves its task queued without an attempt |
| `BoundedWork.StuckTaskIsNeverClaimed` | internal/repo/task_repo/tasks.go:224-230 | such a task never gets another attempt; it stays queued until a cancel or the deadline ends it for good |
| `BoundedWork.StuckTaskIsNotRetried` | internal/repo/task_repo/tasks.go:774-790 | every later retry of it is refused |
| `BoundedWork.ClaimsAreAttempts` | internal/repo/task_repo/tasks.go:255-271 | the attempts of a run on record are exactly its successful claims |
| `BoundedWork.TaskWorkIsBounded` | internal/repo/task_repo/tasks.go:729-790 | in every run of the system a task is attempted at most five times, and five times more for each retry of it that commits |
| `BoundedWork.RunWorkIsBounded` | internal/repo/task_repo/tasks.go:85-87 | in every run of the system the tasks of a run are claimed at most five times its task limit, and five times more for each retry of one of them that commits |
| `Listing.ExtractDetails` | internal/workflow/listing.go:45-52 | detail links in order of first appearance, each once, unusable ones left out |
| `Listing.ExpandListing` | internal/workflow/worker.go:385-464 | the loop over details and the request for the next page leave exactly the specified rows |
| `ListingReplay.StopIff` | internal/workflow/listing.go:60-74 | why a listing ends: the first reason in the order, and when it goes on |
| `ListingReplay.NewDetailsAreMine` | internal/workflow/worker.go:403-429 | the counter of new details is the number of details that are children of this page in the end |
| `ListingReplay.CrashAmongDetailsIsMadeUp` | internal/workflow/worker.go:385-464 | started over after any prefix of the details, a page ends with the same tasks, limits, count, streak and stop |
| `ListingReplay.CrashAfterNextPage` | internal/workflow/worker.go:436-462 | started over when done, it creates nothing and answers the same; the limits agree exactly outside one described case, and there the new ones are refusals for lack of tasks of the details beyond the allowance of the page |
| `ListingReplay.CrashCanShow` | internal/repo/task_repo/budgets.go:119-134 | that case occurs on a graph of three tasks, with one new refusal |
| `ListCrash.ACrashShows` | internal/workflow/worker.go:385-464 | a run of the system that gets there: a worker finishes the page and dies, the next one finishes it with the same outcome and records a second refusal of the same detail |
| `ListingRecovery.ExpandOnBook` | internal/workflow/worker.go:385-464 | what a page does to the tables is what it does to the run's graph of steps and addresses |
| `ListingRecovery.InterruptedPageIsMadeUp` | internal/workflow/worker.go:218-248 | a crash among the details, any steps of bystanders and a new attempt on the stored document end as if uninterrupted |
| `ListingRecovery.FinishedPageIsNotRepeated` | internal/workflow/worker.go:218-248 | the same after a crash just before completion, with the exact condition for equal limits |
| `ListPath.ExhaustedPageGetsNoDetail` | internal/repo/task_repo/tasks.go:138-177 | a page whose details all have a task or a refusal never gets another detail |
| `ListWorkers.FloorStep` | internal/workflow/worker.go:403-452 | whatever step comes next, every worker on a list page has done its details so far, counts rightly while it holds the last page, and every page hangs where its run's documents say |
| `ListWorkers.ListPagesFormOnePath` | internal/workflow/worker.go:385-460 | however the workers of a run interleave, crash and start over, its list pages are one path: numbered without gap within the limit, at distinct addresses, each below a page that is done with its details, with the length of the empty streak |
| `ListCounts.CountsAreDetails` | internal/workflow/worker.go:403-429 | a worker that is done with its details and still holds the last page has counted exactly the details of that page, whoever else works on the run |
| `ListFinished.FinishedPageCreatesNothing` | internal/workflow/worker.go:385-464 | once a worker has been through a page, no later step of anybody gives the page another child |
| `ListLoop.UndisturbedIsExpandPage` | internal/workflow/worker.go:385-464 | the steps of a worker that nobody disturbs leave the tables and the outcome of the loop |
| `RecordModel.PrepareCandidate` | internal/record/model.go:34-104 | entries, required fields and key are checked and normalised as specified, or nothing is prepared and the complaint is the first in the order of the checks |
| `RecordAnswers.EntryIff` | internal/record/model.go:44-75 | an entry is accepted exactly if it is null, of its field's kind, or a list of such values for a multiple field; texts and addresses are trimmed, all else is kept |
| `RecordAnswers.PreparedIff` | internal/record/model.go:34-95 | a candidate is prepared exactly if there is a key, every entry is accepted by a declared field, and required and key fields are filled |
| `RecordAnswers.KeysTellCandidates` | internal/record/model.go:82-103 | with encoding and hash injective, two candidates have one key exactly if they agree in the text of every key field, apart from a short key that looks like the cut form of a longer one |
| `RecordModel.PrepareIsIdempotent` | internal/record/model.go:34-104 | preparing prepared values changes neither values nor key |
| `RecordModel.Merge` | internal/record/model.go:191-226 | the merged values and the ascending list of changed keys, in whatever order the new values are visited; every field as `MergeIsFieldwise` says, changed exactly if its value differs |
| `RecordModel.MergeIsFieldwise` | internal/record/model.go:191-221 | a field stays without a new value and, under preserve, for an empty one; two lists are united under preserve, each element once and in order of appearance; in every other case the new value is stored |
| `RecordModel.MergeReportsExactly` | internal/record/model.go:191-226 | changed is exactly the set of keys whose value differs, missing read as null |
| `RecordModel.PreservingKeeps` | internal/record/model.go:197-216 | under preserve nothing becomes empty and existing list elements are kept in front |
| `RecordModel.MergeConverges` | internal/record/model.go:191-226 | a repeated merge is idle exactly if no repeating list was newly stored, and always from the second time on |
| `FieldFlow.ApplyTransform` | internal/workflow/transform.go:13-110 | the operations in order on the values, or a failure |
| `FieldAnswers.OperationFailsIff` | internal/workflow/transform.go:13-110 | exactly when an operation fails: a name is missing, or the value is no text or, for a join, no list |
| `FieldAnswers.RenameMoves` | internal/workflow/transform.go:33-41 | a present field moves to its new name, and is gone if that is its old one |
| `FieldAnswers.WritesAndDeletes` | internal/workflow/transform.go:95-106 | set writes, default writes exactly where there is no value, delete removes; other fields stay |
| `FieldAnswers.TextChanges` | internal/workflow/transform.go:42-62 | trimmed, or changed letter by letter; absent and null fields stay |
| `FieldAnswers.SplitDivides` | internal/workflow/transform.go:63-82 | the trimmed parts of the text between the occurrences of the separator |
| `FieldAnswers.JoinUnites` | internal/workflow/transform.go:83-94 | the texts of the items with the separator in between |
| `FieldAnswers.RuleHoldsIff` | internal/workflow/transform.go:114-171 | a rule holds exactly if none of five breaches applies, and an empty value breaks only a rule that requires one |
| `FieldAnswers.ExtractionIff` | internal/workflow/records.go:62-75 | exactly the named fields with what was read for each, if all can be read |
| `FieldFlow.ValidateValues` | internal/workflow/transform.go:114-171 | accepted exactly if every rule holds; values unchanged |
| `FieldFlow.TraceRecordCandidates` | internal/workflow/records.go:28-95 | candidates come only from an accepted definition, and then all pages yield one or none is returned |
| `DocumentPages.SplitItems` | internal/workflow/records.go:35-61 | the path of a definition leads to an array of 1 to 1000 objects, or the document is refused |
| `DocumentPages.TraceDocument` | internal/workflow/records.go:28-95 | the candidates of a document are those of its pages, never more than a batch takes |
| `FieldFlow.ValidateRecordSchema` | internal/workflow/records.go:98-155 | accepted exactly if required and key fields are promised and no unknown one is |
| `FieldFlow.RuntimeNames` | internal/workflow/records.go:62-92 | whatever a page contains, a candidate reaching preparation has exactly the predicted names |
| `FieldFlow.AcceptedDefinitionsFit` | internal/workflow/records.go:98-155 | without self-renames accepted definitions deliver exactly the promised names: no unknown field, all key and required fields |
| `FieldFlow.RejectedDefinitionsNeverFit` | internal/workflow/records.go:130-154 | what the static check rejects would not yield a candidate on any page |
| `FieldFlow.NoUnknownField` | internal/workflow/records.go:143-147 | preparation never meets an unknown field, self-renames or not |
| `FieldFlow.StepsAgreeIff` | internal/workflow/transform.go:33-42 | one operation is followed correctly exactly if it does not rename a present field to itself |
| `FieldFlow.NamesFitIff` | internal/workflow/records.go:104-129 | promised and delivered names agree exactly if no self-renamed field is still missing |
| `FieldFlow.SelfRenameLosesTheKey` | internal/workflow/transform.go:39-42 | an accepted definition that yields no candidate on any page |
| `RecordAnswers.BatchIff` | internal/repo/record_repo/records.go:60-89 | a batch is saved exactly if it has 1 to 1000 candidates of one dataset that can be saved in turn, each on what the one before left; otherwise nothing changes |
| `RecordStore.Store.Save` | internal/repo/record_repo/records.go:91-276 | one candidate is saved, answered from its earlier observation, or refused without a trace |
| `RecordStore.Store.SaveBatch` | internal/repo/record_repo/records.go:60-89 | all candidates of one dataset or, after a rollback, none |
| `RecordAnswers.AnswerIff` | internal/repo/record_repo/records.go:112-187 | exactly when a request is refused, invalid or a conflict |
| `RecordAnswers.AnsweredEarlier` | internal/repo/record_repo/records.go:164-187 | a request whose key was used is answered from the earlier observation and writes nothing |
| `RecordAnswers.SavedRowsAre` | internal/repo/record_repo/records.go:188-275 | the record, observation and revision that a saved request leaves, and its decision, by whether the record existed and whether a value changed |
| `RecordAnswers.SameRecordIffSameParts` | internal/repo/record_repo/records.go:188-210 | whatever is saved in between, two saved requests lead to one record exactly if their candidates agree in every key field, with the same exception |
| `RecordLog.RevisionsRebuildRecords` | internal/repo/record_repo/records.go:204-275 | in every history revisions lead from the empty object to the stored values, one for each changing observation, naming the changed fields |
| `RecordLog.BatchHappensOnce` | internal/repo/record_repo/records.go:157-187 | a committed keyed batch sent again after any other writes writes nothing and reports the same outcome |
| `RecordLog.ReplayIsIdleIffKeyed` | internal/repo/record_repo/records.go:164-165 | a request sent twice is idle the second time exactly if its key is not blank |
| `RecordLog.ConflictIffKeyReused` | internal/repo/record_repo/records.go:164-187 | a conflict exactly if the key was used for another candidate; it changes nothing |
| `RecordTask.PersistRecords` | internal/workflow/worker.go:475-512 | the candidates of a task are saved as one batch keyed by task and item |
| `RecordTask.KeysTellTasks` | internal/workflow/worker.go:475-512 | no two items of all tasks share a key |
| `RecordTask.RecordsTaskHappensOnce` | internal/workflow/worker.go:475-512 | a records task executed again after its commit writes nothing and reports the same |
| `RecordTask.FreshTaskIsSaved` | internal/workflow/worker.go:475-512 | the first execution saves every traced candidate under its own key, if saving prepares it as it was traced; only magnet datasets may do otherwise |
| `Preview.PreviewBatch` | internal/repo/record_repo/preview.go:25-77 | the dry run plays the batch on a copy and changes nothing |
| `Preview.PreviewForetellsSave` | internal/repo/record_repo/preview.go:22-77 | for fresh keys and candidates that saving does not rewrite, saving succeeds exactly if all are usable, with the same decision, key and changes at each index |
| `Preview.AlikeIffInCapitals` | internal/repo/record_repo/records.go:139-152 | saving prepares a usable candidate of a magnet dataset like the dry run exactly if its key is in capitals |
| `Preview.MagnetForecastIff` | internal/repo/record_repo/records.go:139-152 | for usable candidates of a magnet dataset saving does what was foretold exactly if all keys are in capitals, given that stored keys tell a key from its form in capitals |
| `Preview.ShortKeysAreTold` | internal/record/model.go:84-104 | which they do for every key of at most 512 characters |
| `Preview.MagnetsAreForetoldWrongly` | internal/repo/record_repo/records.go:139-152 | a batch of which the dry run foretells a new record where saving finds an old one |
| `Preview.PreviewIdempotency` | internal/repo/record_repo/preview.go:79-101 | the check before saving under a key: free, in conflict with what was saved under it, too long, or the candidate unusable |
| `Preview.ConflictIsForetold` | internal/repo/record_repo/preview.go:79-101 | when a conflict is announced exactly if saving under the key is one: if saving prepares alike or the key is unused, otherwise by what was observed |
| `Preview.MagnetConflictIff` | internal/repo/record_repo/preview.go:79-101 | for a used key and a candidate whose record key is not in capitals, check and saving agree exactly if neither of its two forms is what the key was used for |
| `Preview.ResendIsMisannouncedIff` | internal/repo/record_repo/preview.go:79-101 | a saved request sent again at any later time is answered once more and writes nothing, while the check announces a conflict exactly if the record key is not in capitals |
| `Preview.OrdinaryConflictIsForetold` | internal/repo/record_repo/preview.go:79-101 | for datasets other than magnet ones announced exactly if it is one |
| `JsonPath.ParseInvertsSpell` | internal/workflow/capabilities.go:21 | the supported paths are the spellings of step sequences, each of exactly one |
| `JsonPath.JsonPathValue` | internal/workflow/extract.go:212-253 | evaluation by rewriting follows the spelled steps; a path is rejected exactly if it spells none |
| `JsonPath.FollowParts` | internal/workflow/extract.go:229-251 | members by text, list elements by number, nothing after a miss |
| `ScheduleStore.Scheduler.SaveSchedule` | internal/repo/workflow_repo/schedules.go:73-127 | an edit replaces the schedule and gives up its pending ticks, or is refused |
| `ScheduleAnswers.EditIff` | internal/repo/workflow_repo/schedules.go:73-127 | exactly when an edit is accepted; afterwards the schedule has the requested expression, zone, policy and switch and the calendar's next time, keeps its last tick, and no other schedule changes |
| `ScheduleAnswers.ScheduleIsItsLastEdit` | internal/repo/workflow_repo/schedules.go:110-114 | in every history a workflow has a schedule exactly if an edit was accepted, and it is that of the last one, off if a stop came later |
| `ScheduleAnswers.SkippingWasAskedFor` | internal/repo/workflow_repo/schedules.go:200-201 | whenever a tick is skipped beside an active run, the last accepted edit asked for that policy |
| `ScheduleAnswers.StopIff` | internal/repo/workflow_repo/workflows.go:327-356 | a stop turns workflow and schedule off, gives up waiting ticks and leaves the settings |
| `ScheduleAnswers.EligibleIff` | internal/repo/workflow_repo/schedules.go:149-154 | a dispatcher takes up exactly an enabled schedule with a due tick, or with a waiting one that can be decided |
| `ScheduleAnswers.DueTickIsTaken` | internal/repo/workflow_repo/schedules.go:167-187 | a due tick is put on record once and the schedule goes on to the first time after both it and now, or nothing happens |
| `ScheduleAnswers.DecisionIff` | internal/repo/workflow_repo/schedules.go:189-217 | what becomes of the oldest waiting tick, one condition for each status, and that nothing else changes |
| `ScheduleAnswers.FirstInLine` | internal/repo/workflow_repo/schedules.go:149-154 | the schedule with the earlier next time comes first, then the lower id |
| `ScheduleStore.Scheduler.Stop` | internal/repo/workflow_repo/workflows.go:327-356 | a stop turns workflow and schedule off and gives up pending ticks |
| `ScheduleStore.Scheduler.DispatchTick` | internal/repo/workflow_repo/schedules.go:143-227 | the first eligible schedule takes its due tick and decides its oldest pending one; without one nothing changes |
| `ScheduleRuns.TicksHappenOnceAndInOrder` | internal/repo/workflow_repo/schedules.go:183-206 | each tick of a workflow is one event and earlier events are decided first |
| `ScheduleRuns.DecisionsAreFinal` | internal/repo/workflow_repo/schedules.go:200-217 | an event leaves pending once and stays what it became |
| `ScheduleRuns.StartedTicksAreScheduledRuns` | internal/repo/workflow_repo/schedules.go:208-217 | started events and cron runs correspond one to one |
| `ScheduleRuns.ScheduledRunsStartAlone` | internal/repo/workflow_repo/schedules.go:189-217 | a cron run is created only while its workflow has no active run |
| `ScheduleRuns.NothingLingers` | internal/repo/workflow_repo/schedules.go:206-208 | only an enabled queueing schedule keeps ticks pending between transactions |
| `ScheduleStore.EndedScheduleBlocksTheLine` | internal/repo/workflow_repo/schedules.go:149-178 | a due schedule without a later time that stands first in line keeps every other one from being dispatched |
| `ScheduleRuns.WaitingTickIsServed` | internal/repo/workflow_repo/schedules.go:149-217 | a pending tick makes its schedule eligible once no run is active; a dispatch then starts or fails the oldest one exactly if a due schedule has a later time, and otherwise changes nothing |
| `ScheduleRuns.EndedCalendarHoldsTicks` | internal/repo/workflow_repo/schedules.go:173-178 | the events of a due schedule without a later time stay as they are until an edit or a stop: its due tick is not recorded, ticks that wait are not decided |
| `ScheduleRuns.AWaitingTickIsNeverServed` | internal/repo/workflow_repo/schedules.go:173-178 | a run of the scheduler in which a tick waits like that although nothing is active |
| `ScheduleRuns.TickIsSkippedIff` | internal/repo/workflow_repo/schedules.go:119-217 | a step skips a pending tick exactly if it is an edit or a stop of its workflow that goes through, or a dispatch that meets it first beside an active run while the schedule says skip |
| `ScheduleRuns.QueuedTicksAreSkippedOnlyOnRequest` | internal/repo/workflow_repo/schedules.go:119-217 | in every history each skipped tick was skipped for one of these two reasons, so by an edit or a stop while the schedule says queue |
| `ScheduleRuns.TicksAscend` | internal/repo/workflow_repo/schedules.go:171-187 | with agreeing clocks ticks are recorded in the order of their times and none is met twice |
| `ScheduleRuns.OneCatchUpTick` | internal/repo/workflow_repo/schedules.go:173-187 | however many ticks were missed and however often dispatchers look at one moment, a workflow gets at most one new tick, and its next one then lies ahead |

## Left out

- Database mechanics: SQL, row locks and isolation are one atomic step per transaction; database errors and lost connections are crashes.
- `StartAttempt` and the in-memory crawler engine, which do not interrupt an earlier attempt; the ownership invariant is for claimed tasks.
- Resource-backed magnet workflows and the `discover` and `script` nodes; the mapping of legacy resources to records and observations.
- The plugin queue and worker, whose updates carry no attempt fence.
- Fetching, browsers, and HTML, CSS and XPath extraction: a field rule yields a value for its field as a function of the page.
- JSON text, address parsing, time and cron syntax, hashing and encoding are parameters; the hash of a record is taken to be injective where the dry run compares hashes.
- `RecordModel.PrepareCandidate`: does not model a missing (nil) candidate map; one exact kind of number stands for integers, floats and number texts, without their limits; key lengths count characters, not bytes.
- `RecordAnswers.KeysTellCandidates`: takes the encoding of several key fields and the hash of a long key to be injective.
- `FieldFlow.TraceRecordCandidates`: takes the pages of a document as given, which `DocumentPages.TraceDocument` supplies, and does not keep the step snapshots.
- `FieldFlow.ValidateRecordSchema`: starts after the checks that the definition can be executed and persists records.
- `CrawlPolicy.Validate`: whether an address built from a string has it as its hostname and nothing else is a parameter.
- Letter case is changed for ASCII letters only; other scripts are left as they are.
- `TaskStore.Store.StartRun`: takes the validated budget and the root input as arguments; the definition they come from is not modelled. Runs without a budget snapshot, which older versions left, get none later.
- `Listing.ExpandListing`: ends before the worker completes its own task, and nothing else happens inside one execution of it; `ListWorkers` takes the same loop apart into steps.
- `ListingReplay.NewDetailsAreMine`: counts for one loop on the graph of a run; `ListCounts.CountsAreDetails` is the statement among other writers.
- `ListingRecovery.FinishedPageIsNotRepeated`: its bystanders create nothing in the run; `ListFinished.FinishedPageCreatesNothing` admits any steps at all but does not compare answers and limits, since a refusal may change its reason with time.
- `ListWorkers.ListPagesFormOnePath`: takes the links of a page as a function of its stored document, and children and list documents of the run as coming from workers on its list pages only; completing and failing tasks are steps of the other processes.
- Timestamps for display, error texts, the JSON of run summaries, coverage and metrics.
- Maintaining a lease in the background and polling: renewals, sweeps and dispatches are steps that may happen at any time.
- `FetchForRole`, `nextSchedule`, listing and detail queries of the repositories: easy members.
- Publication itself: definitions reach the model as already executable; validation of nodes beyond the path grammar is not modelled.
