# Open Prospector: a verified model

Open Prospector finds local businesses whose websites could be better. A run asks for businesses,
takes each one through a graph of stages (planning, discovery, corroboration, inspection, absence
confirmation, assessment, scoring) and puts the best candidates in a review queue. The stages are tasks in a
database table. Any number of workers claim them under leases, while the user pauses, resumes and
cancels runs from the web process.

This project models that system in Dafny and proves what it relies on.

- **The durable task queue.** `RunTables`, `Settlement` and `Transactions` describe the tables and what each
  transaction makes of them. `RunStore` holds the transactions as they run, row by row, each proved
  equal to that description. `RunInvariant` is what every transaction keeps, `QueueLaws` what each
  does on the rows, `Histories` every interleaving of transactions, `QueueTheorems` what holds in all of
  them, `CancelledRuns` and `CancelWitnesses` what a cancelled run is left with.
- **The stage graph.** `StageGraph` is the successor choice of every stage, `Budget` the bound it puts on a
  whole run, `Worker` the drain loop and what it leaves.
- **Reports.** `ReportSections` cuts a report into sections by the business names in it, `Attribution` keeps
  of a structured report only what the report supports, `KeptClaims` says exactly what that is and why
  the rest is rejected, `SectionNumbers` looks at numbers written across slices, `Discovery` and `DiscoverBusinesses`
  record it, `DiscoveryLaws` says what a report adds. `DiscoveryAttempts` interleaves
  attempts at one search, `SearchedRuns` puts their bound on the whole run.
- **Bookkeeping.** `BusinessIdentity` and `Identity` decide which listings are one business and which one
  is live, `IdentityKeys` by what they are known, `IdentityLaws` what a commit writes, `IdentityHistories` what all
  the writes to those tables keep; `OpportunityScore`, `Suppression`, `SuppressionLaws` and `Assessment` are about what
  enters the review queue; `CandidateExport` and `Pagination` are the CSV printer and the page window. `Text` and `Sets` hold what
  several of them use.

Each table is a map or a list, each database transaction one atomic step. Clocks, lease owners, new identifiers
and everything a stage's services return are arbitrary parameters. The fence is the owner text, which is one per
worker process, so a history may hold a completion that arrives long after its lease was lost, and two
slots of one process may hold the same task one after the other.

`dafny verify dfyconfig.toml` checks everything.

Where the code does not do what one might expect of it, the model follows the code and states exactly when
the expectation is met:

- A Cancelled run may hold a Pending task: `CancelledRuns.LastRelease` and `CancelledRuns.WaitingUnderCancel`, with
  the reachable cases of `CancelWitnesses`. `QueueTheorems.CancelIsEffective` shows such a task is never claimed
  until another control request.
- Overlapping attempts can take a search past its target plus 39: `DiscoveryAttempts.GuardIsExact`, with
  `DiscoveryAttempts.OverlapPassesTarget` and the bound `DiscoveryAttempts.OverlapBound` that always holds.
- A business may be left without a live listing: `Identity.WhenLive` and `Identity.WhenLiveIsLost`, with three
  histories in `IdentityWitnesses`.
- The stored exclusions may be wrong: `IdentityHistories.WhenExclusionsAreRecounted`, with
  `IdentityWitnesses.InspectionMiscounts`.
- Suppressing and lifting may not restore a workspace: `Suppression.SuppressThenLift`; the count of qualified
  candidates may be wrong after it: `Suppression.SuppressionLeavesTheCount`; both with an input in
  `SuppressionWitnesses`.
- Different exports may be the same text: `CandidateExport.WhenExportsCollide`, with `CandidateExport.GuardedNamesCollide`.
- One recover may leave a pausing run behind: the last clause of `QueueTheorems.SelfRepair`, with
  `QueueTheorems.PausingIsMissed`.
- Two businesses may be listed as one: `DiscoveryLaws.KeysTell`, with `DiscoveryLaws.BarredNamesCollide`.
- A telephone may be read across two slices of a section: `SectionNumbers.WhenNumbersStayWhole`, with
  `SectionNumbers.SlicesMakeNumber`.

## Model

| member | source | states |
|---|---|---|
| RunStore.RunTaskRepository.CreateRun | drizzle/0003_durable_run_tasks.sql:57-66 | a new run starts with exactly one Pending RunPlanning task, no control and no completion; nothing else changes |
| RunStore.RunTaskRepository.SelectNext | src/features/run-execution/infrastructure/sqlite-run-task-repository.ts:171-184 | picks a task exactly when some task meets every condition of the claim query, and then the oldest one, ties by identifier |
| RunStore.RunTaskRepository.ClaimNext | src/features/run-execution/infrastructure/sqlite-run-task-repository.ts:170-221 | leases the picked task to the caller until now plus the lease, counts one attempt, starts the run, and hands out a snapshot of the row; without a claimable task nothing changes |
| RunStore.RunTaskRepository.RenewLease | src/features/run-execution/infrastructure/sqlite-run-task-repository.ts:45-54 | moves the expiry of a lease the caller still holds, and otherwise reports false and changes nothing |
| RunStore.RunTaskRepository.ReconcileRun | src/features/run-execution/infrastructure/sqlite-run-task-repository.ts:354-445 | settles the run from one reading of all its tasks, and touches no task and no other run |
| RunStore.RunTaskRepository.Complete | src/features/run-execution/infrastructure/sqlite-run-task-repository.ts:223-294 | for the lease owner: the checkpointed task, its successors (none under Cancel) and the run's settlement in one step; for anyone else no change |
| RunStore.RunTaskRepository.Fail | src/features/run-execution/infrastructure/sqlite-run-task-repository.ts:296-330 | for the lease owner: retry, block or fail by classification and attempts, then settlement; for anyone else no change |
| RunStore.RunTaskRepository.Recover | src/features/run-execution/infrastructure/sqlite-run-task-repository.ts:75-168 | the five passes of recover, looping over rows as they are found, add up to one change per run and per task that is stated run by run; it returns how many tasks were abandoned and a stage of each exhausted run |
| RunStore.RunTaskRepository.RecoverAbandoned | src/features/run-execution/infrastructure/sqlite-run-task-repository.ts:75-131 | every task with an expired lease goes back to Pending, or fails for good if its attempts are used up, as does a Pending task without attempts left; no other row changes, and each run with an exhausted task is recorded with a stage of one such task |
| RunStore.RunTaskRepository.RequestControl | src/features/run-monitoring/infrastructure/sqlite-run-monitoring.ts:294-313 | pause, resume and cancel are accepted exactly for runs that are not settled, and change that run and its own tasks only |
| RunStore.RunTaskRepository.RecordQualified | src/features/review-queue/infrastructure/score-candidate.ts:108-124 | scoring rewrites its run's two metrics that settlement reads, and nothing else |
| RunStore.RecoverByPhases | src/features/run-execution/infrastructure/sqlite-run-task-repository.ts:84-167 | the passes of recover, one after another over the whole tables, equal the run-by-run account of it |
| QueueLaws.CreateLaw | drizzle/0003_durable_run_tasks.sql:57-66 | a new run has one task, RunPlanning, Pending, unclaimed, due at once and with three attempts, and no other task or run changes |
| QueueLaws.ClaimLaw | src/features/run-execution/infrastructure/sqlite-run-task-repository.ts:170-221 | a claim takes the oldest task that is Pending, due, has attempts to spare and belongs to a run nobody asked to stop that is not over, changes only its lease, its attempt count and its run's state and stage, and finds nothing exactly when there is no such task |
| QueueLaws.RenewLaw | src/features/run-execution/infrastructure/sqlite-run-task-repository.ts:45-54 | a renewal moves the expiry of a lease still held and nothing else |
| QueueLaws.CompleteLaw | src/features/run-execution/infrastructure/sqlite-run-task-repository.ts:223-257 | a held task becomes Completed, without lease or failure; unless the run is under Cancel its successors appear Pending, unclaimed, due at once and with three attempts; nothing else changes but the run |
| QueueLaws.FailLaw | src/features/run-execution/infrastructure/sqlite-run-task-repository.ts:296-330 | a held task that fails becomes Pending, a quarter of a second later, exactly when the failure is transient and attempts are left, Blocked exactly when the runtime is blocked, Cancelled exactly when it was withdrawn, and FailedPermanent otherwise; it keeps the failure and loses the lease |
| QueueLaws.StaleLaw | src/features/run-execution/infrastructure/sqlite-run-task-repository.ts:231-238 | a completion or failure by a worker without the lease changes nothing |
| QueueLaws.RecoverRowLaw | src/features/run-execution/infrastructure/sqlite-run-task-repository.ts:84-150 | after recover a row whose lease ran out, or that waits with no attempt left, is FailedPermanent exactly with its attempts used up, else Cancelled exactly where the run is under Cancel and loses its last leases, else Pending; any other row is as it was, or withdrawn in such a run |
| QueueLaws.RecoverRunLaw | src/features/run-execution/infrastructure/sqlite-run-task-repository.ts:75-168 | recover leaves a run at rest as it was unless an attempt is used up or a target is wrongly reported, leaves a run under way alone while it has open work, pauses a Pausing run exactly when its last lease is gone, and cancels a Cancelling one exactly when none of its leases still holds |
| QueueLaws.RecoverReopens | src/features/run-execution/infrastructure/sqlite-run-task-repository.ts:152-165 | from any tables, a completed run that gets leases back runs again |
| QueueLaws.ControlLaw | src/features/run-monitoring/infrastructure/sqlite-run-monitoring.ts:294-468 | pause, resume and cancel each rewrite exactly these columns of the run and exactly these rows of its tasks; a resume makes Blocked tasks Pending and due, a cancel withdraws Pending and Blocked ones |
| QueueLaws.LastWorkReports | src/features/run-execution/infrastructure/sqlite-run-task-repository.ts:354-445 | whatever releases the last open task of a run nobody cancelled, the run then reports each outcome exactly when its rows show it: Infrastructure Failed with a run-level infrastructure failure; else Runtime Unavailable with a Blocked row; else Cancelled with a Cancelled row; else Completed with Warnings with a FailedPermanent row; and with every row Completed, Reassessment Complete, Target Reached or Search Exhausted by the brief and the target |
| QueueLaws.EmptySearchReports | src/features/run-execution/infrastructure/sqlite-run-task-repository.ts:268-291 | an empty search that leaves nothing open ends its run as Search Exhausted, whatever the other rows |
| QueueLaws.OpenWorkGoesOn | src/features/run-execution/infrastructure/sqlite-run-task-repository.ts:354-383 | while a task of the run is open a commit or failure leaves the run's row as it is, unless it released the last lease of a run being paused or cancelled |
| QueueLaws.ResumeReports | src/features/run-monitoring/infrastructure/sqlite-run-monitoring.ts:420-440 | a resume with nothing to wait for reports what the rows show as well |
| QueueLaws.BlockedRunResumes | src/features/run-monitoring/infrastructure/sqlite-run-monitoring.ts:412-449 | in every history, a run whose last open task the runtime blocks is Paused with Runtime Unavailable, and a resume makes that task claimable exactly if it has an attempt left |
| RunInvariant.SettleAgrees | src/features/run-execution/infrastructure/sqlite-run-task-repository.ts:354-445 | settlement turns a state in which a lease was just released into one where state, control, completion and tasks agree again |
| RunInvariant.CreateKeeps | drizzle/0003_durable_run_tasks.sql:57-66 | creating a run keeps the invariant |
| RunInvariant.ClaimKeeps | src/features/run-execution/infrastructure/sqlite-run-task-repository.ts:170-221 | claiming keeps it: leased tasks only in Running, Pausing or Cancelling runs, Pausing and Cancelling always with a lease and their control, finished runs with no open task |
| RunInvariant.RenewKeeps | src/features/run-execution/infrastructure/sqlite-run-task-repository.ts:45-54 | renewing keeps it |
| RunInvariant.CommitKeeps | src/features/run-execution/infrastructure/sqlite-run-task-repository.ts:223-294 | completing keeps it, whatever the checkpoint inserts or declares |
| RunInvariant.FailKeeps | src/features/run-execution/infrastructure/sqlite-run-task-repository.ts:296-330 | failing keeps it, for every classification |
| RunInvariant.RecoverKeeps | src/features/run-execution/infrastructure/sqlite-run-task-repository.ts:75-168 | recovering keeps it at any clock reading |
| RunInvariant.RequestKeeps | src/features/run-monitoring/infrastructure/sqlite-run-monitoring.ts:294-468 | pause, resume and cancel keep it, also when they follow one another while leases are still out |
| Histories.StepRow | src/features/run-execution/infrastructure/sqlite-run-task-repository.ts:75-352 | the complete list of what any transaction may do to an existing row; its identity columns never change |
| Histories.StepBirth | src/features/run-execution/infrastructure/sqlite-run-task-repository.ts:249-257 | a row appears only as a run's root or by the commit of a held task of the same run, Pending and unclaimed, and never while the run is under Cancel |
| Histories.Reachable | src/features/run-execution/infrastructure/sqlite-run-task-repository.ts:75-445 | the invariant holds after every interleaving of all transactions by any owners at any times, and a handed-out snapshot stays true to its row |
| QueueTheorems.LeaseIsExclusive | src/features/run-execution/infrastructure/sqlite-run-task-repository.ts:84-131 | a leased row is touched only by its owner or by a recover past its expiry |
| QueueTheorems.AttemptsAreClaims | src/features/run-execution/infrastructure/sqlite-run-task-repository.ts:186-193 | in every history the attempt count of a task is the number of claims made of it and never exceeds its maximum |
| QueueTheorems.CommitsOnce | src/features/run-execution/infrastructure/sqlite-run-task-repository.ts:230-257 | in every history a task has committed exactly once if it is Completed, and never otherwise |
| QueueTheorems.TerminalRowsStay | src/features/run-execution/infrastructure/sqlite-run-task-repository.ts:84-131 | no transaction of the queue or of run control deletes a task, and a Completed, FailedPermanent or Cancelled row never changes again |
| QueueTheorems.Parentage | src/features/run-execution/infrastructure/sqlite-run-task-repository.ts:249-257 | every task is its run's root or was inserted by a commit of a task of the same run that is Completed from then on |
| QueueTheorems.BornOnce | src/features/run-execution/infrastructure/sqlite-run-task-repository.ts:332-352 | it is inserted only once, so that parent is unique |
| QueueTheorems.SettledRunsStay | src/features/run-execution/infrastructure/sqlite-run-task-repository.ts:354-445 | a completed or cancelled run stays so in every continuation; only a wrongly reported target is restated |
| QueueTheorems.ReopeningIsUnreachable | src/features/run-execution/infrastructure/sqlite-run-task-repository.ts:152-165 | the branch of recover that reopens a completed run is never taken from a reachable state |
| QueueTheorems.SelfRepair | src/features/run-execution/infrastructure/sqlite-run-task-repository.ts:132-165 | from arbitrary tables one recover leaves no completed run with open work, no target reported against its metrics, no Cancelling run without a lease; the one state it misses is named exactly |
| QueueTheorems.PausingIsMissed | src/features/run-execution/infrastructure/sqlite-run-task-repository.ts:132-150 | tables with a run in that state, which recover leaves as it is |
| QueueTheorems.NeverStranded | src/features/run-execution/infrastructure/sqlite-run-task-repository.ts:84-182 | after a recover past all its deadlines every run is settled or paused, or has a task the claim query accepts at once |
| QueueTheorems.CancelIsEffective | src/features/run-monitoring/infrastructure/sqlite-run-monitoring.ts:451-468 | after Cancel and until another control request nothing of the run is claimed or inserted, no lease appears, and it is Cancelled exactly when its last lease is gone |
| CancelledRuns.PendingStep | src/features/run-execution/infrastructure/sqlite-run-task-repository.ts:84-150 | while a run is under Cancel, whether it holds a Pending task after a step, and one with attempts to spare, is exactly what the state before and the step say: a retried failure adds one, a recover keeps or returns those with attempts left unless it finds the last leases lapsed and none exhausted, nothing else changes it |
| CancelledRuns.LastRelease | src/features/run-execution/infrastructure/sqlite-run-task-repository.ts:230-330 | the step that releases the last lease is a completion, a failure or a recover, and leaves a Pending task exactly when one waited before, when the failure is retried, or when the recover finds an exhausted task beside one it returns |
| CancelledRuns.CancelledRunHoldsPending | src/features/run-execution/infrastructure/sqlite-run-task-repository.ts:354-406 | so in every history the run is then Cancelled, holds a Pending task exactly in those cases, and none of its tasks can be claimed |
| CancelledRuns.RequestLeavesNone | src/features/run-monitoring/infrastructure/sqlite-run-monitoring.ts:451-468 | a cancel request leaves nothing of the run Pending |
| CancelledRuns.WaitingUnderCancel | src/features/run-execution/infrastructure/sqlite-run-task-repository.ts:84-150 | from then until another control request a task is Pending exactly when some failure was retried or some recover returned a lease, and no recover since has swept the run or, where no attempt was left, run at all |
| CancelWitnesses.EarlierRetry | src/features/run-execution/infrastructure/sqlite-run-task-repository.ts:296-330 | a reachable Cancelled run with a Pending task whose last lease was released by a commit, and one where by a permanent failure |
| CancelWitnesses.RecoverAlone | src/features/run-execution/infrastructure/sqlite-run-task-repository.ts:84-150 | a reachable Cancelled run with a Pending task although nothing failed after the request: one recover exhausts one task and returns the other |
| QueueTheorems.PauseIsEffective | src/features/run-monitoring/infrastructure/sqlite-run-monitoring.ts:399-410 | after Pause and until another control request nothing is claimed, the run is Pausing exactly while a lease is out, and then Paused or settled |
| QueueTheorems.CompletionIffAtRest | src/features/run-execution/infrastructure/sqlite-run-task-repository.ts:384-445 | a completion is recorded exactly in completed, cancelled and paused runs, in every reachable state |
| QueueTheorems.SuccessMeansAllCompleted | src/features/run-execution/infrastructure/sqlite-run-task-repository.ts:268-291 | once Target Reached or Reassessment Complete is reported, every task of the run is Completed and none is ever added |
| StageGraph.SuccessorRank | src/features/business-identity/application/confirm-absent-website.ts:33-118 | past the fan-out every stage returns at most one successor, for the same business, of strictly smaller rank, whatever the services find |
| StageGraph.CycleIsBroken | src/features/business-identity/application/confirm-absent-website.ts:33-138 | whatever is found, one business is inspected at most twice, confirmed at most twice and needs at most seven tasks, because of the absence flag |
| StageGraph.CycleIsEnteredTwice | src/features/website-inspection/application/inspect-website.ts:59-73 | those bounds are met by an actual path |
| StageGraph.InspectedIsScored | src/features/website-assessment/application/assess-website.ts:53-64 | short of an error every business found eligible for inspection is scored, and scored once |
| StageGraph.WhereABusinessGoes | src/features/run-execution/infrastructure/stage-executor-live.ts:41-48 | on every journey, with what each stage found: planning goes to SeedReassessment exactly when the brief names businesses; an inspection to ConfirmAbsentWebsite exactly when it found no website and else to assessment; a confirmation back to inspection exactly when a website was found, fewer than two sources corroborate and absence was not confirmed before; the business and the absence flag are handed on |
| StageGraph.AbsenceIsConfirmed | src/features/business-identity/application/confirm-absent-website.ts:33-118 | no site an inspection found absent is assessed next, and after its confirmation exactly when no website was found, two sources corroborate, or absence was confirmed before |
| StageGraph.FanOutIsComplete | src/features/business-discovery/application/seed-reassessment.ts:39-63 | the fan-out hands on one corroboration for each business in order; with none a search is exhausted and a reassessment fails |
| StageGraph.OnlySearchesExhaust | src/features/business-discovery/application/discover-businesses.ts:120-130 | errors keep their classification, and only a search without businesses declares itself exhausted |
| Budget.CommitSpends | src/features/run-execution/infrastructure/stage-executor-live.ts:21-48 | a commit replaces a row's remaining work by no more than that, its own task included |
| Budget.PotentialNeverRises | src/features/run-execution/infrastructure/sqlite-run-task-repository.ts:332-352 | no transaction raises the work still ahead of a run, or of all runs, except creating a run |
| Budget.RunIsBounded | src/features/business-identity/application/corroborate-business.ts:86-101 | a run with N businesses fanned out never has more than 2 + 7N tasks nor more than 3(2 + 7N) claims, under any failures, recoveries, pauses and resumes |
| Budget.RunIsBoundedByCap | src/features/run-execution/infrastructure/sqlite-run-task-repository.ts:332-352 | where the run fans out to no more than a cap, it has at most 2 + 7 times the cap tasks and three claims for each |
| SearchedRuns.SearchFinds | src/features/business-discovery/application/discover-businesses.ts:63-132 | three attempts at a search find at most its target plus 119 businesses, and at most forty for each planned query |
| SearchedRuns.SearchedRunIsBounded | src/features/business-discovery/application/discover-businesses.ts:98-121 | a searched run, whose fan-out lists the progress its attempts had made, therefore has a number of tasks and claims fixed by its target and plan, under any failures, recoveries, control and stale attempts |
| SearchedRuns.SearchesAreSmall | src/features/business-discovery/application/discover-businesses.ts:19-39 | so at most 1122 tasks, or 562 in quick mode |
| Budget.ClaimsLeftStep | src/features/run-execution/infrastructure/sqlite-run-task-repository.ts:186-193 | every claim uses up one of a number of claims that nothing else raises and that never goes below zero |
| Budget.ClaimsRunOut | src/features/run-execution/application/worker.ts:33-48 | however the slots of any workers interleave they make no more claims than were left, so each drain loop comes to an empty claim |
| Worker.ExecuteClaimedTask | src/features/run-execution/application/worker.ts:86-121 | a claimed task is handed back once: completed with the checkpoint its stage returned, or failed with the classification of the error it raised |
| Worker.RunWorkerCycle | src/features/run-execution/application/worker.ts:27-56 | one slot recovers, then claims and hands back in turn until a claim finds nothing, each as the transactions say; it terminates, keeps the invariant and claims no more than was left |
| Worker.SlotLeavesNothing | src/features/run-execution/application/worker.ts:33-48 | it ends with nothing to claim, and every lease there is then is one it found: nothing it claimed is left leased |
| ReportSections.NameBoundaries | src/features/business-discovery/domain/discovery-structure.ts:235-262 | the nested scan, the sort and the greedy pass compute the boundaries the next rows are about |
| ReportSections.ScanIsLeftmost | src/features/business-discovery/domain/discovery-structure.ts:243-250 | the marks of a name are its leftmost occurrences that do not overlap |
| ReportSections.ScanMissesNone | src/features/business-discovery/domain/discovery-structure.ts:243-253 | every occurrence of a name starts inside some mark of that name |
| ReportSections.SortIsStable | src/features/business-discovery/domain/discovery-structure.ts:256 | marks that compare equal keep the order they were scanned in |
| ReportSections.BoundariesAreSound | src/features/business-discovery/domain/discovery-structure.ts:255-262 | boundaries are true occurrences, strictly increasing and disjoint; among the marks at one start the longest is kept, and among equal ones the name given first |
| ReportSections.BoundariesMissNone | src/features/business-discovery/domain/discovery-structure.ts:255-262 | every occurrence of a name starts in a scanned mark, and every scanned mark is kept or starts inside a kept one |
| ReportSections.SlicesCover | src/features/business-discovery/domain/discovery-structure.ts:218-231 | the slices, in order, concatenate to exactly the report from the first boundary on |
| ReportSections.SliceBeginsWithName | src/features/business-discovery/domain/discovery-structure.ts:218-231 | each slice begins with an occurrence of its own name |
| ReportSections.PartsExist | src/features/business-discovery/domain/discovery-structure.ts:223-230 | a name has a section exactly when it has a boundary |
| ReportSections.PartsAreOwn | src/features/business-discovery/domain/discovery-structure.ts:223-230 | every part of a section is a slice that starts at a boundary of that name |
| ReportSections.GatherChunks | src/features/business-discovery/domain/discovery-structure.ts:223-230 | the map built boundary by boundary holds for each name its slices in report order, and no other name |
| Attribution.DigitRuns | src/features/business-discovery/domain/discovery-structure.ts:272-278 | the greedy scanner finds exactly the digits of the unbroken stretches that hold two or more of them |
| Attribution.BusinessSections | src/features/business-discovery/domain/discovery-structure.ts:218-232 | each business's section is its slices joined, and a business without a boundary has none |
| Attribution.VerifyAgainstReport | src/features/business-discovery/domain/discovery-structure.ts:133-196 | the loops return the kept businesses and the rejections the next rows are about, in order |
| Attribution.UrlsAreInReport | src/features/business-discovery/domain/discovery-structure.ts:143-178 | every URL kept is public and canonically equal to a URL of the report, and a business is kept only with such a source |
| Attribution.ContactsAreWitnessed | src/features/business-discovery/domain/discovery-structure.ts:180-190 | a kept telephone or email is shown by the business's own section, which also cites its source, or without a section by one paragraph citing that source and a verified source of the business; a kept Polish telephone is nine national digits with an assigned prefix |
| SectionNumbers.WhenNumbersStayWhole | src/features/business-discovery/domain/discovery-structure.ts:231-231 | where two slices of a section meet, every number read stays within one of them exactly when one side of the gap shows no digit, or what both make together is a number of one of them anyway |
| SectionNumbers.SectionKeepsNumbersWhole | src/features/business-discovery/domain/discovery-structure.ts:208-231 | the numbers of a section are exactly those of its single slices when no slice after the first opens with digits, as none does unless the business name does |
| SectionNumbers.TelephoneIsInOneSlice | src/features/business-discovery/domain/discovery-structure.ts:286-303 | then a kept telephone is written in one unbroken stretch of one slice of the report |
| SectionNumbers.SlicesMakeNumber | src/features/business-discovery/domain/discovery-structure.ts:231-231 | two slices that together show a number of nine digits neither of them holds |
| Attribution.FormsAreTheirSource | src/features/business-discovery/domain/discovery-structure.ts:280-305 | a kept form or profile is the cited address itself |
| Attribution.EveryClaimIsAccountedFor | src/features/business-discovery/domain/discovery-structure.ts:133-196 | every claim of a kept business is kept or rejected with a reason, and a business not kept has every source rejected |
| Attribution.VerifiedCameFrom | src/features/business-discovery/domain/discovery-structure.ts:143-196 | every kept business is a claimed one with its claims filtered |
| KeptClaims.VerificationIsExact | src/features/business-discovery/domain/discovery-structure.ts:133-196 | the verified structure is the claimed one with exactly the unsupported businesses and claims left out: a URL is kept if and only if it is public and canonically in the report, a form or profile if and only if it is its own source in the report, a telephone or email if and only if its source is in the report and a block beside it shows it |
| KeptClaims.RejectionsAreReasoned | src/features/business-discovery/domain/discovery-structure.ts:148-178 | every rejection names a claim of the business that is not kept, with the first reason it fails for |
| KeptClaims.NumbersMean | src/features/business-discovery/domain/discovery-structure.ts:271-278 | a text shows exactly the numbers of its unbroken stretches of number characters that come to two digits or more |
| KeptClaims.BlocksMean | src/features/business-discovery/domain/discovery-structure.ts:200-215 | the blocks of a report are its paragraphs that are not blank, trimmed, in lower case and with their numbers |
| KeptClaims.SectionMeans | src/features/business-discovery/domain/discovery-structure.ts:217-232 | a business with a slice of the report has one block, of its slices set apart by blank lines, and any other none |
| KeptClaims.TrimMeans | src/features/business-discovery/domain/discovery-structure.ts:208-209 | trimming takes the blanks off both ends of a text and nothing more |
| KeptClaims.NationalForms | src/features/business-discovery/domain/discovery-structure.ts:296-298 | a telephone has nine national digits exactly when it has nine digits, or eleven that open with the country code |
| Discovery.DiscoveryRepository.RecordReport | src/features/business-discovery/infrastructure/sqlite-discovery-repository.ts:63-269 | one transaction adds the query row, the new business rows with the next ranks and the counters, and returns the progress; a query already asked changes nothing |
| Discovery.ListingRanks | src/features/business-discovery/infrastructure/sqlite-discovery-repository.ts:101-190 | listing a report appends rows of its own run with the next ranks and new keys, and counts every one it adds or finds again |
| Discovery.RecordConserves | src/features/business-discovery/infrastructure/sqlite-discovery-repository.ts:63-289 | a report keeps metrics equal to query rows, business rows and summed duplicates, unique counts equal to rows, ranks exactly 1 to n, and extends the progress list at its end |
| Discovery.Conservation | src/features/business-discovery/infrastructure/sqlite-discovery-repository.ts:63-289 | so does every sequence of reports, repeats included |
| Discovery.RepeatChangesNothing | src/features/business-discovery/infrastructure/sqlite-discovery-repository.ts:68-90 | repeating a query, with whatever businesses, changes nothing |
| Discovery.ProgressInOrder | src/features/business-discovery/infrastructure/sqlite-discovery-repository.ts:282-289 | the progress list by rank is the order of discovery |
| DiscoveryLaws.RecordLaw | src/features/business-discovery/infrastructure/sqlite-discovery-repository.ts:63-268 | the first report on a query adds a row for exactly the businesses that have a public page, are not in the run and are not named earlier in the report, in order and ranked after the others; those with a page and no row of their own are its duplicates, and the query, the metrics and the result say so; another report on it adds nothing |
| DiscoveryLaws.KeysTell | src/features/business-discovery/infrastructure/sqlite-discovery-repository.ts:103-104 | two listings are taken for one exactly when they have one normalised name in one normalised place, or one name runs into the other's place over a vertical bar of its own; names without a bar are told apart, and so is one name in two places |
| DiscoveryLaws.BarredNamesCollide | src/features/business-discovery/infrastructure/sqlite-discovery-repository.ts:103-104 | two different businesses taken for one |
| DiscoveryLaws.PageMeans | src/features/business-discovery/infrastructure/sqlite-discovery-repository.ts:271-280 | a business is listed by its website's public form, else by the first source with one, and not at all without |
| Discovery.VerifiedAreListed | src/features/business-discovery/infrastructure/sqlite-discovery-repository.ts:271-280 | for a verified report new and duplicate businesses add up to all of them |
| DiscoverBusinesses.Discover | src/features/business-discovery/application/discover-businesses.ts:63-132 | the search loop with nobody beside it keeps those counts, extends the progress, stays below the target plus forty, ends with the target met, the early stop, or every planned query asked, and is one attempt of the model of attempts below |
| DiscoveryAttempts.OverlapBound | src/features/business-discovery/application/discover-businesses.ts:63-96 | however attempts overlap, they find fewer than forty businesses past the target for each attempt begun |
| DiscoveryAttempts.GuardKeepsTarget | src/features/business-discovery/application/discover-businesses.ts:71-96 | every interleaving in which whatever adds is recorded while the run holds fewer than its target stays below the target plus forty |
| DiscoveryAttempts.GuardIsExact | src/features/business-discovery/application/discover-businesses.ts:71-96 | with forty businesses left to find, every answer to an open query keeps that bound if and only if the run now holds fewer than its target |
| DiscoveryAttempts.OneAtATimeKeepsTarget | src/features/business-discovery/application/discover-businesses.ts:63-96 | any number of attempts, each begun after the one before is gone, keep it |
| DiscoveryAttempts.OverlapPassesTarget | src/features/business-discovery/application/discover-businesses.ts:71-96 | two attempts at a target of ten that find eighty: one skips a query the other completed without reading the progress again |
| DiscoveryAttempts.ReportsTell | src/features/business-discovery/infrastructure/sqlite-discovery-repository.ts:63-90 | an interleaving leaves in the tables exactly the reports it heard, each on a planned query |
| DiscoveryLaws.HearingLaw | src/features/business-discovery/application/discover-businesses.ts:100-105 | a report that adds a business sends the attempt on to the next query; one that adds none ends it exactly when the report heard before added none either |
| DiscoveryLaws.LookingLaw | src/features/business-discovery/application/discover-businesses.ts:63-69 | an attempt asks the next query of its plan that nobody completed, and ends exactly when it has read the target as met or the plan is at its end |
| DiscoverBusinesses.PlanIsTheFirstFew | src/features/business-discovery/application/discover-businesses.ts:27-38 | the plan is the first four different variations in the order made, two in quick mode, or all when there are fewer |
| DiscoverBusinesses.FanOutIsBounded | src/features/business-discovery/application/discover-businesses.ts:71-109 | even with stale attempts recording beside the current one a run lists at most forty businesses for each planned query |
| DiscoverBusinesses.SearchFanOut | src/features/business-discovery/application/discover-businesses.ts:19-39 | so at most 160, or 80 in quick mode |
| DiscoverBusinesses.BoundQuery | src/features/business-discovery/application/discover-businesses.ts:172-180 | a query keeps its longest run of at most fifty leading words that fits 400 characters, or its first word cut |
| IdentityKeys.KeyMeans | src/features/business-identity/domain/business-identity.ts:130-153 | a listing is known by the digits of its first telephone; without any by its website's host; without one by the route that collates first; and by its name and place exactly when it has none of these |
| IdentityKeys.ContactKeysMean | src/features/business-identity/domain/business-identity.ts:155-187 | two contacts match exactly when both are telephones with the same last nine digits or both the same email address in any case; forms and profiles never match |
| IdentityKeys.SiteKeysMean | src/features/business-identity/domain/business-identity.ts:170-178 | two presences match exactly when both are websites of one host, and never with a contact |
| BusinessIdentity.VerdictMeans | src/features/business-identity/domain/business-identity.ts:50-128 | a listing is eligible exactly when it is unambiguous, locally decided, not online-only and has a contact; only an ambiguous one has no fingerprint and stores no contact |
| BusinessIdentity.FingerprintsAreKeys | src/features/business-identity/domain/business-identity.ts:131-153 | two printed fingerprints are equal exactly when the kind of key, the key and the country are |
| BusinessIdentity.SameFingerprintSameKey | src/features/business-identity/domain/business-identity.ts:130-153 | two listings share a fingerprint exactly when they come to one key in one country, so same-named neighbours with different telephones never do |
| BusinessIdentity.RouteOrderIsIrrelevant | src/features/business-identity/domain/business-identity.ts:145-151 | the route a fingerprint is taken from does not depend on the order routes were reported in |
| BusinessIdentity.TelephonesMatch | src/features/business-identity/domain/business-identity.ts:156-187 | telephones are matched exactly by their last nine digits |
| BusinessIdentity.SharedRouteIsKnown | src/features/business-identity/infrastructure/sqlite-identity-repository.ts:266-289 | after a commit a listing carrying one of its contact keys never becomes a new business |
| BusinessIdentity.SameTelephoneSameBusiness | src/features/business-identity/domain/business-identity.ts:155-187 | so a business whose telephone is written another way, or with a country code, is found again |
| Identity.IdentityRepository.CommitEvaluation | src/features/business-identity/infrastructure/sqlite-identity-repository.ts:86-160 | one transaction resolves the business by fingerprint, then by shared route, else anew, decides the listing's status in the stated order, replaces its routes and recounts the run's exclusions |
| IdentityLaws.DecisionLaw | src/features/business-identity/infrastructure/sqlite-identity-repository.ts:91-133 | after a commit the listing is each of Ambiguous, Excluded, DuplicateCandidate, SkippedRecent, IncludedRecent and Eligible exactly under its own conditions on the tables and the commitment: the verdict, the suppression of the fingerprint, another listing of the run that is the business, a stored assessment at most thirty days old, and the policy |
| IdentityLaws.ResolutionLaw | src/features/business-identity/infrastructure/sqlite-identity-repository.ts:224-289 | a listing without a fingerprint is no business; otherwise it is the one with its fingerprint, failing that one that stored a key it reports, failing that a new one entered as never assessed; no other business changes |
| IdentityLaws.StoredLaw | src/features/business-identity/infrastructure/sqlite-identity-repository.ts:134-147 | the listing's presences are replaced by the first of each value reported, its contacts only when it is a business; the run's exclusions are its listings in the four statuses; nothing else changes |
| Identity.IdentityRepository.ResolveCanonical | src/features/business-identity/infrastructure/sqlite-identity-repository.ts:224-289 | the lookups return a business with the fingerprint if there is one, else one sharing a route if there is one, else the new identifier |
| Identity.IdentityRepository.ReplaceRoutes | src/features/business-identity/infrastructure/sqlite-identity-repository.ts:334-393 | the loop with its seen-set keeps the first route of every value |
| Identity.KeptRoutesAreDistinct | src/features/business-identity/infrastructure/sqlite-identity-repository.ts:352-391 | no two kept routes have one value and no value is lost |
| Identity.KeptRoutesAreFirst | src/features/business-identity/infrastructure/sqlite-identity-repository.ts:352-391 | each kept route is the first of its value |
| Identity.CommitKeeps | src/features/business-identity/infrastructure/sqlite-identity-repository.ts:86-160 | a commit keeps one live listing per run and business at most, and distinct fingerprints |
| IdentityHistories.OneLiveCandidate | src/features/business-identity/infrastructure/sqlite-identity-repository.ts:86-160 | so does every sequence of commits, recommits, route matches, statuses written by inspection, assessment, scoring and lifting, absence confirmations, suppression changes and deletions, from empty tables |
| IdentityHistories.RecountStep | src/features/business-identity/infrastructure/sqlite-identity-repository.ts:395-412 | a stored count of exclusions is never below a recount; a step leaves it right exactly when it recounts the run, or it was right and the step moves on or deletes no listing that counts |
| IdentityHistories.WhenExclusionsAreRecounted | src/features/business-identity/infrastructure/sqlite-identity-repository.ts:395-412 | in every history a run's stored exclusions are what a recount gives exactly when no listing that counted has moved on or been deleted since the run was last committed to |
| IdentityWitnesses.InspectionMiscounts | src/features/website-inspection/infrastructure/sqlite-inspection-repository.ts:98-107 | a listing recommitted as a duplicate while its inspection was under way: the inspection's commit leaves the stored exclusions wrong |
| Identity.WhenLive | src/features/business-identity/infrastructure/sqlite-identity-repository.ts:113-135 | after any commit a business has a live listing in the run exactly when another listing is live for it, or the commit resolves to it, is suitable, is not suppressed, and finds no other listing of it |
| Identity.WhenLiveIsLost | src/features/business-identity/infrastructure/sqlite-identity-repository.ts:113-135 | so a commit takes a business's live listing exactly when it rewrites the only one and does not make it live for that business again |
| BusinessIdentity.LiveExactlyWhen | src/features/business-identity/domain/business-identity.ts:50-128 | an evaluated listing is live for the business it is committed for exactly when the business is unambiguous, locally decided, not online-only and reachable, its fingerprint is not suppressed, and no other listing of the run is that business |
| IdentityWitnesses.RecommitLeavesNone | src/features/business-identity/infrastructure/sqlite-identity-repository.ts:113-135 | a listing committed again as it was, beside a duplicate, leaves its business without a live listing |
| IdentityWitnesses.NewFingerprintLeavesNone | src/features/business-identity/infrastructure/sqlite-identity-repository.ts:224-263 | so does one committed again under another fingerprint |
| IdentityWitnesses.AmbiguityLeavesNone | src/features/business-identity/infrastructure/sqlite-identity-repository.ts:125-135 | and one committed again as ambiguous |
| OpportunityScore.WorstPageIsTheMaximum | src/features/review-queue/domain/opportunity-score.ts:54-63 | the observed density is the largest page density, and zero without pages |
| OpportunityScore.TotalInRange | src/features/review-queue/domain/opportunity-score.ts:88-113 | the total lies between 0 and 100 for all inputs |
| OpportunityScore.TotalIsMonotone | src/features/review-queue/domain/opportunity-score.ts:54-113 | raising severity, sources, defects or pages, gaining a contact route, or raising either likelihood never lowers the rounded total |
| OpportunityScore.DensityPoints | src/features/review-queue/domain/opportunity-score.ts:65-72 | in 160ths, an unlabelled control is worth eight and a missing alternative five, each up to eight of them, an insecure page thirty-two and an overflowing one twenty-four |
| OpportunityScore.PartsPoints | src/features/review-queue/domain/opportunity-score.ts:75-95 | the points of each part: eleven a step of severity, capped at four when blocked or when fewer than two sources bear out an absence; ten times the worst page's density, or ten without a website; fifteen for a contact route; ten for each likelihood |
| OpportunityScore.TotalIsTheSum | src/features/review-queue/domain/opportunity-score.ts:102-110 | the total is the sum of the parts to the nearest hundredth, the upper one from halfway |
| OpportunityScore.PageOrderIsIrrelevant | src/features/review-queue/domain/opportunity-score.ts:54-63 | the whole breakdown depends only on which pages there are, not on their order or repetition |
| OpportunityScore.ReachesTheThreshold | src/features/review-queue/domain/opportunity-score.ts:88-126 | with a contact route the rounded total reaches the threshold exactly when the unrounded points make 71.995 |
| OpportunityScore.SeverityDecides | src/features/review-queue/domain/opportunity-score.ts:115-126 | a whole severity qualifies in some candidate exactly from three up |
| OpportunityScore.QualifyingNeedsSeverity | src/features/review-queue/domain/opportunity-score.ts:75-126 | a qualifying candidate has a capped severity of at least three |
| OpportunityScore.NoWebsiteReaches | src/features/review-queue/domain/opportunity-score.ts:54-113 | no website, a contact route, a local decision and severity four reach the threshold, corroborated or not |
| OpportunityScore.BlockedNeedsItsCeiling | src/features/review-queue/domain/opportunity-score.ts:75-86 | a blocked inspection without pages qualifies only at its severity ceiling |
| Suppression.ReviewQueueRepository.Score | src/features/review-queue/infrastructure/score-candidate.ts:24-134 | one transaction scores a task once from the tables as they are, sets the standing and recounts the run; a scored task gets its stored score back |
| Suppression.ReviewQueueRepository.SuppressCandidate | src/features/review-queue/infrastructure/suppress-candidate.ts:5-47 | each error is reported exactly in its case and changes nothing; otherwise the fingerprint is entered with the trimmed reason and every score of the business is cleared |
| Suppression.ReviewQueueRepository.LiftSuppression | src/features/review-queue/infrastructure/suppress-candidate.ts:49-96 | reports whether there was an entry, removes it, and rebuilds flags and standings of its business if it is known |
| SuppressionLaws.ScoreLaw | src/features/review-queue/infrastructure/score-candidate.ts:24-121 | a task scored before, or without its assessment, writes nothing; any other adds one score of its assessment, qualified exactly with seventy-two points, an opportunity, an observation, a contact route and no suppression; the listing stands accordingly and the run's count is what it has |
| SuppressionLaws.SuppressLaw | src/features/review-queue/infrastructure/suppress-candidate.ts:5-47 | a suppression with an acceptable reason of a score that exists enters its business with the trimmed reason and clears its scores, and changes nothing else, standings and counts included |
| SuppressionLaws.LiftLaw | src/features/review-queue/infrastructure/suppress-candidate.ts:49-96 | a lift takes the entry away, gives the scores of its business the flags their totals and evidence give, and its listings the standing their scores then give, and changes nothing else |
| Suppression.ActionKeeps | src/features/review-queue/infrastructure/suppress-candidate.ts:12-92 | scoring, suppressing, lifting and the gathering of evidence keep the safety below |
| Suppression.NeverQueuedWhileSuppressed | src/features/review-queue/infrastructure/score-candidate.ts:74-107 | in every history no score of a business is qualified while its fingerprint is suppressed, and a task has one score at most |
| Suppression.ScoringAgainChangesNothing | src/features/review-queue/infrastructure/score-candidate.ts:30-47 | scoring a task again changes nothing, whatever happened in between |
| Suppression.LiftRebuildsFlags | src/features/review-queue/infrastructure/suppress-candidate.ts:66-80 | a lift gives every score of its business what the qualification rule gives on its stored total and the present evidence, and leaves every other score alone |
| Suppression.SuppressThenLift | src/features/review-queue/infrastructure/suppress-candidate.ts:12-92 | suppressing and lifting restores the workspace exactly when the business was not suppressed before and its flags and standings were current |
| SuppressionWitnesses.LiftTurnsOn | src/features/review-queue/infrastructure/suppress-candidate.ts:66-80 | a candidate scored without a contact route that qualifies after one was found, a suppression and a lift |
| Suppression.SuppressionLeavesTheCount | src/features/review-queue/infrastructure/suppress-candidate.ts:38-42 | suppression does not recount the run, so the stored count of qualified candidates stays right exactly for runs in which the business had none |
| SuppressionWitnesses.CountIsLeftWrong | src/features/review-queue/infrastructure/suppress-candidate.ts:38-42 | one qualified candidate on record and, after its suppression, none left while the record still says one |
| Assessment.AssessmentCitations | src/features/website-assessment/application/assessment-runtime.ts:74-95 | the map allows a URL and time exactly when a page, presence or block supplies them |
| Assessment.SuppliedMeans | src/features/website-assessment/application/assessment-runtime.ts:77-86 | what may be cited is exactly the pages, the public presences, and the inspection blocks that have an address, each at its own time |
| Assessment.ValidateCitations | src/features/website-assessment/domain/assessment-output.ts:101-132 | valid exactly when every observation is cited and insufficient evidence claims nothing; which error is reported is the first one met |
| Assessment.CollapseOpportunitiesByClass | src/features/website-assessment/application/assessment-runtime.ts:141-151 | the loop over a map and the early return compute the collapse the next rows are about |
| Assessment.CollapseIsOnePerClass | src/features/website-assessment/application/assessment-runtime.ts:140-151 | the collapse is a subsequence with distinct classes, each the first of maximal severity, and represents every class reported |
| Assessment.FirstStrongestAreKept | src/features/website-assessment/application/assessment-runtime.ts:141-151 | an opportunity is kept exactly when it is more severe than every other of its class, or as severe as the most severe and reported before them |
| Assessment.LimitsOnlyWeaken | src/features/website-assessment/application/assessment-runtime.ts:153-172 | a blocked inspection without pages caps severities at four and every confidence at six tenths, counts as completed and changes nothing else; any other inspection changes nothing |
| Assessment.RubricIsGiven | src/features/review-queue/infrastructure/score-candidate.ts:50-86 | the rubric is given the greatest severity, none for no opportunities, and the reported commercial value; any observation is a ground |
| Assessment.CollapseIsIdempotent | src/features/website-assessment/application/assessment-runtime.ts:140-151 | collapsing twice is collapsing once |
| Assessment.LimitsKeepTheSeverity | src/features/website-assessment/application/assessment-runtime.ts:153-172 | the limits leave the greatest severity what it was, capped for a blocked inspection without pages |
| Assessment.NormalisationKeepsTheScore | src/features/website-assessment/application/assessment-runtime.ts:153-172 | collapsing and capping leave the rubric's breakdown and the qualification evidence unchanged |
| Assessment.Accept | src/features/website-assessment/infrastructure/subscription-assessment-runtimes.ts:147-150 | of a decoded output, every observation that survives validation and limits cites a URL and time of the envelope, and blocked evidence stays under its caps |
| CandidateExport.ExportReadsBack | src/features/review-queue/infrastructure/export-candidates.ts:179-201 | a reader of the format of RFC 4180, section 2, gets back the header and exactly the guarded cells, whatever quotes, commas and line breaks they hold |
| CandidateExport.ColumnsAreNamed | src/features/review-queue/infrastructure/export-candidates.ts:185-200 | a reader who looks a candidate up by the names in the header finds under each of the nine that property of the candidate, guarded, and nothing else |
| CandidateExport.FormulasMean | src/features/review-queue/infrastructure/export-candidates.ts:181-182 | what is guarded is exactly a text whose first character that is not blank is an equals, plus, minus or at sign |
| CandidateExport.NoCellIsAFormula | src/features/review-queue/infrastructure/export-candidates.ts:179-184 | no data cell read back looks like a formula |
| CandidateExport.WhenGuardsCollide | src/features/review-queue/infrastructure/export-candidates.ts:179-184 | two texts print alike exactly when they are equal or one is the other guarded |
| CandidateExport.WhenExportsCollide | src/features/review-queue/infrastructure/export-candidates.ts:185-201 | two exports are the same text exactly when they have as many candidates and each cell prints like its counterpart |
| CandidateExport.GuardedNamesCollide | src/features/review-queue/infrastructure/export-candidates.ts:179-184 | two different candidates, one named by a formula and one by that formula guarded, with the same export |
| CandidateExport.ExportIsFaithful | src/features/review-queue/infrastructure/export-candidates.ts:185-201 | among exports without formula-like cells only the same candidates give the same text |
| Pagination.PaginationWindow | src/components/data-table-pagination.tsx:48-73 | pages are strictly increasing; a page is shown exactly when it is first, last, current, an in-range neighbour, or the only one missing between two of those; every ellipsis hides at least two; expanding them gives every page |
| Pagination.SortPages | src/components/data-table-pagination.tsx:64-64 | the shown pages in increasing order, none lost |

## Left out

- The run_transitions log, version counters and updated_at columns: written along with every change, read by no modelled branch.
- RunStore.RunTaskRepository.RequestControl: a resume that also changes the runtime is not modelled; that change rewrites task inputs the queue never reads, and where it throws the whole request is undone.
- Deleting a business or a run (which removes task rows and listings), resetting the workspace, backups and database migrations, as far as the queue, the search and the scores are concerned; deletions of businesses and runs are among the steps of `IdentityHistories`.
- SQL, JSON encoding and the schema decoders: tables are maps, and inputs arrive decoded.
- Regular expressions, the URL class, Unicode normalisation and collation: canonical URLs, URL extraction, paragraph splitting, normalised words, hosts and collation are arbitrary functions; case mapping works character by character and keeps lengths; text is characters, not UTF-16 units.
- Row identifiers are numbers rather than text; only their equality and order are used.
- SQL sums over a run without tasks are null; the tally's `any` stands for that.
- Floating point: the rubric is over reals, so `Number.isFinite` never fails.
- Worker.RunWorkerCycle: drains through one slot and renews no lease while it works; any number of slots and any renewals are covered by `Budget.ClaimsRunOut`.
- DiscoveryAttempts.OverlapBound: an attempt is its loop over the plan; requests for other runs are left to `DiscoverBusinesses.FanOutIsBounded`, which ranges over the reports of all runs.
- SearchedRuns.SearchedRunIsBounded: that a fan-out lists the progress of the search, and that no attempt begins without a claim, are its hypotheses; the queue and the search are separate models otherwise.
- OpportunityScore.SeverityDecides: is about whole severities, which is what assessments report.
- BusinessIdentity.SameFingerprintSameKey: holds for normalised words, hosts and country codes without a vertical bar, which the normalisation removes.
- Discovery.DiscoveryRepository.RecordReport: occurrences, rejections, events, the raw report and its returned count are not kept.
- Suppression.ReviewQueueRepository.Score: review notes carried to a new score are not modelled; the rewritten target_remaining is, in `RunStore.RunTaskRepository.RecordQualified`.
- Decision events.
- carryForwardBusinesses, withConfirmedRoutes and groupRows: single loops that copy or group rows; they would add only easy members.
- visibleRange, keyedSlots, read models, filters of the export query and its JSON form.
- Provider command lines, prompts, browsers, the proxy, DNS, the geocoder, readiness probes, pages and components.
