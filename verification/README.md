# Control-plane model

This project models the decision logic of a trading control plane and proves what that logic promises.
The control plane never trades. It numbers errors, closes agent repairs, retries model replays, records
what components produced, plans which data to collect next, keeps one fold of work open at a time, drains
provider requests under a limit, and keeps a register of failures. Each of these is a small state machine over
durable records, and each is modelled in a module of its own.

| file | modules | what it models |
|---|---|---|
| `ErrorCatalog.dfy` | `ErrorCatalog` | the numbered error catalog with its sliding deduplication window, in a JSONL or an SQL store |
| `AlertRate.dfy` | `AlertRate` | how many numbers one fault can burn over whole runs of the catalog |
| `StoreAgreement.dfy` | `StoreAgreement` | whether the two stores answer alike |
| `CatalogLock.dfy` | `CatalogLock` | callers sharing the lock file, under every interleaving |
| `RepairClosure.dfy` | `RepairClosure` | closing agent repairs in repeated passes while evidence changes |
| `RepairReach.dfy` | `RepairReach` | when repeated closure passes settle, and which requests a limited closer ever reaches |
| `ReplayAcquisition.dfy` | `ReplayAcquisition` | replay attempts that drain missing data under call and time budgets |
| `CompletionReceipts.dfy` | `CompletionReceipts` | normalising completion receipts and the three upserts that store them |
| `DatasetEvidence.dfy` | `DatasetEvidence` | the accumulator loop that collects dataset evidence |
| `DatasetExpansion.dfy` | `DatasetExpansion` | the planner that picks the next layer and role, and its iteration |
| `FoldCalendar.dfy`, `MonthKeys.dfy` | `FoldCalendar`, `MonthKeys` | month and fold arithmetic, month and period texts, event counts |
| `FoldLane.dfy` | `FoldLane` | the single-fold lane gate, the timeline sort and the public projection |
| `EventFeedDispatch.dfy` | `EventFeedDispatch` | the limited event-feed dispatcher and its repeated passes |
| `FoldNaming.dfy` | `FoldNaming` | target tokens and fold ids |
| `FailureRegister.dfy` | `FailureRegister` | the failure register |
| `Text.dfy`, `Wrappers.dfy` | `Text`, `Wrappers` | numerals, ASCII case and whitespace, text order, optional values |

Code that the source writes as loops over mutable state is a method or a class here, proved against a function;
what the source promises is then proved about that function, over every run. Subprocesses, providers, clocks and
files the model cannot see are oracle answers or inputs, so a theorem over all oracles is a theorem over all runs.

## Findings

Some properties a reader might expect are false of the code. These members show where they fail and exactly when they hold.

- The two catalog stores can disagree when one fault's errors arrive out of order (`StoreAgreement.DisagreeOutOfOrder`)
  and, where the table returns timestamps, even in order, because reads cut fractions of a second
  (`StoreAgreement.DisagreeOnFractions`). Exactly when, for any calls: `StoreAgreement.AnswersAgreeAsReadIff` for the
  answers, `StoreAgreement.RunsAgreeAsReadIff` for the stored rows, and `StoreAgreement.RunsMeetIff` for the earlier
  request a duplicate names.
- A repair can push and restart more than once: a command that overruns its time limit leaves no receipt
  (`RepairClosure.OverrunRepeatsRepair`; exactly when: `RepairClosure.ActsTwiceIff`, and over the log of acts
  `RepairClosure.RepairsActAtMostOnce`).
- A limited closure run need not reach every candidate: `RepairReach.WaitingHeadStarves`; exactly which it reaches:
  `RepairReach.LimitedCloserReachesIff`.
- The event-feed dispatcher starves in the same way behind requests that never get done, and in its default mode, which
  stops at the first error, behind a single failing one under any limit or none: `EventFeedDispatch.StuckRequestStarves`;
  exactly which requests are ever called, in either mode: `EventFeedDispatch.EverCalledIff`,
  `EventFeedDispatch.DefaultModeCallsIff`.
- Fold labels are numbered by the fold size and read back by the fold step. The running shape (18, 12) never
  produces a label that is misread; other shapes do: `FoldCalendar.LabelMisreads`, `FoldCalendar.LabelRoundTripIff`.
- Default failure ids can collide, so a row for one request can overwrite the accepted skip of another:
  `FailureRegister.DashRemovesUnderscoreSkip`, `FailureRegister.DefaultIdsMeetIff`, `FailureRegister.SkipSurvivesIff`.
- A printed fold id parses back only when the target token is a single word: `FoldNaming.ParsePrinted`.
- The record of a blocked repair is kept from pass to pass only while its diagnosis can be parsed:
  `RepairClosure.UnparseableWipesRecord`; exactly when: `RepairClosure.BlockedRecordIff`.
- Every count of the dataset evidence repeats when a snapshot id does: `DatasetEvidence.RepeatedRowCountsTwice`,
  `DatasetEvidence.RowSumTimes`, `DatasetEvidence.SourceCountedOnceIff`; exactly when the totals are flat sums:
  `DatasetEvidence.TotalFlatIff`, `DatasetEvidence.MonthsFlatIff`.
- The time budget of the replay script does not cover contract paths: `ReplayAcquisition.PathsCanStartLate`; exactly when
  an attempt acquires them: `ReplayAcquisition.PathsAcquiredIff`.
- The lane gate can depend on the order in which a set of tied fold periods is listed: `FoldLane.TiedFoldsDiffer`; exactly
  when it does not: `FoldLane.GateIsDeterminedIff`.
- Stepping through months fails when the last one is 9999-12: `MonthKeys.IterMonths`.

## Model

| member | source | states |
|---|---|---|
| `ErrorCatalog.OrderRowsCorrect` | src/trading_manager_tasks/agent_error_handler.py:299-314 | the ORDER BY read returns the stored rows, each once, by rising number, at one number by rising second of creation, and at one second by rising request id |
| `ErrorCatalog.FindRequestFinds` | src/trading_manager_tasks/agent_error_handler.py:405 | the request search answers with a stored row of that request, or there is none |
| `ErrorCatalog.FindDuplicateFinds` | src/trading_manager_tasks/agent_error_handler.py:361-366 | the backward search answers with the last row of the fault inside the window, or no row is inside it |
| `ErrorCatalog.HighestIsGreatest` | src/trading_manager_tasks/agent_error_handler.py:466 | the number the next entry is counted from bounds every stored number and is carried by a row |
| `ErrorCatalog.UpsertAppends` | src/trading_manager_tasks/agent_error_handler.py:326-345 | an upsert under an unused key appends and overwrites nothing |
| `ErrorCatalog.RegisterFresh` | src/trading_manager_tasks/agent_error_handler.py:416-505 | an unregistered request appends exactly its own row after every stored row, on either store |
| `ErrorCatalog.RegisterStale` | src/trading_manager_tasks/agent_error_handler.py:403-414 | an invalid or already registered request changes nothing; a valid one is answered with its stored row |
| `ErrorCatalog.RegisterKeepsInv` | src/trading_manager_tasks/agent_error_handler.py:399-507 | one call keeps numbers 1..n, unique requests, and every occurrence linked to an earlier row in its window |
| `ErrorCatalog.CatalogHolds` | src/trading_manager_tasks/agent_error_handler.py:377-507 | every run of calls on either store keeps the catalog invariant |
| `ErrorCatalog.ResubmissionIsIdempotent` | src/trading_manager_tasks/agent_error_handler.py:405-414 | resubmitting a registered request after any run changes nothing and repeats the first answer |
| `ErrorCatalog.ChainReachesEntry` | src/trading_manager_tasks/agent_error_handler.py:427-463 | following duplicate references from any row reaches, in finitely many hops inside each row's own window, an entry of the same fault and number |
| `ErrorCatalog.Catalog.FindExisting` | src/trading_manager_tasks/agent_error_handler.py:405 | the forward scan returns what the specified search finds |
| `ErrorCatalog.Catalog.FindDuplicateBase` | src/trading_manager_tasks/agent_error_handler.py:416-425 | the backward scan returns what the specified search finds |
| `ErrorCatalog.Catalog.LatestNumber` | src/trading_manager_tasks/agent_error_handler.py:466 | the scan returns the greatest stored number, zero on an empty catalog |
| `ErrorCatalog.Catalog.RegisterError` | src/trading_manager_tasks/agent_error_handler.py:377-507 | the new store and the answer are those of the specified registration step |
| `AlertRate.RunKeepsApart` | src/trading_manager_tasks/agent_error_handler.py:416-425 | with one window, every entry is stored at least a gap from every earlier row of its fault, for any arrival order; the gap is w + 1 seconds on whole-second times, and with fractions more than w seconds, or w where reads cut them |
| `AlertRate.Pigeonhole` | src/trading_manager_tasks/agent_error_handler.py:361-366 | k entries pairwise at least a gap apart need a span of at least k-1 gaps |
| `AlertRate.AlertRateBound` | src/trading_manager_tasks/agent_error_handler.py:466-497 | after any run with window w, one fault burns k numbers inside T only if k-1 gaps fit into T; on whole seconds (k-1)(w+1) <= T |
| `AlertRate.FractionsBurnMore` | src/trading_manager_tasks/agent_error_handler.py:361-366 | errors at 0, 10.5 and 21 seconds with window 10 get three numbers, so fractions need the smaller gap |
| `StoreAgreement.JsonlPicksGreatest` | src/trading_manager_tasks/agent_error_handler.py:416-425 | in order, the append-order scan settles on a duplicate with the greatest number |
| `StoreAgreement.RunComesFrom` | src/trading_manager_tasks/agent_error_handler.py:427-497 | every row of the file store records fault, times, window and request of one of the calls |
| `StoreAgreement.SqlPicksLatest` | src/trading_manager_tasks/agent_error_handler.py:299-314 | of the rows a call duplicates the sorted scan settles, in any arrival order, on the one that no other exceeds: none has a greater number, none of its number a later second of creation, none of that second a greater request id |
| `StoreAgreement.StepAgrees` | src/trading_manager_tasks/agent_error_handler.py:402-505 | one in-order call whose time the stores keep exactly leaves the two stores in agreement and gets the same answer from both |
| `StoreAgreement.StoresAgree` | src/trading_manager_tasks/agent_error_handler.py:402-505 | fed the same calls, in order for each fault, with any windows and times both keep exactly, both stores give every call the same number and flag |
| `StoreAgreement.ChoiceAgreesIff` | src/trading_manager_tasks/agent_error_handler.py:416-425 | in any order, two agreeing stores choose the same number for the next call exactly when the last stored duplicate carries the greatest |
| `StoreAgreement.StepAgreesAsReadIff` | src/trading_manager_tasks/agent_error_handler.py:402-505 | two stores that agree as the table reads them still do after one more call of any kind, and answer it alike, exactly when the append-order scan settles as read: it finds a duplicate when the cut rows hold one, and with the greatest number |
| `StoreAgreement.RunsAgreeAsReadIff` | src/trading_manager_tasks/agent_error_handler.py:402-505 | over any whole run of any calls, with or without cut fractions, the stores hold the same rows as read exactly when every call settles as read |
| `StoreAgreement.AnswersAgreeAsReadIff` | src/trading_manager_tasks/agent_error_handler.py:402-505 | and every call gets the same number and flag from both stores exactly then |
| `StoreAgreement.RunsAgreeIff` | src/trading_manager_tasks/agent_error_handler.py:402-505 | the corollary for times both stores keep exactly: over any whole run in any order, they hold the same rows exactly when every call answered from a duplicate meets that condition |
| `StoreAgreement.StepMeetsIff` | src/trading_manager_tasks/agent_error_handler.py:402-505 | one call on stores that hold the same as read: they still do, and answer with the same number, flag and earlier request, exactly when the append-order scan settles on the row the sorted scan would |
| `StoreAgreement.RunsMeetIff` | src/trading_manager_tasks/agent_error_handler.py:402-505 | over any whole run of any calls the stores hold the same rows as read, the earlier request each duplicate names included, exactly when every call settles so |
| `StoreAgreement.PointersAgree` | src/trading_manager_tasks/agent_error_handler.py:402-505 | fed calls in order of occurrence and of creation for each fault, with times both keep exactly, both stores hold the very same rows: every duplicate names the same earlier request |
| `StoreAgreement.DisagreeOutOfOrder` | src/trading_manager_tasks/agent_error_handler.py:299-314 | four out-of-order calls on which the stores answer 1 and 2 |
| `StoreAgreement.DisagreeOnFractions` | src/trading_manager_tasks/agent_error_handler.py:278-283 | two in-order calls with fractions of a second on which only a store whose reads cut times gives a second number |
| `CatalogLock.StepKeeps` | src/trading_manager_tasks/agent_error_handler.py:399-401 | every step of any caller keeps mutual exclusion and the sequential meaning of the store |
| `CatalogLock.EveryScheduleIsSequential` | src/trading_manager_tasks/agent_error_handler.py:399-507 | under every interleaving, crashes included, the store and all answers are those of a sequential run and the invariant holds |
| `CatalogLock.TurnCompletes` | src/trading_manager_tasks/agent_error_handler.py:399-507 | with the lock free, an idle caller's turn registers its call as on a store of its own and leaves lock and other callers as they were |
| `CatalogLock.CrashFreesLock` | src/trading_manager_tasks/agent_error_handler.py:399-401 | a crash of the holder, and no other, frees the lock, and stored rows stay |
| `CatalogLock.EveryRunIsScheduled` | src/trading_manager_tasks/agent_error_handler.py:399-507 | every sequential run of calls is what some schedule of the callers does |
| `CatalogLock.ScheduledAlertRate` | src/trading_manager_tasks/agent_error_handler.py:399-507 | the alert-rate bound holds under every interleaving |
| `CatalogLock.UnlockedWritesRepeatNumbers` | src/trading_manager_tasks/agent_error_handler.py:400-401 | without the lock two callers can give one number twice, so the lock is needed |
| `RepairClosure.BlockedClosesIff` | src/trading_manager_tasks/agent_repair_closure.py:775-839 | a blocked request closes exactly on observed evidence, a resolved register or a lock conflict, and never acts |
| `RepairClosure.ActsIff` | src/trading_manager_tasks/agent_repair_closure.py:840-862 | pushes and service commands run exactly on an executing pass over an unblocked request whose repair may act; the visit raises exactly when one of them overruns |
| `RepairClosure.ActedClosesIff` | src/trading_manager_tasks/agent_repair_closure.py:846-862 | a repair that acts closes exactly when no command raised, no push was refused or failed and no service command failed |
| `RepairClosure.VisitsSettle` | src/trading_manager_tasks/agent_repair_closure.py:824-839 | with nothing changing, a blocked receipt settles after one visit and any receipt after two |
| `RepairClosure.PlanOnlyChangesNothing` | src/trading_manager_tasks/agent_repair_closure.py:885-886 | a plan-only pass changes no receipt and runs no action |
| `RepairClosure.RepairsActAtMostOnce` | src/trading_manager_tasks/agent_repair_closure.py:485-501 | over any passes with any evidence between them, a repair acts at most once more than its visits raised, and at most once exactly when no visit that raised is followed by another acting one; no receipt is marked rechecked twice |
| `RepairClosure.NoReceiptIff` | src/trading_manager_tasks/agent_repair_closure.py:881-887 | after any passes a request has no receipt exactly when each executing visit to it found an unfinished diagnosis with nothing that justifies closing, or a repair that overran |
| `RepairClosure.LastPassActs` | src/trading_manager_tasks/agent_repair_closure.py:840-862 | each pass adds to the log of acts exactly one act on a request it reaches with a repair that may act and no receipt written before, and none otherwise |
| `RepairClosure.ActsTwiceIff` | src/trading_manager_tasks/agent_repair_closure.py:840-887 | over any passes a repair acts more than once exactly when an executing pass reached it with a repair that overran, and a later one reaches it with a repair that may act and no executing visit before has written a receipt |
| `RepairClosure.OverrunRepeatsRepair` | src/trading_manager_tasks/agent_repair_closure.py:853-862 | a dashboard refresh that overruns leaves no receipt, so the next pass pushes and restarts again |
| `RepairClosure.ClosedIsAbsorbing` | src/trading_manager_tasks/agent_repair_closure.py:650-653 | a receipt that is not blocked is never rewritten by any later pass |
| `RepairClosure.BlockedClosesOnlyWhenJustified` | src/trading_manager_tasks/agent_repair_closure.py:775-839 | over any passes, a blocked request is closed exactly when some executing pass reached it and saw a justification |
| `RepairClosure.BlockedVisitRecord` | src/trading_manager_tasks/agent_repair_closure.py:811-839 | a visit to a blocked request with a parsed payload keeps every recorded action in place, adds at most the marker, and keeps recorded blockers; with an unfinished diagnosis it keeps the receipt; with an unparseable payload it wipes both lists |
| `RepairClosure.BlockedRecordIff` | src/trading_manager_tasks/agent_repair_closure.py:811-839 | over any passes that do not close it, a blocked request's actions stay in place with at most one marker, there exactly when some pass rechecked it or it had been there, and its blockers stay, unless an executing pass found a completed diagnosis without a payload: then only that blocker remains |
| `RepairClosure.UnparseableWipesRecord` | src/trading_manager_tasks/agent_repair_closure.py:811-812 | one such pass wipes a refused push from the receipt |
| `RepairClosure.ClosingSaysWhy` | src/trading_manager_tasks/agent_repair_closure.py:769-823 | a receipt that closes on evidence names the first evidence there is, and no blocker |
| `RepairClosure.BlockersSayWhy` | src/trading_manager_tasks/agent_repair_closure.py:800-862 | without evidence and without a blocked receipt each blocker text means exactly its own reason, the first in the way, and there is none exactly when the repair may act |
| `RepairClosure.PushSays` | src/trading_manager_tasks/agent_repair_closure.py:577-606 | each push status means exactly what its commands answered |
| `RepairClosure.RepairActionsListed` | src/trading_manager_tasks/agent_repair_closure.py:846-861 | the actions of a repair are one push per repository in order, the restart if needed, and the refresh last; unexecuted ones are all planned |
| `RepairClosure.SliceTakesHead` | src/trading_manager_tasks/agent_repair_closure.py:902 | a limit takes the head of the candidates, a negative one leaves that many off the end |
| `RepairReach.PassesSettle` | src/trading_manager_tasks/agent_repair_closure.py:890-912 | unlimited passes that keep seeing the same things change no receipt after the second |
| `RepairReach.LimitedPassesSettle` | src/trading_manager_tasks/agent_repair_closure.py:902 | under any limit, such passes change no receipt after twice as many as there are listed requests |
| `RepairReach.VisitedIff` | src/trading_manager_tasks/agent_repair_closure.py:902 | a pass with limit k visits a candidate exactly when fewer than k candidates stand ahead of it and none of them overruns |
| `RepairReach.LimitedCloserReachesIff` | src/trading_manager_tasks/agent_repair_closure.py:902 | repeated passes with limit k ever visit a candidate exactly when fewer than k candidates ahead of it are ones their own visit does not close, and none of them overruns |
| `RepairReach.StuckHeadStarvesRest` | src/trading_manager_tasks/agent_repair_closure.py:902 | under any limit, once every request a pass visits is one its visit does not close, all later passes visit the same requests |
| `RepairReach.WaitingHeadStarves` | src/trading_manager_tasks/agent_repair_closure.py:902 | with limit 1, a request waiting for its diagnosis keeps a retried one behind it from ever closing |
| `RepairClosure.Closer.PushRepairedRepos` | src/trading_manager_tasks/agent_repair_closure.py:577-606 | the loop reports, per repository and in order, the specified push outcome, and leaves when a command raises |
| `RepairClosure.Closer.RunRepair` | src/trading_manager_tasks/agent_repair_closure.py:846-861 | the commands of a repair in order yield the specified actions, or raise exactly when one overruns |
| `RepairClosure.Closer.CloseAgentRepair` | src/trading_manager_tasks/agent_repair_closure.py:751-887 | growing the action and blocker lists branch by branch yields the specified decision |
| `RepairClosure.Closer.DiscoverClosureCandidates` | src/trading_manager_tasks/agent_repair_closure.py:638-663 | the listing loop returns exactly the specified candidates in listing order |
| `RepairClosure.Closer.ClosePendingAgentRepairs` | src/trading_manager_tasks/agent_repair_closure.py:900-912 | the new state is that of the specified pass; a command that raises ends it |
| `ReplayAcquisition.RunAccounted` | scripts/tasks/run_model_group_replay_with_option_auto_acquisition.py:179-196 | every reported total is the running sum, and every acquisition asks for at least one call and for a full batch or all that is left, never more |
| `ReplayAcquisition.ProviderBudgetHolds` | scripts/tasks/run_model_group_replay_with_option_auto_acquisition.py:362-370 | with a provider budget, calls used never exceed it at any point of any run |
| `ReplayAcquisition.RunBounded` | scripts/tasks/run_model_group_replay_with_option_auto_acquisition.py:108-320 | at most max attempts replays, and at most attempts x batches x batch size provider calls |
| `ReplayAcquisition.TraceMeaning` | scripts/tasks/run_model_group_replay_with_option_auto_acquisition.py:108-336 | every run ends; exit 0 exactly when the last event is completion, which occurs once and directly after a successful replay with no missing paths; no acquisition of paths without permission; no replay or drain batch starts on an expired clock; attempt numbers never fall |
| `ReplayAcquisition.RunIsTheTrace` | scripts/tasks/run_model_group_replay_with_option_auto_acquisition.py:105-320 | the run is the one trace that begins with the first attempt, follows every event by the one the loop emits next, the next attempt or the exit, and ends with its exit code |
| `ReplayAcquisition.AttemptGoesOnIff` | scripts/tasks/run_model_group_replay_with_option_auto_acquisition.py:196-319 | the run goes on from an attempt to the next exactly after an executed path acquisition, a drain without work, a budget reached by a batch, a finished and executed batch, or a last batch that asked for more |
| `ReplayAcquisition.ExitByLastEvent` | scripts/tasks/run_model_group_replay_with_option_auto_acquisition.py:105-320 | the exit code is 0 after completion, the replay's own code when it failed without a backoff, and 2 after anything else |
| `ReplayAcquisition.PathsCanStartLate` | scripts/tasks/run_model_group_replay_with_option_auto_acquisition.py:179-196 | contract paths are acquired without a look at the clock: when it runs out during the replay they are still acquired, and the next attempt is stopped |
| `ReplayAcquisition.PathsAcquiredIff` | scripts/tasks/run_model_group_replay_with_option_auto_acquisition.py:139-196 | an attempt of a run acquires contract paths exactly when its replay took place and returned 0 with a receipt of missing paths and decision rows, provider calls are permitted and the calls made until then leave budget; no further clock is read |
| `ReplayAcquisition.Drain` | scripts/tasks/run_model_group_replay_with_option_auto_acquisition.py:256-317 | the drain loop appends the specified events, calls used and exit |
| `ReplayAcquisition.DrainPaths` | scripts/tasks/run_model_group_replay_with_option_auto_acquisition.py:139-225 | the contract-path branch appends the specified events, calls used and exit |
| `ReplayAcquisition.Attempt` | scripts/tasks/run_model_group_replay_with_option_auto_acquisition.py:108-317 | one attempt appends the specified events, calls used and exit |
| `ReplayAcquisition.RunReplays` | scripts/tasks/run_model_group_replay_with_option_auto_acquisition.py:105-320 | the attempt loop produces the specified trace, calls used and exit code |
| `CompletionReceipts.IdsAreInjective` | src/trading_manager_tasks/control_plane.py:264-402 | an artifact id text determines its kind, run id and index, whatever characters run ids hold |
| `CompletionReceipts.StepUrisAreNew` | src/trading_manager_tasks/control_plane.py:238-277 | step-reference uris are pairwise distinct, disjoint from the receipt and outputs, and lose no referenced uri |
| `CompletionReceipts.OutputRowsPlaced` | src/trading_manager_tasks/control_plane.py:441-447 | an output has a row exactly when it has a uri, under its own index, with its own uri; skipped outputs keep their index |
| `CompletionReceipts.RunArtifactsKeyed` | src/trading_manager_tasks/control_plane.py:413-456 | one run's artifact keys are distinct, all its own, the receipt's first |
| `CompletionReceipts.RowsMatchRuns` | src/trading_manager_tasks/control_plane.py:393-471 | one manifest and one signal per run in order; a manifest is succeeded exactly when its signal is ready; review is required exactly for partial runs |
| `CompletionReceipts.StatusDecidesRows` | src/trading_manager_tasks/control_plane.py:375-465 | from a submitted run's status to its rows: the signal is ready and the manifest succeeded exactly for the five success words, partial, failed and cancelled have exactly their own words, a run without a status has failed, any other text blocks, and the run's artifacts are active exactly for the success and partial words |
| `CompletionReceipts.ArtifactsOfRun` | src/trading_manager_tasks/control_plane.py:418-463 | each signal's references stand for the artifacts of its own run, all of them active or none |
| `CompletionReceipts.SpellingsMeet` | src/trading_manager_tasks/control_plane.py:164-170 | the short and the long spelling of a stored object are one uri, and other text is its own |
| `CompletionReceipts.UriSays` | src/trading_manager_tasks/control_plane.py:173-181 | an object's uri is its first nonempty field, a text's the text, and anything else has none |
| `CompletionReceipts.StepRowsInOrder` | src/trading_manager_tasks/control_plane.py:447-455 | step rows come in the order in which their uris are first referred to |
| `CompletionReceipts.NormalizeIff` | src/trading_manager_tasks/control_plane.py:310-322 | when a receipt is normalised and what stops it: a missing field, an entry that is no object, a receipt that neither lists runs nor is one, or the first run without a start time |
| `CompletionReceipts.SignalsPartitionArtifacts` | src/trading_manager_tasks/control_plane.py:438-471 | the signals' references, read in order, are exactly the artifact list |
| `CompletionReceipts.IdsDistinctIffRunsDistinct` | src/trading_manager_tasks/control_plane.py:393-456 | all printed artifact ids are distinct exactly when the resolved run ids are |
| `CompletionReceipts.UpsertArtifactsKeeps` | src/trading_manager_tasks/control_plane.py:523-542 | artifact upserts keep every stored id under its own run |
| `CompletionReceipts.PersistKeepsInv` | src/trading_manager_tasks/control_plane.py:626-630 | persisting rows, cut off after any of its upserts, keeps every stored signal resolvable |
| `CompletionReceipts.EverySignalResolves` | src/trading_manager_tasks/control_plane.py:626-630 | after any history of submissions with crashes between upserts, every artifact a stored signal names is stored for the same run and the run has a manifest |
| `CompletionReceipts.PersistStores` | src/trading_manager_tasks/control_plane.py:526-543 | after a call each table whose upsert was reached holds the last row of every id and keeps the others, and the tables after it are as they were |
| `CompletionReceipts.StepReferenceRows` | src/trading_manager_tasks/control_plane.py:238-277 | the loop over step references returns the specified rows and grows the known set by their uris |
| `CompletionReceipts.OutputArtifactRows` | src/trading_manager_tasks/control_plane.py:441-447 | the output loop returns the specified rows and known set |
| `CompletionReceipts.GatherReferences` | src/trading_manager_tasks/control_plane.py:253-256 | the loop lists the references of all object steps in order |
| `CompletionReceipts.NormalizeRun` | src/trading_manager_tasks/control_plane.py:393-471 | one run contributes the specified manifest, artifacts and signal |
| `CompletionReceipts.NormalizeResolved` | src/trading_manager_tasks/control_plane.py:393-471 | the run loop collects the specified rows |
| `CompletionReceipts.UnstartedIsFirst` | src/trading_manager_tasks/control_plane.py:393-399 | the run a missing start time is reported for is the first without one |
| `CompletionReceipts.NormalizeRuns` | src/trading_manager_tasks/control_plane.py:393-471 | the loop answers with the specified rows, or with a fault naming the first run without a start time |
| `CompletionReceipts.Store.PersistCompletionRows` | src/trading_manager_tasks/control_plane.py:626-630 | the three tables after the call are those of the three specified upserts |
| `DatasetExpansion.FirstGapIsLeast` | src/trading_manager_tasks/dataset_expansion.py:246-278 | within a layer the selected role is the first it lacks, and none only if it lacks none |
| `DatasetExpansion.DecideIsLeastGap` | src/trading_manager_tasks/dataset_expansion.py:226-279 | the planner selects the first missing role of the first layer with a gap, with its dependencies satisfied, and nothing exactly when no layer lacks anything |
| `DatasetExpansion.DecideByField` | src/trading_manager_tasks/dataset_expansion.py:239-279 | by the months and the fields of the minimums: the planner chooses a role exactly when it is the first of its layer with fewer months than its own minimum and all layers before have all they are asked for; its dependencies then meet their four base minimums, and nothing is chosen exactly when nothing is missing |
| `DatasetExpansion.NeedsHoldoutIff` | src/trading_manager_tasks/dataset_expansion.py:26-33 | a holdout is called for exactly by one of the six gaps |
| `DatasetExpansion.MonthsSay` | src/trading_manager_tasks/dataset_expansion.py:74-76 | a role's months are those of its last entry, none without an entry |
| `DatasetExpansion.DefaultPlan` | src/trading_manager_tasks/dataset_expansion.py:43-50 | the configured plan rests exactly when each of the five layers has 60, 12, 12 and 12 months, 6 of holdout if called for and 1 of shadow if approved, and starts with training months of layer 1 below 60 |
| `DatasetExpansion.UpstreamCheckIsRedundant` | src/trading_manager_tasks/dataset_expansion.py:215-245 | in dependency order the upstream check changes no decision |
| `DatasetExpansion.LayersAreChronological` | src/trading_manager_tasks/model_training_workflow.py:231-290 | the configured layers depend only on lower layers |
| `DatasetExpansion.RunIsBounded` | src/trading_manager_tasks/dataset_expansion.py:226-279 | every step of the iterated planner lowers the total deficit, so a run is no longer than its first deficit |
| `DatasetExpansion.RestsIffNoDeficit` | src/trading_manager_tasks/dataset_expansion.py:239-279 | the planner rests exactly when no deficit is left |
| `DatasetExpansion.ChoicesRise` | src/trading_manager_tasks/dataset_expansion.py:239-279 | successive selections never go back in layer or in role |
| `DatasetExpansion.ExtensionsFollowDependencies` | src/trading_manager_tasks/dataset_expansion.py:215-223 | no layer is extended while a dependency is below its four minimums |
| `DatasetEvidence.UniqueIdsTakeSource` | src/trading_manager_tasks/dataset_evidence.py:319-336 | with unique snapshot ids a role's labels and evaluations are those of the first snapshot that supplied it |
| `DatasetEvidence.SourceIsFirst` | src/trading_manager_tasks/dataset_evidence.py:319-322 | a role's source is the first snapshot row that supplies it, none without such a row |
| `DatasetEvidence.SourceCountedOnceIff` | src/trading_manager_tasks/dataset_evidence.py:333-336 | in general each count is the source's exactly when its id occurs once or it has none to count |
| `DatasetEvidence.TotalIsSumOverSplits` | src/trading_manager_tasks/dataset_evidence.py:308-318 | a role's months and samples are one sum over the splits, each counted once per snapshot row of the layer carrying its id |
| `DatasetEvidence.RowSumTimes` | src/trading_manager_tasks/dataset_evidence.py:317-318 | a split's months, and its own samples, count as often as its snapshot id is listed; without own samples it adds the samples of every row under its id; splits of other roles or without an id count nothing |
| `DatasetEvidence.UniqueIdsTotalFlat` | src/trading_manager_tasks/dataset_evidence.py:308-318 | with unique snapshot ids they are one sum over the role's splits whose snapshot belongs to the layer |
| `DatasetEvidence.TotalFlatIff` | src/trading_manager_tasks/dataset_evidence.py:308-318 | for measures that are never negative the total is at least that flat sum, and equal to it exactly when under every split's id only the last snapshot row adds anything |
| `DatasetEvidence.OneRowAddsIff` | src/trading_manager_tasks/dataset_evidence.py:317-318 | for months, and for a split with samples of its own, that means its id is listed at most once, or it covers no month |
| `DatasetEvidence.MonthsFlatIff` | src/trading_manager_tasks/dataset_evidence.py:308-318 | month totals are flat exactly when every counting split's id is listed at most once or the split covers no month |
| `DatasetEvidence.RepeatedRowCountsTwice` | src/trading_manager_tasks/dataset_evidence.py:308-336 | a snapshot row listed twice doubles its months, samples, labels and evaluations |
| `DatasetEvidence.RowOrderIrrelevant` | src/trading_manager_tasks/dataset_evidence.py:308-318 | month and sample totals do not depend on the order of snapshot or split rows |
| `DatasetEvidence.SplitOrderIrrelevant` | src/trading_manager_tasks/dataset_evidence.py:311-318 | nor does one snapshot's share depend on the order of its splits |
| `DatasetEvidence.AddSplits` | src/trading_manager_tasks/dataset_evidence.py:311-322 | the split loop adds each role's share and its source |
| `DatasetEvidence.CollectLayer` | src/trading_manager_tasks/dataset_evidence.py:308-336 | the accumulator loop ends with the sums over the layer's snapshots and splits |
| `DatasetEvidence.CollectedNeverShadows` | src/trading_manager_tasks/dataset_evidence.py:368-379 | collected evidence can never make the planner select shadow monitoring |
| `DatasetEvidence.EmptyRoleNeedsHoldout` | src/trading_manager_tasks/dataset_evidence.py:356-367 | an empty base role always raises the gap that calls for a forward holdout |
| `DatasetEvidence.PlannerReadsTotals` | src/trading_manager_tasks/dataset_evidence.py:337-352 | the months the planner reads for a role are the collector's sum |
| `DatasetEvidence.CoverageCountsMonths` | src/trading_manager_tasks/dataset_evidence.py:190-198 | the coverage of a span is the number of calendar months it touches, over any number of years, none for a reversed one |
| `DatasetEvidence.GapSays` | src/trading_manager_tasks/dataset_evidence.py:356-367 | a base role raises a coverage gap exactly without months, else missing labels exactly outside training, else a missing evaluation exactly for validation and test |
| `DatasetEvidence.EvalsAddUp` | src/trading_manager_tasks/dataset_evidence.py:328-332 | evaluations add up row by row: succeeded rows of the snapshot, one for a row without a count |
| `FoldCalendar.MonthParts` | src/trading_manager_tasks/dashboard_read_models.py:3277-3286 | year and number determine the month index and conversely |
| `FoldCalendar.SpanListsItsMonths` | src/trading_manager_tasks/dashboard_read_models.py:4778-4792 | a span lists exactly its months, each once, increasing |
| `FoldCalendar.NextIsSuccessor` | src/trading_manager_tasks/event_feed_coverage.py:58-62 | the next month, December rollover included, is the successor, and only December 9999 has none |
| `FoldCalendar.MonthLiesInItsFold` | src/trading_manager_tasks/dashboard_read_models.py:3354-3365 | a month lies in its own fold, less than a step after its start, and folds start whole steps apart |
| `FoldCalendar.LabelRoundTripIff` | src/trading_manager_tasks/dashboard_read_models.py:3289-3384 | a month's label reads back to its window unless the fold lies in one year, starts on a later multiple of the size, and size and step differ |
| `FoldCalendar.RunningLabelsRoundTrip` | src/trading_manager_tasks/dashboard_read_models.py:3354-3375 | with size 18 and step 12 every label reads back, and the window starts in January of the month's year |
| `FoldCalendar.LabelMisreads` | src/trading_manager_tasks/dashboard_read_models.py:3295-3325 | with size 6 and step 3 July's window is read back as April's |
| `FoldCalendar.FoldHasSizeChildren` | src/trading_manager_tasks/dashboard_read_models.py:3475-3484 | a fold with a window has exactly `size` child partitions, its window's months |
| `FoldCalendar.DaysAreGregorian` | src/trading_manager_tasks/event_feed_coverage.py:76-80 | the day count under the month bounds is the Gregorian calendar's: 365 days a year and one per leap year |
| `FoldCalendar.EpochBound` | src/trading_manager_tasks/event_feed_coverage.py:76-80 | the first bound of 1970 lies five hours into the epoch |
| `FoldCalendar.BoundsApart` | src/trading_manager_tasks/event_feed_coverage.py:76-80 | consecutive bounds are 31 or 30 days apart by the month's number, and 29 or 28 in February by the Gregorian rule |
| `FoldCalendar.RangeIsSumOfMonths` | src/trading_manager_tasks/event_feed_coverage.py:76-86 | the row count over a month range is the sum of the per-month counts |
| `FoldCalendar.WindowAddsUp` | src/trading_manager_tasks/event_feed_coverage.py:258-272 | counts add up row by row; a row counts from the lower bound on and up to, not at, the upper one |
| `FoldCalendar.CountWindow` | src/trading_manager_tasks/event_feed_coverage.py:258-272 | the counting loop counts exactly the rows dated inside the half-open window |
| `MonthKeys.KeyReadsBack` | src/trading_manager_tasks/dashboard_read_models.py:2926-2934 | a printed month key parses to its month |
| `MonthKeys.TextReadsBack` | src/trading_manager_tasks/dashboard_read_models.py:2926-2934 | every text that is a month key is the printed key of the month it names |
| `MonthKeys.KeysOrderLikeMonths` | src/trading_manager_tasks/event_feed_coverage.py:68-73 | comparing month keys as texts compares the months |
| `MonthKeys.AdditionActs` | src/trading_manager_tasks/dashboard_read_models.py:3328-3337 | on month keys, adding zero does nothing and offsets add up, within four-digit years |
| `MonthKeys.StepsOnIff` | src/trading_manager_tasks/event_feed_coverage.py:71-73 | the text comparison goes on exactly up to the last month, except that it never stops after 9999-12 |
| `MonthKeys.IterMonths` | src/trading_manager_tasks/event_feed_coverage.py:65-73 | stepping by texts yields exactly the months of the span; bad or reversed bounds are faults, and so is the step beyond 9999-12 |
| `MonthKeys.StepThrough` | src/trading_manager_tasks/event_feed_coverage.py:70-73 | the loop from a first to a last month yields their keys in order |
| `MonthKeys.NextKey` | src/trading_manager_tasks/event_feed_coverage.py:58-62 | the next key is that of the successor month, five digits after 9999-12; other texts are faults |
| `MonthKeys.PeriodReadsBack` | src/trading_manager_tasks/dashboard_read_models.py:3289-3309 | every period is read back from its text |
| `MonthKeys.PeriodPrintsBack` | src/trading_manager_tasks/dashboard_read_models.py:3289-3309 | every text is the text of the period it is read as |
| `FoldLane.FirstOpenIsFirst` | src/trading_manager_tasks/dashboard_read_models.py:4894-4897 | the open period is not fully terminal and every gating period before it is; without one all are |
| `FoldLane.KeySays` | src/trading_manager_tasks/dashboard_read_models.py:4858-4871 | a period's key is its first and last month, and the last place of all when it names no months |
| `FoldLane.GateMakesOneLane` | src/trading_manager_tasks/dashboard_read_models.py:4882-4928 | every gated fold before the open one is terminal, every unfinished task of a later fold is blocked and names the open period, terminal tasks and positions are untouched |
| `FoldLane.GateTouchesOnlyTheLane` | src/trading_manager_tasks/dashboard_read_models.py:4898-4926 | tasks outside the open fold and not after it are unchanged, tasks of the open fold can only become visibly blocked, and no task loses a blocker or its sort place |
| `FoldLane.GateWrites` | src/trading_manager_tasks/dashboard_read_models.py:4898-4926 | all that the gate writes: which tasks of the open fold are shown as blocked, the status, state, mark and leading blocker of unfinished later tasks, and nothing else |
| `FoldLane.GateIsIdempotent` | src/trading_manager_tasks/dashboard_read_models.py:4882-4928 | gating twice in one order is gating once |
| `FoldLane.GateOrderIsUnique` | src/trading_manager_tasks/dashboard_read_models.py:4894 | when different gating periods have different keys only one gate order exists, so the gate depends on the tasks alone |
| `FoldLane.GateKeepsOrder` | src/trading_manager_tasks/dashboard_read_models.py:4887-4894 | the gate changes neither the gating periods nor the orders they allow |
| `FoldLane.GateSettles` | src/trading_manager_tasks/dashboard_read_models.py:4882-4928 | with different keys, gating again changes nothing in whatever order the second gate sorts |
| `FoldLane.OpenFoldIff` | src/trading_manager_tasks/dashboard_read_models.py:4894-4897 | whatever ties there are, the periods some gate order opens are exactly the open gating periods with no open one of a lesser key |
| `FoldLane.GatesAlikeIff` | src/trading_manager_tasks/dashboard_read_models.py:4882-4928 | any two gate orders open folds with the same key, and give the same timeline exactly when they open the same fold, or neither fold has a task to turn and nothing unfinished waits behind them |
| `FoldLane.GateIsDeterminedIff` | src/trading_manager_tasks/dashboard_read_models.py:4882-4928 | the gate depends on the tasks alone exactly when every two least open periods leave nothing to gate |
| `FoldLane.GateSettlesIff` | src/trading_manager_tasks/dashboard_read_models.py:4882-4928 | gating again in any order changes nothing exactly when it opens the same fold or there is nothing left to gate |
| `FoldLane.TiedFoldsDiffer` | src/trading_manager_tasks/dashboard_read_models.py:4894 | two fold labels whose months cannot be read tie, and their order decides which one's task is shown as blocked |
| `FoldLane.SortedCorrect` | src/trading_manager_tasks/dashboard_read_models.py:4826-4851 | the timeline sort permutes the tasks into key order |
| `FoldLane.SortedIsStable` | src/trading_manager_tasks/dashboard_read_models.py:4851 | tasks with equal keys keep their order, which fixes how ties are numbered |
| `FoldLane.SortedByFields` | src/trading_manager_tasks/dashboard_read_models.py:4826-4851 | the timeline is ordered by first month, last month, folds after single months, layer, stage and own sequence, each deciding only where those before are equal |
| `FoldLane.SortTimelineIsIdempotent` | src/trading_manager_tasks/dashboard_read_models.py:4850-4855 | the sorted timeline is in order, numbered 1..n, and sorting it again changes nothing |
| `FoldLane.SortAndNumber` | src/trading_manager_tasks/dashboard_read_models.py:4850-4855 | the numbering loop yields the specified timeline |
| `FoldLane.ProjectKeepsVisible` | src/trading_manager_tasks/dashboard_read_models.py:4939-4950 | the projection holds exactly the visible tasks |
| `FoldLane.ProjectKeepsOrder` | src/trading_manager_tasks/dashboard_read_models.py:4949-4950 | each visible task stands right after the visible tasks before it |
| `FoldLane.WaitingWorkIsShown` | src/trading_manager_tasks/dashboard_read_models.py:4882-4950 | every unfinished task behind the open fold is shown after the gate |
| `FoldLane.PeriodClosed` | src/trading_manager_tasks/dashboard_read_models.py:4896-4897 | the scan tells whether every task of the period is terminal |
| `FoldLane.FindFirstOpen` | src/trading_manager_tasks/dashboard_read_models.py:4894-4897 | the loop finds the first open period in gate order |
| `FoldLane.BlockOwn` | src/trading_manager_tasks/dashboard_read_models.py:4898-4902 | in place, blocked unfinished tasks of the open period become visibly blocked, all else stays |
| `FoldLane.BlockLater` | src/trading_manager_tasks/dashboard_read_models.py:4903-4926 | in place, unfinished tasks of later folds wait for the open period, all else stays |
| `FoldLane.BlockTimeline` | src/trading_manager_tasks/dashboard_read_models.py:4882-4928 | the two in-place passes make the specified gate |
| `EventFeedDispatch.OwnRunCredits` | src/trading_manager_tasks/event_feed_dispatch.py:130-133 | the run id a successful process records is recognised as this request's success |
| `EventFeedDispatch.CreditedIff` | src/trading_manager_tasks/event_feed_dispatch.py:219-235 | a receipt credits a request exactly by a succeeded row under a run id of that request |
| `EventFeedDispatch.PassCallsPrefix` | src/trading_manager_tasks/event_feed_dispatch.py:277-379 | for every oracle, a pass calls a prefix of the pending requests in planned order within the limit; finished requests use none of it |
| `EventFeedDispatch.PassEnds` | src/trading_manager_tasks/event_feed_dispatch.py:283-361 | a pass ends with a failed dispatch only in the mode that stops at errors and right after that call, with another fault at the first row whose task key is missing, no object or of another feed, and without a fault only when every key is usable |
| `EventFeedDispatch.PassLeavesCalls` | src/trading_manager_tasks/event_feed_dispatch.py:316-361 | a pass leaves exactly what its calls leave: log entry, runtime key kept exactly on failure, and the receipt written; nothing of an uncalled request changes |
| `EventFeedDispatch.ValidationCallsNothing` | src/trading_manager_tasks/event_feed_dispatch.py:313-328 | a validating pass changes nothing |
| `EventFeedDispatch.SummaryAddsUp` | src/trading_manager_tasks/event_feed_dispatch.py:362-397 | a pass without a fault takes as many pending requests as the limit allows; its summary has one request per finished or taken row, and its dispatch and provider-call counts are the calls it made, or its validation count the requests it took |
| `EventFeedDispatch.ItemsTell` | src/trading_manager_tasks/event_feed_dispatch.py:346-378 | every request a faultless pass ran has an item, in order of the calls, that says succeeded exactly when its process returned 0 and kept its key exactly when not |
| `EventFeedDispatch.IdleItemsTell` | src/trading_manager_tasks/event_feed_dispatch.py:295-312 | every other item is of a request that had succeeded, or, when validating, of one that was only validated |
| `EventFeedDispatch.Summarize` | src/trading_manager_tasks/event_feed_dispatch.py:379-397 | the counts of the summary are those of the items |
| `EventFeedDispatch.PassShortensPending` | src/trading_manager_tasks/event_feed_dispatch.py:277-379 | a pass of successful runs takes exactly its requests off the pending list |
| `EventFeedDispatch.DrainSchedule` | src/trading_manager_tasks/event_feed_dispatch.py:277-315 | with limit k, m passes have called exactly the first min(m k, n) pending requests in planned order |
| `EventFeedDispatch.DrainFinishesExactly` | src/trading_manager_tasks/event_feed_dispatch.py:277-315 | the plan is drained after ceil(n/k) passes and no earlier, and later passes call nothing |
| `EventFeedDispatch.NoneCalledTwice` | src/trading_manager_tasks/event_feed_dispatch.py:219-235 | no request is called twice however many passes are made |
| `EventFeedDispatch.HopelessHeadStarvesRest` | src/trading_manager_tasks/event_feed_dispatch.py:313-361 | with limit k, in either mode, k requests that never get done keep every later request from ever being called |
| `EventFeedDispatch.MixedPass` | src/trading_manager_tasks/event_feed_dispatch.py:277-379 | of a plan of requests that always succeed and requests that never get done, a pass in either mode calls the first pending ones, up to its limit or to the first that stops it, and takes exactly the called ones that succeed off the pending list |
| `EventFeedDispatch.EverCalledIff` | src/trading_manager_tasks/event_feed_dispatch.py:313-361 | in either mode, with any positive limit or none, a pending request is ever called exactly when no request pending ahead of it stops the pass and fewer that never get done are ahead than the limit |
| `EventFeedDispatch.DefaultModeCallsIff` | src/trading_manager_tasks/event_feed_dispatch.py:313-361 | in the default mode, where each request always gets done or always fails, a pending request is ever called exactly when no failing one is pending ahead of it |
| `EventFeedDispatch.BadKeyCutsPasses` | src/trading_manager_tasks/event_feed_dispatch.py:283-289 | a planned request with an unusable task key cuts every pass: the plan counts only up to it |
| `EventFeedDispatch.StuckRequestStarves` | src/trading_manager_tasks/event_feed_dispatch.py:313-361 | one request that always fails keeps a good one behind it from ever being called: with limit 1 when passes continue on errors, with no limit at all when they do not |
| `EventFeedDispatch.SelectedIsExact` | src/trading_manager_tasks/event_feed_dispatch.py:148-153 | the selection holds exactly the planned requests that match both filters |
| `EventFeedDispatch.TokensSay` | src/trading_manager_tasks/event_feed_dispatch.py:143-147 | a filter names exactly the stripped texts of its entries that are not blank |
| `EventFeedDispatch.FilterRefuses` | src/trading_manager_tasks/event_feed_dispatch.py:140-165 | the filter refuses unsupported feeds by name first, then exactly the named requests not planned under a named feed, then the limit, then an empty selection |
| `EventFeedDispatch.FilterAnswersIff` | src/trading_manager_tasks/event_feed_dispatch.py:136-165 | the filter answers exactly when every feed is supported, every named request is planned under a named feed, a given limit is positive, and something matches; the answer is the first matching requests up to the limit |
| `EventFeedDispatch.FilterRequests` | src/trading_manager_tasks/event_feed_dispatch.py:136-165 | the filter loop gives the specified selection or fault |
| `EventFeedDispatch.Dispatcher.AlreadySucceededAt` | src/trading_manager_tasks/event_feed_dispatch.py:219-235 | the scan tells whether the stored receipt credits the request |
| `EventFeedDispatch.Dispatcher.Execute` | src/trading_manager_tasks/event_feed_dispatch.py:316-361 | a run records its call, its receipt and its runtime key, kept only on failure |
| `EventFeedDispatch.Dispatcher.Dispatch` | src/trading_manager_tasks/event_feed_dispatch.py:277-379 | the dispatch loop ends in the state, items or fault of the specified pass |
| `FoldNaming.TokenIsStable` | src/trading_manager_tasks/fold_naming.py:8-15 | a token is words joined by single underscores, and its own token |
| `FoldNaming.NoTokenIff` | src/trading_manager_tasks/fold_naming.py:11-15 | a symbol has no token exactly when it has no letter or digit |
| `FoldNaming.ParsePrinted` | src/trading_manager_tasks/fold_naming.py:26-46 | parsing a printed fold id gives token and year exactly when the token has no underscore, otherwise nothing |
| `FoldNaming.PrintParsed` | src/trading_manager_tasks/fold_naming.py:26-46 | printing a parsed id gives the stripped lower-cased text back |
| `FoldNaming.FoldIdIff` | src/trading_manager_tasks/fold_naming.py:18-30 | a fold id is printed exactly for a start month YYYY-MM, from its year and the token, or unscoped without one |
| `FoldNaming.FoldIdsAgreeIff` | src/trading_manager_tasks/fold_naming.py:26-30 | two fold ids are equal exactly when tokens and years are |
| `FailureRegister.ValidatedIsReviewed` | src/trading_manager_tasks/failure_register.py:58-84 | a row that passes has stripped keys, skips only as an accepted skip, and carries a review when corrected or accepted |
| `FailureRegister.FaultIff` | src/trading_manager_tasks/failure_register.py:58-84 | a row is accepted exactly when its keys are not blank, its status is one of the seven, its kind is not blank, corrected and accepted rows carry a review, skips are accepted skips and the evidence is a list or a text; otherwise the fault is the first rule it breaks |
| `FailureRegister.AcceptedFields` | src/trading_manager_tasks/failure_register.py:58-107 | the accepted row: keys and review stripped, observed and unclassified_failure for a missing status and kind, one evidence text as a list of one, the default id for a blank one, all else unchanged |
| `FailureRegister.RevalidationFixes` | src/trading_manager_tasks/failure_register.py:58-107 | submitting a stored row again stores the same row |
| `FailureRegister.ValidationRange` | src/trading_manager_tasks/failure_register.py:58-107 | the rows validation can produce are exactly the tidy reviewed ones |
| `FailureRegister.DefaultIdOfToken` | src/trading_manager_tasks/failure_register.py:53-55 | a request id of joined lower-case words up to 120 characters is kept whole in its default failure id |
| `FailureRegister.DefaultIdsMeetIff` | src/trading_manager_tasks/failure_register.py:53-84 | two request ids share a default failure id exactly when their joined words agree on 120 characters, and up to that length exactly when they are made of the same words |
| `FailureRegister.DefaultIdsMeet` | src/trading_manager_tasks/failure_register.py:84 | the ids a-b and a_b do |
| `FailureRegister.LastWriteWins` | src/trading_manager_tasks/failure_register.py:121-125 | the last row written under an id is the one stored |
| `FailureRegister.UnwrittenStays` | src/trading_manager_tasks/failure_register.py:121-125 | ids not written keep their rows |
| `FailureRegister.UpsertAt` | src/trading_manager_tasks/failure_register.py:121-125 | what the table holds under an id after a batch is the batch's last row there, else what it held |
| `FailureRegister.SkipSurvivesIff` | src/trading_manager_tasks/failure_register.py:110-168 | after any run of upserts and marks, a request has its accepted skip under an id exactly when the last row written there is one, or none was written and it had one |
| `FailureRegister.SkipSurvivesRun` | src/trading_manager_tasks/failure_register.py:110-168 | an accepted skip survives every run in which no other request has its failure id, explicitly or by default, and its own request writes only accepted skips there |
| `FailureRegister.SharedIdRemovesSkip` | src/trading_manager_tasks/failure_register.py:84-125 | a new failure of any request sharing the default id removes the accepted skip |
| `FailureRegister.DashRemovesUnderscoreSkip` | src/trading_manager_tasks/failure_register.py:84-125 | recording a failure of a-b removes the accepted skip of a_b |
| `FailureRegister.MarkingIsOrderFree` | src/trading_manager_tasks/failure_register.py:141-168 | marking corrects exactly the selected eligible rows, whatever the fetch order |
| `FailureRegister.MarkCountsEligible` | src/trading_manager_tasks/failure_register.py:147-168 | it submits one row for each of them |
| `FailureRegister.MarkKeepsInv` | src/trading_manager_tasks/failure_register.py:129-168 | marking keeps the review rules |
| `FailureRegister.MarkKeepsAcceptedSkips` | src/trading_manager_tasks/failure_register.py:208-225 | marking never changes what any query sees as accepted skips, nor a row already corrected or accepted |
| `FailureRegister.MarkKeepsFacts` | src/trading_manager_tasks/failure_register.py:147-168 | a mark changes a row only into a corrected one: keys and skip flag stay, and its evidence grows by exactly the correction named for its request |
| `FailureRegister.MarkWrites` | src/trading_manager_tasks/failure_register.py:147-168 | a mark writes exactly the rows its query selects that have one of the five mutable statuses and a correction named for their request, and of those exactly status, review, correction, evidence and note |
| `FailureRegister.MarkTwice` | src/trading_manager_tasks/failure_register.py:129-168 | a repeated mark changes nothing and finds nothing eligible |
| `FailureRegister.RegisterHolds` | src/trading_manager_tasks/failure_register.py:110-168 | every sequence of upserts and marks keeps the review rules |
| `FailureRegister.Normalize` | src/trading_manager_tasks/failure_register.py:116 | the loop gives all validated rows in order, or the first fault |
| `FailureRegister.Register.PersistRows` | src/trading_manager_tasks/failure_register.py:110-126 | the table takes the specified upserts, or stays as it was on any invalid row |
| `FailureRegister.Register.MarkCorrected` | src/trading_manager_tasks/failure_register.py:129-168 | marking is never refused, corrects exactly the eligible rows and returns their number |

## Left out

- The pending and final diagnosis writes of the error handler, and notifications: separate files and calls to outside services, not part of the catalog or the closure decision.
- RepairClosure.Closer.ClosePendingAgentRepairs: leaves out the diagnosis recovery that opens the source's run; a pass may observe any diagnosis, so the effect of recovery is covered and its own steps are not.
- Text predicates over diagnoses (repaired, retry forbidden, forbidden scope, lock conflict) and over drain summaries: their verdicts are inputs.
- A closure visit ends with its receipt, or raises in one of its commands and ends the pass without one; exceptions while reading evidence, which end the pass before any action, and a kill of the whole process between a push and the receipt write are not modelled. Which commands of a raised visit had already taken effect is not recorded.
- Request and row validators of the catalog are one verdict; the deduplication window is given per call; one clock reading serves a whole call; times are whole microseconds, and whether the table returns occurrence times as timestamps is a parameter, since its definition is not part of this model; torn JSONL lines, paths, error references and payload fields are omitted.
- The catalog row id and other SHA-256 ids: taken as injective on what they digest.
- Argument parsing, the model-artifact gate before the attempt loop, run ids and log files of the replay script.
- ReplayAcquisition.ProviderBudgetHolds: acquisitions report at most the limit they were given, stated as a condition on the trace, because the acquisition code is not part of this model.
- Row counts, media types, hashes, artifact kinds and error summaries of completion receipts.
- Split-name normalisation, metric keywords, artifact and ready-signal counts, split references and warnings of dataset evidence: the normalised role and the metric gaps are inputs.
- Action, provider and target fields of planner decisions.
- Years beyond 9999, where month texts lose their width; ranges whose end is not a month key (read here as other text); and time zones other than the fixed offset of the month bounds.
- MonthKeys.NextKey: a year or month part that is not plain digits is a fault here; the source reads the parts with `int()`, which also takes a sign, surrounding spaces or an inner underscore ("+016-01", " 016-01").
- MonthKeys.IterMonths: faults such texts as bounds for the same reason; the source would step from them.
- Coverage over several files and the choice of a row's time field: a row is its parsed time, if it has one.
- The rank tables for layers and stages are inputs of the timeline key; the reason text and other detail fields the gate writes are omitted; the later step that attaches error contexts can unblock a task and is not part of the lane.
- Which of the tied gating periods the source's set iteration lists first: every order is allowed, and `FoldLane.GatesAlikeIff` says when it matters.
- Worker selection, runtime key contents, paths, environment and command lines of the dispatcher; feeds without a command module.
- EventFeedDispatch.DrainSchedule: assumes that task keys of different requests name different receipt files and that a run writes only its own, since the code that prepares task keys is not part of this model.
- Letters, digits, case and whitespace are ASCII; the symbol, run and source fields of failure rows are carried unchanged and omitted.
- FailureRegister.Register.MarkCorrected: its fetch is an input that lists the selected rows once each, in any order.
