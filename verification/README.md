# Long Invest: verified models of the protocol and algorithm cores

Dafny models of the parts of Long Invest whose correctness does not show from reading one function, each with the
properties that hold over all inputs, all runs or all reachable states. `dafny verify dfyconfig.toml` checks everything.

| files | what they model |
|---|---|
| `JsonTree`, `JsonSnapshot`, `JsonLaws`, `KeyOrder` | freezing live, possibly cyclic and shared Python objects into canonical snapshots, and thawing them |
| `Publication` | the two row triggers, CHECKs and keys that tie a published strategy version to its validation evidence |
| `JobStore`, `JobTables`, `FanIn`, `FanInSteps`, `LinkedJob` | coordinator, children, worker and watchdog of a bulk job over the shared job and item tables, for bulk backtests and daily data; the finalize command embedded in each child |
| `BatchProtocol`, `BatchLoop` | the checkpointed batch backtest under crashes, pauses, lost leases and overlapping attempts |
| `Screening`, `ScreeningStatements` | the screening tables with their three triggers under SQL's three-valued logic |
| `RetryLoop` | the wait for provider capacity against a clock and a deadline |
| `Evidence`, `EvidenceFields` | the evidence executor and the verifier that re-derives what it accepts |
| `Timeline`, `Paging` | the merged dashboard timeline; the page loops for today's events and for whole lists |
| `Rebase`, `TrainingRows` | point-in-time rebasing of adjusted prices, and the validation of training snapshots |
| `Series`, `PriceChart` | loading a price series page by page with an in-place sort; thinning it for the chart and dragging the two lines |

State that the source updates in place is a class whose methods are proved against a function of the old state
(`Publication.Database`, `Screening.Database`, `JobTables.Tables`, `BatchLoop.Job`, the active-marker set of
`JsonSnapshot`, the array of `Series`). The theorems are about those functions, over every finite run.

Assumptions, stated where they are used: statements and transactions are serialised and an error rolls back; clocks do
not run backward and a sleep lasts at least its argument (`RetryLoop.ForwardClock`); a UUID reads back from its own text
(`Evidence.World.Lawful`); the lists that are paged do not change between requests; Decimal and float prices are exact reals.

## Where the code does something else than it promises

Each item is proved: a concrete input, and the exact condition under which the promise holds.

- A version may be INSERTED already PUBLISHED: the trigger guards updates only. Backing is kept by a statement exactly when
  it is not such an insert (`Publication.StatementKeepsBackingIff`); one is accepted (`Publication.UnbackedVersionCanBeInserted`).
- `finish_linked_backtest_item` reads its link from the frozen execution context. `SubmitJob` re-encodes the embedded
  configuration with `json.dumps`, which rejects a `MappingProxyType`, so the read fails exactly when there is a link
  (`LinkedJob.FrozenContextReadsIffUnlinked`), and a child can read its own exactly from an unfrozen context
  (`FanIn.ChildReadsLinkIffStored`). A bulk backtest's items then only ever become FAILED
  (`FanIn.BacktestItemsNeverSucceed`, with the run `FanIn.SucceededChildFails`). The finalize protocol itself is sound either way.
- `report_progress` returns None without a lease and the batch loop carries on, so started items can leave the window above
  the checkpoint. Over every run they start inside exactly when no attempt begins an item past the checkpoint
  (`BatchProtocol.NoneAheadIff`), which takes a refused report
  (`BatchProtocol.BeginKeepsWindowIff`, `BatchProtocol.PassesCheckpointOnlyWhenRefused`; `BatchProtocol.RefusedAttemptLeavesWindow`).
- For the same reason an attempt that lost its lease can start items again below the checkpoint and without recovery
  (`BatchProtocol.StaleAttemptRestarts`). Over every run, restarts are recoveries exactly when no attempt beyond its first
  chunk starts an item that was started before (`BatchProtocol.RestartsRecoveredIff`), and no item below the checkpoint is
  started exactly when no attempt behind the checkpoint goes on (`BatchProtocol.NoneBelowIff`). Both hold while items are
  started under the lease.
- The screening child trigger looks at NEW.batch_id only: an update may move a child out of a completed batch. The batch is
  frozen exactly under statements that do not (`Screening.FrozenUnlessChildMovesOut`, `Screening.CompletedBatchCanLosePeriod`).
- The executor compares metadata by Python value (1 == 1.0), the verifier by digest of the rendered text. Executor evidence is
  accepted exactly when the digests agree too (`Evidence.ExecutorEvidenceAcceptedIff`, `Evidence.ExecutorEvidenceCanBeRefused`).
- `get_training_data` answers None when it has nothing, but raises on data its guards let through: when the last raw close is
  zero, or when the snapshot it builds refuses the rows, as for a repeated date (`Rebase.RepeatedDateRaises`) or prices that are
  not positive (`Rebase.NegativeClosesRaise`). The exact conditions are `Rebase.DataComesBackIff`.
- The timeline applies its cursor after each source was cut, and lists jobs by creation but shows their last update, so entries
  can be missing (`Timeline.CursorLosesEntries`, `Timeline.UnorderedSourceHidesNewest`). None is missing exactly when the sources
  hand over `limit` newer entries for each one they keep back (`Timeline.TimelineIsNewestIff`).
- Events dated after today stop the search for today's events at the first page (`Paging.TodayIsCompleteIff`, `Paging.FutureEventHidesToday`).

## Model

| member | source | states |
|---|---|---|
| JsonSnapshot.FreezeValue | backend/src/long_invest/platform/json_snapshot.py:20-56 | terminates on every object graph, cyclic ones included; at every call the mutable set of active markers is exactly the containers on the current path, and it comes back unchanged on return and on raise; the result is that of the pure freeze |
| JsonSnapshot.FreezeMappingItems | backend/src/long_invest/platform/json_snapshot.py:37-46 | the loop over sorted keys stops at the first error and builds the fields in key order |
| JsonSnapshot.FreezeJsonMapping | backend/src/long_invest/platform/json_snapshot.py:11-17 | refuses everything but a mapping, and returns a mapping when it returns |
| JsonSnapshot.SnapshotTakenIff | backend/src/long_invest/platform/json_snapshot.py:20-56 | freeze succeeds exactly when no walk through the object graph meets a container twice and none ends at an unsupported value, a non-finite number or a non-string key; shared containers are accepted |
| JsonSnapshot.FreezeSucceedsIff | backend/src/long_invest/platform/json_snapshot.py:33-56 | the same from the middle of a recursion, with any set of containers already active |
| JsonSnapshot.ErrorHasFault | backend/src/long_invest/platform/json_snapshot.py:20-56 | every error names a fault that can be walked to: a container met again, a number that is not finite, a key that is no string, a value of no supported kind |
| JsonSnapshot.SnapshotOfFiniteValue | backend/src/long_invest/platform/json_snapshot.py:20-56 | on a graph that spells out a finite tree, freezing the live object equals freezing the tree, error for error |
| JsonSnapshot.AcceptedIsFinite | backend/src/long_invest/platform/json_snapshot.py:33-56 | every accepted object graph spells out a finite tree with distinct keys |
| JsonSnapshot.LiveSnapshotsEqualIffSame | backend/src/long_invest/platform/json_snapshot.py:20-56 | two live objects have equal snapshots exactly when they agree up to insertion order, container kind and sharing |
| JsonLaws.FreezeYieldsFrozen | backend/src/long_invest/platform/json_snapshot.py:37-55 | results are read-only mappings with strictly ascending string keys, tuples and finite scalars at every depth |
| JsonLaws.ScalarFreezes | backend/src/long_invest/platform/json_snapshot.py:21-32 | None, bool, int, str, date and finite floats freeze to themselves, a finite Decimal to its text; other numbers are not finite, other values not supported |
| JsonLaws.FrozenIsSame | backend/src/long_invest/platform/json_snapshot.py:20-56 | at every depth the frozen form holds the value's own scalars under its own keys, a Decimal as its text |
| JsonLaws.FreezeIdempotent | backend/src/long_invest/platform/json_snapshot.py:20-56 | freeze(freeze(v)) = freeze(v) |
| JsonLaws.FreezeForgetsOrder | backend/src/long_invest/platform/json_snapshot.py:42-44 | values equal up to insertion order at any depth freeze alike, errors included |
| JsonLaws.SnapshotsEqualIffSame | backend/src/long_invest/platform/json_snapshot.py:20-56 | equal snapshots if and only if the same content: equal scalars, a Decimal against its text, whatever the order and kind of containers |
| JsonLaws.FreezeThawRoundTrip | backend/src/long_invest/platform/json_snapshot.py:59-64 | freeze(thaw(f)) = f for every frozen f |
| JsonLaws.FreezeAfterThaw | backend/src/long_invest/platform/json_snapshot.py:59-64 | thawing before freezing changes neither results nor errors |
| JsonLaws.ThawIdempotent | backend/src/long_invest/platform/json_snapshot.py:59-64 | thaw is idempotent on every value |
| JsonLaws.ThawedSnapshotIsPlain | backend/src/long_invest/platform/json_snapshot.py:59-64 | a thawed snapshot holds no tuple and no read-only mapping |
| KeyOrder.SortForgetsOrder | backend/src/long_invest/platform/json_snapshot.py:42 | a set of keys has one sorted listing, whatever order it was given in |
| KeyOrder.LeIsLexicographic | backend/src/long_invest/platform/json_snapshot.py:42 | keys are compared character by character, a beginning before what it begins |
| Publication.Database.ExecuteStatement | backend/alembic/versions/20260721_0012_strategy_backtest.py:122-231 | one insert, update or delete on the version and validation tables: accepted exactly when CHECKs, keys and trigger allow it, and undone otherwise |
| Publication.UpdateVersionAcceptedIff | backend/alembic/versions/20260721_0012_strategy_backtest.py:122-181 | an update of a version is accepted exactly when its columns and keys fit and: unpublished, it becomes PUBLISHED only with matching succeeded evidence; published, its facts stay and it is published or archived; archived, its facts stay and it comes back only with evidence |
| Publication.UpdateValidationAcceptedIff | backend/alembic/versions/20260721_0012_strategy_backtest.py:183-231 | an update of a validation is accepted exactly when identity and an existing binding stay, RUNNING does not return to PENDING and a completed outcome stays; binding, running and completing are allowed |
| Publication.InsertVersionAcceptedIff | backend/alembic/versions/20260721_0012_strategy_backtest.py:429-503 | an insert of a version is accepted exactly when its columns fit together, its id and number are free and its validation exists |
| Publication.InsertValidationAcceptedIff | backend/alembic/versions/20260721_0012_strategy_backtest.py:374-428 | the same for a validation |
| Publication.DeleteVersionAcceptedIff | backend/alembic/versions/20260721_0012_strategy_backtest.py:429-503 | a version can be deleted exactly when no validation is bound to it |
| Publication.DeleteValidationAcceptedIff | backend/alembic/versions/20260721_0012_strategy_backtest.py:374-428 | a validation can be deleted exactly when no version names it |
| Publication.StatementKeepsPublication | backend/alembic/versions/20260721_0012_strategy_backtest.py:122-231 | no statement separates a published or archived version from its matching evidence or changes either; needs both triggers and both foreign keys |
| Publication.StatementKeepsBackingIff | backend/alembic/versions/20260721_0012_strategy_backtest.py:122-181 | a statement keeps every published version backed exactly when it does not insert one already published |
| Publication.UnbackedVersionCanBeInserted | backend/alembic/versions/20260721_0012_strategy_backtest.py:176-180 | with only a pending validation in the tables, the insert of a published version naming it is accepted and leaves it unbacked |
| Publication.PublishedAlwaysBacked | backend/alembic/versions/20260721_0012_strategy_backtest.py:122-231 | over every sequence of statements in which versions enter unpublished, each published version has a succeeded validation with its id, strategy, version and source hash |
| Publication.PublishedAlwaysBackedFromEmpty | backend/alembic/versions/20260721_0012_strategy_backtest.py:122-231 | the same for every run that starts from empty tables |
| Publication.PublicationIsPermanent | backend/alembic/versions/20260721_0012_strategy_backtest.py:122-231 | from publication on the facts and the evidence row never change, the version is never deleted and only alternates between published and archived |
| Publication.RestoreAcceptedIff | backend/alembic/versions/20260721_0012_strategy_backtest.py:122-181 | an archived version can be restored exactly when its evidence matches |
| Publication.RestoreNeverBlocked | backend/alembic/versions/20260721_0012_strategy_backtest.py:122-231 | a version once published and backed can be restored after any run that archived it |
| Publication.EitherTriggerAloneFails | backend/alembic/versions/20260721_0012_strategy_backtest.py:122-231 | dropping either trigger lets one update leave a published version unbacked |
| JobTables.Tables.SubmitJob | backend/src/long_invest/platform/jobs/service.py:52-110 | a replay of the same content is silent, other content under the key raises, a new key adds one row |
| JobTables.Tables.InitializeJobItems | backend/src/long_invest/platform/jobs/service.py:112-130 | adds exactly the missing pending items, and refuses an empty, repeating or different scope |
| JobTables.Tables.CoordinateParent | backend/src/long_invest/bootstrap/backtest_jobs.py:54-85 | items and children of a parent are created in one transaction, or nothing is |
| JobTables.Tables.FinishAndSubmit | backend/src/long_invest/platform/jobs/service.py:277-337 | closing an item and submitting the finalize job when it was the last are one transaction |
| JobTables.Tables.AbandonAndSubmit | backend/src/long_invest/platform/jobs/watchdog.py:151-160 | the watchdog's path, which submits even for an item already settled |
| FanIn.FinalizeExactlyWhenAllTerminal | backend/src/long_invest/bootstrap/backtest_jobs.py:54-136 | after any interleaving of coordinators, completions, failures and abandonments of any number of parents, a parent has at most one finalize job, and has one exactly when it was coordinated and every item is terminal |
| FanIn.SubmissionsNeverConflict | backend/src/long_invest/bootstrap/jobs.py:461-588 | no step of any run is refused for a reused key, a changed scope or a missing item: the command embedded in a daily child equals the one it rebuilds |
| FanIn.CoordinatorRerunIsNoop | backend/src/long_invest/bootstrap/jobs.py:427-442 | running a coordinator again changes nothing, whatever batch id it would have created |
| FanIn.AllTerminalMeans | backend/src/long_invest/platform/jobs/service.py:277-337 | comparing the two counts says exactly that every item is terminal |
| FanIn.CloseKeepsInvariant | backend/src/long_invest/platform/jobs/service.py:277-379 | closing an item keeps "finalize job exists exactly when all terminal" for every parent |
| FanIn.RunKeepsInvariant | backend/src/long_invest/bootstrap/backtest_jobs.py:18-136 | every run keeps the job, item and batch tables consistent with the parents' plans |
| FanIn.ItemsOnlyProgress | backend/src/long_invest/platform/jobs/service.py:277-379 | over every run no item disappears, terminal items stay terminal, succeeded, skipped and canceled ones keep their status (what each step sets is FanInSteps) |
| FanInSteps.FinishedSetsItem | backend/src/long_invest/platform/jobs/service.py:277-337 | a finishing child is accepted exactly with a current token, a terminal status and, for a backtest, an unfrozen context; its own item then has the reported status and no other changes, unless it was succeeded, skipped or canceled |
| FanInSteps.FailedSetsItem | backend/src/long_invest/platform/jobs/worker.py:124-135 | the same for a child whose handler failed, with FAILED |
| FanInSteps.AbandonedSetsItem | backend/src/long_invest/platform/jobs/service.py:339-379 | the same for a child lost twice, token or not |
| FanInSteps.CoordinationCreates | backend/src/long_invest/bootstrap/backtest_jobs.py:54-85 | the first coordination of a parent adds exactly one pending item and one child job for each requested symbol, and for daily data the batch |
| FanInSteps.PlanValidMeans | backend/src/long_invest/bootstrap/backtest_jobs.py:39-52 | what a coordinator requires of its symbols |
| FanInSteps.SubmitMeans | backend/src/long_invest/platform/jobs/service.py:52-110 | a used key is a replay exactly when type, queue, object, timeouts and configuration are the first ones |
| FanInSteps.BacktestChildHolds | backend/src/long_invest/bootstrap/backtest_jobs.py:60-85 | field by field, what a child of a bulk backtest holds in every reachable store, its embedded finalize command included |
| FanInSteps.DailyChildHolds | backend/src/long_invest/bootstrap/jobs.py:461-514 | the same for a daily child |
| FanInSteps.FinalizeJobHolds | backend/src/long_invest/bootstrap/backtest_jobs.py:188-206 | the same for the finalize jobs |
| FanInSteps.FinalizeConfigReads | backend/src/long_invest/bootstrap/jobs.py:572-588 | what the finalize handlers find in the stored configuration |
| FanIn.ChildReadsLinkIffStored | backend/src/long_invest/platform/jobs/contracts.py:170-200 | in every reachable store a child's stored JSON configuration reads back as exactly its own link and finalize command, and the link can be read exactly when the context is not frozen |
| FanIn.BacktestItemsNeverSucceed | backend/src/long_invest/bootstrap/backtest_jobs.py:95-136 | in every run whose handlers get frozen contexts, items of bulk backtests are only ever pending or failed; that no child reads its link is derived from its configuration |
| FanIn.SucceededChildFails | backend/src/long_invest/bootstrap/backtest_jobs.py:95-136 | a bulk backtest of one security: the child finishes with success, is refused, and its item becomes FAILED; from an unfrozen context it would have become SUCCEEDED |
| FanIn.RenderInjective | backend/src/long_invest/bootstrap/backtest_jobs.py:63-196 | distinct idempotency scopes have distinct texts |
| LinkedJob.EmbeddedCommandRoundTrip | backend/src/long_invest/platform/jobs/contracts.py:170-184 | the finalize command embedded in a stored child configuration reads back unchanged among any other entries |
| LinkedJob.SnapshotReadsBack | backend/src/long_invest/bootstrap/backtest_jobs.py:209-223 | `SubmitJob(**_job_snapshot(c))` is `c` |
| LinkedJob.SnapshotReadIff | backend/src/long_invest/platform/jobs/contracts.py:149-160 | a command can be built from its snapshot exactly with positive ordered timeouts within a day and a JSON object as configuration |
| LinkedJob.FrozenLinkFails | backend/src/long_invest/platform/jobs/contracts.py:192-212 | no link whose command carries a configuration object can be read from a frozen context |
| LinkedJob.FrozenContextReadsIffUnlinked | backend/src/long_invest/platform/jobs/contracts.py:149-212 | from the frozen execution context, a link that reads fine from storage can be read exactly when there is none |
| BatchProtocol.CheckpointSafety | backend/src/long_invest/bootstrap/backtest_postgres_jobs.py:67-97 | in every run, stale attempts included: the checkpoint is monotone and a chunk boundary, everything below was started, and a lease holder starts items only inside the chunk at the checkpoint |
| BatchProtocol.CompleteMeansAllStarted | backend/src/long_invest/bootstrap/backtest_postgres_jobs.py:67-116 | in every run, everything below an attempt's position was started; an attempt that ran to the end, with or without its lease, and a checkpoint at the end both mean that every item was started at least once |
| BatchProtocol.RecoveredIffFirstChunk | backend/src/long_invest/bootstrap/backtest_postgres_jobs.py:67-97 | an item is recovered exactly in the first chunk of an attempt configured to recover or claimed at a positive checkpoint |
| BatchProtocol.BeginKeepsWindowIff | backend/src/long_invest/bootstrap/backtest_postgres_jobs.py:68-81 | starting an item keeps started items below checkpoint + concurrency exactly when the attempt is not past the checkpoint |
| BatchProtocol.PassesCheckpointOnlyWhenRefused | backend/src/long_invest/platform/jobs/postgres_service.py:149-184 | an attempt gets past the checkpoint exactly by carrying on after a refused report |
| BatchProtocol.WindowWhenStopping | backend/src/long_invest/bootstrap/backtest_postgres_jobs.py:82-97 | if attempts stopped once refused, started items would always lie below checkpoint + concurrency |
| BatchProtocol.RefusedAttemptLeavesWindow | backend/src/long_invest/bootstrap/backtest_postgres_jobs.py:84-97 | a run in which the window is left |
| BatchProtocol.RestartDisciplineFromStart | backend/src/long_invest/bootstrap/backtest_postgres_jobs.py:67-97 | when items start under the lease only, every restart of an item is a recovery, except in a first chunk at checkpoint 0 without the recover flag, and started items lie below checkpoint + concurrency |
| BatchProtocol.RestartsRecoveredIff | backend/src/long_invest/bootstrap/backtest_postgres_jobs.py:67-97 | over any run, lost leases and overlapping attempts included, every restart is such a recovery exactly when no attempt beyond its first chunk starts an item that was started before |
| BatchProtocol.BeginKeepsRestartsIff | backend/src/long_invest/bootstrap/backtest_postgres_jobs.py:68-81 | the same for one item start in any reachable state |
| BatchProtocol.NoneBelowIff | backend/src/long_invest/bootstrap/backtest_postgres_jobs.py:67-97 | over any run no item below the checkpoint is started exactly when no attempt that has fallen behind the checkpoint goes on |
| BatchProtocol.BeginsOffCheckpointIff | backend/src/long_invest/bootstrap/backtest_postgres_jobs.py:68-81 | an attempt starts an item below the checkpoint, or beyond the window, exactly when its chunk is behind or past the checkpoint |
| BatchProtocol.NoneAheadIff | backend/src/long_invest/bootstrap/backtest_postgres_jobs.py:67-97 | over any run every item was started below the checkpoint of its moment + concurrency exactly when no attempt that has passed the checkpoint goes on |
| BatchProtocol.StaleAttemptRestarts | backend/src/long_invest/bootstrap/backtest_postgres_jobs.py:84-97 | a run in which an attempt without its lease restarts an item, unrecovered and below the checkpoint |
| BatchProtocol.NextAttemptTakesUnfinishedChunk | backend/src/long_invest/bootstrap/backtest_postgres_jobs.py:67-69 | the next attempt starts at the checkpoint and recovers when it is positive or configured; its first chunk holds all that was started above the checkpoint exactly when nothing was started beyond the window |
| BatchLoop.Job.BacktestBatch | backend/src/long_invest/bootstrap/backtest_postgres_jobs.py:67-116 | one execution of the loop does to the job exactly the run of protocol events its chunks' fates spell out, a crash after any number of a chunk's starts among them; it starts the items from the checkpoint on one after the other, only its first chunk recovered; completing means it started them all, every item was started, and with the lease the checkpoint is at the end |
| BatchLoop.UndisturbedCompletes | backend/src/long_invest/bootstrap/backtest_postgres_jobs.py:68-97 | without a crash or a stop the execution completes, with or without its lease |
| BatchLoop.FirstDisturbanceEnds | backend/src/long_invest/bootstrap/backtest_postgres_jobs.py:84-96 | the first crash, or the first stop under a lease kept until then, ends it so |
| BatchLoop.Job.ReportProgress | backend/src/long_invest/platform/jobs/postgres_service.py:149-184 | without the lease nothing is persisted and None comes back, else the checkpoint is stored and a stop releases the lease |
| Screening.Database.ExecuteStatement | backend/alembic/versions/20260804_0041_strategy_screening_models.py:355-456 | one row insert, update or delete on the four tables, with cascades, undone when a trigger, CHECK or key refuses it |
| ScreeningStatements.UpdateBatchAcceptedIff | backend/alembic/versions/20260804_0041_strategy_screening_models.py:355-376 | a batch row may change exactly while it is not SUCCEEDED or CANCELED, with finished status and completion time together, and without children under a free id |
| ScreeningStatements.InsertBatchAcceptedIff | backend/alembic/versions/20260804_0041_strategy_screening_models.py:51-74 | when a batch may be inserted |
| ScreeningStatements.InsertPeriodAcceptedIff | backend/alembic/versions/20260804_0041_strategy_screening_models.py:121-160 | a period may be inserted exactly into an open batch, with a free number, and in order with every period |
| ScreeningStatements.UpdatePeriodAcceptedIff | backend/alembic/versions/20260804_0041_strategy_screening_models.py:379-456 | a period may be rewritten exactly into an open batch, in order, and without leaving its results; the batch it leaves does not matter |
| ScreeningStatements.DeletePeriodAcceptedIff | backend/alembic/versions/20260804_0041_strategy_screening_models.py:379-416 | a period of an open batch may be deleted and takes exactly its results along |
| ScreeningStatements.UpdateScopeAcceptedIff | backend/alembic/versions/20260804_0041_strategy_screening_models.py:161-228 | the same for rewriting a scope item |
| ScreeningStatements.UpdateResultAcceptedIff | backend/alembic/versions/20260804_0041_strategy_screening_models.py:229-340 | a result may be rewritten exactly to a period and a scope item of its open batch that have no other result |
| ScreeningStatements.ReachableIsSound | backend/alembic/versions/20260804_0041_strategy_screening_models.py:355-456 | the conditions above decide every statement of every run |
| Screening.OutOfOrderMeans | backend/alembic/versions/20260804_0041_strategy_screening_models.py:417-449 | what the trigger's condition lets through when dates may be NULL |
| Screening.ThreeValued | backend/alembic/versions/20260804_0041_strategy_screening_models.py:426-445 | SQL's logic: comparisons with NULL are unknown |
| Screening.GuardIsExact | backend/alembic/versions/20260804_0041_strategy_screening_models.py:417-456 | a period passes the trigger under an id, free or taken, exactly when the table with it in that place is ordered |
| Screening.PeriodsAlwaysOrdered | backend/alembic/versions/20260804_0041_strategy_screening_models.py:417-456 | in every reachable state any two periods of a batch have all four dates non-decreasing in sequence_no wherever both are known |
| Screening.FrozenUnlessChildMovesOut | backend/alembic/versions/20260804_0041_strategy_screening_models.py:355-416 | an accepted statement leaves a completed batch and its children alone exactly when it does not move a child to another batch |
| Screening.CompletedBatchIsFrozen | backend/alembic/versions/20260804_0041_strategy_screening_models.py:355-416 | over any continuation whose child updates keep their batch, a completed batch, its periods, scope items and results never change |
| Screening.CompletedRowIsFrozen | backend/alembic/versions/20260804_0041_strategy_screening_models.py:355-376 | the row of a completed batch never changes in any continuation |
| Screening.BatchesNeverDisappear | backend/alembic/versions/20260804_0041_strategy_screening_models.py:358-376 | batch deletes never take effect: the number of batches never falls |
| Screening.CompletedBatchCanLosePeriod | backend/alembic/versions/20260804_0041_strategy_screening_models.py:379-416 | a period of a succeeded batch can be moved into a running one |
| RetryLoop.WaitForHistoryCapacity | backend/src/long_invest/bootstrap/history_backfills.py:162-200 | stops at the first call that may not be followed by another, with that call's outcome, after at most ceil(4R) + 1 calls for R seconds left |
| RetryLoop.StopIsUnique | backend/src/long_invest/bootstrap/history_backfills.py:171-200 | the provider's answers determine the call at which it stops |
| RetryLoop.MostCallsAreMade | backend/src/long_invest/bootstrap/history_backfills.py:162-200 | the bound is attained for every R and for both capacity errors |
| RetryLoop.OutcomeMeans | backend/src/long_invest/bootstrap/history_backfills.py:172-200 | by the last answer: bars are returned; the two capacity errors and the first two retryable HTTP failures end in a timeout only at the deadline; every other error is raised, the third HTTP failure too |
| RetryLoop.AlwaysStops | backend/src/long_invest/bootstrap/history_backfills.py:171-200 | the schedule has a stopping call within the bound, whatever the provider answers |
| RetryLoop.PausesAndFailures | backend/src/long_invest/bootstrap/history_backfills.py:184-200 | at most two HTTP failures are tolerated and a third is raised; every pause is positive, asked to end by the deadline, and a quarter or half second after a failure unless cut |
| Evidence.VerifierAgreesWithExecutor | backend/src/long_invest/bootstrap/strategy_validation.py:85-161 | a claim is accepted exactly when its header is that of a completed backtest and its checks are those the executor builds from that backtest, but for the three fixed-sample training fields |
| EvidenceFields.AcceptedMeans | backend/src/long_invest/bootstrap/strategy_validation.py:85-161 | a claim is accepted exactly when a completed single-mode backtest has its source, parameters, digests, environment, image and version, and each of the four checks holds, field by field and with no other fields, what run, backtest and header say |
| EvidenceFields.ExecutedHolds | backend/src/long_invest/bootstrap/strategy_validation.py:261-321 | the same field by field for the evidence of every executed run, with the days and the hash of the fixed sample |
| EvidenceFields.ExecutedMeans | backend/src/long_invest/bootstrap/strategy_validation.py:38-78 | evidence comes back exactly when every listed fact about run, draft, analysis and backtest is established, training before testing among them; later failures are told apart |
| EvidenceFields.EqualIsIdentity | backend/src/long_invest/bootstrap/strategy_validation.py:193-196 | Python equality of JSON values without numbers is identity |
| EvidenceFields.EqualNumbers | backend/src/long_invest/bootstrap/strategy_validation.py:193-196 | an int equals exactly the numbers and truth values of its value |
| Evidence.AcceptedClaimsAgree | backend/src/long_invest/bootstrap/strategy_validation.py:85-161 | two accepted claims for one run and backtest agree in everything else |
| Evidence.ExecutorEvidenceAcceptedIff | backend/src/long_invest/bootstrap/strategy_validation.py:38-78 | executor evidence passes the verifier exactly when the backtest's metadata and schema have the run's digests |
| Evidence.ExecutorEvidenceAccepted | backend/src/long_invest/bootstrap/strategy_validation.py:178-221 | it always passes when the backtest holds the very metadata and schema of the draft |
| Evidence.ExecutorEvidenceCanBeRefused | backend/src/long_invest/bootstrap/strategy_validation.py:195-196 | a run whose evidence passes the executor and fails the verifier |
| Evidence.ExecutorMeetsExpected | backend/src/long_invest/bootstrap/strategy_validation.py:261-321 | the four checks assembled by the executor are those the verifier writes out |
| Evidence.FixedTrainingRows | backend/src/long_invest/bootstrap/strategy_validation.py:224-258 | the sample has one row a day from 1990-01-01, closes rising by a cent from 10 with a tenth to high and low, passes the snapshot's validation, and is built for 1 to 10000 bars |
| Timeline.TimelineIsNewestIff | backend/src/long_invest/bootstrap/dashboard.py:50-76 | for any cursor and source order: the timeline is the newest `limit` of all candidates exactly when the sources hand over, for every candidate they keep back, `limit` newer ones |
| Timeline.CandidateIff | backend/src/long_invest/bootstrap/dashboard.py:59-69 | candidates are the entries of the answering sources before the cursor |
| Timeline.ReadIff | backend/src/long_invest/bootstrap/dashboard.py:59-69 | of these, read are the ones among the first `limit` of their source |
| Timeline.ShownGoesBack | backend/src/long_invest/bootstrap/dashboard.py:72-76 | at most `limit` read entries are shown, times never increasing, ids decreasing within one time |
| Timeline.FirstTimelineIsNewest | backend/src/long_invest/bootstrap/dashboard.py:50-76 | without a cursor and with sources listed newest first, reading `limit` from each is enough |
| Timeline.NewestIsUnique | backend/src/long_invest/bootstrap/dashboard.py:72-76 | there is one such list |
| Timeline.SortAndCutIsNewest | backend/src/long_invest/bootstrap/dashboard.py:72-76 | sorting by (time, id) and cutting lists the newest entries, newest first |
| Timeline.TimelineFailsIff | backend/src/long_invest/bootstrap/dashboard.py:59-71 | it raises exactly when every source does |
| Timeline.CursorLosesEntries | backend/src/long_invest/bootstrap/dashboard.py:63-69 | a page behind a cursor can be empty with matching entries left |
| Timeline.UnorderedSourceHidesNewest | backend/src/long_invest/bootstrap/dashboard.py:129-145 | a fresh update of an old job can be hidden |
| Paging.TodaySignalEvents | backend/src/long_invest/bootstrap/dashboard.py:425-440 | the loop terminates and returns all of today's events of a newest-first list, or those of the first page when it begins in the future |
| Paging.TodayIsCompleteIff | backend/src/long_invest/bootstrap/dashboard.py:425-440 | nothing of today is missed exactly when no event is dated in the future or none of today's lies beyond the first page |
| Paging.TodayIsFilter | backend/src/long_invest/bootstrap/dashboard.py:425-440 | today's events are those from 16:00 UTC of the day before to 16:00 UTC |
| Paging.FutureEventHidesToday | backend/src/long_invest/bootstrap/dashboard.py:425-440 | behind one event of tomorrow, the last of 200 events of today is lost |
| Paging.AllPagesAreRead | backend/src/long_invest/bootstrap/dashboard.py:412-422 | the page count taken from the first answer reconstructs the whole list in order, for every page size |
| Rebase.FactorDoesNotMatter | backend/src/long_invest/bootstrap/strategy_data.py:126-145 | multiplying all adjusted prices by one positive factor changes nothing |
| Rebase.RebasingKeepsShape | backend/src/long_invest/bootstrap/strategy_data.py:126-145 | the last close becomes the close of the raw bar of the last adjusted date; order and ratio of any two prices of any days are kept |
| Rebase.RebasingIsIdempotent | backend/src/long_invest/bootstrap/strategy_data.py:126-145 | rebasing rebased prices changes nothing |
| Rebase.BarsCorrespond | backend/src/long_invest/bootstrap/strategy_data.py:111-160 | whenever data comes back, raw and adjusted bars are in bijection by date, each date once in either, and all raw bars share security and source |
| Rebase.DataComesBackIff | backend/src/long_invest/bootstrap/strategy_data.py:111-160 | data comes back exactly when raw and adjusted bars are comparable, the raw close of the last adjusted date is positive and the adjusted bars make a valid snapshot; an error is raised exactly when that close is zero, or it agrees in sign with the last adjusted one and that snapshot is not valid |
| Rebase.SnapshotDelivers | backend/src/long_invest/bootstrap/strategy_data.py:146-160 | symbol, source, newest version and time, and rows in ascending dates in range with positive prices between low and high |
| Rebase.RejectedHasFault | backend/src/long_invest/modules/strategies/contracts.py:354-404 | a refused snapshot has dates that do not ascend or leave the range, bad prices, or a symbol, source or version out of shape |
| Rebase.RebasedRowsOkIff | backend/src/long_invest/modules/strategies/contracts.py:377-404 | rebased rows pass the snapshot's validation exactly when the adjusted bars do |
| Rebase.RepeatedDateRaises | backend/src/long_invest/modules/strategies/contracts.py:377-404 | a date given twice in both lists passes the port's guards and is raised by the snapshot |
| Rebase.NegativeClosesRaise | backend/src/long_invest/modules/strategies/contracts.py:377-404 | so is a day whose closes are both negative |
| Series.SortInPlace | frontend/src/features/market-data/gateway.ts:308 | the array becomes the sort of its bars by the collation's rank |
| Series.SortIsStable | frontend/src/features/market-data/gateway.ts:308 | bars whose dates collate alike keep their order |
| Series.EnsureCompleteSeries | frontend/src/features/market-data/gateway.ts:291-310 | accepts exactly pages that report one total, hold that many bars and repeat no date |
| Series.LoadDailyPrices | frontend/src/features/market-data/gateway.ts:418-438 | against any server: success returns a permutation of the fetched bars, ordered, without repeated dates and as many as every page reports, and failure names a page that was asked for and failed or means the fetched pages are not whole; against one that serves a list, the list sorted, exactly when no date repeats |
| Series.AcceptedSeriesIsSound | frontend/src/features/market-data/gateway.ts:291-310 | an accepted series is a permutation of the fetched bars, as many as reported, without repeated dates and in order, strictly if the collation tells its dates apart |
| Series.ServedListIsFetched | frontend/src/features/market-data/gateway.ts:422-433 | a server that cuts one list into 500-row pages, in either mode, with whatever behind the pages it has, is read completely, and accepted exactly when no date repeats |
| Series.AnswersLoadIff | frontend/src/features/market-data/gateway.ts:376-433 | stated on raw answers of either mode: pages of 500 rows with the list's length as total are loaded completely, exactly when no date repeats |
| Series.AskedIff | frontend/src/features/market-data/gateway.ts:422-431 | which pages are requested |
| Series.UnpagedListLoadsIff | frontend/src/features/market-data/gateway.ts:412-433 | a server that answers every request with the whole list and no pagination block is accepted exactly when the list fits on one page and repeats no date |
| PriceChart.ThinningKeepsShape | frontend/src/features/market-data/daily-price-chart.tsx:94-97 | at most 1501 points, never more than the input, first and last kept, short series untouched |
| PriceChart.KeptAscend | frontend/src/features/market-data/daily-price-chart.tsx:94-97 | kept indices ascend in gaps of at most the step |
| PriceChart.KeptIff | frontend/src/features/market-data/daily-price-chart.tsx:94-97 | kept are the first, the last and the multiples of the length divided by 1500 and rounded up |
| PriceChart.BoundIsReached | frontend/src/features/market-data/daily-price-chart.tsx:94-97 | 3000 points are drawn as 1501 |
| PriceChart.DraggingKeepsGap | frontend/src/features/market-data/daily-price-chart.tsx:112-123 | after any drags the support is at least a cent below the resistance, even from a bad start |
| PriceChart.DragFollowsPointer | frontend/src/features/market-data/daily-price-chart.tsx:112-123 | the held line follows the pointer as far as a cent's gap allows, the other stays |

## Left out

- Engine, provider and QFQ internals, HTTP, drivers, outbox, audit records and logging: their results are parameters.
- Concurrency inside a statement or transaction: row locks are taken as given; interleavings are those of whole transactions.
- Liveness of the fan-in: that every child eventually finishes.
- Parent finalisation (`finalize_parent`, `backtest_bulk_finalize`) and the daily fetch stages (`_known_daily_absence`, `_daily_item_status`): branch tables with easy properties; a child's status is an argument.
- Children that return early: an unsuccessful result reaches the worker's failure path, which is modelled; a controlled stop with no terminal status is not.
- Request hashes are compared as the content they cover, evidence hashes are uninterpreted, uuid5 item ids are the text they are derived from, dates in a child's configuration the text of their day number.
- CHECKs on text formats (SHA-256, symbols), finiteness and foreign keys to tables outside each model (strategy, screening task, security) are not part of the models.
- Validation `completed_at` and the other timestamps are integers; JSON columns are opaque text in `Publication` and `Screening`.
- JsonSnapshot.FreezeValue: a reference always has its container in the heap; a dangling one is an unsupported value, which Python cannot have.
- LinkedJob.EmbeddedCommandRoundTrip: values of fields the constructor only strips or range-checks are taken as already stripped and in range.
- RetryLoop.WaitForHistoryCapacity: exact seconds instead of floats; cancellation of the task is not modelled.
- BatchLoop.Job.BacktestBatch: no other attempt acts during one execution, even after the lease is lost, so the step from the loop to the protocol covers no overlap; overlap is in the protocol's runs. Configuration checks before the loop and the summary after it are not modelled; items of a chunk start in order.
- Timeline.FirstTimelineIsNewest: ids are compared as text with their prefixes, and are distinct across sources.
- Series.LoadDailyPrices: requests are answered one after the other, so of several that fail the first is named.
- Series.SortInPlace: an insertion sort stands for the built-in sort; `localeCompare` is a rank of texts. The dataset summary attached to QFQ series is left out.
- Rebase.RebasingKeepsShape: Decimal rounding is not modelled, so equalities hold exactly; a snapshot stores prices as text, here they stay numbers.
- Holdout data (`get_test_data`), which stays unadjusted, is not modelled.
- Rebase.DataComesBackIff: dates, timestamps and numbers are well-typed and finite, so validation cannot fail on their types; the content hash is left out.
- PriceChart.DraggingKeepsGap: line prices in whole cents; the mapping from pointer position to price is an input.
- The indicator strategies, scheduling, notifications, positions and the user interface beyond the cited functions.
