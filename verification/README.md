# Batch ingest service: a verified model

The service accepts files of records over `POST /ingest`, stores each one under a
correlation_id and a checksum, answers repeats with the stored payload, keeps an error log, lets
an operator remediate a sync, and shows all of it on a dashboard. This project models the parts of it
that are easy to get wrong, and proves what they keep for every input, every run and every interleaving.

`dafny verify dfyconfig.toml` checks everything.

## How the model is built

**The protocol.** `Tables` holds the four tables as values, the look-ups, and the transactions.
`Protocol` is a state machine over them: one entry per request with its program counter and the rows it
has read (which may be stale), and one event per await on the database. An event carries the answers
the database chose (which row, which first file, which fresh key), so a sequence of events is one
interleaving of any number of ingests, error loggers and remediations, each of which may die at any
await; theorems about `Exec(INIT, es)` for all `es` are theorems about every run from the empty database.

- A commit is atomic against the committed state; the two unique indexes and the foreign keys are
  checked there, and a violation is an outcome of the step.
- A select with `selectinload` is two statements, so two events. A remediation reads in one event
  (two, for its files) and commits in another. An UPDATE writes only the columns whose new value differs
  from the value the session loaded (`Tables.Write`). This is finer than one atomic step per call, and
  some of the findings below only show at this grain.
- uuid4 and serial keys are any unused key; the clock gives any values.

`Invariants` proves one inductive invariant; `Idempotency`, `Repeats`, `ConflictBranch`, `LifecycleRuns`,
`ErrorLogging` and `Accounting` draw the promises over whole runs from it; `Witnesses` gives the runs that
show where a promise needs its hypothesis. `Service` is the code itself in imperative form: a class whose
fields the coroutines update, where `Await` lets the other requests run. Every one of its methods is proved
to be a run of the state machine (`Steady`), so the theorems about runs hold of it; with nobody else
running, `IngestBatch` and `RunRemediation` also get an exact outcome. `Endpoint` adds the checks in front
of the protocol and the error handlers behind it, with SHA-256 and the JSON parser as parameters.

**The rest.** `Pagination` (offset and keyset pages of the log, and the walk of a client that follows
cursors while rows are inserted), `Footer` and `VirtualWindow` (the view arithmetic), `Retry` (bounded
acquisition, used by `Endpoint`), `Pool` (two connections per ingest), `SyncSummary` and `Metrics` (aggregates against their
plain definitions), `Dashboard` (what an ingest changes about them).

## What turned out not to hold as documented

The model follows the code in each case. A bullet names the run or the input that shows it and the
theorem that says exactly when it happens.

- `remediate` says RETRY_JOB moves failed or rejected syncs to running. There is no guard: it moves any
  sync (`LifecycleRuns.RetryFromAnyEstado`).
- "The loser of a race loads the winner's row and replays" fails when the sync under the request's own
  correlation_id is the failed parent of an error log: the look-up stops there, finds no file, and the
  IntegrityError is re-raised as a 422. It happens in a race with the error logger, which loses a valid,
  never stored file (`Witnesses.LoggerRaceReraises`), and without any race when the checksum is stored under
  another correlation_id, which the look-up never tries (`Witnesses.StoredElsewhereReraises`).
  `ConflictBranch.ConflictOutcome` says exactly when; without an error log of that correlation_id it
  never does (`ConflictBranch.NoLoggerNoReraise`).
- Two ingests of one correlation_id with different checksums that both saw a file-less parent are both
  answered 201, since the second write is an UPDATE (`Witnesses.TwoFilesOneSync`).
  `Idempotency.SecondFileExactly` says exactly which commit does it, and `Idempotency.OneFileExactly` in
  which runs it happens.
- "200 with the identical stored payload on replay" fails in two ways. The estado differs after a RETRY_JOB,
  and, since row and files are two reads, also when the row was read before the winner committed
  (`Witnesses.ReplayShowsStaleFailed`). And a sync with two files answers with either, since the files have no
  order: the very batch that was answered 201 can get a 200 with the name, the checksum and the count of
  another file (`Witnesses.RepeatGetsAnotherFile`). The 200 is identical to the 201 of the same batch exactly
  when the row that the request read showed the sync as completed and the file it loaded carries the
  batch's checksum, on both duplicate paths and in every interleaving (`Repeats.ReplayIdenticalExactly`); with
  both reads in one state, it is sure to be exactly when the sync is not running and owns one file
  (`Repeats.RepeatIsIdenticalExactly`). Syncs keep to one file in a run exactly when
  `Idempotency.OneFileExactly` says.
- A 200 found by its checksum always carries a correlation_id other than the request's
  (`Repeats.ReplayCarriesExactly`).
- A RETRY_JOB that overlaps an ingest can leave a running sync with finalizado_at set
  (`Witnesses.StaleRetryLeavesFinished`). It happens in a run exactly when a RETRY_JOB that read a failed
  sync commits after that sync has finished (`LifecycleRuns.FinalizadoExactly`).
- FORCE_SKIP_VALIDATION accepts rejected files, but no service rejects one: in every run from the empty
  tables it finds none and changes no file (`LifecycleRuns.NothingIsRejected`). Its effect on tables with
  rejected files, such as the demo data, is `SyncSummary.ForceSkipClearsRejected`.
- The count and the rows of the first log page are two statements. Rows inserted between them can push a
  counted row off a page that announces no successor (`Witnesses.CountedRowPushedOut`);
  `Pagination.WalkEnumeratesExactly` says exactly when.
- `acquire_with_retry` closes its connection only for retryable exceptions: another exception raised by the
  liveness probe leaves one open (`Witnesses.ProbeLeaksConnection`, exactly: `Retry.ConnectionsAreConserved`).

## Model

| member | source | states |
|---|---|---|
| Idempotency.OneCreationPerChecksum | backend/app/services/idempotency.py:105-146 | in every run: as many 201 answers as archivo rows, exactly one 201 per row, at most one 201 per checksum |
| Idempotency.OneCreationPerCorrelationId | backend/app/services/idempotency.py:1-11 | when a correlation_id always comes with one checksum: at most one archivo per sync and one 201 per correlation_id |
| Idempotency.LateRequestsOnlyReplay | backend/app/services/idempotency.py:105-112 | once a correlation_id was answered 201, any request with it that is not yet looked up ends as a 200 (or dies), in every continuation and whatever its checksum |
| Idempotency.SecondFileExactly | backend/app/services/idempotency.py:114-137 | a commit gives a sync a second file if and only if it updates a sync it saw without files that has one by now, with a checksum stored nowhere |
| Idempotency.OneFileExactly | backend/app/services/idempotency.py:114-137 | in a run every sync always owns at most one file if and only if no commit updates a sync, seen without files, that has got one since, with a checksum stored nowhere |
| Idempotency.CreatorIsUnique | backend/app/models/archivo.py:38 | no stored file was announced by two 201 answers |
| Repeats.ReplayFidelity | backend/app/services/idempotency.py:34-48 | in every run each 200 body equals the 201 body of the file it replays in every field except estado |
| Repeats.ReplayCarriesRequestChecksum | backend/app/services/idempotency.py:140-144 | with one checksum per correlation_id, every 200 body of a run carries the checksum of its own request (`ReplayCarriesExactly` is the condition without that hypothesis) |
| Repeats.ReplayIdenticalExactly | backend/app/services/idempotency.py:102-112 | for every interleaving and both duplicate paths: a 200 body is identical to the 201 body of the file it replays if and only if the row the request read showed the sync as completed, and to the 201 body of the same batch if and only if also the file loaded carries the batch's checksum |
| Repeats.EveryReplayLoaded | backend/app/services/idempotency.py:110-144 | every 200 of every run loaded its file in one of the steps that condition speaks about |
| Repeats.ReplayIsIdentical | backend/app/services/idempotency.py:102-104 | in every run a 200 body is identical to the 201 body, estado included, unless its sync was retried or its correlation_id logged an error |
| Repeats.RepeatIsIdenticalExactly | backend/app/services/idempotency.py:102-112 | for a batch answered 201 that is sent again and read in one state: every answer the database may give is the body of its 201 if and only if the sync is not running and owns one file |
| Repeats.UndisturbedReplayExactly | backend/app/services/idempotency.py:105-112 | for a pre-check whose two reads see one state: the answer is the 201 body of the file it loaded if and only if the sync is not running |
| Repeats.OwnFileExactly | backend/app/services/idempotency.py:112 | a sync that owns a checksum is sure to answer with it if and only if it owns no other file |
| Repeats.ReplayCarriesExactly | backend/app/services/idempotency.py:140-144 | in every run a 200 carries the correlation_id of its request if and only if its row was found by it, and the checksum of its request if and only if the file loaded does |
| Idempotency.DuplicateLogAccounting | backend/app/services/idempotency.py:75-87 | in every run, per correlation_id: as many ERR_DUPLICATE_BATCH rows as 200 answers whose body carries it |
| Idempotency.DuplicateLogNeverFails | backend/app/services/idempotency.py:75-87 | the duplicate log never violates its foreign key, adds exactly one log row, and no sync or archivo |
| Accounting.RowsAreAccountedFor | backend/app/services/syncs.py:192-200 | in every run: as many log rows as 200 answers and successful error loggers, as many action rows as remediations answered with success |
| ConflictBranch.OriginalIsNeverNone | backend/app/services/idempotency.py:65-72 | after a failed commit the fallback look-up by checksum always finds a sync: `original is None` is unreachable |
| ConflictBranch.ReraiseExactly | backend/app/services/idempotency.py:141-142 | the request is re-raised if and only if its correlation_id has a sync without files when the files are loaded |
| ConflictBranch.ConflictOutcome | backend/app/services/idempotency.py:136-144 | the whole IntegrityError branch: re-raised if and only if the correlation_id has a sync without files, otherwise about to answer 200 |
| ConflictBranch.ReraisedMeansFileless | backend/app/services/idempotency.py:141-142 | in any state and by any step, a request is re-raised only by finding its own correlation_id on a sync without files |
| ConflictBranch.NoLoggerNoReraise | backend/app/services/idempotency.py:3-7 | in every run without an error log of a correlation_id, no ingest of it is re-raised and every sync of it owns a file |
| Invariants.StepKeepsInv | backend/app/services/idempotency.py:90-146 | every step of every request keeps the tables, the reads, the answers and the counts consistent, and deletes or rewrites no row apart from status columns |
| Invariants.RunKeepsInv | backend/app/services/idempotency.py:90-146 | the invariant holds in every state any run reaches from the empty database |
| Invariants.CommitBatchIntegrity | backend/app/services/idempotency.py:121-137 | a commit that violates no index leaves all unique and foreign keys intact |
| Invariants.CommitBatchLifecycle | backend/app/services/idempotency.py:114-135 | the commit keeps the meaning of every estado, from a stale read |
| Invariants.ErrorLogKeepsDb | backend/app/services/error_logging.py:57-80 | the log transaction keeps unique keys, foreign keys and the meaning of every estado |
| Invariants.RemediatedKeepsDb | backend/app/services/syncs.py:174-200 | so does the commit of a remediation |
| LifecycleRuns.TablesInEveryRun | backend/app/models/sincronizacion.py:34-43 | in every run: both unique indexes and all foreign keys hold; pending and rejected never occur; completed syncs own a file; failed ones own none and have a null finalizado_at |
| LifecycleRuns.FiledSyncNeverFails | backend/app/services/error_logging.py:57-69 | a sync that owns a file is running or completed from then on, in every continuation |
| LifecycleRuns.RunExtends | backend/app/services/idempotency.py:90-146 | over any run rows are never deleted and only status columns change |
| LifecycleRuns.RetryFromAnyEstado | backend/app/services/syncs.py:174-176 | an undisturbed RETRY_JOB makes any sync running and unfinished, records one success, and changes nothing else |
| LifecycleRuns.FinalizadoExactly | backend/app/services/syncs.py:174-176 | in every run: running syncs always have a null finalizado_at and completed ones a set one if and only if no RETRY_JOB that read a failed sync commits after it has finished |
| LifecycleRuns.StaleCommitColumns | backend/app/services/idempotency.py:114-118 | what a 201 leaves of a row that others changed since it looked, column by column: always completed; fecha and iniciado_at its own unless it saw them in place; its own finalizado_at in every run that was right so far; no other sync changes |
| LifecycleRuns.OvertakenRetryExactly | backend/app/services/syncs.py:170-200 | in a run that was right so far, a RETRY_JOB makes its sync running and unfinished if and only if no ingest completed it since it looked; overtaken, it does harm if and only if the sync it saw was failed |
| LifecycleRuns.StepKeepsFinished | backend/app/services/syncs.py:174-176 | every other step keeps finalizado_at right, ingest commits from stale reads included |
| LifecycleRuns.NothingIsRejected | backend/app/services/syncs.py:177-188 | in every run all files are accepted, so FORCE_SKIP_VALIDATION changes none |
| LifecycleRuns.EstadoNeedsWriter | backend/app/services/syncs.py:174-175 | in every run a sync is stored, read or answered as failed only after an error log of its correlation_id, and as running only after a RETRY_JOB of it |
| ErrorLogging.ErrorLogExactly | backend/app/services/error_logging.py:55-84 | in any reachable state the logger adds exactly its log row, plus, if it saw none, a failed parent with today's fecha, its own iniciado_at and no finalizado_at; it adds nothing if and only if that parent appeared since it looked |
| ErrorLogging.UndisturbedErrorLogIsKept | backend/app/services/error_logging.py:55-80 | an undisturbed error log is never lost and stores no file |
| ErrorLogging.RecoveryAfterRejections | backend/app/services/idempotency.py:105-146 | after any run in which neither correlation_id nor checksum was accepted, an undisturbed valid ingest is answered 201; it completes the failed parent under the same id when there is one, with every column of the sync and of the file as sent and as the clock says, changes no other row, and keeps every log row |
| Dashboard.IngestShowsToday | backend/app/services/metrics.py:61-83 | after an undisturbed 201 the throughput, over any number of days and however the join is ordered, shows one accepted file more today and is otherwise what it was |
| Dashboard.ThroughputShowsTables | backend/app/services/metrics.py:63-74 | each day of the throughput counts the stored files, by estado, whose sync ran on it |
| ErrorLogging.NeverStoredMeansFree | backend/app/services/idempotency.py:110-112 | a checksum and a correlation_id never answered 201 are in no archivo row |
| Witnesses.TwoFilesOneSync | backend/app/services/idempotency.py:114-137 | a run in which one correlation_id gets two 201 answers and two files |
| Witnesses.LoggerRaceReraises | backend/app/services/idempotency.py:136-142 | a run in which a valid ingest with a new checksum is re-raised |
| Witnesses.StoredElsewhereReraises | backend/app/services/idempotency.py:57-64 | a run in which a request that runs alone is re-raised although its checksum is stored |
| Witnesses.StaleRetryLeavesFinished | backend/app/services/syncs.py:174-176 | a run that ends with a running sync whose finalizado_at is set |
| Witnesses.ReplayShowsStaleFailed | backend/app/services/idempotency.py:105-112 | a run without RETRY_JOB in which a 200 body says failed where the 201 said completed |
| Witnesses.RepeatGetsAnotherFile | backend/app/services/idempotency.py:110-112 | a run without RETRY_JOB in which a batch that was answered 201 is sent again and gets another file's name, checksum and count |
| Witnesses.CountedRowPushedOut | backend/app/services/logs.py:61-79 | an input for which the walk ends without a row it counted |
| Witnesses.ProbeLeaksConnection | backend/app/db/retry.py:79-86 | a script that leaves one connection open |
| Service.Server.IngestBatch | backend/app/services/idempotency.py:90-146 | with others running at every await: it answers, as the state machine records; alone: 201, 422 and 200 each exactly under their conditions on the tables, with the rows each writes, and a 200 with its own correlation_id if and only if that is stored |
| Service.Server.PreCheck | backend/app/services/idempotency.py:105-112 | alone, it replays, under its own correlation_id and with one duplicate log, if and only if the correlation_id has a file |
| Service.Server.CommitSyncAndFile | backend/app/services/idempotency.py:114-138 | commits the sync row, column by column, and the file together or nothing, and fails exactly on a stored checksum or, when inserting, a stored correlation_id |
| Service.Server.FindOriginal | backend/app/services/idempotency.py:51-72 | always finds a stored sync, which carries the correlation_id or, found by checksum, owns it; alone, the checksum is tried if and only if the correlation_id has no sync |
| Service.Server.ResolveConflict | backend/app/services/idempotency.py:138-144 | answers 200 or re-raises; alone, it re-raises if and only if the correlation_id has a sync without files |
| Service.Server.Replay | backend/app/services/idempotency.py:75-87 | adds exactly one duplicate log under the original's correlation_id and answers with the row and file it read |
| Service.Server.PersistErrorLog | backend/app/services/error_logging.py:39-84 | never raises; skips an unparsable correlation_id without effect; alone, it always adds its log row, and a failed parent if there was none, and nothing else |
| Service.Server.CommitErrorLog | backend/app/services/error_logging.py:60-83 | commits its log row, and a failed parent if it saw none, if and only if what it saw of the parent still holds, and otherwise leaves the tables as they were |
| Service.Server.RunRemediation | backend/app/services/syncs.py:136-202 | alone: None exactly for an unknown sync, ValueError without effect, otherwise the new tables of each action and an answer that shows them; in any company a summary of the current files, and a running sync for a RETRY_JOB |
| Service.Server.AcceptEach | backend/app/services/syncs.py:187-188 | the loop accepts exactly the files given and changes no other |
| Service.Server.CommitRemediation | backend/app/services/syncs.py:136-157 | appends exactly the action row, and writes exactly the columns or files of its action |
| Service.FilesOfCid | backend/app/services/idempotency.py:110-110 | in every run the files of a correlation_id are those of its one sync |
| Endpoint.ReadBodyAndHash | backend/app/services/ingest.py:32-48 | the digest of the whole payload and the payload, or nothing after a reset |
| Endpoint.ChunkingDoesNotMatter | backend/app/services/ingest.py:42-48 | where a payload is cut does not change what is read |
| Endpoint.Check | backend/app/api/ingest.py:68-81 | each rejection code exactly under its condition, in the order of the code, and logged under the correlation_id it has; otherwise the batch of the verified bytes |
| Endpoint.PostIngest | backend/app/api/ingest.py:62-97 | the protocol runs exactly for requests that pass every check and get a connection, and its phase decides the status; rejected ones go to the error logger with the code of the check they failed; alone, exactly the rows of each outcome; 503 and 500 exactly for the two failed acquisitions, which leave nothing; every connection is returned except for the probe's leak |
| Pagination.ClampSize | backend/app/services/logs.py:58 | page sizes within 1 and 100 are kept, smaller ones become 1, larger ones 100 |
| Pagination.OffsetPageIsFull | backend/app/services/logs.py:72-79 | a page that announces a successor is full: `items[-1]` is never taken on an empty list, even with rows inserted between count and rows |
| Pagination.KeysetPage | backend/app/services/logs.py:64-71 | the newest rows below the cursor; a next cursor if and only if rows remain below it, and it leads exactly to them; the total counts the whole filtered table |
| Pagination.PageHeader | backend/app/services/logs.py:58-87 | the total is the count of the filtered table for every cursor and page; the page size is the clamped one; a page below 1 is page 1 |
| Pagination.OffsetMeetsKeyset | backend/app/services/logs.py:58-87 | on one table, the keyset page of offset page k's cursor is offset page k + 1, next cursor included; no cursor if and only if k is the last |
| Pagination.WalkPageIsOffsetPage | backend/app/services/logs.py:58-79 | on a fixed table the k-th page of the cursor walk is offset page k, next cursor included, and shows the length of the table as the total, for every k |
| Pagination.KeysetWalkIsComplete | backend/app/services/logs.py:64-71 | from any cursor, over tables that grow meanwhile: the walk ends, strictly decreases, and misses no row that was below the cursor |
| Pagination.WalkIsDecreasing | backend/app/services/logs.py:61-79 | the walk from the first page strictly decreases and returns existing rows only |
| Pagination.WalkEnumeratesOnce | backend/app/services/logs.py:61-79 | when the first count and rows agree, every row present from the start comes exactly once, whatever is inserted meanwhile |
| Pagination.WalkEnumeratesExactly | backend/app/services/logs.py:61-79 | when they are two snapshots: every counted row comes if and only if the count exceeds a page, or the counted rows with those inserted among and above them fit on one |
| Pagination.WalkOfFixedTable | backend/tests/integration/test_logs_api.py:61-76 | on a fixed table the walk is the whole table, newest first, and its length is the total |
| Footer.PagesPartitionRows | frontend/src/components/logs/LogsFooter.tsx:9-11 | every row number is on exactly one of the pages 1..pages |
| Footer.FooterMatchesOffsetPage | frontend/src/components/logs/LogsFooter.tsx:9-11 | from–to are exactly the rows of the backend's offset slice |
| Footer.EmptyFooter | frontend/src/components/logs/LogsFooter.tsx:9-11 | an empty list has one page and shows 0–0 |
| VirtualWindow.WindowCoversViewport | frontend/src/components/logs/virtualWindow.ts:9-24 | every row with a pixel in the viewport is in the window, for every scroll position |
| VirtualWindow.WindowIsBounded | frontend/src/components/logs/virtualWindow.ts:9-24 | the window lies inside the list, holds at most visibleCount + OVERSCAN + 1 rows, and is empty if and only if the list is empty or pulled down by more than a screenful |
| VirtualWindow.WindowExactly | frontend/src/components/logs/virtualWindow.ts:15-23 | a row is kept if and only if it is within OVERSCAN above and visibleCount below the row under the top edge, or, past the list, among the last visibleCount + OVERSCAN |
| VirtualWindow.VisibleCountFills | frontend/src/components/logs/virtualWindow.ts:5-7 | the fewest rows that fill the viewport |
| VirtualWindow.DeepOffsetExactly | frontend/src/components/logs/virtualWindow.ts:15-28 | the deep-offset branch is taken if and only if the position is past the spacer, so never within the scroll range |
| Retry.AcquireIsBounded | backend/app/db/retry.py:76-91 | for every script: at most max_attempts connects; exhausted if and only if all attempts meet retryable exceptions; connected if and only if the first other attempt succeeds; exact pause counts; each pause off its base by exactly its draw unless clamped; opens and closes counted attempt by attempt |
| Retry.TotalSleepIsBounded | backend/app/db/retry.py:53-59 | the total pause lies between the backoffs less jitter, clamped at 0, and the geometric sum plus all jitter, for every draw |
| Retry.PausesFollowDraws | backend/app/db/retry.py:53-59 | two draws that leave a pause positive change it by exactly their difference; a zero draw pauses for the base; a draw that would make it negative for nothing; without jitter the draw is not used |
| Retry.BaseDoubles | backend/app/db/retry.py:55 | the bases start at the initial backoff and double |
| Retry.BackoffBounds | backend/app/db/retry.py:53-59 | a pause is never negative and within jitter of its exponential base |
| Retry.ConnectionsAreConserved | backend/app/db/retry.py:76-91 | opened less closed is 1 on return and 0 on exhaustion; another exception leaves one open if and only if the probe raised it |
| Retry.Engine.AcquireWithRetry | backend/app/db/retry.py:62-91 | the loop does exactly the connects, opens, closes and pauses of the recursive definition, and each pause follows its draw |
| Retry.Engine.RetryAcquire | backend/app/db/retry.py:94-108 | nets 0 connections whether or not the body raises, except for the probe's non-retryable exception |
| Retry.Engine.ProbeDatabase | backend/app/db/retry.py:111-115 | the same for the startup probe |
| Pool.DeadlockExactly | backend/app/db/engine.py:14-20 | with pool_timeout firing or not: the pool can reach a state from which only a timeout leads on if and only if as many ingests take a second connection as it has; never with fewer ingests than connections |
| Pool.EverybodyCanFinish | backend/app/api/ingest.py:85-95 | from every reachable state all requests can end and return their connections; below that number without timing anybody out |
| Pool.UsesAsPlanned | backend/app/services/idempotency.py:58-77 | in every run a request takes its second connection exactly as often as planned before it is released |
| Pool.RoomForAll | backend/app/db/engine.py:14-20 | with a connection for every ingest and one more for every one that takes a second, no run times anybody out |
| Pool.EveryRunSettles | backend/app/db/engine.py:14-20 | no schedule keeps requests busy for ever: the number of turns that change anything is bounded |
| SyncSummary.EmbeddedAgrees | backend/app/services/syncs.py:35-46 | the summary from embedded files is the two SQL counts, in whatever order the files come |
| SyncSummary.GroupByAgrees | backend/app/services/syncs.py:48-60 | so is the one from GROUP BY with its (0, 0) default, for every listed sync |
| SyncSummary.RejectedAtMostTotal | backend/app/services/syncs.py:95-104 | rejected files are never more than files |
| SyncSummary.ForceSkipClearsRejected | backend/app/services/syncs.py:177-188 | FORCE_SKIP_VALIDATION leaves 0 rejected, the same total, and every other sync's summary |
| Metrics.ThroughputConserves | backend/app/services/metrics.py:56-83 | exactly clamp(days, 1, 30) consecutive days ending today, each with its own files, and their sums are the files of the range |
| Metrics.DistributionIsExact | backend/app/services/metrics.py:86-104 | the five estados once each with their counts, largest first, ties in declaration order; the counts add up to the total |
| Metrics.PercentagesNearlyAddUp | backend/app/services/metrics.py:94-102 | 0.0 without syncs; otherwise each percentage is within 0.06 of the exact one and their sum within 0.2 of 100.0, for any arithmetic less than 0.01 off, floating point included |

## Left out

- SHA-256, the thread and process pools behind it, and the JSON parser: parameters of `Endpoint.Check`, any functions of the bytes.
- Hex digests and UUID texts, with their case: numbers here; header validation before the body is read is not modelled.
- The order of `list_syncs` and of the files it embeds, and the other columns of its items: copies of the rows.
- SQL, ILIKE and trigram search: a log table is the set of ids that match the fixed filters, and log rows are immutable.
- Lost acknowledgements (a commit that took effect but reported an error) and crashes of the database.
- How often each ingest takes the second connection is an arbitrary plan in `Pool`, which covers the 0, 1 or 2 times of the code; the retries of a first connection are one timeout.
- Database exceptions other than IntegrityError inside the `Service` methods: in `Protocol` a request may die at any await, the methods of `Service.Server` follow the runs in which this one does not.
- Service.Server.QueryByDigest: models `archivos.any(...)` by picking a stored file with the digest; which of several matching rows a query without ORDER BY returns is left open.
- usuario_origen, datos_payload, and the level, service, message and stack trace of a log row: constants or copies nobody reads back in the modelled code.
- Metrics.DistributionIsExact: `items.sort` works in place on a list of its own; the model sorts values with a stable insertion sort.
- `metrics`, `recent_logs`, `log_detail`, `list_remediations` and `serializers.py`: single reads that would only add easy members.
- `seed.py`, row deletion and its CASCADE: runs start from the empty tables and no service deletes.
- React components, polling, settings, Alembic, CORS and routing.
