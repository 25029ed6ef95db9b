# Verification of the queue and the web core

This project models the parts of the repository that are hardest to get right, in Dafny, and
proves properties of the models over every input and every reachable state.
`dafny verify dfyconfig.toml` checks all of it.

## What is modelled

- **The PgQue log** (`Snapshots`, `BatchQuery`, `EventLog`, `LogStore`, `Places`, `LogMessages`,
  `LogReading`, `LogRuns`, `LogTheorems`, `LateReads`). A state machine over transactions, ticks, event tables,
  subscriptions, the retry queue, the dead letters and their purge. A step is one action that other sessions
  can see, so any interleaving of producers, tickers, consumers, retry moves and the two
  transactions of a rotation is a run. A queue has any number of event tables from two on.
- **The SQL functions and the Go statements over them** (`PgQue`, `Failures`). A class holds the
  tables and columns, and each function of the SQL file, or of `postgres.go`, is a method that is
  proved to take the step it stands for. Where the SQL file defines a function twice, the later
  definition is modelled.
- **Finishes that overlap** (`FinishRaces`). Any number of finishes of one batch, statement by
  statement: uncommitted rows, inserts that wait for them, the row lock of ack, rollbacks.
- **The worker** (`WorkerRuns`, `ObservedRuns`, `WorkerBatch`, `HandlerRuns`, `UnboundedRuns`). Any
  number of workers on one batch, with crashes, stops, lost answers and purges of the run counts; the
  methods of `worker_batch.go`, each proved to take steps of that protocol; and how often the handler
  of one message runs.
- **Cooperative consumers** (`Cooperative`, `CoopConsumer`, `CoopRotation`). The windows in the hands of
  the members of one consumer, and the rotation of the event tables under them.
- **Smaller cores**: the rate limiter (`RateLimiter`, `Rejections`, `FilledTable`), the event stream and its reader
  (`ServerSentEvents`), the schedules (`Schedules`), the pages of notes (`Cursors`, `NotePaging`), and
  the migrators (`Migrator`).

## What is assumed

- PostgreSQL: transaction ids are assigned in increasing order; snapshots, row locks, sequences and
  transactions behave as documented. A tick's own transaction is not listed in its snapshot but holds
  xmin back.
- `insert_event_raw` has its transaction id before it reads the current table, and reads it and writes
  its row in one step. The tickers are serialised by the worker lock.
- The subscriptions exist before the first message, as the README of the repository asks
  (README.md:440-443), and stay the same.
- Rotation step 2 starts after step 1 committed (`rotate`, internal/platform/queue/postgres.go:257-266).
- A time is a number of nanoseconds since the zero `time.Time`. The RFC 3339 text of a time reads back
  as that time and has no underscore.

## What the code does differently from its documentation

- `openBatch` reports the earlier runs of a batch that neither finished nor were stopped
  (internal/platform/queue/worker_batch.go:91-108). Three events make that count wrong. `currentBatch`
  (internal/platform/queue/postgres.go:53-67) reports "no open batch", without an error, when its read fails: it tests the
  unset id before the error; such an open is not counted, and neither is one of a batch that another
  worker opened between `currentBatch` and `nextBatch`. `purgeRuns` deletes the row of a batch that is still
  open. And `leaveOpen` only logs the error when `uncountRun` fails, so that stop stays counted as a run
  (internal/platform/queue/worker_batch.go:152-163). In every run without these events the count is right
  (`ReportedRunsAreTheEarlierOpens`), and a step makes a right count wrong exactly when it is such an open, a
  purge of a count that is not 0, or such a stop (`CountStaysExact`). With unseen opens no retry limit
  holds (`UnseenOpensRunForever`).
- A batch stops running its handlers after three runs that did not finish (internal/platform/queue/worker_batch.go:62-74), and
  a stop takes its run back (`leaveOpen`, lines 152-163). It takes it back for the whole batch, also for the
  messages whose handlers came to their end before the stop (`StoppedBatchEndsInPart`). Their handlers
  run again, once more for each stop that is taken back: this is the `cut` term of
  `HandlerRunsAreBounded`, and `StoppedBatchRunsForever` shows that it is needed.
- `Allow` (internal/platform/web/ratelimit.go:68-70) says that a rejection uses up no capacity. A rejected request still runs
  the sweep that is due, and that matters: some later requests are then answered differently exactly when
  a sweep was due (`RejectionMatters`). No request notices while the table has room for the keys to come
  (`RejectionChangesNothing`). `RejectionChangesAnswer` says when the next request is the one that notices, and
  `RejectionCanTakeTheSweep` gives requests to a new limiter for which a later new key is rejected instead
  of allowed.

## Model

| member | source | states |
|---|---|---|
| Snapshots.ChainCovers | migrations/20261026215434_install_pgque.sql:402-422 | a transaction is in some batch of a chain of consecutive batches exactly when the last tick sees it and the first does not |
| Snapshots.ChainDisjoint | migrations/20261026215434_install_pgque.sql:402-422 | a transaction is in at most one batch of a chain, whatever ticks it spans |
| BatchQuery.BatchEventQuery | migrations/20261026215434_install_pgque.sql:376-395 | the loop that lowers the range and extends the IN list computes the query that the lemmas below are about |
| BatchQuery.LowerSplits | migrations/20261026215434_install_pgque.sql:378-395 | each older transaction ends up in the lowered range or in the IN list, and in neither twice; the list stays below the range |
| BatchQuery.QueryIsExact | migrations/20261026215434_install_pgque.sql:376-440 | for any two monotone snapshots the range with its filters plus the IN list selects what the simplest query selects: what the end tick sees and the start tick does not; no transaction comes from both halves |
| LogStore.SlowestIsEnough | migrations/20261026215434_install_pgque.sql:909-927 | the check of rotation step 1 looks at the lowest last tick only, and that makes it hold for every subscription |
| LogStore.UnreadIsCurrent | migrations/20261026215434_install_pgque.sql:909-967 | while a rotation may still commit, every row that a subscription has not passed is in the table that becomes the previous one |
| LogStore.MayRotateIs | migrations/20261026215434_install_pgque.sql:909-927 | a rotation may go on exactly when the last tick of every subscription has an xmin above step2 |
| LogStore.RotatedIs | migrations/20261026215434_install_pgque.sql:931-967 | after a rotation the next table, in a circle, is empty and current, the other tables are as they were, step1 is the rotation, step2 is unset, and exactly the ticks with an xmin below the old step2 are gone |
| LogStore.TicksStay | migrations/20261026215434_install_pgque.sql:957-967 | the tick cleanup of step 1 keeps the last tick and the next tick of every subscription |
| LogStore.RepointKeepsStore | migrations/20261026215434_install_pgque.sql:909-927 | rows of pgque.subscription that start no earlier than some row before need no row of the event tables that was not needed before |
| LogStore.SnapshotSees | migrations/20261026215434_install_pgque.sql:788-789 | the snapshot of a tick sees exactly the transactions below the horizon that do not run, and its own |
| LogStore.SnapshotIsLatest | migrations/20261026215434_install_pgque.sql:788-789 | a new tick saw everything that an earlier tick saw, also while its own transaction is running |
| LogReading.RowIsChosen | migrations/20261026215434_install_pgque.sql:461-506 | each committed row between the two ticks of a batch, whoever owns it, is in a table that batch_event_tables returns |
| LogReading.TableChoiceIsComplete | migrations/20261026215434_install_pgque.sql:461-506 | every event of the batch is in a table that batch_event_tables returns, wherever the window lies relative to the last rotation |
| LogReading.ReadIsExact | migrations/20261026215434_install_pgque.sql:376-506 | a row comes back from a chosen table exactly when it is in the batch as its definition says |
| LogReading.ReadHasNoDuplicates | migrations/20261026215434_install_pgque.sql:402-437 | no row comes back from two tables, from two halves of the query, or from a table that was chosen twice |
| Places.ExactlyOnePlace | internal/platform/queue/postgres.go:137-194 | conservation counted: one place for a message that was sent, none for any other |
| LogMessages.CommitSends | migrations/20261026215434_install_pgque.sql:2870-2909 | when a producer commits, exactly its messages enter the log of every subscription |
| LogMessages.CommitMoveMovesBack | migrations/20261026215434_install_pgque.sql:826-869 | when a retry move commits, each moved message leaves the retry queue and enters the log of its own subscription only |
| LogMessages.FinishSettles | internal/platform/queue/postgres.go:137-154 | a finish takes exactly the batch out of the log and puts each message in one of done, retry queue and dead letters |
| LogMessages.FinishLeaves | internal/platform/queue/postgres.go:137-194 | after a finish each message of the batch is in one place by its verdict, a retry row with one retry more, a dead letter with its count |
| LogMessages.BatchHasDistinctIds | internal/platform/queue/postgres.go:156-194 | a batch never holds one message twice |
| LogMessages.FailuresAreNew | migrations/20261026215434_install_pgque.sql:231-240 | a message of an open batch has no retry row and no dead letter, so the retry insert breaks no key |
| LogRuns.StepKeepsInv | migrations/20261026215434_install_pgque.sql:871-988 | every step of every session keeps the invariants of the log, the tables, the messages and the batches |
| LogRuns.RunKeepsInv | migrations/20261026215434_install_pgque.sql:871-988 | the invariants hold in every reachable state |
| LogTheorems.RotationLosesNothing | migrations/20261026215434_install_pgque.sql:871-988 | in every reachable state each committed row that some subscription has not passed is in the current or the previous table |
| LogTheorems.TruncateRemovesOnlyPassedRows | migrations/20261026215434_install_pgque.sql:936-967 | the TRUNCATE of step 1 removes only rows that every subscription has passed, and the cleanup removes no tick that one points to |
| LogTheorems.ReachableReadIsExact | migrations/20261026215434_install_pgque.sql:2178-2214 | in every reachable state with an open batch, get_batch_events returns the batch and nothing else |
| LateReads.LateReadIsExact | migrations/20261026215434_install_pgque.sql:2178-2214 | a query that get_batch_events built while a batch was open returns exactly the batch, and no row twice, whenever it runs while the batch is still open, whatever other sessions did in between, rotations included |
| LateReads.NeededRowStays | migrations/20261026215434_install_pgque.sql:936-967 | no step moves or removes a row that a subscription has not passed |
| LogMessages.PurgeTakesDead | migrations/20261026215434_install_pgque.sql:5061-5074 | a purge takes dead letters away and touches no other place of any message |
| LogTheorems.EveryMessageHasOnePlace | internal/platform/queue/postgres.go:137-194 | over all runs with aborts, retry moves, rotations, purges of dead letters and several workers, each committed message is in exactly one of log, retry queue, dead letters, done and purged, for each subscription |
| LogTheorems.NoMessageChanges | migrations/20261026215434_install_pgque.sql:826-869 | every stored copy (a row of the tables, a retry row, a dead letter) carries the body that was sent, and no more retries than the limit |
| LogTheorems.BatchStays | migrations/20261026215434_install_pgque.sql:5803-5805 | no step but its own finish changes the messages of an open batch |
| LogTheorems.SameBatchSameMessages | internal/platform/queue/postgres.go:100-102 | a batch that comes back after a crash or a takeover comes back with the same messages |
| LogTheorems.BatchFinishesOnce | internal/platform/queue/postgres.go:137-154 | after the first finish of a batch no finish of that batch is possible, by any worker, with any results |
| LogTheorems.EveryRowInOneBatch | migrations/20261026215434_install_pgque.sql:5807-5879 | each committed row that a subscription may read is unread or was in exactly one batch that it passed, also when its transaction spans several ticks |
| LogTheorems.BatchIsItsWindow | migrations/20261026215434_install_pgque.sql:5884-5934 | finishing a batch records exactly the rows of that batch as passed |
| LogTheorems.CopyIsForItsOwner | migrations/20261026215434_install_pgque.sql:399-400 | no subscription but the owner reads a retried copy from any table that it chooses, or had it in a batch it passed; the owner has it, once committed, as unread or in a batch it passed |
| PgQue.Queue.InsertEventRaw | migrations/20261026215434_install_pgque.sql:2870-2909 | the row goes to the current table; the sequence moves also for a caller with its own id |
| PgQue.Queue.Send | migrations/20261026215434_install_pgque.sql:6818-6826 | sending is the insert of a new message with a new id |
| PgQue.Queue.MoveRow | migrations/20261026215434_install_pgque.sql:858-865 | one retry row becomes a copy in the current table, and its retry row goes with the commit |
| PgQue.Queue.MaintRetryEvents | migrations/20261026215434_install_pgque.sql:826-869 | one call is the moves of the due rows, in order |
| PgQue.MovesEach | migrations/20261026215434_install_pgque.sql:826-869 | each due row becomes one copy in the current table with the id, owner, retry count and body of the row, and waits for the commit |
| PgQue.Queue.CurrentSnapshot | migrations/20261026215434_install_pgque.sql:788-789 | the snapshot of a tick, with the ticker's own transaction holding xmin back |
| PgQue.Queue.Ticker | migrations/20261026215434_install_pgque.sql:694-796 | a tick that is made is the step MakeTick |
| PgQue.Queue.FindNextTick | migrations/20261026215434_install_pgque.sql:5807-5824 | the first later tick, and none exactly when there is none |
| PgQue.Queue.NextBatch | migrations/20261026215434_install_pgque.sql:5657-5882 | an open batch comes back as it is, a new one ends at the next tick with a new id, and each error case changes nothing |
| PgQue.Queue.OpenNext | migrations/20261026215434_install_pgque.sql:5807-5880 | opening is the step Open up to the first later tick |
| PgQue.Queue.RunQuery | migrations/20261026215434_install_pgque.sql:397-440 | the union over the chosen tables of the rows that the query lets through |
| PgQue.Queue.GetBatchEvents | migrations/20261026215434_install_pgque.sql:2178-2214 | the messages of the open batch, each once, ordered by id |
| PgQue.Queue.LowestTick | migrations/20261026215434_install_pgque.sql:909-912 | the minimum of the last ticks, and nothing exactly without a subscription |
| PgQue.Queue.SlowestHasPassed | migrations/20261026215434_install_pgque.sql:914-927 | the check passes exactly when the rotation is allowed |
| PgQue.Queue.SwitchTables | migrations/20261026215434_install_pgque.sql:931-967 | the next table is emptied and becomes current, step1 is set, step2 is unset, old ticks go |
| PgQue.Queue.RotateTablesStep1 | migrations/20261026215434_install_pgque.sql:871-971 | an invalid state is an error; a due call with the lock rotates exactly when the last tick of every subscription has an xmin above step2; any other call changes nothing |
| PgQue.Queue.RotateTablesStep2 | migrations/20261026215434_install_pgque.sql:974-988 | step 2 sets step2 only where it is unset |
| PgQue.RotationIsTwoSteps | migrations/20261026215434_install_pgque.sql:871-971 | step 1 without interruption is its check and its commit, between which other sessions may act |
| PgQue.Queue.CurrentBatch | internal/platform/queue/postgres.go:53-67 | the open batch; none without an error when the read fails, as the code does |
| PgQue.Queue.CountRun | internal/platform/queue/postgres.go:69-79 | the upsert adds one and returns the count |
| PgQue.Queue.UncountRun | internal/platform/queue/postgres.go:81-89 | the upsert takes one back |
| PgQue.Queue.EventDead | migrations/20261026215434_install_pgque.sql:4912-4964 | a dead letter that is there stays |
| PgQue.Queue.DlqPurge | migrations/20261026215434_install_pgque.sql:5061-5074 | exactly the old dead letters go, and their number comes back |
| PgQue.Queue.EventRetryRaw | migrations/20261026215434_install_pgque.sql:510-575 | a second retry row of a message breaks the key |
| PgQue.Queue.StoreStatement | internal/platform/queue/postgres.go:174-189 | the join over failed messages and rows, row for row, with its exception |
| PgQue.Queue.StoreFailures | internal/platform/queue/postgres.go:156-194 | without a failure nothing happens; a closed batch is an error; else the statement is stored exactly when it stores one row for each failed message |
| PgQue.Queue.FinishOpenBatch | migrations/20261026215434_install_pgque.sql:5884-5934 | the cursor moves to the end of the batch, or 0 rows change when no such batch is open |
| PgQue.Queue.FinishStatements | internal/platform/queue/postgres.go:137-154 | the statements of a finish succeed exactly on the open batch |
| PgQue.Queue.FinishBatch | internal/platform/queue/postgres.go:137-154 | it succeeds exactly on the open batch, then it is the step Finish with the verdicts of the results; otherwise everything rolls back |
| PgQue.FinishStores | internal/platform/queue/postgres.go:164-194 | on an open batch storing the failures always succeeds: no key breaks, and each failed message is in the batch |
| PgQue.ResultDecides | internal/platform/queue/postgres.go:205-220 | what finishBatch leaves of each message: done without an error, a dead letter with a permanent error or without retries left, else a retry row with one retry more |
| PgQue.QueryResultIsTheBatch | migrations/20261026215434_install_pgque.sql:376-506 | what the generated SQL finds is the batch, with different ids |
| Failures.CollectFailures | internal/platform/queue/postgres.go:196-222 | the failed messages in order, each dead exactly when its error is permanent or its retries have reached the limit, and the dead fields set in place |
| Failures.OneMatch | internal/platform/queue/postgres.go:183-185 | a failed message joins with its own row only |
| Failures.BulkIsNackAll | internal/platform/queue/postgres.go:156-194 | on errors that are not permanent the bulk statement leaves what one pgque.nack per failed message leaves, exactly when no failed message has a retry row already; then it breaks, and nack does not |
| Failures.NackFinds | migrations/20261026215434_install_pgque.sql:5407-5457 | pgque.nack finds the stored message and retries it or makes it dead by its stored count |
| Failures.StatementLeaves | internal/platform/queue/postgres.go:156-194 | the statement adds one retry row with retry + 1 or one dead letter for each failed message, and nothing else |
| FinishRaces.OneFinishWins | internal/platform/queue/postgres.go:137-154 | over any interleaving of the statements of any number of finishes, nothing changes until one commits; then exactly one has, the tables are what it alone leaves, and the others leave nothing |
| FinishRaces.WinnerStoresItsResults | internal/platform/queue/postgres.go:137-194 | the tables after the race are what storeFailures leaves for the results of the winner |
| FinishRaces.RaceIsOneFinish | internal/platform/queue/postgres.go:137-194 | on a batch whose messages have no row yet, the race as a whole leaves what the one step Finish leaves with the verdicts of the winner |
| FinishRaces.BreaksOnlyAfterCommit | internal/platform/queue/postgres.go:174-189 | the insert of a finish breaks a key only after another finish has committed |
| Failures.StoreIsFinish | internal/platform/queue/postgres.go:137-194 | what storing leaves on an open batch is what the step Finish says |
| WorkerRuns.WorkRunKeepsInv | internal/platform/queue/worker_batch.go:62-163 | over any interleaving of opens, stops, crashes, finishes, takeovers and purges the counts and the bounds hold |
| WorkerRuns.BatchPassesAreBounded | internal/platform/queue/worker_batch.go:62-74 | with retry limit M the batches of a message pass through the handlers at most 3(M + 1) times without a stop that is taken back, plus the runs that the counts forgot |
| ObservedRuns.ReportedRunsAreTheEarlierOpens | internal/platform/queue/worker_batch.go:91-108 | in every run in which currentBatch reports each open batch, purgeRuns spares its row and each stop is taken back, the runs that an open reports are the earlier opens that neither finished nor were stopped |
| ObservedRuns.PoisonMessagesEnd | internal/platform/queue/worker_batch.go:62-74 | in every run in which currentBatch reports each open batch and purgeRuns spares its row, the batches of a message pass through the handlers at most 3(M + 1) times without a stop that is taken back, over all its deliveries |
| ObservedRuns.CountStaysExact | internal/platform/queue/postgres.go:53-98 | a step makes a right count of an open batch wrong exactly when it is an unseen open of it, a purge of its count when that is not 0, or a stop of it that is not taken back |
| HandlerRuns.HandlerRunsAreBounded | internal/platform/queue/worker_batch.go:62-74 | in every run the handler of a message comes to its end at most 3(M + 1) times, plus the stops of its batches that were taken back, plus the runs that the counts forgot |
| HandlerRuns.ObservedHandlerRunsAreBounded | internal/platform/queue/worker_batch.go:62-74 | in every run with seen opens and spared counts the handler of a message comes to its end at most 3(M + 1) times, plus the stops of its batches that were taken back |
| HandlerRuns.StoppedBatchEndsInPart | internal/platform/queue/worker_batch.go:115-137 | in a stopped batch the handlers that came to their end are some, not all, of the messages |
| HandlerRuns.SecondMessageIsStopped | internal/platform/queue/worker_batch.go:115-137 | a context that ends while the second handler runs, which then fails, leaves the first message with the result of its handler and stops the second with its error |
| UnboundedRuns.UnseenOpensRunForever | internal/platform/queue/postgres.go:53-67 | without counted opens there is no bound: with retry limit 0 and no stop a handler comes to its end n times in a run from a new queue, for every n |
| UnboundedRuns.StoppedBatchRunsForever | internal/platform/queue/worker_batch.go:152-163 | with every open counted and retry limit 0 the first handler of a batch comes to its end n times in a run from a new queue that is stopped n times at the second, for every n |
| WorkerBatch.RunAll | internal/platform/queue/worker_batch.go:115-137 | a message is stopped exactly when the context has ended before its handler, or after it and the handler failed; its error is that of its handler unless the handler did not run |
| WorkerBatch.StoppedIsSuffix | internal/platform/queue/worker_batch.go:115-137 | stopped results are a suffix of the batch, each with an error; before it each message has the result of its handler |
| WorkerBatch.GiveUp | internal/platform/queue/worker_batch.go:139-150 | each message of a given-up batch fails without a handler run and without a stop |
| WorkerBatch.OpenAndCount | internal/platform/queue/worker_batch.go:94-108 | the calls of openBatch that change tables are one open, counted unless the read of the open batch failed |
| WorkerBatch.OpenBatch | internal/platform/queue/worker_batch.go:91-113 | an opened batch comes with all its messages in order; a failed call leaves at most an open batch |
| WorkerBatch.LeaveOpen | internal/platform/queue/worker_batch.go:152-163 | a stored stop takes one run back and touches nothing else |
| WorkerBatch.CloseBatch | internal/platform/queue/worker_batch.go:79-84 | finishing a batch that was not stopped always succeeds on the open batch, with the verdicts of its handlers |
| WorkerBatch.HandleBatch | internal/platform/queue/worker_batch.go:52-89 | each call takes steps of the worker protocol: a batch without a stop is finished, and each message is done, dead or to retry by the result of its handler, or by a temporary error after three runs; one stopped message leaves the whole batch open with the log unchanged |
| WorkerBatch.StopCostsNothing | internal/platform/queue/worker_batch.go:152-163 | an open and a stored stop leave the log, the next reported count and the spent passes as they were; a stop that is not stored costs one run and one pass |
| WorkerBatch.FirstStopCostsNothing | internal/platform/queue/worker_batch.go:152-163 | after a stored stop of its first open a batch comes back with no earlier run |
| Cooperative.StepKeepsInv | migrations/20261026215434_install_pgque.sql:6170-6390 | every cooperative call keeps the windows shared among the members and the finished ones |
| Cooperative.TakeOverMovesWindow | migrations/20261026215434_install_pgque.sql:6253-6285 | a takeover moves one window intact under a new batch id and touches no other member and not the cursor |
| Cooperative.WindowsTile | migrations/20261026215434_install_pgque.sql:6170-6390 | in every reachable state each transaction below the cursor is in exactly one window, and each window is finished or held by exactly one member |
| Cooperative.WindowFinishesOnce | migrations/20261026215434_install_pgque.sql:5916-5934 | a finished window is never held again |
| Cooperative.LateFinishFindsNothing | migrations/20261026215434_install_pgque.sql:6270-6280 | a member that lost its window cannot finish it: its batch id is never in use again |
| Cooperative.OnlyTheStaleLose | migrations/20261026215434_install_pgque.sql:6253-6268 | a member loses its window only by finishing it, by leaving, or to another member when its last sign of life is older than the dead interval |
| Cooperative.SignsOfLife | migrations/20261026215434_install_pgque.sql:6241-6285 | registering, asking for a batch, taking over and finishing are signs of life of the member |
| Cooperative.HandGivesNext | migrations/20261026215434_install_pgque.sql:6305-6388 | the next window starts at the cursor and ends at the first later tick, the cursor moves there, and no other member notices |
| Cooperative.FinishClears | migrations/20261026215434_install_pgque.sql:5884-5934 | a finish takes one window away and moves the cursor only of a consumer on its own |
| Cooperative.LeaveRemoves | migrations/20261026215434_install_pgque.sql:6541-6578 | a member that leaves is gone, and the last one leaves the consumer on its own at its cursor |
| CoopConsumer.Consumer.Register | migrations/20261026215434_install_pgque.sql:5984-6129 | the error cases of the registration, and otherwise the steps to a group that holds the member, with every window as it was |
| CoopConsumer.Consumer.FindVictim | migrations/20261026215434_install_pgque.sql:6253-6268 | the stale member with the oldest sign of life among those whose row is not locked |
| CoopConsumer.Consumer.NextWindow | migrations/20261026215434_install_pgque.sql:6241-6388 | a member gets its own window, else the one it takes over, else the next of the queue, else none |
| CoopConsumer.Consumer.NextBatch | migrations/20261026215434_install_pgque.sql:6170-6390 | the call is steps of the group, and an exception rolls back the registration too |
| CoopConsumer.Consumer.FinishBatch | migrations/20261026215434_install_pgque.sql:5884-5934 | a batch in use is finished once, by its holder's row; any other id changes nothing |
| CoopConsumer.Consumer.ReturnMessages | migrations/20261026215434_install_pgque.sql:6495-6540 | the loop over the window is one pgque.nack for each message |
| CoopConsumer.Consumer.Unregister | migrations/20261026215434_install_pgque.sql:6416-6578 | each refusal changes nothing; a member that leaves gives back the messages of its window and closes it, and without members the consumer is on its own |
| CoopConsumer.Consumer.ReadWindow | migrations/20261026215434_install_pgque.sql:6495-6509 | the rows between the two ticks of the window of the member, in the order of their ids |
| CoopConsumer.LeavingLosesNothing | migrations/20261026215434_install_pgque.sql:6495-6540 | afterwards each message of the window has a dead letter when its retries have reached the limit, else a retry row with one retry more; a row that was there before stays |
| CoopRotation.StepKeepsInv | migrations/20261026215434_install_pgque.sql:871-988 | every step of the log and every step of a group keep the invariants of both, with the rows of the group in pgque.subscription |
| CoopRotation.HeldWindowIsKept | migrations/20261026215434_install_pgque.sql:909-967 | in every reachable state of a log with a group, the ticks of a held window are there and each of its committed rows is in a table chosen for it, although the cursor of the group has passed it |
| CoopRotation.AheadIsKept | migrations/20261026215434_install_pgque.sql:909-967 | in every such state each committed row that the cursor has not passed is in the current or the previous table |
| RateLimiter.RateLimiter.constructor | internal/platform/web/ratelimit.go:44-51 | a new limiter has no keys and a tolerance of burst - 1 intervals |
| RateLimiter.RateLimiter.Sweep | internal/platform/web/ratelimit.go:91-99 | a due sweep removes exactly the keys that are not ahead of now |
| RateLimiter.RateLimiter.Allow | internal/platform/web/ratelimit.go:68-89 | the answer and the new table by GCRA after the sweep, or the rejection of a new key by a full table |
| RateLimiter.TableIsBounded | internal/platform/web/ratelimit.go:13-17 | the table never exceeds its limit |
| RateLimiter.SweptTableIsGcra | internal/platform/web/ratelimit.go:71-99 | the requests that meet room are decided as by GCRA over a table that never forgets a key |
| RateLimiter.GcraIsLeakyBucket | internal/platform/web/ratelimit.go:22-25 | GCRA decides as a leaky bucket does |
| RateLimiter.LimiterIsLeakyBucket | internal/platform/web/ratelimit.go:22-25 | a new limiter that meets room decides every request as a leaky bucket does |
| RateLimiter.WindowIsBounded | internal/platform/web/ratelimit.go:22-25 | one key gets at most burst plus one request per interval in any window of any run, also with full tables and sweeps |
| RateLimiter.NoneAllowedDuringWait | internal/platform/web/ratelimit.go:83-86 | before the end of a reported wait no request of the key is allowed, whatever else arrives |
| RateLimiter.AllowedAfterWait | internal/platform/web/ratelimit.go:68-89 | at the end of the wait the request is allowed, unless the key was swept from a table that is still full, which needs a tolerance of 0 |
| RateLimiter.RetryAfterIsNotEarly | internal/platform/web/ratelimit.go:59-61 | the Retry-After header is not before the end of the wait and less than one second after it |
| Rejections.FewKeysMeetRoom | internal/platform/web/ratelimit.go:75-80 | while the keys of the table and of the requests number at most the limit, no request meets a full table |
| Rejections.FewKeysLeakyBucket | internal/platform/web/ratelimit.go:22-25 | a new limiter decides any requests of at most that many keys as a leaky bucket does |
| Rejections.RejectionWithoutSweep | internal/platform/web/ratelimit.go:68-70 | a rejection when no sweep is due leaves the limiter as it was |
| Rejections.RejectionChangesNothing | internal/platform/web/ratelimit.go:68-70 | a rejection changes no later decision while the keys of the table and of the later requests number at most the limit |
| Rejections.RejectionMatters | internal/platform/web/ratelimit.go:68-99 | there are later requests that a rejection makes the limiter answer differently exactly when it took a due sweep, whatever the table holds |
| Rejections.RejectionChangesAnswer | internal/platform/web/ratelimit.go:68-99 | a rejection changes the answer to the next request exactly when it took a due sweep that freed nothing, the next key is new, and the sweep would have made room for it; then a full table replaces the answer of GCRA |
| FilledTable.FillLeads | internal/platform/web/ratelimit.go:68-89 | requests of n different keys lead from a new limiter to the table of the next row |
| FilledTable.RejectionCanTakeTheSweep | internal/platform/web/ratelimit.go:71-99 | from a new limiter whose table its own requests filled, a rejected request turns the answer to a later one from allowed to full |
| ServerSentEvents.EventStream.Send | internal/platform/web/sse.go:65-92 | a name with a line break is refused and writes nothing; any other call appends its event to the text of the earlier ones |
| ServerSentEvents.WireFormat | internal/platform/web/sse.go:65-92 | the text of a call: an event line for a name, a data line for each line of the data, an empty line |
| ServerSentEvents.LineBreaksBecomeLf | internal/platform/web/sse.go:77-78 | CRLF, CR and LF each become one LF, apart from the text around them |
| ServerSentEvents.NormalizedKeepsLf | internal/platform/web/sse.go:77-78 | data without CR is sent as it is |
| ServerSentEvents.NormalizedHasNoCr | internal/platform/web/sse.go:77-78 | no CR is left in the data |
| ServerSentEvents.ParseEvent | internal/platform/web/static/app.js:113-131 | the loop over the lines of a block, with fields, values and one optional space |
| ServerSentEvents.LineIs | internal/platform/web/static/app.js:117-123 | a field ends at the first colon, its value loses one leading space, and a line without a colon has no value |
| ServerSentEvents.LineSays | internal/platform/web/static/app.js:117-130 | an event line names the event, a data line adds a line, any other line says nothing |
| ServerSentEvents.ReadEvents | internal/platform/web/static/app.js:95-111 | the incremental reader yields what the whole text says, whatever the chunks |
| ServerSentEvents.BlocksGrow | internal/platform/web/static/app.js:103-110 | more text adds blocks at the end and takes none away |
| ServerSentEvents.BlockSays | internal/platform/web/sse.go:73-84 | the block of an accepted call parses to its name, or message, and its data |
| ServerSentEvents.RoundTrip | internal/platform/web/static/app.js:95-131 | for every sequence of accepted calls and every split of the text, the reader yields exactly the events in order |
| ServerSentEvents.CutStreamYieldsPrefix | internal/platform/web/static/app.js:100-103 | a stream that is cut anywhere yields a prefix of the events |
| Schedules.SlotIsCurrent | internal/platform/queue/worker_lead.go:132-132 | the slot is the one time with slot <= now < slot + every and slot = offset mod every |
| Schedules.JobSchedules.SendSlot | internal/platform/queue/postgres.go:275-291 | a slot goes out exactly when the row is missing or older, and the row moves with it |
| Schedules.Worker.SendSchedules | internal/platform/queue/worker_lead.go:128-150 | a pass handles the schedules up to the first error, and remembers a slot only after its statement succeeded |
| Schedules.ReachIs | internal/platform/queue/worker_lead.go:128-150 | a pass reaches its end exactly when no statement that it runs fails |
| Schedules.PassIsChecks | internal/platform/queue/worker_lead.go:128-150 | a pass is one check after another, so other workers may act in between |
| Schedules.SlotsIncrease | internal/platform/queue/worker.go:152-158 | across all workers, restarts, clocks and lost answers the slots of a type go out in increasing order, each at most once |
| Schedules.CacheSuppressesNothing | internal/platform/queue/worker_lead.go:133-135 | the remembered slot suppresses a slot that the row would grant exactly when there is no row and the slot is not after the zero time |
| Cursors.IsUuidIsCanonical | internal/note/http.go:191-204 | isUUID accepts exactly the 8-4-4-4-12 form with digits of either case |
| Cursors.HexTextIs | internal/note/http.go:191-204 | the digits of an id are lower-case hexadecimal, the most significant first |
| Cursors.UuidRoundTrip | internal/note/http.go:191-204 | the text of every 128-bit id is accepted and reads back as that id |
| Cursors.CursorRoundTrip | internal/note/http.go:164-189 | a cursor comes back from its text exactly when it is the start of the list or has a canonical id |
| Cursors.ParseAccepts | internal/note/http.go:173-189 | parseCursor accepts exactly the empty text and a time and a canonical id around the first underscore |
| NotePaging.NoteRepo.Insert | internal/note/postgres.go:26-41 | a new id adds the row; an id that is there is an error |
| NotePaging.NoteRepo.Delete | internal/note/postgres.go:77-91 | exactly the note with this id and owner goes; an unknown or foreign note is not found |
| NotePaging.PageIsExact | internal/note/service.go:43-58 | a page holds the newest notes after its cursor, what it leaves out follows the next cursor, and without one nothing is left out |
| NotePaging.PageIsNewestFirst | internal/note/postgres.go:43-66 | in the columns of the table: the notes of the user below the cursor, by created_at and id downwards, at most 20, and what is left out is below the last one |
| NotePaging.WalkIsExact | internal/note/service.go:43-58 | following next under any inserts and deletes repeats nothing and, at its end, has shown each note that stayed, once |
| NotePaging.WalkGoesOn | internal/note/http.go:164-189 | the cursor of a page is always accepted for the next page |
| NotePaging.WalkEnds | internal/note/service.go:43-58 | a walk over a finite set of notes has at most one page more than the notes fill |
| Migrator.Database.ApplyMigration | internal/platform/database/migrate.go:59-78 | the SQL of a file and its row take effect together or not at all |
| Migrator.Database.Migrate | internal/platform/database/migrate.go:18-57 | a run applies the files without a row in lexical order up to the first error, and leaves no lock |
| Migrator.LessIsLexical | internal/platform/database/migrate.go:41-41 | the order of the files is the lexical one: the first different character decides, and a prefix comes first |
| Migrator.MigratesInOrder | internal/platform/database/migrate.go:41-57 | what a run appends to the applied files is lexically increasing and only files without a row, wherever an error ends it |
| Migrator.FilesApplyOnce | internal/platform/database/migrate.go:18-78 | with any number of migrators and crashes each file takes effect once, with its row, in lexical order within a run, and a run that ends well has all its files applied |
| Migrator.RowIsNeverThere | internal/platform/database/migrate.go:48-55 | a migrator that did not see a file applied can insert its row |
| Migrator.BreakReleasesTheLock | internal/platform/database/migrate.go:94-106 | a migrator that breaks lets the next one go on |

## Left out

- PgQue.Queue.Ticker: the decision whether a tick is due (counts, lags, pauses, external ticks) is a free choice of the run; a tick that is made is modelled.
- PgQue.Queue.NextBatch: the limits on lag, count and interval, which the worker does not pass, are not modelled; the refusals for the rows of a cooperative consumer are those of CoopConsumer.
- PgQue.Queue.InsertEventRaw: the errors for an unknown queue and for a queue with disabled inserts are not modelled; one queue exists and accepts inserts.
- PgQue.Queue.EventDead: the batch is the one of the caller, so its lookup and the exception for an unknown batch are not modelled, nor is the main consumer of a cooperative member as the owner.
- PgQue.Queue.EventRetryRaw: a call without an event id and the error for an unregistered consumer are not modelled.
- PgQue.Queue.FinishOpenBatch: the branches of finish_batch for cooperative rows are those of CoopConsumer.Consumer.FinishBatch.
- PgQue.Queue.GetBatchEvents: the method builds and runs the SQL text in one step; steps of other sessions between the two are those of LateReads.LateReadIsExact.
- PgQue.Queue.MaintRetryEvents: which rows are due, and their order by due time, are given from outside.
- Failures.BulkIsNackAll: due times, delays and reason texts are not part of the rows.
- WorkerBatch.HandleBatch: the handler of a message is a function of the message during one call; contexts are the first reading that finds them ended; delays, jitter, logs and panics (which are errors) are not modelled.
- HandlerRuns.HandlerRunsAreBounded: a run of a handler counts when it ends; one that a crash or a stop cuts in the middle is not counted as a run.
- FinishRaces.OneFinishWins: the wait of the second delete for the run count row is part of the wait of ack, and a deadlock is an abort.
- CoopConsumer.Consumer.Register: names are consumer ids, so the checks of the names are not modelled; one queue exists; the error for a consumer of an incompatible kind is not modelled.
- CoopConsumer.Consumer.NextBatch: names are consumer ids; limits on lag, count and interval and the errors for corrupt rows are not modelled; ticks that a rotation removed stay known to the history.
- CoopConsumer.Consumer.Unregister: the checks of the names and the unknown queue are not modelled; the messages of the window are those of all committed transactions between its ticks; that the tables still hold them is HeldWindowIsKept of CoopRotation.
- RateLimiter.RateLimiter.Allow: the overflow of time.Duration, the mutex, and the choice of the key from the request are not modelled.
- ServerSentEvents.ReadEvents: chunks are text; the decoder from UTF-8 bytes is library code.
- ServerSentEvents.EventStream.Send: errors of the response writer are not modelled.
- Schedules.JobSchedules.SendSlot: the rounding of timestamptz to microseconds is not modelled.
- NotePaging.PageIsExact: the URL escaping of the cursor is library code; strings are sequences of bytes.
- Migrator.Database.Migrate: what the SQL of a file does, and statement timeouts, are not modelled.
- The worker lock and its loss (tryLock, lead, drain): the protocol allows several workers at any time, which covers every handover.
- moveRetries, maintainLoop, RunDue: loops that call the modelled steps in some order.
- dlq_replay, register_consumer_at, create_queue, drop_queue and closing a batch by hand: operator actions.
- The consumer-side checks of pgque.receive and its composite types, the trigger functions, roles, pg_cron and upgrade scripts: plumbing.
- HTTP handlers, templates, authentication, mail, language models: presentation and adapters.
- The validation of a note's text and the registration checks of the worker: single branches.
