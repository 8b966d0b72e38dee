# A model of the command pipeline

This project models the part of the framework where a wrong step corrupts data without an
error, and proves what holds of it: the versioned command pipeline over DynamoDB and Step
Functions, the reads that have to agree with it, the import pipeline, and three algorithms the
rest leans on.

| module | what it models |
|---|---|
| CommandModel | command, data and history rows of one base key; the projection and its fold |
| CommandProtocol | the state machine: one step per request, any interleaving, any number of versions, any staleness |
| ProtocolSafety, ProtocolHandshake, ProtocolAudit, ProtocolProgress | its invariants and main theorems |
| ProtocolLimits | runs that break a promise, with the exact condition |
| CommandTables, CommandStore | publishing as functions on tables, and the service that updates them in place |
| Retry | the bounded retry of the handshake reads |
| ReadYourWrites, Repository, ExternalList | the pending-command overlay on lagging reads |
| OrderedMap, StableSort, Keys, Values, Wrappers | an insertion-ordered map, the stable sort, key strings, JavaScript values, shared types |
| CsvPacker, ImportCounters, RollUp | packing, counting and rolling up an import |
| UpdateExpression | the compiler to update expressions |
| Directory | the forest of files and folders |
| MergeDeep | the recursive merge, on values and in the heap |

The table of the Model section lists results; the remaining lemmas are steps towards them.

## Assumptions about the environment

The theorems about the pipeline hold under these, which are visible in the model:

- Every asynchronous command row starts one execution; rows with syncMode start none
  (packages/core/src/events/default-event-factory.ts:43). The order of the steps is that of
  packages/core/test/infra-local/serverless.yml:153-316. Streams do not deliver twice, executions are not
  retried by Step Functions, no row expires while its key has pending commands, and the 24 hour
  timeout of the wait does not fire.
- Each DynamoDB or Step Functions request is one atomic step. A consistent read returns the last
  value of a row; any other read may return any value the row has held, or none.
- `cleanCopies`: no new row starts with a copied finish status. The code does not ensure this
  (see the findings).
- `settledWaits`, for the handshake: the trailing status write of the wait step lands before
  `finish` of the same version starts. The waiting execution is resumed before that write, so the code
  does not ensure it either.
- `currentCopies`, for audit completeness: history_copy reads the current data row.
- `currentSyncs`, for the fold of the chain: sync_data reads the current data row.
- A failing status write in `finish` stops the execution (`Fail`); the wake-up theorem speaks of
  runs in which the finishing side came to the end of that step.
- UUIDs and ULIDs are not repeated. Timestamps are opaque ordered values.

## What the proofs found

Each of these is a property that fails, with a lemma that shows the failing case or the exact
condition.

- A partial update, and a duplicate, copy `status` and `taskToken` of the row they start from. When
  that is a finish status, as it always is on an idle chain, the execution of the next version
  takes the copied row for a predecessor that has finished: it resumes itself and is applied first
  (ProtocolLimits.OrderBreaksIffFinishCopied, IdleChainShowsFinish, CopiedFinishOvertaken).
- A late `wait_prev_command:FINISHED` write can cover `finish:STARTED`; the successor is then
  neither pushed nor resumes itself (ProtocolLimits.StrandsIffWaitsUnsettled, FinishStrandsIffUnsettled).
- history_copy with a stale read copies an older row and leaves a hole
  (ProtocolAudit.CopySavesPredecessorIffCurrent).
- sync_data with a stale read, or one that finds no row, replaces createdAt, createdBy and createdIp
  by those of its own command (ProtocolAudit.FoldGoesOnIff, ProtocolLimits.MissedRowReplacesCreated).
- The two publish paths differ on a version below -1 and on a superseded version repeated
  (CommandTables.SyncAndAsyncJudgeAlike).
- The session row is not read consistently either: a read that misses it hides the user’s write,
  and one that sees an older version deletes the newer row. After a read has deleted the session
  row, a stale read of the data row goes back in time; items whose ids coincide hide each other’s
  writes; a command whose id is not generateId of its key is not shown
  (ReadYourWrites.OwnIdIsNeeded).
- Repeated ids in a page make `listItems` overstate its total (ExternalList.BooksBalanceIff).
- A base key that contains `@` loses its tail (Keys.BaseKeySurvivesIff).
- The packer charges a comma to a chunk that it has just emptied (CsvPacker.OneByteTooCautious), so only
  its first message may reach the limit (CsvPacker.MessagesAreCautious).
- Fewer children than rows never finish a job, more finish it repeatedly, and a file without rows
  is finished by the counters only if a child came first (ImportCounters.DecisionsAreCounted).
- A failed CSV job whose stored result is a non-empty string or an array, or an object with a
  truthy `result`, is not seen by the ZIP job (RollUp.FailureIsSeenIff); of a job that completed
  without a result it never hears (RollUp.CallbackCarriesStatus).
- A key that is both incremented and decremented is refused on every item, since an assignment may
  hold one operator (UpdateExpression.TwoStepsAreRefused); so is an increment or a decrement
  without `ifNotExists`, whose operand is never bound (UpdateExpression.SetOneKeepsMeaningIff).
- `ifNotExists` with a falsy value binds the whole operand; two keys that append to one list both
  get the items of the second; an object with a field named like a modifier is not stored as a
  value (UpdateExpression.SetOneKeepsMeaningIff, SecondAppendWins, StoredAsValueIff).
- A move leaves the item, and everything below it, where it was (Directory.MoveCopiesOneNode);
  an update may set any ancestors, after which a folder can be moved below itself
  (Directory.ExactIffLeftAlone, FolderIsMovedBelowItself).
- A value of a partial update is dropped when something truthy that is not an object stands on its
  path, be it a function that every object inherits; and a `__proto__` reaches Object.prototype
  (MergeDeep.ValueArrivesIff, ConstructorIsDropped, PrototypeIsWritten).

## Model

| member | source | states |
|---|---|---|
| ProtocolSafety.InOrderApplication | packages/core/src/commands/command.event.handler.ts:248-301 | In every reachable state, whatever the interleaving and however stale the eventually consistent reads, the data row has held exactly versions 1, 2, 3, … in order, and an execution about to write version v finds it at v - 1 |
| ProtocolSafety.NoVersionMismatch | packages/core/src/commands/command.event.handler.ts:248-301 | check_version never ends in its mismatch branch |
| ProtocolSafety.VersionChain | packages/core/src/commands/command.service.ts:404-408 | Under any interleaving of asynchronous, synchronous and duplicating publishes the stored versions are exactly 1..n and the data version never exceeds n |
| ProtocolSafety.SyncPublishNeedsIdleChain | packages/core/src/commands/command.service.ts:239-294 | A synchronous publish gets past its conditional put only if every stored version is applied, even when its own read of the data row is stale |
| ProtocolSafety.TtlPutSparesWaiters | packages/core/src/commands/command.service.ts:590-616 | While a version waits, no whole-row put of updateTtl is under way on its row or on its predecessor’s, so no token or finish status a waiter needs is overwritten |
| ProtocolSafety.StepKeepsSafe | packages/core/src/commands/command.event.handler.ts:47-104 | Every single request keeps the safety invariant of the whole machine |
| ProtocolHandshake.NoLostWakeUp | packages/core/src/commands/command.event.handler.ts:368-438 | In every interleaving a successor can stay suspended after both sides are through only if a read or a resume call failed for good; if only the push failed, the successor had looked before finish started |
| ProtocolHandshake.LateReaderResumesItself | packages/core/src/commands/command.event.handler.ts:160-194 | From finish:STARTED on, whatever became of the push, a waiting successor that reads its predecessor resumes itself |
| ProtocolHandshake.StepKeepsHandshake | packages/core/src/commands/command.event.handler.ts:106-202 | Every request keeps the two-sided handshake invariant between adjacent versions, but for those that start finish while their wait function is unsettled |
| ProtocolAudit.AuditComplete | packages/core/src/commands/history.service.ts:40-54 | With current reads of history_copy, however stale those of sync_data, history holds every superseded data row (equal up to ttl), and exactly versions 1..n-1 once n versions are applied |
| ProtocolAudit.CopySavesPredecessorIffCurrent | packages/core/src/commands/command.event.handler.ts:318-330 | history_copy of version v saves row v - 1 if and only if its read of the data row is current |
| ProtocolAudit.HistoryNeverLies | packages/core/src/commands/history.service.ts:40-54 | Even with stale reads, every history row is the data row of its version, up to ttl |
| ProtocolAudit.DataIsFoldOfChain | packages/core/src/commands/data.service.ts:69-78 | With current reads of sync_data, after n versions the data row is the fold of the projection over commands 1..n, whatever the interleaving |
| ProtocolAudit.FoldGoesOnIff | packages/core/src/commands/data.service.ts:69-78 | Whatever sync_data read: the row it is about to write is the fold of the chain if and only if the row it read gives the command the created* fields that the current one gives |
| ProtocolAudit.DataIsCommandButCreated | packages/core/src/helpers/transform.ts:9-37 | However stale the reads, every data row is its own command in all but the created* fields |
| ProtocolLimits.MissedRowReplacesCreated | packages/core/src/commands/data.service.ts:69-78 | The run: a read of sync_data that finds no row lets version 2 replace the created* fields by its own, and the data row is not the fold |
| CommandModel.FoldMeaning | packages/core/src/helpers/transform.ts:9-37 | What that fold says: the last command decides everything but createdAt, createdBy and createdIp, each the first one present in the chain |
| ProtocolProgress.StepsShrinkWork | packages/core/src/commands/command.event.handler.ts:47-74 | However stale the reads, every request of a failure-free run uses up a finite amount of work |
| ProtocolProgress.NoDeadlock | packages/core/src/commands/command.event.handler.ts:106-202 | However stale the reads have been, some request can be made as long as some version is unfinished |
| ProtocolProgress.QuiescentMeansApplied | packages/core/src/commands/command.event.handler.ts:368-438 | A failure-free run, whatever it read, that can make no more requests has applied every version |
| ProtocolProgress.Drains | packages/core/src/commands/command.event.handler.ts:368-438 | From every reachable failure-free state all stored versions can be driven to finish |
| ProtocolLimits.OrderBreaksIffFinishCopied | packages/core/src/commands/command.service.ts:209-237 | In every reachable state, a partial update or a duplicate of the last row can lead to out-of-order application if and only if the status it copies is a finish status |
| ProtocolLimits.IdleChainShowsFinish | packages/core/src/commands/command.service.ts:450-475 | The current last row of an idle chain always carries such a status |
| ProtocolLimits.CopiedFinishOvertaken | packages/core/src/commands/command.service.ts:209-237 | The run itself, from any such state: version n + 2 reaches the data row before version n + 1 |
| ProtocolLimits.StrandsIffWaitsUnsettled | packages/core/src/commands/command.event.handler.ts:58-62 | With clean copies, an environment lets a wake-up be lost although no read and no resume call fails if and only if it lets the wait function write its last status late |
| ProtocolLimits.FinishStrandsIffUnsettled | packages/core/src/commands/command.event.handler.ts:58-62 | With clean copies but unsettled waits: when the last version is about to start finish, the next one can be stranded although nothing fails if and only if the wait function of this version still has a status to write |
| ProtocolLimits.UnsettledWaitLosesWakeUp | packages/core/src/commands/command.event.handler.ts:58-62 | The run: a late last status write of the wait function hides finish from the next version |
| ProtocolHandshake.StrandingStartsFinishEarly | packages/core/src/commands/command.event.handler.ts:106-202 | In every run that strands version v + 1 although nothing failed, v wrote finish:STARTED while its own wait function still had a status to write |
| Retry.WithRetry | packages/core/src/commands/command.event.handler.ts:228-246 | The value of the first attempt that succeeds, else the error of the last; the waiting time adds up to baseDelayMs * (2^k - 1) |
| CommandTables.LatestIsEndOfChain | packages/core/src/commands/command.service.ts:537-564 | On a chain 1..n with data version d the search returns n (nothing if n = 0) within (n - d) / 5 + 6 reads |
| CommandTables.SyncAndAsyncJudgeAlike | packages/core/src/commands/command.service.ts:239-258 | On an idle chain both publish paths store, skip or refuse a command alike if and only if its version is at least -1 and it does not repeat a superseded version |
| CommandTables.SyncAndAsyncConverge | packages/core/src/commands/command.service.ts:289-330 | When stored, the synchronous path and the asynchronous pipeline run to its end leave the same history and, up to the updated* fields, the same data row |
| CommandTables.PublishSyncIsAtomic | packages/core/src/commands/command.service.ts:289-347 | Whatever stage throws, the chain stays gapless, and the data row is new exactly when the exception came after it was written |
| CommandTables.PublishAsyncExtendsChain | packages/core/src/commands/command.service.ts:350-411 | publishAsync adds version n + 1 or changes nothing |
| CommandTables.DuplicateExtendsChain | packages/core/src/commands/command.service.ts:450-475 | duplicate adds version n + 1 of the last row or changes nothing |
| CommandTables.AsyncEndsIdle | packages/core/src/commands/command.event.handler.ts:47-104 | A command stored and run alone to its end leaves an idle chain again, one longer, finished |
| CommandTables.SyncEndsIdle | packages/core/src/commands/command.service.ts:289-330 | So does a stored synchronous publish |
| CommandStore.CommandService.GetLatestItem | packages/core/src/commands/command.service.ts:537-564 | The loop returns the row the search specification names, with its number of reads |
| CommandStore.CommandService.PublishAsync | packages/core/src/commands/command.service.ts:350-411 | The new tables and the outcome are those of the specification that the chain lemmas are about |
| CommandStore.CommandService.PublishSync | packages/core/src/commands/command.service.ts:239-348 | The same, for every stage at which the pipeline may throw |
| CommandStore.CommandService.Duplicate | packages/core/src/commands/command.service.ts:450-475 | The same, for duplicate |
| CommandStore.CommandService.UpdateTtl | packages/core/src/commands/command.service.ts:590-616 | Only the previous row changes, and only its ttl |
| CommandStore.CommandService.Execute | packages/core/src/commands/command.event.handler.ts:47-74 | One execution run alone does to the tables what the pipeline specification says |
| ReadYourWrites.ReadsOwnWriteIff | packages/core/src/commands/repository.ts:72-121 | Over every run and for any stale answer of each table, session row included: exactly when getItem shows the user’s latest write; with a current session read, if and only if the session row is there and the command row is visible or the first read is recent enough, or the second read is recent enough; when the data row lags it is the projection of exactly that command |
| ReadYourWrites.OwnWritesAreRead | packages/core/src/commands/command.service.ts:418-448 | With a current read of the session row no staleness of the data row hides the user’s write while the session row lives, and with current reads of the data row nothing does |
| ReadYourWrites.UnabsorbedRowIsDroppedIff | packages/core/src/commands/repository.ts:101-106 | A session row that the data row has not caught up with is deleted by a read if and only if the read sees an older version of it and the data row at that version |
| ReadYourWrites.MissedSessionHidesWrite | packages/core/src/data-store/session.service.ts:100-116 | A run in which a read misses the session row, although it is there, and does not show the user’s write |
| ReadYourWrites.StaleSessionDropsNewer | packages/core/src/commands/repository.ts:101-106 | A run in which a read of an older session row shows the older version and deletes the newer row; afterwards even current session reads do not show the write |
| ReadYourWrites.StaleReadAfterDropGoesBack | packages/core/src/commands/repository.ts:101-120 | A run in which a stale read after the session row was dropped goes back before the user’s write |
| ReadYourWrites.SharedIdHidesWrite | packages/core/src/data-store/session.service.ts:51-60 | Two items with one id share a session row; reading one hides a write to the other |
| ReadYourWrites.SharedIdsExist | packages/core/src/helpers/key.ts:24-26 | Such items exist when partition keys differ in their number of segments |
| ReadYourWrites.OwnIdIsNeeded | packages/core/src/commands/command.service.ts:418-448 | After any run, a read with a current session read shows the command just published if and only if it carries the id of its item |
| ReadYourWrites.TwoSegmentKeysAreDistinct | packages/core/src/helpers/key.ts:42-57 | Under two-segment partition keys ids are equal exactly for equal keys |
| ReadYourWrites.Repository.GetItem | packages/core/src/commands/repository.ts:72-121 | The row returned and the session rows left, for every answer of the tables, the session read included |
| Repository.ListItemsByPk | packages/core/src/commands/repository.ts:141-255 | The loop renders the fold of one step per session over the map of the list |
| Repository.MergeRefinesReference | packages/core/src/commands/repository.ts:182-254 | With distinct items and sessions the result is the pending creates, latest first, then the list in its own order with pending updates in place and pending deletes gone |
| Repository.SessionOrderDoesNotMatter | packages/core/src/commands/repository.ts:191-239 | The order of the sessions does not matter for the items of the list |
| Repository.CaughtUpChangesNothing | packages/core/src/commands/repository.ts:199-205 | Sessions that the list has caught up with change nothing |
| Repository.MergedIdsAreDistinct | packages/core/src/commands/repository.ts:227-254 | The merged list names every item once |
| StableSort.SortMeaning | packages/core/src/commands/repository.ts:241-248 | The sort keeps every item, orders by key descending, and keeps the order of equal keys |
| StableSort.SortIsDetermined | packages/core/src/commands/repository.ts:241-248 | Those three facts determine the result |
| ExternalList.ListItems | packages/core/src/commands/repository.ts:381-427 | The loop computes the fold of one step per finding |
| ExternalList.BooksBalanceIff | packages/core/src/commands/repository.ts:381-427 | For any sessions and any filter the total moves by as much as the number of items if and only if the ids of the page are distinct; otherwise it is too high |
| Keys.AddVersionReadsBack | packages/core/src/helpers/key.ts:4-22 | A version is read back from its key, and a new version replaces the old |
| Keys.VersionedKeysAreInjective | packages/core/src/helpers/key.ts:4-6 | Two versioned keys are the same row exactly when base and version agree |
| Keys.BaseKeySurvivesIff | packages/core/src/helpers/key.ts:16-22 | A base key survives versioning if and only if it contains no @ |
| Keys.IdReadsBack | packages/core/src/helpers/key.ts:31-40 | An id gives back its base sort key, and only ids of that key do |
| Keys.TwoSegmentIdReadsBack | packages/core/src/helpers/key.ts:47-57 | An id over a two-segment partition key gives back both keys, whatever separators the sort key contains |
| Keys.TenantReadsBack | packages/core/src/helpers/key.ts:59-65 | The tenant is read back if and only if it contains no separator |
| Keys.S3UriReadsBack | packages/core/src/helpers/key.ts:77-90 | An object location reads back if and only if the bucket contains no slash |
| CsvPacker.Packer.HandleBatch | packages/import/src/event/csv-import.sfn.event.handler.ts:92-211 | The handler’s loops leave the counters, the open messages and the calls of the specification |
| CsvPacker.RowsAreConserved | packages/import/src/event/csv-import.sfn.event.handler.ts:140-162 | Against any answers at all: succeeded, failed and unanswered rows add up to the rows of the batch; the two counters alone do if and only if no message is left unanswered |
| CsvPacker.CountersAreExact | packages/import/src/event/csv-import.sfn.event.handler.ts:140-162 | When every entry is answered, succeededRows is the number of rows in the messages that SQS took and all others failed |
| CsvPacker.MessagesCarryAcceptedRows | packages/import/src/event/csv-import.sfn.event.handler.ts:164-204 | The messages together are the accepted rows in input order, one message to a call, none closed with more than a byte to spare for the next row |
| CsvPacker.ArraySizesAreBounded | packages/import/src/event/csv-import.sfn.event.handler.ts:173-190 | No item array exceeds the body limit less the envelope by more than its brackets, and only a single row exceeds it at all |
| CsvPacker.FewestMessages | packages/import/src/event/csv-import.sfn.event.handler.ts:181-193 | No division of the accepted rows into arrays below the limit, a row alone excepted, has fewer messages |
| CsvPacker.MessagesAreCautious | packages/import/src/event/csv-import.sfn.event.handler.ts:171-193 | The messages are the division of the accepted rows that fills each array before the next, the first up to the limit and the later ones to a byte below it |
| CsvPacker.GreedyIsOptimal | packages/import/src/event/csv-import.sfn.event.handler.ts:181-193 | No division into arrays that may reach the limit has fewer arrays than the one that fills each up to it |
| CsvPacker.OneByteTooCautious | packages/import/src/event/csv-import.sfn.event.handler.ts:171-193 | Three rows that fit two arrays of exactly the limit are sent as three messages, since the comma is charged before the chunk is emptied |
| CsvPacker.FewestAtLimitIff | packages/import/src/event/csv-import.sfn.event.handler.ts:171-193 | For arrays that may reach the limit, the packing is optimal if and only if the accepted rows fall into as many arrays when the later ones stay below the limit as when they may reach it |
| ImportCounters.BuildAtomicCounterUpdateExpression | packages/import/src/import.service.ts:576-602 | Evaluating the built expression on any row adds each amount to its counter, from zero when it is new, and changes nothing else |
| ImportCounters.ImportService.IncrementParentJobCounters | packages/import/src/import.service.ts:508-569 | The new row and the decision of one child |
| ImportCounters.ImportService.LoadTotal | packages/import/src/event/csv-import.sfn.event.handler.ts:62-80 | The new row and the decision of the loader |
| ImportCounters.CountersAddUp | packages/import/src/import.service.ts:516-525 | processedRows = succeededRows + failedRows, each the number of children that reported so |
| ImportCounters.DecisionsAreCounted | packages/import/src/import.service.ts:546-566 | How many steps write a final status, for any number of children, any total and any interleaving |
| ImportCounters.ExactlyOneDecision | packages/import/src/event/csv-import.sfn.event.handler.ts:67-80 | With as many children as rows exactly one step writes a final status, FAILED if and only if some child failed |
| ImportCounters.ExactlyOnceIff | packages/import/src/import.service.ts:546-566 | Exactly one decision in every interleaving if and only if the number of children is the number of rows, and not zero |
| RollUp.FinalizeParentJob | packages/import/src/event/csv-import.sfn.event.handler.ts:397-501 | The stored job; its status is FAILED exactly when the map crashed, nothing was reported, or a row failed |
| RollUp.FinalizeZipMasterJob | packages/import/src/event/zip-import.sfn.event.handler.ts:98-148 | The summary of all files; FAILED if and only if some callback reads as failed |
| RollUp.FailureIsSeenIff | packages/import/src/event/import-status.queue.event.handler.ts:98-112 | A failed CSV job is seen as failed by the ZIP job if and only if its stored result hides nothing truthy under `result`, or that carries the marker itself |
| RollUp.CallbackCarriesStatus | packages/import/src/event/import-status.queue.event.handler.ts:73-83 | For an object or absent result, the output of the callback is refused exactly when the job completed without a result, and otherwise the ZIP job sees a failure exactly when there is one |
| RollUp.CallbacksDeliver | packages/import/src/event/import-status.queue.event.handler.ts:29-96 | Every job that finalizeParentJob has ended reports under its own token, with the output that the summary is about |
| RollUp.ZipCountsEveryBatch | packages/import/src/event/zip-import.sfn.event.handler.ts:110-127 | The ZIP summary is the sum over every batch of every file, and counts the failed files |
| RollUp.RollUpConserves | packages/import/src/event/csv-import.sfn.event.handler.ts:473-481 | When every batch accounts for its rows, total = processed + failed at the ZIP level too |
| RollUp.ZipFailsIffSomeFileDoes | packages/import/src/event/zip-import.sfn.event.handler.ts:128-131 | The ZIP job is FAILED if and only if some file ended in failure |
| UpdateExpression.BuildUpdateExpression | packages/core/src/data-store/dynamodb.service.ts:275-307 | The three builders, merged, give the compiled expression of the specification |
| UpdateExpression.BuildSetClause | packages/core/src/data-store/dynamodb.service.ts:323-381 | One key of `set`, from the raw value: its right-hand side, values and names |
| UpdateExpression.MeaningIsKeptIff | packages/core/src/data-store/dynamodb.service.ts:275-446 | Where a description can be carried out, evaluating the compiled expression does what is written, entry by entry on the old item, if and only if the description is well formed, entries that append to one list append the same value and every falsy start finds its attribute |
| UpdateExpression.CompileExactly | packages/core/src/data-store/dynamodb.service.ts:275-446 | On every item, when such entries agree: a description that is not well formed is refused; of one that is, meaning and refusal are kept if and only if it cannot be carried out or its falsy starts find their attributes |
| UpdateExpression.CompilePreservesMeaning | packages/core/src/data-store/dynamodb.service.ts:309-385 | Without falsy starts the meaning is kept on every item |
| UpdateExpression.AcceptedIff | packages/core/src/data-store/dynamodb.service.ts:309-385 | DynamoDB accepts the expression (every placeholder used is bound and every bound one used, one operator to an assignment, each attribute written once, no section empty) if and only if increments and decrements come with ifNotExists and not both, listAppend comes alone, no section is empty and no key is in two sections |
| UpdateExpression.SetOneKeepsMeaningIff | packages/core/src/data-store/dynamodb.service.ts:334-345 | Setting one key keeps its meaning on every item if and only if it neither loses a falsy start (nothing is added to it, or it is zero and numbers are) nor is refused outright (listAppend with other modifiers, a step without ifNotExists, or two steps) |
| UpdateExpression.TwoStepsAreRefused | packages/core/src/data-store/dynamodb.service.ts:334-358 | A key with a start, an increment and a decrement is refused on every item, although it says start + up - down |
| UpdateExpression.StoredAsValueIff | packages/core/src/data-store/dynamodb.service.ts:331-378 | A value is stored as it is, on every item, if and only if it is not an object with a field named like a modifier |
| UpdateExpression.SecondAppendWins | packages/core/src/data-store/dynamodb.service.ts:360-366 | Two keys that append to one list both get the items of the second |
| UpdateExpression.OrdinaryKeysAreApart | packages/core/src/data-store/dynamodb.service.ts:328-364 | Keys that differ and neither end nor begin like a generated placeholder share none |
| UpdateExpression.ZeroStartIsRefused | packages/core/src/data-store/dynamodb.service.ts:334-352 | A counter started at zero through a path cannot be incremented |
| UpdateExpression.CollidingKeyTakesOver | packages/core/src/data-store/dynamodb.service.ts:338-374 | A key that ends like a generated placeholder takes the place of another key’s value |
| Directory.ParentsAreOlder | packages/directory/src/directory.service.ts:81-134 | Over any run, whatever stale rows the operations read, every version of every item names one parent, an older item that can be read under the same partition key |
| Directory.TurnKeepsForest | packages/directory/src/directory.service.ts:81-792 | Every operation keeps the forest, whatever past version of each row it reads and whatever its permission check says |
| Directory.TurnOutcome | packages/core/src/commands/command.service.ts:350-411 | An operation with stale reads does nothing, or publishes as if they were current: a command that follows an older version loses the conditional put |
| Directory.EffectiveRoleIsFirstVerdict | packages/directory/src/directory.service.ts:324-365 | The effective role is the word of the first item on the path to the root that decides |
| Directory.OnlyAbsorbingChangesRoles | packages/directory/src/directory.service.ts:324-365 | No operation changes a role before its command is absorbed, and that changes roles only in the subtree of its item |
| Directory.AncestorsAreThePath | packages/directory/src/directory.service.ts:115-118 | Over any run whose updates leave the ancestors they read alone, whatever stale rows are read, every version of every item lists exactly the path from the root to its parent |
| Directory.ExactIffLeftAlone | packages/directory/src/directory.service.ts:662-669 | A step that changes something keeps the ancestors exact if and only if it is not an update that sets others |
| Directory.MoveIsRefusedIff | packages/directory/src/directory.service.ts:257-273 | A permitted move is refused exactly when the target is the item or lies below it |
| Directory.ClearedAncestorsAdmitMove | packages/directory/src/directory.service.ts:656-669 | Whoever may write to a folder below an item can clear its ancestors with an update, and then move the item into it |
| Directory.FolderIsMovedBelowItself | packages/directory/src/directory.service.ts:269-273 | There is a run from the empty table after which the service moves a folder into its own subfolder |
| Directory.MoveCopiesOneNode | packages/directory/src/directory.service.ts:275-286 | A move makes a new item without children; the old item, its children and their paths stay |
| Directory.DirectoryService.CreateItem | packages/directory/src/directory.service.ts:81-134 | The tables after the step, or the error |
| Directory.DirectoryService.CopyItem | packages/directory/src/directory.service.ts:160-223 | The tables after the step, or the error |
| Directory.DirectoryService.MoveItem | packages/directory/src/directory.service.ts:225-289 | The tables after the step, or the error |
| Directory.DirectoryService.UpdateItem | packages/directory/src/directory.service.ts:614-677 | The tables after the step, or the error |
| Directory.DirectoryService.RestoreVersion | packages/directory/src/directory.service.ts:497-551 | The tables after the step, or the error |
| MergeDeep.MergeInto | packages/core/src/helpers/object.ts:6-22 | On the heap, with inherited names: the merge leaves the objects of the target if and only if a field `__proto__` of the source meets a target that has none and holds an object that alters the prototype, an array or null; otherwise the target becomes the merge, its new objects are fresh, and nothing else changes or is shared |
| MergeDeep.PartialUpdate | packages/core/src/commands/command.service.ts:231-231 | mergeDeep({}, item, input) is a fresh tree that shares nothing with item or input, holding their merge, unless one of the two merges leaves it |
| MergeDeep.MergeIntoEmptyIff | packages/core/src/helpers/object.ts:6-22 | Merging into an empty object copies an object if and only if it has no field `__proto__` and no object under an inherited name, at any depth |
| MergeDeep.PartialUpdateIsMergeIff | packages/core/src/commands/command.service.ts:231-231 | mergeDeep({}, item, input) is one merge into the item, for every input, if and only if the item is such an object |
| MergeDeep.ConstructorIsDropped | packages/core/src/helpers/object.ts:12-14 | An object under the name constructor is dropped |
| MergeDeep.PrototypeIsWritten | packages/core/src/helpers/object.ts:12-15 | Merging `{"__proto__": {name: value}}` gives the field to every object |
| MergeDeep.MergeIsIdempotent | packages/core/src/helpers/object.ts:10-19 | Merging a source a second time changes nothing |
| MergeDeep.UnmentionedPathsStay | packages/core/src/helpers/object.ts:11-18 | Every path the source does not mention keeps its value |
| MergeDeep.ValueArrivesIff | packages/core/src/helpers/object.ts:12-17 | A value of the source arrives if and only if nothing on its path, own or inherited, is truthy without being an object, and the path does not go through an inherited `__proto__` |

## Left out

- ProtocolSafety.VersionChain, InOrderApplication, NoVersionMismatch, SyncPublishNeedsIdleChain and TtlPutSparesWaiters assume `cleanCopies`; without it they are false, and ProtocolLimits.OrderBreaksIffFinishCopied says exactly when, for the next row of any state.
- ProtocolHandshake.NoLostWakeUp assumes `cleanCopies` and `settledWaits`; ProtocolLimits.StrandsIffWaitsUnsettled says that the second cannot be dropped.
- ProtocolProgress.NoDeadlock, QuiescentMeansApplied, Drains and StepsShrinkWork are about runs of asynchronous commands without failures: publishSync never pushes to a waiter, and a failed version stops for good. Reads of data rows may be stale.
- ProtocolAudit.AuditComplete assumes `currentCopies`, without which CopySavesPredecessorIffCurrent says what is saved; DataIsFoldOfChain assumes `currentSyncs`, without which FoldGoesOnIff says when it goes on. Neither covers a key whose data row expired.
- Custom data sync handlers: check_version looks at the data table only, so their order across versions is not promised. A throw of one is a stage of publishSync.
- Status notifications, alarms, logging, the sequence of SNS messages.
- Offloading of attributes to S3 in reads and writes; only the location string is modelled.
- CommandModel: the fields `source` and `csk`, which the two publish paths fill differently; the `updatedAt` that every status, token and updateItem write sets on the command row (packages/core/src/data-store/dynamodb.service.ts:84-91), which an overlay read may show and nothing else here depends on.
- ReadYourWrites: the rows of other users and modules; the deletion of a session row is atomic with the read that decides it; in the source it is started and not awaited.
- Repository.ListItemsByPk, ExternalList.ListItems: deletion of caught-up session rows, paging, and the early exits of listItems before sessions are read.
- CsvPacker.Packer.HandleBatch: an exception of the queue service inside the loop, after which the spliced batch is in neither counter; a missing queue URL; a missing strategy.
- ImportCounters: the status write that follows a decision is part of the deciding step.
- RollUp: fetching result files, the order of hooks. Results that are numbers but not integers, and counts that are not numbers beyond the fact that they make the sum undefined.
- UpdateExpression: a null value (the builder throws before any request), keys with dots or brackets (document paths), operand paths that are not strings, and the text of the expression; the clauses are kept as data. Empty sets, which the client refuses, are no values of the model; keys with characters outside the syntax of placeholders, and keys that are those of the table, are refused by DynamoDB and not modelled.
- UpdateExpression.MeaningIsKeptIff and CompileExactly assume that no placeholder is generated twice, except by appends to one list; CollidingKeyTakesOver shows a collision, and OrdinaryKeysAreApart a way to rule them out.
- Directory: updatePermission, rename, remove and restoreTemporary are steps of the machine without a method of the class; removeFile acts on the forest like remove; tags, sizes and history lists. An operation reads one version of each row, its permission check apart. OnlyAbsorbingChangesRoles and ExactIffLeftAlone are about current reads.
- MergeDeep: dates and other objects that are not plain; identity of arrays, which the merge copies by reference and never changes; what a merge does after it has reached a prototype, and enumerable fields that somebody gave to Object.prototype before.
- Sequences, tasks, master data, tenants, user interface settings, mail, the command line tool and the infrastructure templates: single increments, thin wrappers or text.
