# Seafowl: replication, caching and filter pushdown, verified

A Dafny model of three parts of Seafowl and proofs of what they promise.

**The data-sync writer** (`src/frontend/flight/sync`). Clients replicate tables by sending change
messages, grouped into transactions by origin and sequence number. Each message is squashed to one row
per chain of changes and queued per table. A queue is flushed by an outer join onto the table files that
may hold affected rows. The durable sequence number of an origin moves forward only over a prefix of
transactions that are complete and fully flushed.

- `Tables` gives tables, one-row-at-a-time replay, and the join of `apply_sync` on bags of rows, `Projection`
  says cell by cell what the join stores.
- `Chains` is squashing on changes, `Squash` is the imperative squashing of rows, `SquashCounts` says what
  it conserves, and `SquashLimits` for which schemas it is right.
- `Prune` holds the statistics-based file pruning, `Rechunk` the re-chunking of a plan's output.
- `SyncState` is the writer as a state machine over enqueue, create, commit, skip and restart steps,
  with a history of what was accepted. `SyncInvariant` and `SyncStore` hold the inductive invariant,
  `SyncTheorems`, `SyncConvergence`, `SyncRecovery`, `SyncRestarts` and `SyncExact` the results over whole
  runs, and `SyncScenarios` runs on the other side of their conditions.
- `Writer` is the writer as an object. Every one of its methods is proved to take steps of the machine,
  and `Valid()` says that the object is in the last state of a run, so all results about runs hold of it.
- `FlightHandler` is the command handler on top, `SchemaCheck` the validation of column descriptors.

**The byte-range cache** (`src/object_store/cache.rs`). `CacheModel` holds the shared state, everything
that may happen to it at an await point, and chunk arithmetic, `CacheReads` what a read makes of the chunks
it finds and which requests it sends. `Cache` is the store as an object whose reads are interleaved with an
arbitrary schedule of evictions, expiries, lost files, inserts by other readers, and writes that begin, put
part of a file in place, finish or fail.

**Filter pushdown** (`datafusion_remote_tables`). `FilterPushdown` is the stack machine that prints
filters, `SqlTree` an operator-precedence parser for each remote source, `SqlSpelling` and
`FilterRoundTrip` the result that says which filters read back as themselves, and `FilterMerge` the same for
the merged filters of a scan.

`Basics` holds what all of them share.

## Where the code does less than it seems to

Each of these is proved, with the exact condition and a family of inputs on the other side of it.

- Squashing is right for a schema if and only if it has at most one `Changed` column and lists old and
  new key columns in the same order (`SquashLimits.SquashSafeSchemas`). Schema validation checks neither.
- A row is stored under its new key if and only if no key column is also a value column
  (`Schema.KeysProjected`). Schema validation does not check that either (`SchemaCheck.AcceptedIsValid`).
- Changes without any key are documented as skipped. The join adds one row without key for each of them, so
  none is added if and only if there is no such change (`Tables.KeylessAdded`).
- The durable number of an origin stays behind its memory number if and only if every durable transaction, or
  a later one of its origin, was reported in memory (`SyncTheorems.DurableBehindMemory`). A message that fails
  to squash after its transaction was completed is not (`SyncScenarios.NeverReported`).
- A commit that empties the queues leaves at most an open transaction if and only if no complete transaction
  waits for a table that has none of its messages queued (`SyncTheorems.DrainedIsDurable`). If no message
  failed to squash since the last restart, that is so if and only if no queue was skipped whole since then
  (`SyncTheorems.DrainedExactly`, `SyncScenarios.StuckForever`). A failed message can leave a transaction
  waiting as well (`SyncScenarios.FailedBlocks`).
- After a restart a flush skips exactly what was committed before if and only if all of it has arrived again,
  with its last transaction complete, and the last commit ended with a complete transaction that has one item
  for the table (`SyncRecovery.RestartSkips`). The limits that force a flush do not wait for the first
  condition. With two items, or with a flush too early, an inserted row ends up in the table twice
  (`SyncScenarios.InsertedTwice`, `SyncScenarios.AppliedEarly`).
- Over any number of restarts, the messages of a client are applied exactly once if and only if every flush
  finds the first pending message of the committed transaction where the messages that the table holds end
  (`SyncExact.ExactlyIff`). If the restarts come after commits that ended well, that is so if and only if the
  first flush after each of them comes when the client has caught up (`SyncExact.ExactlyWhen`).
- The count of files that fine pruning saves is an unsigned difference. For keys that are NULL all together
  or not at all, it is computed and negative if and only if the files left by coarse pruning hold more than
  three million rows, some key column has no statistics, and coarse pruning dropped a file
  (`Prune.PrunePartitions`, `Prune.NegativeDifference`).
- A cached read that starts inside an object is right in every reachable state if and only if the last
  chunk it touches starts inside the object (`Cache.CachingObjectStore.GetRange`, `Cache.ReadPastEnd`,
  `Cache.ReadTwicePastEnd`), as long as no reader opens an unfinished file. None does if writes are atomic, or
  if a chunk is only inserted when no write of it is in flight or has failed half-way, and entries still point
  to a file when it is opened, whatever is evicted or lost and when (`CacheModel.StepKeepsWhole`,
  `CacheModel.StepKeepsTidy`). Without these, reads return part of a chunk (`Cache.ReadSecondWrite`,
  `Cache.ReadTornWrite`, `Cache.ReadStalePointer`).
- A cached chunk is never without its file if it is only inserted when no write of it is in flight or has left
  an unfinished file, and nobody else deletes files (`CacheReads.NeverLost`). Otherwise it can be
  (`CacheReads.LostOnce`); it is then fetched again.
- A filter reads back as itself if and only if its literals are legible and no operand printed without
  parentheses shows an operator that binds too loosely (`FilterRoundTrip.RoundTrip`). On MySQL a text is
  legible if and only if its backslashes all come before a percent sign or an underscore
  (`FilterPushdown.TextRoundTrip`, `FilterRoundTrip.Backslash`). Some operators are shipped to sources that
  have no such operator (`FilterRoundTrip.ShippedUnread`).

## Model

| member | source | states |
|---|---|---|
| Tables.ApplySyncBag | src/frontend/flight/sync/writer.rs:648-761 | the rows produced by one sync depend only on the bag of rows it is applied to, not on their order |
| Tables.ApplySyncFrame | src/frontend/flight/sync/writer.rs:648-761 | rows that no change of the batch matches pass through, and the rest of the result does not depend on them |
| Tables.ApplySyncRepresents | src/frontend/flight/sync/writer.rs:648-761 | on a keyed table and a batch whose keys do not clash, the join yields exactly the keyed table the batch describes, each row once; which cells they hold is `Tables.StepStores`, and for the join of any rows with any message `Projection.JoinProjects` |
| Tables.StepStores | src/frontend/flight/sync/writer.rs:684-733 | the row under the new key holds, column by column, what the change writes, else what the row under the old key held, else NULL; the old key is gone, and every other row stays |
| Projection.JoinProjects | src/frontend/flight/sync/writer.rs:648-761 | for any table rows and any message, a row is in the result if and only if it is a table row that no message row matches by its old key, or comes of a message row that is not a delete and a table row with its old key, or, if there is none, of the message row alone; every column holds the message's value unless its flag is false or NULL, else what was there, or NULL |
| Projection.KeyProjects | src/frontend/flight/sync/writer.rs:686-693 | if no key column is also a value column, the stored key columns hold the new key of the message |
| Tables.ReplayConcat | src/frontend/flight/sync/writer.rs:480-489 | replaying two streams in turn is replaying their concatenation, and it is well-formed exactly when both parts are |
| Tables.InsertAppends | src/frontend/flight/sync/writer.rs:736-751 | an insert is appended whether or not its key is live, because the join looks at old keys only |
| Tables.NullKeysAddNullRow | src/frontend/flight/sync/writer.rs:652-760 | what the row added for a change with neither key is: NULL in every column |
| Tables.KeylessAdded | src/frontend/flight/sync/writer.rs:652-760 | over any table and any batch, the rows without key grow by exactly the number of changes with neither key, so by none if and only if there is no such change |
| Schema.ProjectsWrites | src/frontend/flight/sync/writer.rs:684-733 | outside the key, a column of the table is overwritten with the value column exactly when that is written, and otherwise keeps what it held |
| Schema.KeysProjected | src/frontend/flight/sync/writer.rs:686-693 | every key column gets the new key, whatever the row, if and only if no value column has the name of a key column |
| Chains.SquashPreservesMeaning | src/frontend/flight/sync/utils.rs:81-155 | for every table and every well-formed stream, the squashed batch applied at once gives the table that the changes give one by one |
| Chains.SquashConserves | src/frontend/flight/sync/utils.rs:85-155 | for every stream, inserts minus deletes is unchanged, there is one change per chain that is not temporary, and changes are never added |
| Squash.TrackChains | src/frontend/flight/sync/utils.rs:81-132 | the loop over rows computes the chains, their first, last and changed rows, and the temporary ones |
| Squash.Transpose | src/frontend/flight/sync/utils.rs:134-155 | the surviving chains' row positions, one list per column role |
| Squash.AssignColumns | src/frontend/flight/sync/utils.rs:157-199 | the row position every output column is gathered from, and the panic exactly when a `Changed` column has no list |
| Squash.SquashBatches | src/frontend/flight/sync/utils.rs:21-217 | the whole function returns the squashed rows, and panics exactly when there is a `Changed` column and no chain survives |
| Squash.SquashRowsDecode | src/frontend/flight/sync/utils.rs:157-216 | the gathered rows, read as changes, are the squashed changes, for every schema of the safe kind |
| Squash.MessagePreserved | src/frontend/flight/sync/utils.rs:81-216 | joining any rows of a table with the squashed message gives the replay of its raw rows |
| SquashCounts.MessageConserved | src/frontend/flight/sync/utils.rs:703-706 | for every message and every schema without duplicate columns, inserts minus deletes is unchanged, output rows are chains minus temporary chains, and rows are never added |
| SquashLimits.OrderMatters | src/frontend/flight/sync/schema.rs:76-81 | for every schema with key columns in different orders there are a well-formed message and table rows whose join with the squashed message is not the table that the rows give one by one |
| SquashLimits.OneFlagOnly | src/frontend/flight/sync/utils.rs:166-199 | the same for every schema with two or more `Changed` columns |
| SquashLimits.SquashSafeSchemas | src/frontend/flight/sync/utils.rs:81-216 | a valid schema is of the safe kind if and only if, for every well-formed message and any rows of any table, the join with the squashed message gives the table that the rows give one by one |
| SchemaCheck.TryNew | src/frontend/flight/sync/schema.rs:12-94 | descriptors are accepted exactly when acceptable, columns keep their name and have the role with their wire value 0, 1, 2 or 3, and otherwise the first fault is reported |
| SchemaCheck.AcceptedIsValid | src/frontend/flight/sync/schema.rs:22-81 | an accepted schema has what squashing, pruning and the join rely on if and only if no two columns share role and name and no key column is also a value column |
| Rechunk.PlanToFiles | src/context/delta.rs:103-155 | files concatenated are the input rows in order, all but the last are full, their number is max(1, ceil(rows / limit)), and paths match metadata |
| Rechunk.ChunkedUnique | src/context/delta.rs:103-155 | rows and limit determine the files |
| Prune.GetPruneMap | src/frontend/flight/sync/utils.rs:287-415 | a file is kept exactly when some key tuple is not refuted by its statistics in three-valued logic, or a key column has none |
| Prune.FinePruningSound | src/frontend/flight/sync/utils.rs:287-415 | no file with a row that some change refers to is pruned |
| Prune.FineExact | src/frontend/flight/sync/utils.rs:287-415 | in plain comparisons: a file is kept if and only if some key column has neither a minimum nor a maximum, or some row has a value in its first key column and each of its key values lies within the file's bounds, as far as there are any |
| Prune.ConstructQualifier | src/frontend/flight/sync/utils.rs:222-283 | the bounds are the least and greatest non-NULL key values over all items |
| Prune.CoarsePruningSound | src/frontend/flight/sync/writer.rs:774-796 | no file with a row that some change refers to lies outside both boxes |
| Prune.CoarseExact | src/frontend/flight/sync/writer.rs:774-796 | a file is kept if and only if, for the old or for the new keys, there is some key value and on every key column the values reach up to the file's minimum and down to its maximum, as far as there are any |
| Prune.TotalDropOne | src/frontend/flight/sync/writer.rs:799-814 | a file counts with its number of rows if it is kept and the number is known, and otherwise with none |
| Prune.FineRefinesCoarse | src/frontend/flight/sync/writer.rs:774-829 | with statistics for every key column, and keys that are NULL all together or not at all, fine pruning keeps a subset of what coarse pruning keeps |
| Prune.PrunedCountDifference | src/frontend/flight/sync/writer.rs:819-828 | fine pruning keeps more files than coarse pruning if some key column has no statistics and coarse pruning dropped a file, and only then if keys are NULL all together or not at all |
| Prune.NegativeDifference | src/frontend/flight/sync/writer.rs:819-828 | an insert over two key columns, one without statistics, and two files, one of them with over three million rows and the other ruled out: the difference is computed and is -1 |
| Prune.PrunePartitions | src/frontend/flight/sync/writer.rs:765-836 | panics exactly when no item has a key; otherwise the files kept are those of coarse pruning, or of fine pruning exactly above three million rows; no file with an affected row is dropped; exactly when the unsigned difference overflows |
| Prune.PrunedRewrite | src/frontend/flight/sync/writer.rs:428-518 | rewriting only the kept files and leaving the others gives the table that rewriting everything gives |
| SyncInvariant.EnqueueKeeps | src/frontend/flight/sync/writer.rs:168-298 | enqueueing keeps the memory invariant: a contiguous suffix of transactions, only the last one open, every pending item's transaction waiting for its table |
| SyncInvariant.CommitKeeps | src/frontend/flight/sync/writer.rs:537-545 | so does a commit |
| SyncInvariant.SkipAllKeeps | src/frontend/flight/sync/writer.rs:417-421 | so does dropping a queue that is skipped whole |
| SyncStore.PendingTxFound | src/frontend/flight/sync/writer.rs:618-624 | the transaction of a pending item is always found, so the lookup that would panic never does |
| SyncStore.NothingSkipped | src/frontend/flight/sync/writer.rs:590-616 | without replays a flush skips nothing |
| SyncStore.NewCommitFrom | src/frontend/flight/sync/writer.rs:618-645 | the commit info written names a past transaction that all later items come after, or is inherited |
| SyncStore.NewCommitEnds | src/frontend/flight/sync/writer.rs:618-645 | it names the transaction of the last item, or an earlier one when that transaction is open |
| SyncStore.NewCommitIs | src/frontend/flight/sync/writer.rs:618-645 | there is commit info if and only if there was some before or some kept item belongs to a complete transaction; it names the last such item's transaction, or else the one named before, and is marked open exactly when the last kept item's transaction is |
| SyncStore.CommitNeverLost | src/frontend/flight/sync/writer.rs:618-645 | over every run, restarts included, a table that has commit info keeps having some |
| SyncStore.NextInv | src/frontend/flight/sync/writer.rs:378-561 | every step keeps the invariant over memory, tables and history |
| SyncStore.RunInv | src/frontend/flight/sync/writer.rs:168-561 | the invariant holds in every state of every run, restarts included |
| SyncTheorems.Enqueues | src/frontend/flight/sync/writer.rs:168-298 | what a message does in any reachable state: refused without change exactly for an open transaction of another origin, or for no rows and no open transaction; otherwise its transaction, the queue of its table with its squashed rows, size, rows and time, and the memory number of its origin |
| SyncTheorems.Completes | src/frontend/flight/sync/writer.rs:187-211 | over every run, a message with a number from the origin of the open transaction, with or without rows, completes it, and its number becomes the memory number unless squashing fails |
| SyncTheorems.DurabilitySafety | src/frontend/flight/sync/writer.rs:839-881 | in every state of every run, a reported durable number belongs to a transaction all of whose rows, and those of all transactions that started before it, are committed |
| SyncTheorems.DurableBehindMemory | src/frontend/flight/sync/writer.rs:290-295 | with increasing sequence numbers, no durable number exceeds its memory number if and only if every durable transaction, or a later one of its origin, was reported; always if no message failed after completing its transaction |
| SyncTheorems.RunBehind | src/frontend/flight/sync/writer.rs:290-295 | in every state of every run without such a failure since the last restart, skipped queues included, no durable number exceeds its memory number |
| SyncScenarios.NeverReported | src/frontend/flight/sync/writer.rs:239-298 | for every two such messages there is a run after which an origin has a durable and no memory number |
| SyncTheorems.DurableMonotone | src/frontend/flight/sync/writer.rs:860-881 | with increasing sequence numbers, no step but a restart lowers a durable number |
| SyncTheorems.DurableOnlyGrows | src/frontend/flight/sync/writer.rs:860-881 | the same over any stretch of a run |
| SyncTheorems.DrainedIsDurable | src/frontend/flight/sync/writer.rs:540-545 | a commit that empties the queues leaves at most an open transaction if and only if no complete one was waiting for a table with none of its messages queued, and then every complete one is durable; without failed messages, if and only if no queue was skipped whole, and then durable equals memory |
| SyncTheorems.FlagsMean | src/frontend/flight/sync/writer.rs:378-561 | over every run, the two flags of the history say exactly which steps happened since the last restart |
| SyncTheorems.DrainedExactly | src/frontend/flight/sync/writer.rs:417-421 | the same over runs; without a failed message since the last restart, if and only if no queue was skipped whole since then |
| SyncScenarios.StuckForever | src/frontend/flight/sync/writer.rs:417-421 | for every one-message transaction that is sent again after a restart and skipped, the next commit that empties the queues leaves it in memory |
| SyncScenarios.FailedBlocks | src/frontend/flight/sync/writer.rs:239-298 | for every message that completes a transaction and fails, a run after which that transaction is left although nothing is queued |
| SyncConvergence.Convergence | src/frontend/flight/sync/writer.rs:378-561 | the committed table is the replay of the raw rows done, and with its pending items applied the replay of every raw row accepted, one at a time in arrival order |
| SyncConvergence.RunConverges | src/frontend/flight/sync/writer.rs:168-561 | both halves in every state of every run |
| SyncRecovery.SkipsTo | src/frontend/flight/sync/writer.rs:595-616 | a flush keeps exactly the items from a position on if and only if the item before it is the first of the committed transaction |
| SyncRecovery.RestartSkips | src/frontend/flight/sync/writer.rs:590-646 | when a client sends again what was committed, exactly that is skipped if and only if all of it has arrived, its last transaction is complete, and the last commit ended with a complete transaction with one item |
| SyncRecovery.FlushedEarly | src/frontend/flight/sync/writer.rs:338-375 | a flush before that point keeps, and so applies again, everything that has arrived |
| SyncRecovery.RestartApplies | src/frontend/flight/sync/writer.rs:480-545 | the first commit after a restart adds exactly the kept items to those committed before |
| SyncRecovery.Recovery | src/frontend/flight/sync/writer.rs:378-646 | under that condition the table after the first commit is the replay of all raw rows, before and after the restart, once each |
| SyncRestarts.KeepsRest | src/frontend/flight/sync/writer.rs:590-616 | a flush keeps exactly the messages after those the table holds if it is not the first after a restart or the client has caught up, and otherwise keeps everything that has arrived |
| SyncRestarts.RunOnce | src/frontend/flight/sync/writer.rs:378-646 | in a run with any number of restarts, as long as the client has caught up at each first flush, the commit info names the last message that the table holds |
| SyncExact.RunMakes | src/frontend/flight/sync/writer.rs:480-545 | in every run, a table is its first state with all items applied that commits kept, restarts included |
| SyncExact.ExactlyIff | src/frontend/flight/sync/writer.rs:378-646 | over all runs and restarts, the items applied are the messages of the client, once each and in order, if and only if every flush finds the first pending message of the committed transaction where the messages that the table holds end |
| SyncExact.ExactlyWhen | src/frontend/flight/sync/writer.rs:338-646 | if restarts come after commits that ended with a complete transaction alone in its table, that is so if and only if each first flush after a restart comes when the client has caught up |
| SyncExact.ExactlyOnce | src/frontend/flight/sync/writer.rs:378-646 | and then the table is the replay of all raw rows of the messages it holds, once each in order |
| SyncExact.DurableHeld | src/frontend/flight/sync/writer.rs:839-881 | in every run, the messages of every transaction up to a reported durable number are among those the table should hold |
| SyncScenarios.SentAgain | src/frontend/flight/sync/writer.rs:378-646 | any one-message transaction that the table does not name yet and that is enqueued, committed, and after a restart sent again is skipped whole |
| SyncScenarios.AgainBehaves | src/frontend/flight/sync/writer.rs:378-646 | and the run that goes on with the flush after the restart meets what `SyncExact.ExactlyWhen` asks, so its rows are applied exactly once |
| SyncScenarios.PartlySkipped | src/frontend/flight/sync/writer.rs:597-610 | of a committed transaction with two items for a table, the second is not skipped; `SyncScenarios.InsertedTwice` reaches this |
| SyncScenarios.InsertedTwice | src/frontend/flight/sync/writer.rs:378-646 | for every two messages of one transaction, the second an insert: enqueue, commit, restart, enqueue again and commit, and the inserted row is in the table once more |
| SyncScenarios.AppliedEarly | src/frontend/flight/sync/writer.rs:338-375 | for every two one-message transactions, the first an insert: enqueue both, commit, restart, enqueue only the first and commit, and the inserted row is in the table once more |
| Writer.Writer.constructor | src/frontend/flight/sync/writer.rs:144-154 | a start: nothing in memory, tables as found, and a run of length one |
| Writer.Writer.StoredSequences | src/frontend/flight/sync/writer.rs:157-165 | the memory and durable numbers of an origin, if any |
| Writer.Writer.JoinTransaction | src/frontend/flight/sync/writer.rs:186-237 | a message joins the open transaction of its origin or starts one; it is refused, without any change, if and only if another origin's transaction is open, or none is open and it has a number and no rows |
| Writer.Writer.EnqueueSync | src/frontend/flight/sync/writer.rs:168-298 | one enqueue step of the machine, and the same exact condition for each refusal; what the step does is `SyncTheorems.Enqueues` |
| Writer.Writer.SkipSyncs | src/frontend/flight/sync/writer.rs:590-646 | the items kept and the new commit info, which is as `SyncStore.NewCommitIs` says |
| Writer.Writer.RemoveTxLocations | src/frontend/flight/sync/writer.rs:839-846 | the table is released from exactly the transactions of the flushed items |
| Writer.Writer.RemoveSync | src/frontend/flight/sync/writer.rs:849-855 | the entry and its size are dropped, and a table without entry changes nothing |
| Writer.Writer.AdvanceDurableTxs | src/frontend/flight/sync/writer.rs:860-881 | exactly the longest complete and flushed prefix of transactions becomes durable and is dropped |
| Writer.Writer.CreateTable | src/frontend/flight/sync/writer.rs:300-321 | one create step, with the value columns of the queued schema |
| Writer.Writer.RewriteFiles | src/frontend/flight/sync/writer.rs:428-506 | the new set of files holds exactly the rows of the whole table with the items applied, for any truthful statistics and any split into batches |
| Writer.Writer.FlushExisting | src/frontend/flight/sync/writer.rs:407-561 | succeeds exactly when nothing is kept, or the commit succeeds and some key exists, and then takes the skip or the commit step |
| Writer.Writer.FlushSyncs | src/frontend/flight/sync/writer.rs:378-561 | succeeds if and only if nothing is queued, or the table exists or can be created and what is left after skipping is nothing, or has a key and can be committed; success is a create step if needed and then a skip or commit step, failure at most the creation |
| Writer.Writer.FlushReady | src/frontend/flight/sync/writer.rs:338-375 | nothing to flush if and only if size, lag and item bounds hold for every entry; if some entry lags or memory is over its limit the oldest table is returned, and otherwise the first one with too many items; the unwrap panics exactly when a zero byte limit meets an empty queue |
| Writer.Writer.Flush | src/frontend/flight/sync/writer.rs:323-336 | terminates; every table flushed was the one due at the time; on success every bound holds for every entry, and it fails only if the table that is due cannot be flushed |
| FlightHandler.FlightHandler.ProcessSyncCmd | src/frontend/flight/handler.rs:139-230 | only the first command is answered with `first`; probes and lock timeouts leave the writer alone; otherwise the message is enqueued, refused exactly as the writer refuses it, and else the due tables are flushed until every bound holds or one cannot be flushed; every durable number reported is safe |
| CacheModel.StepKeepsTrue | src/object_store/cache.rs:48-65 | whatever else happens, every memory entry, finished file and write in flight holds its chunk, and every unfinished file a prefix of it |
| CacheModel.StepKeepsTidy | src/object_store/cache.rs:314-344 | if a chunk is only inserted when no write of it is in flight or has left an unfinished file, no entry points to an unfinished file, whatever is evicted, lost or fails |
| CacheModel.StepKeepsWhole | src/object_store/cache.rs:48-65 | if no write puts part of a file in place, no unfinished file exists, under any evictions, losses and failures |
| CacheReads.NeverLost | src/object_store/cache.rs:314-344 | under that condition, and if nobody else deletes files, no entry is ever without its file |
| CacheReads.LostOnce | src/object_store/cache.rs:314-344 | a chunk that is evicted and inserted again before its write begins ends up as an entry without file once both writes are done |
| CacheModel.SplitStep | src/object_store/cache.rs:514-527 | splitting a batch gives every chunk inside the object its own bytes, and every chunk past the end the short tail |
| CacheReads.AssembleTrue | src/object_store/cache.rs:503-537 | if every chunk found has its true bytes, the pieces in chunk order are the byte range |
| CacheReads.RunsExact | src/object_store/cache.rs:456-512 | the batches are exactly the maximal runs of missing chunks, without overlap |
| CacheReads.SentExact | src/object_store/cache.rs:456-530 | the requests, in the order in which they are sent, are one per maximal run of missing chunks and one per lost file, and no others |
| Cache.CachingObjectStore.Await | src/object_store/cache.rs:540-582 | exactly the steps scheduled for an await point are taken, and whatever they are the invariant holds afterwards |
| Cache.CachingObjectStore.CacheChunkData | src/object_store/cache.rs:540-582 | whatever happened meanwhile, at the insert a chunk without entry is put in memory and scheduled for writing, and an existing entry is left alone |
| Cache.CachingObjectStore.ReadFile | src/object_store/cache.rs:466-501 | the file is found or lost, and if no unfinished file was opened its bytes are those of the chunk |
| Cache.CachingObjectStore.LookUp | src/object_store/cache.rs:466-501 | what is found is determined by the steps before the lookup and before the opening of the file: found, missing, or lost and fetched again with one request; found bytes are the true ones unless an unfinished file was opened |
| Cache.CachingObjectStore.ResolveBatch | src/object_store/cache.rs:503-530 | exactly one request covers a run of missing chunks, and every one of them is cached |
| Cache.CachingObjectStore.GetChunkRange | src/object_store/cache.rs:431-538 | the requests sent are exactly those of `CacheReads.SentExact`, or, if the read fails, those or all but the last; the answer assembles what was found in chunk order, under any schedule |
| Cache.InBoundsCovered | src/object_store/cache.rs:655-683 | every range within the object meets the condition under which reads are exact |
| Cache.CachingObjectStore.GetRange | src/object_store/cache.rs:655-683 | under any schedule in which no unfinished file was opened, so always with atomic writes, a range whose last chunk starts inside the object is answered with exactly its bytes, or with an error if the inner store fails |
| Cache.ReadPastEnd | src/object_store/cache.rs:503-530 | for every other range that starts inside the object, reading to the end first makes the read fail |
| Cache.ReadTwicePastEnd | src/object_store/cache.rs:517-526 | and if the object has a short tail, reading twice returns more bytes than there are |
| Cache.ReadSecondWrite | src/object_store/cache.rs:48-65 | a chunk that is evicted and inserted again while it is being written: reading it returns any shorter part of its bytes that was in the file |
| Cache.ReadTornWrite | src/object_store/cache.rs:48-65 | the same for a chunk whose write failed half-way and that is inserted again |
| Cache.ReadStalePointer | src/object_store/cache.rs:466-501 | the same for a chunk that is evicted and inserted again between the lookup and the opening of its file |
| FilterPushdown.QuoteRoundTrip | datafusion_remote_tables/src/filter_pushdown.rs:242-248 | scanning a text whose quotes are doubled gives it back and stops at its closing quote |
| FilterPushdown.ScanIsQuoted | datafusion_remote_tables/src/filter_pushdown.rs:242-248 | whatever scans is the quoted form of what is scanned |
| FilterPushdown.UnquoteExact | datafusion_remote_tables/src/filter_pushdown.rs:242-248 | a text is read as a name or string if and only if it is the quoted form of it |
| FilterPushdown.TextRoundTrip | datafusion_remote_tables/src/filter_pushdown.rs:72-76 | a printed string is read back as itself, on MySQL if and only if every backslash in it comes before a percent sign or an underscore, and always elsewhere |
| FilterPushdown.MomentPrinted | datafusion_remote_tables/src/filter_pushdown.rs:77-98 | a printed date or time is read back as itself if and only if there is no quote in it, and on MySQL no backslash that is an escape |
| FilterPushdown.QuotedApart | datafusion_remote_tables/src/filter_pushdown.rs:242-248 | different names have different quoted forms |
| FilterPushdown.FilterPushdownVisitor.Up | datafusion_remote_tables/src/filter_pushdown.rs:146-239 | with the children's SQL on the stack no pop fails, and exactly that is replaced by the SQL of the node |
| FilterPushdown.FilterPushdownVisitor.Visit | datafusion_remote_tables/src/filter_pushdown.rs:111-239 | succeeds exactly on convertible expressions, and leaves the stack with exactly one entry more |
| FilterPushdown.FilterExprToSql | datafusion_remote_tables/src/filter_pushdown.rs:250-278 | the SQL of a filter exactly when it can be converted; a column is one name in backticks on MySQL and in double quotes elsewhere |
| FilterPushdown.ConjunctionShippable | datafusion_remote_tables/src/provider.rs:149-168 | a conjunction can be converted exactly when each filter can |
| SqlTree.ParsesExactly | datafusion_remote_tables/src/filter_pushdown.rs:146-239 | the reference parser of each source returns a tree exactly when it is canonical and spells the tokens |
| SqlSpelling.SameSpelling | datafusion_remote_tables/src/filter_pushdown.rs:166-192 | trees that agree but for parentheses and the contents of strings, and have the same tokens, are the same |
| FilterRoundTrip.ShippedUnread | datafusion_remote_tables/src/filter_pushdown.rs:36-65 | every operator that a source can read is shipped to it, and exactly the listed ones that it cannot read as well |
| FilterRoundTrip.RoundTrip | datafusion_remote_tables/src/filter_pushdown.rs:146-239 | for every source, the printed SQL, parsed and unquoted as that source does, names in the quotes of that source, is the filter up to literals spelled alike, if and only if the filter is readable and its literals are legible there |
| FilterRoundTrip.ConditionRoundTrip | datafusion_remote_tables/src/filter_pushdown.rs:146-239 | filters with legible literals that test plain operands, compare arithmetic terms and combine with AND and OR always read back |
| FilterRoundTrip.Misread | datafusion_remote_tables/src/filter_pushdown.rs:175-202 | `a - (b - c)` and `NOT (a AND b)` never read back |
| FilterRoundTrip.Backslash | datafusion_remote_tables/src/filter_pushdown.rs:72-76 | a comparison with any text that has another backslash reads back on every source but MySQL |
| FilterMerge.MergedRoundTrip | datafusion_remote_tables/src/provider.rs:149-168 | the merged filters of a scan are read as the conjunction of all their conjuncts, grouped to the left, if and only if every conjunct is readable and legible |
| FilterMerge.MergingKeeps | datafusion_remote_tables/src/provider.rs:149-168 | filters that read back one by one are read merged |

## What the model takes for granted

- Rows of a message fit its schema, no two columns of a schema share role and name, and no column is both a
  key and a value.
- All messages for one table name the same key columns. The clock does not go back.
- Scalars are integers or NULL. A row's key is missing, complete or mixed.
- The convergence and recovery results take well-formed streams: an insert uses a free key, an update or
  a delete a live one, and key columns are NULL all together or not at all.
- Statistics are truthful bounds or missing. The engine returns the rows of a plan in any order and in any
  split into partitions and batches.
- Transaction ids are consecutive numbers instead of random ones. The memory size of a squashed batch, the
  time, and whether a creation or commit succeeds are parameters, and so are the cache's schedule and the
  failures of the inner store.
- The inner store cuts a range off at the end of the object and refuses one that starts past it
  (RFC 9110, section 14.1.2). Objects do not change.
- The precedence levels of the remote sources are those of their documentation, operator by operator and
  source by source; an operator that a source does not document is never readable there.
- The results over several restarts take a client that has one stream of messages per table, tells its
  transactions apart by origin and number, and after a restart sends again from a position at or before what
  the table holds.
- MySQL reads backslashes in strings as escapes, as it does by default.

## Left out

- Delta log commits, Parquet writing and uploads: a commit is one atomic step, or fails without effect.
- DataFusion plans and Arrow kernels: the join, the gather and the comparisons are their relational meaning.
- The multipart upload loop of `src/context/delta.rs`, which copies bytes and keeps no state of its own.
- Metrics, logging, locks and task scheduling; the periodic flush task is a call of `Flush`.
- The cache policy: any entry may go at any time.
- Spelling and spacing of SQL keywords: SQL is a sequence of tokens, and only quoted text is spelled out.
- Nested fields in message schemas beyond the pairing of descriptors with top-level fields.
- `src/auth.rs`, `src/repository`, `src/catalog`, `src/wasm_udf`, the SQL parser, the physical planner's DML
  branches, the other frontends and configuration, which hold little of this logic.
- SyncTheorems.DurabilitySafety: for a table that was replayed after a restart it says that the messages
  are done, because a flush may then skip or repeat rows; `SyncExact.ExactlyIff` says when it does neither.
- SyncRecovery.Recovery: speaks of the first commit after one restart; `SyncExact.ExactlyOnce` of all.
- Prune.PrunePartitions: for keys that are partly NULL it says when the difference overflows, but not that it
  does so only then.
