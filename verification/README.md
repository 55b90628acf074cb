# Verified model of the FastMSSQL core

FastMSSQL drives SQL Server from Python. This project models the parts of it that are
algorithms or protocols and proves what they promise:

- **Bulk insert.** Python rows are converted, cut into chunks of at most 2000 parameters,
  NULL-repaired in place, rendered as INSERT texts and sent one by one. The text is read back by an
  independent reader (bracketed identifiers, parameter placeholders), and the rows the server stores
  are shown to be the input rows, in order, cell by cell, also when sending stops part-way.
- **Batches and transactions.** `execute_batch` and the Python `Transaction` run against a small
  server (durable log, open transaction, connection). Every await may be answered, refused, broken
  or cancelled. Atomicity is proved over all of these, with the exact condition where it fails.
- **Azure token cache.** Any number of concurrent calls, as a state machine over the reads, the
  refresh mutex, the fetch and the write, with a clock.
- **Pool slot.** Concurrent pool creation, disconnects and queries, shown to linearize to an atomic
  optional cell.
- **Lazy result stream.** Take-once rows with a conversion cache, refining a plain cursor.
- **Parameters and decimals.** One-level flattening under the 2100 limit by three paths, and the
  exact decimal printer.

Module map: `Common`, `Digits` and `Values` are shared. `Identifiers`, `NullTypes`, `InsertText`,
`Chunking` and `BulkInsert` are `src/batch.rs` seen as a compiler; `Server`, `BatchExecution`,
`Transactions` and `TransactionGroups` are the transactional half; `Cursor`, `QueryStream` and `FastRows` are `src/types.rs`;
`Parameters`, `Decimals`, `TokenCache` and `PoolSlot` are one file of the source each.

`dafny verify dfyconfig.toml` checks the whole project.

## Conventions and assumptions

- A method stands for the Rust or Python code with its loop and its updates. Its contract ties the
  result and the new state to a specification function, and lemmas state what that function means.
- Converting one Python value, or one row, is a function parameter that may fail; nothing else is
  assumed of it.
- How an await ends is a `Wire` value passed in, so a statement for all wires is a statement over
  all runs, failures and cancellations. A request is executed whole or not at all (each INSERT is
  atomic). A refused statement had no effect. A lost connection, and one that is dropped, rolls
  back. A lost or cancelled request may or may not have been executed. A server error may also
  doom the open transaction (a deadlock victim, for example). User SQL opens and closes no
  transactions.
- Readers' locks are never held across an await in the modelled code, so a locked read is one step.
- Calls on one Python `Transaction` do not overlap.

## What turned out not to hold

- *An open server transaction is always the one the flags call active.* A `begin` cancelled after
  the server has executed BEGIN leaves a transaction open under idle flags
  (python/fastmssql/__init__.py:130-131). The next `begin` then nests inside it, and a `commit` that
  reports success makes nothing durable: `Transactions.OrphanedBeginLosesCommit`. The flags are
  right throughout a run exactly when no `begin` in it is cancelled in that way:
  `Transactions.RunTracks`.
- *Every path through `__aexit__` leaves nothing behind.* It does in every state of every run when the
  closing await itself is not cancelled (`Transactions.EveryCloseCleans`); the exact condition is
  `Transactions.ExitCleans`, and `Transactions.InterruptedExitLeavesTransaction` shows an active
  transaction surviving.
- *A group between `begin` and its settlement is durable all or nothing.* It is exactly unless the group
  is torn: the server executed a command, then doomed the transaction, and then executed another one
  the caller sent all the same. `TransactionGroups.GroupIsAtomic` is that equivalence over every run,
  `TransactionGroups.EscapingCommandIsDurable` a torn group, and a caller that stops at the first request
  that is not answered never tears one (`TransactionGroups.StoppingNeverTears`).
- *Repairing NULLs chunk by chunk is repairing the table.* It is exactly when each chunk needs no repair
  in the column or infers the type the whole table infers: `Chunking.ChunkRepairAgrees`. For every
  number of columns there is a table for which it fails: `Chunking.AllNullChunkDiffers`.

## Model

| member | source | states |
|---|---|---|
| Identifiers.QuoteIdentifierPart | src/batch.rs:250-266 | fails exactly on a NUL; otherwise brackets the part with `]` doubled |
| Identifiers.QuoteIdentifier | src/batch.rs:278-292 | fails exactly when the name contains NUL; otherwise gives the name's quoted form |
| Identifiers.QuoteReadsBack | src/batch.rs:268-292 | a bracket-aware reader recovers the parts, and so the name, from the quoted text, empty parts included, whatever text follows |
| Identifiers.SplitIsUnique | src/batch.rs:278-279 | the parts of a name are the only dotless strings that give it joined by dots |
| Identifiers.QuoteInjective | src/batch.rs:268-292 | two names never quote alike |
| Identifiers.QuoteColumns | src/batch.rs:413-417 | fails exactly when some column name contains NUL; otherwise joins the quoted names |
| Identifiers.ReadQuotedNames | src/batch.rs:413-417 | the joined column text reads back as the list of column names and nothing more |
| Identifiers.ColumnTextInjective | src/batch.rs:413-417 | the column list is recoverable from the joined text |
| NullTypes.InferNullType | src/batch.rs:309-322 | the loop finds the null type of the first non-null cell of the column, String if none |
| NullTypes.FixBulkNullTypes | src/batch.rs:302-332 | the in-place loops leave exactly the column-wise repaired buffer, also for a ragged tail and for no columns |
| NullTypes.FixedLeavesNoUntypedNull | src/batch.rs:294-332 | no tinyint NULL is left, each took its column's type, every other cell is unchanged |
| NullTypes.NullsFollowFirstValue | src/batch.rs:309-330 | kind by kind, a tinyint NULL becomes the NULL of the kind of the first value in its column |
| NullTypes.RaggedTailUntouched | src/batch.rs:306-330 | cells after the last whole row are left alone |
| NullTypes.FirstNullTypeIsFirst | src/batch.rs:310-321 | the inferred type is that of the first non-null cell |
| NullTypes.FirstNullTypeOfNulls | src/batch.rs:322 | an all-null column becomes nvarchar |
| NullTypes.FixedIdempotent | src/batch.rs:302-332 | repairing twice is repairing once |
| NullTypes.SliceRepairAgrees | src/batch.rs:302-332 | for any run of rows in a flat buffer: repairing them alone agrees with repairing all rows exactly when they need no repair in the column or infer the same type |
| NullTypes.HomogeneousSliceAgrees | src/batch.rs:302-332 | it agrees when the column's values are of one type and the run of rows has one of them |
| InsertText.PushTuple | src/batch.rs:438-449 | the inner loop writes the row's tuple with placeholder number `r * cols + c` in place `c` |
| InsertText.RenderInsert | src/batch.rs:425-450 | the loops write the INSERT text for the given number of rows and columns |
| InsertText.ReadRenderedInsert | src/batch.rs:425-450 | the text reads back as its table, its columns and its placeholder numbers |
| InsertText.RenderedInsertStoresChunk | src/batch.rs:422-462 | executing the text with the chunk as parameters stores the chunk's rows in order, each cell in its place |
| Chunking.PushCells | src/batch.rs:379-381 | the cells are converted in order up to the first failure and appended |
| Chunking.ConvertRowsMeaning | src/batch.rs:370-382 | the rows are accepted exactly when each is a list of as many convertible values as there are columns, and then converted cell by cell; otherwise the first bad row is reported, by its first fault |
| Chunking.PrepareChunks | src/batch.rs:344-396 | the row loop with its early flush yields the repaired groups of `rows_per_batch` rows, or the first error in row order |
| Chunking.GroupsCover | src/batch.rs:370-396 | the groups concatenate to the table and are full except for a non-empty last one |
| Chunking.GroupsPrefix | src/batch.rs:370-396 | the first k groups are the first k * rows_per_batch rows |
| Chunking.BatchFillsBudget | src/batch.rs:355-356 | a batch has as many rows as fit into 2000 parameters, or one row |
| Chunking.ChunksShape | src/batch.rs:355-396 | chunk count is the ceiling, sizes are whole rows, all but the last are full, and up to 2000 columns none exceeds 2000 parameters |
| Chunking.ChunkRows | src/batch.rs:385-396 | the repaired flat chunk, cut into rows, is the group with its NULLs retyped per column |
| Chunking.StoredNullsFollowFirstValue | src/batch.rs:309-330 | kind by kind, in the stored group a tinyint NULL is the NULL of the kind of the first value in its column |
| Chunking.StoredRowsAreSame | src/batch.rs:294-332 | over all groups, each cell is unchanged except that a tinyint NULL has another type |
| Chunking.ChunkRepairAgrees | src/batch.rs:385-396 | over the chunks the loop cuts: the stored column is the table-wise repaired column exactly when every chunk needs no repair there or infers the type of the whole column |
| Chunking.ChunkRepairIsTableRepair | src/batch.rs:385-396 | so it is in a column of one type with a value in every chunk |
| Chunking.AllNullChunkDiffers | src/batch.rs:322-330 | for every number of columns, a table whose second chunk is all NULL and stored as nvarchar where the column is bigint |
| BulkInsert.SendChunks | src/batch.rs:408-467 | the sending loop runs the rendered statements in order, stops at the first failure and sums the counts |
| BulkInsert.BulkInsert | src/batch.rs:334-474 | conversion, pool, quoting and sending in this order, each with its error |
| BulkInsert.RejectedCallStoresNothing | src/batch.rs:344-417 | in terms of the Python rows: rejected exactly without columns, with a row that is not a list of that many convertible values (the first one is reported), without a pool, or with a NUL in an identifier; nothing is stored then |
| BulkInsert.BulkInsertStoresPrefix | src/batch.rs:422-467 | however sending ends, the database gains the groups of the answered chunks, each repaired on its own, plus at most the one whose reply was lost; these are a prefix of the Python rows, cell by cell converted; the call succeeds with the sum of the counts, is cancelled or fails exactly as the first unanswered chunk was |
| BulkInsert.SuccessStoresAllRows | src/batch.rs:398-474 | success stores every Python row, in order, each value converted, up to the type of untyped NULLs |
| BulkInsert.TotalIsRowCount | src/batch.rs:408-472 | with one reported row per inserted row the returned total is the number of rows |
| BatchExecution.ExecuteBatchOnConnection | src/batch.rs:70-95 | runs the commands in order, collecting each command's summed count, up to the first failure |
| BatchExecution.RunFromResult | src/batch.rs:76-94 | success exactly when every command is answered, and the i-th count is then the i-th command's; cancelled exactly when the first that is not was cancelled |
| BatchExecution.RunFromAutocommits | src/batch.rs:76-94 | outside a transaction each answered command is durable at once |
| BatchExecution.RunFromStaysPending | src/batch.rs:76-94 | inside a transaction none is |
| BatchExecution.ExecuteBatch | src/batch.rs:129-202 | connect, BEGIN, commands, ROLLBACK on error, COMMIT, drop, on a dedicated connection |
| BatchExecution.BatchIsAtomic | src/batch.rs:137-195 | all or nothing under an error or cancellation at any await, and exactly when it is all |
| BatchExecution.BatchAbandoned | src/batch.rs:137-195 | the batch is cancelled exactly when one of its awaits is; every other failure is an error |
| BatchExecution.BatchCountsInOrder | src/batch.rs:70-95 | on success count i is the sum the server reported for command i |
| Transactions.Transaction.constructor | python/fastmssql/__init__.py:77-82 | starts with clear flags and an empty slot |
| Transactions.Transaction.EnsureConnected | src/transaction.rs:413-447 | connects only when the slot is empty, and leaves it empty on failure |
| Transactions.Transaction.ExecuteTransactionCommand | src/transaction.rs:392-409 | an error on an empty slot, else the command is sent |
| Transactions.Transaction.CloseSlot | src/transaction.rs:354-367 | empties the slot before the best-effort rollback and drops the connection |
| Transactions.Transaction.Begin | python/fastmssql/__init__.py:122-131 | whole new state: flags reset after a settled transaction, checked, and set only on success |
| Transactions.Transaction.Commit | python/fastmssql/__init__.py:133-138 | whole new state: refused unless active, flag set only on success |
| Transactions.Transaction.Rollback | python/fastmssql/__init__.py:140-145 | whole new state: refused unless active, flag set only on success |
| Transactions.Transaction.Execute | src/transaction.rs:212-242 | connects if needed, sends the command and returns the sum of its row counts |
| Transactions.Transaction.ExecuteBatch | src/transaction.rs:248-273 | connects if needed, runs the commands with no transaction of its own and returns their counts in order |
| Transactions.Transaction.Close | python/fastmssql/__init__.py:147-151 | whole new state: flags cleared only if the close was not cancelled |
| Transactions.Transaction.Exit | python/fastmssql/__init__.py:158-188 | whole new state of `__aexit__`: settle, then close on every path |
| Transactions.BeginOutcome | python/fastmssql/__init__.py:122-131 | `begin` succeeds exactly when no transaction is active (a committed or rolled back one is forgotten), a connection is had and BEGIN is answered; its flags and state in each case |
| Transactions.CommitOutcome | python/fastmssql/__init__.py:133-138 | `commit` succeeds exactly for an active, open transaction with an answered COMMIT; the outermost one becomes durable |
| Transactions.RollbackOutcome | python/fastmssql/__init__.py:140-145 | `rollback` succeeds in the same states, and then nothing is open and nothing more durable |
| Transactions.ExecuteOutcome | src/transaction.rs:212-242 | `execute` succeeds whatever the flags, returns the sum of the counts, and is durable at once unless a transaction is open |
| Transactions.ExecuteBatchOutcome | src/transaction.rs:248-273 | all answered is success with one summed count a command; cancelled exactly when the first unanswered command is |
| Transactions.ExitOutcome | python/fastmssql/__init__.py:158-188 | after an exception no error of its own; without one the error of a commit that failed or was not possible, unless settled before; any cancellation wins |
| Transactions.ExitDurable | python/fastmssql/__init__.py:158-188 | `__aexit__` makes the outermost open transaction durable exactly when it leaves without an exception and its COMMIT took effect |
| Transactions.StepTracks | python/fastmssql/__init__.py:122-188 | every call keeps the flag states and the slot consistent, and keeps flags and server in step exactly unless it orphans a BEGIN |
| Transactions.RunSettles | python/fastmssql/__init__.py:84-188 | so they are in every state of every run, orphaned BEGIN or not |
| Transactions.RunTracks | python/fastmssql/__init__.py:84-188 | in every state of a run an open server transaction is the active one, exactly when no `begin` is orphaned |
| Transactions.FlagsStayOk | python/fastmssql/__init__.py:84-151 | the flags are idle, active, committed or rolled back in every run |
| Transactions.OrphanedBeginLosesCommit | python/fastmssql/__init__.py:122-138 | a run in which a commit reports success and nothing is durable |
| Transactions.CloseCleans | src/transaction.rs:354-367 | close leaves nothing exactly when it is not cancelled, and what it leaves when it is |
| Transactions.ExitCleans | python/fastmssql/__init__.py:158-188 | exactly when a path through `__aexit__` leaves no connection, flag or transaction: its close is not cancelled, or there was nothing to settle and nothing untaken to close |
| Transactions.EveryCloseCleans | python/fastmssql/__init__.py:147-188 | in every state of every run, `close` and `__aexit__` leave nothing behind if their close is not cancelled |
| Transactions.InterruptedExitLeavesTransaction | python/fastmssql/__init__.py:181-185 | with the close cancelled at its start, the transaction survives |
| TransactionGroups.BodyLeaves | src/transaction.rs:212-242 | before settlement exactly the commands executed outside the doomed transaction are durable |
| TransactionGroups.BodyStaysPending | src/transaction.rs:212-242 | before settlement nothing of a group is durable, exactly unless a command follows a doomed transaction |
| TransactionGroups.SoundBodyPends | src/transaction.rs:212-242 | the transaction stays open exactly while no command dooms it or loses the connection, and then holds all that was executed |
| TransactionGroups.StoppingNeverTears | src/transaction.rs:212-242 | a caller that stops at the first request that is not answered never tears a group |
| TransactionGroups.BeginOpensGroup | python/fastmssql/__init__.py:122-131 | a successful `begin` opens one transaction on a live connection and changes nothing durable |
| TransactionGroups.SettlingIsAtomic | python/fastmssql/__init__.py:133-188 | the settling call makes all that is pending in the outermost transaction durable or drops it |
| TransactionGroups.CallsAreRequests | src/transaction.rs:248-273 | in a group, batches and single commands act as the sequence of requests sent, a batch stopping after its first failure |
| TransactionGroups.GroupIsAtomic | python/fastmssql/__init__.py:122-188 | in every run, from a successful begin to settlement: all executed commands or none become durable, exactly unless the group is torn; rollback, close and exceptional exit leave just what escaped; successful commit or clean exit means all, exactly if the begin did not nest in an orphaned one |
| TransactionGroups.EscapingCommandIsDurable | src/transaction.rs:212-242 | a torn group: the command after the doom is durable with no commit, the one before it is lost |
| TokenCache.WindowBounds | src/azure_auth.rs:340-346 | the buffer never exceeds the lifetime and is at least 30 s; the window is empty exactly up to 30 s |
| TokenCache.BufferExact | src/azure_auth.rs:340-344 | a tenth of the lifetime, at least 30 s, at most 600 s, never more than the lifetime |
| TokenCache.WindowMonotone | src/azure_auth.rs:340-346 | a longer lifetime never has a shorter window |
| TokenCache.StepInv | src/azure_auth.rs:276-359 | what every step of every task keeps: mutex, cache, history and task knowledge |
| TokenCache.OneFetchAndOnlyWhenStale | src/azure_auth.rs:298-356 | at most one task fetches or stores, and nothing unexpired is cached meanwhile |
| TokenCache.FetchesAreSpaced | src/azure_auth.rs:313-356 | stored fetches begin at least a window apart, in every run |
| TokenCache.FetchRate | src/azure_auth.rs:313-356 | at most 1 + span / window stored fetches begin within a span |
| TokenCache.ReturnedTokenWasStored | src/azure_auth.rs:276-359 | every fetched token that a call returns has been stored, so each such fetch is counted |
| TokenCache.HitPrecedesExpiry | src/azure_auth.rs:242-244 | a cache hit serves a stored token before its real expiry, if it took at most 30 s to arrive |
| TokenCache.StepAnswers | src/azure_auth.rs:276-359 | a finishing call returns the static token, nothing after a failed fetch, the text it has just stored, or the text of the cached token, which is then valid |
| TokenCache.ReturnedFromCache | src/azure_auth.rs:286-309 | a token returned from the cache was the one cached, unexpired, when that task was served |
| TokenCache.CacheServesItsWindow | src/azure_auth.rs:340-354 | the cached token is the newest stored one, valid exactly until its buffer before expiry |
| TokenCache.FetchThenStore | src/azure_auth.rs:313-358 | a fetch that is answered and stored returns its token, caches it for the window after its arrival and frees the mutex |
| TokenCache.ReadsDecide | src/azure_auth.rs:286-311 | a call awaits the mutex exactly when its first read finds nothing valid, and fetches exactly when its second does not |
| TokenCache.StaticTokenNeverFetches | src/azure_auth.rs:278-284 | a static access token is returned as it is and nothing is fetched or cached |
| TokenCache.NoDeadlock | src/azure_auth.rs:286-359 | a call can always go on, itself or through the task holding the mutex, also after cancellations |
| TokenCache.StepsGoForward | src/azure_auth.rs:276-359 | each step of a call takes it further, so it takes at most five |
| TokenCache.CallsStartAndCancel | src/azure_auth.rs:276-359 | a call can start whenever its task is in none, and be cancelled whenever it is, which frees the mutex and leaves the cache |
| PoolSlot.SlotLinearizes | src/pool_manager.rs:202-227 | the slot's history is one of an atomic optional cell, each returned call is answered by one effect of the kind it asked for within its call, and unfinished or failed calls by none |
| PoolSlot.ReadDecides | src/pool_manager.rs:208-215 | a reading `ensure` returns the pool in the slot at once, and awaits the write lock only if there is none |
| PoolSlot.FailureLeavesSlot | src/pool_manager.rs:215-225 | a failed creation and a cancelled call leave the slot alone and give up the write lock |
| PoolSlot.OneCreation | src/pool_manager.rs:215-225 | at most one pool is being created, and the slot is empty until that succeeds |
| PoolSlot.SlotBalance | src/connection.rs:322-352 | pools created minus non-empty clears is one if the slot is full and zero if not |
| PoolSlot.SamePoolUnlessCleared | src/pool_manager.rs:202-227 | two callers get the same pool exactly when no clear emptied the slot between them |
| PoolSlot.NoDeadlock | src/pool_manager.rs:202-227 | a call can always go on, itself or through the task holding the write lock |
| PoolSlot.StepsGoForward | src/pool_manager.rs:202-227 | each step of a call takes it further, so it takes at most four |
| PoolSlot.CallsStartAndCancel | src/pool_manager.rs:202-227 | a call can start whenever its task is in none, and be cancelled whenever it is |
| Cursor.OutputIsContiguous | src/types.rs:287-463 | between rewinds the delivered rows are one contiguous run, whatever is indexed and whichever conversions fail |
| Cursor.ApplyDelivers | src/types.rs:287-463 | one call delivers exactly the rows the position passes over; subscripts do not move it |
| Cursor.RunIsPlain | src/types.rs:287-463 | with total conversion every run of calls answers, and ends, as a cursor over the list of converted rows |
| Cursor.SliceStart | src/types.rs:303-328 | `[i:]` starts at the row that `[i]` gives, from either end, and runs to the end; beyond the ends it is all or nothing |
| Cursor.SliceStop | src/types.rs:303-328 | `[:i]` ends before the row that `[i]` gives |
| Cursor.SliceOverlap | src/types.rs:303-328 | `[a:b]` is what `[a:]` and `[:b]` have in common |
| Cursor.CallReachesGoal | src/types.rs:289-463 | a moving call whose rows all convert ends where it should and loses no row |
| Cursor.CallStopsAtFailure | src/types.rs:469-484 | one that meets a row that does not convert raises for the first of them, loses it and stays where it started |
| Cursor.SliceIsFetch | src/types.rs:303-328 | a slice answers, fails and loses rows as fetching from its start would, without moving |
| Cursor.IndexIsFetchOne | src/types.rs:331-356 | so does an index, from either end |
| Cursor.LostRowStaysLost | src/types.rs:469-484 | a row lost to a failed conversion is reported as consumed after any further calls |
| QueryStreams.QueryStream.constructor | src/types.rs:489-516 | every row raw, nothing converted, position zero |
| QueryStreams.QueryStream.GetOrConvertRow | src/types.rs:469-484 | a row is converted at most once, cached, and lost to a failed conversion |
| QueryStreams.QueryStream.Next | src/types.rs:289-299 | refines the cursor's step; the position moves only on success |
| QueryStreams.QueryStream.GetItem | src/types.rs:303-356 | refines indexing from either end and slicing of step one, without moving |
| QueryStreams.QueryStream.All | src/types.rs:360-377 | refines taking all remaining rows |
| QueryStreams.QueryStream.Fetch | src/types.rs:380-398 | refines taking at most n rows, with checked addition |
| QueryStreams.QueryStream.Rows | src/types.rs:439-443 | refines rewinding and taking all rows |
| QueryStreams.QueryStream.FetchOne | src/types.rs:446-454 | refines the cursor's step, ending without an exception |
| QueryStreams.QueryStream.Reset | src/types.rs:409-411 | refines rewinding |
| QueryStreams.QueryStream.Perform | src/types.rs:280-484 | any sequence of calls answers as the cursor, and no row is converted twice |
| FastRows.BuildColumnInfo | src/types.rs:243-264 | the map finds every column name, the last one for a repeated name |
| FastRows.ToDict | src/types.rs:220-228 | the dictionary gives for each name what subscripting by the name gives |
| FastRows.NameAndIndexAgree | src/types.rs:165-192 | a unique name, its index and its index from the end reach the same value |
| FastRows.GetItemReaches | src/types.rs:165-192 | a name reaches its last column, an index the column counted from either end; every other key gets its own error |
| Parameters.ExpandSequence | src/parameter_conversion.rs:170-197 | the list and tuple path: same verdict and items as the common expansion of the items |
| Parameters.ExpandIterator | src/parameter_conversion.rs:199-238 | the batched path: same verdict and, on success, same items; on error whole batches only; at most budget + 1 calls of `__next__` |
| Parameters.Expand | src/parameter_conversion.rs:164-239 | never more than the budget is pushed, and one more item asked for than pushed |
| Parameters.ExpandSucceeds | src/parameter_conversion.rs:164-239 | an expansion succeeds exactly when the iterator ends within the budget and every item converts, and then in order |
| Parameters.EndlessStreamIsRefused | src/parameter_conversion.rs:199-231 | an iterator that never stops is refused after at most budget + 1 items |
| Parameters.PythonParamsToFastParameters | src/parameter_conversion.rs:119-157 | the argument loop with its three limit checks gives the specified result or first error |
| Parameters.ConversionIsFlattening | src/parameter_conversion.rs:119-157 | success exactly when outer and flattened length are at most 2100 and everything converts, with the flattening in order; otherwise the error of what refuses the list first |
| Parameters.ConvertParametersToFast | src/parameter_conversion.rs:101-117 | lists and Parameters objects are converted, anything else refused |
| Parameters.ParamsToFastMeaning | src/parameter_conversion.rs:101-117 | no argument gives no parameters; a list, and an object that hands out that list, give its flattening or the same refusal; anything else is refused |
| Parameters.ParseBatchItems | src/batch.rs:23-66 | items parsed in order up to the first error |
| Parameters.BatchItemsParse | src/batch.rs:54-62 | success exactly when every item is a pair whose parameters are accepted, with their flattenings in order; otherwise the error of the first that is not; the second limit check never fires |
| Decimals.RoundTrip | src/type_mapping.rs:145-161 | for every i128 and scale, the text denotes exactly that value and scale and is canonical |
| Decimals.Injective | src/type_mapping.rs:145-161 | different numerics print differently |
| Decimals.CanonicalIsPrinted | src/type_mapping.rs:145-161 | every canonical text in range is the image of what it denotes |

## Left out

- Network, TLS, HTTP, token endpoints, tiberius and bb8: the environment, present only as `Wire`, `Connecting` and the events of the state machines.
- The Python type ladder of `python_to_fast_parameter`: conversion of one value stays abstract.
- SQL Server's own limit of 1000 rows in a VALUES list: not claimed; one column gives 2000 rows per statement.
- Overlapping calls on one `Transaction`: the flags are checked before an await and set after it, so two calls can both pass the check.
- Other sessions writing to the same database: the durable log is that of one client.
- `query_batch`, `query` and `simple_query` results: as commands they are `Execute`; their rows are the result stream.
- A generator object passed twice in one parameter list: each iterable argument is its own stream.
- `parse_expires_on` for an expired timestamp: the code falls through to 3600 s although its comment says 0; the lifetime is taken as given. `expires_in * 0.10` is modelled as integer division by ten.
- TokenCache.FetchRate: counts stored fetches; one that arrives and is cancelled before the write lock returns no token and is not counted. A lifetime so long that the clock cannot represent the expiry makes the source panic; that call ends as a failed fetch does, so the window is taken over unbounded numbers.
- `warmup_pool`, pool configuration, SSL configuration, constructor validation, error mapping and repr methods: easy branches.
- TokenCache.HitPrecedesExpiry: takes the stated lifetime as true and the issue-to-arrival delay as at most 30 s; the HTTP client's own timeout is 10 s.
- BulkInsert.BulkInsertStoresPrefix: assumes the pooled connection is alive and outside a transaction when it is handed out.
