# Transactions, pushback, locks and scheduling of a low-latency store

Kayak is a multi-tenant in-memory key-value store. Tenants' extensions run inside the server; when the server is loaded it
stops a half-run extension, sends its read and write sets back, and the client runs the extension again from the start over
those sets and asks the server to commit the result. This project models the four parts of it in which something can go
wrong between steps, and proves what holds over every run:

| files | what is modelled |
|---|---|
| `Bytes`, `Alloc`, `Store`, `Table`, `Context` | the versioned table of 128 buckets, its transactions and the server-side execution context |
| `History` | every interleaving of transactions and native operations, one table operation a step |
| `LockSteps`, `Threads`, `Serializable` | the same code one lock operation a step: atomicity, deadlock freedom, what each thread's events have to do with its program, serializability |
| `Wire`, `Proxy`, `ClientTasks` | read and write sets on the wire, the client's cache, its task manager |
| `Pushback`, `Answers`, `Limits` | extensions that are pushed back and replayed, down to the bytes of cache and commit request; where that stops being transparent |
| `Money`, `Misfits` | the two-account transfer and its total; a run with values of other lengths that changes the total |
| `Futex` | the futex mutex and the start/done handshake of the context-switch benchmark |
| `Sched`, `Dispatch` | the server's round-robin scheduler with load shedding, the packet dispatcher |

The objects that the code updates in place (`TX`, `Table`, `Context`, `ProxyDb`, `TaskManager`, `Container`, `RoundRobin`,
`Dispatch`) are classes, and each method is proved against a function on values; the lemmas about runs are about those
functions. Concurrency is a step relation over shared state; the cycle counter, the packet allocator, the decisions of the
master service and what an extension does next are parameters.

The main results, and where the code turned out not to have the property one would expect:

- `History.StrictlySerializable` and `Serializable.LockStepsAreSerializable`: the completed operations in commit order
  are a serial history that explains every value read and the final table. In the second, threads run transactions whose
  reads and validation are single lock operations, it holds up to the first failed absent-key assertion of a run, and
  `LockSteps.RealTimeOrder` gives the order of operations that do not overlap. `Serializable.CommitsWhatItSaw`: at every
  commit of such a transaction all that its gets have found is still in the table, with value and version, and what the
  program computes from it is what is assigned, so no update is lost. The counter has to advance
  (`History.StalledClockBreaksValidation` shows a stale read that validates when it does not).
- `LockSteps.LockStepsAreAtomic`, `AssertionsAreUnreachable`, `EveryRunFinishes`: `validate`, lock by lock and entry by
  entry, is one atomic step; its lock assertions cannot fail; no run deadlocks. Keys are sorted by bytes and buckets are
  taken from the first byte modulo 128, so sort order is not lock order, and it is the tenant's table lock that prevents
  deadlock.
- `Store.ValidatePanicsIff`: a commit runs into the absent-key assertion exactly when all its reads are valid and some
  written key is absent. Part of the writes is then in the table (`Store.PanicLeavesPartOfTheWrites`).
- `Pushback.PushbackIsTransparent`: a committed extension leaves the table that one atomic run at the commit point
  leaves, although after a pushback its server-side writes are sent twice, and whatever it observes on the way was in
  the table while it ran (`Answers.ObservationsWereTrue`). This is for records of the lengths the client is configured
  with, whatever these are, in a request that fits; `Wire.CommitPayloadParsesIff` says exactly which requests the server
  reads back as they were meant. A read that finds nothing is not recorded and so not validated: what the extension saw
  is what an atomic run sees exactly when its absent keys are still absent (`Pushback.ObsAreAtomicIff`), and
  `Limits.PhantomIsReachable` with `Limits.AbsentReadIsNotValidated` give a reachable commit that no atomic run
  explains.
- `Limits.ClientPanicsIff`, `Limits.CrashCommitsPrefix`, `Limits.CrashIsWholeIff`: an extension panics on the client
  exactly when it asks for a key that is neither cached nor in the table, or of another length, or puts a buffer that is
  not 138 bytes. It then counts as completed and what it has recorded is committed: a prefix of its atomic run, and the
  whole effect exactly if the writes it missed change nothing. `Limits.CrashIsReachable` and `Limits.CrashIsNoAtomicRun`
  give a run that ends in a table no atomic run leaves.
- `Money.MoneyIsConserved` for transfers between distinct accounts, on the server with values of any length, and pushed
  back whenever all keys and values have the lengths the clients are configured with. Where `put` accepts these lengths
  no transfer panics; where it does not, a pushed-back transfer panics before it writes and commits its reads.
  `Misfits.MisfitChangesTheTotal` is a run with a 50-byte value in which the server misreads the request and the total
  changes. `Money.TransferMoves` says which unit a transfer moves, and `Money.TransferConservesIff`: a transfer from an
  account to itself creates a unit unless the account is empty or full.
- `Futex.NoLostWakeUp` and `Futex.ContenderGetsFreeMutex`: no wake-up is lost, and whoever contends for a free mutex
  gets it by at most three steps of its own; in the handshake of two such mutexes turns alternate, and master and slave
  complete theirs (`Handshake.TurnsAlternate`, `MasterCompletes`, `SlaveGetsTurn`).
- `Sched.ExactlyOnce`, `BoundedWaiting` and `WithinCreditRuns`: every request is answered once, is served within as many
  polls as its place in the queue, and is not shed within its credit. `ClientTasks.OneOutstandingGet` and
  `TurnsAreBounded`, and `Dispatches.BuffersAreConserved`, are about the client's task manager and the dispatcher. The
  dispatcher leaks a valid request when no response packet can be allocated (`Dispatches.NoLeakIff`).

Code and documentation disagree in places, and the model follows the code: the scheduler's comment speaks of a quarter of the
receive batch where the code takes an eighth, and of other intervals (db/src/sched.rs:233-240); the comment on the last
compare-and-swap of the mutex says that a failure finds 2 where it may find 1 (misc/benchmarks/context_switch/Mutex.h:120-135);
`parse_udp_headers` documents a port check that it does not make (db/src/dispatch.rs:559-613).

## Model

| member | source | states |
|---|---|---|
| Bytes.LittleEndianRoundTrip | db/src/context.rs:225-259 | a version written as eight little-endian bytes reads back exactly if and only if it fits |
| Bytes.LittleEndianDigits | db/src/context.rs:225-259 | byte i of such a number is its i-th digit in base 256 |
| Alloc.Object | db/src/alloc.rs:104-131 | the stored object is tenant, table, 16-bit key length, key and value, in that order |
| Alloc.ObjectLayout | db/src/alloc.rs:104-131 | where every byte of a stored object is: digits of tenant, table and key length, then key and value |
| Alloc.ResolveUndoesObject | db/src/alloc.rs:104-199 | `resolve` gives back key and value exactly for keys of at most 65535 bytes |
| Store.Bucket | db/src/table.rs:312-314 | every key has a bucket below 128 |
| Store.BucketIsLowBits | db/src/table.rs:312-314 | the bucket is the first byte of the key without its highest bit |
| Store.ValidatePanicsIff | db/src/table.rs:372-439 | the absent-key assertion fails exactly when all reads are valid and a written key is absent; an abort changes nothing |
| Store.ReadWritesNeverPanic | db/src/table.rs:388-439 | a transaction that writes only keys it read never fails that assertion |
| Store.PanicLeavesPartOfTheWrites | db/src/table.rs:418-439 | an input for which the assertion fails after a first write was installed |
| Store.LexTotal | db/src/tx.rs:54-57 | the byte order of keys is total and reflexive |
| Store.LexTransitive | db/src/tx.rs:54-57 | the byte order of keys is transitive |
| Store.LexLeIff | db/src/tx.rs:54-57 | one key is at most another exactly if it is a prefix or has the lower byte at the first position where they differ |
| Store.SortIsSorted | db/src/tx.rs:54-57 | sorting a set gives an ordered permutation |
| Store.SortIsStable | db/src/tx.rs:54-57 | sorting keeps the order of records with equal keys |
| Store.SortKeepsReadsOk | db/src/table.rs:388-411 | checking the sorted read set accepts the same transactions as checking it in program order |
| Store.InstallLastWins | db/src/table.rs:418-439 | after an install every key has the last value written to it, with the new version, and the others their old entry |
| Store.SortedInstallIsProgramOrder | db/src/table.rs:418-439 | installing the sorted write set equals installing it in program order, for every write sequence with repeats |
| Store.CommitAppliesWrites | db/src/table.rs:330-442 | a committing validation is the assignment of the writes, in program order, to the plain values |
| Store.CommitSetsVersions | db/src/table.rs:413-439 | after a commit every written key has the timestamp as its version, all other entries, the set of keys and the highest deleted version are as before |
| Store.CommitMakesReadsStale | db/src/table.rs:388-439 | with a timestamp above all versions, no read recorded before the commit of a key it wrote validates any more |
| Store.AbortsIff | db/src/table.rs:388-411 | a validation aborts exactly if some recorded key is absent or has another version |
| Tables.TX.RecordGet | db/src/tx.rs:63-65 | appends to the read set and leaves the write set alone |
| Tables.TX.RecordPut | db/src/tx.rs:71-73 | appends to the write set and leaves the read set alone |
| Tables.TX.Sort | db/src/tx.rs:54-57 | both sets become their stable sort and are ordered |
| Tables.StoredSort | db/src/table.rs:418-439 | building the stored objects and sorting by key commute |
| Tables.Table.Get | db/src/table.rs:252-258 | the entry of the key, or nothing |
| Tables.Table.Put | db/src/table.rs:267-284 | an update raises the version by one, an insertion takes the version after the highest deleted one; every other key stays |
| Tables.Table.Delete | db/src/table.rs:291-309 | removes the key and raises the highest deleted version to its version if that is higher |
| Tables.Table.AcquireWriteLocks | db/src/table.rs:354-370 | every written key's bucket is write-locked and no bucket read-locked |
| Tables.Table.CheckReads | db/src/table.rs:388-411 | true exactly when every read version still holds; write locks stay and every read bucket is locked |
| Tables.Table.InstallWrites | db/src/table.rs:418-439 | the entries are the install of the write set, and it ran to the end exactly when all written keys are present |
| Tables.Table.Validate | db/src/table.rs:330-442 | decision and new contents are those of the atomic validation; the transaction's sets end up sorted |
| Contexts.StoredApply | db/src/table.rs:418-439 | resolving stored objects after writing them equals writing plain values |
| Contexts.Context.Get | db/src/context.rs:281-308 | returns the entry's value and records its key, value and current version; an absent key is not recorded; reads that were valid together stay valid |
| Contexts.Context.MultiGet | db/src/context.rs:311-356 | records key, value and current version for each key up to an absent one, and answers with these values only if all keys are there; a short tail ends it; reads that were valid together stay valid |
| Contexts.Context.Put | db/src/context.rs:377-398 | records the key and value of the buffer as a write of version zero |
| Contexts.Context.PrepareForPushback | db/src/context.rs:201-263 | the response is the encoding of the reads followed by that of the writes |
| Contexts.Context.Commit | db/src/context.rs:143-190 | aborts exactly if a read is absent or has another version, changing nothing and returning the request for a retry; panics exactly if it does not abort and a written key is absent; otherwise applies every recorded write to the values, gives each written key the timestamp as its version and leaves every other entry |
| Wire.ParseCommit | db/src/master.rs:1692-1721 | rejects a payload shorter than a record; otherwise one record a chunk, reads and writes in order; a chunk too short panics |
| Wire.ParsesEveryChunk | db/src/master.rs:1703-1721 | for any payload: the parsed reads and writes, encoded again, are the chunks that start with 1 and with 2, in order; a panic exactly if keys are empty or a chunk is too short for type, version and key |
| Wire.RecordLayout | db/src/context.rs:225-259 | where every byte of an encoded record is: type, eight version digits, key, value |
| Wire.ChunksOfEncoding | splinter/src/sched.rs:142-159 | cutting an encoding of equal-length records gives the records back one by one |
| Wire.LoadOfEncodings | splinter/src/container.rs:217-229 | loading encoded records into the cache appends exactly these records |
| Wire.LoadsEveryChunk | splinter/src/container.rs:217-229 | for any reply: the records split into the cache, put together again, are the chunks that start with 1 and with 2, in order; a panic exactly for an empty chunk or a read or write that is too short |
| Wire.PushbackFillsCache | db/src/context.rs:225-259 | the client's cache after a pushback is the server's read and write sets in order |
| Wire.CommitPayloadParsesIff | db/src/master.rs:1703-1721 | a commit payload parses into the reads and writes it was made of, versions included, if and only if all records but the last have the header's lengths and the last is no longer |
| Wire.CommitPayloadParses | db/src/master.rs:1703-1721 | in particular for records of one length, reads and writes in any order |
| Wire.PushbackRoundTrip | splinter/src/proxy.rs:168-199 | server sets, pushback payload, cache, replay records, commit payload and server parsing: the transaction parsed is the server's sets followed by the replay's |
| Proxies.SearchFrom | splinter/src/proxy.rs:212-221 | the first position with the key, or 1024 |
| Proxies.SentinelIsSafeIff | splinter/src/proxy.rs:212-221 | the test against 1024 is right for every key exactly when no key has its first record at position 1024 |
| Proxies.ProxyDb.SetReadRecord | splinter/src/proxy.rs:168-180 | the record goes to the read set, split at the key length, and to the commit payload |
| Proxies.ProxyDb.SetWriteRecord | splinter/src/proxy.rs:187-199 | the same for the write set |
| Proxies.ProxyDb.UpdateRwset | splinter/src/container.rs:217-229 | loads every chunk by its operation type, skips chunks without one, and panics on a read or write too short |
| Proxies.ProxyDb.SearchCache | splinter/src/proxy.rs:212-221 | the loop finds the first record of the key, or returns 1024 |
| Proxies.ProxyDb.Get | splinter/src/proxy.rs:288-295 | clears the waiting flag and returns the first cached value; panics for a key that is not cached |
| Proxies.ProxyDb.SearchGetInCache | splinter/src/proxy.rs:354-367 | a hit without side effect, or one get request and the waiting flag |
| Proxies.ProxyDb.GetAfterMiss | sandstorm/src/macros.rs:20-34 | a miss, the reply for its key and the `get` after the yield: the value of the reply |
| Proxies.ProxyDb.Put | splinter/src/proxy.rs:330-337 | takes buffers of 138 bytes only and records them with a 30-byte key |
| Proxies.ProxyDb.Commit | splinter/src/proxy.rs:235-283 | nothing for empty sets, a panic for a payload that is too long, otherwise everything recorded with the lengths of the first record |
| Proxies.ClientPutIsExactIff | splinter/src/proxy.rs:316-337 | the recorded key and value are those put exactly for 30-byte keys |
| History.ValidReadsAreCurrent | db/src/table.rs:388-411 | if all versions match, every value read is the value in the table |
| History.NextKeepsInv | db/src/context.rs:281-398 | every step keeps: versions below the counter, recorded reads genuine, the history serial |
| History.RunKeepsInv | db/src/context.rs:281-398 | so does every run |
| History.StrictlySerializable | db/src/table.rs:330-442 | in every run without a failed assertion, the operations one at a time in commit order explain all reads and the table |
| History.CommitOrderIsRealTime | db/src/table.rs:330-442 | an operation completed earlier stays in front of the later ones |
| History.ReadBeforeWriteNeverCrashes | db/src/table.rs:434-434 | runs whose transactions write only keys they have read never fail the assertion |
| History.EntriesAreSuperseded | db/src/table.rs:267-309 | an entry once stored is current or its version is exceeded for good, also after deletion |
| History.VersionsDetermineValues | db/src/table.rs:267-309 | versions of a key never decrease between two moments of a run, and an equal version means the same value |
| History.SetsAreComplete | db/src/context.rs:281-398 | at every moment of every run a transaction's sets hold all reads and writes it has made since it began, as they were made, and nothing else |
| History.CommitTakesEffect | db/src/table.rs:330-442 | a commit turns a transaction away exactly if one of its reads is stale; otherwise it is in the history with all its reads, which are current, and all its writes are assigned if their keys are there |
| History.NativesTakeEffect | db/src/table.rs:252-309 | native operations enter the history and change the values as what they are |
| History.StalledClockBreaksValidation | db/src/table.rs:413-416 | an input that validates a stale read when the timestamp repeats a version |
| LockSteps.StepKeepsInv | db/src/table.rs:354-441 | every lock-level step keeps lock exclusion, each thread's view of its locks and checked versions, and that a transaction's reads come from its gets (that they are all of them: `Threads.TransactionsFollow`) |
| LockSteps.InstallCommutes | db/src/table.rs:418-439 | a half-finished install commutes with an update or removal of a key it does not write |
| LockSteps.PerformCommutes | db/src/table.rs:252-309 | a get, put or delete in another bucket takes effect the same before and after the rest of an install |
| LockSteps.OpStepRefines | db/src/table.rs:252-309 | a single-key operation beside a running install is one atomic step on the table with the install finished |
| LockSteps.CheckStepRefines | db/src/table.rs:388-416 | the last check of `validate` is its atomic step, an earlier one changes nothing |
| LockSteps.InstallStepRefines | db/src/table.rs:418-439 | installing one entry is invisible |
| LockSteps.RunIsExplained | db/src/table.rs:330-442 | at every moment of every run the events so far, replayed atomically, give every result and the table |
| LockSteps.LockStepsAreAtomic | db/src/table.rs:354-441 | when all threads are done, the table and all results are those of the atomic operations in the recorded order, which holds each thread's operations in their order and nothing else |
| LockSteps.AssertionsAreUnreachable | db/src/table.rs:355-439 | no wrong lock kind in any reachable state; written keys that were read are present at install |
| LockSteps.HistoryOnlyGrows | db/src/table.rs:252-442 | what has taken effect keeps its place |
| LockSteps.RealTimeOrder | db/src/table.rs:252-442 | if one thread was done before another started, all its operations come first |
| LockSteps.RealTimeOrderApplies | db/src/table.rs:267-284 | two puts by two threads, one after the other, are such a run |
| LockSteps.SomebodyCanMove | db/src/tenant.rs:90-107 | whenever a thread is unfinished, some thread can move |
| LockSteps.EveryRunFinishes | db/src/table.rs:354-411 | every schedule ends within a bound, and only when all threads are done |
| Threads.FoundInOrder | db/src/context.rs:281-308 | a program goes by one result for each of its gets, in their order |
| Threads.OperationsTakeEffect | db/src/table.rs:252-442 | in every run a native operation or commit request takes effect at most once and as itself, and has done so when its thread is done |
| Threads.TransactionsFollow | db/src/context.rs:281-398 | in every run a transaction gets what its program asks for after what it found so far, and validates once, with a record of every get that found its key and exactly the writes that its program ends with |
| Serializable.RunIsOrderly | db/src/context.rs:281-356 | in every run a validated transaction has read what it says by earlier gets, and its timestamp is newer than every version before |
| Serializable.EventIsLegal | db/src/table.rs:330-442 | an atomic event is legal on the values before it and has the effect of its call |
| Serializable.ReplayIsSerial | db/src/table.rs:252-442 | a replay of such events is a serial history |
| Serializable.LockStepsAreSerializable | db/src/table.rs:252-442 | every lock-by-lock run, of native operations, commit requests and transactions that read, is serializable in the order of its events up to the first failed absent-key assertion, and without one leaves the serial table |
| Serializable.CommitsWhatItSaw | db/src/table.rs:388-439 | in every run, at every commit of a transaction: each entry its gets have found is the entry in the replayed table just before, and the commit assigns exactly the writes that its program computes from these results |
| Pushback.WNextKeepsInv | splinter/src/proxy.rs:235-367 | every server, client, pushback, panic, commit and other step keeps: versions and recorded reads stay genuine even if a request is misread, and as long as a task's records have the configured lengths, its cache is these records, all values seen are on record and the write set is the server's then the replay's |
| Pushback.WRunKeepsInv | db/src/context.rs:201-263 | so does every run |
| Pushback.CleanSearch | splinter/src/proxy.rs:212-221 | the search of the cache finds the first record of the key, or there is none |
| Pushback.SendableIsClean | db/src/rpc.rs:413-445 | a cache that fits a commit request is far below the 1024 records that stand for a miss |
| Pushback.CleanSendCommits | db/src/master.rs:1692-1745 | serving the commit request of a task whose records fit, with a header that takes its lengths from a read or a rightly split write, is validating its own transaction |
| Pushback.ObsAreAtomicIff | splinter/src/proxy.rs:288-367 | with current reads, what the extension saw is what an atomic run sees exactly when its absent keys are absent |
| Pushback.RepeatedWritesVanish | db/src/table.rs:418-439 | writes to keys that are all written again later make no difference |
| Pushback.ServerWritesAreReplayed | splinter/src/container.rs:118-170 | the server's writes are a prefix of the replay's |
| Pushback.CommitIsAtomicRun | db/src/master.rs:1692-1745 | a commit with current reads leaves what one atomic run of the extension leaves |
| Pushback.PushbackIsTransparent | db/src/context.rs:201-263 | the same at the end of every run from the start, pushed back or not |
| Pushback.CommitRpcCarriesTheTask | splinter/src/proxy.rs:235-283 | in every run the commit request parses into the task's own read and write sets |
| Answers.RecordsWereTrue | db/src/context.rs:281-308 | every read on record for an extension was in the table at some moment since it was started |
| Answers.ObservationsWereTrue | splinter/src/proxy.rs:288-367 | in every run, what an extension observes for a `get`, on the server or from a cache of records of the configured lengths, is what the table held for the key at some moment since it was started |
| Limits.FetchedIsCachedIff | splinter/src/sched.rs:142-159 | a fetched key is found in the cache exactly if it has the configured length |
| Limits.ClientPanicsIff | splinter/src/proxy.rs:288-337 | the next step on the client is a panic exactly if the key is not cached and absent (or of another length), or the buffer put is not 138 bytes |
| Limits.CrashCommits | splinter/src/container.rs:118-170 | the commit of a panicked extension applies the server's writes and then the replay's |
| Limits.CrashCommitsPrefix | splinter/src/sched.rs:167-190 | in every run these are prefixes of the atomic run at the commit point; if the replay got as far as the server, the table is that of the prefix up to the panic |
| Limits.CrashIsWholeIff | splinter/src/container.rs:118-209 | it equals the whole atomic run exactly if every key the missed writes touch already has their last value |
| Limits.CrashIsReachable | splinter/src/container.rs:130-164 | a run from the start into such a panic |
| Limits.CrashIsNoAtomicRun | splinter/src/container.rs:130-164 | its commit is accepted and no atomic run leaves that table |
| Limits.PhantomIsReachable | db/src/context.rs:281-308 | a run in which a key appears after an extension looked for it in vain |
| Limits.AbsentReadIsNotValidated | db/src/context.rs:281-308 | its commit succeeds and no atomic run explains it |
| Money.TransferRunsAlone | ext/ycsbt/src/lib.rs:115-166 | the table after a transfer that runs alone is the two puts of the moved values |
| Money.TransferMoves | ext/ycsbt/src/lib.rs:140-166 | between two accounts it moves one unit to the second exactly if the first has one and the second has room, one unit back exactly if only that is possible, and otherwise nothing; other bytes and keys stay |
| Money.UnfundedMovesNothing | ext/ycsbt/src/lib.rs:115-171 | if an account is missing or has no balance byte, the table stays |
| Money.TransferConservesIff | ext/ycsbt/src/lib.rs:140-166 | it keeps the total exactly for distinct accounts or one that is empty or full |
| Money.TransferIsClean | splinter/src/proxy.rs:168-199 | a pushed-back transfer has at most four records of the configured lengths, which are read back as they are; they fit one request where `put` accepts these lengths |
| Money.PutKeepsLengths | splinter/src/proxy.rs:330-337 | what a transfer writes has the configured lengths, and `put` accepts it exactly if these make 138 bytes |
| Money.DoomedConserves | splinter/src/sched.rs:167-190 | a transfer that panics in its first `put` commits its reads and changes nothing |
| Money.CommitConserves | ext/ycsbt/src/lib.rs:140-166 | the commit of a transfer, on either side, keeps the total and the lengths |
| Money.StepConserves | ext/ycsbt/src/lib.rs:115-166 | every step of concurrent transfers, commits of panicked ones included, keeps the total, and on the client every read is a cache hit |
| Money.MoneyIsConserved | db/src/context.rs:430-446 | so does every run, for any lengths common to accounts and clients, and no transfer panics on the client where `put` accepts them |
| Money.BalanceCheckHolds | db/src/context.rs:430-446 | after loading each account with 255 the check holds at every moment |
| Misfits.RequestIsMisread | db/src/master.rs:1703-1721 | the commit request of a transfer between values of 100 and 50 bytes parses into valid reads and a write that nobody made |
| Misfits.MisfitExists | splinter/src/proxy.rs:330-337 | there are such values |
| Misfits.MisfitChangesTheTotal | splinter/src/sched.rs:167-190 | a run from the start, of steps that `MoneyIsConserved` allows, in which that request commits and the total changes |
| Futex.NextKeepsExclusive | misc/benchmarks/context_switch/Mutex.h:80-162 | every step keeps: at most one holder, and the value is 0 exactly when nobody holds |
| Futex.NextKeepsHelp | misc/benchmarks/context_switch/Mutex.h:80-162 | every step keeps: a sleeper has value 2, a pending wake or an awake contender |
| Futex.RunKeepsInv | misc/benchmarks/context_switch/Mutex.h:80-162 | every run of any number of processes, with spurious wake-ups, keeps both |
| Futex.MutualExclusion | misc/benchmarks/context_switch/Mutex.h:80-140 | two holders in a reachable state are the same process |
| Futex.NoLostWakeUp | misc/benchmarks/context_switch/Mutex.h:149-162 | whenever somebody sleeps, help is on its way or a holder will see the value 2 and wake |
| Futex.RefinesAtomicLock | misc/benchmarks/context_switch/Mutex.h:80-162 | over every run the acquisitions and releases are a sequence that an atomic lock allows, and the holder is its owner |
| Futex.ContenderGetsFreeMutex | misc/benchmarks/context_switch/Mutex.h:80-140 | in every reachable state with value 0, a process that is in `lock` and awake holds the mutex after at most three steps of its own |
| Futex.WokenGetsFreeMutex | misc/benchmarks/context_switch/Mutex.h:80-162 | so does a sleeper that is woken, or wakes up by itself, on a free mutex |
| Futex.HolderCanUnlock | misc/benchmarks/context_switch/Mutex.h:149-162 | a holder can always free the mutex, which then has no owner |
| Handshake.RunKeepsInv | misc/benchmarks/context_switch/ContextSwitchBench.cc:366-394 | the invariant of the start/done pair over every run |
| Handshake.TurnsAlternate | misc/benchmarks/context_switch/ContextSwitchBench.cc:158-164 | exactly one of master turn, start free, slave turn, done free |
| Handshake.OneTurnPerSample | misc/benchmarks/context_switch/ContextSwitchBench.cc:366-382 | each sample spans exactly one slave turn |
| Handshake.NeverBothAsleep | misc/benchmarks/context_switch/ContextSwitchBench.cc:366-394 | master and slave never sleep at the same time |
| Handshake.MasterCompletes | misc/benchmarks/context_switch/ContextSwitchBench.cc:366-382 | when `done` is free, a master that waits for it and is awake completes its sample by at most three moves of its own |
| Handshake.SlaveGetsTurn | misc/benchmarks/context_switch/ContextSwitchBench.cc:389-394 | when `start` is free, so does the slave with its turn |
| Sched.Container.DbCalls | db/src/context.rs:281-356 | database calls one after the other add at most the time that passes |
| Sched.Container.Run | db/src/container.rs:99-151 | keeps database time within total time, also after a panic; only new and yielded tasks are resumed |
| Sched.OverPrefix | db/src/sched.rs:241-266 | the longest prefix, within the given length, of yielded tasks over their credit |
| Sched.RoundRobin.ShedLoop | db/src/sched.rs:241-266 | removes exactly that prefix, answers each of its tasks once and in order, never pops an empty queue, keeps the rest in order |
| Sched.RoundRobin.PollOnce | db/src/sched.rs:179-268 | one iteration: head run and requeued or answered, new tasks behind, load shed only after the dispatcher and under its conditions |
| Sched.OneIteration | db/src/sched.rs:179-268 | the whole effect of an iteration: head requeued at the end with its times added, or answered; load shed only after the dispatcher brought new tasks while four others waited or it was late, and then the longest run of yielded tasks that used more than the credit |
| Sched.ShedInOrder | db/src/sched.rs:248-262 | shed extensions are answered in the order of the queue |
| Sched.ShedAnswers | db/src/native.rs:100-157 | every request that is shed is answered, since native tasks never yield |
| Sched.ExactlyOnce | db/src/sched.rs:211-266 | over every run, requests waiting plus requests answered are the requests that arrived, counted |
| Sched.MovesUp | db/src/sched.rs:179-268 | a task that is not served moves towards the head with every poll |
| Sched.BoundedWaiting | db/src/sched.rs:179-268 | the task at position i is run or answered within i + 1 polls, whatever is enqueued |
| Sched.WithinCreditRuns | db/src/sched.rs:241-266 | in every run, a task at position i that is new or within the credit of every poll is not shed: it is run within i + 1 polls |
| Sched.DispatcherStays | db/src/sched.rs:241-266 | the only dispatcher is never shed |
| ClientTasks.TaskManager.CreateTask | splinter/src/sched.rs:73-116 | a new waiting task for an installed extension, nothing otherwise |
| ClientTasks.TaskManager.DeleteTask | splinter/src/sched.rs:122-126 | the id is no longer waiting |
| ClientTasks.TaskManager.UpdateRwset | splinter/src/sched.rs:142-159 | loads the reply into the task's cache and makes it ready, or panics on a read or write too short |
| ClientTasks.TaskManager.ExecuteTask | splinter/src/sched.rs:167-190 | runs the first ready task and files it by its new state |
| ClientTasks.Filed | splinter/src/sched.rs:167-190 | a task that yields is behind all other ready ones, one that misses waits with its get in flight, one that completes or indexes past its cached reads is finished |
| ClientTasks.TurnsAreBounded | splinter/src/sched.rs:167-190 | in every run the ready task at position i is resumed within i + 1 calls, whatever arrives or yields |
| ClientTasks.StepKeepsPlaced | splinter/src/sched.rs:73-190 | every step keeps the places of requests disjoint and complete |
| ClientTasks.StepKeepsMatched | splinter/src/proxy.rs:354-367 | every step keeps: messages in flight are exactly those awaited, once each |
| ClientTasks.RunKeepsInv | splinter/src/sched.rs:73-190 | so does every run |
| ClientTasks.ExactlyOnePlace | splinter/src/sched.rs:73-190 | each request is in exactly one of ready, waiting, finished and unknown, and once in the queue |
| ClientTasks.OneOutstandingGet | splinter/src/container.rs:118-170 | a task suspended on a miss has exactly its own get in flight; ready and finished tasks have nothing |
| ClientTasks.ResumedGetFinds | sandstorm/src/macros.rs:20-34 | with replies that carry the requested key, no `get` after a resumed miss panics, and it finds its key |
| Dispatches.Dispatch.ParseMacHeaders | db/src/dispatch.rs:452-489 | the IPv4 frames in reverse; the others are freed once |
| Dispatches.Dispatch.ParseIpHeaders | db/src/dispatch.rs:511-556 | version 4, time to live above zero, length at least 30, own address, in reverse (fields of section 3.1 of RFC 791); the others are freed once |
| Dispatches.Dispatch.ParseUdpHeaders | db/src/dispatch.rs:575-613 | length at least 10 (the Length field of RFC 768), in reverse; the others are freed once |
| Dispatches.Dispatch.DispatchOne | db/src/dispatch.rs:635-738 | a task whose response goes back to the sender of its own request, or both packets set aside |
| Dispatches.Dispatch.DispatchRequests | db/src/dispatch.rs:624-747 | tasks enqueued from the back of the vector; refused requests and their responses freed once |
| Dispatches.Dispatch.Receive | db/src/dispatch.rs:757-803 | valid requests are enqueued in order of arrival, everything else is freed once |
| Dispatches.StagesAreOneFilter | db/src/dispatch.rs:452-613 | three reversing stages are one filter, in reverse |
| Dispatches.PoppedInOrder | db/src/dispatch.rs:624-747 | popping that from the back is the order of arrival |
| Dispatches.OnePacket | db/src/dispatch.rs:452-739 | exactly when a packet becomes a task, with a response from its destination to its source, and exactly when it, or it and its response, is freed or leaked |
| Dispatches.QueuedPacketByPacket | db/src/dispatch.rs:624-747 | a batch is queued packet by packet in the order of arrival |
| Dispatches.CountedPacketByPacket | db/src/dispatch.rs:425-747 | and so are its buffers accounted for |
| Dispatches.StagesFree | db/src/dispatch.rs:425-747 | no packet is freed by two stages |
| Dispatches.BuffersAreConserved | db/src/dispatch.rs:452-747 | every buffer, responses included, is in exactly one of the queue, the free pool and the leak |
| Dispatches.NoLeakIff | db/src/dispatch.rs:647-739 | nothing leaks exactly when a response can be allocated for every valid request |

## Left out

- Versions, timestamps and times are unbounded; the wrap-around of 64-bit counters is not modelled.
- Empty keys: `bucket` indexes the first byte and panics, so keys are non-empty by type.
- Value representation in runs: `History`, `LockSteps` and `Pushback` store value bytes; `Contexts.StoredApply` and `Alloc.ResolveUndoesObject` connect them to the stored objects.
- The highest deleted version is an atomic integer of the table, read and raised inside a bucket's critical section; each section touches it once, and the model makes that one step with the section. A single-key operation releases its bucket in the step in which it takes effect.
- Several tables of a tenant: a commit checks only the table named by the first 8 argument bytes (db/src/context.rs:149-158), and the model has that one table.
- Serializable.LockStepsAreSerializable: that the counter advances between steps, and that a commit request brings only reads that somebody made before, are assumptions on clock and clients; nothing is claimed after a failed absent-key assertion, which leaves part of a transaction (`Store.PanicLeavesPartOfTheWrites`); a transaction's reads and writes are bounded, so that runs end.
- Money.MoneyIsConserved: pushbacks only where keys and values have the clients' configured lengths, because `Misfits.MisfitChangesTheTotal` shows what happens otherwise; versions fit their 64 bits.
- Requests that do not fit: a commit payload of more than 1436 bytes panics outside the extension and nothing is sent; a chunk that cannot be split ends the client or the handler, and nothing is committed.
- A pushback response that does not fit its packet panics in the server's scheduler; the payload is unbounded here.
- `multiget` on the client skips keys that are not cached, and `MULTIGET!` panics on them. The transfer reads with `multiget`; its two reads stand for it because on the server that is one `get` after the other up to the first absent key, and on the client both keys are in the cache whenever a transfer was pushed back with its accounts open.
- Immediate `del` inside an extension beyond the native delete step.
- Native `get`, `put` and `multiget` handlers as RPC parsers; their table operations are steps of `History` and `LockSteps`.
- Watchdog migration between schedulers, the compromised flag, work stealing between dispatchers, and the fast path for native requests, which a constant disables.
- Fairness of spin locks and of the futex queue, and weak memory orders: every atomic operation takes effect at once.
- Packet reception, transmission and memory (DPDK, NetBricks): packets are records of header fields.
- The pointer-chasing, TAO, put, aggregate, checksum, analysis and authentication extensions; `Pushback` is about every deterministic extension and `Money` about the transfer.
- Configuration, install requests, extension loading, cycle calibration, data loaders other than the account loader, simulators and scripts.
