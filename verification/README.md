# LedgerFS, verified

This project models the implemented core of LedgerFS, an append-only financial ledger, and proves
what that core guarantees:

- **Keys and the ordered store.** Events live under 24-byte keys (eight big-endian timestamp bytes,
  sixteen id bytes) in a database that iterates in byte order. The model covers the key codec, the
  three append paths with failures of every foreign call, the seek / filter / stop / paginate query
  loop, paging, the reverse scan and the statistics.
- **The batching pipeline.** A transition system with one bounded channel, any number of workers with
  private batches, and a shared store. A flush is two separate atomic steps (the append under the
  write lock, the later metrics update), so other workers may act between them. The worker loop and
  the synchronous writer are also modelled as objects that share a store and metrics; the state
  after every loop is given turn by turn, and any interleaving of the loops' turns is proved to be a
  run of the transition system.
- **Balance replay and recovery.** The fold of the log into 64-bit balances with independent debit and
  credit halves, its relation to an unbounded ledger, order independence, conservation of money, and
  the recovery passes built on it.
- **The FUSE side.** Double-checked inode allocation under interleaving callers, lookups, attributes
  and listings, and the path generators and parsers.

## Files

| file | content |
|---|---|
| LedgerTypes.dfy | identifiers, checked amounts, events, envelopes |
| Sequences.dfy | filters, pages, sums, multiset unions and folds over sequences |
| EventKeys.dfy | byte order, big-endian words, storage keys |
| OrderedScan.dfy | the database as an ordered map |
| EventQueries.dfy | the meaning of queries, timelines, paging |
| Appends.dfy | the append paths and whole runs of them |
| EventStore.dfy | the store object |
| BatchPipeline.dfy, PipelineRuns.dfy, PipelineConfluence.dfy | the pipeline, its invariants, its confluence and termination |
| BatchWorkers.dfy | the worker loop, its turns as pipeline runs, and the synchronous writer |
| BalanceReplay.dfy, ReplayOrder.dfy, MoneyConservation.dfy | the replay fold and its theorems |
| Recovery.dfy | the recovery passes |
| EndToEnd.dfy | what the pipeline writes is what queries and replay read |
| Limits.dfy | where the default limit of 1000 makes rebuilt balances and recovery wrong |
| Paths.dfy, InodeTable.dfy, Filesystem.dfy | paths, inode allocation, lookups and listings |

## Where the code and its comments differ

The model follows the code.

- `get_account_events` and the recovery scans say they read "all" events; without a limit a query
  stops at 1000 (`store.rs:201`). `AccountEventsCompleteIff` and `ScannedAllIff` say when they do, and
  `RebuildExact` and `RecoveryExact` for which sizes the answers are right; `LateUpdateMissed` and
  `LateOverflowMissed` give the failing stores.
- Keys are said to be "naturally ordered by time". Timestamps before the epoch sort after all others and
  unrepresentable ones become 0 (`serialization.rs:108`). `StampOrderIsTimeOrder`, `ScanChronologicalIff`
  and `StartTimeExact` give the exact conditions; `OutOfOrderPair`, `EpochPair` and `UnfaithfulSeek` give
  the failing stores and queries.
- Batch appends promise append-only checks, but two events of one batch may share a key and the last
  wins (`CollidingBatch`). `GrowthIsExact` and `BatchEqualsSingles` say exactly when a batch behaves like single appends.
- The replay's debit warning speaks of insufficient funds; the subtraction fails only on the 64-bit
  range, and a failed debit does not stop the credit. `TransferKeepsTotalIff` says when that changes the
  total, and `TransferCreatesMoney` gives a ledger and a transfer.
- `lookup` and `getattr` classify the root differently; `KindsAgreeIff` says for which lookups that shows.

## Model

| member | source | states |
|---|---|---|
| `EventKeys.BigEndianOrder` | crates/ledgerfs-event-store/src/serialization.rs:107-112 | big-endian words followed by tails compare as the numbers, then as the tails |
| `EventKeys.KeyOrderEmbedding` | crates/ledgerfs-event-store/src/serialization.rs:100-115 | byte order of keys is exactly the order of (u64 timestamp, id) |
| `EventKeys.PrefixSeek` | crates/ledgerfs-event-store/src/serialization.rs:122-126 | a key is at or after a time prefix exactly when its u64 timestamp is |
| `EventKeys.KeyCollision` | crates/ledgerfs-event-store/src/serialization.rs:104-115 | two keys are equal exactly when u64 timestamps and ids are |
| `EventKeys.StampInjective` | crates/ledgerfs-event-store/src/serialization.rs:108 | which timestamps share a u64: only the unrepresentable ones, with each other and with the epoch |
| `EventKeys.StampOnto` | crates/ledgerfs-event-store/src/serialization.rs:107-109 | every 64-bit word is the stamp of a representable timestamp, the upper half of the words standing for times before the epoch |
| `EventKeys.KeyInjective` | crates/ledgerfs-event-store/src/serialization.rs:102-115 | on representable timestamps the key identifies (timestamp, id) |
| `EventKeys.StampOrderIsTimeOrder` | crates/ledgerfs-event-store/src/serialization.rs:107-109 | for all pairs of timestamps: key order is time order exactly when representable ones lie on one side of the epoch, an unrepresentable one is too early for the other, or the listed cases for the stamp 0 |
| `EventKeys.KeyOrderOfTimes` | crates/ledgerfs-event-store/src/serialization.rs:100-115 | for an earlier and a later event, their keys are in that order exactly when neither the epoch nor the stamp 0 comes between them (ids decide when both have the stamp 0) |
| `OrderedScan.OrderedAscending` | crates/ledgerfs-event-store/src/store.rs:205-210 | iteration yields strictly increasing keys |
| `OrderedScan.ScanFromIsFilter` | crates/ledgerfs-event-store/src/store.rs:205-208 | seeking to a key is the full scan without the earlier keys |
| `EventQueries.ChronologicalUnique` | crates/ledgerfs-event-store/src/store.rs:195-257 | members and time order determine the reference answer, so it is unique |
| `EventQueries.AcceptedIsTimeline` | crates/ledgerfs-event-store/src/store.rs:205-233 | seek, account skip, early stop and type filter leave exactly the matching events in time order |
| `EventQueries.QueryRefinesTimeline` | crates/ledgerfs-event-store/src/store.rs:196-257 | on stores at or after the epoch a query answers with the page (offset, limit, has_more) of the unique timeline |
| `EventQueries.UnfaithfulSeek` | crates/ledgerfs-event-store/src/store.rs:205-207 | every start time outside the faithful ones gives a wrong answer on a one-event store |
| `EventQueries.StartTimeExact` | crates/ledgerfs-event-store/src/store.rs:205-210 | a start time is answered correctly on all such stores if and only if it is representable from the epoch on, or before all representable times |
| `EventQueries.PagingComplete` | crates/ledgerfs-event-store/src/store.rs:235-256 | paging while has_more terminates and yields every match once, in order; every page but the last is full and the last is not |
| `EventQueries.PagingFetches` | crates/ledgerfs-event-store/src/store.rs:249 | that takes n / limit + 1 fetches, the last an extra empty one exactly when the limit divides n |
| `EventQueries.LatestPage` | crates/ledgerfs-event-store/src/store.rs:294-309 | the forward page of the last k events is the end of the scan |
| `Appends.BatchPathsAgree` | crates/ledgerfs-event-store/src/store.rs:138-173 | both batch paths commit on the same inputs, under any foreign failures, exactly when nothing fails and no key is present, and leave the same store |
| `Appends.FaultlessErrors` | crates/ledgerfs-event-store/src/store.rs:345-402 | without foreign failures both batch paths report the same error, which can only be the append-only violation |
| `Appends.FirstFailure` | crates/ledgerfs-event-store/src/store.rs:149-163 | the interleaved path reports the first position where anything fails: the lookup before the append-only check before the serialization |
| `Appends.FirstLookupFailure` | crates/ledgerfs-event-store/src/store.rs:362-373 | the two-pass path reports the first failed lookup or present key of the whole batch |
| `Appends.LateSerializationFailure` | crates/ledgerfs-event-store/src/store.rs:375-381 | and only when there is none a failed serialization |
| `Appends.WriteFailure` | crates/ledgerfs-event-store/src/store.rs:166-170 | when only the write fails both paths report a database error |
| `Appends.PutsLastWins` | crates/ledgerfs-event-store/src/store.rs:149-163 | of several events of a batch under one key the last is the one kept |
| `Appends.GrowthIsExact` | crates/ledgerfs-event-store/src/store.rs:393-401 | a committed batch grows the store by events_written if and only if its keys are distinct |
| `Appends.CollidingBatch` | crates/ledgerfs-event-store/src/store.rs:345-402 | two events under one key: the batch commits on either path and the store grows by one, the later event |
| `Appends.BatchEqualsSingles` | crates/ledgerfs-event-store/src/store.rs:112-173 | single appends all succeed if and only if the batch commits with distinct keys, and then the stores are equal |
| `Appends.AppendExtends` | crates/ledgerfs-event-store/src/store.rs:138-173 | no append, failed or not, removes or changes a stored event |
| `Appends.AppendOnlyRun` | crates/ledgerfs-event-store/src/store.rs:112-173 | the same over every sequence of single, batch and optimized appends |
| `EventStores.EventStore.AppendEvent` | crates/ledgerfs-event-store/src/store.rs:112-135 | the error of one append under every foreign failure (lookup, then append-only check, then serialization, then write), and the new database; the store only grows |
| `EventStores.EventStore.AppendEvents` | crates/ledgerfs-event-store/src/store.rs:138-173 | new database (all or nothing) and first error of the interleaved batch loop |
| `EventStores.EventStore.AppendEventsOptimized` | crates/ledgerfs-event-store/src/store.rs:345-402 | new database and first error of the two-pass batch loop, and the number written |
| `EventStores.WalkItems` | crates/ledgerfs-event-store/src/store.rs:212-247 | the loop collects exactly the requested page of what passes its filters and stop |
| `EventStores.EventStore.QueryEvents` | crates/ledgerfs-event-store/src/store.rs:196-257 | the query result on any store; on stores at or after the epoch the page (offset or 0, limit or 1000) of the stored events within both inclusive ends of the time range, concerning the account and of a listed type, in time order; has_more exactly for a full page |
| `EventStores.EventStore.GetAccountEvents` | crates/ledgerfs-event-store/src/store.rs:260-272 | the first 1000 events, in key order, that have the account as a party of a transaction or as the subject of any other account event, and no others |
| `EventStores.EventStore.GetEventsInRange` | crates/ledgerfs-event-store/src/store.rs:275-291 | the query result on any store; on stores at or after the epoch and a faithful start time, the first 1000 events with start <= timestamp <= end, in time order |
| `EventStores.EventStore.GetLatestEvents` | crates/ledgerfs-event-store/src/store.rs:294-309 | the reverse scan put in forward order is the last min(k, n) events of the forward scan, and the forward query at offset n - min(k, n) |
| `EventStores.EventStore.GetStatistics` | crates/ledgerfs-event-store/src/store.rs:312-342 | the count, and the true least and greatest timestamps, on any store |
| `EventStores.ExtremesOfEpochStore` | crates/ledgerfs-event-store/src/store.rs:319-334 | on stores at or after the epoch these are the first and last events scanned |
| `BatchPipeline.BoundedStep` | crates/ledgerfs-event-store/src/batch.rs:208-221 | an idle worker's batch stays below max(1, max_batch_size), a flushing one at most that, the channel within its buffer |
| `BatchPipeline.ConservedStep` | crates/ledgerfs-event-store/src/batch.rs:200-265 | every step keeps: sent = channel + held by workers + committed + discarded, as multisets |
| `BatchPipeline.CountedStep` | crates/ledgerfs-event-store/src/batch.rs:294-355 | every step keeps each counter plus its unrecorded flushes equal to the history's count |
| `PipelineRuns.InOrderStep` | crates/ledgerfs-event-store/src/batch.rs:203-236 | every step keeps: what a worker received, in send order, is its append attempts followed by its batch |
| `PipelineRuns.Reachable` | crates/ledgerfs-event-store/src/batch.rs:189-359 | all four in every reachable state, with duplicates, failed flushes and shutdown; the store only grows |
| `PipelineRuns.SettledCounters` | crates/ledgerfs-event-store/src/batch.rs:298-346 | with no flush half recorded the event, batch, error and violation counters are exactly the history's |
| `PipelineRuns.WorkerOrder` | crates/ledgerfs-event-store/src/batch.rs:203-236 | a worker's append attempts followed by its batch are a subsequence of the send order |
| `PipelineRuns.SingleWorkerOrder` | crates/ledgerfs-event-store/src/batch.rs:203-236 | with one worker, attempts, batch and channel spell exactly the sent sequence |
| `PipelineRuns.Backpressure` | crates/ledgerfs-event-store/src/batch.rs:161 | before anything is received exactly up to buffer_size events can be sent |
| `PipelineConfluence.Confluence` | crates/ledgerfs-event-store/src/batch.rs:189-359 | every clean interleaving that ends leaves the initial store plus exactly the sent events, counts each once and reports no error, for any worker count, batch size and append path |
| `PipelineConfluence.SameEventsSameStore` | crates/ledgerfs-event-store/src/batch.rs:160-186 | two clean runs under different configurations, sent the same events in any order, end in the same store |
| `PipelineConfluence.ClosedStepDescends` | crates/ledgerfs-event-store/src/batch.rs:222-234 | after the channel closes every step uses up work |
| `PipelineConfluence.ClosedRunsEnd` | crates/ledgerfs-event-store/src/batch.rs:200-265 | after the channel closes runs are bounded, and no step is possible exactly when all workers have stopped |
| `BatchWorkers.TurnsKeepEvents` | crates/ledgerfs-event-store/src/batch.rs:200-265 | over any turns and failures, a worker's append attempts followed by its batch are exactly what it was given, in order |
| `BatchWorkers.ReceiveFlushesAtLimit` | crates/ledgerfs-event-store/src/batch.rs:208-221 | a received event only joins the batch while that stays below max_batch_size, otherwise the whole batch is flushed and counted once |
| `BatchWorkers.BatchingLaw` | crates/ledgerfs-event-store/src/batch.rs:104-106 | undisturbed by expired ticks and leaving turns, n events make n / max(1, max_batch_size) flushes of exactly that many events, and the remainder stays in the batch |
| `BatchWorkers.TurnRuns` | crates/ledgerfs-event-store/src/batch.rs:201-264 | in any state of any number of workers, whatever the others are doing, one turn of a worker's loop is a run of pipeline steps that leaves the other workers alone |
| `BatchWorkers.ScheduleIsRun` | crates/ledgerfs-event-store/src/batch.rs:165-183 | any interleaving of turns of all the workers' loops with single steps is a run of the pipeline |
| `BatchWorkers.LoopIsRun` | crates/ledgerfs-event-store/src/batch.rs:189-268 | every execution of one worker's loop, among any number of workers, is a pipeline run from the start with the same batch, store, metrics and append history, in which exactly the received events were sent |
| `BatchWorkers.LoopBounds` | crates/ledgerfs-event-store/src/batch.rs:208-221 | between turns the loop's batch stays below max(1, max_batch_size), and the store only grows |
| `BatchWorkers.BatchWorker.FlushBatch` | crates/ledgerfs-event-store/src/batch.rs:271-359 | batch, store, shared metrics and append history after a flush, failed or not; the store only grows |
| `BatchWorkers.BatchWorker.TakeTurn` | crates/ledgerfs-event-store/src/batch.rs:201-264 | batch, running flag, store, shared metrics and append history after one turn of the select loop, whatever other workers left there: below the limit a received event only joins the batch, at the limit the whole batch is flushed, an expired tick and a leaving turn empty it, an early tick changes nothing; the loop is left exactly on a closed channel or a shutdown |
| `BatchWorkers.BatchWorker.RunBatchProcessor` | crates/ledgerfs-event-store/src/batch.rs:189-268 | the loop takes all turns up to and including the first that leaves it, ends in the state of exactly those turns, and its append attempts followed by its batch are exactly the events received, in order; undisturbed by expired ticks, n events make n / max(1, max_batch_size) flushes of exactly that size and leave the remainder in the batch |
| `BatchWorkers.SyncBatchWriter.AddEvent` | crates/ledgerfs-event-store/src/batch.rs:393-395 | the event is pending last |
| `BatchWorkers.SyncBatchWriter.Flush` | crates/ledgerfs-event-store/src/batch.rs:408-417 | drains before appending: pending is empty even when the append fails; attempts and pending still spell what was added |
| `BatchWorkers.SyncBatchWriter.FlushIfFull` | crates/ledgerfs-event-store/src/batch.rs:398-405 | flushes exactly from max_batch_size pending events on, with the attempt recorded, and passes the error on |
| `BalanceReplay.AccountProjection` | crates/ledgerfs-event-store/src/recovery.rs:207-247 | replaying only an account's matching events gives it the same balance or absence as the whole log |
| `BalanceReplay.AccountQueryRebuildsBalance` | crates/ledgerfs-event-store/src/store.rs:260-272 | on any store, replaying get_account_events rebuilds an account with at most 1000 events exactly |
| `BalanceReplay.AccountEventsCompleteIff` | crates/ledgerfs-event-store/src/store.rs:260-272 | get_account_events returns all of an account's events if and only if there are at most 1000 |
| `Limits.LateUpdateMissed` | crates/ledgerfs-event-store/src/store.rs:199-201 | for every size above 1000, a history whose balance is rebuilt wrongly from get_account_events |
| `Limits.RebuildExact` | crates/ledgerfs-event-store/src/store.rs:260-272 | get_account_events rebuilds the balance of every account with n events if and only if n is at most 1000 |
| `BalanceReplay.ReplayRefinesMath` | crates/ledgerfs-event-store/src/recovery.rs:207-247 | replay of a log is error-free if and only if the unbounded ledger, computed from the events themselves, stays in the 64-bit range after every event and between the halves of every transaction, and then equals it |
| `BalanceReplay.ReplayEventExact` | crates/ledgerfs-event-store/src/recovery.rs:208-246 | the effect of every kind of event on any ledger: the balance set, the party moved or the error counted for each half, or nothing |
| `BalanceReplay.MatchesAccountExact` | crates/ledgerfs-event-store/src/store.rs:413-425 | the account filter accepts exactly the events that can move the account's balance, and of the others the account's own status and metadata changes and its transactions of amount 0 |
| `BalanceReplay.HalfStepsRefineMath` | crates/ledgerfs-event-store/src/recovery.rs:215-243 | any sequence of overwrites, debits and credits is error-free if and only if the unbounded ledger stays in range after each, and then equals it |
| `BalanceReplay.FirstErrorIsFirstOverflow` | crates/ledgerfs-core/src/types.rs:76-88 | the first error is counted at exactly the first half-step that leaves the range |
| `ReplayOrder.OrderIndependent` | crates/ledgerfs-event-store/src/recovery.rs:215-243 | within the magnitude bound every permutation of the transactions replays to the same ledger, without error, each account moved by its net amount |
| `ReplayOrder.OpenedThenAnyOrder` | crates/ledgerfs-event-store/src/recovery.rs:204-247 | the same from the opening of distinct accounts, with the final balances given |
| `MoneyConservation.TransactionMovesTotal` | crates/ledgerfs-event-store/src/recovery.rs:215-243 | a transaction changes the total by exactly the halves that took effect |
| `MoneyConservation.TransferKeepsTotalIff` | crates/ledgerfs-event-store/src/recovery.rs:217-243 | a transfer between known accounts keeps the total if and only if, from the balances before it, debit and credit both fit the 64-bit range, neither fits, or the amount is 0; from an account to itself, if and only if the debit fits |
| `MoneyConservation.TransferCreatesMoney` | crates/ledgerfs-event-store/src/recovery.rs:217-243 | from the least balance, a transfer of 1 to an account at 0 raises the total by 1 |
| `MoneyConservation.MoneyIsConserved` | crates/ledgerfs-event-store/src/recovery.rs:204-247 | an error-free log of openings and transfers ends with the sum of the opening balances |
| `Recovery.TemporalCheckExact` | crates/ledgerfs-event-store/src/recovery.rs:254-286 | on any store the check reports nothing if and only if the scanned events are in time order, which is when every earlier one sorts before every later one; on representable timestamps it counts one error if they lie on both sides of the epoch, else none |
| `Recovery.ScanChronologicalIff` | crates/ledgerfs-event-store/src/serialization.rs:102-109 | on any store the scan is in time order if and only if every earlier event sorts before every later one; on representable timestamps, if and only if they do not lie on both sides of the epoch |
| `Recovery.OutOfOrderPair` | crates/ledgerfs-event-store/src/serialization.rs:102-109 | every pair of events not in key order makes a two-event store whose scan is not in time order |
| `Recovery.EpochPair` | crates/ledgerfs-event-store/src/serialization.rs:102-109 | one nanosecond before the epoch and the epoch itself are such a pair |
| `Recovery.FirstEvents` | crates/ledgerfs-event-store/src/recovery.rs:156-165 | the events a pass looks at are the first in key order, at most the limit or 1000 |
| `Recovery.ScannedAllIff` | crates/ledgerfs-event-store/src/store.rs:199-201 | a pass looks at the whole store if and only if it holds no more events than the limit |
| `Recovery.CheckDatabaseIntegrity` | crates/ledgerfs-event-store/src/recovery.rs:120-146 | sets the checked count to the number scanned, at most 1000 |
| `Recovery.ValidExact` | crates/ledgerfs-event-store/src/recovery.rs:289-323 | an envelope is valid if and only if it is one the constructor builds, for a nonempty aggregate id, no later than now and at most 3650 days before |
| `Recovery.CorruptedExact` | crates/ledgerfs-event-store/src/recovery.rs:169-173 | each position that fails validation is counted once, and no other |
| `Recovery.CheckedCount` | crates/ledgerfs-event-store/src/recovery.rs:156-163 | the deep pass looks at min(m, n) of n events for a positive limit m, else at min(1000, n) |
| `Recovery.CheckEventConsistency` | crates/ledgerfs-event-store/src/recovery.rs:149-187 | adds min(limit or 1000, n) to the checked count and the number of positions that fail validation to the corrupted count; with or without auto_repair nothing is counted as repaired, since every repair fails |
| `Recovery.ReplayOne` | crates/ledgerfs-event-store/src/recovery.rs:208-246 | one turn of the replay loop, per kind of event: openings and balance updates set exactly their balance, a transaction debits and then credits its known parties or counts an error for each half that does not fit, anything else changes nothing |
| `Recovery.CheckAccountBalanceConsistency` | crates/ledgerfs-event-store/src/recovery.rs:190-251 | the rebuilt balances and added errors are those of the replay of the first 1000 events; no error is added if and only if the unbounded ledger stays in range, and then the balances are its |
| `Recovery.CheckTemporalConsistency` | crates/ledgerfs-event-store/src/recovery.rs:254-286 | adds the number of neighbours whose timestamps go down |
| `Recovery.Recover` | crates/ledgerfs-event-store/src/recovery.rs:85-117 | all four counters of a recovery, and that it leaves the store alone |
| `Recovery.CleanRecoveryIff` | crates/ledgerfs-event-store/src/recovery.rs:85-117 | on any store recovery reports no consistency error if and only if the first 1000 events are pairwise in key order and the unbounded ledger stays in range throughout them |
| `Limits.LateOverflowMissed` | crates/ledgerfs-event-store/src/recovery.rs:190-251 | for every size above 1000, a store that recovery reports clean while replaying all of it overflows |
| `Limits.RecoveryExact` | crates/ledgerfs-event-store/src/recovery.rs:85-117 | recovery reports the errors of every store of n events if and only if n is at most 1000 |
| `EndToEnd.SentIsReadInTimeOrder` | crates/ledgerfs-event-store/src/batch.rs:160-359 | after any clean run into an empty store every page of an unfiltered query is the page of the sent events in time order, and replaying the store is replaying that order |
| `InodeTable.CommitAllocates` | crates/ledgerfs-fuse/src/filesystem.rs:78-93 | the locked part keeps the maps inverse, the counter above all inodes and every earlier allocation |
| `InodeTable.OneInodePerPath` | crates/ledgerfs-fuse/src/filesystem.rs:70-94 | in every interleaving of probes and commits two calls return the same inode if and only if they asked for the same path, and no inode number is skipped |
| `Filesystem.JoinInjective` | crates/ledgerfs-fuse/src/filesystem.rs:177-181 | full paths of slash-free names coincide only for the same parent and name |
| `Filesystem.LookupsShareInodeIff` | crates/ledgerfs-fuse/src/filesystem.rs:167-195 | any two lookups of a run share an inode if and only if parent and name agree, whatever happened to the table between them |
| `Filesystem.KindsAgreeIff` | crates/ledgerfs-fuse/src/filesystem.rs:185-211 | lookup and getattr agree on inode and kind if and only if the lookup is not of the empty name in the root |
| `Filesystem.LookupKindExact` | crates/ledgerfs-fuse/src/filesystem.rs:185-191 | by inode: a lookup of a slash-free name answers a directory if and only if the parent is /accounts or /docs, or the root and the name one of the three fixed ones |
| `Filesystem.LedgerFilesystem.constructor` | crates/ledgerfs-fuse/src/filesystem.rs:38-68 | the initial table with the four fixed directories, already consistent |
| `Filesystem.LedgerFilesystem.GetOrCreateInode` | crates/ledgerfs-fuse/src/filesystem.rs:70-94 | the table after the call, nothing lost, the inode mapped both ways, and a new path given exactly the next inode |
| `Filesystem.LedgerFilesystem.Lookup` | crates/ledgerfs-fuse/src/filesystem.rs:167-195 | table and answer of a lookup, agreeing with getattr; the kind is a directory exactly for the three fixed names in the root and for names in /accounts and /docs |
| `Filesystem.LedgerFilesystem.ReadDir` | crates/ledgerfs-fuse/src/filesystem.rs:270-338 | the inodes that can be listed are the four fixed ones and those directly below /accounts; the listing is the directory itself, its parent (whose path joined with a name is the directory's), and then exactly the names of its children, each with the inode and kind of lookup and getattr |
| `Filesystem.ListedAreGenerated` | crates/ledgerfs-fuse/src/filesystem.rs:300-323 | the children named in /accounts and in an account directory are exactly those of the path generators |
| `Filesystem.LedgerFilesystem.ListAccounts` | crates/ledgerfs-fuse/src/filesystem.rs:294-310 | one agreeing entry per account, in order |
| `Paths.HyphenatedExact` | crates/ledgerfs-fuse/src/path_resolver.rs:15-17 | a 36-character text is read as an id if and only if it is that id printed, up to letter case |
| `Paths.UuidExact` | crates/ledgerfs-fuse/src/path_resolver.rs:15-17 | a text is read as an id if and only if it is one of its four spellings, up to the letter case of the digits |
| `Paths.AccountRoundTrip` | crates/ledgerfs-fuse/src/path_resolver.rs:8-20 | account, balance, log and snapshot paths (any stamp text) give their account id back |
| `Paths.TransactionRoundTrip` | crates/ledgerfs-fuse/src/path_resolver.rs:23-38 | transaction paths give their transaction id back |
| `Paths.AccountIdExact` | crates/ledgerfs-fuse/src/path_resolver.rs:8-20 | a path names an account if and only if its second component is "accounts" and its third spells the id; every other path is refused by name |
| `Paths.TransactionIdExact` | crates/ledgerfs-fuse/src/path_resolver.rs:23-38 | the same for "transactions" and an id followed by ".json" |
| `Paths.WrongSide` | crates/ledgerfs-fuse/src/path_resolver.rs:11-28 | each parser refuses the generated paths of the other side |
| `Paths.PathComponents` | crates/ledgerfs-fuse/src/path_resolver.rs:78-100 | the components of every generated path |
| `Paths.PathsInjective` | crates/ledgerfs-fuse/src/path_resolver.rs:78-100 | paths of distinct ids, kinds or stamps never coincide |
| `Paths.GeneratedDirectories` | crates/ledgerfs-fuse/src/path_resolver.rs:41-48 | of all generated paths exactly the account directories are directories |
| `Paths.DirectoryExact` | crates/ledgerfs-fuse/src/path_resolver.rs:41-48 | the directories are the four fixed paths and the slash-free names directly below /accounts and /docs |

## Left out

- RocksDB internals, write options, write-ahead log and compaction: the database is an ordered map with atomic batch writes.
- Failures while reading (iterator or decoding errors in queries, statistics and recovery): the encoding is taken to be reversible, so stored events read back.
- Encoded sizes: bytes_written and total_bytes_written depend on the binary encoding and its compression.
- Wall-clock and floating-point metrics (throughput, latency, averages) and timer durations: a tick may happen whenever a worker is idle with a non-empty batch.
- Leap-second timestamps, whose nanosecond count and calendar order differ: a timestamp is one integer.
- Wrap-around of the 64-bit counters in metrics and statistics: counters are natural numbers. The inode counter's limit is a precondition.
- Error texts: a violation is counted for the append-only error itself, not by searching the message.
- Delivery of the shutdown notification: after shutdown a worker may or may not notice it, and events may stay in the channel.
- TakeTurn: the object takes an append and the recording of its metrics in one call; other workers acting between the two are covered by the transition system, where they are separate steps.
- RebuildExact: sizes above 2^63 - 1, since the failing stores hold one event per representable nanosecond from the epoch on; `RecoveryExact` likewise.
- LedgerFilesystem.Clone, file reading, reply buffers and offsets of listings, and file sizes in attributes: plumbing around the modelled table.
- get_event by id, document paths, is_valid_file and file types: a single scan and case analyses on which nothing modelled depends.
- The identifier library itself: `ParseUuid` reads the four spellings that library documents (hyphenated, plain, braced, URN).
- Merkle proofs, commands, snapshots and backup: data types, traits or placeholders without behaviour.
- Envelope fields that no modelled operation inspects are one opaque text field.
