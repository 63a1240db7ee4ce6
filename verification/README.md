# A model of the Oasis Web3 gateway's core

The gateway indexes the blocks of a runtime into a database and serves them over the Ethereum JSON-RPC API. This
project models the parts of it that carry state, and proves what holds of them for all inputs and over all runs.
`dafny verify dfyconfig.toml` checks the whole project (Dafny 4.11).

| module | what it models |
|---|---|
| `Model`, `Tables`, `IndexStore` | the tables, the statements on them, and `IndexBackend`, which stores a block or prunes |
| `BlockConversion`, `BlockProperties`, `EmittedData` | from a runtime block to rows, and what holds of every converted block |
| `BlockMeaning` | what each row, the header and the median say about the runtime block, in terms of its items and events alone |
| `StoreProperties`, `IndexerRuns`, `RunTheorems` | one commit or prune; the service as interleaved steps; what every schedule guarantees |
| `Schedules`, `RoundOrder` | continuing a schedule; exactly when the rounds of committed blocks rise |
| `IndexedCounter`, `RetainedMarker` | the cached last indexed round and the retained-round marker: when they are right, and what makes them wrong |
| `Cache`, `CacheRefinement`, `BlockTransactions` | `CachingBackend`, and that its answers are the store's over every run |
| `ServiceProcess` | a process of real objects that carries out the steps |
| `EpochParameters` | when core parameters are fetched again |
| `GasOracle`, `FeeHistory`, `FeeMeaning` | the price window, the fee history and `eth_feeHistory`, and what their answers say about the blocks tracked |
| `Migrator`, `LogsMigration`, `LogFixer` | concurrent migrations, the log renumbering migration, the `tx_index` repair worker |
| `LogCodec`, `LogFilters`, `EventSystem` | log encoding, both log filters, the subscription loop |
| `PullAndPush`, `ChainEvents` | logs asked for against logs sent; indexer and subscription loop in one process |

A schedule is any finite list of events, and `Run` is the state it leads to; an event that is not enabled changes
nothing. The imperative parts (`IndexBackend`, `CachingBackend`, `GasPriceOracle`, `FeeTracker`, `Database`, `Fixer`,
`Service`) are classes whose methods are proved against functions of their state, and the step systems are written with
the same functions (`StoreAfter`, `DeleteBelow`, `Emitted`, `Latest`). `ServiceProcess.Execute` carries out any schedule
with these objects and ends in the state of the step system.

The functions that specify the methods are in turn tied to their inputs: the lemmas whose names end in `Mean` or `Means`
say what a row, a floor, a window, an answer or an order is in terms of the items, events, blocks or characters it is
made from.

What the source does in several steps is several steps here: a block is committed, its chain event is sent or dropped,
the observer is called; the caching backend's Start reads the last indexed round and later writes it; a prune chooses its
bound, writes the marker, deletes. A process can stop between any two of them.

Main results: a cached transaction, receipt or header is the stored one if no committed prune has passed its round,
and only then as long as rounds rise (`CachedTxIsStored`, `CachedReceiptIsStored`, `CachedBlockIsStored`); a log range
answered from the cache is the very sequence the database would return (`CachedRangeIsStoreRange`); eth_getLogs equals
the subscription filter over the stored logs except exactly where the cache outlives a prune (`PullIsBoundedFilter`);
rounds rise exactly as long as passes start at safe rounds, and gaps have a reason (`OrderIsKeptExactly`,
`SkippedRoundsWereBelowFloor`); successes are final (`SuccessIsFinal`); a subscriber has been sent exactly what
eth_getLogs answers (`SubscriberSawTheAnswer`); migrations commit once and in order for any number of callers
(`EachUpRunsOnce`).

## Hypotheses

- Tables are maps from primary keys to rows, and a storage transaction is all or nothing. The database may fail at any
  statement (`dbOk`, `markerOk`, `deletesOk`), but a read either finds the row or reports that there is none: for any
  other read error indexer/utils.go:441-442 and 476-477 return the outer `err`, which may be nil.
- Failed transactions emit no EVM logs (`FailuresEmitNothing`, part of `AllAdmissible`). `ObserversSeeAllLogs` shows that
  the observers see all logs of a block exactly under this hypothesis.
- The node answers a query for a round with the block of that round. Block hashes are fresh where the cache looks blocks
  up by hash (`PublishedBlockIsNext`, `AllNewHashes`).
- Where rounds have to rise, every pass of the worker starts at a safe round (`SafePlans`): above the tip, or stored and
  not about to be deleted by a prune under way. `OrderIsKeptExactly` shows that this is exactly what keeps the order.
  It holds if the caching backend's Start never lowers the counter (`SteadyHolds`), and also if it does so in time
  (`TimelyStartIsSafe`). Results without this requirement hold of all schedules.
- Quantities are unbounded and not negative; 64-bit sums do not wrap, except for the range size in
  `CachingBackend.GetLogs`, whose wrap-around is modelled. Floats are reals. A transaction with observed fees and zero gas
  (a division by zero at indexer/utils.go:399) counts as a block that cannot be converted.
- The repair worker starts on a store whose logs belong to stored successes of their own round (`Linked`), which every
  indexing and pruning step keeps; only the transaction index of a log may be wrong.
- Decoders (CBOR, RLP, contract output) are inputs: what they reject is a constructor of its own or a `None`.

## Findings

- The caching backend's counter of the last indexed round is written by `Start` without regard to newer rounds
  (indexer/backend_cache.go:616). It is behind the store exactly between a commit and its observer call, and after a stale
  write (`LastIndexedAgrees`). A stale write to an idle worker stops indexing until a restart: the worker tries the same
  stored round for ever (`StuckForever`; a run: `StaleStartHalts`).
- If a prune, committed or under way, has passed the round after the one that `Start` writes, an idle worker next plans an
  unsafe round (`LateStartIsUnsafe`, `LateStartUnderPruneIsUnsafe`), and every unsafe plan has a continuation in which a
  round is committed that is not above the tip (`UnsafePlanBreaksOrder`). In `LateStartRepeatsRound` and
  `PruneUnderWayRepeatsRound` one and the same block is indexed twice, with a later round between.
- The retained-round marker can promise too much: after a restart with a larger pruning step (`LargerStepBreaksMarker`; a
  run: `MarkerCanLie`), and with one and the same step after a stale write by `Start` (`StaleStartBreaksMarker`; a run:
  `StaleStartCanLie`). The exact condition is `MarkerTruthfulExactly`. A marker that never falls is truthful
  (`MarkerIsTruthful`), and it only falls if a restart raises the step or `Start` lowers the counter (`SteadyMarker`).
- A pruned round that is still cached is answered by eth_getLogs while the store has lost it, which the comment at
  indexer/backend_cache.go:184-187 accepts (a run: `CacheOutlivesStore`).
- A prune deletes rounds strictly below its bound (storage/psql/psql.go:198), while the comment at indexer/backend.go:92
  says otherwise; the model follows the code.
- The `tx_index` repair worker leaves mismatches exactly when all of them are in round 0, since 0 also stands for "none
  found" (`LogFixer.Fixer.Start`; a store: `LogFixer.RoundZeroIsLeft`).

## Model

| member | source | states |
|---|---|---|
| BlockConversion.ReadTx | indexer/utils.go:307-406 | Reading a transaction's events fails exactly on an undecodable event, a gas amount after a nonzero one, or fees without gas; otherwise it yields the logs of all EVM events in order, the gas and the native fees sent to the accumulator, each with the meaning given by `ContentsMean`, `GasMeans` and `FeesMean` |
| BlockConversion.ReadGas | indexer/utils.go:333-354 | One core event's entries are accepted exactly while every earlier amount of the transaction is zero, and the last amount counts |
| BlockConversion.ReadBlock | indexer/utils.go:264-407 | The decoding loop fails exactly on an unreadable item; it yields the Ethereum transactions in order, the block-wide numbered logs and the first median candidate |
| BlockConversion.Logs2EthLogs | indexer/utils.go:39-56 | The logs of one transaction, numbered from the given start under its own index |
| BlockConversion.GroupLogs | indexer/utils.go:72-99 | Under every hash, the logs of that hash in their order |
| BlockConversion.BlockRows | indexer/utils.go:146-232 | One transaction row and one receipt row per transaction, with a running gas sum, unless the address of a created contract cannot be read |
| BlockConversion.BlockToModels | indexer/utils.go:102-247 | One transaction row and one receipt row per transaction, each as specified from its own data, cumulative gas a prefix sum, the header's gas the total |
| BlockConversion.Convert | indexer/utils.go:250-422 | The conversion succeeds exactly on convertible blocks and yields their rows |
| BlockMeaning.GasMeans | indexer/utils.go:390-393 | The gas of a readable transaction is the nonzero amount that some core event reports, whichever event and entry it is in, and the gas limit if none reports one |
| BlockMeaning.OneGasAmountMeans | indexer/utils.go:343-351 | An amount is refused exactly if an earlier entry, of the same or of an earlier core event, reports a nonzero one |
| BlockMeaning.FeesMean | indexer/utils.go:357-383 | The observed fees are zero without events, add up over events and over the transfers of one, and count exactly the native transfers to the fee accumulator |
| BlockMeaning.ContentsMean | indexer/utils.go:320-331 | The logs are those of the EVM events, event by event and in their order, and nothing else |
| BlockMeaning.RowsMean | indexer/utils.go:146-232 | Every Ethereum item has, in order, one transaction row, one receipt and its logs: the status and identity of the item, the reported gas or the limit, fees divided by gas or the asking price, the address of a created contract, and its logs as one stretch |
| BlockMeaning.ConvertibleMeans | indexer/utils.go:264-407 | A block is refused exactly for an undecodable item or event, a second gas amount, fees without gas, or a created contract whose address cannot be read |
| BlockMeaning.BlockMeans | indexer/utils.go:284-294 | Header and emitted data carry the hash, round, gas limit and base fee of the block, and its median is the first price offered: by an Ethereum item from n/2 on, by another one already at n/2 - 1; none if no item offers one |
| BlockProperties.LogsNumbered | indexer/utils.go:386 | Log k of a block has index k, its own transaction's index and hash, and transactions appear in order |
| BlockProperties.HashSelectsSegment | indexer/utils.go:72-99 | Grouping by hash gives a transaction its own stretch of the block's logs if no other transaction of that hash has any |
| BlockProperties.ReceiptsSplitLogs | indexer/utils.go:146-232 | The logs of the successful receipts, concatenated, are the block's logs |
| BlockProperties.ObserversSeeAllLogs | indexer/backend_cache.go:489-498 | For distinct hashes the observers see all logs if and only if no failed transaction emitted one |
| BlockProperties.AllReceiptsSplitLogs | indexer/utils.go:146-232 | For distinct hashes all receipts together split the block's logs in order |
| BlockProperties.CumulativeGas | indexer/utils.go:203-232 | Cumulative gas grows by each receipt's own gas and ends at the header's gas used |
| BlockProperties.FeesConserved | indexer/utils.go:395-406 | Transferred fees minus effective price times gas is at least 0 and at most the sum of gas used minus one |
| BlockProperties.MedianOfEthBlock | indexer/utils.go:284-294 | In an all-Ethereum block the reported median is the price of the upper middle transaction |
| BlockProperties.MedianMissing | indexer/utils.go:267-294 | There is no median exactly if no item from the middle on offers a price |
| Tables.StoreRows | indexer/utils.go:429-461 | The write loop fails exactly if a success repeats a stored or earlier success; otherwise every hash ends up with the block's success, else the old row, else the block's first failure, and the upserted rows are the successes in order |
| Tables.Merge | storage/psql/psql.go:142-195 | The table after the writes answers every hash as StoredRow says |
| Tables.StoredRowStep | indexer/utils.go:430-460 | One row changes the entry of its own hash only: a success replaces, a failure fills a gap |
| IndexStore.IndexBackend.StoreBlockData | indexer/utils.go:424-538 | Succeeds exactly if the block converts, nothing is repeated and the database works; then all tables change together and the emitted data is what was upserted; otherwise nothing changes |
| IndexStore.IndexBackend.Prune | indexer/backend.go:165-185 | The marker is written first and outside the transaction; the deletes remove exactly the rows below the bound or nothing |
| IndexStore.IndexBackend.GetLogs | storage/psql/psql.go:347-358 | Exactly the rows of the range, each once, ordered by round, transaction index and index |
| IndexStore.ListingOrder | storage/psql/psql.go:347-358 | A listing is sorted by round, then by transaction index, then by index, and lies within the range |
| IndexStore.InsertLogs | storage/psql/psql.go:123-140 | Plain inserts succeed exactly on keys that are new to the table and among themselves |
| IndexStore.AddLogsMeans | indexer/utils.go:497-503 | Afterwards all new logs are there and no old one has changed |
| StoreProperties.MergeAligned | indexer/utils.go:426-495 | Writing a block keeps the transaction and receipt tables aligned: same hashes, status, round, block hash and index |
| StoreProperties.KeepAligned | indexer/backend.go:170-184 | So does pruning |
| StoreProperties.DuplicatesAligned | indexer/utils.go:463-495 | In aligned tables the receipt loop rejects exactly what the transaction loop rejects |
| StoreProperties.WritesRespectSuccess | indexer/utils.go:430-460 | A write never alters a stored success and replaces a failure only by a success |
| StoreProperties.RepeatIsRejected | indexer/utils.go:444-450 | A block that repeats a stored success is rejected |
| StoreProperties.SuccessIsStored | indexer/utils.go:453-459 | A success of an accepted block is the row stored under its hash |
| StoreProperties.StoredColumns | indexer/utils.go:505-515 | Storing a row or a block keeps all its columns |
| EmittedData.EmittedIsWellFormed | indexer/utils.go:533-538 | Emitted transactions and receipts are equally long, hash-aligned, distinct successes of the block, each receipt carries exactly the logs of its hash, and all logs are in block order |
| IndexerRuns.RoundsHold | indexer/indexer.go:215-321 | Invariant of every schedule of safe plans: rounds rise, gaps are justified, the counter is never ahead, the worker is at a new round or at one that is stored and stays so, blocks above the prune bound have their row |
| IndexerRuns.LiveHolds | db/migrations/20211213143752_initial.up.sql:17 | Invariant of every schedule: blocks that no committed prune has passed have their row, and no two of them the same round |
| IndexerRuns.OldRoundIsRejected | db/migrations/20211213143752_initial.up.sql:17 | A worker that the counter has led back to an indexed round is stopped by the unique index on rounds |
| IndexerRuns.RowsHold | indexer/utils.go:426-518 | Invariant of every schedule: aligned tables, every log belongs to a stored success and a committed block, and every block not below the highest committed prune bound is complete |
| IndexerRuns.CommitRetains | indexer/utils.go:426-518 | Committing a block leaves every earlier retained block complete |
| IndexerRuns.DeleteRetains | storage/psql/psql.go:197-200 | A prune leaves every block at or above its bound complete |
| RunTheorems.LastIndexedRises | indexer/utils.go:505-515 | History only grows, and the last indexed round strictly rises with each added block |
| RunTheorems.SkippedRoundsWereBelowFloor | indexer/indexer.go:226-262 | No round is indexed twice, and a round passed over lay below the node's last retained round, or the configured start, as read at a planning step before the block was committed |
| RunTheorems.FloorsWereRead | indexer/indexer.go:242-262 | The floor of every block is the nodeRetained of a planning step taken with no start configured, or the nonzero configured start of one, before the block was committed |
| RunTheorems.PlanMeans | indexer/indexer.go:226-292 | An idle worker starts at the lowest round that is above the last indexed one and not below the floor, and goes up to the highest the pass reaches; if there is none it waits, or is finished if an end is configured |
| RunTheorems.PassMeans | indexer/indexer.go:293-321 | A pass goes on round by round up to its end, and a failed attempt ends it |
| RunTheorems.PruneMeans | indexer/indexer.go:178-212 | The pruner asks for the rounds more than the step below the last indexed one; marker and deletes are two steps, and a failure of either ends it |
| RunTheorems.StoredExactlyAboveDeleted | indexer/backend.go:165-185 | A committed block is complete from the highest committed prune bound on, and below it its header is gone as long as rounds rise |
| RunTheorems.PrunedHolds | indexer/backend.go:165-185 | In every schedule of safe plans no table, logs and receipts included, holds a row below the highest committed prune bound |
| RunTheorems.TablesAligned | indexer/utils.go:426-495 | Over every run both tables have the same hashes with the same status, round, block hash and index |
| RunTheorems.StepFate | indexer/utils.go:430-460 | Any step leaves a row alone, replaces a failure by a success, or prunes it |
| RunTheorems.SuccessIsFinal | indexer/utils.go:444-450 | A stored success that no committed prune has passed, transaction or receipt, is still there unaltered at every later point |
| RunTheorems.RejectedOnlyForDuplicates | indexer/utils.go:426-518 | In reachable states a convertible block with a fresh hash is rejected, database faults aside, exactly for an old round or a repeated success; receipts, logs and the block row never clash on their own |
| IndexedCounter.LastIndexedAgrees | indexer/backend_cache.go:219-231 | The caching backend's last indexed round is the store's except exactly from a commit to its observer call (if the counter is not zero) and from a stale write by Start to the next observer call or restart |
| RoundOrder.UnsafePlanBreaksOrder | indexer/indexer.go:226-262 | Every unsafe plan has a continuation, by the prune under way and one attempt, that commits a round which is not above the tip |
| RoundOrder.OrderIsKeptExactly | indexer/indexer.go:226-262 | After safe plans a further step keeps the order of rounds in all continuations if and only if it does not plan an unsafe round |
| RoundOrder.LateStartIsUnsafe | indexer/backend_cache.go:616 | A write by Start makes the next plan unsafe if a committed prune has passed the round after it |
| RoundOrder.LateStartUnderPruneIsUnsafe | indexer/backend_cache.go:616 | The same for a prune under way |
| RoundOrder.LateStartRepeatsRound | indexer/backend_cache.go:616 | A concrete run in which the same block is indexed twice after a committed prune |
| RoundOrder.PruneUnderWayRepeatsRound | indexer/backend_cache.go:616 | A concrete run in which the planned round is stored and deleted before the attempt |
| IndexedCounter.SteadyHolds | indexer/backend_cache.go:612-618 | A counter that Start never lowers makes all plans safe, and is behind only until the observer is called |
| IndexedCounter.TimelyStartIsSafe | indexer/backend_cache.go:612-618 | So does a Start that writes, stale or not, before a prune passes the next round, while the node's retained round does not fall |
| IndexedCounter.StuckForever | indexer/indexer.go:215-321 | A counter below the tip whose next round is stored stops indexing for good, whatever happens short of a restart or of the node giving up that round |
| IndexedCounter.StaleStartIsStuck | indexer/backend_cache.go:616 | Start brings this about by writing less than the last round while the worker is idle and no prune has passed the next one |
| IndexedCounter.StaleStartHalts | indexer/backend_cache.go:616 | A concrete run in which it happens |
| RetainedMarker.MarkerTruthfulExactly | indexer/backend.go:165-185 | The marker is truthful if and only if no indexed round lies from it up to the highest committed prune bound |
| RetainedMarker.MarkerIsTruthful | indexer/backend.go:252-259 | A marker that never falls is truthful, also after deletes that rolled back |
| RetainedMarker.SteadyMarker | indexer/indexer.go:189-200 | The marker never falls unless a restart raises the pruning step or Start lowers the counter |
| RetainedMarker.LargerStepBreaksMarker | indexer/indexer.go:198-200 | A restart whose larger step reaches a deleted round makes the next marker untruthful |
| RetainedMarker.StaleStartBreaksMarker | indexer/backend_cache.go:616 | So does a write by Start that is that low, with an unchanged step |
| RetainedMarker.MarkerCanLie | indexer/indexer.go:198-200 | A concrete run with a larger step |
| RetainedMarker.StaleStartCanLie | indexer/backend_cache.go:616 | A concrete run with one step |
| Cache.CachingBackend.constructor | indexer/backend_cache.go:632-654 | An empty cache with the configured or default capacity |
| Cache.CachingBackend.OnBlockIndexed | indexer/backend_cache.go:126-162 | The five maps and the counter then stand for exactly the most recent blocks shown, at most the capacity, and the last indexed round is the maximum |
| Cache.CachingBackend.EvictExcess | indexer/backend_cache.go:146-161 | Lowest rounds go first, until the capacity is met |
| Cache.CachingBackend.PruneCache | indexer/backend_cache.go:420-461 | Evicting the oldest block leaves exactly the maps of the remaining blocks |
| Cache.CachingBackend.QueryTransaction | indexer/backend_cache.go:259-271 | The row a newest-to-oldest scan of the cached blocks finds, else the store's |
| Cache.CachingBackend.CachedReceipt | indexer/backend_cache.go:571-586 | The receipt such a scan finds |
| Cache.CachingBackend.GetLogs | indexer/backend_cache.go:376-410 | Answered from the cache exactly if the 64-bit size is below the capacity, the range is not empty and all its rounds are cached; then the concatenation of their logs, else the store's listing |
| Cache.CachedLogs | indexer/backend_cache.go:389-398 | The lookup loop succeeds exactly on a nonempty, fully cached range |
| Cache.CacheRows | indexer/backend_cache.go:463-487 | Caching a block's rows gives the table of newest entries with that block added |
| Cache.DropRows | indexer/backend_cache.go:432-452 | Dropping the oldest block's rows gives the table of newest entries without it; entries taken over by newer blocks stay |
| Cache.EvictOldest | indexer/backend_cache.go:432-452 | Without the oldest block a scan loses exactly the entries that came from it |
| Cache.NewestMeans | indexer/backend_cache.go:463-487 | Every entry belongs to a row of a cached block, and no newer cached block has that hash |
| Cache.EveryRowHasEntry | indexer/backend_cache.go:463-487 | Every row of a cached block has an entry, of its block or of a newer one |
| Cache.BlockMapSize | indexer/backend_cache.go:136 | The block map has as many entries as there are cached blocks, which is what the counter says |
| CacheRefinement.PublishedBlockIsNext | indexer/utils.go:540-543 | Every block that a run hands to the observer meets what the cache demands of the next block |
| CacheRefinement.NotifyShowsBlock | indexer/utils.go:540-543 | The observer call adds exactly that block to what the cache has been shown |
| CacheRefinement.CachedTxIsStored | indexer/backend_cache.go:259-271 | Over every run a cached transaction is the store's row of its hash if its round is not below the highest committed prune bound, and only if as long as rounds rise |
| CacheRefinement.CachedReceiptIsStored | indexer/backend_cache.go:350-358 | The same for a receipt, whose logs are then exactly those the stored receipt joins, each once and by index |
| CacheRefinement.CachedBlockIsStored | indexer/backend_cache.go:273-299 | The same for a header |
| BlockTransactions.TxsHold | indexer/utils.go:430-460 | Invariant of every schedule: every stored transaction row is in the list of a committed block, and every transaction of a retained block is stored unless its hash occurs elsewhere |
| BlockTransactions.CachedTransactionsAreJoined | storage/psql/psql.go:286-294 | The store joins to a retained cached block exactly those of its transactions that own the row of their hash, among them all whose hash occurs once |
| ServiceProcess.Process.Do | indexer/indexer.go:178-321 | Each step of the service, done on the objects, keeps store, counter, worker, pruner and cache in agreement with the step system |
| ServiceProcess.Execute | indexer/indexer.go:178-321 | Any schedule of safe plans and fresh committed hashes, retries included, carried out by a process ends in the state of the step system, with a cache that holds exactly what its observer has been shown |
| CacheRefinement.RoundListing | indexer/backend_cache.go:489-498 | The logs of a retained block are the store's ordered listing of its round |
| CacheRefinement.CachedRangeIsStoreRange | indexer/backend_cache.go:376-410 | A retained range answered from the cache is any listing the database could return, as a sequence |
| EpochParameters.Service.IndexBlock | indexer/indexer.go:75-119 | One attempt changes flag, parameters and runtime info as specified, whichever call fails |
| EpochParameters.FlagMeans | indexer/indexer.go:75-119 | The flag is up exactly from an indexed epoch transition to the next indexed normal block or restart |
| EpochParameters.UsedMeans | indexer/indexer.go:75-119 | An attempt stores its block exactly if every call it makes succeeds, with the parameters at hand, or with fresh ones if something is missing or the flag is up |
| EpochParameters.ParametersPostdateEpochs | indexer/indexer.go:81-96 | In every run a block is stored with parameters fetched strictly after every epoch-transition block indexed before it |
| EpochParameters.EveryBlockUsesItsParameters | indexer/indexer.go:108-116 | If no round is skipped and parameters change only after epoch transitions, every block is stored with the parameters of its own round |
| GasOracle.GasPriceOracle.constructor | gas/backend.go:116-159 | A zeroed window with configured or default values |
| GasOracle.GasPriceOracle.OnBlock | gas/backend.go:244-262 | After any blocks the computed price is the maximum of the last windowSize tracked prices, or none if that is zero; a block that is not full tracks 0 (`TrackedAppend`) |
| GasOracle.GasPriceOracle.ComputedPriceMeans | gas/backend.go:244-287 | If the full blocks among the last windowSize ones have medians, the computed price is the highest of these medians plus the margin, and there is none if none of these blocks is full |
| GasOracle.TrackedAppend | gas/backend.go:244-262 | A block that is not full adds a zero to the window, a full one its median plus the margin, or nothing if it has no median |
| GasOracle.FullMeans | gas/backend.go:247-250 | Full means at least the threshold share of the gas limit is used |
| GasOracle.GasPriceOracle.TrackPrice | gas/backend.go:264-287 | The ring after one more price, and the window's maximum |
| GasOracle.RingMax | gas/backend.go:268-274 | The maximum over the ring is the maximum of the last windowSize prices |
| GasOracle.GasPriceOracle.GasPrice | gas/backend.go:202-224 | At least the node's price and at least median plus margin of every full block still in the window; one of these, or the default if there is neither |
| GasOracle.WindowCovers | gas/backend.go:244-262 | The window's maximum covers every full block with a median that has not left it |
| FeeHistory.Rewards | gas/fee_history.go:42-71 | For percentiles in any order the scan equals separate searches for the running maximum of the thresholds |
| FeeHistory.Advance | gas/fee_history.go:62-65 | From the position of one threshold to that of the larger of two |
| FeeHistory.AscendingRewards | gas/fee_history.go:58-68 | For ascending percentiles each reward is that of an independent search, and rewards never fall |
| FeeHistory.ValidPercentiles | rpc/eth/api.go:332-343 | Accepts exactly short enough, strictly ascending lists within 0 and 100 |
| FeeHistory.SortStable | gas/fee_history.go:172-174 | A sorted, stable rearrangement |
| FeeHistory.BlockFeesOf | gas/fee_history.go:133-174 | The block's figures and its transactions' gas and capped tips, sorted by reward, each once |
| FeeHistory.SlotsAreFilled | gas/fee_history.go:153-171 | Every stored block meets the demand of trackFeeHistory, and each slot is filled from a transaction and the receipt of that same transaction |
| FeeHistory.FeeTracker.TrackFeeHistory | gas/fee_history.go:176-184 | The history is that of the last feeHistorySize blocks |
| FeeHistory.FeeTracker.FeeHistory | gas/fee_history.go:74-131 | Exactly the contiguous min(blockCount, available) entries that end at the requested block, or the empty answer; which block that is says `AnswerMeans` |
| FeeHistory.RequestFeeHistory | rpc/eth/api.go:321-346 | The whole request: empty for no blocks, an error exactly for bad percentiles, otherwise those entries with one independent reward per percentile, never falling |
| FeeMeaning.AnswerMeans | gas/fee_history.go:74-131 | The answer is empty exactly for an empty history, for earliest, or for a height that no entry has; otherwise it reports the last min(blockCount, available) entries up to the newest one, or up to one of the height asked for, with their base fees, ratios and rewards |
| FeeMeaning.TrackerMeans | gas/fee_history.go:133-184 | The entries are records of the last feeHistorySize blocks tracked, the newest at the end: height, gas, base fee, ratio, and every transaction once with its receipt gas and the smaller of its two caps, sorted by reward |
| FeeMeaning.RewardMeans | gas/fee_history.go:42-71 | A reward is that of the first transaction at which the gas summed up so far reaches the percentile of the gas used, rounded down, or of the last one; 0 without transactions |
| FeeMeaning.ThresholdMeans | gas/fee_history.go:58-61 | A threshold is the percentile of the gas used, rounded down |
| FeeMeaning.AcceptableMeans | rpc/eth/api.go:332-343 | Percentiles are acceptable exactly if there are at most a hundred, each is within 0 and 100, and each is above its predecessor |
| Migrator.SortAsc | db/migrator/migration.go:142-146 | The same names in ascending order, which is that of strings (`LessMeans`) |
| Migrator.LessMeans | db/migrator/migration.go:142-146 | A name is smaller exactly if at some place up to which both agree it ends first or has the smaller character |
| Migrator.NextAndLast | db/migrator/migration.go:112-134 | On an applied prefix the first unapplied migration is the next name and the first applied one the last of the prefix |
| Migrator.Database.Migrate | db/migrator/migrator.go:59-99 | Applies the missing suffix in order up to the first failure, and terminates |
| Migrator.AppliedIsPrefix | db/migrator/migrator.go:59-133 | For any concurrent callers and aborts the applied set is a prefix of the sorted list and the net effect of the committed runs |
| Migrator.EachUpRunsOnce | db/migrator/migrator.go:59-99 | Without committed rollbacks each Up commits exactly once, in ascending order |
| Migrator.MigrateMakesProgress | db/migrator/migrator.go:64-96 | A committed Migrate transaction lowers the unapplied count by one, or there were none and the loop stops |
| Migrator.LockIsExclusive | db/migrator/migrator.go:174-180 | At most one transaction is past the table lock |
| LogsMigration.Renumber | db/migrations/20220109122505_logs.up.go:184-194 | Row k gets the number of earlier fetched rows of its round |
| LogsMigration.InsertRows | db/migrations/20220109122505_logs.up.go:125-128 | The insert fails exactly on a repeated key |
| LogsMigration.DistinctKeysMean | db/migrations/20220109122505_logs.up.go:125-128 | No key is repeated exactly if there are as many pairs of transaction hash and index as rows |
| LogsMigration.StripMeans | db/migrations/20220109122505_logs.up.go:184-194 | Rows are the same but for the rewritten index exactly if all other columns agree |
| LogsMigration.NoClash | db/migrations/20220109122505_logs.up.go:184-201 | If every hash occurs in one round, the renumbered rows clash with nothing |
| LogsMigration.MigrateBatch | db/migrations/20220109122505_logs.up.go:166-201 | A batch numbers each of its rounds from zero, keeps all other columns as a multiset and all other rounds untouched |
| LogsMigration.LogsUp | db/migrations/20220109122505_logs.up.go:148-208 | The batches tile the range from first to last round with the same three guarantees; it cannot fail if every hash occurs in one round, and a failure changes nothing |
| LogFixer.FixRangeExactly | worker/log_tx_index_fixer.go:129-150 | A batch repairs exactly the mismatches of its rounds, gives every log of these rounds the index of its transaction row, and touches nothing else |
| LogFixer.IndexingIsHarmless | indexer/utils.go:386 | Indexing a block beside the worker adds no mismatch |
| LogFixer.PruningIsHarmless | indexer/backend.go:165-185 | Neither does pruning |
| LogFixer.ServiceLeavesNone | indexer/utils.go:386 | A store built by this indexer alone never has a mismatch |
| LogFixer.Fixer.FindHighestMismatchedRound | worker/log_tx_index_fixer.go:102-126 | An upper bound of the mismatched rounds that is attained unless it is 0 |
| LogFixer.Fixer.FixBatch | worker/log_tx_index_fixer.go:129-150 | After a batch all remaining mismatches lie below it |
| LogFixer.Fixer.Start | worker/log_tx_index_fixer.go:40-99 | It has ended after highest / batch size + 1 successful batches, however many fail in between; when it ends by itself, with retries and concurrent indexing and pruning, mismatches remain if and only if there were some at the start and all in round 0 |
| LogFixer.RoundZeroIsLeft | worker/log_tx_index_fixer.go:49-52 | A concrete store on which it reports success and leaves a mismatch |
| LogCodec.EncodeRoundTrip | indexer/utils.go:80-88 | Hexadecimal text of any casing decodes to its bytes |
| LogCodec.EncodeMeans | indexer/utils.go:80-88 | Byte i is written at places 2i and 2i + 1, the high digit first |
| LogCodec.DecodeMeans | rpc/utils/utils.go:118-144 | Decoding takes the pairs of digits up to the first place that has none, the high digit first |
| LogCodec.FromHexMeans | rpc/utils/utils.go:118-144 | A prefix does not count, and an odd number of digits gets a zero in front |
| LogCodec.FitMeans | rpc/utils/utils.go:118-144 | Hashes and addresses are aligned on the right: cut or filled with zeros on the left |
| LogCodec.ColumnsMean | indexer/utils.go:72-99 | Every column of a stored log is that field of the log: numbers as they are, hashes, topics and data as lower-case digits |
| LogCodec.AddressRoundTrip | rpc/utils/utils.go:129 | So does a prefixed address in mixed case |
| LogCodec.LogsRoundTrip | rpc/utils/utils.go:118-144 | To database form and back is the identity on every list of logs |
| LogCodec.EthToModelLogs | indexer/utils.go:72-99 | The conversion loop yields the database form of every log, in order |
| LogCodec.DB2EthLogs | rpc/utils/utils.go:118-144 | The reverse loop yields the binary form of every row, in order |
| LogFilters.UtilsTopicsMatch | rpc/utils/utils.go:187-213 | Matches exactly the prefix patterns of EIP-1474 |
| LogFilters.TopicsMatchMeans | rpc/utils/utils.go:187-213 | The empty filter matches, and one more position asks for one more topic, which is any or one of its alternatives |
| LogFilters.MatchesMeans | filters/event_system.go:199-225 | A log matches exactly if its address is listed, or none is, and its topics match |
| LogFilters.BoundsMean | filters/event_system.go:199-225 | A bound counts only if it is given and not negative, and both bounds are inclusive |
| LogFilters.FilterLogs | filters/event_system.go:199-225 | Exactly the logs within the given bounds that match, in order |
| LogFilters.MatchingLogs | rpc/eth/api.go:709-729 | The loop of eth_getLogs selects the same logs |
| LogFilters.GetLogs | rpc/eth/api.go:676-733 | Refused exactly for a reversed or too long range; otherwise the matching logs of the caching backend's answer, with or without the early return |
| LogFilters.NothingAsked | rpc/eth/api.go:704-707 | The early return returns what filtering would |
| PullAndPush.PullIsBoundedFilter | rpc/eth/api.go:685-732 | Over every run eth_getLogs for a range equals the subscription filter with these bounds over all stored logs if and only if it is not the case that the cache answers and still has a matching log of a pruned round; so always for a range no prune has reached |
| PullAndPush.CacheOutlivesStore | indexer/backend_cache.go:180-189 | A concrete run in which the two differ |
| PullAndPush.PushedIsPulled | filters/event_system.go:229-237 | Filtering retained blocks one by one gives, put together, the answer of eth_getLogs for their range, cached or not |
| ChainEvents.EventsAreHistory | indexer/utils.go:520-531 | In every run of indexer and event loop the events taken and waiting are those of the blocks committed since the restart, in order and each once, but for the lost ones, and exactly all of these if and only if none was lost |
| ChainEvents.OfferMeans | indexer/utils.go:520-531 | A chain event is accepted exactly if an event system is attached and fewer than ten events are waiting, and lost otherwise |
| ChainEvents.HeadersRise | filters/event_system.go:239-245 | A head subscriber sees strictly rising rounds at every point of every run of safe plans, dropped events or not |
| ChainEvents.SubscriberSawTheAnswer | filters/event_system.go:229-275 | Through indexer, store, cache, event loop and both filters: a log subscriber has been sent exactly what eth_getLogs answers for the blocks from the first to the last event taken since its installation, if none of their events was dropped and no prune has passed them |
| EventSystem.InvHolds | filters/event_system.go:247-275 | Invariant of every interleaving: the index holds exactly the installed subscriptions, and each has been sent exactly what it was due |
| EventSystem.DeliveryIsExact | filters/event_system.go:229-245 | Back at its select the loop has sent every subscription exactly what the events since its installation call for, in order |
| EventSystem.ExpectedMeans | filters/event_system.go:229-245 | A head subscription is sent every round; a log subscription one batch of exactly the logs it asks for, or nothing if there are none |
| EventSystem.SentHeadersRise | filters/event_system.go:239-245 | The headers sent to a subscriber rise if those of the events taken do |
| EventSystem.NothingAfterReturn | filters/event_system.go:103-125 | Once Unsubscribe has returned nothing more is sent, whatever follows |
| EventSystem.PendingSendIsEnabled | filters/event_system.go:105-118 | A pending send always finds its client at a receive, be it reading or draining, and can take place |
| EventSystem.LoopAlwaysMoves | filters/event_system.go:229-275 | Away from its select the loop always has a step that moves it |

## Left out

- The last retained round kept by the cache: nothing in the repository calls `OnLastRetainedRound`, and the
  compare-and-swap loop at indexer/backend_cache.go:242-253 does not reload after a failed swap.
- CacheRefinement.CachedBlockIsStored: compares the columns of a block, because its transaction list is not one of them;
  `CachedTransactionsAreJoined` says how the lists compare.
- CacheRefinement.CachedReceiptIsStored: says that the cached logs are the joined rows, each once and by index, but not in
  which order the database joins them, because that query has no ORDER BY.
- Readers in the middle of `OnBlockIndexed`: the observer call changes the maps and the counter in one step.
- EpochParameters.EveryBlockUsesItsParameters: does not cover skipped rounds, because a skipped epoch transition leaves
  the flag down and the old parameters in use.
- LogsMigration.MigrateBatch: gives one round per hash as a sufficient condition for success, because for other
  tables success depends on the order of rows within a round, which the query leaves open.
- Errors of text parsing in `trackFeeHistory` (base fee, fee cap, tip): such a block is not tracked; the model's columns
  are numbers.
- The gas-used ratio as a float, and float rounding of percentile thresholds and of the full-block test.
- Resolution of block tags and block hashes in front of `eth_getLogs`, the range check of `SubscribeLogs`, the archive
  client, and database errors of `eth_getLogs`.
- A database error of the repair worker's first query: it returns the error before it changes anything.
- The end of the event loop when its chain subscription closes.
- CBOR, RLP, Keccak, bloom filters, signatures and EIP-55 checksums: foreign code; an address may have any casing here.
- Timeouts, metrics, health reporting, logging, configuration files, the HTTP and WebSocket servers, the remaining RPC
  methods and the Pebble memoisation: plumbing or easy.
