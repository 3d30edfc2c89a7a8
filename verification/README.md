# Verified models of Prysm's concurrent and resumable core

This project models the parts of the Prysm beacon node in which state is shared, resumed or
cached, and proves what they promise over every run.

- **Multilock** (`Multilock*.dfy`): the string-keyed lock of `async/multilock.go`, as a state
  machine whose steps are the statements between two synchronisation points of any number of
  goroutines. Channels, the global registry, the registry mutex, `Lock`, `Unlock` and `Clean` are
  explicit. Safety holds on every interleaving. Progress holds for clients that take no second
  lock while they hold one, which is the discipline the sorted key lists are made for.
- **Light client store** (`LightClient*.dfy`): the order on updates, the cache as a linked heap
  structure with parent pointers, and saving, answering and migrating to the database, each as a method
  on the heap and a function on values.
- **Blob and data column waiting** (`BlobNotifier.dfy`, `BlobWaiting.dfy`,
  `DataColumnWaiting.dfy`): the notifier registry, the goroutines that save and announce, and the
  calls that wait. Cancellation and timeouts are steps that may abort a wait at any time.
- **Deposit scan** (`DepositLogs.dfy`, `DepositSync.dfy`): batched, halving, overlapping and
  resumable processing of the deposit contract's logs. The execution client, the disk and the
  caches are an oracle that may fail at any operation.
- **Block by timestamp** (`Eth1Search.dfy`, `Eth1Estimate.dfy`): the estimate-and-walk search, with uint64 wrap-around.
- **Terminal block** (`TerminalBlock.dfy`): the search for the merge's terminal block and its
  validation.
- **Attestation cache** (`AttestationVotes.dfy`, `AttestationCache.dfy`): objects whose bits and
  signatures are overwritten in place, and compaction of a list in place. A signature is the
  multiset of the positions it aggregates.
- **Square root** (`SquareRoot.dfy`), **genesis file name** (`GenesisName.dfy`) and **blinded block
  reconstruction** (`PayloadRanges.dfy`, `PayloadBodies.dfy`).

`Options.dfy`, `Sequences.dfy` and `Totals.dfy` are shared helpers. Where the source is imperative the model is a
class or a method with loops, proved against functions on values; the lemmas about those functions
state the properties. Protocols are state machines with `Enabled` and `Apply`.

Some promises do not hold of the code on all inputs. For each there is an input on which it fails,
and a statement of exactly when it holds:

- **Migration.** A head on the finalized chain can be told a worse update after a migration than
  before, if a second save of a block has replaced the entry that its child hangs off
  (`LightClientStore.ReplacedEntryNoticed`). The answers for a head are unchanged if and only if every
  period that its cut branch no longer has is in the database as the branch had it, or is new to
  neither (`LightClientCache.MigrationExact`). All heads on the finalized chain along current entries
  are among them.
- **Saving after a migration.** A block whose parent has been migrated can get another best update
  than it would have had before (`LightClientStore.DeeperParentNoticed`).
  `LightClientStore.SaveAfterMigration` says exactly when it does not;
  for a parent on the finalized branch the newest entry of the period decides, not the parent's.
- **Deposits.** A deposit is counted before it is hashed and inserted. If that fails it is skipped when
  it is delivered again (`DepositLogs.LostDeposit`), and nothing is inserted any more. The trie stays a
  prefix of the contract's deposits if and only if that never happens (`DepositLogs.PrefixExactly`).
- **Past logs.** With a batch limit of zero and blocks to scan, any number of rounds leaves the cursor
  where it was, and only a failure ends the loop (`DepositSync.Service.ZeroLimitRounds`); with any other
  limit the scan ends (`DepositSync.Service.ProcessPastLogs`).
- **Data columns.** The threshold of columns can be stored without the waiting call succeeding, since
  columns outside the custody set that are saved after the first count are never counted
  (`DataColumnWaiting.UncountedColumn`). `DataColumnWaiting.SucceedsExactly` says exactly which stored
  columns suffice.
- **Square root.** The root of 2^64-1 asked for directly after the root of 1, 2 or 3 divides by zero
  (`SquareRoot.FatalHistory`), and after that the cache is broken for good. `SquareRoot.ResultsExactly`
  gives every result of every history.
- **Genesis file name.** A printed name parses again if and only if the time is not negative
  (`GenesisName.RoundTrip`, `GenesisName.NegativeTimeDoesNotParse`); `GenesisName.ParsesExactly` says
  which names parse to what.
- **Attestation signatures.** A merged single vote keeps the running aggregate's signature and bits in
  step if and only if the aggregate's bit list is long enough for its position
  (`AttestationVotes.MergeInStep`, `AttestationVotes.MergeOutOfStep`).

The comparison of updates is a strict weak order for committees with the same supermajority threshold.
Updates of two committees can each beat the other if and only if the thresholds differ
(`LightClientUpdates.MutuallyBetterExactly`). In the node all sync committee bits are vectors of 512
bits, so this does not arise.

## Model

| member | source | states |
|---|---|---|
| `MultilockKeys.NewMultilock` | async/multilock.go:78-90 | No value for an empty list; otherwise a strictly sorted list of exactly the given keys. |
| `MultilockKeys.Unique` | async/multilock.go:127-141 | The result is duplicate free, keeps the order of first occurrences, and has the same elements. |
| `MultilockKeys.GreatestKey` | async/multilock.go:78-90 | Any non-empty set of contended keys has a greatest one in the order that the key lists are sorted by; deadlock freedom rests on it. |
| `MultilockSafety.StepKeepsInv` | async/multilock.go:37-124 | Every statement of every goroutine, in every state, keeps the invariant that ties channels, tokens, holders, the registry and the mutex together. |
| `MultilockSafety.RunKeepsInv` | async/multilock.go:37-124 | The invariant holds after every run. |
| `MultilockSafety.MutualExclusion` | async/multilock.go:37-52 | In every reachable state, two different Lock values never hold the same key. |
| `MultilockSafety.LockedMeansHeld` | async/multilock.go:37-52 | Once Lock has returned and until Unlock starts, each key of the list is held through the channel that is registered for it, which is open and empty. |
| `MultilockSafety.TokenConservation` | async/multilock.go:93-124 | A registered open channel has exactly one token, which is in it, with one Lock value, or just taken by the sweep; an unregistered or closed channel is closed, empty and held by nobody. |
| `MultilockSafety.SendsNeverFail` | async/multilock.go:50-68 | No goroutine is ever about to send on a closed or full channel, or to close a closed one. |
| `MultilockSafety.PendingKept` | async/multilock.go:56-68 | While something is locked or is being unlocked, a sweep that will see it is still to come; only the first statement of that sweep ends this. |
| `MultilockSafety.RegistryReclaimed` | async/multilock.go:56-112 | When no call is in progress and nothing is held, the registry is empty, the mutex free and every Lock value unlocked, in whatever order the Unlocks ran. |
| `MultilockProgress.StepKeepsDiscipline` | async/multilock.go:37-68 | Clients that take no second lock while holding one, and unlock only their own, stay so over every step. |
| `MultilockProgress.BlockedByLater` | async/multilock.go:42-49 | Whoever holds the key a goroutine waits for either can act or waits for a strictly greater key. |
| `MultilockProgress.SomeoneAhead` | async/multilock.go:42-49 | The goroutine that waits for the greatest contended key waits for someone who can act. |
| `MultilockProgress.Progress` | async/multilock.go:37-112 | In every disciplined state that is not quiescent some pending call can take a step or some holder can unlock. |
| `MultilockProgress.DeadlockFree` | async/multilock.go:37-112 | No disciplined run from an initial state reaches a deadlock. |
| `MultilockProgress.DrainingLowers` | async/multilock.go:37-112 | Every statement other than a new call to Lock or Clean lowers a four-part rank. |
| `MultilockProgress.CallsCanFinish` | async/multilock.go:37-112 | From every disciplined state there is a schedule after which all calls have returned, nothing is locked and the registry is empty. |
| `MultilockProgress.NoEndlessDrain` | async/multilock.go:37-112 | There is no infinite run without new calls, however the goroutines are scheduled. |
| `MultilockCalls.LockReturnsHolding` | async/multilock.go:37-52 | Over every disciplined run, a goroutine that is out of its call to Lock holds the value, and each key of its list through the channel that is registered for it. |
| `MultilockCalls.UnlockReturnsTokens` | async/multilock.go:56-68 | Over every disciplined run, a goroutine that is out of its call to Unlock does not hold the value; during the call the value has been free and empty, and each channel it had taken has had its token back. |
| `MultilockCalls.CleanRemovesFree` | async/multilock.go:93-112 | Over every run, when a call to Clean is over, each key whose token no Lock value had while it ran has been out of the registry. |
| `LightClientUpdates.BetterIsLexicographic` | beacon-chain/light-client/lightclient.go:594-674 | For committees with the same supermajority threshold, in particular of the same size, the eight-stage comparison is the lexicographic order of one composite key, which is given in terms of the update's fields: participants, branches, and slots divided by 8192. |
| `LightClientUpdates.PeriodIsRange` | time/slots/slottime.go:252-254 | A sync committee period is the 8192 slots from p * 8192 on. |
| `LightClientUpdates.PeriodsDecide` | beacon-chain/light-client/lightclient.go:616-661 | With participation undecided, a sync committee branch signed in its own period decides; then a finality branch; then a finalized block in the attested period. |
| `LightClientUpdates.BetterIsStrictWeakOrder` | beacon-chain/light-client/lightclient.go:594-674 | It is irreflexive, asymmetric and transitive, and ties are transitive. |
| `LightClientUpdates.TiesHaveEqualQuality` | beacon-chain/light-client/lightclient.go:594-674 | Two updates tie exactly when their composite keys are equal. |
| `LightClientUpdates.MutuallyBetterExactly` | beacon-chain/light-client/lightclient.go:594-674 | Updates of committees of sizes m and n, with at most as many participants, can each be better than the other if and only if the least supermajorities of m and n differ. |
| `LightClientUpdates.FinalityTestsAreLexicographic` | beacon-chain/light-client/lightclient.go:751-808 | The finality comparison and the broadcast test are lexicographic orders: the one on finalized, attested and signature slot, the other on finalized slot and supermajority. |
| `LightClientUpdates.FinalityTestsAreStrictWeakOrders` | beacon-chain/light-client/lightclient.go:759-808 | Both are irreflexive, asymmetric and transitive, with transitive ties. |
| `LightClientBranches.FirstPerPeriodIsNewest` | beacon-chain/light-client/store.go:236-255 | The update kept for a period is that of the newest entry of the period on the branch. |
| `LightClientBranches.ContiguousIsFirstRun` | beacon-chain/light-client/store.go:207-221 | Element i of an answer is the update of period start + i, and the answer stops at the end or before the first period without an update. |
| `LightClientBranches.MigrationInvisible` | beacon-chain/light-client/store.go:315-371 | Moving the older part of a branch to the database and cutting the branch anywhere behind its newer part changes no answer. |
| `LightClientBranches.MigrationNoticed` | beacon-chain/light-client/store.go:315-371 | For any branch, any updates saved and any cut, all answers are unchanged if and only if no period shows the migration. |
| `LightClientBranches.SaveWithoutParent` | beacon-chain/light-client/store.go:85-127 | A save with the parent's entry and one with the database in its place give the same best update if and only if the stated condition on the two holds, at a period boundary and within a period. |
| `LightClientBranches.NewestDecides` | beacon-chain/light-client/store.go:85-127 | If the database's entry is no worse than the parent's, the block gets the same best update exactly when it beats that entry, or that entry is the parent's or the block's own. |
| `LightClientBranches.PickKeepsOlder` | beacon-chain/light-client/store.go:118-127 | An update replaces an older one exactly if it is strictly better. |
| `LightClientStore.Store.SaveLCData` | beacon-chain/light-client/store.go:79-149 | The whole new state: one new item linked to the parent's entry, with the better of the new and inherited updates; the last optimistic update changes exactly at a period boundary or for a later attested slot, the last finality update exactly for a head; nothing changes when the database read fails; slots keep growing along links if the block is later than its parent. |
| `LightClientCache.MaximumOnSave` | beacon-chain/light-client/store.go:79-136 | A new item's best update is a maximum of all updates its branch has seen in the period, the database's included. |
| `LightClientCache.FinalityOnSaveIsLatest` | beacon-chain/light-client/store.go:101-133 | A new item's finality update is its own at a period boundary or if there is no older one, and otherwise the later of the two by finalized, attested and signature slot, the older one on a tie. |
| `LightClientCache.BestOfBranch` | beacon-chain/light-client/store.go:79-136 | Walking back from any item, the update kept for a period is beaten by no update saved on the branch in that period, nor by the database's at the time the branch started. |
| `LightClientCache.SeenGrows` | beacon-chain/light-client/store.go:79-136 | Within a period an item knows of every update its ancestors knew. |
| `LightClientCache.WithItemOk` | beacon-chain/light-client/store.go:79-136 | A new item keeps every branch finite, every best update a maximum of what its branch has seen, and slots growing along links. |
| `LightClientStore.Store.CacheUpdatesByPeriod` | beacon-chain/light-client/store.go:236-255 | The walk over parent pointers ends and yields the newest entry per period. |
| `LightClientStore.Store.LightClientUpdates` | beacon-chain/light-client/store.go:191-222 | The answer is the first contiguous run of the database overlaid by the head's branch; an inverted range is an error. |
| `LightClientStore.Store.CleanCache` | beacon-chain/light-client/store.go:373-383 | The cache is the specified cleaned one, in whatever order the map is gone through. |
| `LightClientCache.CleanedOk` | beacon-chain/light-client/store.go:373-383 | Cleaning keeps the invariant of the cache and slots growing along links. |
| `LightClientCleaning.CleanedIsYoung` | beacon-chain/light-client/store.go:373-383 | Exactly the entries not older than the slot are left, and a branch of current entries has no older item any more. |
| `LightClientCache.CutPath` | beacon-chain/light-client/store.go:373-383 | Cutting leaves a prefix of every branch that contains its part not older than the slot. |
| `LightClientStore.Store.MigrateToCold` | beacon-chain/light-client/store.go:315-371 | The new database, map and links; exactly the heads for which no period shows the migration get the same answer for every range as before, whatever saves fail; and, when none fails, all heads on the finalized chain do. |
| `LightClientCache.MigrationExact` | beacon-chain/light-client/store.go:315-383 | For one head: all answers unchanged if and only if each period that the cut branch lacks is in the database as the branch had it, or is new to neither. |
| `LightClientCache.FinalizedChainUnaffected` | beacon-chain/light-client/store.go:315-383 | For a head on the finalized chain, along current entries, no answer changes. |
| `LightClientCache.DescendantSplits` | beacon-chain/light-client/store.go:315-371 | The branch of every such head is a part not older than the finalized block, followed by the branch that is saved. |
| `LightClientStore.ReplacedEntryNoticed` | beacon-chain/light-client/store.go:79-383 | From an empty store: three saves, the last one of the first block again, and a migration after which the same question on the finalized chain is answered with a worse update. |
| `LightClientStore.SaveAfterMigration` | beacon-chain/light-client/store.go:79-383 | MigrateToCold, then SaveLCData on a parent that has left the cache: the exact condition for the best update to be what it would have been before, for every parent; on the finalized branch, the newest entry of the period decides. |
| `LightClientStore.DeeperParentNoticed` | beacon-chain/light-client/store.go:79-383 | From an empty store: a block whose parent lies behind a better entry of its period gets its own update if it is saved at once, and that entry's if it is saved after the migration. |
| `LightClientCache.NewestOnBranchDecides` | beacon-chain/light-client/store.go:79-127 | For a parent at any place of the finalized branch, the condition in terms of the newest entry of its period. |
| `BlobNotifier.BlobNotifierMap.NotifyIndex` | beacon-chain/blockchain/service.go:117-145 | An announcement is sent exactly if the index is in bounds and was not announced for the root before; it goes to the root's channel, which stays if there was one; afterwards that index is seen in addition, and nothing changes for other roots. |
| `BlobNotifier.BlobNotifierMap.ForRoot` | beacon-chain/blockchain/service.go:147-157 | Returns the channel of the root, made only if there is none, and changes nothing for other roots. |
| `BlobNotifier.BlobNotifierMap.Delete` | beacon-chain/blockchain/service.go:159-164 | The root has no channel and no seen index any more, and nothing changes for other roots. |
| `BlobNotifier.AnnouncedOnce` | beacon-chain/blockchain/service.go:117-145 | In every sequence of announcements, of any roots and indices, only the first one of an index for a root can be sent. |
| `BlobNotifier.MissingBlobIndices` | beacon-chain/blockchain/process_block.go:607-623 | Exactly the committed indices not in the store; an error for more commitments than allowed. |
| `BlobWaiting.StepKeepsInv` | beacon-chain/blockchain/process_block.go:833-905 | Every step of every producer and waiter, in every order, keeps the invariant on disk, registry, channels and waiters. |
| `BlobWaiting.NoLostWakeup` | beacon-chain/blockchain/process_block.go:833-905 | Over every run, a block is declared available only with all committed blobs on disk and no more of them than allowed, and each index a waiter still misses is unsaved, saved with its announcement pending, or on its way in the waiter's own channel. |
| `BlobWaiting.SendNeverBlocks` | beacon-chain/blockchain/service.go:117-145 | The send at the end of an announcement always finds room. |
| `BlobWaiting.NextForWaiter` | beacon-chain/blockchain/process_block.go:889-905 | With all blobs on disk, a waiter's own next statement or an announcement for its root is enabled. |
| `BlobWaiting.WaiterCanFinish` | beacon-chain/blockchain/process_block.go:833-905 | With all blobs on disk, pending announcements and the waiter's own statements lead to success. |
| `BlobWaiting.HowCallsEnd` | beacon-chain/blockchain/process_block.go:833-905 | A call ends exactly if it is aborted, if the last blob it missed was announced, or if its first check finds too many commitments or nothing missing; without too many, it ends with the block available unless it is aborted; a finished wait leaves no channel and no seen index. |
| `BlobWaiting.CallsGoOn` | beacon-chain/blockchain/process_block.go:833-905 | Over every run, a call for a block without too many commitments that is not aborted goes on or has declared the block available. |
| `BlobWaiting.WaitsForMissing` | beacon-chain/blockchain/process_block.go:854-866 | With blobs missing, a call comes to wait on its root's registered channel for exactly the committed indices that are not on disk. |
| `BlobWaiting.BlobsMakeAvailable` | beacon-chain/blockchain/process_block.go:833-905 | Wherever a call is, the arrival of the missing blobs through one producer, its announcements and the call's own statements lead it to success. |
| `BlobWaiting.CoveredKept` | beacon-chain/blockchain/receive_blob.go:12-24 | Saving before announcing keeps each missed index covered over every step. |
| `DataColumnWaiting.ConsumeEvent` | beacon-chain/blockchain/process_block.go:788-815 | The loop over one event's indices computes the specified counter and missing set. |
| `DataColumnWaiting.MissingDataColumns` | beacon-chain/blockchain/process_block.go:630-653 | Exactly the expected columns not in the store; an error for more than exist. |
| `DataColumnWaiting.ConsumedSound` | beacon-chain/blockchain/process_block.go:788-815 | Whatever an event repeats, the counter counts distinct stored columns once each, and success means the threshold or all custody columns. |
| `DataColumnWaiting.StepKeepsInv` | beacon-chain/blockchain/process_block.go:732-815 | Every step of savers of any root, the shared feed and the waiting call keeps the invariant. |
| `DataColumnWaiting.ColumnWaitingSound` | beacon-chain/blockchain/process_block.go:732-815 | Over every run, success implies that the reconstruction threshold or all custody columns are stored, the counter never exceeds the distinct stored columns, and the event of every stored column still missed is on its way. |
| `DataColumnWaiting.ColumnsCanFinish` | beacon-chain/blockchain/process_block.go:732-815 | Once what is saved suffices, the call's own statements and the events on their way lead it to success wherever it is, also behind events of other roots. |
| `DataColumnWaiting.ConsumedExactly` | beacon-chain/blockchain/process_block.go:796-815 | Whatever its order and repetitions, an event makes the block available exactly if it names a column and its missing columns reach the threshold with those counted before, or none is missing any more; otherwise it leaves exactly the rest missing. |
| `DataColumnWaiting.FirstStatements` | beacon-chain/blockchain/process_block.go:732-757 | A call succeeds at once if the threshold is stored or no custody column is missing, and otherwise comes to wait for exactly the missing ones. |
| `DataColumnWaiting.SufficesKept` | beacon-chain/blockchain/process_block.go:732-815 | No statement of the call and no event changes whether the saved columns suffice: what is counted and what is still announced add up to the same. |
| `DataColumnWaiting.SucceedsExactly` | beacon-chain/blockchain/process_block.go:732-815 | Without further saves a call can succeed if and only if what is saved suffices: all custody columns, or the threshold in columns that the call counts. |
| `DataColumnWaiting.UncountedColumn` | beacon-chain/blockchain/process_block.go:735-800 | A run to a state with the threshold stored from which the call cannot succeed without further saves. |
| `DataColumnWaiting.ColumnsMakeAvailable` | beacon-chain/blockchain/process_block.go:732-815 | Wherever a call is, the arrival of the custody columns leads it to success. |
| `DataColumnWaiting.FailsExactly` | beacon-chain/blockchain/process_block.go:732-822 | Over every run, a call fails exactly if it is cancelled, or looks for missing columns with more of them to custody than there are. |
| `DepositLogs.PrefixForEver` | beacon-chain/execution/log_processing.go:113-150 | Whatever truthful logs arrive, in any order, with repetitions and gaps, the trie is a prefix of the contract's deposits of length lastReceivedMerkleIndex + 1. |
| `DepositLogs.PrefixExactly` | beacon-chain/execution/log_processing.go:113-150 | If trie operations can fail, the trie stays a prefix exactly as long as none fails on a deposit that has just been counted. |
| `DepositLogs.StuckForEver` | beacon-chain/execution/log_processing.go:122-150 | Once a counted deposit is not inserted, the trie never changes again, whatever is delivered. |
| `DepositLogs.LostDeposit` | beacon-chain/execution/log_processing.go:122-150 | A deposit whose first delivery fails in the trie and which is skipped the second time. |
| `DepositLogs.DeliveredIsApplied` | beacon-chain/execution/log_processing.go:113-150 | No log of a complete answer that overlaps the applied range is refused, and every delivered deposit is applied. |
| `DepositLogs.BlockIsDone` | beacon-chain/execution/log_processing.go:419-446 | When an answer moves to a later block, all deposits of the earlier blocks are applied. |
| `DepositSync.Service.ProcessDepositLog` | beacon-chain/execution/log_processing.go:113-150 | A log that cannot be unpacked changes nothing; otherwise the tracker absorbs it, counted but not inserted if a trie operation fails; a gap is an error and a repetition is not; an error has one of these causes. |
| `DepositSync.Service.ProcessLogs` | beacon-chain/execution/log_processing.go:419-446 | A batch that fails anywhere leaves the trie a prefix and the cursor at a block up to which all is applied: where it was before, unless the headers' check failed. A batch that succeeds leaves the cursor where the specified positions have it. |
| `DepositSync.PositionsAreLast` | beacon-chain/execution/log_processing.go:423-446 | For logs in order, the loop is at the last block with a log, and the cursor at the last but one of these and the first block of the batch. |
| `DepositSync.Service.ProcessBlockInBatch` | beacon-chain/execution/log_processing.go:361-458 | It asks for the blocks from the cursor to the end of the batch or the follow height; the cursor moves to that end with all deposits applied, or the batch size halves with no change, exactly if the answer was too large, or an operation failed; the size never exceeds its limit. |
| `DepositSync.Service.ProcessPastLogs` | beacon-chain/execution/log_processing.go:291-328 | Terminates at the follow height, or an operation that it made failed; in both cases every deposit up to LastRequestedBlock is applied exactly once and in order. |
| `DepositSync.Service.ZeroLimitRounds` | beacon-chain/execution/log_processing.go:311-324 | With a batch limit of zero and blocks to scan, any number of rounds can be made, each asks the client, and the cursor stays where it was; it stops only if an operation that was made failed or a query for one block was too large. |
| `DepositSync.Service.ProcessETH1Block` | beacon-chain/execution/log_processing.go:62-89 | All deposits of the block are applied, or an operation that it made failed. |
| `DepositSync.Service.RequestBatchedHeadersAndLogs` | beacon-chain/execution/log_processing.go:462-491 | Block by block or in batches, the scan reaches the follow height, or that of the moment the batches start, with all deposits applied, or an operation that it made failed. |
| `Eth1Search.Jump` | beacon-chain/execution/block_reader.go:119-146 | An estimated jump never leaves the heights up to the latest, whatever the wrap-around. |
| `Eth1Estimate.RegularJump` | beacon-chain/execution/block_reader.go:119-146 | On a chain with blocks at the expected interval, a cursor jumps only if it is further from the time than the threshold, does so unless the jump would leave the chain, and lands less than one block from the time. |
| `Eth1Search.BlockReader.RetrieveHeaderInfo` | beacon-chain/execution/block_reader.go:203-223 | The header of the chain if it is cached or served, else an error; the cache stays a part of the chain. |
| `Eth1Search.BlockReader.FindMaxTarget` | beacon-chain/execution/block_reader.go:166-179 | Walks down to the latest block not after the target, or fails exactly if a header it looked up cannot be had; terminates even below block 0, where the number's absolute value climbs again. |
| `Eth1Search.BlockReader.FindMinTarget` | beacon-chain/execution/block_reader.go:183-201 | Walks up to the latest block not after the target without passing the latest block, or fails exactly if a header it looked up cannot be had. |
| `Eth1Search.BlockReader.BlockByTimestamp` | beacon-chain/execution/block_reader.go:100-162 | Returns the greatest block up to the latest that is not after the time; an error exactly for a time after the latest block, or if a header that this call looked up cannot be had; looks up no height above the latest unless the time precedes the chain; so finds a block whenever the headers up to the latest can be had. |
| `TerminalBlock.GetTerminalBlockHash` | beacon-chain/execution/engine_client.go:366-433 | The loop terminates on a chain of growing difficulty and computes the specified walk. |
| `TerminalBlock.SearchFindsCrossing` | beacon-chain/execution/engine_client.go:381-433 | If some ancestor of the latest block crosses the threshold, the search returns it when it precedes the transition time and none otherwise; so there is at most one. |
| `TerminalBlock.SearchIsSound` | beacon-chain/execution/engine_client.go:381-433 | Whatever the search returns is an ancestor that crosses the threshold, has a parent and precedes the transition time. |
| `TerminalBlock.StuckSearchFails` | beacon-chain/execution/engine_client.go:381-433 | The search fails if a block it has to pass has an undecodable difficulty or an unknown parent. |
| `TerminalBlock.FailedSearchIsStuck` | beacon-chain/execution/engine_client.go:381-433 | And only then. |
| `TerminalBlock.ValidatorExact` | beacon-chain/blockchain/pow_block.go:41-152 | Exactly when a payload is valid (on the override hash from the activation epoch on, or without an override on a threshold-crossing block with a known parent) and exactly when a block is invalid (no override, both difficulties known, not crossing); all else is an error that blames no block. |
| `TerminalBlock.ProposedMergeIsValid` | beacon-chain/blockchain/pow_block.go:41-89 | A payload built on the found block passes validation. |
| `TerminalBlock.OnlyTheFoundBlockIsValid` | beacon-chain/blockchain/pow_block.go:140-152 | Of all ancestors of the latest block, only the found one passes validation. |
| `AttestationVotes.RunKeepsInv` | beacon-chain/cache/attestation.go:57-188 | On every run of verified operations no group is empty, and each stored signature aggregates exactly the set bits, once each. |
| `AttestationVotes.AddRecordsVotes` | beacon-chain/cache/attestation.go:57-112 | After Add, exactly the earlier votes and the attestation's votes are recorded, in its group and in no other. |
| `AttestationVotes.AddMakesRedundant` | beacon-chain/cache/attestation.go:192-219 | An attestation that was added is reported redundant. |
| `AttestationVotes.ScanVerdict` | beacon-chain/cache/attestation.go:210-218 | The scan's verdict is that of the first attestation that contains the bits or cannot be compared, and negative if there is none. |
| `AttestationVotes.RedundantVotesRecorded` | beacon-chain/cache/attestation.go:192-219 | Every vote of an attestation that is reported redundant is recorded. |
| `AttestationVotes.MergeInStep` | beacon-chain/cache/attestation.go:96-109 | Merging a single vote keeps signature and bits of the running aggregate in step exactly when the aggregate has that bit position. |
| `AttestationVotes.MergeOutOfStep` | beacon-chain/cache/attestation.go:96-109 | A single vote at a position that the running aggregate lacks: signed for, not recorded. |
| `AttestationVotes.UncoveredIsFilter` | beacon-chain/cache/attestation.go:157-166 | What the compaction leaves is the subsequence of exactly the attestations that are not covered. |
| `AttestationVotes.DeleteKeepsInv` | beacon-chain/cache/attestation.go:139-173 | Deleting keeps the invariant, and fails on no verified attestation. |
| `AttestationVotes.DeleteKeepsOtherVotes` | beacon-chain/cache/attestation.go:139-173 | Deleting what an attestation covers removes no vote outside its bits. |
| `AttestationVotes.DeletesExactly` | beacon-chain/cache/attestation.go:139-173 | In a group of the same bit length, exactly the attestations that the bits contain go, the others stay in order, the group goes if none is left, and no other group and no slot changes. |
| `AttestationVotes.DeleteStops` | beacon-chain/cache/attestation.go:157-166 | At the first attestation of another length it fails, with the list compacted so far at its old length. |
| `AttestationVotes.VotesAreNotLost` | beacon-chain/cache/attestation.go:57-188 | On every run, a vote that was added stays recorded until a deletion that covers its bit or a pruning of its slot. |
| `AttestationVotes.VotesWereAdded` | beacon-chain/cache/attestation.go:57-188 | On every run, a recorded vote was added, and its slot has not been pruned since. |
| `AttestationVotes.AddChangesOnly` | beacon-chain/cache/attestation.go:84-109 | An aggregate is appended; a single vote changes at most the first attestation; the slot and the other groups stay. |
| `AttestationVotes.SinglesMakeOneAggregate` | beacon-chain/cache/attestation.go:20-35 | While only single votes arrive, every group holds one attestation, whose bits are exactly the votes added for it. |
| `AttestationCache.Cache.Add` | beacon-chain/cache/attestation.go:57-112 | The in-place update of shared attestation objects refines the operation on values; an object that is in a list twice changes at both places; if no object is stored twice, none is afterwards. |
| `AttestationCache.Cache.DeleteCovered` | beacon-chain/cache/attestation.go:139-173 | The cache becomes the filtered one, without an empty group; a length mismatch leaves the list as compacted so far. |
| `AttestationCache.Compact` | beacon-chain/cache/attestation.go:157-166 | The loop that overwrites the list it reads never reads an overwritten place: it leaves exactly the kept attestations in front, in order, and the old tail behind them, stops at the first that cannot be compared, and stores no kept object twice. |
| `AttestationCache.Cache.PruneBefore` | beacon-chain/cache/attestation.go:176-188 | Exactly the groups before the slot go, and the count returned is the number of attestations gone. |
| `AttestationCache.Cache.AggregateIsRedundant` | beacon-chain/cache/attestation.go:192-219 | The scan's verdict and its error cases. |
| `SquareRoot.SquareRootCache.CachedSquareRoot` | math/math_helper.go:56-74 | On a sound cache, terminates with the floor of the square root and caches it, unless the uint64 addition wraps around, which is exactly when the cached balance is 1, 2 or 3 and the balance 2^64-1; on a cache that a panic has left, panics for every new balance. |
| `SquareRoot.SquareRootCache.Run` | math/math_helper.go:33-74 | A history of calls with recovered panics follows the specification of histories. |
| `SquareRoot.StepNotBelow` | math/math_helper.go:66-73 | From any candidate a Newton step does not land below the root. |
| `SquareRoot.ExitTest` | math/math_helper.go:66-73 | A candidate not below the root passes the exit test exactly when it is the root, and otherwise the next candidate is smaller. |
| `SquareRoot.FirstSum` | math/math_helper.go:65-68 | The first addition wraps around in exactly that case. |
| `SquareRoot.BreaksExactly` | math/math_helper.go:33-74 | A history breaks the cache exactly when it asks for 2^64-1 directly after 1, 2 or 3, zeros aside. |
| `SquareRoot.ResultsExactly` | math/math_helper.go:33-74 | Every result of every history: the floor of the square root until then, a panic at the fatal call, and after it 0 for the balance in the cache and a panic for any other. |
| `SquareRoot.SmallBalancesGetRoots` | math/math_helper.go:33-74 | Below 2^64-1 every call of every history returns the floor of the square root. |
| `SquareRoot.FatalHistory` | math/math_helper.go:33-74 | The roots of 1 and 2^64-1 asked for at the start: the second call panics, and so does a later one for 4. |
| `GenesisName.SplitJoin` | genesis/initialize.go:91-98 | Splitting undoes joining of parts without the separator. |
| `GenesisName.FormatIntParses` | genesis/initialize.go:99-105 | Every signed 64-bit time parses back from its decimal form. |
| `GenesisName.EncodeBytesDecodes` | genesis/initialize.go:107-109 | Every byte string decodes back from its hexadecimal form, which has no dash or dot. |
| `GenesisName.RoundTrip` | genesis/storage.go:103-109 | Parsing a printed name recovers root and time exactly when the time is not negative. |
| `GenesisName.NegativeTimeDoesNotParse` | genesis/initialize.go:95-98 | The name for the time -1 has four parts and does not parse. |
| `GenesisName.NamesInjective` | genesis/storage.go:103-109 | Different roots or times, negative ones included, have different names. |
| `GenesisName.JoinSplit` | genesis/initialize.go:91-98 | Joining undoes splitting, and no part has the separator. |
| `GenesisName.DigitsParsed` | genesis/initialize.go:99-105 | What parses to a number is any number of zeros and the number's own digits. |
| `GenesisName.DecodesExactly` | genesis/initialize.go:107-109 | A string decodes to some bytes exactly if it is their encoding, but for upper-case digits. |
| `GenesisName.ParsesExactly` | genesis/initialize.go:86-111 | A directory entry parses to a root and a time exactly if it is a file named by them, where the time may have a plus sign and zeros in front and the root upper-case digits. |
| `GenesisName.FindGenesisFile` | genesis/initialize.go:68-84 | The scan returns the first entry that parses, and nothing for an unset or unreadable directory. |
| `GenesisName.StoredIsFound` | genesis/initialize.go:68-84 | A stored file is found again, with its root and time, when no other name parses. |
| `PayloadRanges.ComputeRanges` | beacon-chain/execution/payload_body.go:135-156 | The ranges are non-empty maximal runs, element k of a run is numbered start + k, and their concatenation is a sorted permutation of the input. |
| `PayloadRanges.RunStep` | beacon-chain/execution/payload_body.go:144-153 | The wrap-around of the uint64 sum is never observable. |
| `PayloadRanges.RunsUnique` | beacon-chain/execution/payload_body.go:135-156 | A list has only one such cut into maximal runs. |
| `PayloadBodies.Reconstructor.AddToBatch` | beacon-chain/execution/payload_body.go:58-87 | Malformed blocks are refused; a well-formed one is appended and its non-zero hash batched with its number. |
| `PayloadBodies.Reconstructor.RequestBodiesByHash` | beacon-chain/execution/payload_body.go:175-203 | One call asks once for each non-zero batched hash; it fails exactly if the engine does or answers with another number of bodies; of the answer, the hashes without a body are reported and the bodies of the others stored under their hashes, and nothing else changes. |
| `PayloadBodies.Reconstructor.RequestBodiesByRange` | beacon-chain/execution/payload_body.go:158-173 | On success every hash of the run has a body, its own if the run is on the canonical chain. |
| `PayloadBodies.Reconstructor.HandleNilResults` | beacon-chain/execution/payload_body.go:111-127 | On success every unknown hash has a body. |
| `PayloadBodies.Reconstructor.Unblinded` | beacon-chain/execution/payload_body.go:225-240 | One full block per input block, in order, each with the body of its own hash or the empty payload. |
| `PayloadBodies.ReconstructBlindedBlockBatch` | beacon-chain/execution/payload_body.go:35-44 | With a truthful engine and canonical blocks, success pairs every block with its own body in the input order; with an answering engine it fails only on a malformed block. |

## Left out

- Multilock: the Go scheduler's fairness; NoEndlessDrain and Progress together say that any schedule that does not abandon an enabled goroutine ends. Two goroutines that use one Lock value are modelled, with the value's own channels. The list of keys that Clean returns, and Yield, which calls Unlock and Lock.
- Light client: construction of updates, merkle branches and their error paths, event publishing and broadcasting, and the store's read-write mutex (its methods run one at a time).
- LightClientStore.Store.SaveLCData: committee sizes are 512, as the type of the sync committee bits has it; errors of the comparison itself are not modelled.
- BlobNotifier.BlobNotifierMap.NotifyIndex: the number of blobs per block is the same in all calls for one root.
- Blob waiting: one waiter per root, as the caller guarantees, and no blob is removed while a waiter waits.
- Data columns: blocks without commitments or outside the availability window, for which the call succeeds at once; the periodic log messages.
- Deposit scan: chain start and header checks are operations that may fail, and the retry loop of the header check is part of them; the trie's hashing is one operation, which the scan's results take to succeed (PrefixExactly says what happens otherwise); sums of heights and limits stay below 2^64.
- DepositSync.Service.ProcessPastLogs: not stated for a batch limit of zero with blocks to scan, because the source's loop then ends only with a failure (ZeroLimitRounds); nor is RequestBatchedHeadersAndLogs, which calls it.
- Block search: cancellation of the context, and the LRU eviction of the header cache, which only turns hits into requests.
- TerminalBlock.GetTerminalBlockHash: cancellation of the context; difficulty grows strictly along parent links, as proof of work ensures.
- Terminal block: a configured difficulty that is not a number.
- Attestation cache: BLS arithmetic, hashing of identifiers, the separate fork choice attestations, GetAll, Count and the per-committee query, which only copy.
- AttestationVotes.RunKeepsInv: attestations of one identifier have one committee size and arrive verified.
- Square root: the mutex, the IntegerSquareRoot function and the overflow-checked helpers.
- Genesis: joining the directory with the name, writing and reading the file, and the package variable.
- Reconstruction: version-specific payload construction, which is taken to succeed, and the requests' encoding.
- Fork choice, state transition, networking, API, metrics and logging are not part of this model.
