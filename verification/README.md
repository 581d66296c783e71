# Verified core of the qrysm beacon node

A Dafny model of the parts of the beacon node whose correctness rests on
interleavings, failures and crash points rather than on one function body.
`dafny verify dfyconfig.toml` checks all of it.

| file | what it models |
|---|---|
| `Quarantine.dfy` | quarantine of invalid blocks against the initial-sync block cache: importers, flushers, quarantiners and cleaners as one state machine, and the same operations as methods on a service object |
| `Reorg.dfy` | the block tree, fork points, retention of an invalidated head, the head switch, and the runs of all of them |
| `Multilock.dfy` | the multilock: key tables, channel tokens, `Clean` closing channels under waiters |
| `Feed.dfy` | the event feed: `sendCases` as an array swapped and shifted in place by `Send` and `remove` |
| `Attestations.dfy` | the generation-stamped attestation cache under concurrent head changes |
| `Deposits.dfy`, `RequestLoops.dfy` | the deposit-log follower and the adaptive request loops |
| `TimestampSearch.dfy` | the search for the last execution block at or before a time |
| `Checkpoints.dfy` | persisted justified, finalized and execution-validated checkpoints, and finalized ancestry |
| `Restore.dfy` | database restore over a model of what a crash can leave on disk |
| `SquareRoot.dfy`, `Committees.dfy`, `Words.dfy` | cached integer square root, committee slices, 64-bit words |

Conventions. Failing reads, writes, calls and cancelled contexts are decided by
an oracle that every result is quantified over (`Oracle`, a `Fault`, a client
function), consulted under the number of the action, or by a nondeterministic
choice. A contract that allows a failure names the action that failed. Go's
`uint64` is the subset type `u64`; wrap-around is written out (`AddWrap`,
`SubWrap`, `MulWrap`). Concurrency is a step relation over values, one step per
critical section or channel operation; a `Run` is any sequence of such steps from
an initial state. Code that updates fields or arrays is a class whose methods
state the new state.

## Where the code falls short of a promise

Each of these comes with the exact condition under which the promise does hold,
and with a concrete input or run that breaks it.

- `CachedSquareRoot` divides by zero exactly when the cached root is 1 and 2^64-1
  is asked for while another balance is cached: the first sum wraps to 0. The
  cached root is 0 afterwards, and asking again returns 0
  (`HistoryExactIffNoOverflow`, `OverflowPoisonsCache`).
- An accepted initial-sync block is lost exactly when a root that was rolled back
  is accepted again while a flush that has already written it has yet to evict its
  snapshot (`ConservedIffNoHazard`, `HazardHappens`).
- The fork point found past a removed head is the lowest common ancestor exactly
  when the new head does not descend from a bridged block, which a re-import of a
  retained block brings about (`CommonAncestorForReorg`, `ReimportedAncestorMisleads`).
- The attestation cache serves an old head exactly when a producer sleeps through a
  positive multiple of 2^64 cache clears (`CurrentIffNoHazard`, `WrapAroundServesOldHead`).
- A restart of the deposit follower takes the last index from the saved trie and
  the deposits from the saved cache. Its state is sound exactly when the saved trie
  is not one leaf ahead; a save between a failed and a retried deposit writes such a
  record, and the follower then never caches another deposit (`RestartSoundIff`,
  `LeafAheadIsSaved`, `AheadIsStuck`). This is the path of the sparse Merkle trie;
  with the EIP-4881 tree the leaves come from the saved deposits.
- Committee positions are the exact split points exactly when validator count times
  (offset + 1) fits in 64 bits; beyond that a lookup can return another slot's
  committee (`PositionsExactIff`, `OverflowMisplaces`).
- The published head's branch can be read back exactly when each of its quarantined
  blocks is retained: not between an invalidation and the cleanup that preserves it
  (`OrphanedBranchReadableIff`, `FreshInvalidationIsUnreadable`).
- Polling for logs block by block never succeeds exactly at height 2^64-1, where the
  block counter wraps (`RequestBatchedHeadersAndLogs`).

The comment on `BlockByTimestamp` bounds the number of calls by a constant; the
final walk is linear, so no such bound is stated.

## Model

| member | source | states |
|---|---|---|
| Quarantine.RunKeeps | beacon-chain/blockchain/invalid_block_cleanup.go:14-93 | in every state of every run of importers, flushers, quarantiners and cleaners the joint invariant of maps, locks, cleanup progress, registrations and caught imports holds |
| Quarantine.QuarantineAndCacheDisjoint | beacon-chain/blockchain/execution_engine.go:463-478 | in every reachable state no quarantined root is in the init-sync cache, so no lookup serves it and no later snapshot contains it |
| Quarantine.ReleasedRootIsAbsent | beacon-chain/blockchain/invalid_block_cleanup.go:28-74 | at the moment a root leaves quarantine it is in neither the database nor the cache nor any in-flight flush snapshot |
| Quarantine.NoResurrection | beacon-chain/blockchain/init_sync_process_block.go:77-106 | if a released root is stored again at a later state, a new import saved it after the release: no older flush brought it back |
| Quarantine.QuarantineStopsInFlightImport | beacon-chain/blockchain/receive_block.go:127-132 | a root quarantined after an import of it registered and before its locked recheck is still quarantined at the recheck, which does not pass |
| Quarantine.StaysCaught | beacon-chain/blockchain/currently_syncing_block.go:10-32 | an import caught by a quarantine of its root stays caught at every step until it rechecks or gives up |
| Quarantine.CaughtImportNeverSaves | beacon-chain/blockchain/receive_block.go:67-132 | an import whose root is quarantined between its registration and its recheck is never past the recheck at any later state at which it is still there: it saves and inserts nothing |
| Quarantine.SavingNeedsRecheck | beacon-chain/blockchain/receive_block.go:53-253 | an import that is saving or inserting has passed its own locked recheck, which found neither its root nor its parent quarantined, and has been past it at every state since |
| Quarantine.QuarantineAdmitsNoImport | beacon-chain/blockchain/receive_block.go:57-59 | while a root stays quarantined no import of it begins: whoever imports it was doing so all along |
| Quarantine.AcceptedBlocksAreFound | beacon-chain/blockchain/init_sync_process_block.go:52-72 | without the hazard, a block accepted and not since quarantined or rolled back is found at every later step, across failed writes, insertions during a flush and partial eviction |
| Quarantine.ConservedIffNoHazard | beacon-chain/blockchain/init_sync_process_block.go:77-106 | that conservation holds throughout a run if and only if no step of the run is a hazard |
| Quarantine.HazardHappens | beacon-chain/blockchain/process_block.go:816-824 | a concrete run in which a rolled-back root is re-accepted during a flush and then found nowhere |
| Quarantine.EvictionFinds | beacon-chain/blockchain/init_sync_process_block.go:77-106 | in a state reached without the hazard every accepted block is found, and still found after the pending eviction |
| InitSyncService.Service.Set | beacon-chain/blockchain/currently_syncing_block.go:10-19 | registers a root unless it is registered, and reports which |
| Quarantine.RegisteredIffImporting | beacon-chain/blockchain/currently_syncing_block.go:10-32 | in every reachable state a root is registered if and only if an import of it is under way, from its registration until it has left, and then exactly one is |
| InitSyncService.Service.CheckInvalidBlock | beacon-chain/blockchain/invalid_block_cleanup.go:14-23 | yields the first quarantined root of the list, or nothing if and only if none is quarantined |
| InitSyncService.Service.GetBlock | beacon-chain/blockchain/init_sync_process_block.go:52-72 | refused if and only if quarantined; otherwise the cached block, else the stored one; a failed read if and only if the database had to be asked and failed |
| InitSyncService.Service.Evict | beacon-chain/blockchain/init_sync_process_block.go:77-106 | removes exactly the saved snapshot's roots from the cache |
| InitSyncService.Service.SaveInitSyncBlocks | beacon-chain/blockchain/init_sync_process_block.go:77-106 | whatever fails, every block that lookups could find before is still found |
| InitSyncService.Service.SaveInitSyncBlock | beacon-chain/blockchain/init_sync_process_block.go:13-26 | refuses quarantined roots; otherwise caches the block and, only above the limit, writes and evicts the whole cache; it fails if and only if the root is quarantined or that write fails, and loses nothing |
| InitSyncService.Service.QuarantineRoots | beacon-chain/blockchain/execution_engine.go:463-478 | exactly the listed roots join the quarantine, each with the block the cache held, if any, as its private copy; an entry already there keeps its copy; the roots leave the cache |
| InitSyncService.Service.InvalidBlockForRecovery | beacon-chain/blockchain/invalid_block_cleanup.go:78-93 | the private copy, else the stored block; a failed read if and only if the database had to be asked and failed |
| Quarantine.RecoverableUntilDeleted | beacon-chain/blockchain/invalid_block_cleanup.go:78-93 | in every run, a block found just before its quarantine can be recovered, and is the same block, at every later state until its deletion |
| InitSyncService.Service.RetryInvalidBlockCleanup | beacon-chain/blockchain/invalid_block_cleanup.go:28-74 | the pass fails if and only if something in it failed; a failed preservation leaves everything as it was; until the context is cancelled every root is handled, and one whose own deletion did not fail is gone from the database and released unless it is being imported; nothing else changes |
| BlockTree.LcaIsUnique | beacon-chain/blockchain/reorg_recovery.go:89-125 | two blocks have at most one lowest common ancestor |
| BlockTree.StepKeepsCommon | beacon-chain/blockchain/reorg_recovery.go:89-125 | replacing the no-lower of two different blocks by its parent keeps the set of common ancestors |
| BlockTree.GenesisHasNoCommon | beacon-chain/blockchain/reorg_recovery.go:89-125 | branches that reach two different slot-0 blocks have no common ancestor |
| BlockTree.PathAboveMeaning | beacon-chain/blockchain/head.go:475-555 | the walked list holds exactly the blocks of the old branch strictly above the fork point |
| ForkPoints.LcaOfSomeIsLcaOfAll | beacon-chain/blockchain/reorg_recovery.go:89-125 | a fork point found among the stored blocks is the fork point in the whole tree |
| ForkPoints.CommonAncestorFromBlocks | beacon-chain/blockchain/reorg_recovery.go:89-125 | returns the lowest common ancestor, with no quarantined block on the way to it, or nothing only if the stored branches do not meet; fails only on a read or context check it made, or on a quarantined block of the branches no further down than their common ancestors; at most the sum of the two slots of steps |
| ForkPoints.ForkchoiceCommonAncestor | beacon-chain/forkchoice/doubly-linked-tree/forkchoice.go:447-489 | the same over forkchoice nodes, with its own tie-breaking; it fails if and only if one of its context checks did |
| ForkPoints.LcaBeyondBridge | beacon-chain/blockchain/reorg_recovery.go:65-83 | a common ancestor found from the end of the retained stretch is the lowest one if and only if no block of the stretch is an ancestor of the new head |
| ForkPoints.CommonAncestorForReorg | beacon-chain/blockchain/reorg_recovery.go:65-83 | what is found is a common ancestor, the lowest if and only if the new head does not descend from a bridged block; without failure something is found if and only if nodes or stored blocks connect the branches; a failure is a check made or a quarantined block in the way |
| ForkPoints.SaveOrphanedOperations | beacon-chain/blockchain/head.go:475-555 | a completed walk visits exactly the path strictly above the fork point, in order, and reads only blocks that are retained or stored and not quarantined; without a failure nothing is done if and only if nothing connects the branches; it fails only on a check made, a quarantined block in the way of the search, or the next block of that path being unreadable |
| HeadSwitch.ChainService.PreserveInvalidatedHead | beacon-chain/blockchain/reorg_recovery.go:17-60 | on success every ancestor of the head reached from it through removed blocks only is retained; a failure keeps a prefix of that stretch |
| HeadSwitch.ChainService.SaveHead | beacon-chain/blockchain/head.go:58-196 | a failure leaves published head, durable head and retained blocks unchanged and has one of the causes of the walk; a switch makes both heads the new one, forgets the retained blocks and has walked exactly the blocks above the fork point, which is unknown if and only if nothing connects the branches |
| Recoverability.RunKeeps | beacon-chain/forkchoice/doubly-linked-tree/optimistic_sync.go:13-62 | with descendant-closed invalidation the invariant of imported, removed, retained and deleted blocks holds in every state of every run |
| Recoverability.DeletedAncestryIsRetained | beacon-chain/blockchain/reorg_recovery.go:17-60 | in every run, a deleted ancestor of the published head and every block between it and the head are retained |
| Recoverability.OrphanedBranchReadableIff | beacon-chain/blockchain/init_sync_process_block.go:52-72 | in every reachable state all blocks of the published head's branch can be read back if and only if each quarantined one is retained |
| Recoverability.ReadableUntilInvalidated | beacon-chain/blockchain/invalid_block_cleanup.go:41-48 | that holds from a cleanup's preservation, or a head switch, until the next invalidation |
| Recoverability.FreshInvalidationIsUnreadable | beacon-chain/blockchain/execution_engine.go:463-478 | a concrete run: right after an invalidation of the head and its parent the parent cannot be read |
| Recoverability.NothingInTheWay | beacon-chain/blockchain/reorg_recovery.go:65-125 | from a readable branch to a selectable head, no block stops the search for the fork point or the walk |
| Recoverability.BranchesConnect | beacon-chain/blockchain/reorg_recovery.go:89-125 | in a reachable state, branches that share a block are connected by the stored blocks |
| Recoverability.SwitchInRun | beacon-chain/blockchain/head.go:101-142 | in every reachable state with a readable branch and no fault, the switch to a selectable head goes through with the blocks above the fork point recovered; unless a retained block was imported again the fork point is known if and only if the branches share a block, and is their lowest common ancestor |
| Recoverability.SelectableHeadSurvives | beacon-chain/blockchain/reorg_recovery.go:65-83 | as long as no retained block was imported again, a selectable head does not descend from a retained block, so its fork point is the lowest common ancestor |
| Recoverability.ReimportedAncestorMisleads | beacon-chain/blockchain/reorg_recovery.go:65-83 | a concrete run after which a selectable head descends from a retained block |
| LockKeys.Unique | async/multilock.go:127-141 | the same set of names, each once |
| LockKeys.NewMultilock | async/multilock.go:78-90 | no lock for no names, otherwise the names strictly sorted, none added or lost |
| Multilock.RunKeeps | async/multilock.go:37-124 | the invariant of table, tokens, holdings and cleaners holds in every state of every run |
| Multilock.MutualExclusion | async/multilock.go:37-52 | once `Lock` returned the lock holds all its keys, and no two locks ever hold one key, although `Clean` closes and recreates channels under waiters |
| Multilock.UnlockNeverBlocks | async/multilock.go:56-68 | a held channel is the open one in the table with its token out, so no send of `Unlock` blocks or reaches a closed channel |
| Multilock.VisitAttends | async/multilock.go:93-112 | a key that `Clean` passes over has its token out, and its holder will run a later `Clean` |
| Multilock.QuiescentTableIsEmpty | async/multilock.go:93-112 | when no goroutine is locking, holding or unlocking, the key table is empty |
| Multilock.NoWaitCycle | async/multilock.go:37-52 | no chain of locks, each waiting for the next, returns to its start |
| Multilock.NoDeadlock | async/multilock.go:37-68 | whenever a goroutine is inside `Lock` or `Unlock`, some goroutine can step or a client still holds a lock |
| EventFeed.Feed.Find | async/event/feed.go:221-228 | the first case with the channel, or -1 if and only if there is none |
| EventFeed.Feed.Delete | async/event/feed.go:231-233 | the list without that case, order kept, by an in-place shift |
| EventFeed.Feed.Deactivate | async/event/feed.go:236-240 | swaps the case with the last of the unsent prefix and nothing else |
| EventFeed.Feed.DropAt | async/event/feed.go:134-196 | a removal during `Send` takes out exactly one case of the channel and keeps the account balanced and `cases` the unsent prefix |
| EventFeed.Feed.Serve | async/event/feed.go:134-196 | the loop ends with nothing left to serve, the account balanced, the count and the values put on channels equal to the deliveries, and the removed channels exactly the unsubscriptions it took, in order |
| EventFeed.Feed.Send | async/event/feed.go:134-196 | each subscription merged at the start is sent the value exactly once unless unsubscribed before, the removed channels are exactly the first unsubscriptions handed over, the result is the number of values put on channels, and the cases left are those not removed |
| EventFeed.Feed.Remove | async/event/feed.go:109-130 | exactly one occurrence of the channel leaves, from the inbox if it is there and from the cases otherwise |
| EventFeed.Feed.FastPath | async/event/feed.go:162-171 | every unserved case is tried exactly once, and those that find room are delivered |
| EventFeed.ClosedAccount | async/event/feed.go:134-196 | a balanced account with no unserved case is a finished delivery |
| FeedRemovals.RunKeeps | async/event/feed.go:109-130 | over all interleavings of subscribing, sending and removing, every live or leaving subscription has a case of its own |
| FeedRemovals.RemovalsWereThere | async/event/feed.go:109-130 | between two merges the channels taken out of the case list were in it, and nothing else left it |
| FeedRemovals.SendInRun | async/event/feed.go:134-196 | in every run, what goroutines hand over during a Send is what Send expects, and once it has taken all of it the array holds the cases of the run's state |
| FeedRemovals.RemovalFindsItsCase | async/event/feed.go:134-196 | in every run, whenever a removal reaches the case list the array has a case of its channel, so index -1 is never deleted |
| AttestationData.AttestationCache.Get | beacon-chain/cache/attestation_data.go:65-110 | one round: waits if and only if a producer is at work, otherwise a hit if and only if the slot is stored |
| AttestationData.AttestationCache.MarkInProgress | beacon-chain/cache/attestation_data.go:114-126 | stamps the request with the current generation unless it is already in progress |
| AttestationData.AttestationCache.Put | beacon-chain/cache/attestation_data.go:142-163 | refuses, changing nothing, if and only if the request is in progress under another generation; otherwise the slot is stored, a response already there is kept, and other slots are dropped only to get down to the limit |
| AttestationData.AttestationCache.Clear | beacon-chain/cache/attestation_data.go:170-180 | no responses left, next generation, requests kept |
| AttestationRuns.CurrentIffNoHazard | beacon-chain/blockchain/head.go:287-296 | in every interleaving of producers and head changes every cached response comes from the published head, if and only if no producer with a wrapped-around stamp stores an old head |
| AttestationRuns.CacheMatchesPublishedHead | beacon-chain/rpc/core/validator.go:332-366 | with fewer than 2^64 clears during any production, a cached response is always that of the published head |
| AttestationRuns.UnchangedHeadKeepsResponses | beacon-chain/blockchain/head.go:287-296 | a cached response stays as it is as long as no other head is published: publishing the same head again clears nothing |
| AttestationRuns.WrapAroundServesOldHead | beacon-chain/cache/attestation_data.go:142-163 | a concrete run of 2^64 clears that ends with an old head's response in the cache |
| DepositLogs.TakeLogKeeps | beacon-chain/execution/log_processing.go:87-225 | every log, with a failure at any step, keeps the cache a prefix of the contract's deposits, the trie equal or one next leaf ahead, and nothing missing up to the last requested block; an accepted deposit is cached |
| DepositLogs.TakeAllKeeps | beacon-chain/execution/log_processing.go:87-225 | over any sequence of honest logs and faults that soundness holds throughout and no cached deposit is dropped |
| DepositLogs.TakeLogAccepts | beacon-chain/execution/log_processing.go:114-225 | without a fault a deposit is accepted if and only if none before it is missing, and only the next one extends the cache, reusing a leaf left by a failure |
| DepositLogs.TakeDepositIff | beacon-chain/execution/log_processing.go:114-225 | for every state and log, honest or not, exactly which deposit events are accepted and what is recorded: a garbled one never extends anything, a seen index changes nothing, the next index needs no failure and the trie without the leaf or with this very leaf |
| DepositLogs.SavesAtMultiples | beacon-chain/execution/log_processing.go:98-106 | an accepted deposit event writes the present state as the record if and only if the last index is a multiple of 1000; nothing else in a log does |
| DepositLogs.NeverFarBehind | beacon-chain/execution/log_processing.go:98-106 | over any sequence of accepted logs the record lacks exactly the deposits since the last multiple of 1000, fewer than 1000 |
| DepositLogs.RefusedIsRefusable | beacon-chain/execution/log_processing.go:114-225 | a refused log is a deposit event that is garbled, met a fault, is ahead of the cache or has an oversized index |
| DepositLogs.ReadUpTo | beacon-chain/execution/log_processing.go:332-350 | when the logs of a truthful answer up to a block were taken in, no deposit up to it is missing |
| DepositLogs.RestartSoundIff | beacon-chain/execution/service.go:718-775 | restarting from the saved record is sound if and only if its trie is not ahead of its deposits |
| DepositLogs.LeafAheadIsSaved | beacon-chain/execution/log_processing.go:87-109 | a concrete run that saves a record one leaf ahead, after which both logs of the block are accepted and a deposit is missing |
| DepositLogs.AheadIsStuck | beacon-chain/cache/depositcache/deposits_cache.go:72-103 | after such a restart no sequence of logs ever extends the cache, and every later deposit is refused |
| DepositFollower.Follower.ProcessDepositLog | beacon-chain/execution/log_processing.go:114-225 | the step-by-step code computes the specified outcome for every state, log and fault |
| DepositFollower.Follower.ProcessLog | beacon-chain/execution/log_processing.go:87-109 | the step-by-step code, with dispatch on the event and the save at every thousandth index, computes the outcome the lemmas characterise |
| DepositFollower.Follower.ProcessLogs | beacon-chain/execution/log_processing.go:328-352 | the log loop keeps the follower sound with the last requested block trailing; it completes the range, or restores that block at the first log that may be refused, all earlier ones being in |
| DepositFollower.Follower.ProcessBlockInBatch | beacon-chain/execution/log_processing.go:298-362 | the batch is the request left after halving for each refusal for size; it leaves nothing missing up to its end and the next size is the grown one; it fails only on the answer to its last request or on the first log refused |
| DepositFollower.Follower.ProcessPastLogs | beacon-chain/execution/log_processing.go:229-265 | a completed scan's requests tile the interval exactly, each within the limit, the last requested block is the height and nothing up to it is missing; a failure is that of the batch from the first uncovered block, reached by the recorded requests |
| DepositFollower.Follower.ProcessExecutionBlock | beacon-chain/execution/log_processing.go:60-83 | after success nothing of that block is missing; it fails only on the answer to its request or on the first log refused |
| DepositFollower.Follower.TakeBlockLogs | beacon-chain/execution/log_processing.go:72-82 | logs of other blocks, whatever they say, are ignored |
| DepositFollower.Follower.RequestBatchedHeadersAndLogs | beacon-chain/execution/log_processing.go:366-398 | after success nothing up to the height is missing and, in a gap of at most 50 blocks, every header and answer came; a failure is that of the block after the last requested one, all before it having been read, or of the scan of a larger gap; at height 2^64-1 the counter wraps and the poll never succeeds |
| DepositFollower.Follower.SaveExecutionChainData | beacon-chain/execution/log_processing.go:401-433 | the record is the present state or, on failure, the previous record |
| DepositFollower.Follower.Follow | beacon-chain/execution/log_processing.go:229-398 | over any sequence of attempts with any failures the follower stays sound, the cache only grows, and every height once reached stays complete; only a poll at height 2^64-1 can stop it |
| DepositFollower.Follower.InitializeExecutionData | beacon-chain/execution/service.go:718-775 | trie, deposits and last requested block are those of the record and the last index is taken from the trie; sound if and only if the saved trie is not ahead |
| RequestLoops.TilesCoverOnce | beacon-chain/execution/service.go:651-677 | tiling ranges contain every block of the interval in exactly one range and no other block |
| RequestLoops.CacheBlockHeaders | beacon-chain/execution/service.go:651-677 | what counts as covered is what was answered: the requests are those of the calls that delivered headers, in order, and every other call timed out; a completed run's requests tile start to end, each of 1 to limit blocks; it gives up only when one more call, for the first uncovered block and the size the timeouts have left, met an error, a timeout of one block or cancellation |
| RequestLoops.Halve | beacon-chain/execution/service.go:663-667 | half as many blocks, rounded down and at least one |
| TimestampSearch.ScanDownMeaning | beacon-chain/execution/block_reader.go:167-181 | the linear scan finds the last block at or before the time, and nothing if and only if the first block is later |
| TimestampSearch.ScanFromLower | beacon-chain/execution/block_reader.go:167-181 | starting the scan lower gives the same answer when the skipped blocks are later than the time |
| TimestampSearch.BlockReader.RetrieveHeaderInfo | beacon-chain/execution/block_reader.go:205-225 | the header of that height unless something fails; the cache keeps agreeing with the chain |
| TimestampSearch.BlockReader.FindMaxTargetExecutionBlock | beacon-chain/execution/block_reader.go:167-181 | the downward walk is the linear scan from its start |
| TimestampSearch.BlockReader.FindMinTargetExecutionBlock | beacon-chain/execution/block_reader.go:185-203 | the upward walk gives the linear scan from the head and asks for no height above it |
| TimestampSearch.BlockReader.BlockByTimestamp | beacon-chain/execution/block_reader.go:101-163 | whatever the estimates do, wrapped arithmetic included, the result is the linear scan from the head; too late if and only if the time is after the head; failed if and only if a check or a request it made failed; no height above the head is asked for |
| Checkpoints.Database.UpdateLastValidatedCheckpoint | beacon-chain/blockchain/process_block_helpers.go:218-242 | the marker changes only to the persisted finalized checkpoint, only if forkchoice has validated its root and its epoch is newer, and then does unless something fails; an optimistic or unknown root, and epoch 0, leave it; it fails if and only if a read or write did, or the lookup of a later epoch |
| Checkpoints.Database.UpdateFinalized | beacon-chain/blockchain/process_block_helpers.go:165-213 | the flag is true if and only if persisted finality advanced, even when a later step fails; the marker changes only on full success, to a validated root; success if and only if nothing failed |
| Checkpoints.Database.UpdateCheckpoints | beacon-chain/blockchain/process_block_helpers.go:146-159 | justification is written before finality and finality before the marker; each changes only to a newer checkpoint of forkchoice, and on success does; finality stays at or below justification if forkchoice keeps that order |
| Checkpoints.Database.AfterValidVerdict | beacon-chain/blockchain/execution_engine.go:202-210 | a VALID verdict moves only the marker, to the persisted finalized checkpoint if that is validated and newer; it fails if and only if a read, a write or the lookup did |
| Checkpoints.Database.Run | beacon-chain/blockchain/process_block_helpers.go:146-242 | over any run with failing writes no persisted epoch decreases, the marker is the starting one or a root that an event of the run reported validated, and a once-persisted finalized checkpoint not ahead of finality; the order with justification is kept, and each flag is true exactly when finality advanced |
| FinalizedAncestry.AncestorByDBMeaning | beacon-chain/blockchain/process_block_helpers.go:245-266 | the highest ancestor at or below the slot, missing only if a read fails or there is no such ancestor |
| FinalizedAncestry.UnreadableIff | beacon-chain/blockchain/process_block_helpers.go:245-266 | the walk fails if and only if one of the reads it makes fails or meets a missing block |
| FinalizedAncestry.ImportedIff | beacon-chain/blockchain/process_block_helpers.go:107-124 | a block is recognized if and only if forkchoice has it or the finalized block descends from it; the answer is unknown if and only if forkchoice does not have it, its slot is not past finality and the walk fails |
| CrashModel.CrashSafeMeaning | beacon-chain/db/restore.go:131-211 | a crash in a safe state reveals what was there before, an empty placeholder where nothing was, or the complete snapshot |
| CrashModel.UnsyncedChangesHideNothing | beacon-chain/db/restore.go:193-203 | until a sync, whatever a crash could reveal before a change of the entry or of a file it can still reveal after it |
| CrashModel.ClearingTooEarlyIsUnsafe | beacon-chain/db/restore.go:193-203 | clearing the replaced file while a crash can still reveal it under the path is unsafe |
| Restore.Target.LockTargetDatabase | beacon-chain/db/restore.go:285-302 | an existing file is left as it is; where there is none a placeholder is created, and every state on the way is crash safe |
| Restore.Target.SnapshotDatabase | beacon-chain/db/restore.go:344-373 | only the temporary file changes; success if and only if opening, writing and syncing all succeed, and then it is complete and synced |
| Restore.Target.InvalidateReplacedDatabase | beacon-chain/db/restore.go:224-244 | clears only a file that no durable entry and no other link names; succeeds if and only if the link count is known to be zero and the write and the sync succeed |
| Restore.Target.SyncAndInvalidate | beacon-chain/db/restore.go:198-211 | the replaced file is cleared only after the directory is synced; otherwise waiters are waited out |
| Restore.Target.RemovePlaceholder | beacon-chain/db/restore.go:138-159 | unless the removal itself fails the placeholder is gone; the removal is made durable before it is cleared, and the lock is then safe to release |
| Restore.Target.CopyAndRename | beacon-chain/db/restore.go:160-190 | the path changes only by renaming a complete, synced snapshot; renamed if and only if the copy succeeds and the first rename or, with the lock released, the second; failure leaves the path as it was |
| Restore.Target.OpenForInvalidation | beacon-chain/db/restore.go:110-130 | an existing file that is known to have another hard link is refused, before anything is changed |
| Restore.Target.Place | beacon-chain/db/restore.go:131-215 | restored if and only if copy, rename and directory sync succeed; a placeholder is left behind only if a second action fails as well |
| Restore.Target.Replace | beacon-chain/db/restore.go:48-215 | every disk state of every outcome is crash safe; aborted if and only if an existing database may be asked about and the answer is no; then, and for the source itself or a busy target, nothing is touched; restored if and only if nothing on the way fails, with the synced snapshot durably under the path; whenever the lock is released a waiting node finds the linked file or a cleared one, or has been waited out; without trouble the replaced file is cleared |
| SquareRoot.RootIsUnique | math/math_helper.go:56-74 | the floor square root is unique |
| SquareRoot.AverageStaysAbove | math/math_helper.go:56-74 | one averaging step from any positive start never falls below the root |
| SquareRoot.FirstSumFits | math/math_helper.go:56-74 | the first sum fits in 64 bits except for cached root 1 and 2^64-1 |
| SquareRoot.InitialCacheIsExact | math/math_helper.go:32-37 | the compiled-in cache holds an exact root |
| SquareRoot.SquareRootCache.CachedSquareRoot | math/math_helper.go:56-74 | from every reachable cache the call terminates with the floor square root and an exact cache, or divides by zero on the overflowing input |
| SquareRoot.CacheStaysExact | math/math_helper.go:56-74 | the cache is exact after every call of a history without the overflowing input |
| SquareRoot.HistoryExactIffNoOverflow | math/math_helper.go:56-74 | every call of a history returns the exact root if and only if 2^64-1 is never asked for while the cached root is 1 |
| SquareRoot.OverflowPoisonsCache | math/math_helper.go:56-74 | a concrete history that divides by zero and then returns 0 for 2^64-1 |
| Committees.SplitShape | container/slice/slice.go:285-298 | the split points start at 0, end at the length, and neighbours are the quotient or one more apart |
| Committees.PositionsExactIff | container/slice/slice.go:296-298 | the 64-bit positions are the exact split points if and only if count times (offset + 1) fits |
| Committees.OverflowMisplaces | beacon-chain/cache/committee.go:107-119 | with 2^33 validators in 2^32 committees, the first committee of slot 16 is looked up as that of slot 0 |
| Committees.CommitteeIsSlice | beacon-chain/cache/committee.go:93-119 | an index at or above the per-slot count is refused; every other lookup is the slice between two neighbouring split points, in bounds |
| Committees.CommitteeExact | beacon-chain/cache/committee.go:93-119 | in any epoch, an index not below the slot's share and an offset not below the count are refused, and every other lookup whose product fits is the slice between two neighbouring split points |
| Committees.OffsetsAreBijective | beacon-chain/cache/committee.go:103-112 | every offset belongs to exactly one slot of the epoch and index |
| Committees.CommitteesConcatenate | beacon-chain/cache/committee.go:211-216 | the looked-up committees in offset order are the shuffled validators |
| Committees.SizesDifferByAtMostOne | beacon-chain/cache/committee.go:211-216 | any two committees differ in size by at most one |
| Committees.CommitteesAreDisjoint | beacon-chain/cache/committee.go:211-216 | committees of different slots or indices share no validator |

## Left out

- Forkchoice scoring and pruning, the state transition, signatures, state generation and the key-value store: they appear only as the contracts their callers rely on.
- RPC clients, gateways, peer-to-peer networking, gossip scoring, metrics, command line and node wiring.
- Starvation: the multilock and the feed are shown free of wait cycles and of lost deliveries, not fair.
- The feed's type check of a sent value, its panic on a closed channel and reflection.
- `LockKeys.Insert` stands for the standard library's sort.
- FIFO internals of the attestation cache: trimming may drop any other slots.
- `saveHead` for optimistic and no-database variants, its events and metrics; the filtering of single attestations and slashings in `saveOrphanedOperations`.
- An execution-chain reorg below the followed height: the contract history and the header chain do not change.
- DepositFollower.Follower.RequestBatchedHeadersAndLogs: at height 2^64-1 the loop is followed up to the wrap-around, where the outcome is `Wraps`; the source then starts over from block 0.
- DepositFollower.Follower.ProcessPastLogs: the additive growth of the batch is any number given by the caller, because the source computes it in floating point; pruning of pending deposits after the scan is not modelled.
- Hashing and Merkle proofs: a leaf is its deposit data and a proof verifies if and only if the data is equal.
- The EIP-4881 deposit tree and its snapshots.
- Committee cache in-progress waiting and eviction: the lookup starts at the cached epoch.
- TimestampSearch.BlockReader.BlockByTimestamp: the number of header requests is not bounded.
- Restore.Target.InvalidateReplacedDatabase: clearing is one write of both meta pages; page sizes and byte ranges are not modelled.
- Restore.Target.Replace: on platforms that refuse to replace an open file the lock is given up before the second rename, and nothing is claimed of a node that takes it in that window.
- Resolution of symbolic links and creation of the target directory.
- The other arithmetic helpers of `math/math_helper.go`, which are one expression each.
