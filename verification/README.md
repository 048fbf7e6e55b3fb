# A verified model of the gwat node core

gwat is a blockchain node whose blocks form a DAG. This project models, in Dafny, the parts of the node that keep
non-trivial invariants over unbounded state, and proves them.

| module | file | models |
|---|---|---|
| `Basics`, `Transactions`, `BinaryHeap` | `Basics.dfy`, `Transactions.dfy`, `BinaryHeap.dfy` | options, results, words; transactions, maps by nonce and their sorted form; sift-up and sift-down heaps |
| `SortedMap`, `TxLists` | `SortedMap.dfy`, `TxLists.dfy` | the heap-plus-map-plus-cache container and the strict or gapped list of one account |
| `Lookup`, `PricedList` | `TxLookup.dfy`, `PricedList.dfy` | the lookup by hash with its slot count; the two price heaps with lazy deletion |
| `PoolContent`, `TxPools` | `PoolContent.dfy`, `TxPool.dfy` | the pool: adding, replacing, removing, promoting and demoting |
| `PoolTruncation`, `QueueTruncation` | same names | truncatePending, truncateQueue |
| `PoolRuns`, `PoolExamples` | same names | the loops over accounts, runReorg, runs of operations; short runs that show what the limits do not promise |
| `Scheduling` | `Scheduler.dfy` | the loop that coalesces requests into background runs |
| `Feeds` | `Feed.dfy` | the subscribe/send/unsubscribe protocol of the event feed |
| `HashArrays`, `Dag`, `HeaderChains` | `HashArrays.dfy`, `Dag.dfy`, `HeaderChain.dfy` | hash lists, reachability, the memoised ancestor search |
| `Heights`, `Insertion`, `BlockTips`, `BlockChains` | `Heights.dfy`, `Insertion.dfy`, `BlockTips.dfy`, `BlockChain.dfy` | heights from ancestor counts, what a new block leaves unchanged, ancestor lists, tips, the insertion of one block |
| `BlockVerify`, `BlockExamples` | same names | the ancestor search by stored lists, block verification, runs of insertions; a block that verification lets through |
| `Removal` | `Removal.dfy` | removing a block with everything built on it |
| `Indexing` | `Indexer.dfy` | the section bookkeeping of the chain indexer |
| `Gas` | `Gas.dfy` | gas accounting over a whole block |
| `DerivationPaths` | `DerivationPath.dfy` | printing and parsing of wallet derivation paths |

`dafny verify dfyconfig.toml` checks everything.

## How it is built

Code that changes fields in place is a class whose methods are proved against functions of the old state. Concurrent
code (the feed, the scheduler, the indexer) is a class whose methods are the atomic steps, with a driver method that
takes any sequence of steps. Hashes are numbers with 0 as the zero hash, addresses and channels are numbers. Where the
source relies on a hash naming one transaction or one header, a ghost function `book` gives the thing behind each hash.

Integers are unbounded except where the width matters: the 64-bit sum of gas limits, intrinsic gas, the section numbers
of the indexer and the 32-bit path components are modelled with their wrap-around or range check.

What comes from outside is a parameter or a nondeterministic choice: the clock (`now`), the result of `validateTx`, the
chain state seen by the pool, the finalised chain seen by the indexer, what the virtual machine leaves of the gas it is
given, which channel a select picks, and which entries the ancestor cache has lost.

The pool carries ghost flags that record how it came about: `single` (no remote transaction has two heap entries),
`neverTwice` (no transaction was ever entered with an old heap entry left) and `bounded` (the slots are within the two
global limits). Validity ties them to the state. `Add` says exactly how it changes them, a new base fee sets `single`, and
every other operation leaves them out of its frame.

## What was found

* `truncateQueue` is documented as dropping the oldest transactions. The code starts with the accounts that were
  active most recently; the model follows the code.
* A transaction that is removed and submitted again has two live entries in the price heaps exactly when the removal does
  not trigger a rebuild (`PoolExamples.Resubmit`). Making room counts both entries but frees the slots once, so the two
  global limits can be exceeded: `PoolExamples.OverLimit` is a run of remote transactions that ends with 5 slots taken
  under a limit of 4. An added transaction leaves no double entry exactly when it has no entry left or the one it
  replaces triggers a rebuild (`TxPools.TxPool.Add`); under that condition every run of remote transactions stays within
  the limit, and submitting no transaction twice is enough for it (`PoolRuns.Run`).
* A replacement that is refused for its price may already have cost others their place: `add` makes room first. It has
  evicted something exactly when the pool was full and a remote transaction was tracked (`TxPools.TxPool.Add`);
  `PoolExamples.EvictedForNothing` gives such a run.
* `verifyBlockUsedGas` adds in 64 bits. Acceptance means that the block fits exactly when the sum does not overflow
  (`Gas.AcceptedFits`); `Gas.OverflowPasses` gives an accepted block whose two transactions both hit the gas limit.
* `IntrinsicGas` checks the price of the data for overflow but not that of the access list (`Gas.IntrinsicGas`). A price
  beyond 64 bits would take some 10^16 storage keys, more than any transaction can carry.
* The ancestor search reports a block without parents exactly when the chain of last parents leads to one
  (`HeaderChains.ErrorReported`). One that is reached through other parents only is lost (`HeaderChains.LostOrphan`);
  `HeaderChains.SwallowedError` gives a store.
* A cached ancestor answer survives the insertion of a block exactly when it does not report that block as missing
  (`Insertion.EntrySurvives`).
* `CalcBlockHeightByParents`, which nothing calls, gives the number of ancestors exactly when the checkpoint is one of
  them (`Heights.HeightCountsAncestors`); `Heights.Overcount` gives a store where it counts one too many. `VerifyBlock`
  refuses such blocks, and the heights it lets through are the numbers of ancestors (`BlockVerify.InsertBlocks`).
* `IsAncestorByTips` denies that a block's own checkpoint is its ancestor unless it is genesis or a parent; for every
  other block the answer is right (`BlockVerify.IsAncestorByTips`). `verifyBlockParents` asks it whether one parent is an
  ancestor of another. For every header it is wrong about that exactly when it accepts although a parent is the checkpoint
  of another unfinalised one, genesis and that one's own parents aside (`BlockVerify.VerifyBlockParents`).
  `BlockExamples.AcceptsShortcut` gives a block that `VerifyBlock` accepts: over genesis 0 block 1 is a checkpoint, 2 is
  on 1 and 3 on 2, and the new block names both 1 and 3 as parents.
* A failing backend reset of the chain indexer runs `setValidSections(0)` without the lock, beside the calls that others
  make under it. When none overlaps it, heads, stored sections and the persisted count stay in step. When locked calls
  lie between two of its reads and writes, they are in step afterwards exactly when the last of those calls left no
  section and no head was lost (`Indexing.ChainIndexer.ResetStep`): a call between giving a section up and loading which
  one to delete loses that section's head, unless a later call to no section falls between test and decrement and makes
  the reset count down from 2^64 - 1. `Indexing.LostCount` and `Indexing.LostHead` give the two failures. When a step of
  the reset falls into a locked call, or between the reads that lead to one, nothing is left to promise:
  `Indexing.LostSection` ends with a stored section that has neither head nor count, `Indexing.WrappedCounter` and
  `Indexing.WrappedCall` with 2^64 - 1 stored sections.

## Model

| member | source | states |
|---|---|---|
| BinaryHeap.RootIsMinimal | core/tx_list.go:34-50 | in a heap under any strict weak order no entry is smaller than the one at index 0 |
| BinaryHeap.Up | core/tx_list.go:34-50 | sifting up repairs a heap broken at one entry and keeps the multiset of entries |
| BinaryHeap.Down | core/tx_list.go:34-50 | sifting down repairs a heap broken around one entry and keeps the multiset |
| BinaryHeap.Init | core/tx_list.go:122-129 | any sequence becomes a heap with the same entries |
| BinaryHeap.Push | core/tx_list.go:77-84 | the heap gains exactly the pushed entry |
| BinaryHeap.Pop | core/tx_list.go:88-106 | the popped entry is a minimum, and the rest is a heap of the other entries |
| BinaryHeap.RemoveAt | core/tx_list.go:176-193 | removing at any index leaves a heap of the other entries |
| SortedMap.TxSortedMap.Put | core/tx_list.go:77-84 | the item is stored under its nonce; the index stays a duplicate-free heap over exactly the keys and the cache is dropped |
| SortedMap.TxSortedMap.Forward | core/tx_list.go:88-106 | returns the items below the threshold in nonce order and keeps the rest; shifting the cache agrees with re-sorting |
| SortedMap.TxSortedMap.Filter | core/tx_list.go:113-146 | removes exactly the items that match and rebuilds the index |
| SortedMap.TxSortedMap.Cap | core/tx_list.go:151-172 | keeps the lowest nonces up to the limit; truncating the sorted index gives a heap and trimming the cache agrees with re-sorting |
| SortedMap.TxSortedMap.Remove | core/tx_list.go:176-193 | removes the nonce if present and says whether it was |
| SortedMap.TxSortedMap.Ready | core/tx_list.go:202-217 | returns and removes the maximal run of consecutive nonces from the lowest, or nothing when that is above the start |
| SortedMap.TxSortedMap.Flatten | core/tx_list.go:224-246 | the items in nonce order, through the cache |
| SortedMap.TxSortedMap.Last | core/tx_list.go:249-253 | the item with the highest nonce |
| SortedMap.SortNonces | core/tx_list.go:151-172 | a permutation of the nonces in increasing order |
| SortedMap.CutIsLowest | core/tx_list.go:151-172 | cutting the sorted keys at a place leaves exactly the items of lowest rank |
| SortedMap.IndexFacts | core/tx_list.go:54-60 | the index holds each key once and its head is the lowest nonce |
| TxLists.EarlyReturnAgrees | core/tx_list.go:345-350 | when the limits are at or above the caps a full scan would remove nothing |
| TxLists.FilterPartition | core/tx_list.go:345-374 | kept, removed and invalidated partition the old contents; what is kept fits both limits, what is removed does not |
| TxLists.FilterCutsStrict | core/tx_list.go:345-374 | a strict list is cut below its lowest unpayable nonce, so a gap-free list stays gap-free |
| TxLists.RemoveCutsStrict | core/tx_list.go:385-396 | removing from a strict list keeps exactly the lower nonces and returns exactly the higher ones |
| TxLists.TxList.Add | core/tx_list.go:294-327 | a replacement must raise both fee cap and tip and reach the bump on both; caps keep bounding every stored transaction |
| TxLists.TxList.Forward | core/tx_list.go:332-334 | splits the list at a nonce |
| TxLists.TxList.Filter | core/tx_list.go:345-374 | removed and invalidated transactions and the new list are those of a full scan, despite the early return |
| TxLists.TxList.Cap | core/tx_list.go:378-380 | keeps the lowest nonces |
| TxLists.TxList.Remove | core/tx_list.go:385-396 | removes the nonce and, from a strict list, everything above it |
| TxLists.TxList.Ready | core/tx_list.go:416-418 | the maximal consecutive run from the lowest nonce |
| Lookup.TxLookup.Get | core/tx_pool.go:2472-2480 | finds a transaction on the local or the remote side |
| Lookup.TxLookup.Add | core/tx_pool.go:2531-2545 | the transaction joins one side, the slots go up by exactly what it takes and stay the sum over all known transactions |
| Lookup.TxLookup.Remove | core/tx_pool.go:2548-2566 | the hash leaves both sides and the slots go down by what it took; an unknown hash changes nothing |
| Lookup.TxLookup.RemoteToLocals | core/tx_pool.go:2569-2582 | exactly the remote transactions of the given accounts change side; all transactions and the slot count stay |
| PricedList.OrderIsStrict | core/tx_list.go:475-498 | the price comparison is a strict weak order for every base fee |
| PricedList.HeadDecides | core/tx_list.go:585-603 | comparing with the head answers for the whole heap |
| PricedList.UnderpricedFor | core/tx_list.go:585-603 | true exactly when the heap has a live entry and none of them is cheaper; only dead entries are lost |
| PricedList.TxPricedList.Put | core/tx_list.go:552-558 | a remote transaction gains one entry, a local one none |
| PricedList.TxPricedList.Underpriced | core/tx_list.go:575-582 | the lazy answer equals a full scan of the live entries of both heaps, and no live entry is lost |
| PricedList.TxPricedList.Discard | core/tx_list.go:609-645 | live entries split exactly into kept and dropped; it succeeds exactly when forced or when the live entries together are large enough; the last drop was needed; a failure drops nothing; nothing left in the floating heap is cheaper than the last drop, and nothing at all is cheaper than any drop while the heaps are layered |
| PricedList.TxPricedList.Evict | core/tx_list.go:609-636 | the eviction loop terminates by twice the urgent plus the floating entries and stops short only with both heaps empty |
| PricedList.NotEnough | core/tx_list.go:609-645 | when dropping every live entry is too little, no choice of live entries is enough |
| PricedList.SinkDrop | core/tx_list.go:609-636 | in layered heaps the entry dropped is the cheapest of all that are left |
| PricedList.TxPricedList.Restore | core/tx_list.go:637-642 | every dropped entry is put back |
| PricedList.TxPricedList.Reheap | core/tx_list.go:648-671 | every remote transaction is tracked exactly once and a fifth of them is floating |
| PricedList.TxPricedList.Removed | core/tx_list.go:563-571 | entries stay until more than a quarter may be stale, then the heaps are rebuilt with each remote transaction once |
| PricedList.TxPricedList.SetBaseFee | core/tx_list.go:676-679 | rebuilds both heaps for the new fee |
| PoolContent.LookupExact | core/tx_pool.go:2433-2582 | a transaction is known exactly when it is pending or queued, and no nonce is both |
| PoolContent.NonceFindsIt | core/tx_pool.go:1711-1758 | for a known transaction the nonce alone decides in which list it is, and the entry there is that transaction |
| PoolContent.AccountEnqueue | core/tx_pool.go:1197-1231 | queueing keeps one account consistent with the lookup, whether or not it replaces |
| PoolContent.AccountUnpend | core/tx_pool.go:1711-1758 | removing a pending transaction and queueing those above it keeps the account consistent |
| PoolContent.PromotionSplits | core/tx_pool.go:2066-2127 | every queued transaction is stale, unpayable, promoted, over the limit or kept, and only one of these |
| PoolContent.AccountPromote | core/tx_pool.go:2066-2127 | promotion keeps one account consistent with the lookup |
| PoolContent.DemotionSplits | core/tx_pool.go:2268-2322 | every pending transaction is stale, unpayable, sent back or kept; a gap-free list stays gap-free |
| PoolContent.AccountDemote | core/tx_pool.go:2268-2322 | demotion keeps one account consistent with the lookup |
| TxPools.TxPool.constructor | core/tx_pool.go:218-253 | an empty pool is valid, within its limits and without double entries, and its settings are sanitised |
| TxPools.TxPool.Add | core/tx_pool.go:1090-1191 | known, invalid, underpriced and overflow are answered exactly under their conditions and leave content, locals and counter as they were; otherwise only live remote entries are dropped, no more than needed, and the transaction replaces the pending one with its nonce or goes to the queue, exactly if it outbids; a refused replacement has evicted something exactly when the pool was full and a remote transaction was tracked; without double entries a remote one keeps the slots within the limits, and afterwards there is none exactly when no old entry is left or a rebuild happens |
| TxPools.TxPool.MakeRoom | core/tx_pool.go:1109-1147 | nothing changes when there is room; underpriced exactly by the full scan; overflow exactly when throttled or when a remote transaction cannot get enough slots; otherwise exactly the dropped live remote entries leave, the last of them needed |
| TxPools.TxPool.Place | core/tx_pool.go:1149-1191 | exact placement, the heaps gain exactly the entry of a remote transaction, and the slots grow by at most what it takes |
| TxPools.EnteredUnique | core/tx_pool.go:1149-1191 | entering a remote transaction leaves no live one with two heap entries exactly when no old entry is left |
| TxPools.FreedSlots | core/tx_pool.go:1133-1147 | without double entries dropping frees exactly the slots of the dropped entries; something is dropped exactly when an entry is live |
| TxPools.TxPool.ReplacePending | core/tx_pool.go:1149-1173 | exact placement over a pending transaction |
| TxPools.TxPool.AddToQueue | core/tx_pool.go:1174-1191 | exact placement in the queue |
| TxPools.TxPool.MarkLocal | core/tx_pool.go:1179-1187 | the account becomes local, exactly the transactions of local accounts leave the remote side, and the known transactions and slots stay the same |
| TxPools.TxPool.EnqueueTx | core/tx_pool.go:1197-1231 | new queue, lookup and heartbeat for every combination of accepted, replaced and entered |
| TxPools.TxPool.PromoteTx | core/tx_pool.go:1250-1280 | new pending list, virtual nonce and lookup, whether accepted or not |
| TxPools.TxPool.RemoveTx | core/tx_pool.go:1711-1769 | exactly the transaction with the hash leaves the lookup and its list; pending ones above it are queued again and the virtual nonce becomes the lower of its value and the nonce removed; the heaps count the removal or are rebuilt |
| TxPools.TxPool.PromoteAccount | core/tx_pool.go:2066-2127 | the ready run becomes pending, in nonce order; the rest of the queue is what is payable and within the limit; the lookup loses exactly the rest; the virtual nonce follows the last promoted one |
| TxPools.TxPool.DemoteAccount | core/tx_pool.go:2268-2322 | pending keeps the payable front; what follows the first unpayable transaction is queued; the lookup loses exactly the stale and unpayable |
| TxPools.TxPool.ForgetCapped | core/tx_pool.go:2167-2177 | capped transactions leave the lookup and the virtual nonce becomes the least of its value and theirs |
| TxPools.TxPool.LowerNonce | core/tx_noncer.go:68-79 | the virtual nonce is at most what it was, or what the state says, and at most the given one, and is one of the two; it is remembered, and no other account's is touched |
| TxPools.TxPool.RaiseNonce | core/tx_noncer.go:81-91 | the virtual nonce is at least what it was, or what the state says, and at least the given one, and is one of the two; it is remembered, and no other account's is touched |
| TxPools.TxPool.ResetBaseFee | core/tx_list.go:676-679 | afterwards each remote transaction has exactly one heap entry |
| TxPools.TxPool.ContentFacts | core/tx_pool.go:1090-1280 | in every valid pool the lookup is exactly what is pending or queued and the nonces of an account are disjoint |
| TxPools.TxPool.LedgerFacts | core/tx_pool.go:1109-1191 | in every valid pool whose ledger says so no remote transaction has two heap entries and the slots are within the limits |
| PoolTruncation.TruncatePending | core/tx_pool.go:2132-2214 | water-filling: one level of at least AccountSlots to which every non-local account is cut, keeping its lowest nonces; the total fits GlobalSlots or every non-local account is at most at AccountSlots; when anything was dropped the total ends above GlobalSlots minus the number of accounts cut; every virtual nonce is the least of what it was and the nonces its account lost |
| PoolTruncation.Equalize | core/tx_pool.go:2158-2186 | the offenders come down together, no further than the next size and no longer than the pool is over its limit |
| PoolTruncation.DropOneEach | core/tx_pool.go:2164-2183 | one round lowers the common level of all offenders by one |
| PoolTruncation.PopLargest | core/tx_pool.go:2150-2155 | an account with the most pending transactions |
| PoolTruncation.LowestNest | core/tx_pool.go:2167-2167 | cutting twice is cutting to the lower level |
| QueueTruncation.TruncateQueue | core/tx_pool.go:2217-2259 | the total ends at the larger of GlobalQueue and the local total; accounts are emptied from the newest heartbeat on, one is cut to its lowest nonces, older ones and locals keep everything; pending lists and virtual nonces stay |
| QueueTruncation.SortByBeat | core/tx_pool.go:2227-2234 | the accounts by increasing heartbeat, each once |
| QueueTruncation.DropHighest | core/tx_pool.go:2243-2257 | exactly the highest nonces of one queue go |
| PoolRuns.PromoteExecutables | core/tx_pool.go:2066-2127 | every listed account, named once or more often, ends as promotion alone would leave it, with its virtual nonce after the last promoted one; all others as they were |
| PoolRuns.PromoteAgain | core/tx_pool.go:2066-2127 | a second promotion finds nothing ready and drops nothing |
| PoolRuns.RunIsMaximal | core/tx_list.go:202-217 | what is left after the ready run lies above the nonce that follows it |
| PoolRuns.PromotionSettles | core/tx_pool.go:2074-2118 | what stays queued is neither stale nor unpayable and within the account limit |
| PoolRuns.DemoteUnexecutables | core/tx_pool.go:2268-2322 | every account ends as demotion alone would leave it |
| PoolRuns.Run | core/tx_pool.go:1090-2322 | over every run of add, remove, promote, demote, truncate and reset the lookup is exactly what is pending or queued, and no nonce is both; while nothing is entered with an old heap entry left no remote transaction has two entries and a run of remote transactions stays within the slot limits; handing in each transaction once is enough for that |
| PoolRuns.Step | core/tx_pool.go:1090-2322 | of all operations only adding a transaction seen before can give one two heap entries; while none has two, only a local transaction can take the pool over its slot limits |
| PoolRuns.RunReorg | core/tx_pool.go:1874-1952 | the accounts asked for, or all queued ones after a reset, are promoted, after a reset from where the transactions of abandoned blocks have been offered in turn; after a reset all are demoted; then the pending lists are cut to one level, the queues from the newest heartbeat on, each virtual nonce is pulled back to the lowest nonce its account lost and then raised past what is pending. After a run pending fits GlobalSlots or every non-local account is small, the queue fits GlobalQueue or holds locals only, virtual nonces are past everything pending, and the chain state is the new one exactly when a reset was asked for, the node is not synchronising and its blocks could be read; after a reset every pending transaction is current and payable and no remote one has two heap entries |
| PoolRuns.Reset | core/tx_pool.go:1973-2061 | the new state is taken over and every transaction of an abandoned block is offered again in turn, with the outcome of each; nothing happens when blocks or state cannot be read |
| PoolRuns.RaiseNonces | core/tx_pool.go:1940-1948 | each virtual nonce is the least that is neither below its value nor at or below a pending nonce |
| PoolExamples.Resubmit | core/tx_pool.go:1090-1191 | in every pool within its limits, removing a remote transaction and submitting it again leaves two heap entries for it exactly when the removal triggers no rebuild, and one otherwise |
| PoolExamples.OverLimit | core/tx_pool.go:1109-1147 | a run of remote transactions that ends with five slots taken under a limit of four |
| PoolExamples.EvictedForNothing | core/tx_pool.go:1109-1156 | a run in which a local replacement is refused after a remote transaction was dropped for it |
| Scheduling.QueuedFacts | core/tx_pool.go:1850-1857 | the queued events are exactly those not overwritten at the same sender and nonce |
| Scheduling.BatchServes | core/tx_pool.go:1828-1848 | a run launched with a batch serves each of its requests: first old head to last new head, all accounts included |
| Scheduling.Scheduler.LaunchIfNeeded | core/tx_pool.go:1816-1826 | a run is launched only when none is active, with everything asked for since the last launch |
| Scheduling.Scheduler.RequestReset | core/tx_pool.go:1830-1838 | the request joins the next batch and gets the channel of a run not yet launched |
| Scheduling.Scheduler.RequestPromote | core/tx_pool.go:1840-1848 | the accounts join the next batch and the requester gets the channel of a run not yet launched |
| Scheduling.Scheduler.QueueEvent | core/tx_pool.go:1850-1857 | the event joins the next batch without scheduling a run |
| Scheduling.Scheduler.Shutdown | core/tx_pool.go:1862-1868 | the channel of the next run, which was not closed before, is closed after the current run is over |
| Scheduling.Scheduler.RunEnds | core/tx_pool.go:1882-1882 | the run closes its own channel, which was open |
| Scheduling.Schedule | core/tx_pool.go:1773-1871 | in every interleaving at most one run is active, no channel is closed twice, a requester's channel is closed only by a run that serves the request or by shutdown, every event is in one batch, and a run gets exactly the events of its batch that were not overwritten |
| Feeds.Find | event/feed.go:213-220 | the index of a channel, or -1 exactly when it is absent |
| Feeds.DeleteParts | event/feed.go:223-225 | a deletion shortens the sending part exactly when it hits it, and loses only the deleted case |
| Feeds.DeactivateParts | event/feed.go:228-232 | the case leaves the sending part for the served part, nothing else moves across |
| Feeds.Feed.Subscribe | event/feed.go:72-92 | the subscription becomes active, in the inbox |
| Feeds.Feed.RemoveBegin | event/feed.go:103-114 | a case in the inbox goes at once; any other waits, and is then in the send list |
| Feeds.Feed.RemoveLocked | event/feed.go:119-123 | with the send lock the case is found and deleted |
| Feeds.Feed.SendBegin | event/feed.go:128-155 | the send takes over exactly the active subscriptions |
| Feeds.Feed.TrySend | event/feed.go:156-165 | an accepted try delivers to the channel at its slot, which was taken over and not served before, and makes the measure smaller |
| Feeds.Feed.SelectSend | event/feed.go:178-181 | the chosen channel, taken over and not served before, is served and the measure shrinks |
| Feeds.Feed.SelectRemove | event/feed.go:171-177 | the index of the removed channel is valid, slot 0 stays the removal case, and the measure shrinks |
| Feeds.Feed.TriedAll | event/feed.go:166-170 | when only the removal case is left every channel taken over was served exactly once or removed, and the count is right |
| Feeds.Run | event/feed.go:72-196 | in every interleaving each active subscription is in exactly one list; every send that began has ended, but for one under way; and each that ended has delivered once to every channel it took over, but for those whose removal was asked for and took place, with nsent the number of deliveries |
| HashArrays.FirstOccurrencesFacts | common/types.go:290-300 | same elements, none twice |
| HashArrays.NoDupIsKept | common/types.go:318-321 | exactly the lists without duplicates are left alone |
| HashArrays.WithoutFacts | common/types.go:275-287 | the difference holds exactly the elements not in the other list and makes no duplicates |
| HashArrays.Uniq | common/types.go:290-300 | the first occurrences in order |
| HashArrays.Difference | common/types.go:275-287 | the list without the elements of the other, in order |
| HashArrays.Deduplicate | common/types.go:303-314 | in place: the kept prefix is the first occurrences although it overwrites the array while reading it |
| HashArrays.Has | common/types.go:358-365 | membership |
| Dag.ReachUnfold | core/headerchain.go:974-1049 | a block reaches itself and what its parents reach, if it may be looked behind |
| Dag.ReachDescends | core/headerchain.go:974-1049 | ancestors are strictly lower |
| HeaderChains.HeaderChain.CollectFrom | core/headerchain.go:974-1049 | for every cache state the memoised search returns exactly the reachable blocks, the missing hashes and whether the checkpoint is reached, keeps the cache right and terminates by height |
| HeaderChains.HeaderChain.ParentAnswer | core/headerchain.go:1011-1037 | a cached answer is used only for the same checkpoint, a new one is computed otherwise, and the answer given is in the cache afterwards |
| HeaderChains.HeaderChain.Collect | core/headerchain.go:935-972 | the search from several parents is exact for all up to the first that reports an error |
| HeaderChains.LeafCases | core/headerchain.go:986-1007 | missing blocks, the checkpoint, blocks numbered below it and blocks without parents are not looked behind |
| HeaderChains.NoOrphansNoError | core/headerchain.go:1000-1007 | no error is ever reported exactly when every block the search can come to, other than genesis, has parents |
| HeaderChains.ErrorReported | core/headerchain.go:1000-1049 | an error is reported exactly when the last parents, inside the blocks looked behind, lead to a block without parents |
| HeaderChains.LostOrphan | core/headerchain.go:1046-1046 | a block without parents that is reached goes unreported exactly when no chain of last parents ends in such a block |
| HeaderChains.SwallowedError | core/headerchain.go:1046-1046 | a concrete store in which an error found through an earlier parent is lost |
| Heights.SearchIsDifference | core/headerchain.go:974-1049 | below a checkpoint whose past is what is numbered below it, the search finds the ancestors that are neither the checkpoint nor in its past |
| Heights.HeightCountsAncestors | core/blockchain.go:3609-3634 | from a checkpoint whose own height counts its ancestors, the computed height is at least the number of ancestors and equals it exactly when the checkpoint is one of them |
| Heights.HeightsAreCounts | core/blockchain.go:2447-2460 | if every block has the height that verification demands, every height is the number of ancestors |
| Heights.Overcount | core/blockchain.go:3609-3634 | a store in which the height computed for a checkpoint off the path is three where there are two ancestors |
| Heights.HeightIndependent | core/blockchain.go:3609-3634 | any two checkpoints among the ancestors give the same height |
| Heights.HeightAboveParents | core/blockchain.go:2541-2550 | the computed height exceeds that of every parent whose height counts its ancestors |
| Heights.CalcBlockHeightByParents | core/blockchain.go:3609-3630 | refuses an unknown or unfinalised checkpoint and missing parents, and else gives the height with the properties above |
| Insertion.EntrySurvives | core/headerchain.go:1021-1037 | a cached answer stays right after an insertion exactly when it does not report that block missing |
| Insertion.CheckParents | core/blockchain.go:2523-2567 | fine exactly when all parents are stored, lower and earlier; incomplete exactly when the first parent at fault is missing; says whether all share a slot |
| Insertion.SameSlotsApart | core/blockchain.go:2561-2569 | parents in one slot are not ancestors of each other, so they need not be searched |
| BlockTips.OldSearch | core/blockchain.go:3145-3147 | inserting a fresh block changes no search from older blocks |
| BlockTips.ListsTogether | core/blockchain.go:3540-3550 | the parents and their lists together are what the recursion from the parents finds |
| BlockTips.AntichainKept | core/blockchain.go:3328-3329 | insertion keeps the unfinalised tips an antichain |
| BlockTips.CoverKept | core/blockchain.go:3328-3329 | insertion keeps every covered block at or below a tip, and covers the new one |
| BlockTips.HeightsKept | core/blockchain.go:2447-2460 | a block verified as the code does it keeps all blocks verified and all heights counting ancestors |
| BlockChains.BlockChain.DagFor | core/blockchain.go:3229-3307 | the list of a parent, stored or made, is as a set what the recursion finds; there is one exactly when it is stored or its checkpoint is finalised |
| BlockChains.BlockChain.EnsureCpDag | core/blockchain.go:3517-3538 | exactly when it is stored or can be made, the list of the checkpoint is returned, right and saved; no other list changes |
| BlockChains.BlockChain.CollectHashes | core/blockchain.go:3517-3578 | exactly when the checkpoint has a list and every tip leads to it: what each tip contributes, without duplicates; a tip over another checkpoint contributes its list without the checkpoint and the finalised blocks of the checkpoint's own list |
| BlockChains.BlockChain.GetTips | core/headerchain.go:614-633 | finalised tips are dropped unless there are no others |
| BlockChains.BlockChain.AddTips | core/headerchain.go:636-645 | the new tip joins the tips that remain |
| BlockChains.BlockChain.RemoveTips | core/headerchain.go:648-660 | the given hashes leave the tips that GetTips gives |
| BlockChains.BlockChain.AncestorList | core/blockchain.go:3152-3316 | exactly when the lists it needs are stored or can be made, the list of a new block is as a set what the parent recursion returns, also directly on the checkpoint |
| BlockChains.BlockChain.InsertBlock | core/blockchain.go:3145-3331 | succeeds exactly when the lists it needs are there; the stored list is exact, the tips are the unfinalised old ones and the block minus its ancestors, antichain and coverage hold, inserted blocks keep their lists, and the search cache stays right |
| BlockVerify.CollectByTips | core/headerchain.go:852-932 | exactly the parents without a list are reported; the ancestors are what the other lists hold, without the checkpoint and the finalised blocks of its own list |
| BlockVerify.AfterCpIsSearch | core/headerchain.go:852-932 | over one checkpoint the lists amount to what the recursion from the parents finds |
| BlockVerify.IsAncestorByTips | core/blockchain.go:4481-4505 | the ancestors of a block, but for its own checkpoint when that is neither genesis nor a parent; no answer only for an unknown block or a missing list |
| BlockVerify.VerifyBlockParents | core/blockchain.go:2523-2595 | for every header in a fully verified DAG: fine exactly when all parents are stored, lower and earlier and of one slot or not answered to be related; so, unless a parent is the checkpoint of another that is not its child, exactly when no unfinalised parent has another among its ancestors |
| BlockVerify.UnrelatedIsApart | core/blockchain.go:2568-2592 | the answers tell whether one parent is an ancestor of another exactly when no parent is the checkpoint of another unfinalised one, genesis and that one's parents aside; parents of one slot are unrelated |
| BlockVerify.CountAncestors | core/blockchain.go:2333-2351 | for a block on its checkpoint, on blocks over it, or on both, the ancestors counted are what the recursion finds |
| BlockVerify.VerifyBlock | core/blockchain.go:2333-2426 | for a block on its checkpoint, on blocks over it, or on both: fine exactly when the parents pass verifyBlockParents and the height is the checkpoint's plus the blocks found after it plus one; and, unless a parent is the checkpoint of another that is not its child, exactly when parents and height are as they must be |
| BlockVerify.WholeFollows | core/blockchain.go:2699-2832 | blocks on their checkpoint, on blocks over it, or on both pass the checks of verifyCheckpoint that concern the DAG |
| BlockVerify.WholeKept | core/blockchain.go:2447-2460 | a right block over a checkpoint keeps a fully verified DAG fully verified |
| BlockVerify.InsertBlocks | core/blockchain.go:2997-3335 | over every run of insertions the unfinalised tips are an antichain, every inserted block has a list and is a tip or an ancestor of one, and the inserted blocks are those accepted; in a fully verified DAG exactly the new, right blocks over their checkpoint are accepted and afterwards every height is the number of ancestors |
| BlockExamples.UnseenCheckpoint | core/blockchain.go:4481-4505 | a store in which a block is an ancestor of another and the answer for it is no |
| BlockExamples.AcceptsShortcut | core/blockchain.go:2568-2592 | in that store VerifyBlock accepts a block with those two as parents |
| BlockVerify.GrowFromGenesis | core/blockchain.go:2997-3335 | a chain grown from genesis holds exactly the right blocks, with heights that count ancestors |
| Removal.BlockStore.AppendToChildren | core/blockchain.go:4565-4575 | each parent's child list gains exactly the block |
| Removal.BlockStore.Insert | core/blockchain.go:3145-3147 | child lists keep covering the parent links |
| Removal.BlockStore.RmBlockData | core/blockchain.go:947-1002 | exactly the block and everything built on it go, with their child lists; no stored block is left without a parent |
| Removal.BuiltOnChildren | core/blockchain.go:957-969 | what is built on a block is the block and what is built on its listed children |
| Removal.BuiltOutside | core/blockchain.go:962-969 | removing one child's descendants first does not change what is left of another's |
| Indexing.AdvanceBetween | core/chain_indexer.go:515-527 | every single read or write of an undisturbed setValidSections keeps the heads below the counter, has dropped those beyond it, and brings the call nearer to its end |
| Indexing.ResetKeeps | core/chain_indexer.go:406-410 | every single read or write of a failing reset keeps the account of what locked calls inside it have done: whether a head lies beyond what the reset will still give up, and whose count is stored |
| Indexing.CallKeeps | core/chain_indexer.go:515-527 | a locked call between two of those steps keeps the account with itself added |
| Indexing.ResetOver | core/chain_indexer.go:515-527 | after the last step heads, stored sections and count are in step exactly when the calls inside did not disturb the reset |
| Indexing.ChainIndexer.Facts | core/chain_indexer.go:515-527 | while no locked call and no failing reset overlapped every stored section has its head; between calls and resets heads exist exactly for the stored sections and the count agrees, if every failing reset was undisturbed and none of its steps fell into a locked call or the reads before it |
| Indexing.ChainIndexer.CallStep | core/chain_indexer.go:515-527 | one read or write of a setValidSections under the lock; when no step of a reset has fallen into it, the call ends with count and stored sections equal and exactly the heads beyond gone |
| Indexing.ChainIndexer.FinishCall | core/chain_indexer.go:515-527 | the steps of a call come to an end, and together they leave what setValidSections promises |
| Indexing.ChainIndexer.SetValidSections | core/chain_indexer.go:515-527 | under the lock, count and stored sections agree and the heads beyond are gone |
| Indexing.ChainIndexer.LookStep | core/chain_indexer.go:457-476 | one read of Sections between two calls, whatever a reset has done since the read before; the answer is put together from three of them |
| Indexing.ChainIndexer.Check | core/chain_indexer.go:457-476 | with no reset in between, a turn gives up the last section exactly when its head is not canonical, and else answers with the count, the last block and its hash |
| Indexing.ChainIndexer.VerifyLastHead | core/chain_indexer.go:457-465 | rolls back to the largest section count whose last head is canonical |
| Indexing.ChainIndexer.HeadBegin | core/chain_indexer.go:250-307 | a reorganisation lowers the known sections and goes on to setValidSections exactly when fewer sections are left than are stored; a new head only raises the known ones |
| Indexing.ChainIndexer.NewHead | core/chain_indexer.go:250-307 | as a whole, a reorganisation lowers known and stored sections to those before it |
| Indexing.ChainIndexer.Sections | core/chain_indexer.go:470-476 | the count with a canonical last head, or the wrapped number and the zero hash when nothing is stored |
| Indexing.ChainIndexer.UpdateBegin | core/chain_indexer.go:331-348 | the section to process is the first one not stored after verification |
| Indexing.ChainIndexer.UpdateEnd | core/chain_indexer.go:362-383 | the hash comparison commits exactly when processing succeeded and, in an index in step, the stored sections are still those it started on |
| Indexing.ChainIndexer.ResetStep | core/chain_indexer.go:406-410 | one read or write of a failing reset without the lock; after the last one heads, stored sections and count are in step again exactly when the last locked call inside left no section and no head was lost, provided none of its steps fell into a locked call |
| Indexing.ChainIndexer.FailedReset | core/chain_indexer.go:406-410 | with nothing in between, a failing reset leaves no section, no head and a count of zero |
| Indexing.ProcessSection | core/chain_indexer.go:412-446 | succeeds exactly when every block of the section can be read and processed, with the last hash, which is not zero |
| Indexing.Run | core/chain_indexer.go:250-476 | in every interleaving of single reads and writes with one updater: while no locked call and no failing reset overlap every stored section has its head, and without failing resets they never do; between calls and resets heads exist exactly for the stored sections and the count agrees, if no step of a failing reset fell into a locked call or the reads before it and no locked calls inside one disturbed it |
| Indexing.LostCount | core/chain_indexer.go:406-410 | a reorganisation between the writes of a failing reset leaves a count of one with nothing stored |
| Indexing.LostHead | core/chain_indexer.go:406-410 | a reorganisation between giving a section up and deleting its head leaves that head behind |
| Indexing.LostSection | core/chain_indexer.go:515-527 | a failing reset before the last assignment of a reorganisation to one section leaves that section stored without head and count |
| Indexing.WrappedCounter | core/chain_indexer.go:515-527 | a failing reset between test and decrement of a reorganisation to no section makes the counter wrap around |
| Indexing.WrappedCall | core/chain_indexer.go:457-465 | a failing reset between the reads of Sections makes it store 2^64 - 1 sections |
| Gas.IntrinsicGas | core/state_transition.go:130-176 | overflow is reported exactly when the price of the data does not fit 64 bits; else the price, modulo 2^64 with the access list |
| Gas.GasPool.AddGas | core/gaspool.go:29-35 | adds exactly when the sum fits 64 bits; where it does not the source panics |
| Gas.GasPool.SubGas | core/gaspool.go:39-45 | subtracts exactly when there is enough |
| Gas.StateTransition.BuyGas | core/state_transition.go:214-245 | gas is bought exactly when the sender can pay and the pool has enough |
| Gas.StateTransition.RefundGas | core/state_transition.go:417-431 | unused gas and at most a fifth of the used gas return to the pool, whose sum never overflows |
| Gas.StateTransition.TransitionDb | core/state_transition.go:318-413 | exactly when gas is not bought, bought and lost, or used; the used gas is what execution spent minus the refund; the pool loses exactly that |
| Gas.Refund | core/state_transition.go:417-423 | the cap of EIP-3529: at most the counter and at most a fifth of the gas used |
| Gas.CommitBlockTransactions | core/blockchain.go:3777-3842 | pool, used and lost gas add up to the limit; if all gas limits together fit, no transaction hits the limit, and one whose own gas limit exceeds the block's always does |
| Gas.VerifyBlockUsedGas | core/blockchain.go:2429-2445 | accepts exactly when the 64-bit sum is within the limit |
| Gas.AcceptedFits | core/blockchain.go:2429-2445 | an accepted block fits its limit exactly when the sum does not overflow |
| Gas.OverflowPasses | core/blockchain.go:2429-2445 | a block of two transactions is accepted although both then hit its gas limit |
| DerivationPaths.String | accounts/hd.go:122-136 | the loop prints the components, hardened ones marked |
| DerivationPaths.ParseDerivationPath | accounts/hd.go:68-118 | the loop parses as the specification does, with the same error for the first bad component |
| DerivationPaths.ComponentRoundTrip | accounts/hd.go:90-115 | every printed 32-bit component, hardened or not, parses back to itself |
| DerivationPaths.RoundTrip | accounts/hd.go:68-136 | every non-empty path parses back from its printed form; the empty path is refused |
| DerivationPaths.PrintInjective | accounts/hd.go:122-136 | two paths with the same printed form are equal |
| DerivationPaths.ParsePrintParse | accounts/hd.go:68-136 | printing and parsing again what was parsed gives the same path |

## Left out

- The processing lists (moveToProcessing, moveToProcessingAccelerated): they re-add transactions under other rules, so the pool invariants are stated for runs without them; the branch of demoteUnexecutables that needs a processing list is never taken here.
- validateTx, signatures, journalling, metrics, gas price changes and the pool's event loop.
- Scheduling.Schedule: what a background run does to the pool is modelled separately by PoolRuns.RunReorg.
- PoolRuns.RunReorg: which blocks a reorganisation abandons is an input, as is the base fee; the events sent to subscribers are left to the scheduler model.
- QueueTruncation.DropHighest: a whole queue is emptied from the highest nonce, where the code starts at the lowest; the outcome is the same.
- Feeds: the type checks and their panics.
- BlockChains.BlockChain.InsertBlock: covers a block directly on its checkpoint or on unfinalised blocks over the same checkpoint; blocks mixing checkpoints, and the state, receipts and validation work of insertBlocks, are not modelled.
- BlockVerify.VerifyBlock: slots, eras, creators, hashes, base fee and gas are checked elsewhere in the source and are not part of it; of verifyCheckpoint only what concerns the DAG is. The exact condition is stated for a DAG in which all blocks were verified and have lists, as insertion from genesis builds it, and for blocks whose parents are their checkpoint or unfinalised blocks over it.
- BlockVerify.InsertBlocks: a run also stops at a verified block that mixes checkpoints or goes on its checkpoint and on blocks over it, and where the header of a checkpoint is missing; the exact outcome assumes that the finalised blocks named as checkpoints have as their past what is numbered below them.
- Heights.CalcBlockHeightByParents: heights are unbounded, where the code adds in 64 bits.
- Finalisation, rollback, checkpoints and eras, and the deletion of stale ancestor lists.
- Removal.BlockStore.RmBlockData: the slot and number indexes, bodies, receipts and other caches deleted along with a block; the sorting of child lists.
- Indexing: checkpoints, child indexers, throttling and the event loop; memory is sequentially consistent.
- Gas: balances, rewards and fees; the virtual machine, token and validator processors are an arbitrary function that leaves no more gas than it is given.
- DerivationPaths: the iterators and the JSON form.
