# Verified model of the SPV service's chain index, cache, Solana quorum and AuxPoW parser

The service keeps a chain of block headers that it downloads from a node, stores in a key-value
database and serves from memory; it caches responses in a bounded map; it answers Solana queries
by counting the replies of several endpoints and comparing them with those of a judge endpoint; and it
reads Dogecoin merged-mining proofs. This project models those four parts in Dafny and proves what they keep.
`dafny verify dfyconfig.toml` checks all of it. Every lemma carries `{:induction false}`, so a proof is
no more than its body says.

## What is proved

**The header index and its disk.** `Chain` has a finite, rooted tree of blocks with a hash function
under which the tree's own headers do not collide; nothing else about hashing is used. The node
(`Daemons.Daemon`) is honest but may fail any request and may move to another active chain between any
two replies. `HeaderLists` has the vector of headers, the hash-to-height map that reorgs never clean, and
the tip. `Stores` has the database down to its bytes: ordered keys, `V`, `t`, `b`+hash and `D`+hash rows, atomic sorted
batches, and the prefix scan that stops at the first foreign key. `SyncProtocol` is `sync_headers` as a
state machine in which every disk write is one step (a batch is at most 50000 rows) and a crash may come between any two steps;
`EveryRunIsSafe` is its safety theorem. `SyncCalls` says what a whole call does, from
every reachable state and for every tip: it ends on the tip's path, and it says beforehand in which of three ways;
two calls always suffice (`TwoCallsSuffice`).
`Indexers` has the objects with the program's fields and loops, proved to take exactly the machine's
steps, write by write.

**The polling loop.** `IndexerLoop` follows `start_indexer` round by round and says exactly when its
memory agrees with its own `tip` variable.

**The cache.** `SimpleCaches` has the operations on shared cells and what eviction keeps after any run of inserts.
`CacheInterleavings` has the same operations as separate lock, look-up, access and release actions of
concurrent calls, and shows that they never deadlock. `CacheLinearizability` proves every run linearizable:
one sequence of all its calls, gets included, although `get` reads its cell without the map lock.

**The Solana quorum.** `Votes` is plurality voting and `Intersections` the intersection by counting, with the
judge. `Dispatch` is the dispatcher, the workers and the reply channels as a state machine whose
participants interleave freely; `CollectionRuns` shows that its answers are those of the collection loop on the
messages sent; `QuorumSafety` carries plurality over its runs, `SignatureRuns` the intersection.

**The AuxPoW parser.** `AuxPow` proves the cursor parser against a printer of the format: it accepts
exactly the printed proofs, followed by anything.

**Median time past.** `MedianTime` proves the rank of the answer and that it never decreases.

## Where the code does less than one would hope

Each of these is a theorem with the exact condition, not only an example.

- `apply` can index past its vector (`src/header.rs:154`) and panic. `SyncCalls.CallReachesTip` says for every
  call whether it does; `IndexerLoop.PanicIsReachable` reaches it from an empty disk in every tree with
  a three-block branch beside a one-block branch, and `IndexerLoop.CutOffDownloadCrashes` in every tree after a
  first download that was cut off behind its first batch. The tip row is on disk by then, so opening again lands on the
  tip's path.
- A tip that is an earlier block of the current chain is not applied: the incremental path does nothing
  where the rebuild would cut the chain (`Daemons.IncrementalIsRebuild`). The mismatch error and the
  reload repair this.
- After the mismatch error the loop of `start_indexer` keeps its old `tip`. If the node then goes back to
  that tip, the loop makes no call and memory stays on the other block
  (`IndexerLoop.ReturningGoesStale`, `IndexerLoop.LoopInStep`); `IndexerLoop.StaleIsReachable` reaches it.
- A signature that the judge alone lists twice passes the final count of two, and one that the judge
  lists twice and all endpoints list is dropped (`Intersections.JudgedIsIntersection`,
  `Intersections.RepeatByJudgePasses`).
- A signature that one endpoint repeats as often as there are endpoints passes their count although the
  others never reported it, and is answered if the judge lists it once; one that all endpoints report and
  one of them repeats is dropped (`Intersections.FullCountIsInEvery`, `Intersections.AnswerIsIntersection`,
  `Intersections.OneEndpointIsAnswered`).
- A request for account info whose endpoint fails is answered in the variant for slots, which the requester
  holds for unreachable (`Dispatch.VariantMatches`, and a run of it in `Dispatch.MismatchIsReachable`).
- A cache of size 0 holds one entry (`SimpleCaches.EvictionIsExact`).

## Model

| member | source | states |
|---|---|---|
| `SyncProtocol.EveryRunIsSafe` | src/index.rs:31-85 | In every run of open, sync and reload steps from an empty disk, with a crash between any two disk writes: `b` and `D` rows hold the same hashes, each stored header has its whole path to the null hash stored, `t` names a stored header, opening would not panic, and a returned call left memory on its tip's path. |
| `SyncProtocol.InvStep` | src/index.rs:58-85 | Each single step, crash and reopening included, keeps the invariant over disk, memory and the call's progress. |
| `SyncProtocol.LoadOk` | src/store.rs:314-337 | From a consistent disk, loading succeeds and gives the stored tip's path and exactly the marked hashes, so the missing-header panic of `HeaderList::new` cannot happen on opening or reloading. |
| `SyncProtocol.ClosedHoldsPath` | src/store.rs:410-419 | A set of stored hashes closed under parents holds the whole path of each of its members. |
| `SyncProtocol.FilterDropsPrefix` | src/index.rs:49-56 | Filtering a downloaded linked path by a parent-closed set removes exactly a prefix of it. |
| `SyncProtocol.ToAddShape` | src/index.rs:49-71 | What the filter leaves is linked and contiguous in height and hangs on hashes known before, so the assertions at the top of `apply` hold on it. |
| `SyncProtocol.ChunkKeepsDisk` | src/index.rs:33-36 | Writing one batch that is cut between entries leaves a consistent disk: both kinds of rows for exactly the entries written so far, closed under parents. |
| `SyncProtocol.SortIsHarmless` | src/store.rs:152-172 | Sorting a batch by key before writing it does not change the resulting disk. |
| `SyncProtocol.TargetStored` | src/index.rs:62-68 | When the tip row is about to be written, the tip's own header is already marked stored. |
| `SyncCalls.CallReachesTip` | src/index.rs:58-85 | From any reachable state and for any tip of the tree, a call that does not crash ends in memory on exactly the tip's path, with the result foreseen from memory beforehand; it panics exactly in the foreseen case, with the tip on disk, and opening then gives the tip's path. |
| `SyncCalls.ApplyVerdict` | src/header.rs:141-179 | On the filtered headers, `apply` panics, ignores or accepts them exactly as the three-way condition on memory and tip says. |
| `SyncCalls.TailRejected` | src/header.rs:150-165 | Once a non-empty prefix has been filtered away, the rest never links to the current chain: it is ignored, or it starts above the chain's length and panics. |
| `SyncCalls.RetryIsIdempotent` | src/index.rs:74-84 | Calling again with the tip a call returned with gives `Ok` and changes neither memory nor disk, also after the mismatch error. |
| `SyncCalls.TwoCallsSuffice` | src/index.rs:58-85 | From any reachable state, stopped ones included: open, call, open again if the call panicked, and call again; the second call returns `Ok` on exactly the tip's path. |
| `SyncCalls.DiskWritesOk` | src/index.rs:31-68 | Each intermediate disk of a call, after any of its writes, is consistent. |
| `SyncCalls.CallWrites` | src/index.rs:31-68 | A call makes one write for every 25000 missing headers begun (50000 rows), each marking exactly the next of them in order, and then one for the tip; only the last touches the tip row. |
| `SyncCalls.CallIsRun` | src/index.rs:58-85 | A whole call is a stretch of a run of the state machine. |
| `Indexers.Indexer.SyncHeaders` | src/index.rs:58-85 | The object's method, with the real download, order, filter, batches, tip row, apply and reload, takes disk and memory exactly where the specified call takes them, and its disk writes are exactly the specified ones in order; a failed download changes nothing, and the download does not fail when its requests are answered and, from an empty index, the tip stays on the active chain. |
| `Indexers.Indexer.HeadersToAdd` | src/index.rs:60-66 | The download, ordered and filtered, is exactly the missing headers that are not yet stored; it fails only if a request did, or, from an empty index, if the tip left the active chain meanwhile. |
| `Indexers.Indexer.AddSyncBlockHeader` | src/index.rs:31-47 | The batch loop makes the machine's writes one by one and then adds exactly the new hashes to the synced set. |
| `Indexers.Indexer.WriteAll` | src/index.rs:67-68 | All batches, the synced set and then the tip row: disk, memory and the sequence of disk writes are the machine's up to `apply`. |
| `Indexers.Indexer.ApplyOrReload` | src/index.rs:69-84 | The end of a call, after the tip row is written, ends where the machine does: applied, reloaded with the mismatch error, or panicked. |
| `Indexers.Store.Reload` | src/store.rs:340-379 | Memory becomes what the disk's content determines, or nothing changes and the call panics. |
| `Indexers.Store.Open` | src/store.rs:314-337 | Opening gives the memory the disk's content determines, and panics exactly when that rebuild does. |
| `IndexerLoop.IndexerThread.Round` | src/main.rs:264-287 | One round of the polling loop has the specified effect on disk, memory and the loop's `tip` and keeps the invariant for the next round; a call is skipped only if there is nothing to do or its download was not served; the thread panics only in a call that crashes as specified, or in the checks of a first download whose requests were all answered but whose tip left the active chain meanwhile. |
| `IndexerLoop.LoopInStep` | src/main.rs:274-283 | After any rounds, memory's tip equals the loop's `tip` if and only if the last call that was made did not end in the mismatch error. |
| `IndexerLoop.PollKeeps` | src/main.rs:264-287 | A round keeps the invariant; a round that calls and survives leaves memory on the polled tip's path and moves the loop's `tip` exactly when the call succeeds. |
| `IndexerLoop.ReturningGoesStale` | src/main.rs:274-283 | Going back to a block synced before always ends in the mismatch error, never in `Ok` or a panic; if the node then returns to the loop's `tip`, no call is made and memory stays on the other block's path. |
| `IndexerLoop.SyncedIsMismatch` | src/index.rs:65-82 | A call for a stored block that is not the current tip ends in the mismatch error, whatever the block. |
| `IndexerLoop.StaleIsReachable` | src/main.rs:264-287 | In every tree with a fork there is a run from an empty disk after which two rounds leave the loop on its `tip` and memory on another block. |
| `IndexerLoop.PanicIsReachable` | src/header.rs:150-154 | In every tree with the described fork there is a run from an empty disk after which a call panics in `apply`. |
| `IndexerLoop.ForkedTreeExists` | src/header.rs:150-154 | A tree with that fork exists, so the previous statement is not about nothing. |
| `IndexerLoop.InterruptedFirstSyncCrashes` | src/index.rs:68-71 | In any reachable state with part of the first download stored and no tip row, the next call panics, and opening after that panic gives the tip's path. |
| `IndexerLoop.CutOffDownloadCrashes` | src/index.rs:31-71 | In every tree and for every tip whose path needs more than one batch, the run open, begin, first batch, crash, open reaches such a state from an empty disk. |
| `HeaderLists.HeaderList.Apply` | src/header.rs:141-179 | The object's update in place is the value-level `apply`, on which the chain and lookup theorems are proved, in each of its three ways: applied, ignored, panicked. |
| `HeaderLists.HeaderList.New` | src/header.rs:63-99 | The loop that takes headers out of the map, the reversal, the ordering and `apply` together are the specified rebuild, panics included. |
| `HeaderLists.ApplyKeeps` | src/header.rs:141-179 | Whatever linked headers of the tree are passed, the chain afterwards is the path of the tip and each of its blocks is found through the height map, stale heights and all. |
| `HeaderLists.AppliedExactly` | src/header.rs:141-165 | On a rooted linked chain, `apply` goes ahead exactly when the chain it would leave is rooted and linked too; it panics exactly on entries that do not hang together or start above the chain. |
| `HeaderLists.ApplyIsPath` | src/header.rs:166-178 | Cutting at the first new height and appending gives exactly the path of the last new header. |
| `HeaderLists.LookupIsLinearSearch` | src/header.rs:181-189 | After any series of `apply` calls that do not panic, `header_by_blockhash` finds an entry exactly when it is on the current chain. |
| `HeaderLists.HeaderList.HeaderByBlockhash` | src/header.rs:181-189 | On an index that is the tip's path, the two guarded look-ups return exactly the chain's entry with the given hash. |
| `HeaderLists.EqualsIsWholeChain` | src/header.rs:197-199 | Comparing the last entries decides equality of the two whole header sequences. |
| `HeaderLists.HeaderList.Equals` | src/header.rs:197-199 | For two lists on one tree, the comparison of the last entries answers whether the whole header sequences are equal. |
| `HeaderLists.RebuildIsPath` | src/header.rs:63-99 | From any part of the tree, `new` panics exactly when a header of the tip's path is missing; otherwise it gives exactly that path. |
| `HeaderLists.WalkIsPath` | src/header.rs:77-88 | The walk back through the map finds the whole path or misses one of its headers, and nothing else. |
| `HeaderLists.OrderAgain` | src/header.rs:101-139 | Ordering the headers of a linked piece above a block of the chain gives the piece back, with its heights and hashes. |
| `HeaderLists.OrderExactly` | src/header.rs:101-139 | Ordering succeeds exactly with the entries that carry the given headers and their hashes, hang together and sit on the null hash or one above a block that is found; in every other case it panics. |
| `Chain.NoRepeats` | src/header.rs:141-148 | A null-rooted linked chain never repeats a hash. |
| `Chain.ChainIsPath` | src/header.rs:141-148 | A null-rooted linked chain of the tree is determined by its last hash. |
| `Daemons.Daemon.GetNewHeaders` | src/daemon.rs:284-315 | The walk ends (the depth of the current hash decreases) and returns, oldest first, exactly the missing headers. From a non-empty index it never panics and succeeds when none of its requests fails; from an empty one it succeeds when, besides, the tip stays on the active chain. |
| `Daemons.Daemon.GetAllHeaders` | src/daemon.rs:258-282 | If it returns headers they are exactly the tip's path, whatever the node's active chain did meanwhile; it does return them if none of its requests fails and the tip is on the active chain, which may grow, whenever one is answered; its final checks panic only when no request failed, and it ends in an error only if a request fails or the active chain is shorter than the tip's. |
| `Daemons.Daemon.Download` | src/daemon.rs:265-273 | The chunks together are exactly the headers of the tip's path, while the tip stays on the active chain; a download takes two requests for every 100000 heights begun, and fails only if a request does or the active chain is too short. |
| `Daemons.Daemon.GetBlockHeaders` | src/daemon.rs:234-256 | The two batched requests give the headers of the tip's path at the asked heights while the tip stays on the active chain, and in any case only headers of the tree. |
| `Daemons.MissingIsOffChain` | src/daemon.rs:302-314 | The downloaded headers are exactly the tip's ancestors that are not on the current chain. |
| `Daemons.OrderMissing` | src/header.rs:101-139 | `order` never panics on what the walk downloads and numbers it with the true heights. |
| `Daemons.ApplyMissing` | src/header.rs:141-179 | Unfiltered, the downloaded headers never make `apply` panic and move the chain to the tip, unless there was nothing to download. |
| `Daemons.IncrementalIsRebuild` | src/daemon.rs:284-315 | Download, order and apply give the same headers, tip and lookup answers as a full rebuild from any map that has the tip's ancestors, if and only if the tip is the current one or is not on the current chain. |
| `Daemons.LinksToIsPath` | src/daemon.rs:275-280 | Headers that pass the final linkage checks are the tip's path, from whatever chains they were read. |
| `Stores.DB.Write` | src/store.rs:152-172 | One batch, sorted and put row by row, changes the stored rows as one atomic write of exactly these rows. |
| `Stores.DB.LoadBlockhashes` | src/store.rs:392-397 | The scan returns exactly the hashes marked done. |
| `Stores.DB.LoadSyncBlockheaders` | src/store.rs:399-408 | The scan returns exactly the stored headers, each under its own hash. |
| `Stores.DB.PutTip` | src/store.rs:182-188 | The tip row is replaced and every other row stays. |
| `Stores.ScanIterator.Next` | src/store.rs:37-50 | The iterator yields the prefixed rows one by one and, once done, nothing more. |
| `Stores.ScanIsFilter` | src/store.rs:121-127 | On sorted keys, seeking to the prefix and stopping at the first foreign key loses no prefixed row and yields no other. |
| `Stores.PutHolds` | src/store.rs:245-297 | Writing a `b` or `D` row keeps the correspondence between the sorted byte rows and the stored headers and marks: no key collides with another. |
| `Stores.RowsByKey` | src/store.rs:245-297 | In a database with this content, key `b`+hash holds the header's 80 bytes or nothing, `D`+hash an empty mark or nothing, and `t` the tip's 32 bytes or nothing. |
| `Stores.PutGet` | src/store.rs:182-192 | Reading any key after a put gives the new value under that key and the old one elsewhere. |
| `Stores.PutSorted` | src/store.rs:152-172 | Puts keep the rows in key order. |
| `Bytes.LessIsLexicographic` | src/store.rs:152-172 | The order of the keys is the lexicographic one on bytes: the first difference decides, and a prefix comes first. |
| `Codecs.HeaderRoundTrip` | src/store.rs:255-263 | The 80 bytes of a header parse back to it. |
| `Codecs.HeaderBytesOnto` | src/store.rs:404-404 | Every 80 bytes are the wire form of the header they parse to. |
| `Codecs.HeaderLayout` | src/store.rs:404-404 | Each parsed field is the value of its own bytes: version 0-3 in two's complement, previous hash 4-35, Merkle root 36-67, time 68-71, bits 72-75, nonce 76-79, integers lowest byte first. |
| `Codecs.HashRoundTrip` | src/store.rs:395-395 | The 32 bytes of a hash and the hash determine each other. |
| `MedianTime.GetMtp` | src/header.rs:225-237 | For an in-range height the answer is the element of rank n/2 of the last n timestamps up to that height, with n = 11, or height + 1 below height 11; out of range it is 0, and on an empty list it panics. |
| `MedianTime.RankIsUnique` | src/header.rs:234-235 | The rank condition determines the value. |
| `MedianTime.CountIsSize` | src/header.rs:234-235 | The count in the rank condition is the number of positions with a smaller timestamp. |
| `MedianTime.SortIsPermutation` | src/header.rs:234-234 | Sorting gives ascending times and keeps the number of elements below every bound. |
| `MedianTime.MtpNeverDecreases` | src/header.rs:225-237 | If every header's time exceeds its predecessor's median, the median never decreases with height. |
| `SimpleCaches.SimpleCache.Insert` | src/utils.rs:99-110 | A full map loses its smallest key, also when the key is already present, and then has the new value under the key. |
| `SimpleCaches.SimpleCache.Get` | src/utils.rs:113-122 | The value in the key's cell, or none. |
| `SimpleCaches.SimpleCache.Write` | src/utils.rs:126-135 | An existing key then has the new value; every other key keeps its own, and a missing key is not added. |
| `SimpleCaches.SimpleCache.Remove` | src/utils.rs:138-142 | The key is gone and nothing else changes. |
| `SimpleCaches.EvictionIsExact` | src/utils.rs:99-110 | After any inserts the keys are exactly the last one and the size - 1 largest of those before it (size 0 counts as 1). |
| `SimpleCaches.TopIsUnique` | src/utils.rs:103-105 | "The n largest keys" determines a set. |
| `SimpleCaches.InsertedValues` | src/utils.rs:99-110 | There are never more entries than the size, and each has the value inserted last under its key. |
| `CacheInterleavings.StepKeeps` | src/utils.rs:99-142 | Each lock, look-up, access or release of any call keeps the cells, the map and the locks consistent. |
| `CacheInterleavings.EffectIsExact` | src/utils.rs:99-142 | What each operation leaves under any key: a write changes the value of its key if it is there, a remove takes its key out, an insert gives its key the value and takes the smallest key out of a full map, and nothing else changes. |
| `CacheInterleavings.LocksExclude` | src/utils.rs:99-142 | In every run, whoever holds the map lock or a cell lock exclusively is the only one to hold it. |
| `CacheInterleavings.GetSeesAMoment` | src/utils.rs:113-122 | A `get`, which reads its cell after letting go of the map lock, returns what the abstract map held for its key at a moment inside the call. |
| `CacheInterleavings.RemovedValueIsRead` | src/utils.rs:113-142 | A run in which a `get` returns a value although a `remove` of its key has returned before the read. |
| `CacheInterleavings.DeadCellsStay` | src/utils.rs:126-142 | A cell that is no longer in the map never changes again. |
| `CacheInterleavings.NeverStuck` | src/utils.rs:99-142 | The two levels of lock never deadlock: at every moment of every run with a call in flight, some call in flight can take a step. |
| `CacheLinearizability.Linearizable` | src/utils.rs:99-142 | For every run there is one sequence of all its calls, gets included, each once with its own operation, that executed one after the other from an empty cache gives the same map and every returned result, and in which a call that returned before another was invoked comes first. |
| `CacheLinearizability.LinearizableAtEveryMoment` | src/utils.rs:99-142 | The same holds at every moment of a run: what has happened so far is such a sequence, and the visible map is what it leaves. |
| `CacheLinearizability.PlacedInside` | src/utils.rs:99-142 | The place of a call in that sequence lies after its invocation and before its return. |
| `CacheLinearizability.NeverStale` | src/utils.rs:99-142 | After any sequence of calls a look-up gives what the last insert, write or remove of the key left there, or nothing if it was evicted; never anything else. |
| `CacheLinearizability.RoomForAll` | src/utils.rs:99-110 | While fewer keys than the size have been inserted, nothing is evicted. |
| `Votes.Plurality` | src/chains/sol.rs:1103-1130 | In whatever order the votes and counts are walked: `Ok(v)` exactly for the value with strictly more votes than each other value, an error exactly when there is none (no votes, or a tie at the top). |
| `Votes.LeaderIsUnique` | src/chains/sol.rs:1111-1123 | At most one value leads, so the answer does not depend on iteration order. |
| `Votes.MajorityLeads` | src/chains/sol.rs:1132-1159 | A value with more than half of the votes leads. |
| `Votes.TieHasNoLeader` | src/chains/sol.rs:1112-1118 | Two values sharing the highest count leave no leader. |
| `Votes.JudgedEqualExactly` | src/chains/sol.rs:1554-1566 | The request is answered with a value exactly when that value leads and is the judge's; in every other case, an error among the endpoints included, it ends in an error. |
| `Votes.JudgedSlotExactly` | src/chains/sol.rs:1484-1498 | The request is answered exactly with the judge's slot, and exactly when some slot leads that is not behind it; in every other case it ends in an error. |
| `Intersections.Intersect` | src/chains/sol.rs:1161-1182 | In whatever order the lists are walked, the answer holds, once each, exactly the items whose occurrences in all lists together number as many as the lists. |
| `Intersections.FullCountIsInEvery` | src/chains/sol.rs:1165-1177 | For any lists, the count singles out the items of every list if and only if the item, when it is in every list, repeats in none, and otherwise does not repeat its way to that count. |
| `Intersections.NoneRepeatsIsFair` | src/chains/sol.rs:1165-1177 | Without repeats inside a list, that count means being in every list. |
| `Intersections.OneEndpointPassesAlone` | src/chains/sol.rs:1165-1177 | Of three endpoints, one that lists an item three times passes it although the others list nothing. |
| `Intersections.OneEndpointIsAnswered` | src/chains/sol.rs:1352-1365 | If the judge lists that item once, it is answered. |
| `Intersections.Judged` | src/chains/sol.rs:1313-1370 | The judge's first item, then in first-occurrence order those later judge items whose count over both lists is two; an empty judge list gives an empty answer and an endpoint error is passed on. |
| `Intersections.PairsComeFromJudge` | src/chains/sol.rs:1352-1362 | Counting over both lists lets only judge items through, in the judge's order. |
| `Intersections.JudgedIsIntersection` | src/chains/sol.rs:1352-1365 | The count to two is the intersection in the judge's order if and only if each agreed judge item occurs once there and no other occurs exactly twice. |
| `Intersections.RepeatByJudgePasses` | src/chains/sol.rs:1352-1365 | An item the judge alone repeats is passed on although no endpoint reported it. |
| `Intersections.SignaturesForAddress` | src/chains/sol.rs:1275-1370 | For any lists, the answer is the judge's first item followed by exactly those later ones that are in every endpoint's list, in the judge's order, if and only if each later judge item is fairly counted. |
| `Intersections.AnswerIsIntersection` | src/chains/sol.rs:1352-1365 | The two counts together are that intersection exactly when each item of every list occurs once in each and once with the judge, and no other passes either count by repeats. |
| `Intersections.NoRepeatIsFair` | src/chains/sol.rs:1275-1370 | Without repeats in the judge's and the endpoints' lists the request is fair. |
| `Dispatch.Deal` | src/chains/sol.rs:868-936 | The loop answers at the first message that fails, completes the distinct votes or comes after the time limit, with the answer that message calls for, and otherwise never. |
| `Dispatch.DoTask` | src/chains/sol.rs:499-538 | At most three tries and exactly one message: the first success, or the failure after the third. |
| `Dispatch.TriesSendOnce` | src/chains/sol.rs:499-538 | In the protocol, a worker's tries for one task, interleaved with nothing else of that worker, amount to sending exactly the message that its loop sends. |
| `Dispatch.StepKeeps` | src/chains/sol.rs:200-340 | Each step of the requesters, the dispatcher or a worker, in any interleaving, keeps the protocol invariant. |
| `Dispatch.OneResponsePerTask` | src/chains/sol.rs:868-950 | In every run each submitted task gets at most one response, and responses come in submission order. |
| `Dispatch.OneMessagePerTask` | src/chains/sol.rs:499-538 | In every run a worker has sent exactly one message for each task it took, in order, except the one it is working on. |
| `CollectionRuns.MachineDeals` | src/chains/sol.rs:868-936 | In every run, each step of collecting takes the next of the messages sent for the open task, in the order they were sent, and then goes on or answers exactly as the collection loop does after these messages. |
| `CollectionRuns.CollectDeals` | src/chains/sol.rs:880-936 | One step of collecting, with the votes of the messages taken so far, goes on exactly when the loop goes on after one message more, and otherwise logs one response, for the open task, with which the loop ends there. |
| `CollectionRuns.EveryAnswerIsDealt` | src/chains/sol.rs:868-950 | Every response of every run was given in one event: the refusal of a task that could not be broadcast, or the end of the collection loop for that task. |
| `CollectionRuns.SendPosts` | src/chains/sol.rs:513-537 | A message for the open task goes to the end of its channel, behind those that wait; one for another task is lost, and nothing but beginning and collecting otherwise changes the channel. |
| `CollectionRuns.NothingLost` | src/chains/sol.rs:266-340 | A worker that never falls behind has taken, or has waiting, every task broadcast, in order. |
| `Dispatch.SendNeverWaits` | src/chains/sol.rs:874-874 | In every run, when a worker replies to the open task, the channel with room for one message per endpoint has room. |
| `Dispatch.EveryEndpointCounts` | src/chains/sol.rs:898-916 | In every run, votes are counted only when there is one from each endpoint, each as that endpoint reported it for this very task. |
| `Dispatch.QuorumSafety` | src/chains/sol.rs:1554-1566 | In every run: if more than half of the endpoints only ever report v for a task, the counted plurality is v, and the judged answer is v if the judge says v and an error otherwise. |
| `Dispatch.SlotQuorumSafety` | src/chains/sol.rs:1484-1495 | The same for slots: the judge's slot is answered exactly when it is at most v, and otherwise there is an error. |
| `SignatureRuns.SignaturesOverRuns` | src/chains/sol.rs:1275-1370 | In every run: once the lists for a task are counted, what the judge makes of their intersection is exactly its items that every endpoint reported for that task, in its order, if and only if the request is fair; without repeats it is. |
| `Dispatch.VariantMatches` | src/chains/sol.rs:774-866 | In every run a task is answered in the variant its requester matches on, not one it holds for unreachable, except exactly when the task is for account info and an endpoint failed. |
| `Dispatch.MismatchIsReachable` | src/chains/sol.rs:799-811 | A run in which a task for account info, after three failed tries of its endpoint, is answered in the variant for slots. |
| `Dispatch.DecidedIsReachable` | src/chains/sol.rs:868-950 | A run in which votes are counted exists. |
| `AuxPow.DogeMerkleBlock` | src/daemon.rs:402-442 | It succeeds exactly on the hexadecimal text of a printed proof followed by any bytes, and then returns that proof's header and tree, whatever the merged-mining section holds. |
| `AuxPow.WorkFlag` | src/daemon.rs:410-411 | The flag of a parsed header is the lowest bit of its second byte. |
| `AuxPow.ProofLayout` | src/daemon.rs:408-440 | Where everything is in a printed proof: the header in the first 80 bytes; then, exactly if the second byte is odd, coinbase, parent hash, coinbase branch, chain branch and parent header, one behind the other; then the tree. |
| `AuxPow.BranchLayout` | src/daemon.rs:418-425 | A branch takes its length, 32 bytes for each hash and four for its mask, each where this says. |
| `AuxPow.VarIntLayout` | src/daemon.rs:418-419 | A length below 253 is one byte; otherwise a byte 253, 254 or 255 comes before its two, four or eight bytes, lowest first, by size. |
| `AuxPow.ProofReads` | src/daemon.rs:402-442 | Every well-formed proof, with branches of any length, reads back from its printed bytes and leaves what follows. |
| `AuxPow.ProofExact` | src/daemon.rs:402-442 | Bytes that are accepted are the print of the proof read, followed by what is left. |
| `AuxPow.VarIntReads` | src/daemon.rs:418-419 | Every 64-bit length reads back from its shortest form. |
| `AuxPow.VarIntExact` | src/daemon.rs:427-428 | Only the shortest form of a length is accepted. |
| `AuxPow.Cursor.SkipHashes` | src/daemon.rs:420-423 | The branch loop succeeds exactly when the announced hashes are there and leaves the cursor behind them; each turn but a failing last one consumes 32 bytes, whatever length was announced. |
| `AuxPow.Cursor.SkipWork` | src/daemon.rs:411-438 | The cursor passes over the merged-mining section exactly where the format says it ends, or fails where the format does. |
| `AuxPow.FlagClearAgrees` | src/daemon.rs:393-400 | With the flag clear, the plain parser gives the same header and tree on a printed proof, and an error exactly when bytes follow it. |
| `AuxPow.PlainIsProof` | src/daemon.rs:393-400 | Whatever the plain parser accepts with the flag clear is a printed proof with nothing after it, so the Dogecoin parser accepts it too. |
| `AuxPow.LeadingHeaderOfProof` | src/daemon.rs:380-391 | The header read from the first 80 bytes is the header of the proof the bytes begin with. |
| `AuxPow.TextCarries` | src/daemon.rs:402-407 | The hexadecimal text of any printed proof is text the parser recognises as that proof. |
| `AuxPow.HexDecodesPairs` | src/daemon.rs:407-407 | A text decodes to exactly the bytes whose high and low digits its characters are in pairs, and to nothing if it is not made of such pairs. |
| `AuxPow.HexDigits` | src/daemon.rs:407-407 | The digits and their values, in both cases of letters, and no other character. |

## Left out

- Transport: HTTP, JSON-RPC framing, request ids beyond a counter, and network errors other than "this request fails".
- The database engine and sealing: the database is an ordered map with atomic batches, sealing is the identity; compaction, the version check's failure and options are not modelled.
- Hash collisions: the hash function is arbitrary, but no two headers of the tree share a hash and none has the null hash.
- A dishonest node: it returns the header that hashes to what was asked, from one finite rooted tree.
- Concurrent readers of the header index: the `RELOAD` flag, lock poisoning and the two moments of the write locks in a reload; a panic is a crash that keeps the disk only.
- `sync_headers_with_api_check` and `api_check`: the first takes the same steps as `sync_headers`, ignores its list of services, and asserts that the tips are equal where `sync_headers` reloads; the second compares headers with ones fetched over HTTP.
- `start_indexer` before its loop: the first call is an ordinary call, `unwrap` makes any error end the thread, and the sleeps are not modelled; the endless loop is any finite number of rounds.
- `Cursor` positions after an error: the parser gives up, so the model leaves them open.
- Integer width of heights, counts and timestamps: they are unbounded, since a vector of headers cannot reach the width of `usize`; header fields and lengths on the wire have their real widths.
- The decoders of transactions and partial trees: the `bitcoin` crate is not part of this model; they are any decoders that read back what they print and accept nothing else, for the values they can return.
- `doge_block_from_value`: the same parser with a list of transactions after the header; the theorems hold for any payload decoder.
- JSON encoding of values that are counted: two values are counted together when they are equal.
- `get_program_accounts`: the same count without an order; its judge check adds no new reasoning.
- Fairness of the cache's locks: which waiting call gets a lock next is left open, so a call may wait for ever behind others, though never all calls at once.
- Liveness of the Solana collection loop: the time limit is looked at only after a message arrives, so a silent endpoint holds it for ever; only safety is proved.
- Bounded task and broadcast queues: a full task queue makes the requester wait, which the model does not distinguish from not having submitted; a worker that falls behind loses tasks, one at a time.
- `verify_txid`, partial Merkle tree matching, the peer-to-peer and Ethereum light clients, request parsing and response shaping, and the response cache's users.
