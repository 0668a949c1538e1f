# Verified models of the Bee node's core components

This project models five parts of the vendored Bee node and proves what they promise:

* **The concurrent Binary Merkle Tree hasher** (`pkg/bmt`, used by `pkg/cac`). Goroutines climb a shared tree
  while a parity toggle per node decides who hashes the parent. `BmtMachine` is the transition system of their
  atomic steps, `BmtReference` the recursive hash it must compute, and `BmtTree`/`BmtHasher` the same steps on
  linked, mutable nodes; `BmtWear` counts how often a tree can be reused, `BmtReuse` lets goroutines left over from
  one chunk run on under the next, and `BmtCommit` says what a digest commits to. The main result: under every split
  of the data, every schedule and every stale tree, `Hash` returns the reference digest, exactly one result is sent,
  and the tree can be reused.
* **The local store's index machine** (`pkg/localstore`). `StoreOps` holds the transitions of the indexes,
  `StoreLemmas` and `StoreRepeat` what they keep, `StoreCalls`, `StorePuts` and `StoreReserve` whole calls,
  `StoreStatus` the small state machine of one chunk that they refine, `StoreGc` garbage collection, `StoreRuns` all
  interleavings, `StoreGrowth` how bin ids grow along them, `StoreSlots` and `StoreEvictions` which stamp slots the gc
  entries carry and evictions free, `StoreUnreserve` what unreserving does in all, `StorePlaces` the pull and postage
  entries of stored chunks, `StoreLimits` and `StoreWitnesses` where the guarantees end, and `Store` the object with its
  batches and loops. `PullSubscription` follows a subscriber through such runs, `PullDelivery` a chunk from its put to
  the subscriber; `Sampler` is the assembly of the reserve sample.
* **Per-peer accounting** (`pkg/accounting`). `AccountingOps` holds one function per method, `Accounting` the
  object and its credit and debit actions, `AccountingRuns` the invariants of every run, `AccountingGrowth` the growth
  of granted thresholds, `AccountingMemory` what the account remembers of its past, `AccountingDecisions` when a peer is
  served, paid or blocked, and `AccountingPair` two nodes that keep accounts of each other.
* **The interval set** (`pkg/intervalstore`). `Intervals` and `IntervalsAdd` relate the one-pass loop to the merge it
  stands for, `IntervalsSync` covers gaps and the sync loops, `IntervalsCodec` the text form, `IntervalSet` the object.
* **Counter-mode encryption** (`pkg/encryption`), in `Encryption`; `Endian` is the byte form of its counter, and of spans.

The base hash is an arbitrary function with 32-byte results; clocks, random bytes and schedules are parameters, so
each theorem holds for all of them. Integer widths are explicit where they matter: the int32 toggle, uint64 interval
ends, the uint64 subtraction of garbage collection, the uint32 counter of the encryption. `dafny verify dfyconfig.toml`
checks everything.

## Where the code falls short of its intent

Each of these is proved with an input that shows it, next to the condition under which the intent holds.

* A node's toggle wraps to a negative state after 2^30 full chunks; from then on the first arriver takes itself for the
  second (`BmtQuiescence.TogglePairs`, `BmtWear.TogglesCount`, `BmtWear.ReuseBeyondBoundFails`,
  `BmtWear.AlwaysRightIff`).
* `updateGC` breaks the gc index when the chunk was removed and stored again since it was read
  (`StoreGc.UpdateGCKeepsIff`, `StoreWitnesses.StaleReadBreaksPartition`).
* `putUpload` and `putSync` drop the count of the chunk they replace, so `gcSize` runs ahead (`StorePuts.PutGains`,
  `StoreWitnesses.LostCountReached`). It falls behind when one call counts an entry down twice: a set that pins, removes
  or syncs and names a cached chunk again (`StoreLimits.SetFallsBehindIff`, `StoreWitnesses.RepeatedNamingReached`), or
  a request over two slots of one cached chunk (`StorePuts.PutFallsBehindIff`, `StoreWitnesses.SharedOwnerReached`),
  which also loses a slot entry (`StoreLimits.SecondRemovalFreesSlot`). A set that unpins a chunk twice on its last pin
  counts it up twice (`StoreWitnesses.RepeatedUnpinReached`).
* An entry made by unpinning carries the stamp slot without its index. Evicting such a chunk leaves its own slot taken
  and deletes the slot entry of index zero instead, also where that belongs to another stored chunk
  (`StoreEvictions.EvictionFreesSlotIff`, `StoreWitnesses.ForeignSlotFreed`). The slot that is left refuses later
  stamps as long as its owner is not stored (`StoreLimits.StaleSlotBlocks`, `StoreWitnesses.BlockedSlotReached`).
* A chunk whose stamp slot holds the same or a later stamp is not stored, and yet `Put` does not report it as existing
  (`Store.KeptIsNotReported`, `Store.DB.Put`).
* A put that replaces a gathered candidate without marking it dirty makes the running garbage collection fail and drop
  its work (`StoreGc.CollectTakesOldest`, `StoreWitnesses.ReplacedCandidateFails`).
* `add` inserts a range that lies strictly inside another one as a separate entry, and at 2^64-1 looks at the first
  entry only (`IntervalsAdd.AddIsMergeIff`, `IntervalsAdd.InnerRangeStays`, `IntervalsAdd.TopRangeGoesFirst`), so a list
  with more than one range that ends there does not survive the codec (`IntervalsCodec.RoundTrip`,
  `IntervalsCodec.TopRangeIsNotRead`).
* `Next` uses 0 for "no limit" and therefore misreports the gap [0, 0] (`IntervalsSync.NextIsRightIff`,
  `IntervalsSync.NextMisreportsZero`).
* `Connect` does not reset the originated balance, and clears the reserves under open actions and payments
  (`AccountingRuns.ConnectIffSettled`, `AccountingRuns.ConnectStrandsCredit`, `AccountingRuns.ConnectStrandsDebit`,
  `AccountingRuns.ConnectStrandsPayment`).

## Model

| member | source | states |
|---|---|---|
| `BmtTheorems.HashIsReference` | code/bee-snips-sup/pkg/bmt/bmt.go:79-264 | in every run (any split of the data into `Write` calls, any interleaving of the goroutines, any stale segments of a pooled tree whose toggles are at rest) at most one value is ever sent on `result`, and whatever `Hash` returns is H(span, root) of the recursive reference on the zero-padded data |
| `BmtTheorems.HashArrives` | code/bee-snips-sup/pkg/bmt/bmt.go:160-264 | when `Hash` has been called and no goroutine can move any more, exactly one result has been sent: the wait on the channel ends |
| `BmtTheorems.AllEndedSent` | code/bee-snips-sup/pkg/bmt/bmt.go:165-264 | once every goroutine has ended, the final one included, the root hash has been sent |
| `BmtTheorems.SchedulesEnd` | code/bee-snips-sup/pkg/bmt/bmt.go:133-264 | the goroutines of a run take a bounded number of effective steps, whatever the schedule, so every fair schedule reaches the state `HashArrives` speaks about |
| `BmtQuiescence.HashingIsExclusive` | code/bee-snips-sup/pkg/bmt/bmt.go:180-198 | a goroutine that is about to hash a node finds both child segments equal to the reference hashes of the two subtrees, and no other goroutine is hashing the same node |
| `BmtQuiescence.QuietAfterResult` | code/bee-snips-sup/pkg/bmt/bmt.go:205-264 | after the result was sent no step of any goroutine still running writes a segment or a toggle: the tree may go back to the pool at once |
| `BmtQuiescence.TogglePairs` | code/bee-snips-sup/pkg/bmt/pool.go:143-148 | for an even int32 state, the first `toggle` reports active and the second passive if and only if the state is not negative (the increment wraps and Go's remainder keeps the sign) |
| `BmtQuiescence.NodeAfterUse` | code/bee-snips-sup/pkg/bmt/pool.go:143-148 | when `Hash` can return, every inner node has been toggled 0 or 2 times |
| `BmtQuiescence.TreeIsReusable` | code/bee-snips-sup/pkg/bmt/pool.go:73-88 | a tree good for n chunks is good for n - 1 when `Hash` returns, whatever data it hashed and under whatever schedule |
| `BmtQuiescence.LeftoversAreSilent` | code/bee-snips-sup/pkg/bmt/bmt.go:205-264 | every goroutine still running when the result has arrived is silent: it only passes nodes up to the root and ends there without sending |
| `BmtQuiescence.SilentStep` | code/bee-snips-sup/pkg/bmt/bmt.go:125-130 | a step of a silent goroutine in any state whatever, such as after `Reset` while the next chunk is hashed on the same tree, writes nothing and leaves it silent or ended |
| `BmtReuse.LeftoversDoNotMatter` | code/bee-snips-sup/pkg/bmt/bmt.go:125-264 | goroutines left over from a chunk whose hash has arrived may take their turns in any order between the steps of the next chunk on the same tree, buffer and channel: the state of the new chunk is what its own steps alone make it, and the old ones stay silent |
| `BmtReuse.NextChunkIsReference` | code/bee-snips-sup/pkg/bmt/bmt.go:79-264 | so a hasher that is reset, or a tree that goes back to the pool, as soon as the hash has arrived gives the next chunk its reference digest under every such interleaving, and at most one result |
| `BmtWear.TogglesCount` | code/bee-snips-sup/pkg/bmt/pool.go:143-148 | for every depth, after n chunks of full size, whatever they were and however they were scheduled, each toggle of a fresh tree stands at 2n in int32 arithmetic, so at -2^31 after 2^30 of them, and the right segments hold the hashes of the last chunk |
| `BmtWear.SomeFullUses` | code/bee-snips-sup/pkg/bmt/pool.go:73-88 | such uses exist: from any reachable state some schedule ends, so a tree can in fact serve 2^30 full chunks one after the other |
| `BmtWear.WornTreeHashesStaleSegments` | code/bee-snips-sup/pkg/bmt/bmt.go:161-199 | on a tree of any depth from 2 on whose toggles all stand at one state that is odd or negative, the goroutine of the first section climbs to the root alone and `Hash` returns a digest over the right segments of the last user |
| `BmtWear.ReuseBeyondBoundFails` | code/bee-snips-sup/pkg/bmt/pool.go:143-148 | so after 2^30 full chunks a further chunk whose right half hashes differently can get a digest that is not its own, or the base hash has one of two explicit collisions |
| `BmtWear.AlwaysRightIff` | code/bee-snips-sup/pkg/bmt/pool.go:143-148 | a tree whose toggles all stand at one int32 state gives the reference digest for every data and every schedule if and only if the state is even and not negative; the only way out is that one of finitely many named pairs of strings is a collision of the base hash |
| `BmtReference.ZeroSubtree` | code/bee-snips-sup/pkg/bmt/pool.go:35-58 | the zerohash table holds the roots of all-zero subtrees: a subtree wholly past the data hashes to the entry of its height |
| `BmtReference.RefDigestIsRoot` | code/bee-snips-sup/pkg/bmt/reference/reference.go:37-78 | the recursive reference on the padded buffer is the node-by-node tree hash the concurrent proof works with |
| `BmtRuns.StepKeeps` | code/bee-snips-sup/pkg/bmt/bmt.go:133-264 | every atomic step of every goroutine keeps the invariant of the climb |
| `BmtRuns.WriteCallKeeps` | code/bee-snips-sup/pkg/bmt/bmt.go:102-122 | a `Write`, between any two steps, keeps the invariant: the buffer holds the data so far, and exactly the full sections before the open one have been started |
| `BmtRuns.HashCallKeeps` | code/bee-snips-sup/pkg/bmt/bmt.go:79-85 | padding the open section and starting the final goroutine keeps the invariant |
| `BmtSteps.FinalWriteNode` | code/bee-snips-sup/pkg/bmt/bmt.go:215-242 | the final goroutine's assignments leave every node holding the true hashes of its children, the spliced zero hash on the right included |
| `BmtSteps.ToggleNode` | code/bee-snips-sup/pkg/bmt/bmt.go:180-183 | of two goroutines meeting at a node exactly the second goes on, and it carries both children |
| `BmtConf.SizeToParams` | code/bee-snips-sup/pkg/bmt/pool.go:151-157 | the segment count rounded up to the least power of two (at least 2), and its exponent |
| `BmtConf.NewConf` | code/bee-snips-sup/pkg/bmt/pool.go:35-58 | depth, capacity and zerohash table fit together: entry i is the hash of the all-zero subtree of height i, and maxSize is the size of the tree |
| `BmtConf.ZeroHashes` | code/bee-snips-sup/pkg/bmt/pool.go:38-48 | the loop that fills the table |
| `BmtTree.NewTree` | code/bee-snips-sup/pkg/bmt/pool.go:121-141 | the loops over the levels build a complete binary tree: parent links, left/right flags and leaves are those of the index arithmetic, all nodes distinct and untoggled |
| `BmtTree.TreeNode.Toggle` | code/bee-snips-sup/pkg/bmt/pool.go:146-148 | adds one in int32 arithmetic and tells whether the caller is the one to wait |
| `BmtHasher.Hasher.constructor` | code/bee-snips-sup/pkg/bmt/pool.go:74-83 | a new hasher on a tree with arbitrary contents starts in the initial state of the transition system |
| `BmtHasher.Hasher.Write` | code/bee-snips-sup/pkg/bmt/bmt.go:102-122 | the in-place update is the `Write` transition: what fits is copied, every section that became full is started |
| `BmtHasher.Hasher.BeginHash` | code/bee-snips-sup/pkg/bmt/bmt.go:79-85 | the in-place update is the `Hash` transition up to the wait |
| `BmtHasher.Hasher.EndHash` | code/bee-snips-sup/pkg/bmt/bmt.go:80-91 | what `Hash` returns: the empty-data digest, the digest over the received root, or nothing yet |
| `BmtHasher.Hasher.Reset` | code/bee-snips-sup/pkg/bmt/bmt.go:125-130 | a reset hasher is a fresh one on the same tree |
| `BmtHasher.Hasher.SetHeader` | code/bee-snips-sup/pkg/bmt/bmt.go:63-65 | copies the span, and no more than its eight bytes |
| `BmtHasher.Hasher.ProcessSection` | code/bee-snips-sup/pkg/bmt/bmt.go:133-158 | hashing a section on the shared buffer is the leaf transition |
| `BmtHasher.Hasher.WriteNode` | code/bee-snips-sup/pkg/bmt/bmt.go:165-179 | the top of the `writeNode` loop on the shared nodes is a step of the transition system |
| `BmtHasher.Hasher.WriteFinalNode` | code/bee-snips-sup/pkg/bmt/bmt.go:205-243 | the top of the `writeFinalNode` loop, with the spliced zero hashes and the carried nil, is a step of the transition system |
| `BmtHasher.Hasher.ToggleNode` | code/bee-snips-sup/pkg/bmt/bmt.go:180-183 | the atomic toggle on a shared node is the toggle transition |
| `BmtHasher.Hasher.HashNode` | code/bee-snips-sup/pkg/bmt/bmt.go:184-196 | hashing left and right and turning to the parent is the hash transition |
| `BmtHasher.Hasher.Drive` | code/bee-snips-sup/pkg/bmt/bmt.go:79-264 | a whole schedule run on the linked tree is the run of the transition system |
| `BmtHasher.Prove` | code/bee-snips-sup/pkg/bmt/proof.go:20-37 | the climb along parent links collects exactly the sisters of the path, and refuses indexes outside 0 to 127 |
| `BmtHasher.Verify` | code/bee-snips-sup/pkg/bmt/proof.go:41-64 | the climb computes the digest of the functional verification |
| `BmtProof.ProofsVerify` | code/bee-snips-sup/pkg/bmt/proof.go:20-64 | after non-empty data was hashed, for every segment whose section is at or before the last written one, verifying its proof gives exactly the digest `Hash` returned, and the proof carries that section of the data |
| `BmtProof.ProofsBind` | code/bee-snips-sup/pkg/bmt/proof.go:41-64 | two proofs with equally many sisters for one index that verify to the same digest are equal, or exhibit a collision of the hash among the strings hashed on the way |
| `Cac.NewPooledTree` | code/bee-snips-sup/pkg/bmt/pool.go:62-71 | a tree made for the pool is good for 2^30 chunks |
| `Cac.HashChunk` | code/bee-snips-sup/pkg/cac/cac.go:65-76 | with any pooled tree and any schedule the helper returns the reference digest, and gives back a tree with one use less |
| `Cac.New` | code/bee-snips-sup/pkg/cac/cac.go:22-35 | refuses exactly empty and oversized data, each with its error; otherwise, once the hash has arrived, the chunk whose first eight bytes say the length of the payload, the lowest byte first, and whose rest is the payload, under the reference digest of both |
| `Cac.NewWithDataSpan` | code/bee-snips-sup/pkg/cac/cac.go:38-48 | the same for data that brings its span: refused exactly below 8 and above 4104 bytes, and otherwise the chunk holds the data as it is |
| `Cac.NewSays` | code/bee-snips-sup/pkg/cac/cac.go:25-34 | every chunk built from a payload says its length: its first eight bytes, byte i counting 256^i, sum up to it |
| `Endian.LittleEndianSays` | code/bee-snips-sup/pkg/cac/cac.go:33 | the bytes of a number that fits, byte i counting 256^i, sum up to the number |
| `Endian.SameValue` | code/bee-snips-sup/pkg/encryption/encryption.go:139-141 | bytes that say the same number are the same, so that no two counters have the same bytes |
| `Cac.Valid` | code/bee-snips-sup/pkg/cac/cac.go:79-92 | refuses wrong lengths, and otherwise compares the address with the hash that arrives |
| `Cac.BuildThenValidate` | code/bee-snips-sup/pkg/cac/cac.go:22-92 | a chunk built on one pooled tree is accepted by `Valid` on another tree, or on the same one again, each with stale contents and a schedule of its own, whenever both hashes arrive |
| `Cac.ValidateThenBuild` | code/bee-snips-sup/pkg/cac/cac.go:38-92 | for every chunk, `Valid` on one tree says yes exactly if `NewWithDataSpan` on another tree, or on the same one again, builds that chunk from its data |
| `Cac.AddressCommits` | code/bee-snips-sup/pkg/cac/cac.go:79-92 | two valid chunks with one address have the same span and the same zero-padded payload, or their trees hold a collision |
| `Cac.TrailingZerosShareAddress` | code/bee-snips-sup/pkg/cac/cac.go:51-62 | a payload and the payload with one more zero byte get the same address under the same span |
| `StoreLemmas.SetPinSound` | code/bee-snips-sup/pkg/localstore/mode_set.go:303-346 | `setPin` touches one chunk only, keeps it consistent, and reports exactly the change of the gc index |
| `StoreLemmas.SetUnpinSound` | code/bee-snips-sup/pkg/localstore/mode_set.go:350-411 | the same for `setUnpin`, on its error paths too; the change is never negative |
| `StoreLemmas.SetRemoveSound` | code/bee-snips-sup/pkg/localstore/mode_set.go:234-298 | the same for `setRemove` |
| `StoreLemmas.SetSyncSound` | code/bee-snips-sup/pkg/localstore/mode_set.go:156-228 | the same for `setSync`, which never fails |
| `StoreLemmas.PutNewSound` | code/bee-snips-sup/pkg/localstore/mode_put.go:319-361 | storing a new chunk in any mode keeps it consistent and reports exactly the change of the gc index |
| `StoreLemmas.PutChunkSound` | code/bee-snips-sup/pkg/localstore/mode_put.go:118-134 | a whole `putChunk`, with the removal of the chunk that held the stamp slot, also one that an earlier chunk of the call has removed: both addresses consistent, all others untouched, and the count off by exactly what was removed without counting or counted without removing |
| `StoreRepeat.SetOneAgain` | code/bee-snips-sup/pkg/localstore/mode_set.go:50-148 | naming a chunk again in one call takes it where the last naming alone would have taken it, and no gc entry comes or goes |
| `StoreCalls.SetCallKeeps` | code/bee-snips-sup/pkg/localstore/mode_set.go:50-148 | `Set` keeps the partition of all indexes in every mode, for any list of addresses and any clock; `gcSize` moves against the gc index by exactly what repeated addresses are counted once more and by its underflow guard; other chunks are untouched |
| `StoreCalls.DistinctSetKeeps` | code/bee-snips-sup/pkg/localstore/mode_set.go:50-148 | with distinct addresses, and a counter that is not behind, the distance of `gcSize` from the gc index stays exactly the same |
| `StorePuts.PutCallKeeps` | code/bee-snips-sup/pkg/localstore/mode_put.go:67-249 | `Put` keeps the partition in every mode, whatever slots its chunks take over; `gcSize` moves against the gc index by the distinct cached owners removed, less the removals that were counted, and by its underflow guard |
| `StorePuts.PutFallsBehindIff` | code/bee-snips-sup/pkg/localstore/mode_put.go:273-518 | of a committed put let `added` be its new chunks that go to the cache and `counted` the takeovers of cached owners its mode counts: as long as `gcSize + added` covers `counted`, `gcSize` falls behind if and only if the put is a request two of whose new chunks take over slots of the same cached chunk; otherwise the guard drops the change, and it falls behind if and only if more entries are added than distinct cached owners go |
| `StorePuts.PutGains` | code/bee-snips-sup/pkg/localstore/mode_put.go:369-518 | every other put leaves the counter exact, or ahead by the cached chunks that an upload or sync removes without counting |
| `StoreReserve.UnpinAllKeeps` | code/bee-snips-sup/pkg/localstore/reserve.go:86-161 | the rounds of `unpinBatchChunks` keep partition and count, leave all data in place and chunks without a pin untouched |
| `StoreGc.UpdateGCKeepsIff` | code/bee-snips-sup/pkg/localstore/mode_get.go:131-185 | `updateGC` keeps the partition if and only if the item it was handed still matches the chunk (or has nothing to move); it never changes the number of gc entries |
| `StoreGc.CollectIsSafe` | code/bee-snips-sup/pkg/localstore/gc.go:154-252 | a gc run that commits evicts only candidates still in the gc index under the key they were gathered with, unpinned and untouched since the run began; the counter falls by their number, without underflow and never below the target; all other chunks are untouched; a failed run changes nothing |
| `StoreGc.CollectTakesOldest` | code/bee-snips-sup/pkg/localstore/gc.go:165-245 | a run evicts the untouched candidates in index order until the counter meets the target, reports done exactly when some are left over, and fails if and only if one of those chunks has left the store |
| `StoreStatus.SetCallRefines` | code/bee-snips-sup/pkg/localstore/mode_set.go:50-148 | seen per chunk, a `Set` call that commits is one step of a small state machine (stored, pushing, accessed, pins, cached) for each address named, once or repeatedly, and no step for any other |
| `StoreStatus.SetCallCommitsIff` | code/bee-snips-sup/pkg/localstore/mode_set.go:50-148 | a `Set` call commits if and only if its mode allows every chunk named, and otherwise changes nothing |
| `StoreStatus.SetRemoveClears` | code/bee-snips-sup/pkg/localstore/mode_set.go:260-283 | removal takes the chunk out of the pull order and both postage indexes as well |
| `StoreStatus.PinThenUnpin` | code/bee-snips-sup/pkg/localstore/mode_set.go:303-411 | pinning a stored chunk and unpinning it again restores its state, cache membership and access time included |
| `StoreStatus.PutCallRefines` | code/bee-snips-sup/pkg/localstore/mode_put.go:67-249 | a `Put` that commits brings each new chunk to the state its mode and radius ask for, under the stamp it came with, leaves no trace of the chunks whose slots it takes over, also of one that owns several of them, and leaves every other chunk as it was |
| `StoreStatus.PutCallCommitsIff` | code/bee-snips-sup/pkg/localstore/mode_put.go:67-249 | a `Put` stores all its new chunks or none; it commits if and only if no immutable slot is taken and every older slot owner still has data |
| `StorePlaces.PutPlaces` | code/bee-snips-sup/pkg/localstore/mode_put.go:273-518 | after a put that commits, each new chunk it stores has a fresh bin id, its address under that id in the pull index if and only if it is no request that forces it into the cache, and its entry with its batch; its stamp slot names it if and only if no later chunk of the call takes the slot or removes an older owner of it; chunks stored before keep their pull entries as long as they stay |
| `StorePlaces.PutChunkPlaces` | code/bee-snips-sup/pkg/localstore/mode_put.go:318-345 | the data and the pull, postage and bin id entries after one chunk, entry by entry, with those of the owner it replaces |
| `StorePlaces.SetRemovePlaces` | code/bee-snips-sup/pkg/localstore/mode_set.go:260-283 | removal takes exactly the data entry, the pull entry, the listing and the slot entry of the chunk, and no other |
| `StorePlaces.AlwaysTidy` | code/bee-snips-sup/pkg/localstore/mode_put.go:556-567 | in every store that started empty no bin gives out an id twice, and chunks are listed under their own proximity order |
| `StorePlaces.StepGrowing` | code/bee-snips-sup/pkg/localstore/mode_set.go:260-283 | every event leaves every chunk that stays as it is in the pull index, under its id |
| `StoreStatus.UpdateGCStatus` | code/bee-snips-sup/pkg/localstore/mode_get.go:131-185 | on the entry a read just returned, `updateGC` moves the access time of a synced chunk and changes nothing else of it |
| `StoreStatus.UnpinRoundRefines` | code/bee-snips-sup/pkg/localstore/reserve.go:98-123 | a round of unreserving takes one pin off every chunk it meets, the last pin of a synced chunk moving it to the cache |
| `StoreRuns.UnreserveKeeps` | code/bee-snips-sup/pkg/localstore/reserve.go:19-82 | `UnreserveBatch`, bin by bin with its own commits, keeps partition, count, all data, and every chunk that has no pin |
| `StoreUnreserve.UnreserveRefines` | code/bee-snips-sup/pkg/localstore/reserve.go:19-161 | over all bins, rounds and commits of `UnreserveBatch`, each chunk listed with the batch in a bin from the old radius up to the new one takes exactly one step of losing a pin, its last one moving it to the cache if it is synced; every other chunk keeps its state; the new radius is noted, none after bin 31, and nothing else beside the partition changes |
| `StorePlaces.UnreserveUnpinsOnce` | code/bee-snips-sup/pkg/localstore/reserve.go:19-161 | the same after any run from the empty store, where each chunk is listed under its own proximity order only |
| `StoreRuns.StepOk` | code/bee-snips-sup/pkg/localstore/gc.go:95-252 | every event (set, put, read, unreserve, and each phase of garbage collection) keeps the invariant of the whole system, the gathered candidates included; only reads are under a condition, and it is the exact one |
| `StoreRuns.EveryRunKeeps` | code/bee-snips-sup/pkg/localstore/gc.go:289-322 | over every interleaving the partition holds and `gcSize` minus the number of gc entries moves by exactly the sum of what the single calls contribute |
| `StoreRuns.RunCountsLosses` | code/bee-snips-sup/pkg/localstore/gc.go:289-322 | in runs whose sets repeat no address and whose requests share no slot owner, that sum is what uploads and syncs remove without counting: `gcSize` is never behind, and the underflow guard never acts |
| `StoreRuns.StoreIsSound` | code/bee-snips-sup/pkg/localstore/localstore.go:408-660 | the same from an empty store, as equations for `gcSize`; and every stored chunk has been accessed or awaits push sync |
| `StoreRuns.DirtyIsTouched` | code/bee-snips-sup/pkg/localstore/gc.go:95-130 | from the moment `gcRunning` is raised the dirty addresses are exactly those that a set, a put past its early return or a read has named since |
| `StoreRuns.GarbageIsGarbage` | code/bee-snips-sup/pkg/localstore/gc.go:95-252 | in every run from the raising of `gcRunning`, whatever happens between gathering and eviction, what is evicted was garbage: still in the gc index, unpinned, and named by no set, put or read of the run; evicted chunks are wholly gone, all others unchanged |
| `StoreRuns.GatherKeeps` | code/bee-snips-sup/pkg/localstore/gc.go:133-147 | the oldest entries of the gc index have distinct addresses and are sound candidates |
| `StoreRuns.QuietRunReachesTarget` | code/bee-snips-sup/pkg/localstore/gc.go:95-252 | left to itself a run never fails, evicts the oldest entries it gathered until the counter is at the target, and lowers the counter by exactly their number |
| `StoreRuns.EvictsLeastRecent` | code/bee-snips-sup/pkg/localstore/gc.go:133-147 | whatever a quiet run leaves in the gc index was accessed later than everything it evicts, at the same time under a greater bin id, or else has a greater address |
| `StoreLimits.SetFallsBehindIff` | code/bee-snips-sup/pkg/localstore/mode_set.go:50-148 | for every mode and list of a set that commits, the exact distance by which `gcSize` moves against the gc index; it falls behind if and only if the set pins, removes or syncs, names a cached chunk more than once and `gcSize` covers all its namings, and gets ahead if and only if `gcSize` does not cover them, or the set unpins a chunk on its last pin more than once |
| `StoreLimits.SecondRemovalFreesSlot` | code/bee-snips-sup/pkg/localstore/mode_put.go:289-299 | where two new chunks of a put take over slots of one owner, the second removal deletes the slot entry the first of them has just written |
| `StoreWitnesses.SharedOwnerReached` | code/bee-snips-sup/pkg/localstore/mode_put.go:289-299 | a run from the empty store (store, unpin, collect, store under another stamp index) after which two slots name one cached chunk, and a request over both leaves `gcSize` behind the gc index |
| `StoreWitnesses.RepeatedNamingReached` | code/bee-snips-sup/pkg/localstore/mode_set.go:81-130 | a run from the empty store after which a pinning, a removal or a sync that names a cached chunk twice leaves `gcSize` behind |
| `StoreWitnesses.RepeatedUnpinReached` | code/bee-snips-sup/pkg/localstore/mode_set.go:350-411 | a run from the empty store after which an unpinning that names a chunk twice leaves `gcSize` ahead |
| `StoreWitnesses.LostCountReached` | code/bee-snips-sup/pkg/localstore/mode_put.go:369-434 | a run from the empty store after which an upload over the slot of a cached chunk leaves `gcSize` ahead |
| `StoreWitnesses.BlockedSlotReached` | code/bee-snips-sup/pkg/localstore/mode_put.go:283-306 | a run from the empty store that leaves the slot of an evicted chunk taken, so that a later stamp is refused |
| `StoreWitnesses.StaleReadBreaksPartition` | code/bee-snips-sup/pkg/localstore/mode_get.go:131-185 | a run from the empty store (read, remove, store again) after which the `updateGC` of that read breaks the partition |
| `StoreWitnesses.ReplacedCandidateFails` | code/bee-snips-sup/pkg/localstore/gc.go:165-194 | a run from the empty store in which a put over the slot of a gathered chunk makes the collection fail |
| `StoreWitnesses.ForeignSlotFreed` | code/bee-snips-sup/pkg/localstore/gc.go:196-228 | a run from the empty store in which the eviction of an unpinned chunk deletes the slot entry of another chunk that stays stored, so that a put under the same stamp of an immutable batch, refused before, is stored beside it |
| `StoreSlots.StepWrites` | code/bee-snips-sup/pkg/localstore/mode_set.go:376-404 | what every event does to the slot a gc entry carries: unpinning and unreserving write the batch with a zero index, puts write the slot of the chunk, a read writes the slot it has read to the key it moves the entry to, and every other entry keeps its value |
| `StoreEvictions.EntriesCarry` | code/bee-snips-sup/pkg/localstore/mode_get.go:60-185 | over every run from the empty store, reads handing on what they have read at any earlier time, each gc entry carries its chunk's own slot or, if unpinning wrote it last, that slot with index zero |
| `StoreEvictions.EvictionFreesSlotIff` | code/bee-snips-sup/pkg/localstore/gc.go:196-228 | evicting a chunk of such a store frees its own slot if and only if the entry was not last written by unpinning or the stamp index is zero; otherwise its slot stays, the entry of index zero of the batch goes, and all others stay as they were |
| `StoreEvictions.CollectionFreesSlots` | code/bee-snips-sup/pkg/localstore/gc.go:95-252 | whatever happens between gathering and eviction, a collection that commits deletes exactly the pull entries and listings of its evicted candidates and the slot entries they carry, and each carries what its entry was last written with |
| `StoreLimits.StaleSlotBlocks` | code/bee-snips-sup/pkg/localstore/mode_put.go:283-306 | with a slot whose owner is not stored no put of a new chunk with a later stamp can commit: it does exactly when its stamp is not later |
| `Store.DB.SetPin` | code/bee-snips-sup/pkg/localstore/mode_set.go:303-346 | the batch after `setPin`, its count and its error |
| `Store.DB.SetUnpin` | code/bee-snips-sup/pkg/localstore/mode_set.go:350-411 | the batch after `setUnpin`, its count and its error |
| `Store.DB.SetRemove` | code/bee-snips-sup/pkg/localstore/mode_set.go:234-298 | the batch after `setRemove`, its count and its error |
| `Store.DB.SetSync` | code/bee-snips-sup/pkg/localstore/mode_set.go:156-228 | the batch after `setSync`, its count and its error |
| `Store.DB.PreserveOrCache` | code/bee-snips-sup/pkg/localstore/mode_put.go:522-553 | the batch after `preserveOrCache`, and its count |
| `Store.DB.Set` | code/bee-snips-sup/pkg/localstore/mode_set.go:50-148 | the committed state after the loop over the addresses, the error, and which addresses were marked dirty |
| `Store.DB.TakeSlot` | code/bee-snips-sup/pkg/localstore/mode_put.go:283-306 | what happens to the owner of a stamp slot: none, kept, refused, or removed |
| `Store.DB.PutRequest` | code/bee-snips-sup/pkg/localstore/mode_put.go:273-362 | the batch after `putRequest`, its count and its error |
| `Store.DB.PutUpload` | code/bee-snips-sup/pkg/localstore/mode_put.go:369-434 | the batch after `putUpload`; the count of the removal is dropped |
| `Store.DB.PutSync` | code/bee-snips-sup/pkg/localstore/mode_put.go:441-518 | the batch after `putSync`, the pull entry of the new chunk included (`StorePlaces.PutNewPlaces`); the count of the removal is dropped |
| `Store.DB.PutChunk` | code/bee-snips-sup/pkg/localstore/mode_put.go:118-134 | the batch after one chunk, with the swallowed error of the extra `setPin`, and whether it was there |
| `Store.DB.IncBinID` | code/bee-snips-sup/pkg/localstore/mode_put.go:558-567 | the next id of the bin, which the batch remembers |
| `Store.DB.ContainsChunk` | code/bee-snips-sup/pkg/localstore/mode_put.go:571-578 | whether an address came earlier in the call |
| `Store.DB.Put` | code/bee-snips-sup/pkg/localstore/mode_put.go:67-249 | the committed state after the loop, the early return for a chunk already there, when it fails, which addresses were marked dirty, and which chunks are reported as existing: those stored before or named before in the call, and no others |
| `Store.KeptIsNotReported` | code/bee-snips-sup/pkg/localstore/mode_put.go:289-297 | a put of a new chunk whose slot holds the same or a later stamp commits, stores nothing, and reports the chunk as not existing |
| `Store.DB.IncGCSizeInBatch` | code/bee-snips-sup/pkg/localstore/gc.go:292-322 | the counter in the batch, with the guard against underflow |
| `Store.DB.UpdateGC` | code/bee-snips-sup/pkg/localstore/mode_get.go:131-185 | the committed state after an access time was moved |
| `Store.DB.GatherCandidates` | code/bee-snips-sup/pkg/localstore/gc.go:131-147 | the candidates are the oldest entries, all of them or gcBatchSize many |
| `Store.DB.CollectGarbage` | code/bee-snips-sup/pkg/localstore/gc.go:154-252 | the locked loop with its break and its failure path, and the state it leaves |
| `Store.DB.UnpinBatchChunks` | code/bee-snips-sup/pkg/localstore/reserve.go:86-161 | the rounds over one bin, each committed on its own |
| `Store.DB.UnreserveBatch` | code/bee-snips-sup/pkg/localstore/reserve.go:19-82 | the loop over the bins and the radius it records, as the function `StoreUnreserve.UnreserveRefines` is about |
| `StoreGrowth.StepGrows` | code/bee-snips-sup/pkg/localstore/mode_put.go:558-567 | whatever the store does, new pull and data entries carry ids above all ids given out before in their bin: ids grow in commit order |
| `StoreGrowth.AlwaysCounted` | code/bee-snips-sup/pkg/localstore/mode_put.go:556-567 | in every store that started empty, whatever has happened to it, no entry is above the counter of its bin |
| `PullSubscription.DeliversInOrderWithoutGaps` | code/bee-snips-sup/pkg/localstore/subscription_pull.go:76-149 | begun at any point of any run from the empty store, under every interleaving with it, and with iterations cut short by a stop, a subscription delivers ids of [since, until] in strictly ascending order, none twice, and never passes over one still present; ended by until, it has delivered its whole range |
| `PullSubscription.IterationsCatchUp` | code/bee-snips-sup/pkg/localstore/subscription_pull.go:88-129 | in every such run an iteration that visits all of its snapshot has delivered all that was committed before it began and is still there |
| `PullDelivery.PutIsDelivered` | code/bee-snips-sup/pkg/localstore/subscription_pull.go:76-149 | a chunk put while a subscription to its bin is running, and not forced into the cache, has been delivered at the end of any full iteration begun after the put, whatever happens in between, if its id lies in the range and it is still stored under it |
| `PullSubscription.PassIsARun` | code/bee-snips-sup/pkg/localstore/subscription_pull.go:88-149 | a pass over the index as it stands, complete or cut short, is a run of the subscription machine |
| `PullSubscription.Subscription.Iterate` | code/bee-snips-sup/pkg/localstore/subscription_pull.go:88-149 | the loop with sinceItem, first and count, its stop, and the state it leaves |
| `Sampler.SampleIsSmallest` | code/bee-snips-sup/pkg/localstore/sampler.go:153-186 | the sample is sorted, has min(16, delivered) items, and with a remainder of no smaller items makes up exactly what was delivered, duplicates kept |
| `Sampler.SampleIgnoresOrder` | code/bee-snips-sup/pkg/localstore/sampler.go:153-186 | the order in which the workers deliver makes no difference |
| `Sampler.Assembler.Insert` | code/bee-snips-sup/pkg/localstore/sampler.go:156-173 | the in-place insertion and truncation |
| `Sampler.Assembler.Assemble` | code/bee-snips-sup/pkg/localstore/sampler.go:177-187 | the loop, with the guard that skips items no smaller than the last, yields the sample of everything delivered |
| `IntervalsAdd.AddIsUnion` | code/bee-snips-sup/pkg/intervalstore/intervals.go:65-112 | for every range, the list after `add` denotes exactly the old points and [max(start, i.start), end], also where the list does not stay normal |
| `IntervalsAdd.AddIsMergeIff` | code/bee-snips-sup/pkg/intervalstore/intervals.go:65-112 | the list stays sorted, disjoint and non-adjacent if and only if the new range lies strictly inside no old one (and, when it reaches 2^64-1, the list is empty or a single range it touches); the result is then the merge of what it touches |
| `IntervalsAdd.InnerRangeStays` | code/bee-snips-sup/pkg/intervalstore/intervals.go:65-112 | adding [1,10] and then [3,5] leaves two overlapping entries |
| `IntervalsAdd.TopRangeGoesFirst` | code/bee-snips-sup/pkg/intervalstore/intervals.go:65-112 | adding [1,2] and then everything from 5 on puts the new range in front |
| `Intervals.MergedCovers` | code/bee-snips-sup/pkg/intervalstore/intervals.go:65-112 | the merge denotes the union |
| `Intervals.MergedIsNormal` | code/bee-snips-sup/pkg/intervalstore/intervals.go:65-112 | the merge is normal |
| `Intervals.NormalIsUnique` | code/bee-snips-sup/pkg/intervalstore/intervals.go:65-112 | a normal list is determined by the points it denotes, so the two facts above fix the result completely |
| `IntervalsSync.NextIsRightIff` | code/bee-snips-sup/pkg/intervalstore/intervals.go:137-166 | for every ceiling, `Next` reports the first gap up to the next covered point or the ceiling, and empty only when nothing is missing, if and only if its answer has room for it (not [0,0], and not a full list) |
| `IntervalsSync.NextMisreportsZero` | code/bee-snips-sup/pkg/intervalstore/intervals.go:137-166 | from 0 with [1,2] stored and ceiling 5, `Next` answers [0,5], which holds stored points |
| `IntervalsSync.LastIsGreatest` | code/bee-snips-sup/pkg/intervalstore/intervals.go:169-178 | `Last` is the greatest covered point |
| `IntervalsSync.UncoveredStartMerges` | code/bee-snips-sup/pkg/intervalstore/intervals.go:65-112 | a range that begins at an uncovered point always merges: what `Next` returns can be added with any end |
| `IntervalsSync.SyncKeeps` | code/bee-snips-sup/pkg/intervalstore/intervals.go:65-166 | the loop of `Next` under a ceiling and `Add` of any non-empty prefix keeps the list normal for ever, loses no point, and always gets the first gap |
| `IntervalsSync.PullsKeep` | code/bee-snips-sup/pkg/puller/puller.go:374-435 | the loop of the puller, `Next` without a limit and `Add` from its start to whatever top the peer answers, also past the end of the gap: the list stays normal, `Next` stays right, its start is always the first missing point, and no point is lost |
| `IntervalsSync.PullsEnd` | code/bee-snips-sup/pkg/puller/puller.go:374-435 | cursor + 1 - start answers end that loop, with everything up to the cursor covered |
| `IntervalsSync.SyncEnds` | code/bee-snips-sup/pkg/intervalstore/intervals.go:65-166 | with any prefixes, ceiling + 1 - start rounds cover everything up to the ceiling |
| `IntervalsSync.SyncInFewRounds` | code/bee-snips-sup/pkg/intervalstore/intervals.go:65-166 | with whole gaps, one round per initial range and one more are enough |
| `IntervalsCodec.ParseFormat` | code/bee-snips-sup/pkg/intervalstore/intervals.go:189-234 | base-36 printing and parsing are inverse on all of uint64 |
| `IntervalsCodec.FormatSays` | code/bee-snips-sup/pkg/intervalstore/intervals.go:189-197 | the text of a number is its numeral over 0-9 and a-z to the base 36, without leading zeros |
| `IntervalsCodec.ParseIff` | code/bee-snips-sup/pkg/intervalstore/intervals.go:200-226 | a text is read if and only if it is a numeral to the base 36 that fits 64 bits, as the number it says |
| `IntervalsCodec.EncodeIs` | code/bee-snips-sup/pkg/intervalstore/intervals.go:189-197 | the text of a set is the start and, for each range, a semicolon, its two ends and a comma between them |
| `IntervalsCodec.SplitJoin` | code/bee-snips-sup/pkg/intervalstore/intervals.go:189-234 | splitting undoes joining when no part holds the separator |
| `IntervalsCodec.RoundTrip` | code/bee-snips-sup/pkg/intervalstore/intervals.go:189-234 | decoding an encoded normal list never fails and gives back start and points, and the very list if and only if it has at most one range or ends below 2^64-1 |
| `IntervalsCodec.DecodeIff` | code/bee-snips-sup/pkg/intervalstore/intervals.go:200-234 | a text is accepted if and only if its first part is a numeral and every other one two numerals with a comma between them |
| `IntervalsCodec.TopRangeIsNotRead` | code/bee-snips-sup/pkg/intervalstore/intervals.go:189-234 | a normal list that two `add` calls build and that its own text does not give back |
| `IntervalSet.IntervalStore.ScanRanges` | code/bee-snips-sup/pkg/intervalstore/intervals.go:72-100 | the loop of `add` with its wrap-around tests and its break |
| `IntervalSet.IntervalStore.Add` | code/bee-snips-sup/pkg/intervalstore/intervals.go:65-112 | the list after the in-place edit, for every input, and when it is still normal |
| `IntervalSet.IntervalStore.NextGap` | code/bee-snips-sup/pkg/intervalstore/intervals.go:137-166 | the answer with its deferred adjustment to the ceiling, and when it is right |
| `IntervalSet.IntervalStore.LastPoint` | code/bee-snips-sup/pkg/intervalstore/intervals.go:169-178 | the end of the last range, the greatest covered point |
| `IntervalSet.IntervalStore.MarshalBinary` | code/bee-snips-sup/pkg/intervalstore/intervals.go:189-197 | the loop writes the encoding |
| `IntervalSet.IntervalStore.UnmarshalBinary` | code/bee-snips-sup/pkg/intervalstore/intervals.go:200-234 | the loop with its error paths leaves the decoded fields, on malformed input too |
| `IntervalSet.SaveAndLoad` | code/bee-snips-sup/pkg/intervalstore/intervals.go:189-234 | writing a set out and reading it into a fresh object |
| `AccountingRuns.AccountsAreSound` | code/bee-snips-sup/pkg/accounting/accounting.go:269-1402 | in every run, the peer connecting at any time: the ledger balances and the debt with all open credit stays bounded throughout, the bound growing by what the last connection found open; since a connection that found nothing open (or the start), the reserves equal what is open; since one that found no originated debt, the originated balance covers no more than the debt |
| `AccountingRuns.StepKeepsAccounts` | code/bee-snips-sup/pkg/accounting/accounting.go:269-1471 | every call keeps the ledger and the limit, a connection under open actions included |
| `AccountingRuns.StepKeepsIff` | code/bee-snips-sup/pkg/accounting/accounting.go:269-1471 | every call keeps reserves, ledger and debt limit in order, a connection if and only if it finds no open price and no payment under way |
| `AccountingRuns.StepKeepsOriginatedIff` | code/bee-snips-sup/pkg/accounting/accounting.go:269-1471 | every call keeps the originated balance within the debt, a connection if and only if it finds it not negative |
| `AccountingRuns.NothingIsOverReleased` | code/bee-snips-sup/pkg/accounting/accounting.go:367-372 | while the reserves equal what is open, no action or payment ever releases more than is reserved: the over-release branches are dead |
| `AccountingRuns.NoOverdraft` | code/bee-snips-sup/pkg/accounting/accounting.go:244-338 | after any run, from any connection on, as long as the threshold stands and no refreshment is granted, our debt plus all reserves stays within paymentThreshold + refreshRate + the price of the credits that the connection found open, incoming payments and originated debt carried over included |
| `AccountingRuns.PaymentsStayWithinDebt` | code/bee-snips-sup/pkg/accounting/accounting.go:451-521 | a payment that settle starts is at least the minimum, at most the originated debt, and at most the debt not yet shadowed |
| `AccountingRuns.DebitBooksPrice` | code/bee-snips-sup/pkg/accounting/accounting.go:1264-1333 | a debit moves balance minus surplus by exactly its price, drawing the surplus first, and never lowers the balance |
| `AccountingRuns.PaymentReceivedBooks` | code/bee-snips-sup/pkg/accounting/accounting.go:1026-1104 | a payment moves balance minus surplus by exactly its amount and never puts us into debt |
| `AccountingMemory.PeerRemembers` | code/bee-snips-sup/pkg/accounting/accounting.go:269-1471 | in every run the fields that decisions read are what has happened: when a refreshment was last received or sent, when a payment failed, the threshold announced last and the early payment with it, the debits given up and the debt prepared during a refreshment, the kind of node and whether it is connected |
| `AccountingDecisions.DebitBlocksIff` | code/bee-snips-sup/pkg/accounting/accounting.go:1336-1384 | in every run, a debit blocks the peer if and only if its balance, the surplus drawn first, then reaches the threshold granted to it, the tolerance on top, and the refreshment of at most a second, by its kind of node, since the last one it sent |
| `AccountingDecisions.ServedPeersOweLittle` | code/bee-snips-sup/pkg/accounting/accounting.go:1371-1381 | so after a debit that does not block, the peer owes less than threshold, tolerance and one second of refreshment |
| `AccountingDecisions.CleanupBlocksIff` | code/bee-snips-sup/pkg/accounting/accounting.go:1387-1402 | giving up a debit blocks the peer if and only if all that was given up since it connected exceeds threshold and tolerance |
| `AccountingDecisions.CreditAdmittedIff` | code/bee-snips-sup/pkg/accounting/accounting.go:269-338 | a credit is refused exactly without a connection, and admitted if and only if our debt with all that is open stays within the threshold announced last and the refreshment of at most a second since our last one |
| `AccountingDecisions.SettlesIff` | code/bee-snips-sup/pkg/accounting/accounting.go:298-312 | we settle before a credit if and only if we are in debt and our debt with it, less what the peer is about to be debited, reaches the early payment, and after one if and only if it exceeds it |
| `AccountingDecisions.RefreshmentStartsIff` | code/bee-snips-sup/pkg/accounting/accounting.go:451-471 | settle starts a refreshment if and only if at least a second's worth is owed beyond what the peer is about to be debited, none is under way and the last one ended a full second ago; it asks for exactly that debt |
| `AccountingDecisions.PaymentStartsIff` | code/bee-snips-sup/pkg/accounting/accounting.go:473-517 | settle starts a payment if and only if that much is owed, payments are enabled, none is under way, the last failure is more than ten seconds ago and the minimum can be paid; the payment is the largest that is our own debt and due beyond refreshment and open debits |
| `AccountingDecisions.RefreshmentBlocksIff` | code/bee-snips-sup/pkg/accounting/accounting.go:1107-1191 | the end of a refreshment blocks the peer if and only if it failed for another reason than the peer being gone, or brought less than the time passed, less than was asked for, and less than that without what was prepared or paid meanwhile; exactly an accepted one raises the balance, by what it brought |
| `AccountingDecisions.OwnDebtMoves` | code/bee-snips-sup/pkg/accounting/accounting.go:340-1191 | what each event does to the debt we have originated ourselves |
| `AccountingRuns.ConnectIffSettled` | code/bee-snips-sup/pkg/accounting/accounting.go:1435-1471 | a connection leaves the reserves equal to what is open if and only if every open credit and debit has price 0 and the payment under way, if any, is 0; and the originated balance within the debt if and only if it was not negative |
| `AccountingRuns.ConnectStrandsCredit` | code/bee-snips-sup/pkg/accounting/accounting.go:1435-1471 | a run from the start with one credit open across a connection: releasing it is more than is reserved |
| `AccountingRuns.ConnectStrandsDebit` | code/bee-snips-sup/pkg/accounting/accounting.go:1435-1471 | a run with one debit open across a connection: the shadow reserve goes below zero |
| `AccountingRuns.ConnectStrandsPayment` | code/bee-snips-sup/pkg/accounting/accounting.go:1435-1471 | a run with one payment under way across a connection: reporting it takes the shadow reserve below zero, and the originated balance outlives the debt |
| `AccountingGrowth.ThresholdGrowsSlowly` | code/bee-snips-sup/pkg/accounting/accounting.go:639-675 | n upgrades since the connection have granted base + n times the rate, only after the repaid debt passed the n-th checkpoint, which doubles beyond the 18th; the disconnect limit is always the tolerance percentage of it |
| `AccountingGrowth.NextCheckpoint` | code/bee-snips-sup/pkg/accounting/accounting.go:639-657 | the checkpoints are k steps up to the 18th and double from there |
| `AccountingGrowth.RepaidKeepsGrant` | code/bee-snips-sup/pkg/accounting/accounting.go:1034-1038 | a settlement received upgrades at most once, and only when earned |
| `AccountingPair.LedgersMirror` | code/bee-snips-sup/pkg/accounting/accounting.go:340-372 | of two nodes with accounts of each other, booking their exchanges in any order, the two nets sum to what is in flight; with nothing in flight each is the negative of the other |
| `AccountingPair.LocalCalls` | code/bee-snips-sup/pkg/accounting/accounting.go:269-1402 | reserving, cleaning up, failed payments and refused refreshments leave the net alone |
| `Accounting.PeerAccount.constructor` | code/bee-snips-sup/pkg/accounting/accounting.go:609-634 | the account of a peer not seen before |
| `Accounting.PeerAccount.PrepareCredit` | code/bee-snips-sup/pkg/accounting/accounting.go:269-338 | the account, the settlement started, and whether the credit was admitted |
| `Accounting.PeerAccount.SettleDebt` | code/bee-snips-sup/pkg/accounting/accounting.go:451-521 | the account after settle, the refreshment and the payment it starts, with the reserves still matching what is open |
| `Accounting.PeerAccount.PaymentDue` | code/bee-snips-sup/pkg/accounting/accounting.go:473-517 | the payment settle starts, if any, after its comparisons |
| `Accounting.PeerAccount.PrepareDebit` | code/bee-snips-sup/pkg/accounting/accounting.go:1231-1262 | the account with the shadow reserve, unless not connected |
| `Accounting.PeerAccount.Increase` | code/bee-snips-sup/pkg/accounting/accounting.go:1264-1333 | balance, surplus and originated balance after a debit |
| `Accounting.PeerAccount.PaymentSent` | code/bee-snips-sup/pkg/accounting/accounting.go:967-1011 | the account after a payment succeeded or failed |
| `Accounting.PeerAccount.PaymentReceived` | code/bee-snips-sup/pkg/accounting/accounting.go:1026-1104 | balance, surplus and grant after a payment came in |
| `Accounting.PeerAccount.RefreshmentSent` | code/bee-snips-sup/pkg/accounting/accounting.go:1107-1191 | the account after a refreshment, and whether the peer is blocklisted for accepting less than expected |
| `Accounting.PeerAccount.RefreshmentReceived` | code/bee-snips-sup/pkg/accounting/accounting.go:1194-1228 | the account after a refreshment came in |
| `Accounting.PeerAccount.UpgradeThreshold` | code/bee-snips-sup/pkg/accounting/accounting.go:639-675 | the grant after an upgrade |
| `Accounting.PeerAccount.Connect` | code/bee-snips-sup/pkg/accounting/accounting.go:1435-1471 | what a connection resets, what it leaves, and that the reserves then match what is open exactly if nothing that weighs was open |
| `Accounting.CreditAction.Apply` | code/bee-snips-sup/pkg/accounting/accounting.go:340-431 | the account after a credit, and the settlement it triggers; while the reserves of the object match its open actions, applying one keeps that and releases no more than is reserved |
| `Accounting.CreditAction.Cleanup` | code/bee-snips-sup/pkg/accounting/accounting.go:433-447 | releases the reserve, unless applied, and no more than is reserved |
| `Accounting.DebitAction.Apply` | code/bee-snips-sup/pkg/accounting/accounting.go:1336-1384 | the account after a debit, and the answer that `AccountingDecisions.DebitBlocksIff` is about; the shadow reserve gives back no more than it holds |
| `Accounting.DebitAction.Cleanup` | code/bee-snips-sup/pkg/accounting/accounting.go:1387-1402 | moves the shadow reserve to the ghost balance, unless applied, and no more than it holds |
| `Encryption.PaddedRoundTrip` | code/bee-snips-sup/pkg/encryption/encryption.go:77-168 | from the same key and counter, the first len(d) bytes of decrypting the encryption of d are d, whatever the padding bytes |
| `Encryption.RunRoundTrip` | code/bee-snips-sup/pkg/encryption/encryption.go:77-168 | without padding, a whole run of Encrypt calls is undone by the same run of Decrypt calls |
| `Encryption.SelectiveDisclosure` | code/bee-snips-sup/pkg/encryption/encryption.go:134-168 | `Transcrypt` of one segment alone recovers that segment |
| `Encryption.SegmentAlone` | code/bee-snips-sup/pkg/encryption/encryption.go:116-168 | segment j of a transformation depends on the key of index start + j only |
| `Encryption.CiphertextIs` | code/bee-snips-sup/pkg/encryption/encryption.go:134-158 | segment j of a ciphertext is segment j of the data under H(H(key, counter)), where counter is any four bytes that say start + j + initCtr modulo 2^32, the lowest byte first |
| `Encryption.EqualSegmentsDiffer` | code/bee-snips-sup/pkg/encryption/encryption.go:116-158 | under a key of 32 bytes, two equal full segments of the same or of two messages encrypt to different ciphertexts, unless their indexes agree modulo 2^32 or one of two named pairs of strings is a collision of the hash |
| `Encryption.Encrypter.Transcrypt` | code/bee-snips-sup/pkg/encryption/encryption.go:134-168 | the XOR loop over a slice of the output under H(H(key, counter of the segment)), and the padding, for a segment of up to 32 bytes and any key |
| `Encryption.Encrypter.TransformInto` | code/bee-snips-sup/pkg/encryption/encryption.go:116-130 | the loop over the segments, and how far the counter moves |
| `Encryption.Encrypter.Encrypt` | code/bee-snips-sup/pkg/encryption/encryption.go:77-93 | refuses exactly data longer than a fixed padding; length, content and counter otherwise |
| `Encryption.Encrypter.Decrypt` | code/bee-snips-sup/pkg/encryption/encryption.go:96-107 | refuses exactly data of another length than a fixed padding; content and counter otherwise |
| `Encryption.SendAndReceive` | code/bee-snips-sup/pkg/encryption/encryption.go:77-113 | two objects with the same key and padding understand each other |

## Left out

- Hash errors: the base hash never fails, so the error channel of the hasher is not part of this model.
- Segment sizes other than 32: the zero section in `pkg/bmt/bmt.go` is 64 bytes, and sections are fixed to that.
- BmtHasher.Hasher.Reset: drops the goroutines of the last chunk from the object; what they do to the next chunk is told on values, by `BmtReuse.NextChunkIsReference`.
- BmtWear.AlwaysRightIff: for trees whose toggles all stand at one state; for any mixture of even states that are not negative the digest is right by `BmtTheorems.HashIsReference`.
- The pool channel as a queue: a tree is handed to one hasher at a time; blocking on an empty pool is not modelled.
- BmtHasher.Prove and BmtHasher.Verify: an index that panics in the source gives no result; a proof with more sisters than levels also gives none.
- sharky blob locations, disk errors, tags, feeds and metrics of the local store: an index is a map, a batch is the state it leaves behind, and a commit is atomic.
- Reserve size: the code does not keep it exact, so nothing is stated about it.
- 32-byte addresses, hashes and digests are big-endian numbers in the local store and the sampler: only equality and byte order matter there.
- StoreRuns.EveryRunKeeps: takes `updateGC` as one event on an item that still matches; the condition is exact (`StoreGc.UpdateGCKeepsIff`), and nothing is said about runs that go on from a broken partition.
- `withinRadiusFn` is the comparison with the proximity order that the store sets it to; only tests replace it.
- Unreserving is one event, as under `evictReserve`, which holds the lock; the call that the batch store makes without it is not modelled.
- Store.DB.GatherCandidates and Store.DB.UnpinBatchChunks: take the iteration order of the index as an argument, which LevelDB's iterator provides.
- Store.DB.IncBinID: keeps the ids of a call in the pending batch from the start, where the source keeps them in a map and adds them to the batch at the end.
- Access times are compared as integers; their unsigned encoding in keys agrees for times that are not negative.
- StoreRuns.GarbageIsGarbage: a put that finds its single chunk present returns before it takes the lock and does not mark it.
- A pull subscription's triggers and timers: an iteration may begin at any time.
- The pipeline in front of the sample (iterating, reading, HMAC, the filter on stamp times) and its root hash: the sampler starts from the stream of digests the workers deliver.
- Accounting of several peers: peers share nothing but the settings, so one peer is modelled, and two nodes facing each other.
- Store errors of the balances, and the blocklist calls with their durations: a call says whether the peer is blocked.
- AccountingRuns.AccountsAreSound: actions are applied or cleaned up once, a payment is reported with the amount it was sent with, and amounts are not negative.
- AccountingRuns.PaymentsStayWithinDebt: asks that the last refreshment does not lie in the future.
- IntervalsSync.PullsKeep: a peer answers with a top at or after the start it was asked for, and below 2^64-1.
- `Intervals.Merge`: it can add ranges strictly inside others, so it keeps no normal form.
- IntervalsAdd.AddIsUnion and IntervalsAdd.AddIsMergeIff: for ranges with start at most end, as `Add` documents; `AddTo` itself is the code on every input.
- IntervalSet.IntervalStore.UnmarshalBinary: text without ranges leaves the ranges of the object alone, as the code does.
- Encryption.Encrypter.TransformInto: for keys of 1 to 32 bytes; with an empty key the source does not end, with a longer one it runs past the digest.
- Everything under `code/evaluation`, and the network, API and chain packages of the node.
