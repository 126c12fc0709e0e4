# Verified model of the tiered KV store

A Dafny model of the parts of this repository that carry its hard promises, with proofs for all inputs, all runs and, where
threads meet, all interleavings. `dafny verify dfyconfig.toml` checks everything.

**Sparse KV storage** (`Segment`, `SegmentManager`, `FrontToBack`, `Readers`, `Placement`, `BatchRead`, `Media`,
`SlotTable`, `Descriptor`, `KVStore`, `StoreRuns`, `SingleAssignment`, `OffloadBytes`, `Plan`, `PlanBytes`, `SparseKV`). A
key (layer, token) is hashed to a device and appended to its open segment; full segments go to disk in one write; segments
with no live unit are recycled. The devices, the slot table, the cache, staging and the descriptor buffer are classes
updated in place, each proved against a function on values; the value level proves that the whole stack behaves like a plain
map, that emitted descriptors stay valid, and that a reader racing with a flush never misses its bytes. Placement is a
parameter of the storage proofs, so they hold for every strategy; the position hash has its own number theory.

**Capacity planning** (`Planner`, `Replay`, `PlannedReplay`, `ReplayLimits`, `TrialRun`). From a request's records to the planned
extents, and from the same records to the replay that loads them into a store and releases them again: the exact condition under
which a replay runs out of segments, and one theorem from plan to reclaim.

**Selection** (`BatchLRU`, `Selection`, `ConflictCost`, `SearchUnique`, `Oracle`, `HitExchange`). The batch LRU, the greedy
PPA-aware search with its incremental objective and why it is a function of its record, the oracle's contract guard, and the
hit-seeking replacement. Scores are reals.

**Allocators** (`Bitmap`, `Runs`, `PageAllocator`, `Ownership`, `PageRuns`, `FreeList`, `Chunks`, `ChunkAllocator`). The bitmap
page allocator on its bytes, and the coalescing free list under the chunk allocator. Both share one account of who owns what.

**I/O engine** (`Grouping`, `Engine`, `EngineLedger`, `EngineHandles`, `EngineOrder`, `EngineRuns`, `EngineResults`,
`EngineStops`, `EngineProgress`, `IOHandles`). A step system of submitters, permits, queues, workers, counters, handles and
callbacks; a step is what one thread does under one lock. Callbacks run on the worker that completes a handle, which stays busy
meanwhile, and may submit.

`Arith`, `Bytes`, `Finite`, `Sorting`, `Sums` and `Wrappers` hold shared facts.

Inputs from outside become parameters: the initial disk bytes, the extent bases, the answer of `create_chunk`, the result of
each executed request, and the random sampler (any function that returns a sample of the right size).

## What turned out not to hold

- The placement documentation promises that N consecutive tokens (or layers) cover all N devices. As long as N steps span less than
  one lap of the prime modulus, the code does so exactly when the window does not change laps (`Placement.SpreadIff`,
  `Placement.TokenCoverage`); `Placement.WrapCollides` is an accepted configuration that fails. With larger steps a window that
  changes laps may or may not cover (`Placement.LongWindowCovers`). The constructor's domain check, made only when both maxima are
  configured, is enough (`Placement.DomainCovers`).
- Extents planned for one segment size are safe online for another if and only if that one divides the planned size
  (`ReplayLimits.OnlineFitsIff`); with 24 KiB planned a 16 KiB replay fails although both pass the geometry check
  (`ReplayLimits.SixFourOverflow`).
- Offloading a valid key again, which the slot table's convention forbids, makes `fetch` serve a prefetched old copy: it returns
  the new bytes if and only if there was no different copy (`StoreRuns.RewriteServed`).
- `ba_alloc` rounds up in 64 bits. For sizes within a page of 2^64 the sum wraps and the call succeeds with no page reserved;
  the rounding is right if and only if the sum does not wrap (`PageAllocator.PagesForExact`, `PageRuns.AllocCovers`).
- The I/O engine does not always finish. Permits are taken one by one while a batch is collected, so batches that fit the limit
  singly can block each other for good. If callbacks do not submit, a set of batches can stop if and only if their sizes, one
  request less each, add up to max_inflight (`EngineStops.StopIff`); below that every schedule finishes
  (`EngineProgress.EveryScheduleFinishes`). A callback that submits waits for permits on a worker, and can stop the engine below
  that bound too (`EngineStops.CallbackStops`).

## Model

| member | source | states |
|---|---|---|
| `StoreRuns.RunRefines` | bmpclient/sparse_kv/store.py:131-261 | After every run of offload, flush, prefetch and release that offloads no key with a prefetched copy (single assignment implies it), the store stands for the plain map the same operations build; fetch returns that map's bytes for every valid key, from cache, buffer or device; an operation that fails part way leaves the map of the items that took effect |
| `StoreRuns.StepKeeps` | bmpclient/sparse_kv/store.py:131-261 | One operation: invariant kept, contents change exactly as the map operation, and no other key's slot, settled bytes, staging or descriptors move |
| `KVStore.WriteTokenKeeps` | bmpclient/sparse_kv/store.py:136-142 | One token of offload adds exactly its key with its bytes; a full device or an offset past 48 bits leaves the map as it was |
| `KVStore.WriteAllKeeps` | bmpclient/sparse_kv/store.py:131-142 | offload of any writes to keys without a prefetched copy: the first n take effect in order, the rest not at all |
| `StoreRuns.FlushStoreKeeps` | bmpclient/sparse_kv/store.py:158-160 | flush keeps every key's bytes and leaves no live unit in a buffer |
| `StoreRuns.PrefetchKeeps` | bmpclient/sparse_kv/store.py:233-242 | prefetch changes only the cache, and only by copies that agree with the contents |
| `StoreRuns.ReleaseAllKeeps` | bmpclient/sparse_kv/store.py:248-261 | release removes exactly the listed tokens up to the first index out of range; already released tokens are skipped |
| `StoreRuns.FetchIsLookup` | bmpclient/sparse_kv/store.py:211-231 | fetch is a map lookup for every valid key, wherever the bytes are held |
| `StoreRuns.NewStore` | bmpclient/sparse_kv/store.py:91-108 | A new store stands for the empty map and owns no unit |
| `StoreRuns.FullIff` | bmpclient/_vm_segment.py:105-144 | When no unit is leaked a device refuses a token exactly when its buffer has no room and each of its segments holds the unit of some valid key |
| `StoreRuns.EverythingReclaimed` | bmpclient/_vm_segment.py:177-191 | When no unit is leaked, no key is valid and a device has no open buffer, all its segments are free |
| `SingleAssignment.RunExact` | bmpclient/sparse_kv/slot_table.py:17-18 | Over every run that offloads only keys that are not valid, no unit leaks: live units are exactly those of the valid keys |
| `SingleAssignment.RunFullIff` | bmpclient/_vm_segment.py:105-144 | After any such run a token is refused exactly when its device is filled by valid keys |
| `SingleAssignment.RunReclaims` | bmpclient/_vm_segment.py:146-191 | After any such run that leaves no key valid and no buffer open on a device, all its segments are free |
| `StoreRuns.RewriteServed` | bmpclient/sparse_kv/store.py:224-227 | Without single assignment: after a successful second offload fetch returns the new bytes if and only if the key had no prefetched copy, or an equal one |
| `StoreRuns.StaleAnswer` | bmpclient/sparse_kv/store.py:233-242 | Prefetching a key and then offloading different bytes under it makes fetch return the old bytes |
| `Plan.DescriptorDelivers` | bmpclient/sparse_kv/store.py:182-202 | Carrying out such a descriptor gives the bytes fetch gives |
| `Plan.PlanSurvives` | bmpclient/sparse_kv/store.py:166-205 | After any later run of operations that neither offload nor release a planned token, every descriptor still delivers the bytes its token had when planned |
| `Plan.PlanUndisturbed` | bmpclient/_vm_segment.py:137-155 | A step that leaves the planned tokens alone leaves the plan good |
| `SparseKV.SparseKVStore.constructor` | bmpclient/sparse_kv/store.py:91-108 | Empty table, empty cache, descriptor buffer and staging of the fixed sizes |
| `SparseKV.SparseKVStore.WriteOne` | bmpclient/sparse_kv/store.py:136-142 | The object's new state and fault are those of the one-token write |
| `SparseKV.SparseKVStore.Offload` | bmpclient/sparse_kv/store.py:131-156 | The object's new state is that of writing the blocks' units in order until a check or a write fails; success exactly when none does; which bytes each write carries and what is served afterwards is in OffloadBytes |
| `SparseKV.SparseKVStore.Flush` | bmpclient/sparse_kv/store.py:158-160 | The new state is the flushed store |
| `SparseKV.SparseKVStore.Release` | bmpclient/sparse_kv/store.py:248-261 | The new state is the store with the tokens released in turn |
| `SparseKV.SparseKVStore.Fetch` | bmpclient/sparse_kv/store.py:211-231 | Succeeds exactly when every token is in range and valid, and then returns each token's bytes in order |
| `SparseKV.SparseKVStore.Prefetch` | bmpclient/sparse_kv/store.py:233-242 | Only the cache changes: tokens not yet cached get a copy of what fetch returns, or none does when one of them cannot be fetched |
| `SparseKV.SparseKVStore.MakePlan` | bmpclient/sparse_kv/store.py:166-205 | Descriptor buffer, staging and fault are those of planning token by token; the bytes are in PlanBytes |
| `Segment.CheckGeometry` | bmpclient/_vm_segment.py:23-34 | Accepts exactly positive 4 KiB multiples with whole units per segment and whole segments per extent |
| `Segment.AppendKeeps` | bmpclient/_vm_segment.py:105-129 | append keeps the device invariant in every outcome; SegmentFullError exactly when the buffer has no room and every segment holds a live unit; otherwise the unit gets an offset no live unit has and sits in the buffer; settled units stay put |
| `Segment.FlushKeeps` | bmpclient/_vm_segment.py:131-155 | flush keeps all live bytes, empties the buffer of live units, and moves no settled unit |
| `Segment.ReleaseKeeps` | bmpclient/_vm_segment.py:177-191 | Releasing a live unit succeeds and removes exactly that unit |
| `Segment.FreshInv` | bmpclient/_vm_segment.py:66-75 | A new device satisfies the invariant with nothing live |
| `Segment.ReachableInv` | bmpclient/_vm_segment.py:70-191 | In every reachable state: a segment is on the free stack exactly when its count is zero and it is not the buffered one, without duplicates; counts equal live units; every live unit reads back its bytes |
| `Segment.AllReclaimed` | bmpclient/_vm_segment.py:137-191 | With nothing live and no open buffer every segment is free |
| `SegmentManager.DeviceSegmentManager.constructor` | bmpclient/_vm_segment.py:48-75 | The object starts as the fresh device |
| `SegmentManager.DeviceSegmentManager.Append` | bmpclient/_vm_segment.py:105-129 | Object state and result are those of the device append |
| `SegmentManager.DeviceSegmentManager.Put` | bmpclient/_vm_segment.py:123-129 | Next slot of the open buffer filled, counted, and its offset returned |
| `SegmentManager.DeviceSegmentManager.Flush` | bmpclient/_vm_segment.py:131-135 | Object state is the flushed device |
| `SegmentManager.DeviceSegmentManager.StartSegment` | bmpclient/_vm_segment.py:137-144 | Opens the top of the free stack, or reports that it is empty and changes nothing |
| `SegmentManager.DeviceSegmentManager.FlushLocked` | bmpclient/_vm_segment.py:146-155 | One whole-segment write; the segment returns to the stack when nothing in it is live |
| `SegmentManager.DeviceSegmentManager.IsBuffered` | bmpclient/_vm_segment.py:159-162 | True exactly when the offset lies in the open segment |
| `SegmentManager.DeviceSegmentManager.ReadBuffer` | bmpclient/_vm_segment.py:164-173 | Finds exactly the buffered offsets, with the bytes a read gives |
| `SegmentManager.DeviceSegmentManager.Release` | bmpclient/_vm_segment.py:177-191 | Object state and result are those of the device release |
| `Readers.ReadersSafe` | bmpclient/sparse_kv/store.py:188-197 | Under every interleaving of lock-atomic steps every finished reader has the unit's bytes, and a reader sent to the device, even after being told the unit was buffered, finds them there |
| `Readers.EnabledCanStep` | bmpclient/virtual_media.py:231-251 | In such states every step a reader may take is well defined |
| `Media.VirtualMedia.Write` | bmpclient/virtual_media.py:167-176 | The key's device takes the unit; no other device changes |
| `Media.VirtualMedia.Flush` | bmpclient/virtual_media.py:178-183 | Every device is flushed |
| `Media.VirtualMedia.ReadBatch` | bmpclient/virtual_media.py:214-256 | For any items, any order and repeats: accepted exactly when lengths, devices and buffers are right, and then output i starts with the unit at item i and is otherwise unchanged |
| `BatchRead.MergeRuns` | bmpclient/virtual_media.py:258-271 | The runs flatten back to the sorted requests, each run is contiguous and within the byte limit, and neighbouring runs do not touch or would together exceed the limit |
| `BatchRead.RunHoldsUnit` | bmpclient/virtual_media.py:249-256 | The bytes of a run at a piece's relative offset are that piece's unit |
| `BatchRead.SortByOffset` | bmpclient/virtual_media.py:240-240 | Sorted by offset and a permutation |
| `BatchRead.PlanRows` | bmpclient/bench/single_ssd.py:88-105 | Rows are the distinct requested rows in order, slots point each request at its row, runs partition the rows, are contiguous, bounded and maximal |
| `BatchRead.Replay` | bmpclient/bench/single_ssd.py:256-288 | Reading the runs and gathering by slots puts the requested row at every position, duplicates included |
| `SlotTable.PackRoundTrip` | bmpclient/sparse_kv/slot_table.py:35-51 | An entry is the offset shifted by 16 bits plus the flag byte, and both come back from it, for every offset below 2^48 and flag byte |
| `SlotTable.Table.Set` | bmpclient/sparse_kv/slot_table.py:90-94 | The entry becomes the offset shifted by 16 bits with the VALID flag, so the key's slot is the offset, and no other slot changes; fails exactly out of range or past 48 bits |
| `SlotTable.Table.Invalidate` | bmpclient/sparse_kv/slot_table.py:96-100 | Exactly that key loses its slot |
| `SlotTable.Table.Gather` | bmpclient/sparse_kv/slot_table.py:109-114 | Entry i is valid exactly when token i has a slot, and then carries its offset |
| `Descriptor.LeRoundTrip` | bmpclient/sparse_kv/store.py:41-45 | Little-endian fields of any width decode to what was encoded |
| `Descriptor.EntryRoundTrip` | bmpclient/sparse_kv/store.py:43-45 | Every packable 32-byte entry decodes to itself |
| `Descriptor.GetPut` | bmpclient/sparse_kv/store.py:71-75 | Writing entry i makes entry i read back and leaves every other entry as it was |
| `Descriptor.HeaderRoundTrip` | bmpclient/sparse_kv/store.py:203-203 | The header reads back count and layer |
| `Descriptor.GetPutHeader` | bmpclient/sparse_kv/store.py:198-203 | Writing the header leaves every entry as it was |
| `Placement.IsPrime` | bmpclient/virtual_media_strategy.py:25-36 | True exactly for primes |
| `Placement.Validate` | bmpclient/virtual_media_strategy.py:84-112 | Accepts exactly distinct prime steps above the device count, a larger prime modulus, and, when both maxima are given, no wrap in the domain |
| `Placement.PrimeDividesProduct` | bmpclient/virtual_media_strategy.py:90-102 | Euclid's lemma, which makes a step invertible modulo the device count |
| `Placement.SpreadIff` | bmpclient/virtual_media_strategy.py:114-119 | A window of N points that spans less than a lap of the prime hits all N devices exactly once if and only if it does not cross a multiple of the prime |
| `Placement.TokenCoverage` | bmpclient/virtual_media_strategy.py:90-119 | N consecutive tokens of a layer land on all N devices exactly once when they stay in one lap; the exact condition when N tokens span less than a lap |
| `Placement.LayerCoverage` | bmpclient/virtual_media_strategy.py:90-119 | The same for N consecutive layers of one token |
| `Placement.CountBalanced` | bmpclient/virtual_media_strategy.py:114-119 | Without wrap each device gets the floor or the ceiling of length/N of any consecutive tokens |
| `BatchLRU.Cache.Commit` | scripts/ppa_selection.py:26-36 | Refuses exactly batches larger than the capacity, changing nothing; else the batch becomes the newest rows in order and only the oldest others go |
| `BatchLRU.CacheIsLatest` | scripts/ppa_selection.py:21-36 | After any batches the cache is exactly the capacity most recent rows of the unbounded recency order |
| `BatchLRU.SmallerIsSuffix` | scripts/ppa_selection.py:21-36 | A smaller cache is always the tail of a larger one |
| `BatchLRU.MissesFall` | scripts/mqsim_ppa_oracle.py:49-65 | Baseline misses over any trace never rise with capacity, the no-cache control included |
| `Selection.Pressure` | scripts/ppa_selection.py:77-81 | The counters equal the number of rows on each channel, chip, die and plane |
| `Selection.ObjectiveIsCost` | scripts/ppa_selection.py:84-86 | objective of counters that track a set is the sum of squared loads recomputed from the set |
| `Selection.DeltaIsTrue` | scripts/ppa_selection.py:118-124 | The incremental delta is the true change of the objective, for every pair of rows |
| `Selection.TracksSwap` | scripts/ppa_selection.py:131-133 | The updated counters track the new selection |
| `Selection.Group` | scripts/ppa_selection.py:106-114 | One representative per place: to remove, the lowest score, then the largest token; to add, the highest score, then the smallest token |
| `Selection.Candidates` | scripts/ppa_selection.py:115-116 | The at most sixteen representatives that come first: removals from the most loaded place down, then by lower score; additions to the least loaded place first, then by higher score; then by token |
| `Selection.ChooseMove` | scripts/ppa_selection.py:117-127 | Of all pairs tried the one that lowers the objective most, then loses least score, then has the smallest tokens; none when none lowers it |
| `Selection.NextMove` | scripts/ppa_selection.py:105-129 | The move the preferences ask for; with at most sixteen places a side no exchange at all does better |
| `Selection.FindRemovable` | scripts/ppa_selection.py:93-99 | Native scored misses with at least protect_top better-ranked rows |
| `Selection.RankIsAhead` | scripts/ppa_selection.py:93-95 | A row's rank is the number of rows with a higher score, or an equal score and a smaller token |
| `Selection.Select` | scripts/ppa_selection.py:89-135 | Returned set is native with the exchanges carried out; exchanges are one-to-one, removable to available, within budget; initial and final are the recomputed objectives; each exchange is the one the preferences ask for and lowers the objective strictly; it stops below the budget only when they ask for none, and with few places then no exchange helps |
| `Oracle.Decide` | scripts/mqsim_ppa_oracle.py:188-234 | For baseline, ppa_aware and random_matched the contract guard never fires, whatever is resident; swaps are a one-to-one matching within budget; before and after are the objectives of the native and emitted misses; ppa_aware makes exactly the search's exchanges and lowers the objective by at least one per swap; random_matched draws as many as the search makes, from the two pools in ascending order |
| `Oracle.PairedPasses` | scripts/mqsim_ppa_oracle.py:231-234 | Any such matching passes the guard, and both random pools hold at least as many rows as the search swapped |
| `Oracle.Eligible` | scripts/mqsim_ppa_oracle.py:217-222 | The random control's pool is exactly what the search may remove |
| `Oracle.RandomSwaps` | scripts/mqsim_ppa_oracle.py:216-226 | Sampling always succeeds and yields a one-to-one matching of the given size, drawn from the sorted pools |
| `Oracle.CostFalls` | scripts/ppa_selection.py:126-135 | The search lowers the objective by at least one per exchange |
| `HitExchange.ChoosePays` | scripts/simulate_hbm_candidates.py:27-42 | choose keeps the size and removes exactly count misses, taking out only unprotected ranked misses and bringing in only ranked hits |
| `HitExchange.ChoosePrefers` | scripts/simulate_hbm_candidates.py:35-42 | Rows taken out rank behind removable rows kept; rows brought in rank before addable rows left out |
| `HitExchange.ChooseBest` | scripts/simulate_hbm_candidates.py:27-42 | No replacement the rules permit has fewer misses |
| `HitExchange.MissesAreAbsent` | scripts/simulate_hbm_candidates.py:107-111 | measure's misses are the selected rows neither cached nor ready |
| `Bitmap.SetBitIs` | umm/src/common/bitmap_allocator.c:34-37 | Setting a bit of a byte sets that bit alone |
| `Bitmap.ClearBitIs` | umm/src/common/bitmap_allocator.c:39-42 | Clearing a bit of a byte clears that bit alone |
| `Bitmap.PutIs` | umm/src/common/bitmap_allocator.c:29-42 | On the whole bitmap the free pages change by exactly that page |
| `PageAllocator.FindFreeRun` | umm/src/common/bitmap_allocator.c:59-90 | Byte shortcut and skip-ahead included, the result is that of the page-by-page search |
| `Runs.FirstRunIs` | umm/src/common/bitmap_allocator.c:53-58 | That search finds the lowest run, and fails only when there is none |
| `PageAllocator.PagesForExact` | umm/src/common/bitmap_allocator.c:151-151 | The rounding is the true number of pages if and only if num_bytes + page_size - 1 does not wrap at 2^64; when it wraps it gives no page |
| `PageAllocator.Create` | umm/src/common/bitmap_allocator.c:96-134 | Null exactly for arenas smaller than a page; else all pages free |
| `PageAllocator.BitmapAllocator.constructor` | umm/src/common/bitmap_allocator.c:111-131 | Page count rounds up, all pages free, spare bits clear, counter exact |
| `PageAllocator.BitmapAllocator.Alloc` | umm/src/common/bitmap_allocator.c:146-177 | Lowest run taken and nothing else, its byte offset returned; NO_MEMORY only when no run exists; free_pages stays the number of set bits; failures change nothing |
| `PageAllocator.BitmapAllocator.Release` | umm/src/common/bitmap_allocator.c:179-212 | Accepted exactly when in bounds and wholly allocated; then exactly that range becomes free; a rejected call changes nothing |
| `PageAllocator.BitmapAllocator.IsAllocated` | umm/src/common/bitmap_allocator.c:214-241 | True exactly when ba_free would accept |
| `PageRuns.AllocIsNext` | umm/src/common/bitmap_allocator.c:157-166 | What Alloc promises is the step the runs are built from |
| `PageRuns.LiveDisjoint` | umm/src/common/bitmap_allocator.c:146-212 | After any lawful run live allocations are disjoint, every page is free or in one of them, free pages plus live sizes make up the arena, and once nothing is live everything is free |
| `PageRuns.LiveFreeable` | umm/src/common/bitmap_allocator.c:179-212 | A live block given back with its offset and size is always accepted |
| `PageRuns.DoubleFreeRejected` | umm/src/common/bitmap_allocator.c:195-202 | Freeing the same range twice is rejected and changes nothing |
| `PageRuns.AllocCovers` | umm/src/common/bitmap_allocator.c:151-151 | The pages handed out cover the request if and only if the rounding does not wrap |
| `PageRuns.AllocThenFree` | umm/src/common/bitmap_allocator.c:146-212 | Freeing what was just allocated restores the state |
| `FreeList.NormalUnique` | bmpclient/allocator.py:44-58 | A sorted, coalesced list is determined by the bytes it covers |
| `FreeList.FirstFitLowest` | bmpclient/allocator.py:33-42 | The first piece large enough starts the lowest free run of that size |
| `FreeList.NoneFits` | bmpclient/allocator.py:42-42 | When no piece is large enough no run of free bytes is |
| `FreeList.CutBytes` | bmpclient/allocator.py:36-41 | Cutting a piece removes exactly the allocated bytes |
| `FreeList.JoinKeeps` | bmpclient/allocator.py:51-56 | One merge step keeps the list sorted and coalesced and adds exactly the piece |
| `Chunks.ChunkBuffer.constructor` | bmpclient/allocator.py:29-31 | One free piece, nothing live |
| `Chunks.ChunkBuffer.Alloc` | bmpclient/allocator.py:33-42 | Lowest run of free bytes, or None exactly when there is none; list stays sorted, disjoint, coalesced; free and live bytes make up the chunk |
| `Chunks.ChunkBuffer.Release` | bmpclient/allocator.py:44-58 | Exactly the block's bytes become free and the list stays normal |
| `Chunks.ChunkBuffer.IsFullyFree` | bmpclient/allocator.py:60-61 | True exactly when no block is live |
| `Chunks.Merge` | bmpclient/allocator.py:50-58 | Merging keeps the bytes and coalesces fully |
| `Chunks.Restored` | bmpclient/allocator.py:60-61 | Nothing is live if and only if the list is the single whole piece |
| `Chunks.ReleaseAll` | bmpclient/allocator.py:44-61 | Freeing all live blocks in any order restores [(0, total)] |
| `Ownership.Conserved` | bmpclient/allocator.py:33-58 | Free units plus live block sizes equal the total |
| `ChunkAllocator.FineGrainedAllocator.FirstRoom` | bmpclient/allocator.py:113-119 | The first chunk of the medium and device with room; all before it have none; all others unchanged |
| `ChunkAllocator.FineGrainedAllocator.Alloc` | bmpclient/allocator.py:96-157 | Lowest run in the first chunk with room, else a new chunk asked for with the larger of the size and the default; fails only when the service refuses or gives too little, and then returns that chunk; other chunks untouched |
| `ChunkAllocator.FineGrainedAllocator.Free` | bmpclient/allocator.py:159-176 | The chunk is returned exactly when the freed block was its last live one; an unknown chunk is ignored |
| `Grouping.MakeGroups` | bmpclient/concurrent_io.py:382-401 | The loop with its dictionary builds the groups by key in order of first use |
| `Grouping.Groups` | bmpclient/concurrent_io.py:377-401 | Groups are non-empty and ascending, have one key each, different keys among them, and contain every request |
| `Grouping.SizeAll` | bmpclient/concurrent_io.py:384-401 | Group sizes add up to the batch |
| `EngineRuns.StepKeeps` | bmpclient/concurrent_io.py:365-447 | Every step of every thread keeps permits, counters, results, callbacks and order sound |
| `EngineRuns.EveryRunSafe` | bmpclient/concurrent_io.py:341-447 | After every interleaving, close included: submitted = completed + failed + inflight; never more than max_inflight requests executing; no index set twice; callbacks one each; queues in order |
| `EngineLedger.LedgerKept` | bmpclient/concurrent_io.py:384-420 | Free permits plus permits held by submitters and tasks equal the limit; inflight equals the counted requests; failed scheduling takes its counts back |
| `EngineLedger.ExecutingBounded` | bmpclient/concurrent_io.py:250-250 | Executing requests never exceed max_inflight |
| `EngineLedger.LoneAcquires` | bmpclient/concurrent_io.py:385-387 | A lone submitter finds a permit exactly while it holds fewer than the limit |
| `EngineRuns.LoneReaches` | bmpclient/concurrent_io.py:384-411 | A lone submitter with at most max_inflight requests reaches scheduling |
| `EngineRuns.TooLargeNever` | bmpclient/concurrent_io.py:384-387 | A batch larger than max_inflight reaches scheduling in no run |
| `EngineHandles.DeliveryKept` | bmpclient/concurrent_io.py:116-139 | Every index is either set, owed by its submitter or owed by exactly one task; setting moves it once |
| `EngineHandles.SetOwed` | bmpclient/concurrent_io.py:126-139 | Setting owed indices keeps assignments distinct and the outstanding count exact, and releases each callback once |
| `EngineHandles.AddKeeps` | bmpclient/concurrent_io.py:194-200 | A callback registered late runs at once, an early one waits, neither is lost |
| `EngineOrder.FifoKept` | bmpclient/concurrent_io.py:240-246 | With single-threaded queues a task starts only when those queued before it are finished |
| `EngineOrder.RunsInOrder` | bmpclient/concurrent_io.py:423-439 | Of two requests of one queue the one whose group was queued first, or that comes first in their group, ran first |
| `EngineOrder.SameChunkSameQueue` | bmpclient/concurrent_io.py:360-363 | Requests for one chunk share a queue, across batches |
| `EngineOrder.GroupAscends` | bmpclient/concurrent_io.py:431-439 | Within a group requests stand in submission order |
| `IOHandles.IOHandle.constructor` | bmpclient/concurrent_io.py:107-112 | No result set, all outstanding |
| `IOHandles.IOHandle.SetMany` | bmpclient/concurrent_io.py:120-139 | Each pair is recorded, the count falls by their number, and the callbacks are handed out exactly when nothing is outstanding |
| `IOHandles.IOHandle.AddDoneCallback` | bmpclient/concurrent_io.py:194-200 | The callback is kept, or is to run at once when the handle is complete |
| `Media.VirtualMedia.Release` | bmpclient/virtual_media.py:281-285 | The device of the address releases the unit, no other device changes; an unknown device is an error |
| `Media.VirtualMedia.FlushDevice` | bmpclient/virtual_media.py:182-183 | One device is flushed, no other changes |
| `Media.Scatter` | bmpclient/virtual_media.py:252-256 | Every staged piece lands at its output position and nothing else is written |
| `Media.StageDevice` | bmpclient/virtual_media.py:239-249 | Every request of a device bucket is covered by a staged run that holds its unit |
| `BatchRead.RowRuns` | bmpclient/bench/single_ssd.py:97-104 | Runs partition the rows and are contiguous, bounded and maximal |
| `BatchRead.ReadRuns` | bmpclient/bench/single_ssd.py:256-263 | Reading the runs fills the buffer with the planned rows in order |
| `SlotTable.Table.constructor` | bmpclient/sparse_kv/slot_table.py:62-70 | No key has a slot |
| `SlotTable.Table.Get` | bmpclient/sparse_kv/slot_table.py:104-107 | Fails exactly out of range; the entry is valid exactly when the key has a slot, and carries its offset |
| `SparseKV.SparseKVStore.OffloadBlock` | bmpclient/sparse_kv/store.py:136-142 | The new state is that of writing the block token by token until one fails; token i is written with its own slice of the buffer |
| `SparseKV.SparseKVStore.ReleaseOne` | bmpclient/sparse_kv/store.py:254-261 | The new state and fault are those of releasing one token |
| `Segment.StepKeeps` | bmpclient/_vm_segment.py:105-191 | One operation of a client keeps the invariant and moves no settled unit |
| `Readers.NextKeeps` | bmpclient/_vm_segment.py:146-173 | Every lock-atomic step of a writer or reader keeps all readers on the right bytes |
| `BatchLRU.Cache.constructor` | scripts/ppa_selection.py:22-24 | Starts empty |
| `BatchLRU.PopAll` | scripts/ppa_selection.py:31-32 | Exactly the batch leaves; the order of the rest stays |
| `BatchLRU.Evict` | scripts/ppa_selection.py:33-34 | The oldest go until the rest fits |
| `Planner.CountEvent` | bmpclient/bench/multi_device.py:59-61 | Per device, the rows of the batch that land there |
| `Planner.RoundUp` | bmpclient/bench/multi_device.py:66-69 | Whole segments, at least one |
| `Selection.Objective` | scripts/ppa_selection.py:84-86 | The sum of squares of the counters |
| `Selection.DeltaOf` | scripts/ppa_selection.py:121-124 | The sum over the touched resources of the squared change |
| `Selection.SortBy` | scripts/ppa_selection.py:115-116 | The rows of the set in key order, each once |
| `Oracle.Finish` | scripts/mqsim_ppa_oracle.py:228-249 | Accepted exactly when size, hits and read volume are those of the native selection and every swap trades a native miss for a miss outside it; the reported objective is that of the emitted misses |
| `PageAllocator.BitmapAllocator.NoneFree` | umm/src/common/bitmap_allocator.c:195-202 | True exactly when no page of the range is free |
| `Chunks.SortIn` | bmpclient/allocator.py:46-48 | The freed piece in its place by offset; bytes are those of both |
| `ChunkAllocator.FineGrainedAllocator.constructor` | bmpclient/allocator.py:76-85 | Holds no chunk |
| `ChunkAllocator.NewChunk` | bmpclient/allocator.py:137-150 | The new chunk's first block is cut off its front |
| `Plan.MakePlanGood` | bmpclient/sparse_kv/store.py:166-205 | plan succeeds if and only if the request is within max_topk, every index is in range, every token is valid, and count, layer and device fit 32 bits and addresses, unit size and staging places 64; then every position has a descriptor that leads to its token: flag 1 and staged bytes, or flag 0 and the address of a unit already on its device; no key changes either way |
| `SingleAssignment.RunServes` | bmpclient/sparse_kv/slot_table.py:17-18 | A run that offloads only keys that are not valid is covered by the refinement: fetch returns the bytes last offloaded |
| `Placement.LocateBatch` | bmpclient/virtual_media_strategy.py:121-128 | Agrees with locate on every key |
| `Placement.DomainCovers` | bmpclient/virtual_media_strategy.py:104-112 | When both domain maxima are configured and accepted, every N consecutive tokens and every N consecutive layers inside the domain cover all N devices exactly once |
| `Placement.WrapCollides` | bmpclient/virtual_media_strategy.py:114-119 | An accepted configuration and a window that changes laps: two tokens share a device and the other gets none |
| `Placement.LongWindowCovers` | bmpclient/virtual_media_strategy.py:114-119 | When N steps span a whole lap, a window that changes laps can still cover every device |
| `Planner.Lengths` | bmpclient/bench/layout_replay.py:163-178 | Longest context per layer; refused exactly when, online, a context shrinks |
| `Planner.Summary` | bmpclient/bench/multi_device.py:53-54 | Each layer once in ascending order with its longest context |
| `Planner.Capacities` | bmpclient/bench/multi_device.py:57-70 | From the records, through the dictionary of loaded lengths: planned rows are the rows that land on each device; planned bytes are the segments those rows fill in this mode, at least one, times the segment size |
| `Planner.HashCapacities` | bmpclient/bench/multi_device.py:47-70 | The same from the raw trace with the position hash; without wrap, snapshot rows of any two devices differ by at most the number of layers |
| `Planner.RowsBalanced` | bmpclient/bench/multi_device.py:47-65 | The balance bound on the planned rows of any two devices |
| `Planner.LayerLanding` | bmpclient/bench/multi_device.py:35-44 | Layer placement puts a layer's whole length on one device |
| `Planner.OriginalLanding` | bmpclient/bench/multi_device.py:8-17 | With dense layer numbers in the store and original ones in the hash, each device gets the rows the planner counted |
| `Planner.LandingShuffled` | bmpclient/bench/layout_replay.py:288-291 | How many rows reach a device does not depend on the order they are appended in |
| `Replay.AppendIff` | bmpclient/_vm_segment.py:105-129 | While nothing is released, an append succeeds if and only if there is room, and takes one slot |
| `Replay.StepFits` | bmpclient/bench/layout_replay.py:280-299 | Storing a batch succeeds if and only if every device has room for its share; then exactly that much room is taken and exactly its keys become valid |
| `Replay.TrialFitsIff` | bmpclient/bench/layout_replay.py:280-340 | A replay runs out of segments if and only if some device has fewer free ones than its share of the trace fills; otherwise it uses exactly that many |
| `PlannedReplay.SetUpFitsIff` | bmpclient/bench/layout_replay.py:239-278 | The same for a store whose extents are the planned sizes cut into segments of another size |
| `PlannedReplay.PlannedSuffices` | bmpclient/bench/layout_replay.py:471-481 | Planned extents suffice: as a snapshot for every segment size the devices accept, online for every size that divides the planned one; at the planned size every data segment is used |
| `PlannedReplay.PlanReplayReclaim` | bmpclient/bench/layout_replay.py:379-389 | From the trace: planned sizes, accepted geometry and fresh devices give a replay that succeeds, and releasing every loaded token in any order of layers leaves extent/segment free segments on each device, so the checks at the end of a request never raise |
| `ReplayLimits.OnlineFitsIff` | bmpclient/bench/layout_replay.py:334-340 | Online, a segment size is safe for every trace and placement if and only if it divides the planned one, or no addressable extent can be cut into both |
| `ReplayLimits.OverflowingTrial` | bmpclient/bench/layout_replay.py:334-340 | For any other size, a trace whose replay runs out of segments |
| `ReplayLimits.SixFourOverflow` | bmpclient/bench/layout_replay.py:471-481 | 24 KiB planned, 16 KiB replayed, contexts of 5 and 10 tokens: both sizes pass the geometry check on the planned 48 KiB and the replay fails |
| `TrialRun.AppendTokens` | bmpclient/bench/layout_replay.py:297-299 | One offload per token: the object's new state is that of storing the batch until a token is refused |
| `TrialRun.Load` | bmpclient/bench/layout_replay.py:280-340 | The loading loop with its dictionary, in any insertion order: object state and outcome are those of the replay |
| `TrialRun.ReleaseLayers` | bmpclient/bench/layout_replay.py:381-383 | The release loop: object state is that of releasing each layer's loaded tokens |
| `Oracle.SameVolume` | scripts/mqsim_ppa_oracle.py:231-234 | Any two selections the guard accepts for a record read equally many rows and hit the same ones |
| `EngineRuns.QuietMeansDone` | bmpclient/concurrent_io.py:423-447 | When nothing is left to do every index of every handle has been set exactly once (with what, EngineResults.QuietResults says), every callback has run, or is its registrant's to run, exactly once, all permits are back and nothing is in flight |
| `EngineRuns.ChunkOrder` | bmpclient/concurrent_io.py:365-447 | With more than one queue, in every run: of two requests for one chunk, in whatever batches, the one whose group was queued first runs first, and within a group the one submitted first |
| `EngineStops.StuckIff` | bmpclient/concurrent_io.py:384-447 | Submitters and workers can do nothing exactly when every group is finished, behind busy workers or in a blocked callback, and every submitter has returned or lacks a permit |
| `EngineStops.StopIff` | bmpclient/concurrent_io.py:384-387 | When callbacks do not submit: some run of given batches stops with a submitter waiting if and only if their sizes, one request less each, add up to max_inflight |
| `EngineStops.UnlimitedNeverStops` | bmpclient/concurrent_io.py:385-387 | Without max_inflight nothing stops |
| `EngineStops.StopIsJam` | bmpclient/concurrent_io.py:384-387 | Such a stop leaves no permit and nobody to return one |
| `EngineStops.JamForever` | bmpclient/concurrent_io.py:384-387 | From there a waiting submitter waits in every continuation |
| `EngineStops.CallbackStops` | bmpclient/concurrent_io.py:134-139 | With a callback that submits, every limited engine with single-threaded queues can stop although the sizes, one less each, stay below max_inflight: the callback blocks the worker that would free a permit |
| `EngineProgress.WorkFalls` | bmpclient/concurrent_io.py:384-447 | Every step of a submitter or worker lowers a measure |
| `EngineProgress.WorkEnds` | bmpclient/concurrent_io.py:384-447 | So from any state they take only so many steps, under every schedule |
| `EngineProgress.EveryScheduleFinishes` | bmpclient/concurrent_io.py:384-447 | When callbacks do not submit and the sizes, one less each, stay below max_inflight, a run that cannot go on has set every index of every batch exactly once |
| `EngineRuns.CallersKept` | bmpclient/concurrent_io.py:132-139 | Callbacks come with a returned handle, and those the completing worker has to run keep that worker busy |
| `OffloadBytes.OffloadServes` | bmpclient/sparse_kv/store.py:131-142 | After a successful offload each token of a block holds its own slice of that block's buffer, unless a later block covers it too; keys no block covers hold what they held; fetch returns the slice if and only if no different copy was prefetched |
| `OffloadBytes.WriteOrder` | bmpclient/sparse_kv/store.py:134-142 | Units are written block by block and token by token, unit i of a block being bytes i*unit to (i+1)*unit of its buffer |
| `OffloadBytes.WriteCount` | bmpclient/sparse_kv/store.py:134-156 | Nothing is written of the first block that fails its checks, nor of any block after it |
| `OffloadBytes.LastBlockDecides` | bmpclient/sparse_kv/store.py:134-142 | When blocks overlap, the last one that covers a token decides its bytes |
| `PlanBytes.PlanWrites` | bmpclient/sparse_kv/store.py:41-48 | The raw bytes a successful plan leaves: at 16 + 32*i the device, the flag word (1 exactly for a unit still buffered, else 0), the address, the unit size and the staging place of token i, and before them count, layer and zeros, all little-endian |
| `ConflictCost.TrackedLoads` | scripts/ppa_selection.py:72-81 | Tracking counters hold, for every channel, chip, die and plane, the number of rows whose place has that prefix |
| `ConflictCost.CostIs` | scripts/ppa_selection.py:72-86 | The objective is the sum of the squared row counts over the channels, the chips, the dies and the planes in use |
| `SearchUnique.GreedyUnique` | scripts/ppa_selection.py:105-129 | Whatever order sets are walked in, the preferences ask for the same exchange |
| `SearchUnique.MoreBudgetContinues` | scripts/ppa_selection.py:89-135 | The search is a function of its record: the same budget gives the same exchanges, a larger one the same and then more |
| `BatchLRU.RecencyIsLastUse` | scripts/ppa_selection.py:26-36 | The recency order lists exactly the rows ever used, by their last use, and by number within a batch |
| `BatchLRU.BatchesInOrder` | scripts/mqsim_ppa_oracle.py:49-65 | What is committed to a layer's cache are the native sets of exactly its records, in trace order |
| `BatchLRU.BaselineStates` | scripts/mqsim_ppa_oracle.py:49-65 | The loop with one cache per layer yields before each record the cache after the layer's earlier native sets; it fails exactly when a batch exceeds a positive capacity |
| `EngineResults.ResultsAreOutcomes` | bmpclient/concurrent_io.py:404-447 | After every run: each result set is the outcome of the execution of that very request, or the failure of a request whose group no queue took; a group that handed back its results has all its outcomes in its handle; completed and failed are the numbers of successful and failed executions of the groups counted so far |
| `EngineResults.QuietResults` | bmpclient/concurrent_io.py:404-447 | When nothing is left to do each index is set exactly once, to its own execution's outcome, or to failure if its group was never queued, and completed and failed count all executions by outcome |
| `EngineResults.HistKept` | bmpclient/concurrent_io.py:404-447 | Every step keeps state and history in agreement |
| `Grouping.SharesGroupIff` | bmpclient/concurrent_io.py:377-401 | Requests share a group exactly when their chunks agree modulo num_queues, or with one queue their positions modulo num_workers |
| `Grouping.FirstUseOrder` | bmpclient/concurrent_io.py:396-401 | Groups stand in the order of their first requests |
| `EngineOrder.QueueOfRequest` | bmpclient/concurrent_io.py:403-409 | A request goes to the queue of its chunk modulo num_queues, or to the only queue |
| `EngineRuns.NothingAfterClose` | bmpclient/concurrent_io.py:341-368 | Once close has begun no batch is accepted in any continuation |
| `EngineRuns.NothingAfterShutdown` | bmpclient/concurrent_io.py:347-348 | Once a queue is shut down it gets no group in any continuation |
| `Planner.LongestIs` | bmpclient/bench/layout_replay.py:163-178 | The length the planner keeps is the greatest context length of the layer |
| `FrontToBack.FreshFillsInOrder` | bmpclient/_vm_segment.py:105-144 | Units appended to a new device, nothing released, get the offsets 0, unit, 2*unit and so on, and it takes exactly as many as its extent holds |
| `FrontToBack.RecycledIsNext` | bmpclient/_vm_segment.py:137-191 | The segment a release just emptied is the next one filled |

## Left out

- Lifecycle checks (closed stores, media and allocators raise on use), locking inside one call, and error texts.
- ctypes bindings, the native SSD pool, transports, RPC, metadata hash table, daemons and configuration parsing.
- Caller-supplied output buffers of `fetch`: the model returns the units; `read_batch` itself is modelled on caller buffers.
- Negative layer and token numbers: keys are naturals. The source's `locate` rejects them; its `gather` would index from the end.
- The token check in `LayerPlacement.locate`; the planner and store proofs take the placement as a parameter.
- Several requests in one trace: each has its own store, extents and dictionaries, and the model follows one. The step-number check in `geometry` and its single-device totals.
- Reads between the steps of a trial, which change no state of the store.
- The `applied` strategy of the oracle, whose selection comes from a recorded trace, and all digests, timing and reports.
- Floating-point rounding of scores, which are modelled as reals.
- `preallocate_chunks`, `read`, `write` and `close` of the chunk allocator, and the split into one dictionary per medium: chunks carry their medium and stand in one list in creation order.
- Out-of-memory of the bitmap itself and `ba_dump`.
- `wait`, `wait_all`, `wait_any` and timeouts, so a callback that waits for a handle on its worker; exceptions thrown by callbacks; the bytes a request transfers.
- PageAllocator.BitmapAllocator.Release: assumes that page plus page count does not wrap at 2^64, which only one-byte pages could reach.
- PageAllocator.BitmapAllocator.IsAllocated: the same assumption.
- PageAllocator.Create: assumes that rounding the arena size up does not wrap at 2^64.
- PageRuns.LiveDisjoint: callers free only whole live blocks or ranges that are rejected; freeing part of someone else's block is accepted by the code and not covered.
- Chunks.ChunkBuffer.Alloc: sizes are positive; the source does not check.
- Chunks.ChunkBuffer.Release: only live blocks are freed; the source does not check.
- ChunkAllocator.FineGrainedAllocator.Alloc: chunk ids from the service are not in use.
- StoreRuns.RunRefines: no key with a prefetched copy is offloaded again, as the slot table's convention implies; the failing case is StoreRuns.RewriteServed.
- PlannedReplay.PlanReplayReclaim: extents are at most 2^48 bytes, which is what slots can address.
- SingleAssignment.RunFullIff: the same bound as RunExact.
- SingleAssignment.RunReclaims: the same bound as RunExact.
- SingleAssignment.RunExact: extents are at most 2^48 bytes; past that an offload can fail after its unit was stored, and the unit stays counted.
- Segment.ReleaseKeeps: clients release units they own; a second release of a flushed unit is an error only when its segment's count is already zero.
- EngineStops.StopIff: for batches submitted from outside callbacks; which stops callbacks that submit add depends on their chunks, and only that they add some is stated.
- EngineStops.CallbackStops: for queues with one worker; with several, each would need a blocked callback.
- EngineOrder.RunsInOrder: with one queue and several workers no order is promised, and none is proved.
- Selection.NextMove: with more than sixteen places on a side the search looks at sixteen of them, so only the best of those is promised.
- Placement.TokenCoverage: when N steps span a lap of the prime or more only one direction is stated; the other is false there (Placement.LongWindowCovers).
- Placement.LayerCoverage: the same.
- SparseKV.SparseKVStore.constructor: layer, token and topk counts are positive; the source raises an error otherwise.
- SlotTable.Table.constructor: the same for its two counts.
- SegmentManager.DeviceSegmentManager.constructor: takes a geometry that Segment.CheckGeometry has accepted.
- SegmentManager.DeviceSegmentManager.ReadBuffer: offsets are those of whole units, as every slot holds.
- Media.VirtualMedia.ReadBatch: offsets on existing devices are those of whole units, as every slot holds.
- PageAllocator.BitmapAllocator.constructor: the argument checks are in PageAllocator.Create.
- Chunks.ChunkBuffer.constructor: the size is positive, as every chunk the service creates has.
