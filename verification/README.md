# The CHERIoT RTOS heap allocator, verified

This project models the shared heap of CHERIoT RTOS and proves what its callers rely on: memory is tiled by
chunks, the free lists find what is there, freed memory is not handed out again before every pointer to it is
gone, what is handed out is zero, and quotas and claims add up. Beside it stand the two pieces of arithmetic
and concurrency that the system leans on: the lengths that a capability can represent, and the two-thread ring
buffer.

`dafny verify dfyconfig.toml` checks everything.

## How it is built

**Free chunks.** `SizeBits` and `Bitmaps` give the size and bin arithmetic in 32 bits. `Trie` defines the bitwise
size trie as a value and what it means for a memory of linked `TChunk` records to represent it; `TrieOps` has the
abstract insertion and removal, `TrieMemory` the pointer writes, `TrieSearch` the abstract search. `TreeIndex`,
`TreeSearch` and `TreeUnlink` carry the loops over memory, and the class `TreeBins` the twelve bins with their
bitmap. The class `SmallBins` has the eight rings, and the class `FreeLists` joins both: its `free` map is the set
of free chunks, and every search is stated against that map.

**The heap.** `Chunks` has the headers (sizes, previous sizes, in-use bits) and what splitting, merging, taking and
releasing do to them. `HeapState` adds the shadow bits, the granules that are not zero, what is handed out of each
chunk and what is in quarantine. Addresses and chunk sizes are in granules of eight bytes, as the 16-bit size
fields of the source are. `Sums` and `Accounts` tie the size counters to the chunks.

**Revocation.** `Revoker` is the software revoker with its load barrier: memory is a sequence of slots that hold
capabilities, clients copy and narrow what they load, and a sweep passes every slot through the barrier, one
stretch per tick. The epoch is a 32-bit counter; a ghost counter that never wraps stands beside it. `Quarantine`
has the two pending rings and the finished one.

**Together.** `World` puts heap, capabilities, epochs and the history of every granule into one state, with one
invariant, `Ok`, and proves that each step keeps it. `Runs` quantifies over whole runs of these steps in any order;
`Reaches(W, W')` says that some run leads from one state to another. `Steps` has the compound steps (what is quiet,
what is handed out, what is retired), each of which is such a run. The class `MState` is the allocator state with the
methods of `alloc.h`; each operation keeps everything in agreement and promises a run from the state before it to the
state after it, so that the theorems about runs are about the code with its rings and its 32-bit test.
No operation loses a capability to an allocation that stays live (`Fewer`, `Shrunk`).

**Ownership.** `Claims` has the encoded claim lists, `Books` the allocations with owners and claim lists, `Charges`
the simple view: `Holds(books, quota, chunk)` counts holds, `Charge(books, quota)` says what a quota pays for.
`Ledger` says that for every quota what is left and what is charged make up the initial value. The class
`Allocator` has the entry points of `main.cc`; `Valid()` contains the ledger for every quota against initial values
that are fixed at construction, so conservation holds after every call of every run.

**Beside the heap.** `Bounds` has the representable lengths and `set_inexact_at_most`; the allocator uses it for what
it hands out. `StaleHeap` holds one worked heap, an instance for a claim below. `RingBuffer` has the two threads,
interleaved at every load, store, wait and notification.

## Where code and comments disagree

The model follows the code.

- `tmalloc_large` is described as best fit. It is not: the untaken right subtree is dropped when a node on the
  path fits. `TreeSearch.NotBestFit` gives an instance. The search is a best fit exactly when it is `Tight`: no node on
  the path fits, or no right subtree was passed by, or the leftmost path of the one passed by leads to nothing
  smaller. Finding a fit whenever there is one is not affected.
- `set_inexact_at_most` promises a representable length. For requests of 2^24 bytes or more this fails if the
  address has 15 to 23 trailing zeros, and only then; `Bounds.AtMostCanFail` gives an instance,
  `Bounds.AtMostIsPrecise` the exact condition. Up to 511 * 2^14 bytes the promise holds for every address.
- A failed allocation reports the label at the head cursor as the epoch to wait for, and a comment says that there
  must be an eldest epoch when the quarantine is not empty. Chunks on the finished ring count as quarantined too, so
  there may be no pending ring (`Quarantine.NoEldest`); `StaleHeap.StaleLabel` gives a heap where a request fails in
  that state. The label is that of the eldest chunks exactly if some ring is pending, while pushes are timely
  (`Quarantine.EldestWhen`).
- A permanent failure is described as one of a request that can never succeed. It is one
  (`MState.PermanentMeans`), but not every such request gets it: if the heap is as large as the request with one
  header, but too small for the chunk that is looked for and the footer, the answer is that the heap is full.
  `MState.FullForever` gives an instance.
- The ring buffer is described as waking the other side on every transition to non-empty and non-full. The test for
  the transition is made before the counter is bumped, so it may be out of date by then, and a wake-up is lost
  (`RingBuffer.LostWakeUp`), for good (`RingBuffer.LostForever`). `RingBuffer.LostWhen` says exactly when, and
  `RingBuffer.NoneLost` that it takes both sides to be between test and bump at once. What is delivered is not
  affected.
- The wrapping epoch test is described as correct up to 2^31 revocations. It errs on one side only: it never calls a
  sweep finished that is not (`Revoker.FinishedIsFinished`), so temporal safety needs no such bound. The order of
  the pending rings and the promise of a flush do need one. `Quarantine.TwoRingsSuffice`, `Quarantine.PushedTidy` and
  `Quarantine.Flushed` give the conditions, `Quarantine.NoRoom` and `Quarantine.FlushTooLate` instances. How many
  epochs are left until then is the slack of the oldest pending label; every operation says how much of it it can
  take up (`Paced`), so that a caller can tell in advance that all pushes of a run are timely.

## Model

| member | source | states |
|---|---|---|
| `SizeBits.ComputeTreeIndex` | sdk/core/allocator/alloc.h:86-109 | Every size has one of the twelve tree bins. |
| `SizeBits.TreeIndexRange` | sdk/core/allocator/alloc.h:86-135 | A size of 64 bytes or more lies between the least size of its own bin and that of the next bin; the last bin has no upper end. |
| `SizeBits.TreeIndexOrder` | sdk/core/allocator/alloc.h:86-109 | A size in a later bin is larger, so later bins can serve what earlier ones cannot. |
| `SizeBits.BinPrefixOf` | sdk/core/allocator/alloc.h:86-116 | All sizes of a bin share the bits above those that its trie resolves. |
| `SizeBits.LeftShiftForTreeIndex` | sdk/core/allocator/alloc.h:112-116 | The shift leaves exactly the unresolved bits of the bin. |
| `SizeBits.MsbIsNextBit` | sdk/core/allocator/alloc.h:112-128 | The sign bit of the shifted size is the next bit for the trie to resolve. |
| `SizeBits.ShiftLeftOne` | sdk/core/allocator/alloc.h:2083-2086 | Shifting by one more in 32 bits is the shift for the next bit, so the walk never loses its place. |
| `SizeBits.PadRequest` | sdk/core/allocator/alloc.h:549-552 | The padded size is the least multiple of eight with room for the request and a header. |
| `Bitmaps.IsolateLeastBit` | sdk/include/ds/bits.h:20-24 | Exactly the lowest set bit remains; of zero, nothing. |
| `Bitmaps.AboveOrLeastBits` | sdk/include/ds/bits.h:29-33 | Exactly the bits from the lowest set one upwards are set. |
| `Bitmaps.AboveLeastBits` | sdk/include/ds/bits.h:38-42 | For a single bit, exactly the bits above it are set. |
| `Bitmaps.NextMarked` | sdk/core/allocator/alloc.h:2398-2404 | The bitmap expression is zero iff no later bin is marked; otherwise it yields the least marked bin above the index. |
| `Bitmaps.FirstMarked` | sdk/core/allocator/alloc.h:2431-2433 | Yields the least marked bin, if any is marked. |
| `Bitmaps.ShiftedSearch` | sdk/core/allocator/alloc.h:2698-2713 | The shift and mask of the small-bin search lose no bin from the index upwards. |
| `TrieOps.InsertOrdered` | sdk/core/allocator/alloc.h:2065-2118 | Inserting a size keeps the trie order (shared prefix, 0 left, 1 right, one node per size) and adds exactly that size. |
| `TrieOps.InsertAddrs` | sdk/core/allocator/alloc.h:2065-2118 | Inserting a chunk adds exactly that chunk, on one ring, and keeps the rings disjoint. |
| `TrieOps.LeafPath` | sdk/core/allocator/alloc.h:2160-2172 | The path of the replacement ends at a leaf. |
| `TrieOps.CutLeafSizes` | sdk/core/allocator/alloc.h:2160-2172 | Cutting off that leaf removes its size and no other. |
| `TrieOps.UnlinkOrdered` | sdk/core/allocator/alloc.h:2138-2243 | Unlinking any chunk, in every case, keeps the trie order and adds no size. |
| `TrieOps.UnlinkAddrs` | sdk/core/allocator/alloc.h:2138-2243 | Unlinking any chunk removes exactly that chunk. |
| `TrieMemory.LinkBeforeRep` | sdk/core/allocator/alloc.h:2100-2110 | The pointer writes that put a chunk on a ring turn memory for a trie into memory for the trie with that chunk. |
| `TrieMemory.UnhookRep` | sdk/core/allocator/alloc.h:2141-2156 | The pointer writes that take a ring member off its ring leave memory for the trie without it. |
| `TrieMemory.ReplaceRep` | sdk/core/allocator/alloc.h:2199-2237 | The pointer writes that put r in place of x leave a correct subtree under the parent of x, and change nothing outside it. |
| `TrieMemory.CutLeafReplaceable` | sdk/core/allocator/alloc.h:2160-2172 | Cutting the leaf leaves both it and the rest of the subtree in order, ready for the replacement. |
| `TrieSearch.Remainder` | sdk/core/allocator/alloc.h:2367-2368 | The unsigned subtraction with the initial remainder accepts a chunk iff it is large enough. |
| `TrieSearch.LeastIsLeast` | sdk/core/allocator/alloc.h:2294-2303 | If everything in a subtree fits, following leftmost children finds its least size. |
| `TrieSearch.WalkImproves` | sdk/core/allocator/alloc.h:2363-2390 | What the walk keeps as best always fits and only gets tighter. |
| `TrieSearch.WalkAccounts` | sdk/core/allocator/alloc.h:2363-2390 | The walk misses nothing: every size that fits is no smaller than the best node, or lies in the untaken right subtree or above all of it. |
| `TrieSearch.WalkRestAbove` | sdk/core/allocator/alloc.h:2378-2386 | Everything in the untaken right subtree is larger than the request. |
| `TreeIndex.FindSlot` | sdk/core/allocator/alloc.h:2078-2117 | The insert loop ends at the node of equal size or at the missing child where the size belongs, for every trie; each turn resolves one more bit. |
| `TreeIndex.PlantOk` | sdk/core/allocator/alloc.h:2071-2075 | The first chunk of an empty bin becomes its root and its bit is set; all bins stay in order. |
| `TreeIndex.JoinRingOk` | sdk/core/allocator/alloc.h:2100-2110 | A chunk joining a ring leaves all twelve bins in order, with exactly that chunk more. |
| `TreeIndex.JoinLeafOk` | sdk/core/allocator/alloc.h:2083-2093 | A chunk becoming a leaf leaves all twelve bins in order, with exactly that chunk more. |
| `TreeSearch.WalkLarge` | sdk/core/allocator/alloc.h:2360-2391 | The loop of the size-directed walk computes the two candidates of the abstract walk. |
| `TreeSearch.PickSmallest` | sdk/core/allocator/alloc.h:2280-2310 | The loop over leftmost children finds the chunk that the abstract search picks. |
| `TreeSearch.SearchVerdict` | sdk/core/allocator/alloc.h:2354-2417 | The search of a bin fails only if nothing in it fits; what it finds fits, and is a best fit iff the search is tight. |
| `TreeSearch.TightWhen` | sdk/core/allocator/alloc.h:2368-2374 | It is tight whenever a chunk matches exactly or no node on the path fits. |
| `TreeSearch.NotBestFit` | sdk/core/allocator/alloc.h:2350-2417 | Sizes 760, 520, 528 and 600 inserted in this order: a request for 560 gets 760 although 600 is free. |
| `TreeUnlink.FindLeaf` | sdk/core/allocator/alloc.h:2160-2172 | The descent finds the leaf that replaces a node, and the pointer to cut. |
| `TreeUnlink.Classify` | sdk/core/allocator/alloc.h:2141-2198 | What the code reads of a chunk (ring pointers, parent field, bin root) tells exactly which unlink case applies. |
| `TreeUnlink.UnlinkSharedOk` | sdk/core/allocator/alloc.h:2141-2243 | One of several chunks of a size leaves: all bins stay in order and lose exactly that chunk, whether or not it was the tree node. |
| `TreeUnlink.UnlinkLastOk` | sdk/core/allocator/alloc.h:2157-2243 | The only chunk of a size leaves, as leaf, inner node or root: all bins stay in order and lose exactly that chunk. |
| `TreeBins.TreeBins.InsertLarge` | sdk/core/allocator/alloc.h:2065-2118 | All tries stay well formed and the stored chunks change by exactly the new one. |
| `TreeBins.TreeBins.FindLarge` | sdk/core/allocator/alloc.h:2354-2417 | Null iff no large chunk is big enough; otherwise one that is, and a best fit over all large chunks iff the search of its own bin is tight. |
| `TreeBins.TreeBins.FindAbove` | sdk/core/allocator/alloc.h:2392-2410 | If the own bin has nothing, the least non-empty bin above yields a best fit. |
| `TreeBins.TreeBins.FindForSmall` | sdk/core/allocator/alloc.h:2426-2436 | A small request gets the smallest large chunk of all. |
| `TreeBins.TreeBins.EmptyMap` | sdk/core/allocator/alloc.h:2728-2742 | The bitmap is zero iff there is no large chunk. |
| `TreeBins.TreeBins.UnlinkLarge` | sdk/core/allocator/alloc.h:2138-2243 | All tries stay well formed and the stored chunks change by exactly the one unlinked. |
| `TreeBins.TreeBins.UnlinkShared` | sdk/core/allocator/alloc.h:2141-2156 | The case of a shared size: exactly that chunk leaves. |
| `TreeBins.TreeBins.UnlinkLast` | sdk/core/allocator/alloc.h:2157-2172 | The case of the last chunk of a size: exactly that chunk leaves. |
| `TreeBins.TreeBins.TakePlace` | sdk/core/allocator/alloc.h:2175-2240 | The memory and the root after a replacement are those of the abstract transplant, and the bit is cleared with the last chunk. |
| `SmallBins.SmallBins.InsertSmall` | sdk/core/allocator/alloc.h:1961-1979 | The rings and their bitmap stay in order and gain exactly the new chunk. |
| `SmallBins.SmallBins.UnlinkSmall` | sdk/core/allocator/alloc.h:1983-2027 | They lose exactly the chunk unlinked, and the bit goes with the last one. |
| `SmallBins.SmallBins.UnlinkFirst` | sdk/core/allocator/alloc.h:2030-2060 | A marked bin yields a chunk of its size, which leaves. |
| `FreeLists.ChunkBytes` | sdk/core/allocator/alloc.h:2692-2697 | The chunk size for a request: aligned, at least the minimum, and small iff the request is. |
| `FreeLists.FindSmallBin` | sdk/core/allocator/alloc.h:2697-2713 | The search yields the least non-empty small bin from that of the request upwards, or none. |
| `FreeLists.ShelfIs` | sdk/core/allocator/alloc.h:2065-2118 | The size trie of a bin holds exactly the free sizes of that bin. |
| `FreeLists.FreeLists.InsertChunk` | sdk/core/allocator/alloc.h:2248-2258 | The free chunks, over both kinds of bin, gain exactly the new one. |
| `FreeLists.FreeLists.UnlinkChunk` | sdk/core/allocator/alloc.h:2261-2271 | They lose exactly the one unlinked. |
| `FreeLists.FreeLists.TakeFit` | sdk/core/allocator/alloc.h:2692-2743 | Null iff no free chunk of any size is big enough; otherwise one that is, and only it, leaves; small requests get a best fit over all free chunks, large ones exactly if the search of their size trie, which holds just the free sizes of the bin, is tight. |
| `FreeLists.FreeLists.TakeSmall` | sdk/core/allocator/alloc.h:2692-2733 | A small request gets a best fit over all free chunks, or null iff nothing fits. |
| `FreeLists.FreeLists.TakeLarge` | sdk/core/allocator/alloc.h:2734-2743 | A large request gets a fit iff there is one, and a best fit over all free chunks iff the search of its size trie is tight. |
| `Chunks.SplitTiled` | sdk/core/allocator/alloc.h:422-446 | Splitting keeps the chunks tiling the heap, with both size fields agreeing between neighbours. |
| `Chunks.UnsplitTiled` | sdk/core/allocator/alloc.h:484-502 | Merging keeps it as well. |
| `Chunks.TakeFormed` | sdk/core/allocator/alloc.h:2327-2340 | Taking a free chunk, split or whole, keeps tiling, in-use bits and the absence of adjacent free chunks. |
| `Chunks.TakeFree` | sdk/core/allocator/alloc.h:2327-2340 | The free chunks lose the one taken and gain its remainder, if that is a chunk. |
| `Chunks.ReleaseFormed` | sdk/core/allocator/alloc.h:2449-2474 | Freeing with coalescing keeps tiling, in-use bits and the absence of adjacent free chunks. |
| `Chunks.ReleaseFree` | sdk/core/allocator/alloc.h:2449-2474 | The free chunks lose the neighbours merged and gain the merged chunk. |
| `HeapState.TakeInv` | sdk/core/allocator/alloc.h:2325-2342 | Taking a free chunk keeps the heap invariant: headers, uses, shadow marks and zeroed memory. |
| `HeapState.SplitInv` | sdk/core/allocator/alloc.h:422-446 | Splitting a chunk in use keeps it. |
| `HeapState.ReleaseInv` | sdk/core/allocator/alloc.h:2449-2474 | Freeing with coalescing keeps it: erased headers and links leave no residue and no mark. |
| `HeapState.GrantInv` | sdk/core/allocator/alloc.h:1261-1283 | Handing out a chunk keeps it. |
| `HeapState.QuarantineInv` | sdk/core/allocator/alloc.h:1462-1486 | Painting, zeroing and quarantining a chunk keep it, also where the zeroed body is smaller than the chunk. |
| `HeapState.UnquarantineInv` | sdk/core/allocator/alloc.h:2615-2640 | Clearing the link and the paint of a dequeued chunk keeps it. |
| `HeapState.SetHolderInv` | sdk/core/allocator/main.cc:748-758 | Changing owner or claims of a live chunk keeps it. |
| `HeapState.StoreInv` | sdk/include/stdlib.h:188 | Clients writing inside their bounds keep it. |
| `HeapState.ChunkOf` | sdk/core/allocator/alloc.h:1505-1539 | Every granule of the heap belongs to exactly one chunk. |
| `HeapState.HeldIsZero` | sdk/include/stdlib.h:188 | The body of a chunk about to be handed out is zero and unmarked, and holds no header. |
| `Sums.WalkIsSum` | sdk/core/allocator/alloc.h:3009-3037 | Walking from header to header meets every chunk once. |
| `Sums.WalkTotal` | sdk/core/allocator/alloc.h:3009-3037 | The sizes met add up to the heap. |
| `Accounts.TakeSpare` | sdk/core/allocator/alloc.h:2325-2342 | Taking a chunk moves no bytes out of those that are free or being worked on. |
| `Accounts.ReleaseSpare` | sdk/core/allocator/alloc.h:2449-2474 | Coalescing moves none either. |
| `Accounts.GrantAccounts` | sdk/core/allocator/alloc.h:1261-1283 | Handing out adds exactly one allocation and takes exactly its chunk from the free bytes. |
| `Accounts.QuarantineAccounts` | sdk/core/allocator/alloc.h:1462-1486 | Freeing removes exactly one allocation and adds exactly its chunk to the quarantine. |
| `Accounts.UnquarantineAccounts` | sdk/core/allocator/alloc.h:2630-2642 | Dequeuing moves exactly its chunk from the quarantine to the free bytes. |
| `Revoker.QuarantinedDoesNotLoad` | sdk/core/allocator/alloc.h:1462-1470 | A capability into a quarantined body does not pass the load barrier. |
| `Revoker.LiveLoads` | sdk/core/software_revoker/revoker.cc:130-136 | A capability to a live allocation passes the load barrier unchanged. |
| `Revoker.SweptIs` | sdk/core/software_revoker/revoker.cc:126-141 | A slot that a sweep passes loses its capability iff that does not load; all others stay. |
| `Steps.FewerSwept` | sdk/core/software_revoker/revoker.cc:126-141 | Whatever stretch a sweep passes, no capability to a live allocation is lost and none appears. |
| `Revoker.TickToGo` | sdk/core/software_revoker/revoker.cc:126-159 | Every tick brings the end of the sweep that a label waits for strictly closer. |
| `Revoker.WaitToGo` | sdk/core/allocator/main.cc:244-264 | So does every turn of waiting that finds it not over yet. |
| `Revoker.TickCaps` | sdk/core/software_revoker/revoker.cc:126-144 | Wherever the sweep stands, what it has passed holds no capability to a chunk painted before it began; every tick keeps this. |
| `Revoker.NoCapsLeft` | sdk/core/software_revoker/revoker.cc:96-121 | Once a sweep that began after the painting has ended, no capability to the chunk is left anywhere in memory. |
| `Revoker.FinishedIsFinished` | sdk/core/allocator/revoker.h:115-143 | The 32-bit wrapping test never says yes too early for an epoch that has been reached, and agrees with the unbounded comparison exactly if the distance mod 2^32 is below 2^31; so always while epochs differ by less than 2^31. |
| `Revoker.Revoker.constructor` | sdk/core/software_revoker/revoker.cc:36-67 | The revoker starts idle at epoch zero. |
| `Revoker.Revoker.Advance` | sdk/core/software_revoker/revoker.cc:94-121 | Starting and ending a sweep raise the epoch by one each; it is odd iff a sweep runs, across wrap-around. |
| `Revoker.Revoker.Tick` | sdk/core/software_revoker/revoker.cc:126-159 | One tick starts a sweep if none runs, passes the next stretch of memory through the load barrier, and ends the sweep at the end; every slot whose capability passes the barrier keeps it, and the others keep theirs or lose it. |
| `Revoker.Revoker.HasFinished` | sdk/core/allocator/revoker.h:115-143 | Prods a running sweep once, then answers by the wrapping distance. |
| `Quarantine.TwoRingsSuffice` | sdk/core/allocator/alloc.h:2523-2551 | There is an empty ring for a new label exactly if fewer than two rings are pending or the sweep of the oldest reads as over (distance mod 2^32 from 2 to 2^31 - 1), and always less than 2^31 epochs after the oldest label; then the pending labels increase from oldest to youngest. |
| `Quarantine.NoRoom` | sdk/core/allocator/alloc.h:2523-2551 | Two rings with labels 0 and 2 that nobody looked at for 2^31 + 2 epochs: a third label finds no room. |
| `Quarantine.OldestFinished` | sdk/core/allocator/alloc.h:1480-1486 | If a label is needed that the youngest ring does not have, it is later than all pending ones, and the sweep of the oldest of two rings has ended; it reads as over exactly if its distance mod 2^32 is from 2 to 2^31 - 1. |
| `Quarantine.CheckedGood` | sdk/core/allocator/alloc.h:2480-2518 | Moving the oldest ring keeps every waiting chunk on exactly one ring, and only chunks whose sweep has ended on the finished ring; with or without wrap-around. |
| `Quarantine.PushedGood` | sdk/core/allocator/alloc.h:2523-2551 | So does a push, however late it comes. |
| `Quarantine.PushedTidy` | sdk/core/allocator/alloc.h:2523-2551 | A push keeps the rings ordered, non-empty and exactly labelled exactly if it finds room, or the youngest ring has just its label; so always less than 2^31 epochs after the oldest label. |
| `Quarantine.KeptChecked` | sdk/core/allocator/alloc.h:2480-2518 | After a look that leaves nothing finished, no pending sweep is over. |
| `Quarantine.KeptPushed` | sdk/core/allocator/alloc.h:2523-2551 | A push keeps all of this, and counts as timely exactly if the rings are still tidy after it; it takes up at most one epoch of the slack that the oldest pending label has until it is 2^31 epochs old. |
| `Quarantine.PushedSlack` | sdk/core/allocator/alloc.h:2523-2551 | While pushes are timely, a push leaves no older label pending than there was. |
| `Quarantine.PacedDrained` | sdk/core/allocator/alloc.h:2480-2518 | Draining the rings takes up no slack but the epoch that passes. |
| `Quarantine.KeptLabels` | sdk/core/allocator/alloc.h:1471-1486 | No chunk in quarantine waits for a later sweep than one freed now. |
| `Quarantine.KeptFirst` | sdk/core/allocator/alloc.h:2606-2628 | The first finished chunk has waited for its sweep, and its leaving keeps all of this. |
| `Quarantine.Flushed` | sdk/core/allocator/main.cc:964-969 | A drain after the wait for a label is over leaves nothing labelled up to it iff every such label that was pending when the wait ended was from 2 to 2^31 - 1 epochs ago, mod 2^32, if no sweep was running then. If one was, this holds one way for labels that read as over both before and after its end, and the other way for a label that reads so neither time. It always holds if the oldest label is less than 2^31 epochs old. |
| `Quarantine.DrainedChecked` | sdk/core/allocator/alloc.h:2480-2518 | A look at the pending rings removes only oldest labels, and only such as read as over at that epoch. |
| `Quarantine.LeftWhen` | sdk/core/allocator/main.cc:964-969 | With nothing finished, everything up to a label has left iff no ring is pending or the oldest pending label is later. |
| `Quarantine.FlushTooLate` | sdk/core/allocator/main.cc:964-969 | A chunk labelled 0 outlasts a successful wait for label 4, 2^31 + 2 epochs later: its label is no longer in the window. |
| `Quarantine.EldestWhen` | sdk/core/allocator/alloc.h:1222-1225 | The label at the head cursor is that of the eldest chunks not known to be finished iff some ring is pending; none is iff everything quarantined is on the finished ring. |
| `Quarantine.NoEldest` | sdk/core/allocator/alloc.h:1222-1225 | Five chunks freed at once, one sweep and four dequeues from a new quarantine: one chunk is left, none is pending, and the label at the head cursor is nobody's. |
| `Quarantine.Quarantine.constructor` | sdk/core/allocator/alloc.h:1057-1063 | The quarantine starts empty and in order. |
| `Quarantine.Quarantine.PendingToFinished` | sdk/core/allocator/alloc.h:2480-2518 | The rings and cursors after the look, given the epoch that the revoker came to. |
| `Quarantine.Quarantine.Push` | sdk/core/allocator/alloc.h:2523-2551 | The rings and cursors after the push. |
| `Quarantine.Quarantine.OpenRing` | sdk/core/allocator/alloc.h:2534-2547 | The ring opened for a new label, and the cursors after it. |
| `World.TakeOk` | sdk/core/allocator/alloc.h:2325-2342 | Putting a free chunk to use keeps the whole invariant: heap, capabilities in memory, history of granules, counters. |
| `World.SplitOk` | sdk/core/allocator/alloc.h:2817-2839 | Splitting a chunk that the allocator works on keeps it. |
| `World.ReleaseOk` | sdk/core/allocator/alloc.h:2449-2474 | Giving such a chunk back keeps it. |
| `World.GrantOk` | sdk/core/allocator/alloc.h:1261-1283 | Handing it out keeps it and adds exactly that allocation. |
| `World.SetHolderOk` | sdk/core/allocator/main.cc:748-758 | Changing owner and claims keeps it and changes only that allocation. |
| `World.QuarantineOk` | sdk/core/allocator/alloc.h:1404-1498 | Freeing keeps it and removes exactly that allocation. |
| `World.UnquarantineOk` | sdk/core/allocator/alloc.h:2595-2646 | Dequeuing a chunk whose sweep has ended keeps it. |
| `World.TickOk` | sdk/core/software_revoker/revoker.cc:148-159 | A tick of the revoker keeps it. |
| `World.CopyOk` | sdk/core/software_revoker/revoker.cc:130-136 | A client deriving a capability from one that it loaded, and storing it anywhere, keeps it. |
| `World.StoreOk` | sdk/include/stdlib.h:188 | A client storing data through a capability that it loaded keeps it. |
| `World.LoadsLive` | sdk/core/allocator/alloc.h:1462-1470 | In every such state, a capability that passes the load barrier lies inside a live allocation, the one it was derived for. |
| `World.HeldIsFresh` | sdk/include/stdlib.h:188 | What is about to be handed out is zero and unmarked, no capability in memory reaches it, and every granule of it that was ever freed has been through a full sweep since. |
| `Steps.ReleaseSteps` | sdk/core/allocator/alloc.h:2449-2474 | Merging backward, merging forward and marking free, as the code does them, amount to the abstract release, in headers and free lists. |
| `Steps.DequeueOk` | sdk/core/allocator/alloc.h:2595-2646 | Dequeuing a finished chunk changes no allocation and no other quarantined chunk. |
| `Steps.TrimCalm` | sdk/core/allocator/alloc.h:2789-2855 | Splitting an aligned chunk off and giving the rest back leaves legal chunks and changes no allocation. |
| `Steps.AlignPad` | sdk/core/allocator/alloc.h:2799-2804 | The padding in front aligns the body, leaves room for a chunk, and exceeds the alignment by at most eight bytes. |
| `Steps.GrantHanded` | sdk/core/allocator/alloc.h:1214-1283 | From before the search to after the hand-out, exactly one allocation is new, and its body is fresh. |
| `Steps.QuarantineRetires` | sdk/core/allocator/alloc.h:1462-1486 | Exactly one allocation ends, and its chunk waits for the next full sweep. |
| `Steps.RetiredStays` | sdk/core/allocator/alloc.h:1486-1495 | The chunk freed in a call is still in quarantine, at the same place and of the same size, after the dequeuing of that call. |
| `Steps.LocatedAt` | sdk/core/allocator/alloc.h:1505-1539 | The nearest mark below an address leads to the chunk of a live body, and to nothing for free or painted memory. |
| `Steps.LocatedNowhere` | sdk/core/allocator/alloc.h:1505-1519 | A marked address, or one outside the heap, leads to nothing. |
| `Steps.Partition` | sdk/core/allocator/alloc.h:3009-3037 | Every chunk is free, quarantined or live, and only one of these. |
| `Steps.Counters` | sdk/core/allocator/alloc.h:3009-3037 | The two counters equal the sums over the chunk walk, and these with the live chunks and the footer make up the heap. |
| `Steps.WalkedIs` | sdk/core/allocator/alloc.h:1217-1220 | What a walk over the heap finds free or in quarantine is the sum of the two counters. |
| `Steps.NothingPending` | sdk/core/allocator/main.cc:954-957 | The quarantine counter is zero iff nothing is in quarantine. |
| `Steps.FirstWorldOk` | sdk/core/allocator/alloc.h:459-477 | The heap with one free chunk and a footer satisfies the whole invariant. |
| `Bounds.ExponentFrom` | sdk/include/cheri.hh:376-386 | The exponent of a length has a mantissa that can hold it, or is the wide one, and then no other can. |
| `Bounds.ExponentLeast` | sdk/include/cheri.hh:376-386 | It is the least such exponent. |
| `Bounds.Representable` | sdk/include/cheri.hh:382-386 | A length is exactly representable iff it is a multiple of its unit. |
| `Bounds.NoWrap` | sdk/include/cheri.hh:382-386 | Only lengths beyond 511 * 2^14 can wrap when rounded up. |
| `Bounds.Precise` | sdk/include/cheri.hh:382-386 | A range is precise if some unit divides both ends and its mantissa holds the length. |
| `Bounds.AtMostIsPrecise` | sdk/include/cheri.hh:650-709 | The length computed is never more than asked for; with the base it is exactly representable iff the request is below 2^24, or the base has at most 14, or at least 24, trailing zeros. |
| `Bounds.AtMostLoss` | sdk/include/cheri.hh:650-709 | For every non-zero base and every request up to 511 * 2^14 the range is exact and loses less than one unit against the lesser of the request and 511 * 2^ctz(base). |
| `Bounds.AtMostCanFail` | sdk/include/cheri.hh:650-709 | A base with 15 trailing zeros and a request of 2^24 bytes give a range that is not representable. |
| `Bounds.LoaderHeap` | sdk/core/loader/boot.cc:592-619 | Rounding the heap down from its end yields an exactly representable range that loses less than one unit. |
| `Bounds.Capability.SetExact` | sdk/include/cheri.hh:633-637 | Setting exact bounds keeps the tag iff the capability covers the range and it is precise. |
| `Bounds.Capability.SetInexactAtMost` | sdk/include/cheri.hh:696-709 | Keeps the base, never exceeds the request, and keeps the tag under exactly the condition above. |
| `Bounds.Capability.SetInexactAtMostSlow` | sdk/include/cheri.hh:650-681 | Keeps the base and keeps the tag iff the computed range is covered and precise. |
| `Bounds.AlignSizeIs` | sdk/core/allocator/alloc.h:1189-1191 | A rounded request that the heap could hold covers the request and is a multiple of its unit and of eight. |
| `Bounds.HandedOut` | sdk/core/allocator/alloc.h:1261-1283 | The body size recomputed at free time is the length handed out at allocation; both are exactly representable, and the fallback arises only if the body is eight bytes larger than the rounded request. |
| `Bounds.EightMore` | sdk/core/allocator/alloc.h:1261-1310 | It arises exactly for bodies of 4096 bytes at an odd multiple of eight. |
| `MState.RequestIs` | sdk/core/allocator/alloc.h:1189-1215 | What the dispatcher asks of the aligned allocator never overflows 32 bits. |
| `MState.BodyIs` | sdk/core/allocator/alloc.h:1261-1310 | The body that the dispatcher got is at least as long as the request, precise, and of the length recomputed at free time. |
| `MState.MState.constructor` | sdk/core/allocator/alloc.h:1048-1062 | An empty allocator state over a given revoker. |
| `MState.MState.AddFirstChunk` | sdk/core/allocator/alloc.h:1105-1119 | The heap is one free chunk and a footer, filed and counted. |
| `MState.MState.Init` | sdk/core/allocator/main.cc:77-138 | After initialisation everything agrees: headers, lists, counters, marks, quarantine. |
| `MState.MState.MergeBack` | sdk/core/allocator/alloc.h:2452-2461 | Headers, lists, marks and memory after consolidating backward. |
| `MState.MState.MergeOn` | sdk/core/allocator/alloc.h:2462-2469 | Headers, lists, marks and memory after consolidating forward. |
| `MState.MState.MarkFree` | sdk/core/allocator/alloc.h:2470-2473 | The merged chunk is free and filed. |
| `MState.MState.FreeInternal` | sdk/core/allocator/alloc.h:2449-2474 | The chunk is freed with its free neighbours, and the lists hold exactly the free chunks. |
| `MState.MState.DequeueFirst` | sdk/core/allocator/alloc.h:2615-2642 | One chunk fewer waits, no allocation changes, everything still agrees. |
| `MState.MState.PendingToFinished` | sdk/core/allocator/alloc.h:2480-2518 | Everything still agrees, and the epoch does not pass the end of the running sweep. Only oldest labels leave the pending rings, each of which read as over. |
| `MState.MState.Deqn` | sdk/core/allocator/alloc.h:2595-2646 | Dequeues as many chunks as it reports, at most as asked; if fewer, nothing finished is left; no allocation changes. Only oldest labels leave the pending rings, each of which read as over. |
| `MState.MState.QuarantineDequeue` | sdk/core/allocator/alloc.h:1546-1550 | Four chunks leave quarantine, or nothing that could leave is left; says whether any did. |
| `MState.MState.Kick` | sdk/core/allocator/alloc.h:2561-2588 | One tick of the revoker iff anything is in quarantine and it is forced or there is more there than three quarters of what is free; the answer says whether anything is in quarantine. |
| `MState.MState.PutToUse` | sdk/core/allocator/alloc.h:2325-2342 | The chunk found is split if the rest is a chunk, and put to use. |
| `MState.MState.MallocInternal` | sdk/core/allocator/alloc.h:2685-2751 | First four chunks leave quarantine, or nothing that could leave is left. Then null iff no free chunk in the heap is big enough, and the revoker goes on by one tick if anything is in quarantine; otherwise a chunk that was free, of the size asked for, or of eight bytes more exactly if that chunk was just that long; a best fit for small requests, and for large ones iff the search of the size trie is tight. |
| `MState.MState.Trim` | sdk/core/allocator/alloc.h:2817-2854 | Splits a chunk and gives one part back; the other keeps its place and no allocation changes. |
| `MState.MState.TrimFront` | sdk/core/allocator/alloc.h:2789-2833 | The body is aligned as asked, and the space in front is free again. |
| `MState.MState.FindAligned` | sdk/core/allocator/alloc.h:2764-2859 | The same initial dequeue. Null iff nothing is big enough for the request with its alignment, and then the same tick; otherwise a chunk of exactly the padded size whose body is aligned. |
| `MState.MState.Memalign` | sdk/core/allocator/alloc.h:2764-2859 | The same, and heapFreeSize is lower by exactly that chunk. |
| `MState.MState.MallocSuccess` | sdk/core/allocator/alloc.h:2651-2679 | The counter is lower by exactly the chunk. |
| `MState.MState.Dispatch` | sdk/core/allocator/alloc.h:1179-1285 | Each outcome arises under an exact condition on request, quota and heap: after the initial dequeue, if a free chunk is big enough, the size charged, or refused by the quota, follows from the one chosen; if none is, the failure is that of NoMemory and the revoker goes on. On failure no allocation and no quota changes; on success one allocation is new, its body covers the request, is precise, zero, out of reach of every existing capability and through a full sweep since it was last freed, and the quota pays for the whole chunk. |
| `MState.MState.NoMemory` | sdk/core/allocator/alloc.h:1216-1232 | To wait for revocation iff something is in quarantine and a walk over the heap finds enough free or there; else permanent failure iff the request with its header is larger than the heap, and heap full otherwise. While pushes are timely the epoch reported is that of the eldest pending chunks iff some ring is pending, which is so iff some quarantined chunk is not on the finished ring. |
| `MState.PermanentMeans` | sdk/core/allocator/alloc.h:1121-1152 | A failure is reported as permanent only if the request is empty, too long to represent, or more than an empty heap of this size could serve; the converse holds unless the heap is as large as the request with one header and still too small for the chunk looked for and the footer. |
| `MState.NeverMet` | sdk/core/allocator/alloc.h:1121-1124 | What an empty heap cannot serve, no state of the heap ever can. |
| `MState.FullForever` | sdk/core/allocator/alloc.h:1227-1231 | An empty heap of 1024 bytes reports heap full for a request of 1016, which can never be met. |
| `StaleHeap.StaleLabel` | sdk/core/allocator/alloc.h:1216-1226 | Five chunks of 16 bytes, apart, freed together, four just dequeued: in this heap, whose invariant holds, a request for 24 bytes fails though 64 bytes are free and 16 in quarantine, and is told to wait for an epoch that no chunk waits for. |
| `StaleHeap.StaleOk` | sdk/core/allocator/alloc.h:1216-1226 | That heap meets the whole invariant: headers, shadow bits, zeroes, history of granules and counters. |
| `MState.MState.GiveBack` | sdk/core/allocator/alloc.h:1235-1247 | A chunk that the quota cannot pay for goes back, and nothing has changed. |
| `MState.MState.HandOut` | sdk/core/allocator/alloc.h:1261-1283 | The chunk gets its owner and is handed out. |
| `MState.MState.PaintAndPush` | sdk/core/allocator/alloc.h:1462-1486 | The body is painted and zeroed and the chunk waits for the sweep after the current epoch. |
| `MState.MState.Free` | sdk/core/allocator/alloc.h:1404-1498 | Exactly one allocation ends; its chunk cannot leave quarantine within the call; everything still agrees; rings stay timely unless the push is 2^31 epochs late. At most four epochs of slack are taken up. Up to three chunks leave quarantine, and the revoker goes on iff more than three quarters of what is free is there. No capability to another allocation is lost. |
| `MState.MState.ChunkBodySize` | sdk/core/allocator/alloc.h:1291-1310 | The body length recomputed from the address and size of the chunk; that this is what was handed out is kept by the books (`Books.EnterOk`). |
| `MState.MState.AllocationStart` | sdk/core/allocator/alloc.h:1505-1539 | The header for every address in a live body; null for every address in a header, a free chunk, a painted body or outside the heap, where the address just past the last header still counts as inside and gives that header, the sentinel. |
| `MState.MState.SetHolder` | sdk/core/allocator/main.cc:748-758 | Owner and claims of one allocation change, and nothing else. |
| `MState.MState.ClientCopy` | sdk/core/software_revoker/revoker.cc:130-136 | A client's copy through the load barrier keeps everything in agreement. |
| `MState.MState.ClientStore` | sdk/include/stdlib.h:188 | A client's store through the load barrier changes data only. |
| `MState.MState.Drain` | sdk/core/allocator/main.cc:951-953 | Ends with nothing left to dequeue: the finished ring is empty and, if pushes were timely, no pending sweep is over; only oldest labels have left, each of which read as over. |
| `MState.MState.Poll` | sdk/core/allocator/revoker.h:115-143 | Says yes iff the epoch after the look is past the label by the wrapping test, and then a full sweep has passed since the label. |
| `MState.MState.FlushStart` | sdk/core/allocator/main.cc:938-957 | Drains the quarantine: nothing that could leave is left. Every entry present before has a label no later than the one noted; reports success at once iff the quarantine is empty. |
| `MState.MState.FlushRetry` | sdk/core/allocator/main.cc:958-969 | When it reports success after timely pushes: nothing labelled up to the noted epoch is in quarantine any more iff every such label pending when the wait ended was in the window of the wrapping test, if no sweep was running then; one way each if one was; always if the oldest label is less than 2^31 epochs old. The label noted by the first half covers everything then in quarantine, whatever ran in between. It reports success iff the look finds the sweep over; a turn in vain continues or starts a sweep and brings its end strictly closer. |
| `Claims.EncodeRoundTrip` | sdk/core/allocator/main.cc:660-687 | Encoded claim offsets decode to what was encoded, fit 16 bits, are never zero and are distinct. |
| `Claims.LinksAt` | sdk/core/allocator/main.cc:515-590 | Following the encoded links visits the records of the chain in order and ends with zero. |
| `Claims.LinksDrop` | sdk/core/allocator/main.cc:797-800 | Bypassing any record leaves a chain of all the others in order. |
| `Claims.CountDrop` | sdk/core/allocator/main.cc:797-800 | The claims of other quotas do not change by it. |
| `Books.EnterOk` | sdk/core/allocator/alloc.h:1261-1283 | A new allocation keeps the books in order: chains acyclic and disjoint, one record per quota, owners not among the claimants. |
| `Books.JoinOk` | sdk/core/allocator/main.cc:726-769 | So does a new claim record. |
| `Books.ReferOk` | sdk/core/allocator/main.cc:634-656 | So does a changed count. |
| `Books.LeaveOk` | sdk/core/allocator/main.cc:777-808 | So does the removal of any record. |
| `Books.DisownOk` | sdk/core/allocator/main.cc:830-852 | So does an owner letting go. |
| `Books.RetireOk` | sdk/core/allocator/main.cc:838-863 | So does the end of an allocation that nobody claims. |
| `Charges.EnterHolds` | sdk/core/allocator/alloc.h:1261-1283 | A new allocation is held once, by its owner. |
| `Charges.JoinHolds` | sdk/core/allocator/main.cc:726-769 | A new claim is one hold more; an owner who claims becomes a claimant with two. |
| `Charges.ReferHolds` | sdk/core/allocator/main.cc:634-656 | A count is what its quota holds. |
| `Charges.LeaveHolds` | sdk/core/allocator/main.cc:777-808 | With its record a quota loses all holds on that allocation, and nobody else loses any. |
| `Charges.DisownHolds` | sdk/core/allocator/main.cc:830-852 | An owner who lets go held the allocation once. |
| `Charges.RetireHolds` | sdk/core/allocator/main.cc:838-863 | An allocation ends only when nobody holds it. |
| `Charges.HeldIffSomeone` | sdk/core/allocator/main.cc:838-863 | A header has an owner or a claim iff some quota holds the chunk. |
| `Charges.JoinCharge` | sdk/core/allocator/main.cc:726-769 | A claimant pays for the record and, unless it owned the chunk, for the chunk. |
| `Charges.LeaveCharge` | sdk/core/allocator/main.cc:797-806 | The refund is for the record and the chunk. |
| `Ledger.LedgerStep` | sdk/core/allocator/main.cc:726-866 | A step that changes one quota's charge and its remainder by opposite amounts keeps every quota's balance. |
| `Ledger.LedgerNew` | sdk/core/allocator/main.cc:438-446 | A first use gives a new identifier that is unique and fits 13 bits. |
| `Ledger.EnterStep` | sdk/core/allocator/main.cc:975-996 | The hold counters and charges of all quotas after an allocation. |
| `Ledger.JoinStep` | sdk/core/allocator/main.cc:726-769 | After a new claim. |
| `Ledger.ReferStep` | sdk/core/allocator/main.cc:634-656 | After a changed count. |
| `Ledger.LeaveStep` | sdk/core/allocator/main.cc:797-806 | After the last reference of a claimant. |
| `Ledger.DisownStep` | sdk/core/allocator/main.cc:830-852 | After an owner let go. |
| `Ledger.ReleaseStep` | sdk/core/allocator/main.cc:838-863 | An allocation that nobody holds goes, one that somebody holds stays. |
| `Allocator.FindClaim` | sdk/core/allocator/main.cc:696-721 | Finds the record of a quota on a chain and the one before it, or that there is none, for every chain. |
| `Allocator.Allocator.constructor` | sdk/core/allocator/main.cc:415-448 | Every quota starts with its given limit, which is what conservation refers to ever after, and with no identifier. |
| `Allocator.Allocator.Unseal` | sdk/core/allocator/main.cc:415-448 | Succeeds iff the quota exists and has an identifier or one is left for it; gives out the next identifier on first use only; changes no balance and no other quota. |
| `Allocator.Allocator.HeapAllocate` | sdk/core/allocator/main.cc:975-996 | Permitted iff the quota exists and has or can get an identifier. Each outcome arises under the exact condition of mspace_dispatch, initial dequeue included. On success exactly one allocation is new, sealed or not as asked, held once by this quota, covering the request, its chunk paid, its body fresh, and its capability in the given slot, where it loads and may be freed; on failure nothing changes; no slot loses a capability to a live allocation; every quota keeps its balance against its fixed initial value; timeliness of pushes stays as it was. |
| `Allocator.Allocator.Receive` | sdk/core/allocator/main.cc:975-996 | The new allocation is booked, charged and its capability stored. |
| `Allocator.GivenFrom` | sdk/include/stdlib.h:188 | What the client then has: a capability that loads, to a body that is zero, unmarked, otherwise unreachable and swept. |
| `Allocator.Allocator.ClaimAdd` | sdk/core/allocator/main.cc:726-769 | One hold more for this quota and chunk, saturating at 2^32 - 1, or nothing changes; it succeeds iff there is a record already, or the quota covers the chunk and the record can be allocated from the rest, under the exact condition of that allocation. |
| `Allocator.Allocator.AddReference` | sdk/core/allocator/main.cc:634-641 | The count goes up by one unless saturated. |
| `Allocator.Allocator.NewClaim` | sdk/core/allocator/main.cc:736-769 | A new record and its charge, or nothing changes; it succeeds iff the quota covers the chunk (unless it owns it) and the record can be allocated from the rest. |
| `Allocator.Allocator.MakeRecord` | sdk/core/allocator/main.cc:601-612 | A record is allocated from the given rest of the quota and linked, or nothing changes; it succeeds iff that allocation does. |
| `Allocator.Allocator.ClaimDrop` | sdk/core/allocator/main.cc:777-808 | Drops iff this quota has a claim: one hold, or all; the record goes with the last and is refunded. |
| `Allocator.Allocator.RemoveRecord` | sdk/core/allocator/main.cc:797-806 | The record leaves the chain and the heap, and its charge and the chunk's are refunded. |
| `Allocator.Allocator.DestroyRecord` | sdk/core/allocator/main.cc:617-628 | The record's chunk goes into quarantine and the chain is without it. |
| `Allocator.Allocator.DropOwner` | sdk/core/allocator/main.cc:830-852 | The owner lets go and gets the charge back. |
| `Allocator.Allocator.RetireIfUnheld` | sdk/core/allocator/main.cc:838-863 | The chunk is freed iff nobody holds it. |
| `Allocator.Allocator.FreeChunk` | sdk/core/allocator/main.cc:820-866 | Succeeds iff this quota owns the chunk and the capability is precise, or it has a claim; then one hold, or all, goes, and the chunk is freed exactly when the last hold of any quota goes. |
| `Allocator.Allocator.Pointer` | sdk/core/allocator/main.cc:896-904 | A pointer that passes the load barrier is into a live client allocation, the one it was derived for, and the lookup from its base finds that one. |
| `Allocator.Allocator.HeapFree` | sdk/core/allocator/main.cc:868-909 | Invalid iff the quota may be used and the pointer does not load; done iff it may be used, the pointer loads, and the quota owns the allocation and the pointer covers all of it, or it has a claim; not permitted otherwise. Done lets go of one hold; otherwise, and in a dry run, nothing changes. No capability to what stays allocated is lost. Pushes stay timely if there were more than eight epochs of slack. |
| `Allocator.Allocator.HeapClaim` | sdk/core/allocator/main.cc:998-1032 | Not permitted iff the quota does not exist or can get no identifier; else invalid iff the pointer does not load; else it succeeds under the exact condition of claim_add. On success one hold more, the length of the allocation, and the quota may free it; otherwise nothing changes. No capability to a live allocation is lost; timeliness of pushes stays as it was. |
| `Allocator.Allocator.HeapFreeAll` | sdk/core/allocator/main.cc:1077-1121 | Permitted iff the quota exists and has or can get an identifier. Terminates; leaves this quota no hold on any unsealed allocation and every hold on sealed ones; reports exactly the bytes of those it held; no other quota loses a hold; no capability to what stays allocated is lost. Pushes stay timely if there was more slack than the heap has bytes. |
| `Allocator.Allocator.FreeHere` | sdk/core/allocator/main.cc:1094-1111 | One turn of it, after which the chunk at hand is still a chunk boundary. |
| `Allocator.CanFreeWhen` | sdk/core/allocator/main.cc:812-866 | A quota may free iff it holds the allocation and, if as its owner, the pointer covers all of it. |
| `Allocator.AllocateThenFree` | sdk/core/allocator/main.cc:868-996 | Allocating and then freeing leaves every quota with the holds it had, and the allocation is gone. |
| `Allocator.ClaimThenFree` | sdk/core/allocator/main.cc:868-1032 | Claiming and then freeing does so iff the claim did not saturate the count. |
| `Allocator.NeverEarly` | sdk/core/allocator/main.cc:630-656 | Over any sequence of claims and frees a reference count is right or saturated for good, so no record goes while references are owed. |
| `Allocator.Allocator.Copy` | sdk/core/software_revoker/revoker.cc:130-136 | A client's copy changes nobody's holdings. |
| `Allocator.Allocator.StoreData` | sdk/include/stdlib.h:188 | A client's store makes its granule, and no other, non-zero and changes nobody's holdings. |
| `Allocator.Allocator.FlushStart` | sdk/core/allocator/main.cc:938-957 | The first half of a flush changes nobody's holdings and no timeliness; everything in quarantine has a label no later than the one noted; reports success at once iff the quarantine is empty. Nothing that could leave is left, and no capability to a live allocation is lost. |
| `Allocator.Allocator.FlushRetry` | sdk/core/allocator/main.cc:958-969 | The second half of a flush changes nobody's holdings and no timeliness; its success means exactly what it means for the allocator state, also when any calls that had the slack ran since the first half. It reports success iff the sweep is over; a turn in vain brings its end closer; no capability to a live allocation is lost. |
| `Runs.StepOk` | sdk/core/allocator/alloc.h:1404-1498 | Every step of the allocator, the revoker and the clients keeps the whole invariant. |
| `Runs.RunOk` | sdk/core/allocator/alloc.h:1404-1498 | The invariant holds in every state of every run, and epochs never go back. |
| `Runs.Joined` | sdk/core/allocator/alloc.h:1404-1498 | Two runs one after the other are a run. |
| `Runs.ReachesOk` | sdk/core/allocator/alloc.h:1404-1498 | Whatever a run leads to from a state in order is in order, at no earlier epoch. |
| `Runs.ReachesSlots` | sdk/core/software_revoker/revoker.cc:130-136 | Memory for capabilities neither grows nor shrinks in a run. |
| `Runs.HistoryReaches` | sdk/core/allocator/main.cc:820-866 | From the state after one call to the state after any later call there is a run, as each call is one. |
| `Runs.TracedRun` | sdk/core/allocator/alloc.h:2595-2646 | In every run, a granule stays with its allocation until that is freed, and its freeing is on record after. |
| `Runs.NoEarlyReuse` | sdk/core/allocator/alloc.h:1404-1498 | In every run of steps, if a granule belongs to one allocation and later to another, a full sweep began after the first time and ended before the second. |
| `Runs.NoEarlyReuseOfCalls` | sdk/core/allocator/main.cc:820-1121 | The same for the states between the calls of any program: every method promises that a run leads from the state before it to the state after it. |
| `Runs.StepData` | sdk/core/allocator/alloc.h:1404-1498 | No step but freeing an allocation clears what is stored in it. |
| `Runs.DataStays` | sdk/core/allocator/main.cc:820-1121 | Whatever is called in between, an allocation that is still there holds what was stored in it. |
| `Runs.ReachesToGo` | sdk/core/allocator/main.cc:244-264 | No run makes the wait for a label longer. |
| `Runs.WaitEnds` | sdk/core/allocator/main.cc:244-264 | However many calls run between its turns, a wait for a label ends after a bounded number of them, as each turn in vain brings the end closer. |
| `RingBuffer.WrapIndex` | sdk/include/ring_buffer.hh:72-75 | The index from a wrapped counter is that from the unbounded one, since the size divides 2^32. |
| `RingBuffer.WrapDistance` | sdk/include/ring_buffer.hh:53-65 | Full and empty tests on wrapped counters agree with the unbounded ones. |
| `RingBuffer.SlotsApart` | sdk/include/ring_buffer.hh:72-75 | Messages fewer than the ring size apart lie in different slots. |
| `RingBuffer.PowerOfTwoSize` | sdk/include/ring_buffer.hh:42-46 | Every size that the static assertions allow has the properties used. |
| `RingBuffer.NoOverwrite` | sdk/include/ring_buffer.hh:83-103 | A store to the ring never touches the slot of a message not yet popped. |
| `RingBuffer.ProduceInv` | sdk/include/ring_buffer.hh:83-103 | Every load and store of push keeps the invariant. |
| `RingBuffer.ConsumeInv` | sdk/include/ring_buffer.hh:107-127 | Every load and store of pop keeps the invariant. |
| `RingBuffer.RunInv` | sdk/include/ring_buffer.hh:83-128 | So does every interleaving of them. |
| `RingBuffer.RunOffers` | sdk/include/ring_buffer.hh:83-128 | Exactly the messages of pushes are pushed, each once and in order, and only that of the push under way may be missing; pops return exactly what is popped. |
| `RingBuffer.Prefix` | sdk/include/ring_buffer.hh:83-128 | Under every interleaving, what pops have returned is a prefix of what pushes were given, whole and in order; at most the ring size is in between; and every finished push is in. |
| `RingBuffer.SleepsWhen` | sdk/include/ring_buffer.hh:88-92 | The producer goes to sleep iff the ring is full, the consumer iff it is empty. |
| `RingBuffer.PushCompletes` | sdk/include/ring_buffer.hh:83-103 | With room, a push gets its message in without the help of the consumer. |
| `RingBuffer.PopCompletes` | sdk/include/ring_buffer.hh:108-128 | With a message there, a pop gets the oldest out without the help of the producer. |
| `RingBuffer.LosesPop` | sdk/include/ring_buffer.hh:93-102 | A step loses a wake-up of the consumer iff it bumps the counter while the consumer is asleep and the test made before found the ring not empty. |
| `RingBuffer.LosesPush` | sdk/include/ring_buffer.hh:118-127 | A step loses a wake-up of the producer iff it bumps the counter while the producer is asleep and the test made before found the ring not full. |
| `RingBuffer.LostForever` | sdk/include/ring_buffer.hh:83-128 | A lost wake-up stays lost, whatever is pushed or popped later. |
| `RingBuffer.LostWhen` | sdk/include/ring_buffer.hh:83-128 | A run ends with somebody asleep in vain iff some bump in it missed them. |
| `RingBuffer.NoneLost` | sdk/include/ring_buffer.hh:15-20 | In a run in which the two sides are never both between test and bump, every transition to non-empty or non-full wakes who sleeps. |
| `RingBuffer.LostWakeUp` | sdk/include/ring_buffer.hh:93-102 | A run of two pushes and a pop on a ring of two after which the consumer sleeps though a message is there. |

## Left out

- Hazard pointers and ephemeral claims: every free takes the path without a published hazard, and the hazard quarantine stays empty.
- The revokers without temporal safety, the fake one and the hardware one: only the software revoker with a load barrier is modelled.
- Lock acquisition, timeouts, futexes and the retry loop of `malloc_internal`: one attempt is modelled; a dropped lock is any sequence of valid calls in between.
- Sealing, tokens and permissions: an allocation capability is an index into the quotas, and an invalid one an index out of range; a sealed allocation is a flag.
- `heap_allocate_array`, `heap_quota_remaining` and `heap_available`.
- The `corruption_error_action` branches and debug checks: the invariants say that they are never taken.
- Placement of `MState` in front of the heap: the allocator state is an object of its own, and the heap starts at a given granule above 1 and fits the 16-bit size fields.
- Ring links of the small bins and the quarantine: rings are sequences of chunks, so that update in place of their cells is not captured; the rings and trees of large chunks are linked records in memory.
- The shadow bitmap as words: it is a set of granules.
- Contents of memory: a granule is zero or not; which data it holds is not modelled.
- The connection between slots and granules: slots for capabilities are not tied to heap addresses, so that zeroing a freed body does not remove capabilities in it; this only makes the argument about sweeps harder.
- Empty capabilities: a capability in a slot reaches at least one byte of the allocation it was derived for, so pointers one past the end are not looked up.
- Capabilities in registers across a call: clients reload what they use through the barrier.
- The scheduler, the loader apart from the rounding of the heap, `bitpack.hh`, and all drivers and libraries.
- The locks of the ring buffer, and fairness: there is one producer and one consumer, and nothing is said about who runs when.
- MState.MState.Memalign: takes requests whose sum with the alignment stays below 2^32; `MState.RequestIs` shows that the dispatcher makes no others.
- MState.MState.FlushRetry: an exact condition is stated for runs in which every push was timely and for waits that end while no sweep is running. If one is running then, the drain may look before or after its end, and a condition that suffices and one that is necessary are stated, which differ only for labels that read as over at one of the two times. After a push that found no room the model makes no promise about a flush, as the source says of its epoch test. One turn of waiting is a call of its own, so other operations may run in between.
- Allocator.Allocator.FlushRetry: as for MState.MState.FlushRetry.
- Quarantine.Flushed: as for MState.MState.FlushRetry.
- Allocator.Allocator.HeapAllocate: a request is below 2^32 bytes, as its type in the source says; it makes one attempt and does not wait.
