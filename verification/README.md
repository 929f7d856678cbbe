# Verified models of vmxkernel-os

A Dafny project that models the parts of the system with the most state and arithmetic, and proves what they are for.
`dafny verify dfyconfig.toml` checks everything.

## What is modelled

**The memory allocator** (`relibc/dlmalloc-rs`, 64-bit constants). Memory is a map from addresses to words; chunk
heads, feet, bin links, tree links and segment records are words in it, written one at a time in the order of the
source. The allocator's own words have negative addresses, system memory positive ones. Beside the words stands a
ghost tiling that says what each chunk is. The layers, from the bottom up:

- `Bits`, `Sizes`, `Heads`: bit maps, size classes, tree indices, head words.
- `Rings`, `SmallBins`, `Tries`, `TrieInsert`, `TrieRemove`, `TrieUnlink`, `TrieSearch`: the circular lists and the
  bitwise tries held in linked words.
- `Store`, `StoreSteps`, `BinStore`: class `Store`, all bins with their two bit maps, with insertion, removal and
  search.
- `Tags`, `Heap`, `Retag`, `HeapOps`, `Coalesce`, `Payload`: boundary tags, the invariant `Sound`, what a change of
  one stretch of memory keeps.
- `Regions`, `Growth`, `NewSegment`, `Release`, `SystemSteps`: segments that grow, appear and go.
- `Choice`, `Outcome`: who serves a request, and what state each operation leads to, as relations between views.
- `Dlmalloc`, `Bulk`: class `Dlmalloc`, the operations.
- `Canon`, `Order`, `Session`: what follows for every state, for releases in any order, and for every sequence of
  requests.

`Valid()` is the invariant between operations. For a heap with memory it says: the segments are tiled exactly by
chunks; heads, feet and in-use bits agree with the tiling; no two free chunks are neighbours; every free chunk other
than the victim and the top is in the one bin its size selects and the bins hold nothing else; a map bit is set
exactly if its bin has a chunk; each tree is ordered, with distinct sizes and consistent links; the footprint is the
sum of the segments; the top chunk closes the newest segment; the record of each older segment lies in that segment.
`Granted`, `Released` and `Moved` say what an operation does to the chunks the program holds, and that it touches no
payload word of any other. `Served`, `Grown`, `FreedTo`, `TrimmedTo` and their like say the rest of the new state:
segments, victim, top chunk and counters. With `Canon.CanonicalHeap` nothing is then left open but the order inside
the bins, which `Store` states.

**The 128-bit remainder** `fmodl`, on two 64-bit limbs. `Mag` is a number's magnitude in units of the least subnormal,
an integer, so the specification is the integer remainder (section 7.12.10.1 of ISO C11; encoding of section 3.4 of
IEEE 754-2008).

**Page tables**: physical memory as a map from frames to 512 entries, the recursive copy and the recursive free.
`Walk` is the four-level walk of section 4.5 of the Intel SDM, volume 3A, with all flags met on the way.

**The scheduler** as a step system (`Scheduling`) and as the class that carries out the steps (`Scheduler`).

**The frame search** over a packed bitmap (`Frames`).

What the environment decides is left open. The system is an input of the allocator: an oracle `sys` that answers the
k-th question, refuses any request for memory or any release of it as it likes, and grants any fresh page-aligned
region otherwise. Contracts name its answers, so "null" and "kept" are stated exactly: `Denied(nb)` says that nothing
on hand serves nb bytes and that the answer to the one question `sys_alloc` would ask is a refusal. The frame
allocator hands out any free frame, whatever it holds.

## What was found

- `memalign` checks the size before it pads it, so a few sizes pass the check and fail all the same
  (`AlignedGuardIsShort`); `Memalign` states exactly which sizes can succeed.
- Freeing a copied page table gives back the user pages the source still maps. `CopyThenFree` states that the free set
  is restored if and only if those pages were free before; `UserPageGivenAway` shows a source for which they are not.
- Killing the kernel process while one of its threads waits takes that thread out of the queue for good; the next exit
  can leave a CPU with only a dead thread (`KernelKillStrands`). `KillKeeps` states exactly when the invariant
  survives.
- `exit` on a CPU whose thread is already dead dereferences it (`ExitKeeps`, an if-and-only-if). `ExitTwiceFails`
  shows a run from the start that does so; `RunIff` states that nothing else can go wrong in a run.
- The bitmap's length in bytes bounds a search over bits, so only the first eighth of the frames is searched.
  `FreeFrameMissed` shows a free frame that is not found; `MissedIff` states exactly when runs are missed.

## Model

| member | source | states |
|---|---|---|
| `Sessions.Session` | relibc/dlmalloc-rs/src/dlmalloc.rs:243-637 | any sequence of malloc, memalign, realloc, free and writes behaves as an ideal memory of independent arrays: blocks are 16-aligned, never overlap, have the room asked for, and every word written reads back as written, through later moves and resizes as far as the new size reaches; with no refusal from the system every request that is not too large is met |
| `Sessions.Perform` | relibc/dlmalloc-rs/src/dlmalloc.rs:1169-1247 | one request keeps heap and ideal memory in step, and fails exactly if it is too large, or nothing on hand serves it and the system refuses; a block with room behind it always grows |
| `Sessions.ReadsLastWrite` | relibc/dlmalloc-rs/src/dlmalloc.rs:439-457 | after any session a word reads back as the last value written to it, as long as the block was not dropped or cut below the word since, wherever it has moved |
| `Sessions.LastWriteStands` | relibc/dlmalloc-rs/src/dlmalloc.rs:439-457 | the same of the ideal memory that the heap is compared with |
| `Canon.ExactTiling` | relibc/dlmalloc-rs/src/dlmalloc.rs:1361-1369 | in every valid state each address of a segment lies in exactly one chunk |
| `Canon.BoundaryTags` | relibc/dlmalloc-rs/src/dlmalloc.rs:1438-1461 | heads, feet and both in-use bits say what the tiling says; a live chunk never reads as directly mapped |
| `Canon.LivePayloads` | relibc/dlmalloc-rs/src/dlmalloc.rs:1392-1416 | live payloads are aligned, lie inside a segment and are pairwise disjoint |
| `Canon.CanonicalShape` | relibc/dlmalloc-rs/src/dlmalloc.rs:641-699 | segments and live chunks determine the whole tiling, up to which free chunk is the victim |
| `Canon.CanonicalHeap` | relibc/dlmalloc-rs/src/dlmalloc.rs:641-699 | with the victim at the same place too, the whole view and all bin contents are equal |
| `Canon.OneOutcome` | relibc/dlmalloc-rs/src/dlmalloc.rs:641-699 | two valid heaps that come from one heap by releases and hold the same are equal, victim and bins included |
| `Canon.OrderLeavesNoTrace` | relibc/dlmalloc-rs/src/dlmalloc.c:5092-5132 | any two valid heaps with the same segments from which the same chunks were freed, in whatever order, have the same tiling, and are equal if the victim is at the same place |
| `Orders.BulkAsSingly` | relibc/dlmalloc-rs/src/dlmalloc.c:5092-5132 | from equal states, freeing in bulk and freeing the same pointers one by one in any order end in equal states: same tiling, victim, top and bins |
| `Coalescing.NotMmapped` | relibc/dlmalloc-rs/src/dlmalloc.rs:1689-1691 | the branches for directly mapped chunks are never taken |
| `Payloads.PayloadSound` | relibc/dlmalloc-rs/src/dlmalloc.rs:1732-1742 | a program may write any word of a live payload and the heap stays sound |
| `Payloads.SpotFacts` | relibc/dlmalloc-rs/src/dlmalloc.rs:596-617 | the aligned spot leaves a leader of more than the minimum chunk and lies at most 32 bytes beyond the alignment |
| `Payloads.EightBytes` | relibc/dlmalloc-rs/src/dlmalloc.rs:453 | the eight bytes that a copy speaks of determine the word, with the powers of 256 written out |
| `Outcomes.DisposalVictim` | relibc/dlmalloc-rs/src/dlmalloc.rs:641-699 | a disposal never loses the victim: it grows, stays, or becomes part of the top chunk |
| `Allocators.Dlmalloc.constructor` | relibc/dlmalloc-rs/src/dlmalloc.rs:93-116 | a new allocator is valid, holds nothing, and has all counters at zero |
| `Allocators.Dlmalloc.Malloc` | relibc/dlmalloc-rs/src/dlmalloc.rs:243-357 | null exactly if the size reaches `max_request`, or no binned chunk, victim or top serves and the system refuses; the system is asked exactly if nothing on hand serves. Who serves is exact: the bins for a small request if they have its size or the victim is too small, for a large one unless the victim fits as tightly, and then the tightest chunk of all, of several of that size the last inserted in a small bin or the tree node; else the victim; else the top chunk; else the granted region. The new chunk is cut to nb unless less than 32 bytes would remain, and victim, top, segments and counters afterwards are stated |
| `Choices.WhoServes` | relibc/dlmalloc-rs/src/dlmalloc.rs:243-357 | the same order with its conditions spelled out over bins, victim and top: the very size first, then the tightest chunk, the victim, the top |
| `Allocators.Dlmalloc.MallocSmall` | relibc/dlmalloc-rs/src/dlmalloc.rs:247-301 | a small request is served from the bins exactly if they hold its size or the victim is too small and some chunk serves, then by the tightest of all binned chunks, whose rest becomes the victim |
| `Allocators.Dlmalloc.TmallocSmall` | relibc/dlmalloc-rs/src/dlmalloc.rs:837-869 | the leftmost path of the lowest tree finds the minimum over all tree-binned chunks; the rest of it becomes the victim |
| `Allocators.Dlmalloc.TmallocLarge` | relibc/dlmalloc-rs/src/dlmalloc.rs:871-943 | null exactly if no binned chunk fits or the victim fits at least as tightly; otherwise a minimum over all that fit, and the victim stays |
| `Allocators.Dlmalloc.MallocVictim` | relibc/dlmalloc-rs/src/dlmalloc.rs:319-338 | the victim serves, split exactly if 32 bytes or more remain, and the rest is the victim |
| `Allocators.Dlmalloc.MallocTop` | relibc/dlmalloc-rs/src/dlmalloc.rs:341-354 | the top chunk serves from its front and shrinks by exactly the request |
| `Allocators.Dlmalloc.SysAlloc` | relibc/dlmalloc-rs/src/dlmalloc.rs:360-437 | one question to the system and null exactly if the answer is a refusal: every grant leads to success, so the final null is unreachable. A region at the end of the newest segment extends it and the old top serves; one in front of some segment extends that and serves from its front; any other is a new newest segment. Top, victim, segments, footprint, its maximum, trim threshold and release counter afterwards are stated |
| `Choices.WhereItGoes` | relibc/dlmalloc-rs/src/dlmalloc.rs:373-434 | the same three cases spelled out over segments, top and footprint |
| `Allocators.Dlmalloc.Grow` | relibc/dlmalloc-rs/src/dlmalloc.rs:390-419 | which of the three ways a further region is used, in this order, and the resulting segment list |
| `Allocators.Dlmalloc.SegmentEndingAt` | relibc/dlmalloc-rs/src/dlmalloc.rs:391-394 | finds a segment that ends at the address, null exactly if none does |
| `Allocators.Dlmalloc.SegmentStartingAt` | relibc/dlmalloc-rs/src/dlmalloc.rs:406-409 | finds a segment that starts at the address, null exactly if none does |
| `Allocators.Dlmalloc.PrependAlloc` | relibc/dlmalloc-rs/src/dlmalloc.rs:721-761 | a region in front of a segment serves from its front; the rest joins the top chunk, the victim or a free first chunk, whichever comes first, and top and victim start there exactly in the first two cases |
| `Allocators.Dlmalloc.AddSegment` | relibc/dlmalloc-rs/src/dlmalloc.rs:764-824 | the old segment gets a record in its own memory, at the place computed from its end, behind fenceposts; the new region becomes the newest segment and its front the top chunk, holdings and payloads stay |
| `Allocators.Dlmalloc.InitTop` | relibc/dlmalloc-rs/src/dlmalloc.rs:701-711 | exactly the head of the top chunk and of its foot are written |
| `Allocators.Dlmalloc.SegmentHolding` | relibc/dlmalloc-rs/src/dlmalloc.rs:826-835 | finds the segment of an address, null only if none holds it |
| `Allocators.Dlmalloc.ReplaceDv` | relibc/dlmalloc-rs/src/dlmalloc.rs:980-989 | the old victim is small or absent and goes to its bin |
| `Allocators.Dlmalloc.DisposeChunk` | relibc/dlmalloc-rs/src/dlmalloc.rs:641-699 | a live chunk becomes one chunk with exactly its free neighbours: the top chunk if that is one of them, else the victim if that is, else a binned chunk |
| `Allocators.Dlmalloc.Free` | relibc/dlmalloc-rs/src/dlmalloc.rs:1169-1247 | exactly the given chunk leaves the holdings, and no other payload word changes; the top chunk is trimmed exactly if the disposal reached it and it is beyond the threshold, the segments are swept exactly if a large binned chunk came of it and the counter ran out, and the whole resulting state is stated; with a system that takes everything the top chunk ends no larger than before, the threshold, or one unit beyond the pad |
| `Allocators.Dlmalloc.TryReallocChunk` | relibc/dlmalloc-rs/src/dlmalloc.rs:459-531 | succeeds in place exactly if the chunk and the free memory behind it suffice, with the payload prefix kept; the size is exact, and so are top and victim afterwards; otherwise nothing changes |
| `Allocators.Dlmalloc.Realloc` | relibc/dlmalloc-rs/src/dlmalloc.rs:439-457 | the first min(old usable, new) bytes survive, and each whole word among them, moved or not; in place exactly if there is room; null exactly if too large, or there is no room, nothing on hand serves and the system refuses; a move ends in the state that `malloc` and then `free` lead to |
| `Allocators.Dlmalloc.Memalign` | relibc/dlmalloc-rs/src/dlmalloc.rs:576-637 | for every power of two the result is aligned and has nb to nb+32 bytes: exactly the spot and size computed from the chunk that `malloc` serves for the padded request; null exactly if the padded request reaches `max_request` or is denied |
| `Allocators.Dlmalloc.AlignWithin` | relibc/dlmalloc-rs/src/dlmalloc.rs:590-637 | the block shrinks to exactly the aligned spot and size computed from it; what is before and behind is back in the heap |
| `Allocators.AlignedParts` | relibc/dlmalloc-rs/src/dlmalloc.rs:590-637 | leader, result and remainder add up to the block; leader and remainder are absent or large enough for a chunk; with the first aligned spot exactly 32 bytes in, a block of the size asked for leaves exactly nb |
| `Allocators.AlignedGuardIsShort` | relibc/dlmalloc-rs/src/dlmalloc.rs:580-582 | a size that passes the check of `memalign` and still cannot be served |
| `Allocators.Dlmalloc.SysTrim` | relibc/dlmalloc-rs/src/dlmalloc.rs:1253-1295 | the top chunk loses exactly the whole units beyond the pad if the system takes them, and nothing otherwise; then the older segments are swept; the threshold is put out of reach exactly if nothing was given back and the top chunk is beyond it; a system that takes everything leaves at most one unit beyond the pad and no releasable segment; true exactly if the footprint fell |
| `SystemSteps.TrimUnits` | relibc/dlmalloc-rs/src/dlmalloc.rs:1257-1259 | what is offered is the most whole units that leave more than the pad |
| `Allocators.Dlmalloc.ReleaseUnusedSegments` | relibc/dlmalloc-rs/src/dlmalloc.rs:1309-1357 | the segments that stay are exactly those whose first chunk is not free up to the last 80 bytes, or that the system does not take when offered in order; a victim that was offered is none afterwards; the questions asked and the new counter are exact; the footprint falls by what is returned |
| `Allocators.Dlmalloc.HasSegmentLink` | relibc/dlmalloc-rs/src/dlmalloc.rs:1297-1306 | no record ever lies in the newest segment |
| `Allocators.Dlmalloc.BulkDispose` | relibc/dlmalloc-rs/src/dlmalloc.c:5092-5126 | distinct live pointers merged with array neighbours and disposed of: exactly they leave the holdings, the victim only grows or joins the top chunk, the array is nulled |
| `Allocators.Dlmalloc.BulkFree` | relibc/dlmalloc-rs/src/dlmalloc.c:5092-5132 | the same, then one trim exactly if the top chunk is beyond the threshold |
| `Allocators.Dlmalloc.DisposeEach` | relibc/dlmalloc-rs/src/dlmalloc.rs:641-699 | the same pointers disposed of one at a time: the same holdings, and the victim likewise |
| `BinStores.Store.InsertLarge` | relibc/dlmalloc-rs/src/dlmalloc.rs:1016-1057 | the bins gain exactly this chunk, at the end of the ring of its size or as a node where the bits of its size lead; trie order, unique sizes, rings and links are kept, only link words written |
| `BinStores.Store.Descend` | relibc/dlmalloc-rs/src/dlmalloc.rs:1030-1054 | the walk ends, within the discriminating bits, at the node of this size or at the vacant child where it belongs |
| `BinStores.Store.UnlinkLarge` | relibc/dlmalloc-rs/src/dlmalloc.rs:1106-1167 | the bins lose exactly this chunk, whether ring member, leaf or inner node; the ring closes, or the leaf on the rightmost way down takes the node's place; the trie stays in order |
| `BinStores.Store.DeepLeaf` | relibc/dlmalloc-rs/src/dlmalloc.rs:1115-1134 | the replacement is the leaf below the node that is reached by going right wherever there is a right child, through the word that points to it |
| `BinStores.Store.SearchPath` | relibc/dlmalloc-rs/src/dlmalloc.rs:876-904 | after one path every better chunk of the bin lies under the remembered right subtree |
| `BinStores.Store.LeftmostPath` | relibc/dlmalloc-rs/src/dlmalloc.rs:916-924 | a leftmost path leaves nothing better in its tree |
| `BinStores.Store.SearchLarge` | relibc/dlmalloc-rs/src/dlmalloc.rs:871-924 | two paths suffice for a best fit over all tree-binned chunks, the tree node of its size, or none fits |
| `BinStores.Store.SearchSmallest` | relibc/dlmalloc-rs/src/dlmalloc.rs:837-854 | finds a smallest tree-binned chunk, the tree node of its size |
| `BinStores.Store.InsertSmall` | relibc/dlmalloc-rs/src/dlmalloc.rs:999-1014 | the bin gains exactly this chunk at its end, rings and map stay in order |
| `BinStores.Store.UnlinkSmall` | relibc/dlmalloc-rs/src/dlmalloc.rs:1091-1104 | the bin loses exactly this chunk and keeps the order of the others, the map bit is cleared with the last one |
| `BinStores.Store.TakeSmall` | relibc/dlmalloc-rs/src/dlmalloc.rs:967-978 | takes the chunk inserted last of those in the bin, of exactly the bin's size |
| `BinStores.Store.InitBins` | relibc/dlmalloc-rs/src/dlmalloc.rs:713-719 | every small bin becomes an empty ring |
| `BinStores.Store.Insert` | relibc/dlmalloc-rs/src/dlmalloc.rs:991-997 | any free chunk goes to the one bin its size selects |
| `BinStores.Store.Unlink` | relibc/dlmalloc-rs/src/dlmalloc.rs:1083-1089 | any binned chunk leaves its bin |
| `Sizes.MaxRequestIsExact` | relibc/dlmalloc-rs/src/dlmalloc.rs:160-180 | a size stays within 64 bits through padding and rounding if and only if it is below `max_request` |
| `Sizes.MaxRequestValue` | relibc/dlmalloc-rs/src/dlmalloc.rs:160-176 | the value of `max_request` in word arithmetic |
| `Sizes.TreeIndexIff` | relibc/dlmalloc-rs/src/dlmalloc.rs:955-965 | a size selects tree bin i < 31 if and only if it lies between the minimum sizes of i and i+1 |
| `Sizes.TreeIndexMono` | relibc/dlmalloc-rs/src/dlmalloc.rs:1594-1597 | larger sizes never select a lower bin |
| `Sizes.SameBinPrefix` | relibc/dlmalloc-rs/src/dlmalloc.rs:83-90 | sizes of one bin agree on all bits above the one the shift brings to the sign position |
| `Sizes.LeftShiftIsTight` | relibc/dlmalloc-rs/src/dlmalloc.rs:83-90 | and each bin below the last has two sizes that differ on that bit |
| `Bits.LeftBitsAbove` | relibc/dlmalloc-rs/src/dlmalloc.rs:75-77 | `left_bits` of one bit selects exactly the bits above it |
| `Bits.LowestMarked` | relibc/dlmalloc-rs/src/dlmalloc.rs:79-81 | `trailing_zeros(least_bit(x))` is the lowest set bit |
| `Heads.HeadBits` | relibc/dlmalloc-rs/src/dlmalloc.rs:1661-1691 | the integer reading of a head word is the bit arithmetic of the source: masks, tests and comparisons written with bitwise and |
| `Heads.JoinedBits` | relibc/dlmalloc-rs/src/dlmalloc.rs:1693-1697 | setting, clearing and keeping flags by addition is the bitwise or and and of the source |
| `Fmod.Fmodl` | relibc/openlibm/ld128/e_fmodl.c:26-129 | for all inputs: invalid exactly for zero or NaN divisors and non-finite dividends, x itself for an infinite divisor, else the sign of x and exactly the magnitude \|x\| mod \|y\| |
| `Fmod.Ilogb` | relibc/openlibm/ld128/e_fmodl.c:47-54 | the exponent of every non-zero number, subnormal or not |
| `Fmod.Normalize` | relibc/openlibm/ld128/e_fmodl.c:65-77 | the significand shifted to its place, no bit lost |
| `Fmod.ShiftSubtract` | relibc/openlibm/ld128/e_fmodl.c:91-103 | shift and subtract on two limbs computes mx * 2^n mod my |
| `Fmod.Renormalize` | relibc/openlibm/ld128/e_fmodl.c:108-111 | the loop ends with the top bit in place and the value unchanged |
| `Fmod.Pack` | relibc/openlibm/ld128/e_fmodl.c:112-127 | the result words stand for exactly the remainder; a subnormal result loses no set bit |
| `Fmod.RemainderStands` | relibc/openlibm/ld128/e_fmodl.c:91-107 | the remainder of the significands, scaled, is the remainder of the numbers |
| `Fmod.MagnitudeMono` | relibc/openlibm/ld128/e_fmodl.c:41-45 | comparing the words compares the magnitudes |
| `Fmod.Spacing` | relibc/openlibm/ld128/e_fmodl.c:41-77 | from one word pattern to the next the magnitude grows by one unit in the last place, which doubles with the exponent: the law that fixes what the words stand for |
| `PageTables.Memory.DeepCopy` | kernel/src/memory/page_table.rs:36-45 | every virtual address walks alike in copy and source, with all flags; the copy's tables are fresh and used once, all else unchanged; fails exactly if free frames are fewer than the source's tables |
| `PageTables.Memory.NewFromRecursion` | kernel/src/memory/page_table.rs:69-97 | the recursive copy of one table, whatever the target held before |
| `PageTables.Memory.NewFromAllocate` | kernel/src/memory/page_table.rs:53-67 | takes one free frame or fails |
| `PageTables.Memory.FreePagesRecursion` | kernel/src/memory/page_table.rs:99-129 | gives back each table exactly once plus exactly the frames of user pages |
| `PageTables.Memory.FreeUserPageTable` | kernel/src/memory/page_table.rs:47-50 | the same from the root |
| `PageTables.Memory.CopyThenFree` | kernel/src/memory/page_table.rs:36-50 | after copy and free the free set has gained exactly the source's user pages; restored if and only if they were free |
| `PageTables.UserPageGivenAway` | kernel/src/memory/page_table.rs:117-121 | a source of four tables, so that any four free frames suffice for its copy, whose mapped page is then given away |
| `PageTables.Isolation` | kernel/src/memory/page_table.rs:36-45 | no later change to the copy's tables changes any translation of the source |
| `Paging.SameWalk` | kernel/src/memory/page_table.rs:75-82 | trees that agree entry by entry translate every address alike |
| `Paging.SamePages` | kernel/src/memory/page_table.rs:112-126 | and map the same user pages equally often |
| `Paging.PagesAreReached` | kernel/src/memory/page_table.rs:117-121 | a frame counts as a user page if and only if some virtual address reaches it as one |
| `Paging.CountIsCard` | kernel/src/memory/page_table.rs:83-95 | where no table is shared, the tables counted are the frames used |
| `Paging.DecodedBits` | kernel/src/memory/page_table.rs:75-82 | an entry is unused exactly if its 64 bits are zero, a user page exactly if bits 0, 1, 2 are set and bit 7 is not, a branch exactly above level one, not zero, with bit 7 clear |
| `Scheduling.EveryRunSafe` | kernel/src/task/scheduler.rs:77-104 | on any number of CPUs a run goes through exactly if no dead thread exits in it, kills of the kernel process being limited to moments when none of its threads waits; then no thread has two places, and every living thread has one |
| `Scheduling.RunIff` | kernel/src/task/scheduler.rs:58-104 | the same from any state that has the invariant: a dead thread that exits is the only thing that can go wrong |
| `Scheduling.ExitTwiceFails` | kernel/src/syscall/operations.rs:32-50 | a four-event run on one CPU in which a thread exits twice and is dereferenced dead |
| `Scheduling.DeadMeansReady` | kernel/src/task/scheduler.rs:27-38 | pigeonhole: a CPU with a dead thread implies a waiting thread |
| `Scheduling.BoundedWait` | kernel/src/task/scheduler.rs:87-93 | a thread with i before it runs by the (i+1)-th interrupt, whichever CPUs take them and whatever else happens to others, with the context it had |
| `Scheduling.ResumesWhereItStopped` | kernel/src/task/scheduler.rs:77-104 | an interrupted thread that is not killed runs again by the time as many interrupts have come as threads waited, with the very context saved when it was interrupted |
| `Scheduling.ContextStep` | kernel/src/task/scheduler.rs:80-85 | each event saves the context of the living thread it interrupts, sets that of a thread it starts, and leaves all others alone |
| `Scheduling.WithoutAt` | kernel/src/task/scheduler.rs:63-69 | removal takes out exactly the place of the thread and keeps the order on both sides |
| `Scheduling.ScheduleKeeps` | kernel/src/task/scheduler.rs:77-104 | a timer interrupt keeps the invariant and always finds a living thread |
| `Scheduling.ExitKeeps` | kernel/src/syscall/operations.rs:32-50 | exit succeeds if and only if the CPU's thread lives, and keeps the invariant |
| `Scheduling.KillKeeps` | kernel/src/syscall/operations.rs:216-233 | kill never fails, and keeps the invariant if and only if it does not take a kernel thread from the queue |
| `Scheduling.KernelKillStrands` | kernel/src/syscall/operations.rs:216-233 | a five-event run on one CPU that ends at a dead thread |
| `Scheduling.RunSafe` | kernel/src/task/scheduler.rs:58-104 | the invariant is kept along every fair run from any state that has it |
| `Schedulers.Scheduler.constructor` | kernel/src/task/scheduler.rs:27-38 | one kernel thread per CPU, running on it, and an empty queue |
| `Schedulers.Scheduler.Schedule` | kernel/src/task/scheduler.rs:77-104 | takes the step: the interrupted living thread has the saved context and goes to the end of the queue, the first waiting thread runs and is resumed with its own context, everything else is unchanged |
| `Schedulers.Scheduler.Find` | kernel/src/task/scheduler.rs:40-56 | the first waiting thread of a process, none exactly if it has none waiting |
| `Schedulers.Scheduler.Remove` | kernel/src/task/scheduler.rs:63-69 | drops exactly one place of the queue and keeps the order of the others |
| `Schedulers.Scheduler.Exit` | kernel/src/syscall/operations.rs:32-50 | a user thread dies on its CPU, the queue is unchanged |
| `Schedulers.Scheduler.KillProcess` | kernel/src/syscall/operations.rs:216-233 | a waiting user process dies, its first waiting thread leaves the queue, whose order is otherwise kept; no other process is affected |
| `Schedulers.Scheduler.NewKernelThread` | kernel/src/task/thread.rs:60-76 | a fresh thread of the kernel process with the given context at the end of the queue, and the invariant kept |
| `Schedulers.Scheduler.NewUserProcess` | kernel/src/task/process.rs:74-90 | a fresh process whose one thread has the given context and is at the end of the queue |
| `Frames.FrameAllocator.AllocateFrames` | kernel/src/memory/frame.rs:109-172 | the first run of cnt set bits at or after the cursor and below the number of bytes, cleared and nothing else; None exactly if there is none or the count forbids it, with nothing changed; the cursor moves only for a run at it |
| `Frames.FrameAllocator.Get` | kernel/src/memory/frame.rs:24-27 | reads one packed bit |
| `Frames.FrameAllocator.Set` | kernel/src/memory/frame.rs:29-32 | writes one packed bit and no other |
| `Frames.SetUnpack` | kernel/src/memory/frame.rs:29-32 | a byte update is an update of one bit of the whole bitmap |
| `Frames.MissedIff` | kernel/src/memory/frame.rs:121-144 | the search finds nothing exactly if every run of the whole bitmap from the cursor on ends past the bound |
| `Frames.FreeFrameMissed` | kernel/src/memory/frame.rs:20-22 | a bitmap whose only free frame is not found |
| `Frames.SearchMisses` | kernel/src/memory/frame.rs:109-172 | the search itself, on two bytes with one free frame, answers None |
| `Frames.MaskValue` | kernel/src/memory/frame.rs:24-32 | the eight bit masks, written out |

## Left out

- Directly mapped chunks (`mmap_resize` and the `mmapped` branches): this port never makes one, which is proved
  instead.
- `least_addr`, `calloc_must_clear`, the debug checks of the allocator as code: the invariant states what they check.
- `ialloc` of the C file, its locks, statistics, mspaces and corruption actions.
- The system allocators for each platform: only the contract of the `Allocator` trait, with flags zero.
- `Sessions.Session`: the program writes whole aligned words.
- `Canon.OrderLeavesNoTrace`: the segments are taken to be equal.
- `Orders.BulkAsSingly`: compares the disposals; the trim that ends a bulk release and the trims and releases inside
  single calls of `free` depend on the order and on the system.
- Signals raised by `fmodl`: invalid operations are one outcome, the final multiplication by one is the identity.
- `PageTables.Memory.DeepCopy`: an allocation failure, a panic in the source, is a false result; frame zero is taken
  never to be handed out.
- The bitmap frame allocator's `allocate_frame`, `deallocate_frames` and `init`; page tables use the contract of a
  frame allocator instead.
- Threads of one user process beyond the first: no code makes any.
- The moment in which a new process has its thread queued but is not yet registered; starting a process is one step.
- `fsbase`, FPU state and stacks of threads: a context is one opaque value.
- Device drivers, file systems, system call entry, the other mathematical functions and the C library: not modelled.
