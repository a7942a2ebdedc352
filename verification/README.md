# Verification of the lilith heap, and of four algorithms beside it

This project models the multi-heap allocator that lilith runs every TempleOS allocation through
(`lilith/stb_malloc.h`, with its spin lock and set-up in `lilith/alloc.c`), and proves that it is an allocator: whatever
is asked of it, by however many threads, live allocations are large enough, aligned and disjoint, keep what their owners
stored in them, and give everything back. Four smaller algorithms of the repository are verified beside it: the LZW
expander of `tosz`, the RLE4 encoder of bitmaps, the directory-tree serializer and the file-name matcher.

The heap is modelled where the source works, in memory. Memory is a map from byte addresses to words; headers, links,
bitmaps and tags are read from it and written to it by methods that follow the source branch by branch. Ghost fields
say what those words mean: which blocks there are, which are free or in use, what each list holds, which regions came
from the system. A heap's `Valid()` ties the two together, and every method keeps it.

`dafny verify dfyconfig.toml` checks the whole project.

## Modules

Arithmetic and encodings:

- `Bits` — and, or, shifts and powers of two on unbounded numbers, with the laws the rest needs.
- `SizeClasses` — the 416 size classes, the logarithm by shifts and table, and the class of a request or a free block.
- `Bitmap` — the 32-bit occupancy words, leftmost bit first, and the scan for the first occupied position.
- `Words` — the header words: tag bits, size and class fields, userdata, rounding and aligning of addresses.
- `Aligned` — where an explicitly aligned block goes inside the larger block that houses it.

The medium allocator (two-level segregated fit):

- `Memory`, `FreeLists`, `Ring` — words in memory; doubly linked lists threaded through them.
- `Blocks` — chunks as rows of blocks from the first header to the phantom tail, and what merging, splitting, adding
  and removing does to them.
- `Tags`, `MediumSteps`, `MediumMoves`, `MediumFrames` — boundary tags and free index as one invariant (`Core`), and a
  lemma for every write sequence that keeps it.
- `SystemMemory`, `MediumSystem` — the operating system's allocator; where each region it handed out now is.
- `Layers` — which words of a live block another layer may write.
- `Spinning` — the lock: one word, compare-and-swap, plain store.
- `Tlsf` — class `MediumHeap`: allocation, freeing and all their parts.
- `AllocFree`, `HeapCheck` — freeing undoes allocating; the source's own heap checker, what it finds in any memory, and
  that it finds nothing in a valid heap.
- `Stranded` — when a wholly free chunk goes and when it stays, with an input on which it stays.

The rest of the heap:

- `Slab`, `SmallSteps`, `Small` — 16-byte cells in slabs, the two slab rings, class `SmallHeap`.
- `Large` — class `LargeHeap`: an allocation that is a system region of its own.
- `Tally`, `Counters` — the outstanding-allocation counters as sums over what is live.
- `HeapView`, `HeapSteps`, `Heap` — class `StbmHeap`: the three allocators together, seen as one map from live pointers
  to usable sizes.
- `AbstractHeap`, `Runs` — an allocator reduced to what a caller can see, and every sequence of calls against it.
- `Threads` — class `Machine`: any number of threads in one heap, and every step one of them can take.
- `Schedules` — whole schedules of such steps, as logs of what held between any two, and what follows from them.
- `Api`, `ApiRuns` — class `StbmApi`: userdata and explicit alignment on top; and every sequence of calls of it.

Beside the heap: `LzwTable`, `Lzw` and `LzwCodes` (the expander's table, its methods, and the definition of LZW that it
meets), `Rle4`, `DirTree`, `Wildmatch`.

## Main results

1. *The heap refines an abstract allocator, over every run* (`Runs.Run`). Each call of any sequence is answered exactly
   as an allocator must: releases and stores in full, requests by a fresh, disjoint, aligned range of at least the size
   asked for, or by a refusal, and refusals occur exactly as often as the system has no memory. The run's log also says
   of each call which of the three allocators served it and what became of lists, slabs, regions and the system's
   memory (`Effect`). `ApiRuns.Run` says the same of the API, with the exact usable size in place of that log, where ranges may be aligned as the caller asks and carry userdata: all that is held at the end has
   the data stored in it and the userdata given with it, although the allocator keeps rewriting the words that hold it.
2. *The same under every interleaving of N threads* (`Threads.Machine.Step`, `Schedules.Run`). A step is one
   compare-and-swap, one read of the lock word, one critical section, one system call, one write of a header or of a
   word of a region in hand. For every schedule the log of the run says of each turn that it moved only its thread,
   along the control flow of the operation it serves, and answered exactly what that thread's call must be answered;
   between any two turns the concrete heap is in order, exactly the holder of the lock is inside a section, no two
   threads hold the same region or block, and the history is still one an allocator may show. `Schedules.History` and
   `Schedules.AnsweredInOrder` draw the consequences for whole runs: nothing is said twice or lost, each thread is
   answered in the order in which it asks, and refused requests are exactly the system's refusals. `Conservation` and
   `Quiescence` account for every region the system ever gave.
3. *Boundary tags, free lists and bitmaps agree after every operation* (`Tlsf.MediumHeap`, `HeapCheck.BoundaryTags`,
   `HeapCheck.ListExact`), the source's own checker passes (`HeapCheck.PassesCheck`), good fit is exact, coalescing is complete but for the cases under Findings, and a free undoes
   an allocation (`AllocFree`).
4. *The LZW expander meets the textbook definition* (`LzwCodes.Textbook`): codes are read at the width that their number
   asks for, each stands for what its entry was last filled with, and the output is what they stand for, one after the
   other, also while entries are recycled, and however it is cut into buffers (`Lzw.ExpandInPieces`).
5. *Round trips*: RLE4, pixel for pixel (`Rle4.Encode`), directory trees (`DirTree.RoundTrip`), aligned pointers
   (`Api.StbmApi`).
6. *Exactly where the code does not do what it is for* (Findings): misaligned results, chunks that stay for good, and
   the strings that the file-name matcher gets wrong.

## Model

| member | source | states |
|---|---|---|
| `SizeClasses.TableIsCalc` | lilith/stb_malloc.h:824-853 | Every entry of the literal 13 by 32 table equals the closed form base + slot * step of its row. |
| `SizeClasses.ClassSizeIncreases` | lilith/stb_malloc.h:824-850 | The 416 class sizes are strictly increasing in the order index, slot. |
| `SizeClasses.Log2Floor` | lilith/stb_malloc.h:751-761 | The shifts and the 16-entry table compute the floor of the base-two logarithm of every 32-bit word, and -1 for zero. |
| `SizeClasses.FloorClassIsGreatestBelow` | lilith/stb_malloc.h:866-880 | A free block is filed under the greatest class whose size does not exceed the block's. |
| `SizeClasses.CeilClassIsLeastAbove` | lilith/stb_malloc.h:882-899 | A request of up to 1032192 bytes is served from the least class that is not below its size. |
| `SizeClasses.CeilClassKeepsAlignment` | lilith/stb_malloc.h:1849-1856 | Rounding a size up to its class keeps it a multiple of any power of two that divides it, so a class block for an aligned request is itself aligned. |
| `SizeClasses.ClassOfClass` | lilith/stb_malloc.h:866-899 | For a size that is a class, filing and requesting give that same class: the two roundings meet exactly on the classes. |
| `Bitmap.FindLeftmostIsFirst` | lilith/stb_malloc.h:775-780 | The scan returns the first occupied position from the given one on, and 32 exactly when there is none. |
| `Words.FreeWordFields` | lilith/stb_malloc.h:1557-1560 | Size, class and both tag bits packed into a free block's word are each read back unchanged by their own decoder. |
| `Words.UnpackSizeData` | lilith/stb_malloc.h:1548-1555 | Index, slot and extra bit packed into an allocated block's word are recovered. |
| `Words.SetPreviousFields` | lilith/stb_malloc.h:1534-1560 | Setting a block's PREVIOUS tag changes no other field of its word, whether the block is free or in use, nor the userdata kept there. |
| `Words.UserdataWrite` | lilith/stb_malloc.h:1267-1269 | Userdata written into a header is read back, and nothing that the allocator decodes from that word changes. |
| `Words.RoundUpIs` | lilith/stb_malloc.h:742-749 | Rounding up with a mask, in 64-bit arithmetic, gives the least multiple of the power of two that is not below the number. |
| `Words.AlignAddressIs` | lilith/stb_malloc.h:783-800 | For every address and every offset below the alignment, wrap-around included, the result is the least address from there on that is congruent to the offset. |
| `FreeLists.RemoveOk` | lilith/stb_malloc.h:1724-1756 | Unlinking any block of a doubly linked free list leaves exactly the list without it, all links right. |
| `Ring.InsertOk` | lilith/stb_malloc.h:1302-1309 | Linking a node after the sentinel of a circular list gives a circular list with that node first. |
| `Ring.RemoveOk` | lilith/stb_malloc.h:1310-1317 | Unlinking any member of a circular list leaves the circular list of the others. |
| `Blocks.AbsorbTiled` | lilith/stb_malloc.h:1779-1804 | Merging a block with its physical successor leaves every chunk exactly tiled by its blocks. |
| `Blocks.SplitTiled` | lilith/stb_malloc.h:1944-1965 | Splitting a block leaves every chunk exactly tiled, the remainder's start a block of its own. |
| `Blocks.Disjoint` | lilith/stb_malloc.h:1602-1667 | No two blocks of any chunks overlap. |
| `Blocks.SizeBound` | lilith/stb_malloc.h:1557-1560 | A block never exceeds its chunk, so its size fits the field it is packed into. |
| `MediumSteps.TakeOk` | lilith/stb_malloc.h:1724-1756 | The writes of unlink keep the whole medium invariant (tiling, tags, lists, bitmaps) and touch no live block's data. |
| `MediumSteps.PutOk` | lilith/stb_malloc.h:1688-1721 | So do the writes of link, after which the block is on the list of its class with its size in both tags. |
| `MediumMoves.CommitOk` | lilith/stb_malloc.h:1967-1988 | Writing an allocated header and telling the next block keeps the invariant, and the block is then live. |
| `Tlsf.ChunkPaddingSuffices` | lilith/stb_malloc.h:1602-1667 | For every address and every alignment, a region of class size + alignment + 256 bytes has room for both aligned phantom headers and a first block of at least the class size. |
| `Tlsf.ExpectedFacts` | lilith/stb_malloc.h:1845-1856 | The class of a request is a multiple of the heap's alignment, at least the request and its header, and in the table. |
| `Tlsf.WantIsLeast` | lilith/stb_malloc.h:1845-1856 | It is the least class that is a multiple of the alignment and covers the request and its header. |
| `Tlsf.NoResidue` | lilith/stb_malloc.h:1936-1988 | A block that is too small to split is exactly its class size or 16 bytes more, which one extra bit can say. |
| `Tlsf.MediumHeap.Search` | lilith/stb_malloc.h:1865-1886 | The two-level scan finds the first nonempty list from the wanted class on, and fails only when all of them are empty. |
| `Tlsf.MediumHeap.SizeOf` | lilith/stb_malloc.h:2745-2765 | The size decoded from a live block's word is its extent to the next header, less its own header, whatever tags and userdata the word carries. |
| `Tlsf.MediumHeap.Link` | lilith/stb_malloc.h:1688-1721 | Filing a held block adds exactly that block to the free ones, with all tags, lists and bitmaps right again. |
| `Tlsf.MediumHeap.Unlink` | lilith/stb_malloc.h:1724-1756 | Unlinking takes exactly that block from the free ones, keeps every header and all live data, and clears the bits of a list that it empties. |
| `Tlsf.MediumHeap.InitChunk` | lilith/stb_malloc.h:1602-1667 | A region becomes a chunk of one held block between two phantom blocks in use, and no other chunk notices. |
| `Tlsf.MediumHeap.Begin` | lilith/stb_malloc.h:1858-1920 | The first critical section serves the request by good fit or, when no list can, from the cached chunk if that is large enough; otherwise the cached chunk is back, the size to ask the system for is the chunk size, which then doubles up to its bound, or what the request needs if that is more, and the lock is free. |
| `Tlsf.MediumHeap.Complete` | lilith/stb_malloc.h:1922-1996 | Whatever other threads did meanwhile, the second section serves the request from the region in hand, which becomes a listed chunk. |
| `Tlsf.MediumHeap.Alloc` | lilith/stb_malloc.h:1837-1997 | Medium allocation takes its block from the least nonempty class or a new chunk, uses exactly the class size or 16 more, aligns it, adds it to the counters, changes no live data or userdata and leaves other regions alone; it fails only when no list could serve it and the system refused. |
| `Tlsf.MediumHeap.ReleaseChunk` | lilith/stb_malloc.h:1670-1685 | A wholly free chunk leaves the list; its region is cached if the policy is to cache one and none is, and otherwise in the caller's hands to be returned; the lock is released on every path. |
| `Tlsf.MediumHeap.Free` | lilith/stb_malloc.h:1758-1834 | The freed block merges with each free neighbour into one filed block, or its chunk goes if it was all of it and policy and tag allow, its region to the cache or the system; a backward merge into a chunk's first block pins the chunk; counters go down by exactly its size; no live data or userdata changes, and nor does the system's memory otherwise. |
| `Stranded.GoesOrStays` | lilith/stb_malloc.h:1779-1818 | When the last block in use of a chunk is freed, the chunk goes if and only if that block is the first one, carries PREVIOUS_free and the policy lets chunks go; if it stays it is one free block, and pinned unless that block was the first. |
| `Stranded.FreeLast` | lilith/stb_malloc.h:1758-1834 | The same of the concrete heap, in terms of the word before the pointer and of the policy. |
| `Stranded.TwoBlocks` | lilith/stb_malloc.h:1779-1818 | On a fresh heap, two blocks of one chunk are allocated and freed in that order: unless the system has no memory, the chunk is then wholly free, still there, and pinned, for every policy. |
| `Schedules.PinnedForGood` | lilith/stb_malloc.h:1795-1818 | A pinned chunk stays pinned, listed and owned in every continuation, whatever any number of threads allocate and free. |
| `AllocFree.ListedBlockComesBack` | lilith/stb_malloc.h:1758-1997 | Allocating a listed block, with or without a split, and freeing it gives back the same blocks, free set and chunks, except that a block that was a whole chunk may take the chunk with it. |
| `AllocFree.NewChunkGoes` | lilith/stb_malloc.h:1805-1818 | Allocating from a new chunk and freeing again removes the chunk and restores the books when it may be released, and otherwise leaves one free block more. |
| `HeapCheck.BoundaryTags` | lilith/stb_malloc.h:1602-1834 | In every valid heap each block ends where the next header starts, is free or in use but not both, and its own word, the next block's PREVIOUS bit and a free block's trailing size all agree on that; no two free blocks touch. |
| `HeapCheck.ListExact` | lilith/stb_malloc.h:1688-1756 | Each of the 416 lists is acyclic, correctly linked, and holds exactly the free blocks of its class; its bit is set exactly when it is nonempty, and the top bit exactly when some bit of its row is. |
| `HeapCheck.CheckList` | lilith/stb_malloc.h:1999-2036 | On any memory in which the list ends, the checker's walk passes exactly if the bit of the list says whether it is empty and every node on it is tagged as free, follows no free block, is filed in its class and of a size of that class, is linked back to, and is known as free to the block after it. |
| `HeapCheck.CheckAll` | lilith/stb_malloc.h:2038-2047 | The whole check passes exactly if all lists are so and each bit of the top level says whether its row has any. |
| `HeapCheck.PassesCheck` | lilith/stb_malloc.h:1999-2047 | In every valid heap all lists end and are sound, so the check passes. |
| `Slab.PopCell` | lilith/stb_malloc.h:1392-1398 | Taking the first free cell keeps the slab in order: that cell becomes live and the rest of its list stays. |
| `Slab.CarveCell` | lilith/stb_malloc.h:1399-1409 | When the list is empty, taking the top of the untouched tail does, also for the last cell of the tail. |
| `Slab.PushCell` | lilith/stb_malloc.h:1328-1332 | Freeing a live cell makes it the first of the free list, with the count of live cells one lower. |
| `Slab.CellsApart` | lilith/stb_malloc.h:1356-1420 | Two different cells of a slab never overlap. |
| `Slab.FullHasMany` | lilith/stb_malloc.h:1333-1349 | A slab without room has at least two live cells, so the free that empties a slab never finds it marked full. |
| `Small.TailStart` | lilith/stb_malloc.h:1384-1385 | In a slab of 4040 bytes the aligned start of the untouched tail is the last cell of the cell grid. |
| `Small.SmallHeap.TryAlloc` | lilith/stb_malloc.h:1361-1374 | The first section hands out one more cell of a slab with room, or finds every slab full and none cached and changes nothing. |
| `Small.SmallHeap.Adopt` | lilith/stb_malloc.h:1375-1419 | A fresh medium block becomes a slab and serves the request, whatever other threads did while the lock was free. |
| `Small.SmallHeap.TakeCell` | lilith/stb_malloc.h:1389-1417 | The cell handed out is the head of the free list or the highest untouched one; no other cell changes; a slab that runs out of room moves to the full ring. |
| `Small.SmallHeap.FreeCell` | lilith/stb_malloc.h:1321-1354 | Exactly that cell stops being live; an emptied slab is cached or, when one is cached already, handed back as an ordinary medium block. |
| `Large.LargeHeap.Enlist` | lilith/stb_malloc.h:1475-1499 | The section puts the region on the system list and counts it; the user data lies inside it, aligned, with room for both headers; other allocations' words stay. |
| `Large.LargeHeap.WriteHeader` | lilith/stb_malloc.h:1501-1510 | Written after the lock is released, the header touches only words of its own region before the user data, and then says exactly where the region is, whose, and how large. |
| `Large.LargeHeap.Delist` | lilith/stb_malloc.h:1513-1525 | The region found through the header is the allocation's own; it leaves the list and the counters by its exact size, and is in the caller's hands. |
| `HeapView.ExtentsApart` | lilith/stb_malloc.h:1202-1253 | Two different live allocations of any of the three kinds never overlap. |
| `HeapView.ExtentContained` | lilith/stb_malloc.h:1202-1253 | Every live allocation lies inside one region that the system gave and has not got back. |
| `Counters.CountersNatural` | lilith/stb_malloc.h:1137-1165 | The counters, kept equal to the number and the summed sizes of what is live by every operation, never go below zero. |
| `Heap.Tagged` | lilith/stb_malloc.h:1219-1253 | The word before a live pointer whose header has been written tells which allocator it came from, so free dispatches to the right one. |
| `Heap.LiveApart` | lilith/stb_malloc.h:1202-1253 | Live allocations of a valid heap, as sizes are reported to callers, are pairwise disjoint. |
| `Heap.StbmHeap.constructor` | lilith/stb_malloc.h:2900-2960 | A heap set up in a region of the system is valid, with the lock free, nothing live and nothing in any hand. |
| `Heap.StbmHeap.HeapAlloc` | lilith/stb_malloc.h:1202-1210 | An allocation adds exactly one live range of at least the size asked for, 16-aligned, and aligned to the heap's minimum when it is no cell; every word and the userdata of every other live range are as before; it fails exactly when the system refused. Up to 8 bytes it is a cell, below 262144 a block by good fit, from a list whenever one can serve it and then without a call of the system, and from there on a region of its own. |
| `Heap.StbmHeap.HeapFree` | lilith/stb_malloc.h:1219-1253 | Exactly that range stops being live, and every word and the userdata of the others are as before; a cell goes back to its slab, a block is merged with its neighbours, a large region goes back to the system, each with all else as it was. |
| `Heap.ExactSize` | lilith/stb_malloc.h:1202-1210 | The usable size of a new allocation is exactly 8 for a cell, its class's or 16 more, less the header, for a block, and less than one alignment above the request for a region. |
| `Heap.StbmHeap.LargeHeader` | lilith/stb_malloc.h:1501-1510 | Writing a large allocation's header outside the lock keeps the whole heap valid and all live data. |
| `Heap.StbmHeap.Fill` | lilith/stb_malloc.h:1602-1667 | Any word of a region in a thread's hand may be written at any time, outside the lock, without the heap or any live data noticing. |
| `Heap.StbmHeap.GetAllocationSize` | lilith/stb_malloc.h:2745-2795 | The size decoded from the headers is the live size in the abstract map, for all three kinds. |
| `Heap.StbmHeap.GetHeap` | lilith/stb_malloc.h:2797-2815 | The owner found through the headers, or through a cell's slab, is this heap. |
| `Heap.StbmHeap.Teardown` | lilith/stb_malloc.h:2872-2883 | Walking the list in memory returns every region exactly once, the cached one too; only the heap structure is left. |
| `AbstractHeap.ReplayHeld` | lilith/stb_malloc.h:1202-1253 | In every legal history the pointers that callers hold are distinct and are exactly the live allocations. |
| `AbstractHeap.AnswerDoes` | lilith/stb_malloc.h:1202-1253 | What answers do to what callers have: a grant adds one new range of at least the size asked for, a release takes exactly the range named and what it held, a store sets exactly one word of it, and nothing else changes. |
| `Runs.Run` | lilith/stb_malloc.h:1202-1253 | Every sequence of requests, releases and stores is answered call by call as the abstract allocator must answer it, ends with all stored words still in place, and is refused exactly as often as the system refuses; and the log of the heap says of each request and release which allocator served it and how. |
| `Spinning.SpinLock.Try` | lilith/alloc.c:10-14 | The compare-and-swap succeeds exactly when the lock is free, and changes nothing otherwise. |
| `Spinning.SpinLock.Unlock` | lilith/alloc.c:16-19 | Only the holder releases, and the lock is then free. |
| `Threads.Machine.Step` | lilith/stb_malloc.h:1321-1997 | Each step of any thread keeps the machine valid, moves only that thread, and only along the control flow of its operation (nearer to the end unless it waits for the lock), leaves the lock free after a section, answers each operation exactly once, and answers with a refusal exactly when the system refused in that step. |
| `Threads.Machine.Fill` | lilith/stb_malloc.h:1602-1667 | Between its two sections a thread may write its region, word by word, while others run. |
| `Schedules.Run` | lilith/alloc.c:10-19 | For every schedule of any number of threads there is a log of it, from the state before to the state after, in which each turn does what it must to its thread, the lock, the history and the system's refusals, and between any two turns heap, hands, lock and history are in order. |
| `Schedules.History` | lilith/stb_malloc.h:1202-1253 | Over a whole schedule the history grows by exactly what was said to some thread, in order, and its refusals are exactly the system's. |
| `Schedules.AnsweredInOrder` | lilith/stb_malloc.h:1202-1253 | Each thread's calls are answered one by one in the order in which they were made, each by an event of its kind and size; at most the last is still being served. |
| `Threads.MutualExclusion` | lilith/alloc.c:10-19 | At most one thread is in a critical section, it is the lock's holder, the lock word is zero exactly when none is, and what two threads have in hand is disjoint. |
| `Threads.SomeoneInside` | lilith/alloc.c:10-14 | A thread that waits finds the lock free or another thread inside a section, which leaves with its next step. |
| `Threads.CallersSafe` | lilith/stb_malloc.h:1202-1253 | What callers hold overlaps nothing else that is live, blocks in threads' hands included, and contains what was stored there. |
| `Threads.Conservation` | lilith/stb_malloc.h:1427-1453 | Every region of the system is the heap structure, on the list, the cached chunk or in one thread's hand, and in only one of these places. |
| `Threads.Quiescence` | lilith/stb_malloc.h:1670-1685 | When all threads are outside, none has anything in hand, every header is written, and the live allocations are exactly the callers'. |
| `Aligned.LeastExtraIs` | lilith/stb_malloc.h:2386-2388 | The extra bytes cover the wrapper header and are the least such amount congruent to the offset. |
| `Aligned.AlignedFits` | lilith/stb_malloc.h:2370-2409 | For every base with the heap's alignment and every offset below the alignment, the aligned pointer is congruent to the offset, leaves room for the wrapper, and lies within the extra bytes, also when the subtraction wraps. |
| `Aligned.ExtraBounds` | lilith/stb_malloc.h:2386-2400 | Less what makes up for a base that is less aligned, the extra bytes are the least covering amount congruent to the offset; so the enlarged request is never a small one and cannot overflow. |
| `Api.StbmApi.Alloc` | lilith/stb_malloc.h:2566-2590 | The caller gets a new range of at least the size, aligned as configured, from which its userdata is read back, and no other range, wrapped or not, changes in size, data or userdata. A small request is a cell of size 8 unless it carries userdata or small blocks are forced to a minimum alignment above 16, when nine bytes are asked for; every other one is asked for as it is. |
| `Api.StbmApi.AllocAlign` | lilith/stb_malloc.h:2615-2636 | The result is congruent to the offset modulo the alignment asked for, in every case that `Promised` names; the userdata is read back from it in all cases; other ranges keep size, data and userdata. Without an offset, at up to the minimum alignment, and unless a small block is forced to it, the request is served as by `Alloc`, a small one without userdata by a cell; every other one by a larger block that houses it. |
| `Api.StbmApi.Free` | lilith/stb_malloc.h:2678-2698 | Exactly that pointer goes, through its wrapper if it has one, and what is underneath is freed as its kind asks; a null pointer is ignored; every other range keeps size, data and userdata. |
| `Api.StbmApi.GetAllocationSize` | lilith/stb_malloc.h:2745-2795 | The size found for an aligned pointer is what is left of its underlying block from there on, and for the others the live size. |
| `Api.HeldApart` | lilith/stb_malloc.h:2370-2409 | Ranges that callers hold, aligned inside a larger block or not, never overlap. |
| `ApiRuns.Run` | lilith/stb_malloc.h:2566-2698 | Every sequence of API calls and stores is answered call by call as it must be: what is given out is large enough, of exactly the size that its kind has, placed as promised, apart from all that is held; at the end all that is held has its size, the data stored in it and the userdata given with it; refusals are exactly the system's. |
| `ApiRuns.AnswerDoes` | lilith/stb_malloc.h:2566-2698 | The same of the API, where what is given out has the userdata of its request and the rest keeps theirs. |
| `Api.FirstCells` | lilith/stb_malloc.h:1399-1409 | The first two cells of a fresh heap are neighbours, 16 bytes apart. |
| `Api.Misaligned` | lilith/stb_malloc.h:2614-2636 | Every request outside `Promised` can miss its alignment: on a fresh heap two such requests are refused by the system or get 8 usable bytes, and if both get them, one result misses. |
| `LzwTable.StringsFit` | tosz/tosz.go:140-147 | In every reachable table, recycled entries included, a code's string and one byte more fit the 4096-byte stack. |
| `LzwTable.LeafExists` | tosz/tosz.go:99-101 | Some entry other than the one about to be filled is extended by nothing. |
| `LzwTable.AdvanceMoves` | tosz/tosz.go:93-110 | In every reachable table a step takes the next unused entry while there are any, and the width is then that of the one after it: 9 bits below 512, 10 below 1024, 11 below 2048 (8 below 256, in seven-bit bodies), 12 from there on. Afterwards the entry taken is the first, in cyclic order from the last one taken, that nothing extends, and it is unlinked. |
| `LzwTable.SearchFinds` | tosz/tosz.go:99-101 | The cyclic search for such an entry ends, and never further on than any given one. |
| `LzwTable.PickIsFresh` | tosz/tosz.go:93-103 | Once the table is full, the entry chosen for recycling is never the one that is about to be filled. |
| `LzwTable.StrKept` | tosz/tosz.go:99-110 | Recycling an entry changes the string of no entry that stays linked. |
| `Lzw.FieldBits` | tosz/tosz.go:73-80 | Bit i of an extracted field is bit pos + i of the source bytes, low bit first. |
| `Lzw.ReadField` | tosz/tosz.go:73-80 | The bit-by-bit loop computes that field for every position and width up to 32. |
| `Lzw.ArcCtrl.constructor` | tosz/tosz.go:170-192 | Before any code is read, what is still to come out is the expansion of the whole stream. |
| `Lzw.ArcCtrl.ArcEntryGet` | tosz/tosz.go:82-112 | Done on arrays and child lists, a step takes the next unused entry, or the first one after the last taken that nothing extends; the width of the next code is that of the next unused entry, and of the current one what it was before. |
| `Lzw.ArcCtrl.ExpandBuf` | tosz/tosz.go:114-168 | One call puts a prefix of what is to come into the buffer, stops only when the buffer is full or nothing is left, and resumes where it stopped. |
| `Lzw.ExpandInPieces` | UserSpaceTemple/Downloads/Linux/TOSZ.CPP:222-276 | However the destination is cut into buffers, together they receive the same bytes: the expansion up to the total size. |
| `LzwCodes.GrowsOn` | tosz/tosz.go:93-98 | After n codes the width is that of entry 257 + n (129 + n for seven-bit bodies), and the entries taken are the unused ones in order. |
| `LzwCodes.Textbook` | tosz/tosz.go:114-168 | Of every valid body, the expansion is what its codes stand for, read in order to the end at the width that each one's number asks for: a literal for itself, any other code for the string of the code before the one at which its entry was last filled and the first byte of that one's; entries are filled in order until none is unused. |
| `Rle4.LineRead` | UserSpaceTemple/Downloads/Linux/TOSZ.CPP:762-819 | A BI_RLE4 decoder in encoded mode reads count-and-pattern pairs and their end marker back as one line of the colours. |
| `Rle4.EncodePair` | UserSpaceTemple/Downloads/Linux/TOSZ.CPP:788-812 | Each pair has a count in 1..255, stands for exactly the next pixels of the row, even where a byte past the row's end was read, and is as long as the row alternates between its two colours. |
| `Rle4.EncodeRow` | UserSpaceTemple/Downloads/Linux/TOSZ.CPP:785-814 | A row takes at most 2(width + 1) bytes, ends with its marker, stands for exactly the row's colours, and each of its pairs is as long as it can be. |
| `Rle4.Encode` | UserSpaceTemple/Downloads/Linux/TOSZ.CPP:762-819 | Decoding the encoded image gives as many lines as the image has rows, and in line y, at x, the low nibble of pixel x of row height - 1 - y, for every image; the pairs are as long as they can be; the buffer of 2(width + 1) bytes a row is enough; the byte read past the last row has no influence. |
| `Wildmatch.Matches` | lilith/syscalls.c:324-361 | The matcher terminates on every string and mask and accepts exactly what `Accepts` says; on masks whose stars are each followed by a plain character or the end this is what the mask means, or that the string ends early, before a star, when the mask ends in a star, and otherwise the same with the shortest match in place of any; a nonempty string is accepted by `*lit*` exactly when it has lit in it. |
| `Wildmatch.Agreement` | lilith/syscalls.c:324-361 | On those masks, what the code accepts differs from the recursive meaning of the mask in these two ways only. |
| `Wildmatch.WronglyAccepted` | lilith/syscalls.c:342-352 | The empty string is accepted by `*x*`, which it does not match, and "a" by "a*b". |
| `Wildmatch.WronglyRejected` | lilith/syscalls.c:331-352 | "aba" is rejected by "*a", and "a" by "*?" and by "**". |
| `DirTree.ParseBytes` | UserSpaceTemple/Adam/ABlkDev/ADskB.HC:41-55 | Parsing the serialized form of any tree, whatever surrounds it, consumes exactly that form and yields the tree's records, with the children of directories only. |
| `DirTree.BytesDetermineTree` | UserSpaceTemple/Adam/ABlkDev/ADskB.HC:13-55 | No serialized form is a proper prefix of another, and equal forms come from trees that agree on all that is kept. |
| `DirTree.Layout` | UserSpaceTemple/Adam/ABlkDev/ADskB.HC:13-31 | A serialized list ends with a 0; an entry is a 1, its 64 bytes, the list of its children exactly if bit 4 of the first byte is set, and the rest of its list. |
| `DirTree.DirBit` | UserSpaceTemple/Adam/ABlkDev/ADskB.HC:6 | Whether an entry keeps its children is bit 4 of its first byte. |
| `DirTree.SerializeSize` | UserSpaceTemple/Adam/ABlkDev/ADskB.HC:2-12 | The size pass predicts the exact length of the serialized form. |
| `DirTree.SerializeFill` | UserSpaceTemple/Adam/ABlkDev/ADskB.HC:13-31 | The fill pass writes exactly that form, returns its length, and touches no other byte of the buffer. |
| `DirTree.Unserialize` | UserSpaceTemple/Adam/ABlkDev/ADskB.HC:41-55 | The tree built from fresh entries is the one that the bytes parse to, and the position afterwards is the end of its form. |
| `DirTree.RoundTrip` | UserSpaceTemple/Adam/ABlkDev/ADskB.HC:32-61 | Serializing a tree and reading it back, with any bytes after it, gives a new tree with every record, sibling and, where bit 4 of the record's first byte is set, child of the original; if only such entries have children, it is the original but for userdata, which is 0. |

## Findings

- Explicit alignment above 16 is not guaranteed for small requests (lilith/stb_malloc.h:2614-2636). A request of at most
  8 bytes without userdata and offset, for an alignment not above the heap's minimum, on a heap that does not force
  small blocks to it, is served a 16-aligned cell. `Api.StbmApi.AllocAlign` promises the alignment in all other cases
  (`Promised`), and `Api.Misaligned` shows for each of these that a fresh heap misses it. lilith's heaps have minimum
  alignment 16 (lilith/alloc.c:53-67), so none of its requests is of this kind.
- A chunk can stay although it is wholly free (lilith/stb_malloc.h:1779-1818). When the last free merges backwards, the
  test for a wholly free chunk is not made: `Stranded.TwoBlocks` shows it with two blocks, freed in the order in which
  they were allocated. The block that the merge leaves, the chunk's first, then carries the tag PREVIOUS_alloc, for
  which the test fails from then on, so that the chunk stays until the heap is torn down, however often it is wholly
  free again (`Schedules.PinnedForGood`). Exactly when the last free lets the chunk go is `Stranded.FreeLast`.
- `wildmatch` is wrong in both directions (lilith/syscalls.c:324-361). It accepts a string that ends where it gets to a
  star of the mask, the empty string among them (`Wildmatch.WronglyAccepted`). It rejects "aba" for "*a", as it gives up
  at the mask's end in place of trying the last star further on, and "a" for "*?" and "**", as the character behind a
  star is looked for as it stands (`Wildmatch.WronglyRejected`). What it accepts is exactly `Accepts`, for every mask;
  where each star is followed by a plain character or the end, that is the meaning of the mask but for the first two of
  these (`Wildmatch.Agreement`), and for each single mask in the lists of that file (lilith/syscalls.c:363-368), with
  nonempty strings, it is right.

## Left out

- The thread cache (`stbm__tc_*`): lilith passes none, and the API calls go to the heap directly, as without one.
- Frees across heaps: not implemented in the source.
- Debug and guard-byte blocks, file and line capture, iteration over allocations, and the self-tests.
- `stbm_realloc` and the other calls composed of allocation, copy and free.
- `mmap`, page protection and lilith's registration of memory: the system provides exactly what was asked, anywhere
  that is clear, or 0. lilith's own system allocators pass on what `mmap` returns, whose failure value is not 0; and
  its `system_free` does nothing, where the model's takes the region back.
- Requests within 2^20 bytes of 2^64 (2^34 through the API), where the source's size arithmetic wraps around or may.
- Memory is read and written in whole words at word addresses; a caller's data below a word's granularity is not told
  apart, nor are the heap structure's own fields other than list sentinels placed in memory.
- Minimum alignments above 2^19, of which no entry of the class table is a multiple; explicit ones are 32-bit powers
  of two, as the field that holds them is 32 bits wide.
- The API layer is sequential: it rewrites a header outside the lock (lilith/stb_malloc.h:2361-2363), so only the layer
  below it is interleaved.
- A critical section is one step of a thread. What the source reads just before a section, of a header that is the
  thread's own (lilith/stb_malloc.h:1244, 1764, 1516), is read in it: other threads change only the PREVIOUS tag of that
  word, and none of the fields read. The words of `stbm__medium_init_chunk`, written before the second section in the
  source, may be written there one by one (`Threads.Machine.Fill`), and are written again inside it. Memory is
  sequentially consistent.
- Fairness: a waiting thread is shown not to be stuck, but not to get the lock eventually.
- LZW streams that are not valid: no compressor is part of the repository, so results are about streams on which the
  expander reads only codes that its table defines; and bit positions are unbounded, where the source's are 32 bits.
- Bitmap file headers and palettes around the RLE4 data.
- Of a directory entry, the fields that the serializer does not write (parent links, full names) and the children of
  entries that are no directories.
- The file-system, loader, hash-table, terminal, graphics and assembly parts of the repository.
