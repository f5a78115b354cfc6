# Closures and calls of node-ffi-napi and its libffi, modelled and verified

This project models the parts of the repository in which many pieces of state have to agree, and proves that they do.

- **The closure heap** (`words` to `statecheck`): dlmalloc in the configuration of `closures.c`, with 64-bit words, no sbrk, no
  footers and no direct mapping. Memory is a map from addresses to words; the class `Heap.Heap` has the fields of
  `malloc_state` and performs the stores of the program one by one, with wrap-around where the program has it. Its ghost field
  `s` says what the words stand for: bins, tries, chunks, segments, designated victim and top. `HeapState.HeapOk` is the
  invariant that the `do_check_*` functions describe, and `StateCheck.CheckMallocState` runs all of these on it.
  `HeapMoves.Gave`, `Took` and `Unnoticed` say what an operation means for the clients; they include that all other blocks
  keep their contents and their executable view.
- **Closures** (`closures`): allocation, address translation and release on top of the heap, and any script of them.
- **The hand-off of callbacks** (`handoff`): foreign threads that queue invocations, and the main loop that serves them, as a
  transition system whose steps are single locks, unlocks, waits, signals and queue operations, for any number of threads and
  any schedule; and the main loop's side as a class.
- **Struct layout** (`ffitypes`, `layout`, `typegraphs`, `prepcif`, `jstypes`): `initialize_aggregate` on types that share
  parts, in every state that earlier calls can leave behind, against a description of C layout that does not say how it is
  found; and the flattening of arrays on the JavaScript side.
- **Argument passing**: RISC-V (`riscv`, `riscvslots`, `riscvcalls`, `riscvbuilder`), ARM with floating-point registers
  (`armvfp`, `armregs`, `armargs`, `armcalls`, `armsizing`, `armpass`) and PowerPC SYSV (`ppc`, `ppccalls`, `ppcpass`, `ppcloops`).
  Each time, the passes that have to agree are modelled with their own counters, and the caller's and the closure's loops are
  methods proved against them; `CallClosure` puts them together.

## What the proofs turned up

- The check in `powerpc/ffi_sysv.c:575` is strict and does not hold for every call; `PpcCalls.CopyCheck` says exactly when it
  does, and `PpcCalls.CopyCheckFails` gives a call. The checks at 447 and 609 hold always (`PpcCalls.Room`,
  `PpcLoops.FinalChecks`).
- `lib/type.js` gives a struct with an array of arrays the layout of pointers, and one with a pointer to an array the layout of
  the array (`JsTypes.NestedArrayDiffers`, `JsTypes.PointerToArrayDiffers`); `JsTypes.MatchesIff` says exactly which fields come
  out right. That a pointer inherits `fixedLength` and `type` from its target is how `refType` of ref-napi makes pointer types,
  which is not part of this model; `lib/type.js:119-123` and `test/types.js:18` rely on such prototypes.
- On RISC-V a struct of a single float asks for a ninth float register when eight are in use (`RiscVCalls.FloatsFitIff`), and
  then gets the first integer register (`RiscVCalls.NinthFloat`). Calls with these types go wrong exactly if something else
  has that register as well: `RiscVCalls.DeliversIff` says so for whole calls, `RiscVCalls.ArrivesIff` for each argument, and
  `RiscVCalls.NinthFloatSpoils` runs such a call. Everything else arrives all the same (`RiscVBuilder.CallClosure`).
- `WaitForExecution` does not test for spurious wake-ups. `HandOff.SpuriousWakeBreaks` shows that one is harmless exactly if
  the main loop gets the mutex of the invocation before the thread that has been woken, and `HandOff.WaitReached` and
  `HandOff.BothHappen` that it need not. All
  other results on the hand-off assume that there are no such wake-ups.
- A type that `initialize_aggregate` has refused can keep a size, and a later `ffi_prep_cif` then accepts it. Some later check
  does exactly if the chain of first fields ends in a scalar (`PrepCif.CheckRepeatedly`). Of fresh types the very next one does
  exactly if `TypeGraphs.AcceptedNext`, whatever parts they share (`PrepCif.CheckTwice`), which without shared parts comes to
  `TypeGraphs.NextPasses`; in any state, `PrepCif.CheckType` tells its next answer by `NextTime`. `PrepCif.RefusedThenAccepted`
  and `PrepCif.SharedThenAccepted` are examples.

`dafny verify dfyconfig.toml` checks the whole project.

## Model

| member | source | states |
|---|---|---|
| `BinIndex.Log2TrickIsFloorLog2` | deps/libffi/src/dlmalloc.c:2322-2327 | the branch-free shifts and masks compute the floor of the binary logarithm, for every value from 1 to 0xFFFF |
| `BinIndex.TreeIndexRange` | deps/libffi/src/dlmalloc.c:2314-2345 | every size of at least 256 is at least the minimum size of its index, and below that of the next index unless the index is the last |
| `BinIndex.IndexOrdersSizes` | deps/libffi/src/dlmalloc.c:2314-2345 | sizes with different indices are ordered as their indices are |
| `BinIndex.BinRange` | deps/libffi/src/dlmalloc.c:2333-2345 | an index fixes all bits of a size above the one that bit_for_tree_index names: the range of its sizes is a power of two wide |
| `BinIndex.KeyAtRoot` | deps/libffi/src/dlmalloc.c:2337-2340 | shifting by leftshift_for_tree_index brings exactly the first bit that the index does not fix to the sign position |
| `BinIndex.KeyStep` | deps/libffi/src/dlmalloc.c:3055-3059 | one more left shift: the sign bit tells the half of the current range, and the rest is the key for that half |
| `BitMaps.LeastBitIsFirst` | deps/libffi/src/dlmalloc.c:2373-2392 | x & -x keeps exactly the lowest set bit, whose number ffs(x) - 1 gives |
| `BitMaps.LeftBitsOfIndex` | deps/libffi/src/dlmalloc.c:2394-2395 | (b << 1) | -(b << 1) for a single bit b is the mask of all higher bits |
| `BitMaps.NegIsTwosComplement` | deps/libffi/src/dlmalloc.c:2391-2398 | the bitwise negation used in those masks is subtraction from zero on 32-bit words |
| `Rings.InsertAfterHead` | deps/libffi/src/dlmalloc.c:2981-2984 | four pointer stores turn a doubly linked ring into the ring with the chunk inserted behind its head, read forwards and backwards |
| `Rings.Unlink` | deps/libffi/src/dlmalloc.c:2999-3000 | two pointer stores turn a ring into the ring without the chunk at any position but the head |
| `Tries.ElemsInRange` | deps/libffi/src/dlmalloc.c:2703-2752 | every chunk in a subtree has a size in the range that the path from the root fixes |
| `Tries.MinOfIsLeast` | deps/libffi/src/dlmalloc.c:2684-2687 | the leftmost path of a tree passes a smallest chunk of it |
| `Tries.InsertOk` | deps/libffi/src/dlmalloc.c:3040-3089 | inserting keeps the trie well formed, and the set of its chunks grows by exactly the new one |
| `Tries.RemoveOk` | deps/libffi/src/dlmalloc.c:3108-3177 | removing keeps the trie well formed, and the set of its chunks shrinks by exactly the removed one; also when a leaf from below takes its place |
| `Tries.DropLeafOk` | deps/libffi/src/dlmalloc.c:3122-3136 | taking out the last leaf takes out one whole size class, which fits at the place of any node above it |
| `Tries.DepthBound` | deps/libffi/src/dlmalloc.c:3054-3087 | no way down a tree is longer than the number of size bits that its range leaves open, plus one; so the descents are bounded |
| `TrieMem.InsertLeafRep` | deps/libffi/src/dlmalloc.c:3058-3067 | storing a new leaf in the empty slot where the descent ends makes memory hold the trie with the chunk inserted |
| `TrieMem.ChainRep` | deps/libffi/src/dlmalloc.c:3073-3081 | linking a chunk behind the tree chunk of its size makes memory hold the trie with the chunk inserted |
| `TrieMem.PutAtRep` | deps/libffi/src/dlmalloc.c:3138-3151 | rewriting the one slot that leads to a node makes memory hold the tree with another tree in its place |
| `TrieMem.UnchainRep` | deps/libffi/src/dlmalloc.c:3111-3121 | bridging over a chained chunk makes memory hold the trie without it |
| `TrieMem.UnheadRep` | deps/libffi/src/dlmalloc.c:3111-3177 | bridging over the tree chunk of a ring and adopting its place makes memory hold the trie without it |
| `TrieMem.DropLeafIsPutAt` | deps/libffi/src/dlmalloc.c:3124-3133 | storing null in the slot of the last leaf is dropping that leaf |
| `TrieMem.TreeFrame` | deps/libffi/src/dlmalloc.c:2703-2752 | stores outside the link words of its chunks leave a tree as it is |
| `Bins.InsertSmallOk` | deps/libffi/src/dlmalloc.c:2969-2985 | all bins and both bitmaps stay right, and hold exactly one chunk more |
| `Bins.RemoveSmallOk` | deps/libffi/src/dlmalloc.c:2988-3022 | all bins and both bitmaps stay right, and hold exactly one chunk less |
| `Bins.SmallNeighbours` | deps/libffi/src/dlmalloc.c:2995-2996 | forward and backward link of a small chunk are equal exactly when it is alone in its bin |
| `TreeOps.InsertLeafOwn` | deps/libffi/src/dlmalloc.c:3047-3067 | the stores for the first chunk of a size give the bin with the chunk inserted |
| `TreeOps.InsertChainOwn` | deps/libffi/src/dlmalloc.c:3073-3081 | the stores for a further chunk of a size give the bin with the chunk inserted |
| `TreeRemove.RemoveChained` | deps/libffi/src/dlmalloc.c:3111-3121 | a chained chunk: the bin without it |
| `TreeRemove.RemoveHead` | deps/libffi/src/dlmalloc.c:3111-3177 | the tree chunk of several of its size, replaced by its neighbour: the bin without it |
| `TreeRemove.RemoveLeaf` | deps/libffi/src/dlmalloc.c:3122-3151 | a leaf alone of its size: the bin without it |
| `TreeRemove.RemoveInner` | deps/libffi/src/dlmalloc.c:3122-3177 | an inner node alone of its size, replaced by a leaf from below: the bin without it |
| `TreeSearch.FindInsertPoint` | deps/libffi/src/dlmalloc.c:3054-3087 | the loop ends at the node of the size, or else at the empty slot where the size belongs and the node above it |
| `TreeSearch.FindLastLeaf` | deps/libffi/src/dlmalloc.c:3123-3130 | the loop ends at the last leaf below the chunk, with the slot it hangs from |
| `TreeSearch.SearchBin` | deps/libffi/src/dlmalloc.c:3733-3755 | when the walk ends, a best fit of the bin is the best one met or lies in the deepest right subtree not taken |
| `TreeSearch.FindSmallest` | deps/libffi/src/dlmalloc.c:3767-3774 | going down the leftmost children finds a smallest chunk of the subtree, or keeps a tighter one |
| `BestFit.BestFitLarge` | deps/libffi/src/dlmalloc.c:3726-3774 | the result is a smallest chunk of all tree bins that holds the request; none is returned exactly if none exists |
| `BestFit.LeastLarge` | deps/libffi/src/dlmalloc.c:3799-3815 | the result is a smallest chunk of all tree bins |
| `BestFit.FoundIsBest` | deps/libffi/src/dlmalloc.c:3757-3774 | a fit from the bin of the request, or a smallest chunk of the next occupied bin, is best over all bins |
| `Tiles.CarveTiling` | deps/libffi/src/dlmalloc.c:2856-2881 | redrawing an interval of chunks as one or two chunks keeps segments tiled without gap or overlap |
| `Tiles.CarveCoalesced` | deps/libffi/src/dlmalloc.c:2843 | redrawing keeps free chunks apart |
| `Tiles.CarveTags` | deps/libffi/src/dlmalloc.c:2655-2687 | writing head and foot of the redrawn interval and the bit of its successor makes all boundary tags right again |
| `HeapState.AddressOk` | deps/libffi/src/dlmalloc.c:2431 | the runtime address check passes for every chunk of a well-formed heap |
| `HeapSteps.CarveStep` | deps/libffi/src/dlmalloc.c:2856-2881 | redrawing an interval with its tags keeps the whole-heap invariant |
| `HeapSteps.BinMove` | deps/libffi/src/dlmalloc.c:2856-2881 | moving a chunk into or out of its bin keeps the whole-heap invariant |
| `HeapKept.DataOutside` | deps/libffi/src/dlmalloc.c:2655-2687 | no word of a block in use lies inside a free chunk |
| `HeapKept.CarveKept` | deps/libffi/src/dlmalloc.c:4152-4358 | redrawing keeps contents, addresses and executable views of all blocks outside the interval |
| `HeapTags.WholeTags` | deps/libffi/src/dlmalloc.c:2477-2480 | set_inuse_and_pinuse on a free chunk writes exactly the tags of a chunk in use |
| `HeapTags.SplitTags` | deps/libffi/src/dlmalloc.c:2482-2483 | the stores that split a chunk write exactly the tags of a chunk in use and a free rest |
| `HeapTags.SpanTags` | deps/libffi/src/dlmalloc.c:1751-1757 | the tags of a chunk and its free neighbours, written as those of one free chunk, are right |
| `HeapMoves.WholeGiven` | deps/libffi/src/dlmalloc.c:4169-4173 | handing out a whole free chunk gives the client exactly that block and changes nothing for the others |
| `HeapMoves.FrontGiven` | deps/libffi/src/dlmalloc.c:4221-4226 | handing out the front of a free chunk gives the client exactly that block, and the rest is one free chunk |
| `HeapMoves.TopGiven` | deps/libffi/src/dlmalloc.c:4238-4243 | handing out the front of top gives the client exactly that block, and the rest is top |
| `HeapMoves.SpanFreed` | deps/libffi/src/dlmalloc.c:4281-4346 | a block and its free neighbours become one free chunk, and nothing changes for the other clients |
| `HeapMoves.SpanJoinsTop` | deps/libffi/src/dlmalloc.c:4313-4316 | a block and a free chunk before it become part of top, and nothing changes for the other clients |
| `HeapFit.PadRequest` | deps/libffi/src/dlmalloc.c:1702-1704 | the result is a multiple of eight, at least the request and its overhead, and less than eight bytes more |
| `HeapFit.SmallRequest` | deps/libffi/src/dlmalloc.c:1706-1708 | the same, and at least the smallest chunk size |
| `HeapFit.SmallLeast` | deps/libffi/src/dlmalloc.c:4162-4186 | the first chunk of the first occupied small bin from that of the request on is a least fit over all bins |
| `HeapFit.NextSmallBin` | deps/libffi/src/dlmalloc.c:4176-4182 | the bit tricks find the next occupied small bin |
| `HeapFit.LargeIsLeast` | deps/libffi/src/dlmalloc.c:4202-4205 | when no small chunk fits, a smallest large chunk is a least fit over all bins |
| `HeapFit.VictimLoses` | deps/libffi/src/dlmalloc.c:3776-3777 | the unsigned comparison takes the bin chunk exactly if the designated victim is too small or a strictly looser fit |
| `HeapSpace.FootprintChange` | deps/libffi/src/dlmalloc.c:3550-3551 | changing the size of one segment changes the sum over the list by as much |
| `HeapSpace.FootprintBound` | deps/libffi/src/dlmalloc.c:3550 | the sum of the segment sizes and one more region stays below 2^64, so the footprint does not wrap around |
| `SegTop.ResizeDone` | deps/libffi/src/dlmalloc.c:3570-3580 | a longer or shorter top segment keeps the whole-heap invariant, and the clients notice nothing |
| `SegPrepend.PrependDone` | deps/libffi/src/dlmalloc.c:3584-3594 | memory before a segment, joined to it, keeps the whole-heap invariant, and the clients notice nothing |
| `SegAdd.RecordFits` | deps/libffi/src/dlmalloc.c:3371-3409 | record and at least two fenceposts fit the end of the old segment behind the last live chunk |
| `SegAdd.AddDone` | deps/libffi/src/dlmalloc.c:3371-3421 | a new segment, with the record of the old one in its end, keeps the whole-heap invariant, and the clients notice nothing |
| `SegAdd.StartDone` | deps/libffi/src/dlmalloc.c:3553-3566 | the first region makes a well-formed heap |
| `SegDrop.OnlyRecord` | deps/libffi/src/dlmalloc.c:3629-3634 | a segment that passes the size test holds nothing but one free chunk and its own record |
| `SegDrop.DropDone` | deps/libffi/src/dlmalloc.c:3642-3648 | unlinking such a segment keeps the whole-heap invariant, and the clients notice nothing |
| `HeapGrow.RoomOrWrap` | deps/libffi/src/dlmalloc.c:3517-3519 | what passes the wrap-around test leaves room for the request and the overhead of a segment; the size that stands for requests of MAX_REQUEST or more does not pass |
| `HeapGrow.NeverDirect` | deps/libffi/src/dlmalloc.c:3433-3438 | only a request that is bound to fail reaches the threshold for direct mapping |
| `HeapGrow.RecordPlaceComputed` | deps/libffi/src/dlmalloc.c:3372-3385 | the arithmetic for the place of the record yields old top itself or a chunk that leaves a free chunk before it, aligned and inside the segment |
| `HeapGrow.LinkDone` | deps/libffi/src/dlmalloc.c:3387-3409 | what add_segment achieves before the rest of the old top is binned |
| `HeapTrim.SurplusIs` | deps/libffi/src/dlmalloc.c:3666-3669 | the released size is whole pages and leaves top larger than pad, by at most a page |
| `HeapTrim.FirstHasNoRecord` | deps/libffi/src/dlmalloc.c:3676 | no segment record lies in the segment of top |
| `HeapTrim.IdleChunk` | deps/libffi/src/dlmalloc.c:3632-3641 | the one free chunk of an idle segment is large, and in a tree bin or the designated victim |
| `HeapFree.BeforeSeen` | deps/libffi/src/dlmalloc.c:4283-4295 | a clear pinuse bit means that a free chunk ends right there, and the foot leads to its start |
| `HeapFree.BlockSeen` | deps/libffi/src/dlmalloc.c:4279-4282 | the words that freeing a block looks at can be read, and its head is that of a block in use with its size |
| `HeapClient.EmptyHeap` | deps/libffi/src/dlmalloc.c:2856-2881 | zeroed static state is a well-formed empty heap |
| `HeapClient.ClientWord` | deps/libffi/src/dlmalloc.c:2655-2687 | a word of the contents of a block is no head, foot, link or record word that the allocator relies on |
| `HeapBins.InsertLeafDone` | deps/libffi/src/dlmalloc.c:3047-3067 | the whole-heap invariant after a leaf has been hung in |
| `HeapBins.InsertChainDone` | deps/libffi/src/dlmalloc.c:3073-3081 | the whole-heap invariant after a chunk has been chained |
| `HeapUnlink.InnerDone` | deps/libffi/src/dlmalloc.c:3122-3177 | the whole-heap invariant after a leaf has taken the place of an inner node |
| `HeapUnlink.SlotFound` | deps/libffi/src/dlmalloc.c:3139-3148 | looking at the root and then at the children of the parent finds the slot that leads to the chunk |
| `Heap.Heap.constructor` | deps/libffi/src/dlmalloc.c:2856-2881 | program start: a valid heap without memory from the system |
| `Heap.Heap.Store` | deps/libffi/src/dlmalloc.c:2689-2700 | a client may store any value in an aligned word of a block it holds; the heap stays valid and other blocks keep their contents |
| `Heap.Heap.InsertSmallChunk` | deps/libffi/src/dlmalloc.c:2969-2985 | the new state is that of the chunk in its bin; blocks in use are untouched |
| `Heap.Heap.UnlinkSmallChunk` | deps/libffi/src/dlmalloc.c:2988-3005 | the new state is that of the chunk outside any bin |
| `Heap.Heap.UnlinkFirstSmallChunk` | deps/libffi/src/dlmalloc.c:3008-3022 | the first chunk of an occupied bin, taken out |
| `Heap.Heap.InsertLargeChunk` | deps/libffi/src/dlmalloc.c:3040-3089 | the new state is that of the chunk in its tree bin |
| `Heap.Heap.UnlinkLargeChunk` | deps/libffi/src/dlmalloc.c:3108-3177 | the new state is that of the chunk outside any bin, in all cases |
| `Heap.Heap.ReplaceDv` | deps/libffi/src/dlmalloc.c:3026-3035 | the old victim is binned and the new one takes its place |
| `Heap.Heap.TmallocSmall` | deps/libffi/src/dlmalloc.c:3799-3834 | a block of the size asked for out of a smallest large chunk |
| `Heap.Heap.TmallocLarge` | deps/libffi/src/dlmalloc.c:3726-3796 | a block out of a best fitting bin chunk; 0, with nothing changed, exactly when no bin chunk is a tighter fit than the victim |
| `Heap.Heap.MallocSmall` | deps/libffi/src/dlmalloc.c:4155-4207 | a small request is served from a bin exactly when a bin chunk takes precedence over the victim |
| `Heap.Heap.SplitVictim` | deps/libffi/src/dlmalloc.c:4219-4226 | a block from the front of the victim, the rest of which stays the victim |
| `Heap.Heap.ExhaustVictim` | deps/libffi/src/dlmalloc.c:4227-4232 | the whole victim as a block, and no victim left |
| `Heap.Heap.FromTop` | deps/libffi/src/dlmalloc.c:4238-4246 | a block from the front of top |
| `Heap.Heap.FromVictimOrTop` | deps/libffi/src/dlmalloc.c:4218-4258 | without a bin chunk the block comes from the victim, else from top, else from the system; an oversized request gets 0 |
| `Heap.Heap.Malloc` | deps/libffi/src/dlmalloc.c:4128-4258 | the heap stays valid; a result is 8-aligned, a new block of at least the padded request and less than a minimum chunk more, with every other block untouched; it comes from a least fit, the victim or top in that order of precedence, and only then from the system; 0 leaves every field as it was, and is the answer to requests of MAX_REQUEST or more |
| `Heap.Heap.Free` | deps/libffi/src/dlmalloc.c:4260-4358 | the heap stays valid, the block and nothing else is taken back, every other block keeps address, size, contents and executable view |
| `Heap.Heap.FreeBeforeTop` | deps/libffi/src/dlmalloc.c:4313-4324 | the freed memory becomes part of top, which may be trimmed |
| `Heap.Heap.FreeBeforeVictim` | deps/libffi/src/dlmalloc.c:4325-4330 | the freed memory becomes part of the victim |
| `Heap.Heap.FreeBeforeBinned` | deps/libffi/src/dlmalloc.c:4331-4346 | the freed memory and the binned chunk behind it become one free chunk |
| `Heap.Heap.FreeBeforeUsed` | deps/libffi/src/dlmalloc.c:4300-4346 | the freed memory becomes the victim or a binned chunk |
| `Heap.Heap.SysAlloc` | deps/libffi/src/dlmalloc.c:3426-3615 | in all three merge cases, and for the first region, the request is met with the invariant and the footprint sum kept, or nothing has changed |
| `Heap.Heap.Append` | deps/libffi/src/dlmalloc.c:3570-3580 | top and its segment grow by the region |
| `Heap.Heap.Prepend` | deps/libffi/src/dlmalloc.c:3584-3594 | the region joins a segment at its front, the block lies at its start |
| `Heap.Heap.PrependAlloc` | deps/libffi/src/dlmalloc.c:3328-3367 | the rest of the region joins top, the victim or a free chunk, or is binned |
| `Heap.Heap.AddSegment` | deps/libffi/src/dlmalloc.c:3371-3421 | a new first segment, the rest of the old top in a bin |
| `Heap.Heap.Fenceposts` | deps/libffi/src/dlmalloc.c:3399-3409 | the loop ends with at least two fenceposts and all of the segment end written |
| `Heap.Heap.InitBins` | deps/libffi/src/dlmalloc.c:3299-3306 | every small bin is an empty ring |
| `Heap.Heap.SegmentHolding` | deps/libffi/src/dlmalloc.c:2160-2168 | the first segment of the list that holds the address, or 0 if none does |
| `Heap.Heap.HasSegmentLink` | deps/libffi/src/dlmalloc.c:2171-2179 | every segment but the first of the list holds a segment record, its own |
| `Heap.Heap.ReleaseUnusedSegments` | deps/libffi/src/dlmalloc.c:3620-3658 | what is unmapped holds no block; the footprint falls by what is released; a failed unmapping leaves the chunk binned |
| `Heap.Heap.ShrinkTop` | deps/libffi/src/dlmalloc.c:3665-3709 | whole pages are released, by which footprint and top shrink, and top stays larger than pad |
| `Heap.Heap.SysTrim` | deps/libffi/src/dlmalloc.c:3660-3721 | the answer tells whether the footprint has fallen; top stays larger than pad and the overhead if it was; clients notice nothing |
| `HeapCheck.WalkTest` | deps/libffi/src/dlmalloc.c:2834-2835 | the three tests that end the walk of a segment hold at its end and nowhere before |
| `BinCheck.FindNode` | deps/libffi/src/dlmalloc.c:2803-2810 | the descent ends at the node of the size, or shows that no chunk of the tree has it |
| `BinCheck.BinFind` | deps/libffi/src/dlmalloc.c:2789-2822 | a chunk of any size is found exactly if it is in a bin |
| `HeapCheck.CheckInuseChunk` | deps/libffi/src/dlmalloc.c:2655-2663 | every assertion about a chunk in use holds, and none is mapped directly |
| `HeapCheck.CheckFreeChunk` | deps/libffi/src/dlmalloc.c:2666-2686 | every assertion about a free chunk holds, those about its links included |
| `HeapCheck.TraverseSegment` | deps/libffi/src/dlmalloc.c:2831-2848 | every assertion about every chunk of the segment holds, and the sum is that of their sizes |
| `HeapCheck.TraverseAndCheck` | deps/libffi/src/dlmalloc.c:2825-2853 | every assertion of the walk over all segments holds, and the total is at most the footprint, which is at most its maximum |
| `StateCheck.CheckSmallBin` | deps/libffi/src/dlmalloc.c:2765-2786 | every assertion about a small bin and the chunks in it and behind them holds |
| `StateCheck.CheckTree` | deps/libffi/src/dlmalloc.c:2703-2751 | every assertion about a tree holds, for every ring and every node at any depth |
| `StateCheck.CheckTreeBin` | deps/libffi/src/dlmalloc.c:2754-2762 | the root and the bit of treemap agree, and the tree passes |
| `StateCheck.CheckTopChunk` | deps/libffi/src/dlmalloc.c:2627-2638 | every assertion about top holds |
| `StateCheck.CheckVictim` | deps/libffi/src/dlmalloc.c:2865-2870 | every assertion about the designated victim holds |
| `StateCheck.CheckMallocedChunk` | deps/libffi/src/dlmalloc.c:2689-2700 | the block is as big as asked for and less than a minimal chunk bigger |
| `StateCheck.CheckMallocState` | deps/libffi/src/dlmalloc.c:2856-2882 | every assertion about the whole state holds in every valid heap |
| `StateCheck.CheckedMalloc` | deps/libffi/src/dlmalloc.c:4143-4260 | so dlmalloc with its checks switched on passes them all, for every request in every valid heap |
| `Closures.FfiClosureAlloc` | deps/libffi/src/closures.c:916-934 | a new block and the address at which its memory is mapped for execution; nothing without a place for the code pointer |
| `Closures.FfiDataToCodePointer` | deps/libffi/src/closures.c:936-948 | for an address in a segment its executable view, for any other address itself |
| `Closures.FfiClosureFree` | deps/libffi/src/closures.c:954-965 | the block is taken back, all other blocks are untouched |
| `Closures.OwnSegment` | deps/libffi/src/closures.c:928-930 | the segment found for a block is the one it lies in |
| `Closures.CodeStays` | deps/libffi/src/closures.c:936-948 | whatever happens to the heap, the code address of a block stays the same as long as the block is held |
| `Closures.Disjoint` | deps/libffi/src/dlmalloc.c:2689-2700 | closures in use share no byte |
| `Closures.Run` | deps/libffi/src/closures.c:916-965 | after any script of allocations, stores and releases, what the client holds is what script and answers alone imply, with its contents, and every code address is where the memory is mapped for execution |
| `Closures.CodeIsTrue` | deps/libffi/src/closures.c:926-931 | the code address of every closure in use is the true executable address of its memory |
| `HandOff.StepOk` | src/callback_info.cc:63-76 | every atomic step of any thread or of the main loop keeps the invariant |
| `HandOff.Reachable` | src/callback_info.cc:147-184 | the invariant holds after every schedule of any number of threads |
| `HandOff.HandOffSafe` | src/callback_info.cc:63-76 | dispatch follows the order of the pushes, never twice; Invoke returns only after its own dispatch; queue and main loop refer only to invocations that exist |
| `HandOff.SignalArrives` | src/threaded_callback_invokation.cc:21-29 | when the main loop signals, the thread is inside its wait |
| `HandOff.NoCycle` | src/callback_info.cc:65-74 | the main loop, holding the queue mutex, only locks mutexes of threads that are past their use of the queue mutex |
| `HandOff.NoneStranded` | src/callback_info.cc:171-177 | with the main loop asleep and no wake-up pending, everyone in the queue has still to send |
| `HandOff.Progress` | src/callback_info.cc:63-76 | no deadlock: while a thread is in Invoke, some step other than a new invocation can be taken |
| `HandOff.Bounded` | src/callback_info.cc:147-184 | a schedule without new invocations is no longer than a measure of its first state |
| `HandOff.Quiet` | src/callback_info.cc:147-184 | where nothing can move, every pushed invocation has been dispatched once, in order, and has returned |
| `HandOff.EveryInvocationReturns` | src/callback_info.cc:147-184 | from every reachable state, every schedule without new invocations ends, and can only end with every invocation served |
| `HandOff.SpuriousWakeBreaks` | src/threaded_callback_invokation.cc:27-29 | a wake-up without a signal is harmless exactly if the main loop gets the mutex of the invocation before the thread does; otherwise Invoke destroys an invocation that the queue or the main loop still refers to |
| `HandOff.BothHappen` | src/threaded_callback_invokation.cc:27-29 | after such a wake-up the thread can go on at once and break the hand-off, unless the main loop is about to signal; then it can go on after that |
| `HandOff.WaitReached` | src/callback_info.cc:157-182 | a schedule of one thread that reaches its wait, with the mutex free |
| `HandOff.MainLoop.DispatchAndSignal` | src/threaded_callback_invokation.cc:21-25 | whatever the foreign threads do meanwhile, the invocation has been dispatched and the main loop is back at its loop test with the same queue |
| `HandOff.MainLoop.WatcherCallback` | src/callback_info.cc:63-76 | whatever the foreign threads do meanwhile, one call serves everything that has been pushed, in order, and leaves no thread on its way to a wait or in it |
| `Layout.LayoutHolds` | deps/libffi/src/prep_cif.c:52-79 | every field at the least multiple of its alignment behind the field before, the largest alignment, the least size that is a multiple of it |
| `Layout.LayoutUnique` | deps/libffi/src/prep_cif.c:52-79 | these conditions determine offsets, size and alignment |
| `Layout.LeavesFit` | deps/libffi/src/prep_cif.c:52-79 | for alignments that are powers of two, all scalars at any depth are aligned, inside the struct, in order and without overlap |
| `TypeGraphs.PassesAlike` | deps/libffi/src/prep_cif.c:54-57 | what a check says about a type stays the same when sizes have come to types that pass it |
| `TypeGraphs.PassesIffInhabited` | deps/libffi/src/prep_cif.c:54-57 | before any check has failed, a type passes exactly if it has no empty struct in it |
| `TypeGraphs.GapCloses` | deps/libffi/src/prep_cif.c:54-57 | a refusal leaves one struct more with a size on the chain of first fields |
| `TypeGraphs.NextPassesIff` | deps/libffi/src/prep_cif.c:54-57 | whatever parts they share, a type passes the check after the first exactly if every way down to an empty struct in it goes through a struct that the first such way leaves by a later field than its first |
| `TypeGraphs.NextPassesUnshared` | deps/libffi/src/prep_cif.c:54-57 | when what is refused in a first field is no part of the other fields: exactly if its first field has no empty struct in it, or passes the next check itself while the others have none |
| `PrepCif.InitializeAggregate` | deps/libffi/src/prep_cif.c:37-92 | on types that share parts, in whatever state earlier refusals have left them: success exactly if every field has a size or passes; size, alignment and offsets are those of the fields before the first one refused, and exactly the structs on the way to the empty one keep a size |
| `PrepCif.Prepare` | deps/libffi/src/prep_cif.c:54-57 | a field without a size passes exactly if all its parts do, others are left alone |
| `PrepCif.PlaceField` | deps/libffi/src/prep_cif.c:61-69 | one field more has its offset |
| `PrepCif.LeftoverSize` | deps/libffi/src/prep_cif.c:54-57 | before any check has failed, a refused type keeps the size of what comes before its first empty field |
| `PrepCif.CheckType` | deps/libffi/src/prep_cif.c:171-174 | the answer in every state, the answer of the check after a refusal, and the layout that an accepted type without empty structs has |
| `PrepCif.CheckRepeatedly` | deps/libffi/src/prep_cif.c:171-174 | a type is accepted by some check exactly if the chain of first fields ends in a scalar; as many checks as the chain is long are enough |
| `PrepCif.CheckTwice` | deps/libffi/src/prep_cif.c:171-174 | the first two answers for fresh types, told from the graph of their fields, and from the tree alone when nothing refused is shared |
| `PrepCif.RefusedThenAccepted` | deps/libffi/src/prep_cif.c:171-174 | a struct of a struct of an int and an empty struct is refused first and accepted then |
| `PrepCif.SharedThenAccepted` | deps/libffi/src/prep_cif.c:171-174 | so is a struct with the same struct of an int and an empty struct twice, which the tree alone does not tell |
| `PrepCif.GetStructOffsets` | deps/libffi/src/prep_cif.c:250-263 | the three error cases, or the offsets of all fields |
| `PrepCif.WholeTree` | deps/libffi/src/prep_cif.c:54-57 | a type without empty structs that has a size can be relied on: it and all its parts have their layout |
| `JsTypes.StructElements` | lib/type.js:73-105 | the buffer is exactly as long as the elements written to it, which are those of all fields in order, and ends with NULL |
| `JsTypes.RunOfElements` | lib/type.js:95-98 | equal elements in a row lie as an array does |
| `JsTypes.MatchesIff` | lib/type.js:93-102 | the elements for a field have the size and alignment of the field in C exactly if it is no array of arrays, unless these look like pointers, and no pointer to an array, unless that has one element that looks like a pointer |
| `JsTypes.LayoutAgrees` | lib/type.js:76-105 | each field of a struct of such fields only, array or not, has the offset it has in C, and the struct the size and alignment |
| `JsTypes.NestedArrayDiffers` | lib/type.js:93-98 | an array of arrays is given the layout of a row of pointers |
| `JsTypes.PointerToArrayDiffers` | lib/type.js:93-98 | a pointer to an array of three ints is given the layout of three ints |
| `RiscV.AtomRoundTrip` | deps/libffi/src/riscv/ffi.c:131-206 | an atom read from the word that marshal_atom has written gives the same bytes |
| `RiscV.ExtensionKeepsValue` | deps/libffi/src/riscv/ffi.c:134-146 | the word of a small integer holds its value, sign-extended |
| `RiscV.PlanAdvances` | deps/libffi/src/riscv/ffi.c:208-251 | an argument takes slots that no earlier one has taken, a different one for each piece |
| `RiscVSlots.LeafPair` | deps/libffi/src/riscv/ffi.c:85-128 | the offset used for the second of two fields is the offset of the second scalar in the layout of the struct, at any nesting |
| `RiscVSlots.ElementsInside` | deps/libffi/src/riscv/ffi.c:97-128 | the fields that are passed one by one are all the scalars of the struct, and lie inside it |
| `RiscVSlots.ArgumentReturns` | deps/libffi/src/riscv/ffi.c:253-300 | as long as its slots hold an argument, unmarshal gives the same pointer or the same bytes, whatever was in its storage |
| `RiscVSlots.ScalarWhole` | deps/libffi/src/riscv/ffi.c:253-300 | a scalar that is not passed by reference arrives whole |
| `RiscVCalls.StackEstimate` | deps/libffi/src/riscv/ffi.c:334-337 | after k arguments at most two stack words for each after the third have been written, whatever the types |
| `RiscVCalls.AllHeld` | deps/libffi/src/riscv/ffi.c:368-370 | when all arguments have been marshalled, the slots of an argument still hold it, unless a later argument takes one of them |
| `RiscVCalls.RoundTrip` | deps/libffi/src/riscv/ffi.c:368-473 | an argument of which no slot is taken by a later one, read with its own cursor from what the caller has left, is the same pointer or the same bytes, fixed or variadic |
| `RiscVCalls.ArrivesIff` | deps/libffi/src/riscv/ffi.c:368-473 | an argument arrives in every call with these types exactly if no later one takes a slot of it |
| `RiscVCalls.AddressIff` | deps/libffi/src/riscv/ffi.c:364-370 | the address for a big result is still in a0 in every call with these types exactly if no argument takes that register |
| `RiscVCalls.FloatsFitIff` | deps/libffi/src/riscv/ffi.c:106-110 | a ninth float register is asked for exactly if a struct of one float comes after the eighth has been used |
| `RiscVCalls.NinthFloat` | deps/libffi/src/riscv/ffi.c:106-110 | then its value replaces what is in the first integer register |
| `RiscVCalls.SharedIff` | deps/libffi/src/riscv/ffi.c:106-110 | an argument or the address of the result loses a slot exactly if one struct of a float asks for the ninth float register and the first integer register is used by another argument or for the result |
| `RiscVCalls.DeliversIff` | deps/libffi/src/riscv/ffi.c:368-473 | every call with these types delivers all arguments and the address of a big result exactly if the first integer register is not shared in this way |
| `RiscVCalls.NinthFloatSpoils` | deps/libffi/src/riscv/ffi.c:131-206 | every call with an integer, eight doubles and a struct of one float, marshalled and unmarshalled: the closure gets the word of the float as the integer |
| `RiscVCalls.ResultPlace` | deps/libffi/src/riscv/ffi.c:374-376 | the place of a result does not depend on the stack pointer, which neither side resets |
| `RiscVCalls.ResultReturns` | deps/libffi/src/riscv/ffi.c:374-480 | a result marshalled by the closure is unmarshalled by the caller, if the four result registers are handed on |
| `RiscVBuilder.FlattenStruct` | deps/libffi/src/riscv/ffi.c:85-95 | the scalars of the type are appended to what is there, as far as there is room |
| `RiscVBuilder.CallBuilder.StructPassedAsElements` | deps/libffi/src/riscv/ffi.c:97-128 | the decision is that of the specification, for the counters as they are |
| `RiscVBuilder.CallBuilder.MarshalAtom` | deps/libffi/src/riscv/ffi.c:131-169 | one slot is written, the counter of its kind advanced |
| `RiscVBuilder.CallBuilder.UnmarshalAtom` | deps/libffi/src/riscv/ffi.c:171-206 | the bytes of the same slot, and the same counter advanced |
| `RiscVBuilder.CallBuilder.Marshal` | deps/libffi/src/riscv/ffi.c:208-251 | slots and counters are those of the specification in all cases |
| `RiscVBuilder.CallBuilder.Unmarshal` | deps/libffi/src/riscv/ffi.c:253-300 | value and counters are those of the specification in all cases |
| `RiscVBuilder.FfiCallInt` | deps/libffi/src/riscv/ffi.c:330-370 | the slots hold all arguments and the address of a big result, and the reserved stack has been enough |
| `RiscVBuilder.FfiClosureInner` | deps/libffi/src/riscv/ffi.c:441-473 | avalue is what unmarshalling each argument at its cursor gives |
| `RiscVBuilder.CallClosure` | deps/libffi/src/riscv/ffi.c:330-473 | the closure gets every argument that no later one overwrites, and the address of a big result if it is not overwritten; everything, if the first integer register is not shared |
| `ArmVfp.VfpTypeIs` | deps/libffi/src/arm/ffi.c:647-788 | vfp_type_p answers with element type and count exactly if the type consists of one to four scalars of one floating-point type, however nested |
| `ArmVfp.UniformSize` | deps/libffi/src/arm/ffi.c:752-770 | a type whose scalars are all of one floating-point type has their number times their size: the division finds the count |
| `ArmRegs.VfpCif.FindRun` | deps/libffi/src/arm/ffi.c:793-829 | the search finds the lowest aligned free registers, or there are none |
| `ArmRegs.VfpCif.PlaceVfpArg` | deps/libffi/src/arm/ffi.c:790-834 | the lowest aligned free run, also behind registers in use; the lowest free register is known afterwards; failure exactly if there is none, and then all count as used |
| `ArmRegs.VfpCif.LayoutVfpArgs` | deps/libffi/src/arm/ffi.c:836-852 | the entries are those of the allocation over the argument list, the others -1 |
| `ArmRegs.AllocationSound` | deps/libffi/src/arm/ffi.c:790-852 | runs of different arguments are disjoint, within s0 to s15, and there are at most sixteen |
| `ArmRegs.StoppedStays` | deps/libffi/src/arm/ffi.c:846-851 | after the first failure nothing more is placed |
| `ArmRegs.EntryIsLowest` | deps/libffi/src/arm/ffi.c:190-196 | the entry that an argument reads is the lowest run that was free at its turn; it has none exactly if none was free or an earlier argument had failed |
| `ArmArgs.StepAgrees` | deps/libffi/src/arm/ffi.c:197-228 | one argument: the same address on both sides, although flags and pointers differ, and the relation between the books kept |
| `ArmCalls.SlotsAgree` | deps/libffi/src/arm/ffi.c:462-530 | the closure looks for every argument where the caller has put it |
| `ArmCalls.RegisterSlot` | deps/libffi/src/arm/ffi.c:190-196 | an argument in registers has all its bytes in the lowest run that was free |
| `ArmCalls.SlotsApart` | deps/libffi/src/arm/ffi.c:161-230 | slots of different arguments do not overlap, in registers, core registers or stack |
| `ArmSizing.StackSuffices` | deps/libffi/src/arm/ffi.c:296-317 | cif->bytes, counted without regard to registers, is enough for everything the caller writes to the stack |
| `ArmSizing.StaysLow` | deps/libffi/src/arm/ffi.c:790-834 | registers are filled so densely that a failure means that at least five are in use |
| `ArmPass.PutBytes` | deps/libffi/src/arm/ffi.c:77-131 | what is written starts with the value and stays within the rounded size |
| `ArmPass.PutKeepsValue` | deps/libffi/src/arm/ffi.c:82-93 | the word written for a small integer has its value, sign-extended if it is signed |
| `ArmPass.FfiPrepArgsVfp` | deps/libffi/src/arm/ffi.c:161-230 | all arguments are in their slots, and the address of the result in r0 |
| `ArmPass.FfiPrepIncomingArgsVfp` | deps/libffi/src/arm/ffi.c:462-530 | avalue holds the slot of every argument |
| `ArmPass.CallClosure` | deps/libffi/src/arm/ffi.c:161-530 | the closure finds the bytes of every argument, and the address of a result in memory |
| `PpcSysv.SoftFloatHasNone` | deps/libffi/src/powerpc/ffi_sysv.c:61-88 | without floating-point registers no type is treated as floating-point |
| `PpcSysv.StepAgrees` | deps/libffi/src/powerpc/ffi_sysv.c:175-284 | one argument: sizing pass, caller and closure come to the same counts and the same place |
| `PpcSysv.PlaceIsFresh` | deps/libffi/src/powerpc/ffi_sysv.c:455-606 | the place is a new one; doublewords start at even words and even registers |
| `PpcCalls.PassesAgree` | deps/libffi/src/powerpc/ffi_sysv.c:720-908 | for every argument list the three passes agree before every argument, and on its place |
| `PpcCalls.Room` | deps/libffi/src/powerpc/ffi_sysv.c:447-609 | parameters growing up and copies growing down leave room for all that is still to come, at every argument |
| `PpcCalls.CopyCheck` | deps/libffi/src/powerpc/ffi_sysv.c:568-577 | the strict check after a copy holds exactly unless it is the last copy, no stack word follows and the parameters end on sixteen bytes |
| `PpcCalls.CopyCheckFails` | deps/libffi/src/powerpc/ffi_sysv.c:568-577 | for a function of one struct the copy ends right at next_arg |
| `PpcCalls.PlacesApart` | deps/libffi/src/powerpc/ffi_sysv.c:455-606 | no two arguments share a byte of registers or parameters |
| `PpcCalls.CopiesApart` | deps/libffi/src/powerpc/ffi_sysv.c:568-577 | a copy shares no byte with another copy, a register or a parameter |
| `PpcPass.ExtendedKeepsValue` | deps/libffi/src/powerpc/ffi_sysv.c:579-590 | the word for a small integer has its value, sign-extended if it is signed |
| `PpcPass.PassedOn` | deps/libffi/src/powerpc/ffi_sysv.c:455-606 | writing an argument leaves the earlier ones in place |
| `PpcLoops.FfiPrepCifSysvCore` | deps/libffi/src/powerpc/ffi_sysv.c:91-310 | bytes and flags as the specification has them |
| `PpcLoops.Advance` | deps/libffi/src/powerpc/ffi_sysv.c:464-606 | the pointer arithmetic of every case gives the place of the specification |
| `PpcLoops.FfiPrepArgsSysv` | deps/libffi/src/powerpc/ffi_sysv.c:372-616 | all arguments and copies are in the block, as is the address of a result |
| `PpcLoops.FinalChecks` | deps/libffi/src/powerpc/ffi_sysv.c:608-615 | the checks at the end hold |
| `PpcLoops.Find` | deps/libffi/src/powerpc/ffi_sysv.c:720-908 | every case of the closure finds the place of the specification |
| `PpcLoops.FfiClosureHelperSysv` | deps/libffi/src/powerpc/ffi_sysv.c:673-908 | avalue holds what the places say, and the address of a result is found |
| `PpcLoops.ArgumentArrives` | deps/libffi/src/powerpc/ffi_sysv.c:720-908 | the value that was passed is where the closure has found it, or at the address it has read |
| `PpcLoops.CallClosure` | deps/libffi/src/powerpc/ffi_sysv.c:372-908 | the closure finds the value of every argument, and the address of a result in memory |

## Left out

- `Heap.Heap.Mmap`: the system's answer is any unmapped, page-aligned region with any contents and any executable view, or a failure; temporary files, SELinux and PaX probing and the parsing of `/proc` are not modelled, nor is the order in which the two views are mapped.
- `Heap.Heap.Munmap`: unmapping the executable and the writable view is one step that succeeds or fails as a whole; a failure between the two is not modelled.
- `Heap.Heap.Store`: clients store aligned words; unaligned and partial stores are not modelled.
- `HeapCheck.CheckInuseChunk`: `do_check_mmapped_chunk` is shown never to be called, so its assertions are not modelled.
- `Closures.Run`: single-threaded; the locks inside dlmalloc are not modelled.
- `HandOff.MainLoop.WatcherCallback`: from the moment the main loop asks for a mutex, the thread that holds it goes on until it gives it back, and then the main loop gets it; other orders are in the steps of the transition system.
- `HandOff.HandOffSafe`: the callback is one atomic, non-blocking step; callbacks invoked on the main thread itself, and `uv_ref` and `uv_unref`, are not modelled.
- `RiscVCalls.DeliversIff`: for calls that ask for at most sixteen float registers; what is written for a seventeenth lies behind the registers in `call_context`, where the assembly code keeps its frame, and is not modelled.
- `RiscVCalls.ArrivesIff`: for the same calls.
- `RiscVCalls.AddressIff`: for the same calls.
- `RiscVCalls.SharedIff`: for the same calls.
- `RiscVCalls.RoundTrip`: for the same calls.
- `RiscVCalls.AllHeld`: for the same calls.
- `RiscVBuilder.FfiCallInt`: for the same calls.
- `RiscVBuilder.CallClosure`: for the same calls.
- `ArmSizing.StackSuffices`: for the path that uses floating-point registers; `ffi_prep_args_SYSV` and its counterpart on ARM are not modelled.
- `PpcLoops.FfiPrepArgsSysv`: the conversion of a float to a double and back, which goes through a register, is taken to give the same bytes; floats in floating-point registers are held in the form that the closure stores.
- Assembly entry points, trampolines and instruction-cache flushing: registers are arrays that are handed over as they are.
- The runtime corruption checks of dlmalloc: they are shown to pass, so what happens when they fail is not modelled.
- dlmalloc's calloc, realloc, memalign, mspaces, mallopt, statistics, footers, sbrk and direct mapping: not used or not compiled for closures.
- The caching of an `ffi_type` on the JavaScript type object, and types by name.
- The Mach trampoline table, the variadic function cache, N-API, V8 and libuv: plumbing or foreign code.
- The other calling conventions and the raw APIs: the same pattern with less structure.
