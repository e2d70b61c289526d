# embARC OSP: a verified model of its allocator, CoAP options, locks, DMA channels and option scanner

This project models the parts of embARC OSP whose correctness rests on long-lived invariants, and proves those invariants and what
follows from them:

- the C library's `malloc` (dlmalloc): memory is a map from word addresses to words, and `MallocState` runs `malloc`, `free`,
  `realloc` and `memalign` on it word by word, with bin rings, size tries, bit maps, boundary tags, the designated victim and the top;
- the CoAP option codec: headers, the option iterator with its filter, the writer, variable-length integers, the 8-bit pseudo floating
  point format and blockwise transfer;
- the ARC spin lock and the ARConnect command sequence under it, as a state machine over all interleavings of all cores;
- the uDMA driver's channel table and descriptor chains;
- `ya_getopt`, with the argument permutation it spreads over several calls.

Everything the source updates in place is a class field, an array or a word of modelled memory; what the source computes with
expressions is a function. The ghost fields of `MallocState` (`h`, `b`, `ix`, `lo`, `hi`) say which chunks tile the segment, which of
them are binned and where they sit in the rings and tries. `Sound` ties them to memory: every head, foot and in-use bit is right, no
free chunk touches another free chunk or the top, exactly the free chunks other than the designated victim are binned, and the two bit
maps show exactly the non-empty bins. Programs see the heap through `Live`, the blocks they own. `PayloadKept` says that no word of
given blocks changes; `Handed`, `Returned`, `Resized` and `Moved` say what an operation does to `Live` and to the contents of blocks,
and `Happens` says the same as an event of a run. `Kept` says that nothing else was ever written: since before the first call, no word
outside the segment, as far as it has reached, and outside the bin arrays has changed.

Parameters stand for what the source gets from elsewhere: MORECORE's answers (`core`, `released`), the DMA hardware's status
(`bits`, `pending`), the ARConnect device (`Device`, any function of its state and registers), the bytes behind an option buffer or
a string (`past`), and the POSIXLY_CORRECT environment variable. Words are 32 bits wide; wrap-around is written out.

Files: `Words` to `Segments` hold the allocator's data structures and steps as values, `Frames` and `HeapEvents` what they leave alone
and what programs see of them, `Malloc` the operations, `HeapTheorems` what the invariant amounts to. `CoapOption`, `CoapIterator`,
`CoapWriter`, `CoapPdu`, `CoapEncode` and `CoapBlock` are the CoAP library, `SpinLock`, `Udma`, `Getopt`, `GetoptLaws` and
`GetoptOrder` stand on their own, but for the bit operations of `BinMaps` and `Words`.

## Where the code differs from what it is for

- A CoAP option delta or length of 269 is written in the one-byte form and read back as 13: `middleware/coap/option.c:338` and `:359`
  test for less than 270 where section 3.1 of RFC 7252 has 269 as the first two-byte value. `OptionRoundTrip` and `ListRoundTrip`
  prove that everything else survives, and that exactly these do not.
- The check for a delta that is too large looks at the first of its two bytes only. Deltas 65536 to 65548 pass it and are taken for 0 to 12
  (`ParseStarting`, `LargeDeltaExamples`); `ParseAccepts` has exactly what is accepted.
- The room tests for the extended length in `coap_opt_setheader` are one byte short. `HeaderFits` proves exactly when, and that the
  excess is one byte; `coap_opt_encode` then fails its assertion (`EncodeOption`).
- `coap_option_getb` hands its 16-bit number to a function with an 8-bit parameter. `FilterRange` proves exactly which numbers are then
  looked up right.
- `coap_write_block_opt` sets four bytes aside for the option and the payload marker, which can take six, and computes the rest without
  a sign. It can settle on a block that `coap_add_block` then refuses: `NoRoomExample` and `FourNotEnoughExample` are such inputs,
  `WhenAddable` has the exact condition.
- `dmac_reserve_channel` and `dmac_init_channel` do not look whether the struct has a channel already. `StepStale` proves that slots and
  structs stay one-to-one exactly if it has none. `dmac_release_channel` leaves the status alone, so a struct released while busy stays
  busy without a channel (`StepBusyBound`), and a later reservation ends that (`ReservedBusy`). `dmac_check_channel` takes the status of
  a channel that was never started for busy, after which it cannot be started (`StepEnabled`, `PhantomStuck`).
- In `ya_getopt.c` a leading '+' or POSIXLY_CORRECT selects the permuting mode and the default stops at the first non-option, the
  opposite of what the names say. The model does what the code does (`Getopt.Scanner.constructor`, `NonOption`).
- An argument that is a single dash, where an option is looked for, makes `ya_getopt` look up the terminating zero and read behind its
  option string; `OverreadIsDash` proves that nothing else does.
- `ya_getopt` puts off moving skipped arguments behind the options until the next call. If the end mark, or an option that lacks its
  argument, ends the scan first, the skipped arguments are in front of the index and not among the arguments left (`GetOpt`,
  `HiddenExample`).
- `dlmalloc`'s comment promises a remainderless fit from a small bin before the designated victim. For a chunk size of 248 the next
  larger size is in a tree bin, which the code does not look at in that step; `Preferred` has the exact limit.

## Model

| member | source | states |
|---|---|---|
| `HeapTheorems.LiveDisjoint` | library/clib/malloc.c:2137-2164 | In every sound state blocks in use are 8-aligned, lie between the segment's start and the top, and never overlap. |
| `HeapTheorems.Conserved` | library/clib/malloc.c:3431-3459 | Walking the chunks from the segment's start reaches the top, and chunk sizes, top and the segment's foot add up to the segment. |
| `HeapTheorems.SameHeap` | library/clib/malloc.c:2129-2134 | Two sound heaps with the same blocks in use have the same chunks and the same top: no order of frees, and neither `free` nor `dispose_chunk`, can leave a different or less coalesced heap. |
| `HeapTheorems.SmallBit` | library/clib/malloc.c:3371-3392 | Bit i of the small map is set if and only if some binned free chunk has size 8i. |
| `HeapTheorems.TreeBit` | library/clib/malloc.c:3360-3368 | Bit i of the tree map is set if and only if some binned free chunk has a size of tree bin i. |
| `HeapEvents.StepFollows` | library/clib/malloc.c:5193-5236 | An event of a run, which is what every call and every store is proved to be, leaves each block it does not release or write allocated, in place or moved, with its content as far as it fits before and after. |
| `HeapEvents.StepKeeps` | library/clib/malloc.c:4552-4797 | A block that an event does not concern keeps its place and its size. |
| `HeapEvents.RunFollows` | library/clib/malloc.c:4552-5236 | Over every run of allocations, releases, resizings, moves, stores and refused calls, a block followed through its moves is still allocated and has its content, as far as it was never made smaller. |
| `HeapEvents.RunKeeps` | library/clib/malloc.c:4552-5236 | Over every run, a block no event concerns is at the end where it was, as large, with every word of its content. |
| `Frames.TouchesInside` | library/clib/malloc.c:2993-3000 | Writes to bins, rings and tries stay inside the segment and the bin arrays. |
| `Frames.WritesInside` | library/clib/malloc.c:2993-3000 | Writes to heads and feet do too; so every word elsewhere is as it was before the first call. |
| `Tiling.SpliceTiled` | library/clib/malloc.c:3431-3459 | Re-tiling a stretch between two chunk boundaries leaves the whole segment tiled. |
| `Tiling.Before` | library/clib/malloc.c:3431-3459 | Every chunk boundary but the first has a chunk that ends there. |
| `Tiling.TotalIsExtent` | library/clib/malloc.c:3431-3459 | The sizes of the chunks from a boundary on sum up to the distance to the top. |
| `Tiling.CanonicalHeap` | library/clib/malloc.c:2129-2130 | A coalesced tiling is determined by its in-use chunks. |
| `Words.HeadFields` | library/clib/malloc.c:2267-2273 | Size, cinuse and pinuse read back from a head word as they were put in. |
| `Words.PinuseBitOnly` | library/clib/malloc.c:2274-2274 | Setting or clearing pinuse changes nothing else in a head word. |
| `TreeIndex.Log2Correct` | library/clib/malloc.c:2889-2906 | The subtract, mask and shift sequence yields the floor of the binary logarithm for every 16-bit value. |
| `TreeIndex.TreeIndexRange` | library/clib/malloc.c:2889-2906 | The bin computed for a size is the one whose least size is at most the size and whose successor's least size is above it. |
| `TreeIndex.MinSizeIsBinLo` | library/clib/malloc.c:2918-2920 | `minsize_for_tree_index` is the sum of the widths of all smaller bins: bins leave no gap. |
| `TreeIndex.ComputeTreeIndex` | library/clib/malloc.c:2889-2906 | The computed bin is one that the size belongs to. |
| `TreeIndex.BinsOrdered` | library/clib/malloc.c:2918-2920 | A size belongs to one bin only, and a larger bin has larger sizes only. |
| `BinMaps.Tested` | library/clib/malloc.c:2926-2935 | Masking with `idx2bit(i)` is non-zero exactly if bit i is set. |
| `BinMaps.MarkShows` | library/clib/malloc.c:2929-2933 | Marking adds one bin to what a map shows and touches no other. |
| `BinMaps.ClearShows` | library/clib/malloc.c:2930-2934 | Clearing takes one bin from what a map shows and touches no other. |
| `BinMaps.BitIndex` | library/clib/malloc.c:2976-2985 | The shift cascade of `compute_bit2idx` inverts `idx2bit` for all 32 positions. |
| `BinMaps.LeftBitsOf` | library/clib/malloc.c:2941-2941 | `left_bits` of bit i has exactly the bits above i. |
| `BinMaps.LowestBin` | library/clib/malloc.c:2938-2985 | `compute_bit2idx(least_bit(map))` is the lowest bin a non-empty map shows. |
| `BinMaps.NextBin` | library/clib/malloc.c:4472-4476 | The masked map is zero exactly when no bin above `idx` is in use, else its least bit is the next bin above `idx`. |
| `BinMaps.SmallBits` | library/clib/malloc.c:4588-4590 | The shifted map's two low bits are zero exactly if neither the bin nor the next has a chunk; all of it is zero exactly if no higher bin has one either. |
| `BinMaps.SmallNext` | library/clib/malloc.c:4608-4610 | Shifting back and masking finds the next non-empty small bin. |
| `BinMaps.PowerTest` | library/clib/malloc.c:4902-4902 | `x & (x - 1)` is zero exactly for powers of two. |
| `SizeTrie.SizeBitsStart` | library/clib/malloc.c:4450-4450 | The shifted size holds, from the top bit on, the size's offset in its bin's range. |
| `SizeTrie.SizeBitsStep` | library/clib/malloc.c:4461-4468 | The top bit says which half of a node's range a size is in, and shifting by one gives the word for that half. |
| `SizeTrie.SearchStep` | library/clib/malloc.c:4452-4469 | One step down the bits of a request never loses the best fit: it is ahead, in the remembered right subtree, or already found. |
| `SizeTrie.TurnToRest` | library/clib/malloc.c:4464-4467 | Where the walk ends, the deepest untaken right subtree holds the best fit unless it was already found. |
| `SizeTrie.TurnToBin` | library/clib/malloc.c:4471-4479 | If nothing in the own bin fits, the tree of the next non-empty bin holds the best fit. |
| `SizeTrie.NarrowStep` | library/clib/malloc.c:4481-4488 | Following leftmost children passes the least size of a subtree. |
| `SizeTrie.TrieInsert` | library/clib/malloc.c:3309-3357 | A new size put where its bits lead keeps the trie order and the one-node-per-size rule. |
| `SizeTrie.TrieReplace` | library/clib/malloc.c:3707-3722 | Any leaf below a node may take the node's place. |
| `Rings.RingInsert` | library/clib/malloc.c:3578-3594 | Linking behind the first element of a ring, or of a lone header whatever its links, yields the ring with the new element second. |
| `Rings.RingRemove` | library/clib/malloc.c:3597-3620 | Bypassing an element yields the ring without it. |
| `TreeLinks.Plant` | library/clib/malloc.c:3679-3681 | Writing a leaf and the word that points at it yields the tree with that leaf. |
| `TreeLinks.Pluck` | library/clib/malloc.c:3748-3748 | Clearing the word that points at a leaf yields the tree without it. |
| `TreeLinks.Swap` | library/clib/malloc.c:3754-3792 | Re-pointing parent and children yields the same tree with another chunk at one place. |
| `Bins.InsertSmallStep` | library/clib/malloc.c:3578-3594 | Every word the macro reads exists; its writes give a consistent index with the chunk added, and touch only words of free chunks and bins. |
| `Bins.UnlinkSmallStep` | library/clib/malloc.c:3597-3620 | The run-time link checks hold; the writes, or clearing the bin's bit for a lone chunk, give a consistent index without the chunk. |
| `Bins.FirstSmall` | library/clib/malloc.c:3623-3638 | The first link of a marked small bin is a chunk of exactly that bin's size, with the header as its back link. |
| `LargeBins.PlantLarge` | library/clib/malloc.c:3663-3682 | A chunk of a new size as a new node leaves rings, tries, sizes and maps consistent, with it added. |
| `LargeBins.ChainLarge` | library/clib/malloc.c:3689-3697 | A chunk of a known size chained behind its node does so too, and no tree changes. |
| `LargeBins.UnchainLarge` | library/clib/malloc.c:3727-3733 | Unlinking a chained chunk leaves every tree as it is. |
| `LargeBins.PromoteLarge` | library/clib/malloc.c:3727-3792 | Unlinking a node that heads a chain puts its ring neighbour in its place in the trie. |
| `LargeBins.LeafLarge` | library/clib/malloc.c:3754-3766 | Unlinking a lone leaf removes its place, and its bin's bit exactly if it was the root. |
| `LargeBins.LiftLarge` | library/clib/malloc.c:3738-3792 | Unlinking a lone inner node puts a leaf from below in its place; the trie order survives. |
| `LargeSteps.WalkStep` | library/clib/malloc.c:3673-3677 | The child selected by the top bit is where the size belongs; if it is empty, no chunk in the tree has that size. |
| `LargeSteps.HandOverSwaps` | library/clib/malloc.c:3768-3792 | The sequence of parent and child writes is an exact replacement of one node by another. |
| `BestFit.Better` | library/clib/malloc.c:4454-4458 | Unsigned comparison of wrapped remainders says exactly whether a chunk fits and is smaller than the best so far. |
| `BestFit.ProbeStep` | library/clib/malloc.c:4452-4469 | On memory, one turn of the search reads mapped words only and goes to the right node or falls back to the right subtree. |
| `BestFit.NarrowNext` | library/clib/malloc.c:4481-4488 | On memory, one turn down the leftmost path; at its end no fitting large chunk is smaller than the best. |
| `BestFit.TurnBin` | library/clib/malloc.c:4471-4479 | On memory, no bit above the bin means that nothing fits, else the next bin's root starts the last phase. |
| `BestFit.SmallStart` | library/clib/malloc.c:4517-4520 | The lowest tree bin's root is where the smallest large chunk is to be found. |
| `BoundaryTags.IndexKeepsHeap` | library/clib/malloc.c:3272-3292 | Writes to bin links leave every boundary tag and every word of every block alone. |
| `BoundaryTags.Retile` | library/clib/malloc.c:3227-3292 | Re-tagging a stretch of chunks leaves bins, the other tags, coalescing and all blocks outside the stretch intact. |
| `Retags.PrevUsed` | library/clib/malloc.c:2129-2130 | The chunk below a free chunk is in use. |
| `Retags.PrevRead` | library/clib/malloc.c:2141-2151 | pinuse tells whether the chunk below is in use, and if it is not, `prev_foot` leads to a free chunk of that size. |
| `AllocSteps.TakeStep` | library/clib/malloc.c:3067-3069 | Tagging a whole unbinned free chunk in use hands out exactly that block. |
| `AllocSteps.SplitStep` | library/clib/malloc.c:4499-4501 | Splitting an unbinned free chunk hands out its front and leaves its rear as a free chunk. |
| `AllocSteps.TopStep` | library/clib/malloc.c:4666-4671 | Cutting the top hands out its front. |
| `FreeSteps.BlockReads` | library/clib/malloc.c:4710-4741 | What `free` reads around a live block identifies both neighbours and their state; the usage checks hold. |
| `FreeSteps.FreeStep` | library/clib/malloc.c:4760-4772 | Tagging a block with its free neighbours as one free chunk takes back exactly that block. |
| `FreeSteps.JoinTop` | library/clib/malloc.c:4742-4749 | Lowering the top over a block and a free chunk below it takes back exactly that block. |
| `ResizeSteps.WholeStep` | library/clib/malloc.c:3062-3064 | `set_inuse` over a block and the free chunk behind it resizes the block in place. |
| `ResizeSteps.SplitUsedStep` | library/clib/malloc.c:4833-4834 | Two `set_inuse` make two blocks of a block's space; the first keeps its content. |
| `ResizeSteps.GrowDvStep` | library/clib/malloc.c:4855-4863 | Growing into the designated victim leaves the rest of it a free chunk. |
| `ResizeSteps.GrowTopStep` | library/clib/malloc.c:4841-4849 | Growing into the top moves the top up by the growth. |
| `ClientSteps.StoreKeeps` | library/clib/malloc.c:2080-2098 | Whatever a program stores inside its own blocks cannot disturb the heap or another block. |
| `Segments.ResizeTop` | library/clib/malloc.c:3904-3916 | Writing a new top head and fencepost moves the segment's end and nothing else. |
| `Segments.ShrinkTop` | library/clib/malloc.c:4348-4352 | The same for a smaller top, where no new memory is needed. |
| `Segments.FirstSegment` | library/clib/malloc.c:4184-4195 | Zeroed bins and a fresh top are a sound heap without chunks. |
| `Malloc.Padded` | library/clib/malloc.c:2239-2240 | For every allowed request the padded size is the least multiple of 8 with room for the overhead; it does not wrap. |
| `Malloc.RequestPadded` | library/clib/malloc.c:2243-2244 | Small requests get small-bin sizes, all others tree-bin sizes. |
| `Malloc.AlignUpIs` | library/clib/malloc.c:4929-4931 | Rounding up gives the first aligned address that is not below. |
| `Malloc.DocumentedOrder` | library/clib/malloc.c:4553-4573 | Where a block comes from, case by case: small requests from a small bin without remainder, the designated victim, any bin; large ones from the bins or the victim, whichever fits better; then the top, then the system. |
| `Malloc.MallocState.constructor` | library/clib/malloc.c:3919-3926 | A zeroed state satisfies the invariant, has no blocks, and its parameters are the ones given. |
| `Malloc.MallocState.InsertSmallChunk` | library/clib/malloc.c:3578-3594 | The chunk is binned, nothing else is, and only link words of free chunks and bins were written. |
| `Malloc.MallocState.UnlinkSmallChunk` | library/clib/malloc.c:3597-3620 | The chunk leaves the bins, and no other does. |
| `Malloc.MallocState.UnlinkFirstSmallChunk` | library/clib/malloc.c:3623-3638 | A chunk of exactly the bin's size leaves the bins. |
| `Malloc.MallocState.FindSlot` | library/clib/malloc.c:3670-3689 | The walk ends, at the node of that size if there is one, else at the empty child word where it belongs. |
| `Malloc.MallocState.InsertLargeChunk` | library/clib/malloc.c:3656-3705 | The chunk is binned, as a node or chained, and nothing else changes in the index. |
| `Malloc.MallocState.RightmostLeaf` | library/clib/malloc.c:3739-3746 | The walk ends at a leaf strictly below the node, with the word that points at it, or finds no child at all. |
| `Malloc.MallocState.SetSlot` | library/clib/malloc.c:3754-3767 | Exactly the word that points at the node is rewritten, and the bin's bit goes exactly if its root goes. |
| `Malloc.MallocState.UnlinkLargeChunk` | library/clib/malloc.c:3724-3793 | In all four cases the chunk leaves the bins, the tries stay ordered, and both link checks hold. |
| `Malloc.MallocState.InsertChunk` | library/clib/malloc.c:3797-3799 | One more free chunk is binned; no block changes. |
| `Malloc.MallocState.UnlinkChunk` | library/clib/malloc.c:3801-3803 | One free chunk less is binned; no block changes. |
| `Malloc.MallocState.SearchBin` | library/clib/malloc.c:4448-4470 | What the first phase has found, or the subtree it goes on with, holds the best fit, or its bin has none. |
| `Malloc.MallocState.SearchLeft` | library/clib/malloc.c:4481-4488 | At the end no large binned chunk that fits is smaller than the one found. |
| `Malloc.MallocState.BestLarge` | library/clib/malloc.c:4443-4488 | The search finds a smallest large chunk that fits, and finds nothing exactly if none fits. |
| `Malloc.MallocState.BestSmall` | library/clib/malloc.c:4514-4528 | The search finds a smallest tree chunk. |
| `Malloc.MallocState.Take` | library/clib/malloc.c:3067-3069 | A whole unbinned free chunk is handed out. |
| `Malloc.MallocState.Split` | library/clib/malloc.c:4500-4501 | The front is handed out, the rear is a free chunk that is not binned yet. |
| `Malloc.MallocState.ReplaceDv` | library/clib/malloc.c:3642-3651 | The old designated victim is binned, the new one is not, and the invariant is restored. |
| `Malloc.MallocState.TmallocLarge` | library/clib/malloc.c:4442-4510 | Hands out a best-fitting tree chunk, with less than 16 bytes of slack, if it fits better than the designated victim, which stays as it is; otherwise changes nothing, and then nothing in the trees fits better than that. |
| `Malloc.MallocState.CutFit` | library/clib/malloc.c:4496-4504 | The unlinked chunk is used up, or its front is handed out and its rear binned. |
| `Malloc.MallocState.TmallocSmall` | library/clib/malloc.c:4513-4548 | Always succeeds, from a smallest tree chunk; a remainder that makes a chunk is the new designated victim. |
| `Malloc.MallocState.SplitToDv` | library/clib/malloc.c:4619-4624 | The front is handed out and the remainder is the new designated victim. |
| `Malloc.MallocState.SmallExact` | library/clib/malloc.c:4590-4601 | A chunk of exactly the bin's size is handed out. |
| `Malloc.MallocState.SmallNext` | library/clib/malloc.c:4604-4627 | A chunk of the next non-empty small bin is split, and the remainder is the new designated victim. |
| `Malloc.MallocState.MallocDv` | library/clib/malloc.c:4646-4664 | The block is the front of the designated victim, which the rest of it stays, or all of it if less than a chunk would remain. |
| `Malloc.MallocState.MallocTop` | library/clib/malloc.c:4666-4676 | The block is the front of the top. |
| `Malloc.MallocState.InitBins` | library/clib/malloc.c:3919-3926 | Each of the 32 small bins is a ring of its header alone. |
| `Malloc.MallocState.FirstUse` | library/clib/malloc.c:4184-4203 | A first range from MORECORE, aligned or not, makes the heap valid, from its first aligned address to its end, all of it top. |
| `Malloc.MallocState.Extend` | library/clib/malloc.c:4211-4217 | An appended range enlarges the top by its size; no block changes. |
| `Malloc.MallocState.SysAlloc` | library/clib/malloc.c:4045-4251 | Hands out the block if and only if the padded size does not wrap and the answer makes the top large enough; otherwise leaves the blocks alone. The segment is as before or ends where the answer does. |
| `Malloc.MallocState.FullGrant` | library/clib/malloc.c:4060-4123 | The size `sys_alloc` asks for is the least multiple of the granularity that covers request and overhead, less the top; an answer of that size always suffices, wherever the range starts. |
| `Malloc.MallocState.MallocSmall` | library/clib/malloc.c:4583-4635 | Hands out a chunk that no binned chunk fits better than; else nothing changes and no bin has a chunk that would be preferred. |
| `Malloc.MallocState.MallocLarge` | library/clib/malloc.c:4638-4644 | The same for a large request. |
| `Malloc.MallocState.FromSpare` | library/clib/malloc.c:4646-4678 | The designated victim if it fits, else the top if it fits, else the system. |
| `Malloc.MallocState.Malloc` | library/clib/malloc.c:4552-4686 | The block is new, 8-aligned, large enough with less than 16 bytes to spare, and disjoint from all others, whose content is untouched; it comes from where the documented order of preference says, a best fit if from the bins; the designated victim afterwards is the remainder of a small block, what is left of itself, or as before; it fails if and only if the request is too large, or nothing there serves it and MORECORE's answer does not either; no word outside the segment and the bin arrays is written. |
| `Malloc.MallocState.SetFreeWithPinuse` | library/clib/malloc.c:2299-2300 | Takes back a block together with a free chunk below it. |
| `Malloc.MallocState.SetFree` | library/clib/malloc.c:2295-2296 | Takes back a block together with a free chunk above it, and one below it. |
| `Malloc.MallocState.JoinTopAt` | library/clib/malloc.c:4742-4749 | The block's space becomes top; the end of the top stays. |
| `Malloc.MallocState.Backward` | library/clib/malloc.c:4713-4738 | The free space starts at the block or at the free chunk below it, which has left its bin; or the designated victim has grown by the block. |
| `Malloc.MallocState.Forward` | library/clib/malloc.c:4740-4786 | In every case of the upper neighbour the block is taken back and the full invariant restored. |
| `Malloc.MallocState.ForwardMerge` | library/clib/malloc.c:4760-4769 | A binned upper neighbour is unlinked and merged. |
| `Malloc.MallocState.DisposeChunk` | library/clib/malloc.c:4371-4437 | Takes back exactly one block; the invariant and the end of the segment stay. |
| `Malloc.MallocState.ExtraBound` | library/clib/malloc.c:4310-4338 | What trimming asks to give back leaves the pad; below half the address space it is a multiple of the granularity that leaves at most one unit above the pad. |
| `Malloc.MallocState.SysTrim` | library/clib/malloc.c:4303-4366 | Only the top shrinks, in step with the segment; more than the pad remains; a failed trim above the threshold switches automatic trimming off. |
| `Malloc.MallocState.Free` | library/clib/malloc.c:4690-4797 | Exactly the given block goes, all other blocks keep every word, the heap is coalesced again; null changes nothing. |
| `Malloc.MallocState.GrowWhole` | library/clib/malloc.c:3062-3064 | The block takes the whole space. |
| `Malloc.MallocState.SplitBack` | library/clib/malloc.c:4882-4887 | The block takes the front of the space; the rest is given back and consolidated. |
| `Malloc.RoomBehind` | library/clib/malloc.c:4829-4890 | The tests on the chunk behind a block say exactly whether the bytes asked for are free of all other blocks and end before the top does. |
| `Malloc.MallocState.TryReallocChunk` | library/clib/malloc.c:4819-4896 | Resizes in place if and only if the bytes asked for, counted from the block, end before the top does and no other block starts among them; otherwise nothing changes. |
| `Malloc.MallocState.Shrink` | library/clib/malloc.c:4829-4838 | A remainder is given back exactly if it makes a chunk. |
| `Malloc.MallocState.GrowIntoTop` | library/clib/malloc.c:4839-4850 | The block grows to exactly the request. |
| `Malloc.MallocState.GrowIntoDv` | library/clib/malloc.c:4851-4872 | The block grows into the designated victim, with less than 16 bytes to spare. |
| `Malloc.MallocState.SplitVictim` | library/clib/malloc.c:4855-4863 | The block takes the front of the designated victim, and the rest is the new one. |
| `Malloc.MallocState.GrowIntoNext` | library/clib/malloc.c:4873-4890 | The block grows into a binned chunk, with less than 16 bytes to spare. |
| `Malloc.MallocState.CopyBlock` | library/clib/malloc.c:5228-5229 | The words arrive unchanged and no other block changes. |
| `Malloc.MallocState.MoveBlock` | library/clib/malloc.c:5225-5232 | A new block with the whole old content replaces the old one, or nothing changes, if and only if neither bins, victim, top nor MORECORE's answer can serve. |
| `Malloc.MallocState.Realloc` | library/clib/malloc.c:5193-5236 | The pointer stays if and only if the new size, counted from the block, ends before the top does and no other block starts in it; content is kept up to the smaller size, in place or moved; fails, keeping the old block, if and only if there is neither room in place nor anywhere else. |
| `Malloc.MallocState.Alignment` | library/clib/malloc.c:4900-4906 | The least power of two from 16 on that is not below the alignment asked for. |
| `Malloc.NeverAligned` | library/clib/malloc.c:4902-4906 | For every alignment above 2^31 no turn of the doubling loop reaches it: the loop does not end. |
| `Malloc.MallocState.SplitFront` | library/clib/malloc.c:4942-4947 | The front of a new block is given back; the rest is the block. |
| `Malloc.MallocState.CutBlock` | library/clib/malloc.c:4920-4964 | An aligned block of the wanted size remains of a larger one, the lead and the tail are given back. |
| `Malloc.MallocState.GiveTail` | library/clib/malloc.c:4950-4960 | Spare room worth a chunk is given back from the end of a block. |
| `Malloc.MallocState.InternalMemalign` | library/clib/malloc.c:4898-4970 | The block is aligned, large enough, with at most 16 bytes of slack, and the only change to the blocks; fails if and only if the padded request overflows or cannot be served. |
| `CoapOption.StandardHeader` | middleware/coap/option.c:326-379 | The header written is the standard's if and only if neither delta nor length is 269. |
| `CoapOption.Parse` | middleware/coap/option.c:37-115 | An accepted option lies within the bytes given, and its size is its header and its value. Which bytes are accepted, and as what, is in the next three rows. |
| `CoapOption.ParseAccepts` | middleware/coap/option.c:37-115 | Bytes are accepted if and only if they start with an option in the standard's form: nibbles, extended delta, extended length and value, for a delta up to 65548 and a value of up to 65804 bytes. |
| `CoapOption.ParseStarting` | middleware/coap/option.c:37-115 | Of such bytes the delta modulo 16 bits, the length and the position of the value are what the form says. |
| `CoapOption.AcceptedStarts` | middleware/coap/option.c:54-110 | Every accepted option is in that form, for the delta and the value that its bytes stand for. |
| `CoapOption.LargeDeltaExamples` | middleware/coap/option.c:63-81 | The bytes for delta 65536 are taken for delta 0, those for 65549 are refused. |
| `CoapOption.ParseIgnoresPast` | middleware/coap/option.c:44-110 | Bytes behind the buffer never influence the outcome, although a truncated header makes the parser look there. |
| `CoapOption.MarkerIsNoOption` | middleware/coap/option.c:58-62 | The payload marker never parses as an option. |
| `CoapOption.ParseStandard` | middleware/coap/option.c:37-115 | Every option in the standard's form parses back exactly, whatever follows. |
| `CoapOption.Parse269` | middleware/coap/option.c:336-376 | With 269 in a field the parser reads 13 there. |
| `CoapOption.OptionRoundTrip` | middleware/coap/option.c:381-406 | Encoding then parsing gives back delta, length and value position if and only if neither field is 269. |
| `CoapOption.Delta269Example` | middleware/coap/option.c:338-345 | The concrete bytes for delta 269, which parse as delta 13. |
| `CoapOption.AccessorsAgree` | middleware/coap/option.c:219-316 | On every accepted option the unchecked accessors for delta, length and value agree with the parser, the length modulo 16 bits. |
| `CoapOption.SizeAgrees` | middleware/coap/option.c:318-324 | Parsing as if the buffer never ended gives the same result for every accepted option. |
| `CoapIterator.ListRoundTrip` | middleware/coap/option.c:156-204 | Iterating over an encoded list, up to the end or the payload marker, gives back all numbers and values if and only if no delta and no length is 269. |
| `CoapIterator.FilterRange` | middleware/coap/bits.h:72-77 | A filter lookup is right if and only if the number is below 256 or lands out of range after the cut to 8 bits. |
| `CoapIterator.FilterAlias` | middleware/coap/option.h:148-151 | Option 261 passes a filter for option 5. |
| `CoapIterator.SelectedStep` | middleware/coap/option.c:176-200 | Filtered iteration, defined as picking from the options before the first that is out of the filter's range, unfolds one option at a time. |
| `CoapIterator.OptIterator.constructor` | middleware/coap/option.c:117-142 | Iteration starts behind header and token, or is marked bad exactly if there is nothing there. |
| `CoapIterator.OptIterator.OptFinished` | middleware/coap/option.c:144-154 | True exactly at the end, at the payload marker, or after an error. |
| `CoapIterator.OptIterator.Advance` | middleware/coap/option.c:168-201 | One turn delivers the next wanted option, skips one, or ends, and always consumes bytes. |
| `CoapIterator.OptIterator.Next` | middleware/coap/option.c:156-204 | Successive calls deliver exactly the wanted options, in order, with position and number, then nothing. |
| `CoapWriter.HeaderFits` | middleware/coap/option.c:326-379 | An accepted header fits the room given if and only if the length test was not one short, and never exceeds it by more than one byte. |
| `CoapWriter.OneShortExample` | middleware/coap/option.c:357-366 | With one byte of room a value of 13 bytes is accepted, and two bytes are written. |
| `CoapWriter.RoomCases` | middleware/coap/option.c:326-379 | An accepted header that does not fit is exactly the one-short case, and a header that fits is accepted. |
| `CoapWriter.WidestHeader` | middleware/coap/option.c:326-379 | Five bytes of room are always accepted and enough. |
| `CoapWriter.PutDelta` | middleware/coap/option.c:333-355 | Written exactly if there is room: the delta field and its bytes, and nothing outside. |
| `CoapWriter.PutLength` | middleware/coap/option.c:357-376 | The same for the length, next to the delta already there. |
| `CoapWriter.SetHeader` | middleware/coap/option.c:326-379 | Returns 0 exactly if the room tests fail, else leaves exactly the header at its place. |
| `CoapWriter.EncodeOption` | middleware/coap/option.c:381-406 | Its assertion fails exactly in the one-short case, with the header's last byte written behind the room; otherwise returns 0 exactly if the encoded option exceeds the room, else leaves exactly that encoding, and nothing outside the room changes. |
| `CoapWriter.ListGrows` | middleware/coap/pdu.c:176-205 | An option encoded with the difference to the last number extends the encoded list. |
| `CoapPdu.Pdu.constructor` | middleware/coap/pdu.c:42-53 | The message is its header and token, without options. |
| `CoapPdu.Pdu.AddOption` | middleware/coap/pdu.c:176-205 | What is written stays the header and the encoded list of the options added; the option is refused exactly if out of order or too long, and then nothing changes; the assertion on its header fails exactly in the one-short case. |
| `CoapPdu.Pdu.AddData` | middleware/coap/pdu.c:239-260 | Marker and data are appended exactly if there is room for both; no data is always fine. |
| `CoapPdu.MessageRoundTrip` | middleware/coap/pdu.c:176-260 | The iterator reads back from a message exactly the options added, with or without data behind them, if and only if no delta and no length is 269. |
| `CoapEncode.Fls` | middleware/coap/encode.c:17-22 | The number of significant bits. |
| `CoapEncode.ShortestValue` | middleware/coap/encode.h:38-50 | The shortest form of a number stands for that number. |
| `CoapEncode.ShortestIsShortest` | middleware/coap/encode.h:44-50 | No byte string for the same number is shorter. |
| `CoapEncode.DecodeVarBytes` | middleware/coap/encode.c:24-31 | The number the bytes stand for, modulo 2^32; exact up to four bytes. |
| `CoapEncode.EncodeVarBytes` | middleware/coap/encode.c:33-47 | Leaves the shortest form at the front of the buffer, and the rest of the buffer alone. |
| `CoapEncode.Exponent` | middleware/coap/encode.h:34-36 | The exponent that brings the value into the eight bits of mantissa range. |
| `CoapEncode.FpDownIsFloor` | middleware/coap/encode.h:34-35 | Encoding downwards decodes to the greatest representable value that is not above. |
| `CoapEncode.FpUpIsCeiling` | middleware/coap/encode.h:36-36 | Encoding upwards decodes to the least representable value that is not below, carry into the exponent included. |
| `CoapBlock.Rescaled` | middleware/coap/block.c:104-107 | A smaller block size with the shifted number starts at the same byte. |
| `CoapBlock.BlockRoundTrip` | middleware/coap/block.c:21-57 | Number, More bit and size read back from at most three bytes as they were written. |
| `CoapBlock.DecisionMeans` | middleware/coap/block.c:79-109 | Refused exactly if neither 16 bytes nor the rest of the data are available; else the offset is kept if and only if the rescaled number fits 20 bits, the payload is not larger than what is available, the size falls only if it has to and then to the largest available, and More agrees with `coap_more_blocks`. |
| `CoapBlock.WhenAddable` | middleware/coap/block.c:79-115 | With four bytes of room or more the block fits behind its option if and only if the option takes at most three bytes or the payload leaves room for it; with less the available room has wrapped around and the size asked for is kept. |
| `CoapBlock.NoRoomExample` | middleware/coap/block.c:79-84 | With no room left the call still settles on a block of 16 bytes, which cannot be added. |
| `CoapBlock.FourNotEnoughExample` | middleware/coap/block.c:79-115 | With 20 bytes left 16 are found available, but behind the five bytes of the option they do not fit. |
| `CoapBlock.Block.Choose` | middleware/coap/block.c:79-109 | Number, More bit and size are those of the decision function, whose meaning is proved for all inputs. |
| `CoapBlock.Block.WriteBlockOpt` | middleware/coap/block.c:59-118 | Which error for which input; on success the block is the one decided on, the option is added if and only if it fits, and the block can then be added if and only if room, delta and value length say so. |
| `CoapBlock.Reassembled` | middleware/coap/block.c:120-132 | From any block on, whatever smaller sizes are switched to on the way, the payloads are the rest of the data, once and in order, if the numbers are not cut. |
| `CoapBlock.TwentyBits` | middleware/coap/block.h:37-41 | No number of a transfer is cut to 20 bits if and only if the data has at most 2^20 blocks of the last size. |
| `CoapBlock.ShiftFits` | middleware/coap/block.c:73-73 | For such numbers the 32-bit shifts of block.c and block.h do not wrap. |
| `CoapBlock.AddBlock` | middleware/coap/block.c:120-132 | Adds the block exactly if it lies in the data and there is room for it and the marker, and then exactly its bytes. |
| `CoapBlock.WholeTransfer` | middleware/coap/block.c:120-132 | A transfer from the first block on delivers the data. |
| `SpinLock.StepScond` | include/arc/arc_mp.h:69-78 | When a store-conditional succeeds nobody held the lock, and after it exactly this core does. |
| `SpinLock.StepKeeps` | include/arc/arc_mp.h:62-138 | Every atomic step of every core keeps the lock invariant. |
| `SpinLock.Reachable` | include/arc/arc_mp.h:62-138 | The invariant holds in every state of every interleaving of any number of cores. |
| `SpinLock.MutualExclusion` | include/arc/arc_mp.h:62-138 | In every interleaving at most one core is between acquire and release, and the lock word is then LOCKED. |
| `SpinLock.OwnAnswer` | arc/arc_connect.c:41-75 | A command of the four types returns the device's answer to a word with its own command in the low byte and its own parameter above, and to its own data if its type has any, whatever the other cores do. |
| `SpinLock.CommandWord` | arc/arc_connect.c:49-49 | The command word of an 8-bit command has the command in its low byte and the parameter, less the bits shifted out, above it. |
| `SpinLock.WritesByType` | arc/arc_connect.c:52-70 | In every run the data register is written by the two types with data only, with their own data, and the command register by the four command types only, with their own command and parameter. |
| `SpinLock.TryAnswer` | include/arc/arc_mp.h:86-120 | `arc_spin_trylock` returns 1 after taking the lock, and 0 only having seen it locked. |
| `SpinLock.LogIsFaithful` | arc/arc_connect.c:41-75 | The recorded commands and answers are a sequential history of the device. |
| `Udma.OpField` | arc/arc_udma.c:462-463 | Writing the operation field changes no other bit of a control word. |
| `Udma.IntField` | arc/arc_udma.c:469-470 | Writing the interrupt enable bit changes no other bit. |
| `Udma.ProcessedFields` | arc/arc_udma.c:453-481 | The last descriptor becomes a single transfer with the interrupt setting, others stay manual or become auto-linked; no other bit changes. |
| `Udma.ProcessDesc` | arc/arc_udma.c:453-481 | Every descriptor of a chain of any length is rewritten, by its own old control word and whether it is the last, and the links stay. |
| `Udma.StepSafe` | arc/arc_udma.c:496-856 | Every call and interrupt keeps that a struct's channel is its own and that enabled channels have owners. |
| `Udma.OneOwner` | arc/arc_udma.c:531-539 | No channel has two owners. |
| `Udma.StepStale` | arc/arc_udma.c:627-682 | Slots and structs stay one-to-one if and only if no struct that has a channel is initialised or reserved for. |
| `Udma.StepEnabled` | arc/arc_udma.c:837-856 | Busy structs stay on enabled channels if and only if no channel that does not run is asked for its status. |
| `Udma.PhantomStuck` | arc/arc_udma.c:684-703 | After that the struct is busy and can not be started. |
| `Udma.PhantomExample` | arc/arc_udma.c:210-228 | A struct that was only reserved becomes busy when its status is checked, whatever the error and activity bits. |
| `Udma.StepBusyBound` | arc/arc_udma.c:790-812 | Every busy struct keeps a channel if and only if no busy one is released. |
| `Udma.StepBusy` | arc/arc_udma.c:496-856 | A busy struct stops being busy if and only if its channel finishes, it is stopped, cleared or polled as finished, or it is initialised or granted a channel again. |
| `Udma.StepOwner` | arc/arc_udma.c:649-812 | A struct loses its channel if and only if it is released, granted another one or initialised. |
| `Udma.StepStatus` | arc/arc_udma.c:496-856 | Which status each event gives a struct, and that every other event leaves it. |
| `Udma.RunSafe` | arc/arc_udma.c:402-856 | In every state of every run of any calls and interrupts the invariant holds. |
| `Udma.RunStale` | arc/arc_udma.c:402-856 | Ownership is one-to-one all along a run if and only if no struct with a channel is initialised or reserved for in it. |
| `Udma.RunEnabled` | arc/arc_udma.c:402-856 | Busy structs are on enabled channels all along a run if and only if no channel that does not run is polled in it. |
| `Udma.RunBusy` | arc/arc_udma.c:402-856 | Between a state where a struct is busy and a later one where it is not, there is one of the ending events for it. |
| `Udma.RunOwner` | arc/arc_udma.c:402-856 | Between a state where a struct has a channel and a later one where it has not, it was released, granted another one or initialised. |
| `Udma.LastSet` | arc/arc_udma.c:402-856 | In every run a known struct has the status that the last event which gave it one left. |
| `Udma.RunStopped` | arc/arc_udma.c:743-764 | A status is DMA_STOP if and only if the last event that gave the struct a status was a stop while busy. |
| `Udma.RunError` | arc/arc_udma.c:496-529 | A status is DMA_ERROR if and only if the last event that gave the struct a status was an error interrupt or a poll that showed an error. |
| `Udma.RunOrphan` | arc/arc_udma.c:790-812 | In every run a busy struct without a channel has been released while busy. |
| `Udma.ReservedBusy` | arc/arc_udma.c:649-682 | Where a struct that has a channel is not reserved for, a reservation ends a busy status only after a release while busy. |
| `Udma.FirstFree` | arc/arc_udma.c:657-664 | The first free slot, or none exactly if there is none. |
| `Udma.Dmac.constructor` | arc/arc_udma.c:402-451 | No struct is known, no channel has an owner or is enabled. |
| `Udma.Dmac.InitChannel` | arc/arc_udma.c:627-638 | The struct is known, idle and without channel; a slot that held it still does. |
| `Udma.Dmac.ConfigChannel` | arc/arc_udma.c:640-647 | Only the descriptor changes. |
| `Udma.Dmac.Reserve` | arc/arc_udma.c:649-682 | Gets the channel asked for, or the first free one, exactly if it is free; struct and slot then name each other, nothing else changes, and the invariant holds in every state, after whatever calls. |
| `Udma.Dmac.Start` | arc/arc_udma.c:684-741 | Succeeds exactly for a bound struct with a descriptor that is not busy, and then leaves it busy, enabled and its chain processed; otherwise nothing changes. |
| `Udma.Dmac.Stop` | arc/arc_udma.c:743-764 | Fails exactly for a struct without descriptor or channel, changing nothing; else the channel is disabled, busy becomes stopped and every other status stays. |
| `Udma.Dmac.Clear` | arc/arc_udma.c:766-788 | Fails in the same cases; else the struct is idle and its channel is enabled. |
| `Udma.Dmac.Release` | arc/arc_udma.c:790-812 | The channel is free and disabled; the status stays. |
| `Udma.Dmac.Interrupt` | arc/arc_udma.c:496-529 | The channel has an owner, exactly that struct gets the outcome, and the channel is disabled. |
| `Udma.Dmac.InterruptAll` | arc/arc_udma.c:542-566 | All owners of pending channels get the outcome and nobody else. |
| `Udma.Dmac.WaitChannel` | arc/arc_udma.c:210-228 | Busy unless the completion bit is set; then error, busy or idle by the error bit first and the activity bit second. |
| `Udma.Dmac.Check` | arc/arc_udma.c:837-856 | Idle, error and busy as the completion, error and activity bits say, exactly if the struct is usable and runs without interrupts, else as before; returns 0, 1, 2 and 3 for idle, busy, error and stopped, or -1. |
| `Getopt.MoveBack` | library/clib/ya_getopt.c:131-136 | One argument moves behind a stretch that keeps its order. |
| `Getopt.RotateArgs` | library/clib/ya_getopt.c:129-138 | The nested loops swap two adjacent stretches, both in order. |
| `Getopt.PickAll` | library/clib/ya_getopt.c:129-138 | Consumed and skipped arguments together are the arguments seen. |
| `Getopt.LaidPermutation` | library/clib/ya_getopt.c:129-138 | The layout kept during a scan is a permutation of the original arguments. |
| `Getopt.RotateLaid` | library/clib/ya_getopt.c:122-140 | The deferred rotation moves what was consumed in front of what was skipped, both in original order. |
| `Getopt.SkippedTo` | library/clib/ya_getopt.c:157-172 | The search from the first skipped argument on ends at the first option among the unread ones. |
| `Getopt.OverreadIsDash` | library/clib/ya_getopt.c:198-219 | A call reads behind the end of a string if and only if it reaches a lone dash where it looks for an option. |
| `Getopt.PastIgnored` | library/clib/ya_getopt.c:198-254 | Otherwise the bytes behind the strings make no difference. |
| `Getopt.DashExample` | library/clib/ya_getopt.c:198-219 | For the argument list of a lone dash the bytes behind the option string decide what is returned. |
| `Getopt.DashElsewhere` | library/clib/ya_getopt.c:142-156 | As an option's argument, and behind the end of the options, a lone dash is fine. |
| `Getopt.NonOption` | library/clib/ya_getopt.c:148-173 | A non-option is delivered as 1, ends the scan or is passed over, by mode. |
| `Getopt.CallProgress` | library/clib/ya_getopt.c:98-196 | A call uses up no more than there is; unless it ends the scan or reads behind a string it uses up an argument or shortens a cluster, so scans end. |
| `Getopt.HiddenExample` | library/clib/ya_getopt.c:174-177 | An end mark behind a skipped argument ends the scan with the skipped one in front of the index. |
| `GetoptLaws.Attached` | library/clib/ya_getopt.c:239-243 | `-cv`, for a letter that takes an argument: the argument is all that stands behind the letter, and one argument is consumed. |
| `GetoptLaws.Separate` | library/clib/ya_getopt.c:225-238 | `-c v`, for a required argument: it is the next one, and both are consumed. |
| `GetoptLaws.Lacking` | library/clib/ya_getopt.c:225-235 | `-c` at the end: reported as missing, with a colon exactly if the option string starts with one. |
| `GetoptLaws.OptionalNone` | library/clib/ya_getopt.c:219-224 | `-c`, for an optional argument: there is none, whatever follows. |
| `GetoptLaws.Flag` | library/clib/ya_getopt.c:244-253 | A letter without argument leaves the rest of the cluster for the next call, and consumes the cluster if it is the last; in a cluster just reached and in a pending one alike. |
| `GetoptLaws.Unknown` | library/clib/ya_getopt.c:203-218 | An unknown letter is reported, and the rest of the cluster is left, or dropped where long options may start with one dash. |
| `GetoptLaws.LongIs` | library/clib/ya_getopt.c:263-300 | `--s`, and `-s` where long options may start with one dash, is handled by the first entry whose name it is, alone or followed by an equals sign. |
| `GetoptLaws.LongValue` | library/clib/ya_getopt.c:286-318 | `--name=v`: the argument is v, refused by an option that takes none. |
| `GetoptLaws.LongName` | library/clib/ya_getopt.c:268-318 | `--name`: a required argument is the next one and is missing at the end; other options have none. |
| `GetoptLaws.LongUnknown` | library/clib/ya_getopt.c:301-307 | A long option that no entry names is reported and consumed. |
| `GetoptLaws.EndMark` | library/clib/ya_getopt.c:142-177 | The end mark is consumed and ends the scan; so does the end of the arguments, where nothing is consumed. |
| `Getopt.FindChar` | library/clib/ya_getopt.c:201-201 | The first occurrence, or none exactly if there is none. |
| `Getopt.Scanner.constructor` | library/clib/ya_getopt.c:65-81 | Permutation is on exactly for a leading '+' or POSIXLY_CORRECT, delivery of non-options exactly for a leading '-'; nothing is consumed or skipped yet. |
| `Getopt.Scanner.Settle` | library/clib/ya_getopt.c:122-140 | The pending rotation is carried out, and the index is back behind the consumed arguments. |
| `Getopt.Scanner.Skip` | library/clib/ya_getopt.c:157-172 | Exactly the leading non-options among the unread arguments are skipped, the ones skipped before are passed again, and an option is found exactly if there is one. |
| `Getopt.Scanner.ShortOpts` | library/clib/ya_getopt.c:198-254 | Result, argument, rest of the cluster, arguments consumed and reads behind strings are those of the call on values, of which the rows of `GetoptLaws` say what it does with each way of writing an option. |
| `Getopt.Scanner.UseLong` | library/clib/ya_getopt.c:267-318 | Result, argument and arguments consumed, for all cases of a matching long option. |
| `Getopt.Scanner.LongOpts` | library/clib/ya_getopt.c:256-318 | The first matching entry decides; unknown names consume one argument, or none if short options are tried next. |
| `Getopt.Scanner.NextArg` | library/clib/ya_getopt.c:146-181 | A non-option is delivered, ends the scan or is skipped as the mode says; at the end of the scan the layout says what is left. |
| `Getopt.Scanner.LongArg` | library/clib/ya_getopt.c:178-180 | Does what the long option says for the arguments as they were given; the layout is kept. |
| `Getopt.Scanner.Cluster` | library/clib/ya_getopt.c:183-195 | Does what the cluster says for the arguments as they were given; the layout is kept unless a string is read behind its end. |
| `Getopt.Scanner.TakeOption` | library/clib/ya_getopt.c:174-195 | Does what the option at the next unread argument says. |
| `Getopt.Scanner.Scan` | library/clib/ya_getopt.c:142-195 | Does what the call on the unread original arguments does. |
| `Getopt.Scanner.GetOpt` | library/clib/ya_getopt.c:98-196 | With rotation in place and deferred over calls, result, `optarg`, rest of the cluster and the arguments skipped and consumed are those of a call that simply goes through the original arguments; at the end of the scan the arguments left are the skipped ones and then the unread ones, exactly unless the rotation is still due; the arguments stay a permutation. |
| `GetoptOrder.WholeKeeps` | library/clib/ya_getopt.c:98-196 | Arguments consumed, skipped and left by a whole scan are all there were. |
| `GetoptOrder.Rearranged` | library/clib/ya_getopt.c:98-196 | From any state on, a permuting scan gives the results of a stopping scan of the consumed arguments followed by anything that ends it, exactly unless an option lacks its argument and finds one there. |
| `GetoptOrder.PermutationMeans` | library/clib/ya_getopt.c:98-196 | Scanning with permutation gives the results of scanning the consumed, skipped and left arguments in that order up to the first non-option, and leaves the same, if and only if no option lacks its argument behind skipped ones. |
| `GetoptOrder.LackingExample` | library/clib/ya_getopt.c:219-235 | `file -f`, with an option that takes an argument: none is found, but in the rearranged arguments it is. |

## Left out

- mmap: chunks and segments from mmap, and `mremap` (the model has HAVE_MMAP off, as on targets without an MMU).
- Several segments: `add_segment`, `prepend_alloc`, `release_unused_segments`; MORECORE's answer extends the one segment or fails.
- MORECORE's own protocol: retries, partial failure and the footprint limit are behind the answer `core`; footprint statistics are not modelled.
- Usage errors: callers pass null or a block they own; for those the run-time checks are proved to hold, what they do otherwise is not modelled.
- FOOTERS, mspaces, `dlcalloc`, `dlindependent_calloc`, `dlbulk_free`, `dlrealloc_in_place`, `dlmallinfo`: each would only add easy members on top of these.
- `dlfree` and `dispose_chunk` consist of the same consolidation code; the model has it once, in `Backward` and `Forward`.
- The granularity is taken as any positive number with rounding by remainder; the source rounds with a mask, for powers of two.
- `memcpy` in `realloc` works on whole words; the copy is proved to be a multiple of four bytes long.
- InternalMemalign: alignments up to 2^31, because the source's doubling loop does not end above that, which `NeverAligned` proves.
- Alignment: the same.
- SpinLock: sequentially consistent memory; barriers, fairness, and the variant that only disables interrupts.
- Udma: register-level address gaps, `dmac_wait_channel`'s busy wait, cache flushes, callbacks running inside an interrupt, and the linked-transfer check of internal version 1.
- Interrupt: raised only for an enabled channel, which the invariant then gives an owner; the source dereferences the slot without a look.
- Getopt.Scanner.GetOpt: calls after the one that ends the scan or reads behind a string, the reset by `optind == 0`, error messages, `optopt`, `opterr` and the stores through `flag` and `longindex`.
- EncodeOption: the value is given; a null value pointer, which leaves the bytes as they are, is not modelled.
- Reassembled: numbers are not cut to 20 bits; `TwentyBits` proves when that makes no difference.
- WholeTransfer: the same.
- `coap_check_option`, `coap_get_data`, token and header handling, and the rest of the CoAP stack (transactions, subscriptions, resources).
- Everything else in the repository: board support, device drivers, lwIP, FreeRTOS, mbedTLS, FatFs and the other middleware.
