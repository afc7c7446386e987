# A verified model of the lpps memory allocator and its companions

This project models six pieces of the repository in Dafny and proves what
their authors promise of them.

**The mspace allocator** (`exts/lpps/source/lpps/malloc.cpp`) is a boundary-tag,
best-fit allocator inside one segment that its client supplies. Free chunks live
in circular lists for small sizes and in bitwise digital tries for large ones;
two 32-bit maps tell which of these bins are in use; a designated victim and a
top chunk serve the rest. The model is the heap that the settings in lines
533-542 leave: footers and debugging checks on, no mmap, no MORECORE. The class
`Mstate` holds the state record and the words of memory, one column for each
field of a chunk, indexed by address. The allocator writes through these
columns as the C code does. Two ghost fields say what it all means: where the
chunks below top start, and which of them are binned, in which order and under
which trie. `Mstate.Inv` ties the two together. Every operation is a method
that keeps it and says exactly how the chunks in use change:

- malloc, with its choice of chunk and its completeness: null only if no free
  chunk can serve the request;
- free, in any order or in bulk, with one and the same resulting layout, and with
  the place where each free chunk goes;
- realloc, with the bytes that survive and those that are not touched;
- memalign; and the creation of a space.

`Rooms` is the free room of a heap as a value: which chunk serves a request, what
becomes of the rest, and where a chunk goes that is given back. The methods are
proved to follow it, so that `Shapes`, the pointers held with the chunks in use and
the free room, is a machine with one outcome for each request; `Undo` says what
freeing a block undoes.

All asserts of the debugging checks are shown to hold in every sound heap, and
`Runs.Run` puts this together for whole runs: what clients see of the heap is a
machine of blocks of bytes (`Clients.Follows`), which allocating, resizing,
freeing and writing change in their own place only, and in which a request for
memory fails exactly when the blocks leave no gap for it, since free chunks are
just the gaps between chunks in use (`Gaps`). The run-time checks that the C
code makes (`RTCHECK`, `assert` in the macros and the footer check of free) stand
as Dafny asserts where it makes them, and the failing branches, which are thereby
dead, are not written out.

The bytes that clients keep are a column of their own. `Cells` shows that the
fields which mean something never overlap client bytes, and that whatever is
written into a chunk in use leaves the heap sound. Every such write, by a client
or by `memcpy` and `memset`, goes through `Cells.PutBytes`, which asks that the
chunk be in use and leaves anything at all in the words that the allocator would
read there. The other way round, `Guards` watches what the allocator writes:
soundness includes that the words over the chunks under watch, in every column,
are what they were when the watch began, so an operation that keeps the heap
sound has not written into any of them. `Runs.Step` watches every chunk a request
does not name, and a block that is resized in place. Freeing a chunk leaves
anything at all in the column of client bytes where the chunk was
(`Free.DisposeChunk`), since the allocator has its fields there from then on; so
what a moved block keeps has been copied before.

**The memory space of the daemon** (`mem_alloc`, `mem_free`, `mem_realloc` at
the end of the same file) adds a free counter and a list of the live blocks.
`Spaces` is what its clients see over whole runs.

**The configuration parser** (`boards/rpi3/boot/patch/xconfig.c`) scans a
document and records offsets through which a value can be replaced in the raw
text. `XmlDocs` is the grammar of the documents it accepts: a header, then a
root named config; names without `/`, `>` and a leading `!`; values that
start with an alphanumeric (or `>`, `?`, `/`) and hold no `<`; at least one
skippable character before the first child of an element and behind a tag in
short form; comments up to the first `-->`. `XmlScan.Step` is one turn of the scanning
loop on any text; `XmlEdit.Config` is the parser as it runs.

**Tuple lists** (`exts/lpps/source/lpps/plist.cpp`): parse, dump in pieces,
merge, sort.

**The CRC** (`exts/xconfig/source/xconfig/crc/crc32.cpp`) against bitwise
division by the reflected polynomial (RFC 1952, section 8).

**The dependency walk** (`scripts/filterlibs.py`) over an arbitrary finite graph
of packages.

## Where the code does not do what it says

- The form of `compute_tree_index` for x86 keeps the size in 32 bits
  (`malloc.cpp:2849`). It is wrong for some sizes of 2^40 bytes and more;
  `TreeIndex.ClzAgrees` says for which. The portable form is right for all
  sizes, and the allocator is modelled with it.
- `internal_memalign` never returns for an alignment above 2^63: its loop
  wraps to zero. `Align.RoundingEnds` gives the exact condition, and the method
  requires it; `Align.NeverReached` is a case.
- `check_top_chunk` reads the size of top back from its head word; that works
  only when base + capacity is a multiple of 4, and not when less than 8 bytes are
  left for top, since the head of the fake chunk is then written over it
  (`Create.TopChecks`, `Create.TopFails`). Later on, top may get that small when
  base + capacity is 4 above a multiple of 16 (`Create.HeadsApart`,
  `Create.HeadsMeet`), which does no harm (`Cells.TopsMeet`).
- `init_user_mstate` does not check that the alignment of the base leaves room:
  a capacity that passes the check of `create_mspace_with_base` by less than the
  alignment takes wraps the size of top (`Create.TopSizeReal`,
  `Create.TopSizeWraps`). `Create.FateOf` tells these cases apart by base and
  capacity, and creation ends in one of them.
- `mem_alloc` stores sizes in 32 bits, so the counter of a space of 2^32 bytes or
  more can lose bytes. `Memspace.MemAlloc` and `Memspace.MemRealloc` say exactly
  which calls do it, `Memspace.Conserved` that smaller spaces never do, and
  `Memspace.CounterFails` is a case. `mem_alloc` also adds the header to the
  size without a look at the wrap-around: `Memspace.RequestHolds`,
  `Memspace.RequestFails`.
- `lpps_ppsl_dump` touches the character before its buffer when it has nothing to
  write from a list with items; `Plist.Dump` says exactly when, and
  `Plist.DumpTouchesBefore` is a case.
- `lpps_ppsl_parse` takes the first line for a header when an `@` stands
  anywhere in the text, and runs past its buffer when the text has no end of line
  then, or ends inside an attribute or a type (`Plist.Parse`, `Plist.PastExactly`,
  `Plist.ParseRunsPast`); `Plist.RoundTrip` says exactly when a list survives, and
  `Plist.OneItemLost` is one that does not.
- `package_trace` does not mark its root as visited, so a root that lies on a
  cycle is printed twice: exactly then by `Filterlibs.TimesPrinted`, and for two
  packages in `Filterlibs.CyclePrintsTwice`.

## Reading the project

`Inv` is `Sound(Dv())`: the heap is sound and only the designated victim is free
and not binned. Inside an operation chunks are loose for a while: `Sound(out)`
says which. `TagInv` (boundary tags) and `BinInv` (bins) are the two halves. The
lemmas in `Cuts` say what each way of recutting a stretch of chunks does to the
tags; those in `Tries`, `TreeLinks`, `Relink` and `TakeLarge` what linking does to
the trees. Where a proof hides a definition, it does so to stay small.

## Model

| member | source | states |
|---|---|---|
| Runs.Run | exts/lpps/source/lpps/malloc.cpp:5509-5787 | From an empty heap, any script of allocations, aligned allocations, resizes, frees, bulk frees and client writes, by clients that name only what they hold: what the clients see follows the simple machine of blocks of bytes at every step, a request for memory fails exactly when the blocks themselves leave no room for it, blocks are aligned and never overlap, the heap stays sound, all debugging checks pass after every step, and the chunks, top and its foot add up to the segment. The pointers handed out, the chunk sizes and the free room are a run of the machine in Shapes. |
| Runs.Step | exts/lpps/source/lpps/malloc.cpp:5509-5787 | One request keeps the heap sound and the pointers held exactly those of the chunks in use; the blocks and their bytes change as the request says and no further. No byte of any chunk that the request does not name changes, neither the bytes its client keeps nor what any field would read there; over the bytes that a block resized in place keeps the allocator writes no field, and a client write changes only the words that it touches. Which address comes out, how large each chunk is, and where everything free goes (bins with their queues, dv, top, the threshold for trimming) is the one outcome that Shapes.Reshaped allows. |
| Shapes.OneOutcome | exts/lpps/source/lpps/malloc.cpp:5509-5787 | Pointers held, chunks in use and free room before a request determine all three after it: one chunk is the one to serve it, one address is the first aligned one, a block stays exactly when it is not stuck, and everything given back has one place to go. |
| Shapes.SameRuns | exts/lpps/source/lpps/malloc.cpp:5509-5787 | Two runs of one script that start alike are the same at every step, so where a block comes to lie depends on nothing but the requests. |
| Undo.FreeUndoes | exts/lpps/source/lpps/malloc.cpp:5509-5722 | Freeing a chunk just allocated restores the free room exactly if the chunk was cut from top or from dv, or was the newest of its bin and nothing of it became dv. |
| Undo.FreeUndoesAllocate | exts/lpps/source/lpps/malloc.cpp:5509-5722 | Of the whole machine, an allocation and the release of its block give back the pointers and the chunks in use always, and the free room exactly then, and if top was no larger than the threshold for trimming in case it was cut from there. |
| Undo.SpacedIs | exts/lpps/source/lpps/malloc.cpp:5106-5146 | In a sound heap no two free chunks touch, top included, and every binned chunk is once in the queue of its size. |
| Runs.Serve | exts/lpps/source/lpps/malloc.cpp:5509-5787 | The same for the calls themselves, under any watch that leaves out the chunks the request names. |
| Runs.ServeResize | exts/lpps/source/lpps/malloc.cpp:5744-5787 | The block gets at least the bytes asked for and keeps its first ones; it fails exactly when neither what follows the block nor any gap between blocks has room, and otherwise keeps its address exactly when the blocks around do not box it in. |
| Runs.ServeWrite | exts/lpps/source/lpps/malloc.cpp:2196-2420 | A client write replaces exactly the bytes written, whatever it leaves in the words that the allocator reads as fields there. |
| Clients.ReadsBack | exts/lpps/source/lpps/malloc.cpp:5509-5787 | A client reads back what it put into a block, however long the run between, as long as no request is about that block. |
| Clients.ViewDisjoint | exts/lpps/source/lpps/malloc.cpp:5509-5621 | The blocks handed out by a sound heap are aligned to 16, lie inside the segment and do not overlap. |
| Clients.ViewRegrown | exts/lpps/source/lpps/malloc.cpp:5744-5787 | Resizing, in place or by moving, keeps the first bytes of the block and all bytes of the others, in what clients read. |
| Guards.CutGuarded | exts/lpps/source/lpps/malloc.cpp:2276-2310 | Recutting chunks writes no head word or foot inside a watched chunk that stays in use. |
| Guards.LinkGuarded | exts/lpps/source/lpps/malloc.cpp:3579-3794 | Linking and unlinking, which write only binned chunks and bin headers, do not touch watched chunks. |
| Guards.FreeIsClear | exts/lpps/source/lpps/malloc.cpp:3579-3794 | The links of free chunks and of bin headers lie clear of every chunk in use. |
| Checks.StatePasses | exts/lpps/source/lpps/malloc.cpp:3228-3430 | In a sound heap every assert of the debugging checks holds of every chunk, every binned chunk and every tree node; a chunk is binned exactly when it is free and not the designated victim. |
| Checks.CheckMallocState | exts/lpps/source/lpps/malloc.cpp:3464-3491 | Walking all small bins, tree bins, dv, top and all chunks, no assert fails, and the total found is the segment from its first aligned chunk on, within the footprint. |
| Checks.TraverseAndCheck | exts/lpps/source/lpps/malloc.cpp:3432-3460 | The sizes of the chunks met from the base to top, plus top and its foot, sum up to the whole segment; no two free chunks touch. |
| Checks.BinFind | exts/lpps/source/lpps/malloc.cpp:3396-3429 | Looking only in the bin that the size maps to, down one path of its tree, finds a chunk exactly when it is binned. |
| Checks.RingFind | exts/lpps/source/lpps/malloc.cpp:3402-3406 | Following fd all the way round a ring finds exactly its members, and ends. |
| Checks.DownTo | exts/lpps/source/lpps/malloc.cpp:3409-3418 | Steering by the shifted size reaches the node of a size, or null exactly when no chunk of that size is binned. |
| Checks.TopPasses | exts/lpps/source/lpps/malloc.cpp:3234-3246 | The checks of the top chunk hold. |
| Checks.InusePasses | exts/lpps/source/lpps/malloc.cpp:3262-3270 | The checks of a chunk in use hold, the one on the chunk before it included. |
| Checks.FreePasses | exts/lpps/source/lpps/malloc.cpp:3273-3293 | The checks of a free chunk hold: foot, neighbours in use, links that lead back. |
| Checks.MallocedPasses | exts/lpps/source/lpps/malloc.cpp:3296-3307 | What every allocation promises of a chunk passes the check made on it. |
| Checks.SmallChunkPasses | exts/lpps/source/lpps/malloc.cpp:3372-3393 | A chunk of small bin i passes the checks of that bin. |
| Checks.TreeChunk | exts/lpps/source/lpps/malloc.cpp:3310-3329 | A chunk of a tree bin has the index and size of its ring, and exactly the oldest of its size has a parent; the others have no children. |
| Checks.TreeNodePasses | exts/lpps/source/lpps/malloc.cpp:3330-3356 | Parent and child links are mutual, no node is its own parent, and the left child is smaller than the right one. |
| Layout.LayoutDetermined | exts/lpps/source/lpps/malloc.cpp:5623-5722 | The chunks in use and their sizes determine every other chunk, every head word and where top begins. |
| Layout.OrderDoesNotShow | exts/lpps/source/lpps/malloc.cpp:5106-5146 | Freeing the same chunks in two different orders, or with one bulk free, ends in the same layout. |
| Layout.FreeEach | exts/lpps/source/lpps/malloc.cpp:5623-5722 | Freeing chunks one by one takes exactly those out of the chunks in use. |
| Layout.Tiled | exts/lpps/source/lpps/malloc.cpp:3432-3460 | Every address below top lies in exactly one chunk. |
| Gaps.ExhaustedIsFull | exts/lpps/source/lpps/malloc.cpp:5509-5621 | No free chunk can serve a request exactly when every gap between neighbouring chunks in use is smaller than it and top is no larger. |
| Gaps.StuckIsBoxed | exts/lpps/source/lpps/malloc.cpp:4820-4897 | A block cannot grow in place exactly when the next chunk in use, or the end, leaves it no room. |
| Gaps.GapIsFree | exts/lpps/source/lpps/malloc.cpp:4372-4438 | Every gap between chunks in use is one free chunk. |
| Gaps.FreeIsGap | exts/lpps/source/lpps/malloc.cpp:4372-4438 | Every free chunk fills the gap between two chunks in use. |
| Cells.CellsApart | exts/lpps/source/lpps/malloc.cpp:2196-2420 | The 8-byte words of any two fields that mean anything, of chunks, bins or feet, do not overlap, but for the heads of top and of the fake chunk behind it when top has less than 8 bytes. |
| Cells.TopsMeet | exts/lpps/source/lpps/malloc.cpp:3905-3917 | That is when 4 bytes are left and the segment ends 4 above a multiple of 16; the bit of the fake chunk that is read stays clear. |
| Cells.CellsOutsidePayload | exts/lpps/source/lpps/malloc.cpp:2304-2306 | No field that means anything overlaps the bytes a client may use. |
| Cells.ClientWrites | exts/lpps/source/lpps/malloc.cpp:2196-2420 | Whatever a client writes inside its own chunk, read back through any field, the heap stays sound, the chunks in use stay the same, and neither watched chunks nor the bytes of other clients change. |
| Cells.Memcpy | exts/lpps/source/lpps/malloc.cpp:5776-5778 | A copy between two chunks that are in use at that moment changes just the bytes it writes and the words that these touch, in whatever way they read, and the heap stays sound. |
| Malloc.MspaceMalloc | exts/lpps/source/lpps/malloc.cpp:5509-5621 | A new chunk, aligned, disjoint from the others and in [nb, nb + 32), is the only change; it is an exact small bin, a smallest binned fit whose turn it is, dv, or top, in the order of the source, and its size is nb unless the rest is too small for a chunk. What is left of it goes where the source puts it: for a small request it becomes dv and the old dv is binned, for a large one it is binned, and the rest of dv or top stays dv or top. Null exactly when the request is too large or no free chunk can serve it. |
| Malloc.FromBins | exts/lpps/source/lpps/malloc.cpp:5518-5579 | The binned chunk that serves a request, or none, exactly when every binned chunk that fits has to yield to dv. |
| Malloc.MallocSmall | exts/lpps/source/lpps/malloc.cpp:5518-5567 | Serves a small request from an exact small bin, the next small bin in use or a tree bin; when it does not, only dv or top can. |
| Malloc.FromNextSmall | exts/lpps/source/lpps/malloc.cpp:5539-5562 | Splits the first chunk of the next small bin in use; what is left becomes the designated victim. |
| Malloc.FromDvOrTop | exts/lpps/source/lpps/malloc.cpp:5581-5613 | dv if it is large enough, else top if it is larger, else nothing. |
| Malloc.FromDv | exts/lpps/source/lpps/malloc.cpp:5581-5598 | Splits dv or uses it up. |
| Malloc.FromTop | exts/lpps/source/lpps/malloc.cpp:5601-5611 | Takes the first nb bytes of top, of which something always remains. |
| Malloc.TmallocLarge | exts/lpps/source/lpps/malloc.cpp:4443-4511 | Takes a smallest binned chunk that fits, or nothing exactly when none fits or dv fits at least as tightly. |
| Malloc.TmallocSmall | exts/lpps/source/lpps/malloc.cpp:4514-4549 | Takes a smallest binned chunk that fits from the lowest tree bin; never fails. |
| Malloc.FindBest | exts/lpps/source/lpps/malloc.cpp:4443-4489 | The chunk found is a smallest fit among all binned chunks, and the remainder is what it leaves over. |
| Tmalloc.BestFit | exts/lpps/source/lpps/malloc.cpp:4443-4489 | One exact-match path, then leftmost paths only, find a node no larger than any other that fits. |
| Tmalloc.ExactPath | exts/lpps/source/lpps/malloc.cpp:4451-4470 | The path of the request remembers the deepest right subtree it did not take, which covers every better fit off the path. |
| Tmalloc.SmallestOf | exts/lpps/source/lpps/malloc.cpp:4482-4489 | Going down leftmost children meets a smallest fit of the subtree; too small nodes are refused by unsigned wrap-around. |
| Malloc.ReplaceDv | exts/lpps/source/lpps/malloc.cpp:3643-3652 | The old designated victim is binned and the new one takes its place. |
| Malloc.Split | exts/lpps/source/lpps/malloc.cpp:4500-4504 | A free chunk becomes one in use and a free remainder. |
| Malloc.UseWhole | exts/lpps/source/lpps/malloc.cpp:4498-4499 | A free chunk becomes one in use, whole. |
| Free.MspaceFree | exts/lpps/source/lpps/malloc.cpp:5623-5722 | Exactly the freed chunk leaves the chunks in use, what it held is lost, the bytes of all others stay, and null changes nothing; footer and other run-time checks hold. The free room afterwards is told by the one before: the merged stretch is part of top if top follows it, dv if dv is one of its neighbours, and else the newest of the queue of its size; neighbours leave their queues and all the rest stays. A trim is tried exactly when top has grown above the threshold. |
| Free.DisposeChunk | exts/lpps/source/lpps/malloc.cpp:4372-4438 | Coalescing keeps the heap sound and takes exactly one chunk out of use; only what that chunk held is lost, and the free room is the one before with the chunk and its free neighbours joined into top, dv or the newest chunk of a bin. |
| Free.JoinForward | exts/lpps/source/lpps/malloc.cpp:4401-4437 | A stretch followed by top becomes part of top, followed by dv it becomes dv, and otherwise, with a binned chunk that follows taken in, it is dv if dv was its first chunk and else the newest of its bin; nothing else of the free room changes. |
| Free.JoinBack | exts/lpps/source/lpps/malloc.cpp:4374-4389 | A free chunk before the one freed leaves its queue, and nothing else of the free room changes. |
| Free.FreeStartIs | exts/lpps/source/lpps/malloc.cpp:4374-4389 | The foot before a chunk in use leads to the one free chunk, binned or dv, that ends there, and the PINUSE bit is set exactly when there is none. |
| Free.FreeIntoTop | exts/lpps/source/lpps/malloc.cpp:4403-4412 | A stretch that ends at top becomes part of it; if dv was its first chunk, there is no dv any more. |
| Free.FreeIntoDv | exts/lpps/source/lpps/malloc.cpp:4413-4418 | A stretch with dv in it becomes the designated victim, with its whole length, and no bin changes. |
| Free.SysTrim | exts/lpps/source/lpps/malloc.cpp:4304-4367 | The heap is sound as before and nothing of it is given back; afterwards trimming is not due any more, the threshold being the largest size if it was due before. |
| Free.TrimmedOnce | exts/lpps/source/lpps/malloc.cpp:4360-4366 | Once a try at trimming has failed with the threshold set to the largest size, no size of top makes another one due. |
| Realloc.TryReallocChunk | exts/lpps/source/lpps/malloc.cpp:4820-4897 | In place, to at least nb and less than nb + 32 bytes, or no change exactly when what follows cannot make room. What is cut off behind is freed, what is taken from top, dv or a bin leaves it, and the size comes out as that allows. |
| Realloc.GrowIntoTop | exts/lpps/source/lpps/malloc.cpp:4840-4851 | Grows to nb bytes at the expense of top. |
| Realloc.GrowIntoDv | exts/lpps/source/lpps/malloc.cpp:4852-4873 | Grows into dv, which keeps the rest if that makes a chunk, or is used up. |
| Realloc.GrowIntoFree | exts/lpps/source/lpps/malloc.cpp:4874-4891 | Grows into a binned chunk, which leaves its queue; a rest that makes a chunk is free again. |
| Realloc.SplitAndDispose | exts/lpps/source/lpps/malloc.cpp:4832-4837 | Splits off what is not needed and frees it. |
| Realloc.MspaceRealloc | exts/lpps/source/lpps/malloc.cpp:5744-5787 | The first min(old usable, new) bytes survive and every other block keeps its bytes, although freeing leaves nothing of what a chunk held; where the block stays, the allocator writes no field over the bytes it keeps. The block stays exactly when its chunk is large enough or can grow into what follows; else it moves to where malloc would put it, before the old one is freed. Failure changes nothing, and null is returned exactly when neither the place nor the heap has room. |
| Realloc.MoveBlock | exts/lpps/source/lpps/malloc.cpp:5776-5781 | Allocate, copy, free, in this order: the bytes arrive in the new block, and no byte changes but those and what lay in the freed one, of which nothing is left. |
| Realloc.StuckIs | exts/lpps/source/lpps/malloc.cpp:4820-4897 | Whether a block can keep its place is told by the free room of the heap alone: what follows it is top, dv, binned or in use. |
| Free.LiveApart | exts/lpps/source/lpps/malloc.cpp:5509-5621 | Two chunks in use do not overlap. |
| Memalign.InternalMemalign | exts/lpps/source/lpps/malloc.cpp:4899-4971 | The block is aligned to the least power of two that is at least 32 and the alignment wanted, has at least nb and at most nb + 32 bytes, and is the only change; it is the first aligned address in the chunk that malloc takes for the padded request, and what lies before and behind it is given back; null exactly when that request is too large or cannot be served. |
| Memalign.MspaceMemalign | exts/lpps/source/lpps/malloc.cpp:5821-5830 | The same, and for alignments up to 16 what malloc does; null exactly when the one or the other has no chunk for the request. |
| Memalign.AlignedSpot | exts/lpps/source/lpps/malloc.cpp:4921-4935 | The spot is the first aligned one that leaves no leader shorter than a chunk, and lies inside the padded request. |
| Memalign.CutOffLeader | exts/lpps/source/lpps/malloc.cpp:4920-4951 | The block starts at the chunk itself if that is aligned, else at the first aligned address that leaves a chunk before it; that leader is freed. |
| Memalign.GiveBackRest | exts/lpps/source/lpps/malloc.cpp:4953-4961 | What lies behind nb bytes is freed exactly if it is more than a smallest chunk. |
| Memalign.PowerAlignment | exts/lpps/source/lpps/malloc.cpp:4901-4907 | The test and the doubling loop give the rounded alignment. |
| Memalign.GiveBackLeader | exts/lpps/source/lpps/malloc.cpp:4936-4947 | The leader is freed, the rest is a chunk of its own. |
| Align.TestPow2 | exts/lpps/source/lpps/malloc.cpp:4903 | a & (a - 1) is zero exactly for powers of two. |
| Align.RoundedIs | exts/lpps/source/lpps/malloc.cpp:4901-4907 | The rounded alignment is the least power of two that is at least 32 and the alignment wanted. |
| Align.RoundUp | exts/lpps/source/lpps/malloc.cpp:4930-4932 | The masks give the next multiple of a power of two. |
| Align.RoundingEnds | exts/lpps/source/lpps/malloc.cpp:4903-4907 | Doubling with 64-bit wrap-around reaches the wanted alignment exactly when it is at most 2^63. |
| Align.NeverReached | exts/lpps/source/lpps/malloc.cpp:4903-4907 | For 2^63 + 1 no number of turns is enough. |
| BulkFree.MspaceBulkFree | exts/lpps/source/lpps/malloc.cpp:5106-5146 | Exactly the chunks named in the array leave the chunks in use, every entry is cleared, none is refused; the free room is that of freeing the entries in turn, each run of neighbours named one after the other as one chunk, and then a trim if one is due. |
| BulkFree.FreeEntry | exts/lpps/source/lpps/malloc.cpp:5111-5134 | One turn frees a chunk, or joins it to the next one when the array names that next, without changing what the whole loop will free. |
| BulkFree.JoinUsed | exts/lpps/source/lpps/malloc.cpp:5127-5131 | Two chunks in use become one. |
| Create.CreateMspaceWithBase | exts/lpps/source/lpps/malloc.cpp:5450-5462 | For every base and capacity of a segment that is there: null exactly when the capacity is out of range; a size for top that wraps, a top that fails its check, or a sound, empty heap, each exactly under the condition that FateOf names. |
| Create.FateIs | exts/lpps/source/lpps/malloc.cpp:5408-5462 | The fates are what their names say: the size computed for top is the real one exactly outside the wrapping case, and it passes the check of the first top chunk exactly where a space is made. |
| Create.InitUserMstate | exts/lpps/source/lpps/malloc.cpp:5408-5429 | Where the size of top is real and passes its check, the first state is sound: one chunk for the state record at the first aligned address, top after it, all bins empty, no dv, and the threshold as given. |
| Create.InitBins | exts/lpps/source/lpps/malloc.cpp:3920-3927 | Every small-bin header is a ring of its own. |
| Create.FreshTags | exts/lpps/source/lpps/malloc.cpp:3905-3917 | The record chunk, top and the fake chunk behind it are a legal layout. |
| Create.TopChecks | exts/lpps/source/lpps/malloc.cpp:3234-3246 | The check of the first top chunk passes exactly when base + capacity is a multiple of 4 and at least 8 bytes are left for top; with less, the two head words written overlap. |
| Create.TopFails | exts/lpps/source/lpps/malloc.cpp:3234-3246 | An odd end fails it, and so does a top of 4 bytes. |
| Create.HeadsApart | exts/lpps/source/lpps/malloc.cpp:3905-3917 | The head word of top is clear of the one of the fake chunk behind it, wherever top comes to lie, exactly when base + capacity is 0, or at least 8, above a multiple of 16. |
| Create.HeadsMeet | exts/lpps/source/lpps/malloc.cpp:3905-3917 | In a segment that ends at 2004 top can come to lie 4 bytes before the fake chunk. |
| Create.TopSizeReal | exts/lpps/source/lpps/malloc.cpp:5408-5429 | The size computed for top is what lies between the record and the foot exactly when the capacity has room for the alignment, the record and the foot. |
| Create.TopSizeWraps | exts/lpps/source/lpps/malloc.cpp:5408-5429 | With one byte more than record and foot, at an odd address, the size of top wraps around. |
| Cuts.OneUsedEffect | exts/lpps/source/lpps/malloc.cpp:3086-3094 | set_inuse over a stretch of chunks keeps the layout legal and changes the chunks in use by that one. |
| Cuts.UsedFreeEffect | exts/lpps/source/lpps/malloc.cpp:4856-4863 | A stretch cut into a chunk in use and a free one. |
| Cuts.TwoUsedEffect | exts/lpps/source/lpps/malloc.cpp:4832-4836 | A stretch cut into two chunks in use. |
| Cuts.OneFreeEffect | exts/lpps/source/lpps/malloc.cpp:2296-2301 | A stretch made one free chunk, with its foot and the PINUSE bit behind it. |
| Cuts.TopUsedEffect | exts/lpps/source/lpps/malloc.cpp:5601-5606 | Top gives its first bytes to a chunk in use. |
| Cuts.TopFreeEffect | exts/lpps/source/lpps/malloc.cpp:4403-4406 | Top takes in a stretch of chunks. |
| Tags.RecutInv | exts/lpps/source/lpps/malloc.cpp:2196-2310 | Recutting the chunks between two borders keeps every other chunk legal: sizes, flags, feet, no two free neighbours. |
| SmallBins.InsertSmallChunk | exts/lpps/source/lpps/malloc.cpp:3579-3595 | The chunk becomes the newest of the queue of its size; an empty bin is marked and its stale header overwritten. |
| SmallBins.UnlinkSmallChunk | exts/lpps/source/lpps/malloc.cpp:3598-3621 | The chunk leaves its queue; the mark goes with the last one. |
| SmallBins.UnlinkFirstSmallChunk | exts/lpps/source/lpps/malloc.cpp:3624-3639 | The newest chunk leaves its bin. |
| TreeBins.InsertLargeChunk | exts/lpps/source/lpps/malloc.cpp:3657-3707 | The chunk joins the queue of its size behind the older ones, and a new size takes its place in the digital trie. |
| TreeBins.LinkAlongPath | exts/lpps/source/lpps/malloc.cpp:3672-3705 | Walking down by the bits of the size ends at the node of that size or at the empty slot where it belongs. |
| TreeUnlink.UnlinkLargeChunk | exts/lpps/source/lpps/malloc.cpp:3725-3794 | The chunk leaves its queue, and the tree stays a digital trie: the next oldest chunk takes over its place or, where it was the last of its size, the leaf reached by right children, else left ones. |
| TreeUnlink.DetachLeaf | exts/lpps/source/lpps/malloc.cpp:3740-3753 | The walk along right, else left children ends at one certain leaf, which is cut off. |
| TreeUnlink.ReplaceNode | exts/lpps/source/lpps/malloc.cpp:3755-3793 | The stand-in takes over parent and children of the node it replaces. |
| Tries.InsertUnderWf | exts/lpps/source/lpps/malloc.cpp:2367-2402 | A new leaf at the empty slot of its next bit keeps the digital trie. |
| Tries.DropLeafWf | exts/lpps/source/lpps/malloc.cpp:2367-2402 | Cutting off a leaf keeps the digital trie. |
| Tries.ReplaceWf | exts/lpps/source/lpps/malloc.cpp:2367-2402 | Any leaf from below may stand in for an inner node. |
| Tries.UnderStep | exts/lpps/source/lpps/malloc.cpp:2367-2402 | A size below a node is below the child that its next bit selects. |
| Tries.LeftBeforeRight | exts/lpps/source/lpps/malloc.cpp:2383-2388 | Every size of a left subtree is smaller than every size of the right one beside it. |
| Tries.LeftmostStep | exts/lpps/source/lpps/malloc.cpp:2393-2402 | A smallest size of a subtree lies at its root or below its leftmost child. |
| Rings.Unlink | exts/lpps/source/lpps/malloc.cpp:3606-3614 | Unlinking a node joins its two neighbours into a ring of the others. |
| Rings.Append | exts/lpps/source/lpps/malloc.cpp:3579-3595 | Linking in a node between the header and the newest one extends the ring by it. |
| Chunks.InsertChunk | exts/lpps/source/lpps/malloc.cpp:3798-3800 | A loose free chunk is binned by size. |
| Chunks.UnlinkChunk | exts/lpps/source/lpps/malloc.cpp:3802-3804 | A binned chunk becomes loose. |
| TreeIndex.PortableAgrees | exts/lpps/source/lpps/malloc.cpp:2889-2905 | The portable compute_tree_index finds the highest set bit by unsigned wrap-around and gives the right bin for every size. |
| TreeIndex.ClzAgrees | exts/lpps/source/lpps/malloc.cpp:2846-2858 | The form that counts leading zeros in 32 bits is right exactly for sizes below 2^40 and for those whose low bits happen to name the last bin. |
| TreeIndex.ClzFails | exts/lpps/source/lpps/malloc.cpp:2846-2858 | At 2^40 it gives the first bin. |
| TreeIndex.SizeRange | exts/lpps/source/lpps/malloc.cpp:2918-2921 | minsize(i) <= s < minsize(i + 1), the last bin being open above. |
| TreeIndex.IndexMono | exts/lpps/source/lpps/malloc.cpp:2889-2905 | Larger sizes never go to lower bins. |
| TreeIndex.SameBin | exts/lpps/source/lpps/malloc.cpp:2913-2916 | Sizes of one bin agree above the bits that steer the walk. |
| BinMap.LowestMarked | exts/lpps/source/lpps/malloc.cpp:2976-2987 | compute_bit2idx of least_bit is the lowest marked index. |
| BinMap.NextAbove | exts/lpps/source/lpps/malloc.cpp:2938-2945 | left_bits selects exactly the higher indices, so the next bin in use is found or there is none. |
| BinMap.SmallBits | exts/lpps/source/lpps/malloc.cpp:5524-5530 | The two low bits of the shifted map tell whether the bin of a size or the next one is in use. |
| BinMap.MarkBits | exts/lpps/source/lpps/malloc.cpp:2926-2935 | Marking and clearing change one bin only. |
| Word.RegTop | exts/lpps/source/lpps/malloc.cpp:3672-3677 | The top bit of the shifted size is the next bit of the size. |
| Sizes.SizeFits | exts/lpps/source/lpps/malloc.cpp:2240-2245 | request2size is the least chunk size that holds the request and its overhead. |
| Sizes.SmallRequest | exts/lpps/source/lpps/malloc.cpp:2234-2245 | Which requests are small, and that no accepted request wraps. |
| Memspace.MemAlloc | exts/lpps/source/lpps/malloc.cpp:6379-6428 | A new block, charged with its header, last on the list and cleared, or no change exactly when counter or heap have no room; no field is written over any other block, header included; the rest of the chunk it came from goes where malloc puts it. Where adding the header wraps and there is memory, it says that the chunk is too short. From a state in which the counter adds up, it still does after a success exactly when the size with its header is below 2^32. |
| Memspace.RequestHolds | exts/lpps/source/lpps/malloc.cpp:6379-6402 | The chunk asked for holds the block and its header exactly when adding the header does not wrap around 64 bits. |
| Memspace.RequestFails | exts/lpps/source/lpps/malloc.cpp:6379-6402 | At 2^64 - 64 the chunk asked for is one for no bytes at all. |
| Memspace.MemFree | exts/lpps/source/lpps/malloc.cpp:6430-6474 | A block whose magic is gone is refused without a change; any other leaves the list and the heap, the counter regains its 32-bit size, its chunk goes where free puts it, the bytes of the other blocks stay and no field is written over them; a counter that adds up still does. |
| Memspace.MemRealloc | exts/lpps/source/lpps/malloc.cpp:6476-6515 | The four cases; where the block moves, it goes where malloc puts it, and its bytes come along up to the smaller size, so they are copied before the old block is freed, of which nothing is left; zeros follow from the charged size on, no other block changes and no field is written over one, and failure changes nothing; the counter still adds up exactly when the new size with its header is below 2^32 or nothing was handed out. |
| Memspace.Conserved | exts/lpps/source/lpps/malloc.cpp:6379-6474 | In every space of less than 2^32 bytes, free plus the sizes of the live blocks equals rsz; in a larger one, exactly as long as no size has been cut to 32 bits. |
| Memspace.CounterFails | exts/lpps/source/lpps/malloc.cpp:6379-6428 | A block that takes exactly 2^32 bytes with its header: free plus the sizes of the live blocks is not rsz any more. |
| Memspace.MemInit | exts/lpps/source/lpps/malloc.cpp:6324-6367 | An empty space with a full counter over a segment anywhere, or the fate of the heap it would need. |
| Memspace.ChainDrop | exts/lpps/source/lpps/malloc.cpp:6444-6460 | Unlinking a block leaves the list of the others, in order. |
| Memspace.ChainPush | exts/lpps/source/lpps/malloc.cpp:6408-6422 | Linking a block appends it to the list. |
| Memspace.CopyRoom | exts/lpps/source/lpps/malloc.cpp:6509 | The copy, which may run past the old block by the size of its header, stays inside the segment and clear of the new block. |
| Spaces.Run | exts/lpps/source/lpps/malloc.cpp:6379-6515 | From an empty space, any script of mem_alloc, mem_realloc, mem_free and client writes, up to a size that wraps around with its header while there is memory: the blocks, their bytes (but for those that a copy picks up behind the old block), the chunks they lie in, the counter and the failures, which the blocks alone decide, follow the simple machine of blocks, no block overlaps another one or its header, and in a space of less than 2^32 bytes the counter and the blocks held make up the whole space at every step. |
| Spaces.Serve | exts/lpps/source/lpps/malloc.cpp:6379-6515 | One call, with all blocks that it does not name, their headers included, free of field writes; it stops short exactly where the size wraps around and there is memory. |
| Spaces.AddsUp | exts/lpps/source/lpps/malloc.cpp:6379-6474 | In every run of the machine over less than 2^32 bytes, the counter and the costs of the blocks add up to the space. |
| Spaces.Replaced | exts/lpps/source/lpps/malloc.cpp:6496-6515 | A block that mem_realloc has moved, as it always does, is, to its client, the old one cut or extended, with zeros at the end, at another address. |
| Spaces.SpaceIs | exts/lpps/source/lpps/malloc.cpp:6379-6398 | Counter and heap have no room for a block exactly when the counter is too low or the blocks held leave none. |
| Crc32.Crc32NoComp | exts/xconfig/source/xconfig/crc/crc32.cpp:111-148 | The alignment prefix, the word loop and the tail together divide the whole buffer bit by bit, for every address and length. |
| Crc32.Crc32 | exts/xconfig/source/xconfig/crc/crc32.cpp:151-154 | The function of the header file: the division of the buffer with the register inverted before and after, whatever the address. |
| Crc32.Residue | exts/xconfig/source/xconfig/crc/crc32.cpp:151-154 | Whatever the message, and whatever the CRC before it: with the four bytes of its CRC behind it, the lowest first, its CRC is 0x2144DF1C. |
| Crc32.CheckValues | exts/xconfig/source/xconfig/crc/crc32.cpp:151-154 | The CRC of no byte is 0, that of one zero byte 0xD202EF8D, and that of the digits 1 to 9 is 0xCBF43926. |
| Crc32.WordDivides | exts/xconfig/source/xconfig/crc/crc32.cpp:129-136 | A little-endian word xored in and four zero bytes pushed through equals its four bytes in order. |
| Crc32.TableRight | exts/xconfig/source/xconfig/crc/crc32.cpp:32-97 | Each of the 256 table entries is what eight steps of the division make of its index. |
| Crc32.DoCrcDivides | exts/xconfig/source/xconfig/crc/crc32.cpp:101-102 | One look into the table divides in one byte. |
| Crc32.BytesDivide | exts/xconfig/source/xconfig/crc/crc32.cpp:101-102 | Byte by byte is the same as bit by bit. |
| Crc32.Chains | exts/xconfig/source/xconfig/crc/crc32.cpp:151-154 | crc32(crc32(c, a), b) = crc32(c, a + b). |
| Crc32.DamageShows | exts/xconfig/source/xconfig/crc/crc32.cpp:151-154 | Messages that differ in one byte have different CRCs. |
| Crc32.BurstShows | exts/xconfig/source/xconfig/crc/crc32.cpp:151-154 | Messages of one length that differ only within 32 bits in a row have different CRCs, wherever the burst lies and whatever the CRC before. |
| Crc32.LongerBurst | exts/xconfig/source/xconfig/crc/crc32.cpp:151-154 | Two messages that differ within 33 bits have the same CRC, so 32 is the limit. |
| Filterlibs.WalkFrom | scripts/filterlibs.py:74-77 | On any finite graph the walk ends; it visits valgrind and exactly what the root reaches without passing valgrind, prints each of those that exists once and the root once more, each after all it depends on but for what depends on it in turn; so in the order of dependencies where the root reaches no cycle. What the root requires comes in turn, the public requirements before the private ones: each before anything that it and the earlier ones do not bring along. |
| Filterlibs.TimesPrinted | scripts/filterlibs.py:28-50 | A package is printed once if the root reaches it, and the root once more: twice exactly when it lies on a cycle. |
| Filterlibs.CyclePrintsTwice | scripts/filterlibs.py:28-50 | Of two packages that require each other, the one the walk starts from is printed twice, the other once. |
| Filterlibs.Walk.Traverse | scripts/filterlibs.py:28-39 | Every package of the list is visited, everything newly visited is reached and followed up, and printed once if it exists; each package of the list is printed before anything that was not visited yet and is reached from neither it nor an earlier one. |
| Filterlibs.Walk.Trace | scripts/filterlibs.py:41-50 | A package is printed after all it requires has been traversed, first what it requires publicly, then privately, in the order given. |
| Filterlibs.PairInTurn | scripts/filterlibs.py:28-50 | Of two requirements not visited before, the one that stands first is printed first, unless it or an earlier one leads to the other. |
| Filterlibs.SortedPush | scripts/filterlibs.py:41-50 | All that a package depends on, and that does not lead back to it, is printed before it. |
| Filterlibs.SortedAll | scripts/filterlibs.py:41-50 | Where the root reaches no cycle, that is all it depends on. |
| Filterlibs.Inside | scripts/filterlibs.py:28-50 | A set that follows all dependencies holds all that is reachable. |
| Plist.RoundTrip | exts/lpps/source/lpps/plist.cpp:197-355 | A printed list parses back with the type s for items without one, and without its first item when any field holds an @; so it comes back as it was exactly when there is no @ and every item has a type. |
| Plist.OneItemLost | exts/lpps/source/lpps/plist.cpp:197-355 | A list of one item with an @ in its value comes back empty. |
| Plist.HeaderRoundTrip | exts/lpps/source/lpps/plist.cpp:227-232 | With a header line all items come back, with the type s for those without one. |
| Plist.HeaderSkipped | exts/lpps/source/lpps/plist.cpp:227-232 | An @ anywhere, be it behind the first line, makes parsing start behind the first line. |
| Plist.Parse | exts/lpps/source/lpps/plist.cpp:197-355 | Appends the items of the text to the list, growing it as needed, or reports a wrong syntax, or looks past its buffer; which of the three, and the items, are those of ParseAll, for which the next rows say exactly what every text comes to. |
| Plist.ItemsExactly | exts/lpps/source/lpps/plist.cpp:236-348 | A text gives items exactly if it is the printed form of a list of them, with or without the last end of line; they come back typed. |
| Plist.WrongExactly | exts/lpps/source/lpps/plist.cpp:238-241 | It has a wrong syntax exactly if a record that starts with a delimiter follows such a printed list. |
| Plist.PastExactly | exts/lpps/source/lpps/plist.cpp:254-300 | It is read past its end exactly if it ends inside an attribute or a type behind such a list. |
| Plist.LastUnended | exts/lpps/source/lpps/plist.cpp:303-327 | A last record without its end of line counts in full. |
| Plist.ParseRunsPast | exts/lpps/source/lpps/plist.cpp:227-232 | A text of one line with an @ and no end of line is read past its end, and so is a record without its second delimiter. |
| Plist.ParsePrinted | exts/lpps/source/lpps/plist.cpp:236-348 | Parsing from where the printing starts yields the printed items, typed, even where ends of line stand in attributes or types. |
| Plist.Dump | exts/lpps/source/lpps/plist.cpp:358-420 | Null and empty lists give 0 and leave the buffer alone; else as many whole items as fit, from the read pointer on, are written, a cut last line is mended, and a NUL ends the text. The character before the buffer is touched exactly when a list has items but the next one is not there or does not fit; then nothing counts as written. |
| Plist.DumpTouchesBefore | exts/lpps/source/lpps/plist.cpp:366-415 | One item that does not fit the buffer makes it touch the character before it. |
| Plist.ReadAll | exts/lpps/source/lpps/plist.cpp:358-420 | Reads until the end concatenate to the printed list, whose length is bytelen. |
| Plist.TotalLenIsPrinted | exts/lpps/source/lpps/plist.cpp:107 | The byte length kept by a list is the length of what is printed. |
| Plist.Ppsl.Add | exts/lpps/source/lpps/plist.cpp:79-112 | Appends the item and keeps the byte length, growing the array when needed. |
| Plist.Ppsl.Find | exts/lpps/source/lpps/plist.cpp:155-187 | The first item with that attribute and type. |
| Plist.Merge | exts/lpps/source/lpps/plist.cpp:522-593 | The root becomes the merge, the delta a copy of the new list, and both byte lengths stay right. |
| Plist.MergeOverrides | exts/lpps/source/lpps/plist.cpp:544-586 | A lookup in the merge gives the last match of the new list, else the first match of the old one. |
| Plist.MergeKeepsPlaces | exts/lpps/source/lpps/plist.cpp:544-586 | Old items keep their places and keys, and every added key is new. |
| Plist.Sort | exts/lpps/source/lpps/plist.cpp:135-153 | The range is in strcmp order by attribute, items are permuted only inside it, a range in order stays as it is, and the byte length stays. |
| Plist.LeIs | exts/lpps/source/lpps/plist.cpp:141-147 | That order is decided by the first position where two strings differ, and a string comes after what it starts with. |
| Plist.SortSwap | exts/lpps/source/lpps/plist.cpp:114-133 | Two items change places. |
| XmlEdit.Edit | boards/rpi3/boot/patch/xconfig.c:319-520 | Parse, set, write: the output is the document with that one value replaced, and parsing it again gives the same list with that one value changed. |
| XmlEdit.EditChangesOne | boards/rpi3/boot/patch/xconfig.c:456-520 | Rewriting one element by the recorded offsets changes no other byte of the document and no other path or value. |
| XmlEdit.Config.Parse | boards/rpi3/boot/patch/xconfig.c:281-420 | On an accepted document the scan ends at depth 0 with the list of its elements, each with path, value and offset. |
| Xconfig.RunDoc | boards/rpi3/boot/patch/xconfig.c:336-415 | The loop runs over a whole accepted document and does not stop before its end. |
| Xconfig.RunNode | boards/rpi3/boot/patch/xconfig.c:338-415 | An element of any kind is consumed, and its entries appended, with depth and path as before. |
| XmlEdit.Config.Turn | boards/rpi3/boot/patch/xconfig.c:338-415 | One turn of the loop, with its scanning loops, does what the step function says. |
| XmlEdit.HeaderIs | boards/rpi3/boot/patch/xconfig.c:281-313 | The header of an accepted document is skipped exactly. |
| XmlEdit.HeaderExactly | boards/rpi3/boot/patch/xconfig.c:281-313 | Behind leading white space a text is accepted exactly if it is empty, starts with no <, or starts with <?, and its next ? is followed by >; the cursor ends behind that. |
| XmlEdit.Config.Header | boards/rpi3/boot/patch/xconfig.c:281-313 | Which headers are accepted and where the cursor ends. |
| XmlEdit.Config.Set | boards/rpi3/boot/patch/xconfig.c:423-454 | The first entry with the path, and only it, gets the new value. |
| XmlEdit.Config.Write | boards/rpi3/boot/patch/xconfig.c:456-520 | The text before the element, the new element, the text after it. |
| XmlScan.ShrinkAppend | boards/rpi3/boot/patch/xconfig.c:93-118 | shrink_tag undoes append_tag. |
| XmlDocs.SpliceNode | boards/rpi3/boot/patch/xconfig.c:228-235 | The offset of an entry is where its element starts in the text. |
| XmlDocs.ChangeNode | boards/rpi3/boot/patch/xconfig.c:228-235 | Changing a value moves the later entries by the difference in length, and nothing else. |

## Left out

- The mmap, MORECORE, WIN32, spin-lock, `PROCEED_ON_ERROR` and `!ONLY_MSPACES`
  code, `add_segment`, `prepend_alloc`, `release_unused_segments`: dead under the
  settings. `sys_alloc` can only fail and is a null result.
- The mutex and the magic number of a space: calls are sequential, and the magic
  is a constant, so the checks on it are not written out.
- The counters `release_checks`, `footprint`, `max_footprint` and the mallopt
  parameters, which no result depends on; calloc, realloc_in_place, inspect_all,
  the independent_calloc family and statistics, which add only easy members.
- Realloc.MspaceRealloc: a field that the allocator writes into a chunk in use
  would not show in the column of client bytes; that it writes none is what the
  watch states, of every chunk but the one that an operation names.
- Create.CreateMspaceWithBase: what follows when the size of top wraps or its check
  fails; no heap is modelled then.
- Memspace.MemAlloc: what happens to memory when the chunk is too short for the
  block; the code then writes outside the chunk, and runs (`Spaces.Run`) stop.
- Spaces.Run: writes into block headers by clients, and the words of headers as
  the allocator would read them; headers are columns of their own, inside blocks
  that the allocator does not write to.
- Memspace.MemRealloc: which bytes the copy picks up behind the old block, since
  sizes include the header; they are whatever lies in memory there.
- The file name and line fields of block headers, mem_strdup and mem_deinit.
- Xconfig.RunDoc: the fixed sizes of the buffers for names, paths, values and
  the header; strings are unbounded here. The pages that XmlMalloc hands out are
  not modelled, and the list of values is a sequence instead of linked nodes.
- XmlEdit.Edit: edits of elements without a value, for which the recorded offset
  is not that of the element; U-Boot commands, environment updates and printing.
- `enforce_config_block`, `scan_config_block` and the block CRC: fixed loops over
  four headers.
- Plist.Parse: failing allocations, null fields, and texts with NULs inside; the
  text counts as followed by NULs.
- Plist.Dump: JSON values, which an unseen library prints; values longer than the
  line buffer, for which the code writes behind it.
- `lpps_ppsl_duplicate`, `lpps_ppsl_concat` and `lpps_ppsl_remove`: loops over the
  members modelled here.
- Crc32.Crc32NoComp: big-endian machines; reading the file.
- Filterlibs.WalkFrom: how pkg-config answers are split into lines and words; the
  answers are two lists of names for each package.
- FUSE callbacks, threads, timers, sockets, history buffers and the near copies of
  the modelled files for other boards.
