# Paging memory manager of a teaching OS simulator, in Dafny

This project models the paging engine of a small operating-system simulator
written in C:

- the page-table-entry (PTE) codec;
- the physical storage device, used for RAM and for swap;
- the frame allocator with its fallback to swap;
- the page mapper;
- the bounded process queue.

The model keeps the source's form:

- The PTE setters are pure functions over a 32-bit word.
- The storage device (`MemPhy.MemPhy`) and the process's memory descriptor
  (`AddressSpace.Mm`) are classes whose methods update their fields in place.
- The allocator and the mapper (`Paging`) are methods with the loops of the
  C code. Each is proved equal to a value-level function of module
  `PagingSpec`, and the allocator's properties are proved about that function.
- The process queue (`ProcessQueue.Queue`) is a class over a fixed array.

Files:

- `config.dfy`: paging constants, C division, list reversal.
- `pte.dfy`: the PTE codec.
- `memphy.dfy`: the storage device.
- `address_space.dfy`: regions, the address-space bootstrap and the list-prepend helpers.
- `paging_spec.dfy`: the allocator and mapper as functions, and their properties.
- `paging.dfy`: the allocator and mapper as imperative code over one process.
- `queue.dfy`: the process queue.

The linked lists of the C code are sequences, with the list head at index 0:

- the free-frame list;
- the used-frame list;
- the FIFO list of resident page numbers (`fifo_pgn`);
- the free-region list.

Prepending a node is `[x] + list`. Detaching the last node of the used list
is `list[..|list| - 1]`.

The model describes the code as written, defects included. Where a defect
is evident, a corrected sibling sits next to the as-written member, with the
intended property proved about it (see "## Findings").

Three behaviours of the code as written are stated rather than corrected:

- Eviction never rewrites the victim page's PTE, and never removes the
  victim from `fifo_pgn`. After a mapping that evicted a page, two page-table
  entries name the same RAM frame (`PagingSpec.EvictedPageStillMapped`).
- Eviction dereferences the head of the RAM used list without a check. RAM
  frames taken earlier in the same call are not yet on that list, because the
  mapper only pushes them there later. So an eviction is possible only while
  the used list is non-empty. The model makes this a precondition
  (`PagingSpec.CanEvict`, `PagingSpec.Feasible`), and
  `PagingSpec.FreshRamCannotEvictWithinOneCall` shows a request that breaks it.
- `init_pte` returns -1 only for a present, non-swapped entry with frame 0.
  Frame 0 is a real frame (the free list starts at 0), but the model keeps the
  check as written.

Where the behaviour one would expect of the design differs from the code, the model follows the code:

- One would expect a sequential device to access cell `addr mod maxsz` after its cursor
  walk. The code indexes `storage[addr]` directly.
- One would expect a swap frame that receives an evicted page to stay occupied. The
  code pushes it back onto the swap free list.

## Model

| member | source | states |
|---|---|---|
| Config.CDiv | src/mm-memphy.c:142 | C integer division truncates toward zero: for all signs the magnitude of the quotient is the magnitude of the dividend divided by that of the divisor, and a non-zero quotient is positive iff the operands have the same sign; for a non-negative dividend and a positive divisor it agrees with floor division |
| Pte.InitResidentWord | src/mm.c:34-38 | the resident-page encoding sets PRESENT, clears SWAPPED and DIRTY, stores the frame number in the FPN field, and leaves every other bit alone |
| Pte.SetSwapLocation | src/mm.c:44-45 | the swap type and swap offset read back from their fields (masked to the field width), and no other bit changes |
| Pte.InitSwappedWord | src/mm.c:40-45 | the swapped-page encoding sets PRESENT and SWAPPED, clears DIRTY, and stores the swap type and offset; other bits are kept |
| Pte.InitPte | src/mm.c:20-50 | pre = 0: returns 0 with the word unchanged; present, non-swapped, frame 0: returns -1 with the word unchanged; otherwise returns 0 with the resident or the swapped encoding, and nothing else changes |
| Pte.InitPteIgnoresDirty | src/mm.c:20-50 | the `drt` argument never influences the result |
| Pte.PteSetSwap | src/mm.c:64-73 | always returns 0; the word is PRESENT and SWAPPED, with the given swap type and offset; no bit outside those is touched |
| Pte.PteSetSwapKeepsDirtyAndFpn | src/mm.c:64-73 | setting a swap location keeps the DIRTY bit and the FPN field |
| Pte.PteSetSwapDetermined | src/mm.c:66-70 | the result depends only on the bits the call does not overwrite |
| Pte.PteSetSwapIdempotent | src/mm.c:64-73 | setting the same swap location twice equals setting it once |
| Pte.PteSetSwapRoundTrip | src/mm.c:69-70 | a swap type and offset that fit their fields read back exactly |
| Pte.PteSetFpn | src/mm.c:86-94 | always returns 0; the word is PRESENT, not SWAPPED, with the FPN field equal to the frame number; every other bit is unchanged |
| Pte.PteSetFpnKeepsDirty | src/mm.c:86-94 | setting the frame keeps the DIRTY bit |
| Pte.PteSetFpnRoundTrip | src/mm.c:91 | a frame number that fits the FPN field reads back exactly |
| Pte.PteSetFpnAfterSwap | src/mm.c:64-94 | re-mapping a swapped page makes it resident and non-swapped with the new frame; under this model's disjoint bit layout the stale swap fields also stay in the word |
| MemPhy.FrameRange | src/mm-memphy.c:150-162 | the free list built by formatting is 0, 1, ..., n-1 in ascending order |
| MemPhy.FrameRangeOnce | src/mm-memphy.c:150-162 | every frame of the formatted list occurs exactly once, and nothing else occurs |
| MemPhy.FrameRangeInBounds | src/mm-memphy.c:142-162 | every formatted frame lies wholly inside the device's storage |
| MemPhy.FreeListPop | src/mm-memphy.c:170-187 | popping an empty list fails with -1 and leaves the out value; otherwise the old head is returned and the tail remains |
| MemPhy.FreeListPush | src/mm-memphy.c:204-215 | pushing puts the frame at the head in front of the unchanged old list |
| MemPhy.PutThenGet | src/mm-memphy.c:170-215 | put followed by get returns the frame put and restores the original list (LIFO) |
| MemPhy.GetThenPut | src/mm-memphy.c:170-215 | get followed by putting the result back restores a non-empty list |
| MemPhy.CursorWalkClosedForm | src/mm-memphy.c:23-28 | walking the cursor one step at a time, modulo the device size, for k ≤ maxsz steps lands on k, or on 0 after a full turn |
| MemPhy.CursorSteps | src/mm-memphy.c:24-27 | the cursor loop runs at most `offset` steps (none for a non-positive offset) and at most maxsz steps |
| MemPhy.MemPhy.constructor | src/mm-memphy.c:225-238 | `init_memphy`: maxsz is the given size; rdmflg is 1 iff randomflg ≠ 0; a sequential device starts with cursor 0; the free list is the formatted frames; the used list is empty |
| MemPhy.MemPhy.MvCsr | src/mm-memphy.c:19-31 | returns 0; the loop runs CursorSteps steps; the cursor ends at offset when 0 < offset < maxsz, and at 0 otherwise |
| MemPhy.MemPhy.Format | src/mm-memphy.c:139-165 | when maxsz/pagesz ≤ 0 (C division) returns -1 and changes nothing; otherwise returns 0 and the free list is exactly 0..n-1 |
| MemPhy.MemPhy.GetFreeFp | src/mm-memphy.c:170-187 | an empty free list gives -1 and leaves retfpn; otherwise gives 0, retfpn is the old head, and the list becomes the old tail |
| MemPhy.MemPhy.PutFreeFp | src/mm-memphy.c:204-215 | returns 0; the free list is the frame prepended to the old list |
| MemPhy.SeqRead | src/mm-memphy.c:43-55 | null device: -1; rdmflg = 0: -1 with the value untouched; otherwise walks the cursor to addr and returns storage[addr]; the free and used frame lists, the access mode and the size never change |
| MemPhy.Read | src/mm-memphy.c:69-80 | null device: -1; random-access device: 0 and storage[addr]; sequential device: -1 and the value untouched, because the sequential helper turns it away |
| MemPhy.SeqWrite | src/mm-memphy.c:92-105 | null device: -1; rdmflg = 0: -1 with storage untouched; otherwise walks the cursor and sets storage[addr] only; the free and used frame lists, the access mode and the size never change |
| MemPhy.Write | src/mm-memphy.c:118-129 | null device: -1; random-access device: 0 with only storage[addr] changed; sequential device: -1 with storage unchanged |
| MemPhy.SequentialDeviceUnreadable | src/mm-memphy.c:48-49 | a freshly created sequential device answers a read with -1 |
| MemPhy.SeqReadIntended | src/mm-memphy.c:43-55 | corrected: only a sequential device is served, after the cursor walk, and the byte is storage[addr]; the free and used frame lists, the access mode and the size never change |
| MemPhy.ReadIntended | src/mm-memphy.c:69-80 | corrected: every non-null device returns 0 and storage[addr], whatever its access mode; storage, frame lists, access mode and size stay; a sequential device's cursor ends at addr (0 when addr is out of range), a random-access device's cursor stays |
| MemPhy.SeqWriteIntended | src/mm-memphy.c:92-105 | corrected: only a sequential device is written, after the cursor walk; the free and used frame lists, the access mode and the size never change |
| MemPhy.WriteIntended | src/mm-memphy.c:118-129 | corrected: every non-null device returns 0 and changes exactly storage[addr]; frame lists, access mode and size stay; a sequential device's cursor ends at addr (0 when addr is out of range), a random-access device's cursor stays |
| AddressSpace.InitVmRg | src/mm.c:326-335 | the new region has the given start and end |
| AddressSpace.EnlistVmRgNode | src/mm.c:340-346 | the region list grows by one, with the new region at the head and the old list behind it |
| AddressSpace.EnlistPgnNode | src/mm.c:351-360 | the page-number list grows by one, with the new page number at the head and the old list behind it |
| AddressSpace.Mm.InitMm | src/mm.c:297-321 | returns 0; a fresh page table of MAX_PGN entries; one fresh vma with id 1, start = end = sbrk = 0, no successor and a back-pointer to the mm; its free-region list holds only [0, 0] |
| PagingSpec.AllocSlot | src/mm.c:176-196 | one slot: the head of the RAM free list when that list is non-empty; otherwise, with a swap frame free, the last node of the RAM used list; it fails exactly when both free lists are empty. The swap free list ends unchanged, and exactly one RAM frame leaves the free and used lists |
| PagingSpec.AllocRun | src/mm.c:174-199 | the slot loop returns 0 or -1, and the swap free list ends as it began (each eviction pops a swap frame and pushes it back); PagingSpec.AllocRunResult and PagingSpec.AllocRunKeepsRamFrames state when each code comes back and where the frames went |
| PagingSpec.AllocRunStep | src/mm.c:174-199 | the loop either fills the slot and continues with one fewer page, or stops with -1 in the state it reached |
| PagingSpec.AllocFromRam | src/mm.c:174-183 | with at least req free RAM frames: returns 0; the slots get the first req free frames in list order; the free list loses exactly those; used list, swap list and swap storage are untouched |
| PagingSpec.AllocFailsWhenExhausted | src/mm.c:184-195 | with no swap frame and too few RAM frames: returns -1 after the free RAM frames have filled the first slots |
| PagingSpec.Evicted | src/mm.c:186-194 | e evictions keep the RAM free list and the swap free list |
| PagingSpec.AllocEvicts | src/mm.c:184-196 | with RAM exhausted and a swap frame free, n evictions take the last n used frames, newest victim last, copy each page into the head swap frame, and return 0 |
| PagingSpec.AllocWithEviction | src/mm.c:174-199 | a request larger than the free RAM first drains the free list, then evicts the rest from the tail of the used list |
| PagingSpec.AllocRunKeepsRamFrames | src/mm.c:174-199 | no RAM frame is lost or duplicated: free, used and handed-out frames together are the original frames, as multisets |
| PagingSpec.AllocRunResult | src/mm.c:169-199 | returns 0 iff the free RAM suffices or a swap frame is free; on success req slots are filled; on failure -1 with the free RAM frames handed out; the swap free list never changes |
| PagingSpec.AllocRunFramesFromRam | src/mm.c:176-189 | every frame handed out is a RAM frame, taken from the free or the used list |
| PagingSpec.AllocRunKeepsFramesInBounds | src/mm.c:174-199 | frames that lie inside the RAM storage still do after allocation, on every list the mapper builds |
| PagingSpec.EvictedSwapFrameStaysFree | src/mm.c:186-194 | every page evicted in one call is copied into the same swap frame, and that frame is still on the swap free list |
| PagingSpec.FreshRamCannotEvictWithinOneCall | src/mm.c:176-188 | frames taken from RAM in the same call are not on the used list, so 6 pages from 4 free frames is infeasible, and after 4 the used list is empty |
| PagingSpec.CopyPage | src/mm.c:268-284 | copying one page keeps the storage size |
| PagingSpec.ApplyCopies | src/mm.c:190 | the swap storage after the loop's page copies, in order, keeps its size; PagingSpec.ApplyCopiesSamePage and PagingSpec.FirstEvictedPageLost state what repeated copies into one frame leave |
| PagingSpec.CopyPageEffect | src/mm.c:268-284 | after the copy the destination frame holds the source page byte for byte, and no other destination byte changes |
| PagingSpec.FirstEvictedPageLost | src/mm.c:186-194 | two pages evicted in one call into the reused swap frame: the first page's bytes are no longer in the swap device |
| PagingSpec.AllocSlotIntended | src/mm.c:186-194 | corrected slot: exactly one RAM frame leaves the free and used lists together, and an empty swap free list stays empty |
| PagingSpec.AllocRunIntended | src/mm.c:174-199 | corrected loop: returns 0 or -1, the frame list grows by exactly req on 0 and fails only with both free lists empty, RAM frames keep their count, and every page copy consumes one swap free frame |
| PagingSpec.AllocIntendedEvicts | src/mm.c:184-196 | corrected: n evictions pair the i-th victim with the i-th swap free frame and remove those frames from the swap free list |
| PagingSpec.AllocIntendedKeepsSwapFramesOccupied | src/mm.c:186-194 | corrected: the evicted pages go to pairwise distinct swap frames, none of which remains on the free list |
| PagingSpec.EvictedPagesReadableIntended | src/mm.c:186-194 | corrected: after n evictions, swap frame i holds exactly the bytes of the i-th victim |
| PagingSpec.MapPages | src/mm.c:127-136 | mapping keeps the page-table size |
| PagingSpec.MapPagesInstalls | src/mm.c:127-128 | each pgd[PGN(addr)+i] becomes present and non-swapped with the i-th frame number; entries outside the range are unchanged |
| PagingSpec.MappedRegion | src/mm.c:119-135 | the returned region starts at addr and spans pgnum*(PAGESZ-1) bytes |
| PagingSpec.MappedRegionFallsShort | src/mm.c:135 | from two pages on, that region ends before the last mapped byte |
| PagingSpec.MappedRegionIntended | src/mm.c:119-135 | corrected: the region spans pgnum*PAGESZ bytes |
| PagingSpec.MappedRegionIntendedCoversPages | src/mm.c:119-135 | corrected: for an aligned address the region starts on the first mapped page and ends on the page after the last |
| PagingSpec.MapRamKeepsRamFrames | src/mm.c:231-252 | after a successful map, the RAM free list and used list together hold exactly the frames they held before |
| PagingSpec.EvictedPageStillMapped | src/mm.c:186-194 | after a map that evicts, the victim's old entry is untouched and names the same frame as the newly mapped page |
| Paging.DequeueLastFrame | src/mm.c:153-167 | on a non-empty used list, returns its last frame and leaves the prefix of length n-1; a single node leaves the list empty |
| Paging.SwapCpPage | src/mm.c:268-284 | returns 0; the destination frame holds the source page byte for byte; no other destination byte changes; the source is not modified |
| Paging.EvictToSwap | src/mm.c:186-194 | the last used RAM frame is detached and returned, its page is copied into the swap frame, and that swap frame is pushed back onto the swap free list |
| Paging.AllocSlotStep | src/mm.c:176-196 | one loop iteration performs exactly PagingSpec.AllocSlot on the device lists, the slot array and the swap storage |
| Paging.AllocPagesRange | src/mm.c:169-200 | the return code, the three frame lists, the filled slots (later slots untouched) and the swap storage are those of PagingSpec.AllocRun |
| Paging.MapPage | src/mm.c:128-134 | one mapper iteration: the entry gets the frame, the frame is prepended to the used list, the page is prepended to fifo_pgn |
| Paging.VmapPageRange | src/mm.c:107-139 | returns 0; the page table is PagingSpec.MapPages; the used list gains the frames newest-first; fifo_pgn gains the page numbers newest-first; the region is PagingSpec.MappedRegion |
| Paging.VmMapRam | src/mm.c:218-256 | allocation as PagingSpec.AllocRun; on failure returns -1 without touching the page table, fifo_pgn or the region; on success maps every allocated frame |
| ProcessQueue.Queue.Enqueue | src/queue.c:11-15 | a full queue is unchanged; otherwise the process goes to slot `size`, size grows by one, and every other slot is unchanged |
| ProcessQueue.Empty | src/queue.c:6-9 | a missing queue is empty; a present queue is empty exactly when it holds no process |
| ProcessQueue.Dequeue | src/queue.c:17-32 | null or empty (`empty`, lines 6-9): returns nothing and changes nothing; otherwise returns the old head, size drops by one, every slot below the old size holds the old last process, and slots from the old size on are untouched |
| ProcessQueue.DequeueShifted | src/queue.c:17-32 | corrected: the head is returned and the remaining processes keep their order; slot old size - 1 and the slots above it keep their old values |
| ProcessQueue.Smeared | src/queue.c:26-29 | after the backward copy, each of the remaining size-1 slots holds the old last process |
| ProcessQueue.SmearedIsFifoIff | src/queue.c:26-29 | the backward copy gives FIFO order iff every process behind the head equals the last one |
| ProcessQueue.SmearLosesSecond | src/queue.c:26-29 | queue 1, 2, 3 dequeues to 3, 3 where 2, 3 was due |
| ProcessQueue.SizeAfter | src/queue.c:13-30 | one enqueue or dequeue keeps the size within 0..MAX_QUEUE_SIZE |
| ProcessQueue.SizeStaysBounded | src/queue.c:13-30 | any sequence of enqueues and dequeues keeps the size within 0..MAX_QUEUE_SIZE |
| ProcessQueue.EnqueuesFill | src/queue.c:13-14 | n enqueues raise the size by n, up to the capacity and no further |

## Left out

- The headers that define the paging constants and the PTE masks (mm.h) and the queue capacity (queue.h) are not part of this model. The model chooses:
  - PAGESZ = 256 and MAX_PGN = 16384;
  - MAX_QUEUE_SIZE = 10;
  - a disjoint PTE layout: PRESENT bit 31, SWAPPED bit 30, DIRTY bit 28, FPN bits 0-12, SWPTYP bits 13-17, SWPOFF bits 18-27.
- Console output is not modelled: `print_list_*`, `print_pgtbl`, `MEMPHY_dump` and the debug prints.
- Heap allocation and freeing of list nodes is not modelled. Lists are sequences.
- The frame `owner` back-pointer is not modelled; it is diagnostic only.
- The symbol region table `symrgtbl` of `mm_struct` is not modelled. No operation of this model reads or writes it, and the loop in `init_mm` that would fill it is commented out (src/mm.c:312).
- Uninitialised memory is not modelled. Page-table contents, storage bytes and the free-region list before the first enlist are arbitrary inputs or empty sequences.
- Concurrency is not modelled. The devices are shared between CPU threads without locks; the model is single-threaded.
- The loader, scheduler and CPU dispatch in `os.c` and `cpu.c` are not part of this model.
- Paging.SwapCpPage: both devices must be random-access and the frames inside the storage. Every device the simulator creates is random-access. On a sequential source device `MEMPHY_read` returns -1 without setting `data`, so the C code would write an uninitialised byte. On a sequential destination device `MEMPHY_write` returns -1 and the byte is not written at all.
- Paging.VmMapRam: requires `PagingSpec.Feasible`. Eviction must never meet an empty RAM used list, where the C code dereferences NULL. `PagingSpec.FreshRamCannotEvictWithinOneCall` shows a request outside this condition.
- Paging.VmMapRam: requires the mapped pages to lie inside the page table. The C code writes past `pgd` otherwise.
- Paging.AllocPagesRange, Paging.VmapPageRange: `AllocPagesRange` requires the slot array to be distinct from both storage arrays, and `VmapPageRange` requires it to be distinct from the page table `pgd`. Dafny cannot tell that arrays of different element types never alias; the C code allocates the array freshly.
- Paging.VmMapRam: RAM frames handed out before a failure stay off both RAM lists, as in the C code. The model records where they went, and `PagingSpec.AllocRunResult` names them.
- PagingSpec.MapPagesInstalls: frame numbers are stored in the entry as their low 32 bits (`ToWord`), the C conversion of `int` to `uint32_t`, before masking to the FPN field.
- PagingSpec.AllocSlot: an eviction pops a swap frame and pushes the same number back. The model states the combined effect, an unchanged swap free list, instead of the two list operations.
- ProcessQueue.Queue.Enqueue: `enqueue` dereferences the queue without a NULL check, so the model requires a non-null queue.

## Findings

| source | as written | input that shows it | evidently intended | confidence | as-written member | corrected member |
|---|---|---|---|---|---|---|
| src/mm-memphy.c:48 | `MEMPHY_seq_read` and `MEMPHY_seq_write` (line 98) return -1 when rdmflg is 0, which is exactly the sequential mode they serve | a device created with randomflg 0; any read or write of it | serve sequential devices after the cursor walk, and reject random-access ones | not executed | MemPhy.SequentialDeviceUnreadable | MemPhy.ReadIntended |
| src/mm.c:135 | the region end grows by PAGESZ-1 per mapped page | addr 0, two pages: the region ends at 510, though the pages cover 0..511 | grow by PAGESZ per page, so the region spans every mapped page | not executed | PagingSpec.MappedRegionFallsShort | PagingSpec.MappedRegionIntendedCoversPages |
| src/mm.c:191-194 | the swap frame that just received an evicted page is pushed back onto the swap free list, so every later eviction reuses it | RAM free list empty, used list [a, b] whose pages differ, one request for two pages: both victims are copied into the same swap frame | take the swap frame off the free list for good, so each evicted page keeps its own swap frame | not executed | PagingSpec.FirstEvictedPageLost | PagingSpec.EvictedPagesReadableIntended |
| src/queue.c:26-29 | the shift runs from the last slot down, copying each slot into the one before, so the last process fills every slot | queue 1, 2, 3: after a dequeue the queue is 3, 3 | shift from the front so the remaining processes keep their order | not executed | ProcessQueue.SmearLosesSecond | ProcessQueue.DequeueShifted |
