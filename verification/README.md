# KaworuOS in Dafny

A model of the cores of KaworuOS, an AArch64 kernel, with proofs about them. `dafny verify dfyconfig.toml` checks
everything. A failed `ASSERT` or `panic` is a stop: a result the caller sees, with the exact condition under which it
happens.

- FreeList: the kernel heap's first-fit free list, on bytes of memory with 64-bit headers
- Locks: spin locks and the nested interrupt mask, as single reads and writes of any number of CPUs, interrupts included
- Bitmap, Region: the packed page bitmap and the table of address ranges over it
- Descriptors, Paging, Memory, Vm: page descriptors, the four-level table as memory words, the free-page stack, mapping and virtual allocation
- IntrusiveList, Scheduler: the doubly linked list, run and wait queues, round robin on any number of CPUs
- FdtTokens, FdtReader, FdtCheck, FdtBytes, FdtWriter, FdtEdit: the flattened device tree library: byte format, walks, full check, sequential writer, in-place property editing (sections 5.2 to 5.5 of the Devicetree Specification v0.4)
- Framebuffer, TerminalSpec, Escape, TerminalRuns, TerminalCells, TerminalStyles: the Flanterm terminal: damage queue and double buffer, the terminal as a value with what each byte does to it, the parser in place, and what bytes and whole sequences do to every cell, the cursor and the colours (section 5.4 of ECMA-48, section 3 of RFC 3629)
- Numbers: number printing and `strtoul`
- Common: shared constants and the option type

## What holds, and what does not

The main results are for every input, every state or every interleaving. Where the code falls short of what one would
expect, the model keeps the code and the contract says exactly when it is right:

- `freelist_init` leaves the pool's next word as it is, so the first list is right exactly if that word was zero and a
  header fits; a request whose size plus header wraps 64 bits is granted from the head block whatever its size, and the
  list then starts inside what was handed out; and both allocation and freeing stop once the list is empty
  (`FreeList.Heap`).
- `bitmap_free` with a count that wraps the end of the range passes every test and frees nothing
  (`Bitmap.AllocBitMap.Free`).
- A waiter never comes back: waking hands a BLOCKED task to an assertion that rejects it
  (`Scheduler.NoWaiterReturns`).
- `paging_lookup` gives frame zero for an unmapped page whose tables exist, and stops when one is missing; `vm_map` on
  a full region stops on the error pointer it was given; a range that wraps the address space maps nothing
  (`Memory.Kernel`, `Vm.Manager`).
- When no page is left for a table, the entry has been overwritten before the stop: it is a valid link to the frame of
  the error pointer (`Memory.Kernel.NextTable`).
- `vm_unmap` does not compare its size with the record; region and page table stay in step exactly if no page is left
  out and the excess is not the region's (`Vm.Manager.Unmap`).
- The device-tree writer's room test for names wraps for a name longer than the whole buffer, and the store then falls
  outside it (`FdtWriter.Writer.AddString`).
- The full check accepts a structure block with only an end tag, and padding or properties before the root
  (`FdtCheck.Complete`), which is why the tree walks ask for the root's tag to come first.
- A reserve entry of size zero ends the map early (`FdtCheck.MapReads`). The editor asks for room for one entry before
  the structure block, not for the map's end; a map that ends inside the structure block can change when a property is
  set (`FdtEdit.SettingMovesMapEnd`), one that ends before it cannot (`FdtEdit.Editor.SetProp`).
- A full refresh draws the cursor but does not record where, so a later flush can leave a stale cursor, and it leaves
  a cell queued under the cursor behind in the queue (`Framebuffer.Terminal.FullRefresh`); what is then written there is
  passed over by the next flush, which draws the older cell (`Framebuffer.Overtaken`).
- The comment in the terminal's UTF-8 decoder promises a replacement mark for sequences past the last code point; the
  code drops them silently (`TerminalRuns.PastLastShowsNothing`).
- A terminal parameter of more than 32 bits is neither exact nor saturated (`TerminalSpec.ParameterExact`).
- Cancelling a private control sequence leaves its mark, and the next sequence is taken as a private one
  (`TerminalRuns.PrivateOutlivesCancel`, `TerminalRuns.SequenceRuns`).
- `strtoul` keeps the remainder of the range in 32 bits and so takes some values in bases above 2^31 for too large
  (`Numbers.Strtoul`); after a hexadecimal prefix with no digit behind it it stops at the start of the text instead of
  after the zero (`Numbers.EndIsStandard`).
- Bases below five do not fit the printer's 32-byte buffer for every value (`Numbers.AlwaysFits`).

## What is taken as given

- Memory is sequentially consistent and table writes take effect at once.
- Locked sections of the page allocator, the region table and the heap are single steps; locking itself is in `Locks`.
- Interrupt handlers give back every lock they take; `Locks.ReturnNeedsPairing` shows why they must.
- Pages given to the page allocator at start hold zeros; the links of the stack are written over them.
- Tasks are enqueued by their creators only when live and on no queue.
- Waking takes a waiter off its queue and hands it to the failing assertion in one step; the state between is not covered.
- Added heap regions hold at least one header, and a freed pointer is null or was handed out.
- Negating the least 64-bit number gives it back, as two's complement does.
- Device-tree buffers are 8-byte aligned, names hold no NUL, and header words are the fields of a record beside the
  buffer's bytes; the node offset given to the editor is a node's or one at which no node's tag is read.
- Plotting a cell is one write of its look. The code page, width and special-graphics tables are parameters.

## Model

| member | source | states |
|---|---|---|
| FreeList.RunInOneBlock | lib/allocator/freelist.c:147-159 | a run of free bytes never spans two blocks of a coalesced list, so block sizes decide what can be allocated |
| FreeList.CanonicalIsUnique | lib/allocator/freelist.c:80-159 | two sorted, fully coalesced lists over the same free bytes are the same list |
| FreeList.TotalIsByteCount | lib/allocator/freelist.c:12-19 | the sizes of disjoint blocks add up to the number of bytes they cover |
| FreeList.CapacityFits | lib/allocator/freelist.c:118-126 | adding a region clear of the heap cannot overflow the 64-bit capacity |
| FreeList.NoRunWithoutFit | lib/allocator/freelist.c:33-44 | if no block is large enough, no run of that many free bytes exists anywhere |
| FreeList.FirstFitIsLowest | lib/allocator/freelist.c:33-40 | the first block that fits starts at the lowest address any such run has |
| FreeList.InsertedCanonical | lib/allocator/freelist.c:105-145 | inserting in address order and merging both neighbours keeps the list sorted and fully coalesced |
| FreeList.InsertedEffect | lib/allocator/freelist.c:105-159 | merging loses and invents no byte: the free bytes grow by exactly the inserted block |
| FreeList.LiveBytesKept | lib/allocator/freelist.c:12-159 | stores confined to free blocks leave every byte of every live block as it was |
| FreeList.AllocFreeRestores | lib/allocator/freelist.c:21-116 | freeing the block just allocated gives back exactly the list there was before |
| FreeList.Heap.constructor | lib/allocator/freelist.c:12-19 | one block of the whole pool, its size word written whatever the size; the list is well formed exactly if a header fits and the pool's next word happened to be zero |
| FreeList.Heap.Coalesce | lib/allocator/freelist.c:147-159 | touching neighbours become one block, others stay, and only the left header is written |
| FreeList.Heap.FindFit | lib/allocator/freelist.c:30-40 | the walk finds the first block of at least the wanted size, or none |
| FreeList.Heap.Detach | lib/allocator/freelist.c:46-75 | splitting or consuming a block carves out exactly one block of the wanted size, slack below a header |
| FreeList.Heap.FindBefore | lib/allocator/freelist.c:105-109 | the walk ends at the last block below the one being freed |
| FreeList.Heap.Insert | lib/allocator/freelist.c:90-116 | a block goes in at its place, neighbours merge, and only free memory is written |
| FreeList.Heap.Alloc | lib/allocator/freelist.c:21-78 | stops exactly on an empty list or size zero; fails only if no contiguous run holds size plus header; otherwise hands out the lowest such block; wrong exactly if size plus header wraps 64 bits, when the head block is handed out whole if it is too short to split and otherwise stays on the list, which then starts inside it |
| FreeList.Heap.Free | lib/allocator/freelist.c:80-116 | stops exactly on an empty list or a null pointer; otherwise moves the block from live to free, keeping sizes summing to capacity and live blocks untouched |
| FreeList.Heap.AddRegion | lib/allocator/freelist.c:118-145 | stops exactly on a null pool or size zero; otherwise the region joins the free bytes and capacity grows by its size |
| FreeList.Heap.WritePayload | lib/allocator/freelist.c:77-78 | a caller's store into its own payload cannot upset the heap |
| Locks.StepKeepsInv | kernel/sync/spinlock.c:11-80 | every single read or write by any CPU, and every interrupt taken or returned from, keeps the lock and mask invariant |
| Locks.HoldingIsExact | kernel/sync/spinlock.c:11-14 | the two racing reads of the holding test answer exactly whether this CPU owns the lock, so they panic only on real misuse |
| Locks.RunKeepsInv | kernel/sync/spinlock.c:23-80 | the invariant holds in every state of every interleaving of any number of CPUs and locks |
| Locks.ReturnNeedsPairing | kernel/irq/irq_controller.c:92-125 | returning from an interrupt handler keeps the mask discipline exactly if the handler gave back every lock it took |
| Locks.RunIsSafe | kernel/irq/irq_controller.c:92-125 | in every reachable state: at most one owner per lock, locked means owned, depth equals unfinished acquires, a positive depth masks interrupts, the last pop leaves the flag the outermost push saw; the pop panics cannot be reached |
| Locks.FlagComesBack | kernel/irq/irq_controller.c:92-125 | when a context whose outermost push read the interrupt flag is next out of every lock, the flag is what was read, whatever nested calls and handlers came between |
| Locks.CallGoesOn | kernel/sync/spinlock.c:23-80 | while a context is in an acquire or a release, nothing any CPU does takes it out of the call but its own return, and an acquire gets past its check only without the lock, a release only with it |
| Locks.AcquireReturns | kernel/sync/spinlock.c:23-54 | over any run, an acquire that has returned has its lock: it was not held before, is the only one added, the lock names this CPU, no other CPU owns it, and interrupts are masked one level deeper |
| Locks.ReleaseReturns | kernel/sync/spinlock.c:56-80 | over any run, a release that has returned had its lock and has just that one less, and the mask is one level shallower |
| Locks.WaitsOnlyWhileTaken | kernel/sync/spinlock.c:47-49 | every instruction of a call brings it nearer to its end, except an exchange on a taken lock, which changes nothing; an exchange on a free lock takes it |
| Bitmap.ByShift | lib/allocator/bitmap.c:143-164 | masks and bit tests are those of the shift macros |
| Bitmap.BitOps | lib/allocator/bitmap.c:143-164 | setting or clearing a page's bit changes that bit of the byte and no other |
| Bitmap.BytesFromBits | lib/allocator/bitmap.c:143-164 | two bitmaps with the same bits are the same bytes |
| Bitmap.AllocBitMap.FindFree | lib/allocator/bitmap.c:53-74 | the skip-ahead search returns the least start of n free pages, and none exactly if there is none |
| Bitmap.AllocBitMap.SetPages | lib/allocator/bitmap.c:103-104 | exactly the pages of the range become allocated |
| Bitmap.AllocBitMap.ClearPages | lib/allocator/bitmap.c:125-127 | exactly the pages of the range become free |
| Bitmap.AllocBitMap.Alloc | lib/allocator/bitmap.c:17-27 | stops on zero pages, fails exactly if no run is free, otherwise allocates the least run |
| Bitmap.AllocBitMap.Free | lib/allocator/bitmap.c:108-128 | stops exactly unless the whole range lies in the pool and is allocated, or its end wraps 64 bits; frees just the range, and nothing if the end wraps |
| Region.RecordKeepsAgree | kernel/mm/vmm_region.c:29-45 | recording a fresh run keeps the set bits equal to the disjoint union of the recorded ranges |
| Region.EraseKeepsAgree | kernel/mm/vmm_region.c:47-64 | erasing a record and clearing its pages keeps them equal |
| Region.RecordedPagesAreSet | kernel/mm/vmm_region.c:47-64 | every page of a recorded range is set, so freeing it never meets an unallocated page |
| Region.UniqueSlot | kernel/mm/vmm_region.c:19-27 | no address is recorded twice |
| Region.AllocFreeRestores | kernel/mm/vmm_region.c:29-64 | allocating and freeing a range gives back every byte of the bitmap |
| Region.VMRegion.constructor | kernel/mm/vmm_region.c:9-17 | an empty region: no bit set, no record |
| Region.VMRegion.Find | kernel/mm/vmm_region.c:19-27 | the first slot recording the address, or none exactly if there is none |
| Region.VMRegion.Alloc | kernel/mm/vmm_region.c:29-45 | fails exactly if the table is full or no run is free, changing nothing; otherwise least run and a free slot |
| Region.VMRegion.Free | kernel/mm/vmm_region.c:47-64 | stops exactly if the address is not recorded; otherwise clears that range and its record and nothing else |
| Descriptors.DecodeEncode | kernel/include/mm/paging.h:63-85 | a page descriptor's fields read back as written |
| Descriptors.EncodeValid | kernel/include/mm/paging.h:63-85 | a written descriptor is a valid page entry that fits 64 bits |
| Descriptors.EncodeBits | kernel/include/mm/paging.h:62-83 | every bit of a page descriptor: attribute index, permissions, shareability, access flag, frame and the two execute-never bits in their places, all other bits clear |
| Descriptors.WriteLeaf | kernel/mm/paging.c:136-144 | the nine bit-field stores on a cleared entry produce exactly the encoded descriptor |
| Descriptors.WriteTable | kernel/mm/paging.c:243-246 | the stores for a new table link produce exactly a valid table entry for its frame |
| Descriptors.ReadTable | kernel/include/mm/paging.h:45-60 | a table entry reads back as valid, a table, and its frame, with every other bit clear |
| Descriptors.IndicesSpellVpn | kernel/mm/paging.c:20-24 | the four level indices are the base-512 digits of the page number |
| Paging.TranslateIsFlat | kernel/mm/paging.c:188-226 | in a well-formed table the four-level hardware walk of any address equals the flat page map |
| Paging.WordIsFlat | kernel/mm/paging.c:188-226 | the last-level word the hardware walk comes to is the descriptor of what was mapped |
| Paging.LinkKeepsTree | kernel/mm/paging.c:228-248 | linking a zeroed unshared page as a table keeps the tree of unshared tables and the flat map |
| Paging.WriteKeepsTree | kernel/mm/paging.c:126-145 | writing one leaf entry changes the translation of that page and of no other |
| Memory.FrameOfVirt | kernel/mm/kmem.c:86-102 | converting a frame to its virtual address and back gives the frame |
| Memory.StackPages | kernel/mm/kmem.c:31-50 | freeing the pages one after the other links them into a stack with the last on top, each page's first word the next page's address |
| Memory.RootOnly | kernel/mm/vmm.c:36-43 | with a zeroed page taken from the stack as root, and nothing else, every page is exactly one of free, table, handed out, and nothing is mapped |
| Memory.LinkSound | kernel/mm/paging.c:228-248 | turning a handed-out zero page into a table keeps every page exactly one of free, table, handed out |
| Memory.WriteSound | kernel/mm/paging.c:126-145 | rewriting a leaf entry keeps the whole memory state sound |
| Memory.StrayLink | kernel/mm/paging.c:228-248 | a valid link to a page that is no table breaks the memory state |
| Memory.ThreeMissing | kernel/mm/paging.c:188-226 | how many pages a walk takes: one for each of the page's three lower tables that is missing |
| Memory.NeededStep | kernel/mm/paging.c:111-149 | the tables a range needs grow page by page by those still missing on the next page's path |
| Memory.ReachedNext | kernel/mm/paging.c:126-145 | after one more page of a range the pages so far are mapped, and tables and free pages have changed by exactly the missing tables of their paths |
| Memory.ReachedStops | kernel/mm/paging.c:126-145 | where a range stops: at a page mapped already the pages sufficed so far, and otherwise some unmapped prefix of the range needed more than there were |
| Memory.MappedKeys | kernel/mm/paging.c:126-145 | a mapped range adds exactly its pages and changes no other page's entry |
| Memory.MappedAt | kernel/mm/paging.c:126-145 | page j of the range gets the j-th frame of the physical range |
| Memory.UnmapUndoesMap | kernel/mm/paging.c:111-175 | unmapping a range just mapped never stops and gives back the map there was |
| Memory.LookupInRange | kernel/mm/paging.c:177-186 | byte d of a mapped range looks up to byte d of the physical range exactly if the physical address is aligned and below 2^48 |
| Memory.FlatGrants | kernel/mm/paging.c:126-145 | a page of the flat map translates to its frame and attributes, and its stored word has them in their bits |
| Memory.MappedGrants | kernel/mm/paging.c:126-145 | every byte of a mapped range translates to its byte's frame with exactly the attributes asked for, and its descriptor has them in their bits |
| Memory.UnmappedDenies | kernel/mm/paging.c:163-172 | no byte of an unmapped range translates any more |
| Memory.LeafWraps | kernel/mm/paging.c:126-142 | a physical address that wraps 64 bits still yields the same frame field |
| Memory.Kernel.constructor | kernel/mm/vmm.c:36-43 | the top of the free stack becomes the zeroed root table; the rest stays free and nothing is mapped |
| Memory.Kernel.KmemAlloc | kernel/mm/kmem.c:53-63 | fails exactly when no page is free; otherwise the most recently freed page, zeroed, moves to handed out |
| Memory.Kernel.KmemFree | kernel/mm/kmem.c:65-81 | stops exactly on a misaligned address; otherwise the page goes on top of the stack |
| Memory.Kernel.FreeRange | kernel/mm/kmem.c:111-121 | exactly the whole pages inside the range become free; stops exactly if the start is misaligned and a page fits |
| Memory.Kernel.WriteFrame | kernel/mm/kmem.c:53-63 | the owner of a handed-out page may write any word of it: no translation and no page's status changes |
| Memory.Kernel.NextTable | kernel/mm/paging.c:228-248 | the child table exists afterwards, made from a zeroed page if it was missing; fails exactly if it is missing and no page is left, and then the entry is a valid link to the frame of the error pointer |
| Memory.Kernel.WalkTable | kernel/mm/paging.c:188-226 | the last-level table of the address, creating exactly its missing levels without disturbing any translation; fails exactly if fewer pages are free than levels are missing |
| Memory.Kernel.FindTable | kernel/mm/paging.c:188-226 | without allocation: the last-level table if all levels exist, and a stop only for an unmapped page |
| Memory.Kernel.MapPage | kernel/mm/paging.c:126-145 | one page: stops if it is mapped already, runs out exactly if fewer pages are free than its path lacks tables, else maps just it, with exactly the attributes asked for in the descriptor's bits, and adds just those tables |
| Memory.Kernel.UnmapPage | kernel/mm/paging.c:163-172 | one page: stops exactly if it is not mapped, else unmaps just it |
| Memory.Kernel.Map | kernel/mm/paging.c:111-149 | stops exactly on misalignment; else runs out of pages exactly if some unmapped prefix of the range needs more tables than pages are free; else stops exactly on a page mapped already; success maps exactly its range, adds exactly the missing tables, keeps a tree that walks as the flat map, and every byte then translates with exactly the attributes asked for |
| Memory.Kernel.Unmap | kernel/mm/paging.c:151-175 | stops exactly on misalignment, else on a page that is not mapped; success removes exactly its range, no byte of which translates any more |
| Memory.Kernel.Lookup | kernel/mm/paging.c:177-186 | a mapped address gives its frame plus offset; an unmapped one gives frame zero, or a stop if a table is missing |
| Vm.RegionPagesDiffer | kernel/mm/vmm.c:139-175 | distinct pages of a region have distinct page numbers |
| Vm.SyncChange | kernel/mm/vmm.c:65-124 | allocating and mapping, or freeing and unmapping, a run keeps region bitmap and page table in step |
| Vm.FreeRunIsUnmapped | kernel/mm/vmm.c:139-171 | a run the bitmap shows free has no mapped page, so mapping it never meets a mapped one |
| Vm.RecordedIsPresent | kernel/mm/vmm.c:114-124 | every page of a recorded range is mapped, so unmapping it never stops |
| Vm.FramesNeverShared | kernel/mm/vmm.c:139-175 | two different pages from the page allocator call never translate to one frame, nor to a table or free page |
| Vm.GrewOwned | kernel/mm/vmm.c:153-171 | every byte of a range from the page allocator call translates to its own frame with exactly the attributes asked for |
| Vm.DisjointRegionsApart | kernel/mm/vmm.c:27-30 | regions that do not overlap and lie within 2^48 bytes share no page number |
| Vm.KernelRegionsApart | kernel/include/memlayout.h:55-59 | the kernel's memory and device regions share no page number |
| Vm.OtherInStep | kernel/mm/vmm.c:65-175 | what one region maps or unmaps of its own leaves every other region in step with the page table |
| Vm.StepIffMatches | kernel/mm/vmm.c:114-124 | after an unmapping of m pages recorded as n, region and table agree exactly if no page was left out and none of the excess is the region's |
| Vm.ShortAt | kernel/mm/vmm.c:139-171 | whether pages run short is decided before the call, at the lowest free run of the region: its frames and its missing tables against the free pages |
| Vm.Manager.AllocPage | kernel/mm/vmm.c:153-171 | one fresh frame mapped at an unmapped page with exactly the attributes asked for, all other translations kept; stops exactly if fewer pages are free than the frame and the missing tables of its path |
| Vm.Manager.AllocPages | kernel/mm/vmm.c:153-171 | the loop adds exactly the pages of its range, each with a frame of its own and exactly the attributes asked for; stops exactly if fewer pages are free than its frames and missing tables |
| Vm.Manager.Alloc | kernel/mm/vmm.c:139-175 | stops exactly below one page, or if the lowest free run's frames and missing tables are more than the free pages; reports no memory exactly if the region has no slot or no run left, leaving everything as it was; success maps the lowest run of the region to fresh unshared frames and records it, and every byte of it then translates with exactly the attributes asked for; other regions stay in step |
| Vm.Manager.Map | kernel/mm/vmm.c:65-89 | rejects exactly a misaligned size; stops exactly if the size is zero, the region has no slot or no run left, mapping nothing, or the lowest free run's missing tables are more than the free pages; success maps the lowest run of the region to the given frames, and every byte of it then translates with exactly the attributes asked for; other regions stay in step |
| Vm.Manager.MapPlaced | kernel/mm/vmm.c:78-86 | mapping a run of unmapped pages fails exactly if its missing tables are more than the free pages, and otherwise adds exactly the run |
| Vm.Manager.Unmap | kernel/mm/vmm.c:114-124 | with the recorded size it always succeeds, removes exactly the range, and keeps this and other regions in step; with any size that succeeds the region stays in step exactly if the size matches the record |
| IntrusiveList.List.constructor | lib/ds/intrusivelist.c:9-14 | an empty list |
| IntrusiveList.List.InsertHead | lib/ds/intrusivelist.c:16-29 | the node becomes the first; links and count stay consistent |
| IntrusiveList.List.InsertTail | lib/ds/intrusivelist.c:31-44 | the node becomes the last |
| IntrusiveList.List.Remove | lib/ds/intrusivelist.c:46-63 | exactly that node leaves, from head, middle or tail, with its links cleared |
| IntrusiveList.List.RemoveHead | lib/ds/intrusivelist.c:65-84 | the first node leaves, or null exactly on an empty list |
| IntrusiveList.List.RemoveTail | lib/ds/intrusivelist.c:86-101 | the last node leaves; a list with no node is the caller's mistake, as in the code |
| Scheduler.InitOk | kernel/core/cpu.c:44-56 | the boot state, empty queues and an idle task per CPU, satisfies the invariant |
| Scheduler.StepKeepsInv | kernel/sched/scheduler.c:26-207 | for any operation on any CPU the outcome is a stop exactly under the stated condition, and otherwise the queue and state invariant holds again |
| Scheduler.QueueLaw | kernel/sync/run_queue.c:13-35 | a run queue gains exactly the task enqueued for its CPU or the current one put back, at its tail, loses exactly its head to a switch or the task dequeued by name, with the others in order, and changes by nothing else |
| Scheduler.TaskLaw | kernel/sched/scheduler.c:26-207 | what each step makes of each task: READY when enqueued or put back, BLOCKED, given its wait queue, RUNNING or DEAD by its own CPU, and untouched otherwise |
| Scheduler.WaitLaw | kernel/sync/wait_queue.c:14-33 | a wait queue gains just the task its CPU has marked for it, at the tail, and loses none |
| Scheduler.CpuLaw | kernel/sched/scheduler.c:120-207 | only a CPU's own steps change its current task and its place in a switch, and the current task only at its end, to the task chosen |
| Scheduler.Enqueued | kernel/sched/scheduler.c:26-38 | enqueueing puts the task last on its own CPU's queue, READY, and touches nothing else |
| Scheduler.StaysInHand | kernel/sched/scheduler.c:26-207 | a task that is queued, chosen or running stays so under every step but a dequeue by name and its own blocking or exit |
| Scheduler.NoTaskLost | kernel/sched/scheduler.c:26-207 | over any run, from its enqueueing on a task is queued, chosen or running until it is dequeued by name, blocks or exits |
| Scheduler.Advances | kernel/sched/scheduler.c:120-207 | a queued task never moves back: later arrivals do not overtake it |
| Scheduler.IdleOnlyWhenEmpty | kernel/sched/scheduler.c:159-163 | idle is chosen exactly at a moment when the run queue is empty |
| Scheduler.ChosenRuns | kernel/sched/scheduler.c:165-176 | a chosen task stays chosen until its CPU makes it current and RUNNING |
| Scheduler.BlockedStays | kernel/sched/scheduler.c:83-118 | no step other than a stop ends a BLOCKED task's wait |
| Scheduler.RunKeepsInv | kernel/sched/scheduler.c:26-207 | the invariant holds in every state of every run |
| Scheduler.RunIsSafe | kernel/sched/scheduler.c:26-207 | in every state: run queues hold READY tasks of their CPU, wait queues exactly the BLOCKED tasks naming them, no task is on two queues or twice on one, and outside a switch RUNNING means current |
| Scheduler.NoWaiterReturns | kernel/sched/scheduler.c:83-118 | once BLOCKED a task is BLOCKED in every later state: waking a waiter always fails the enqueue assertion |
| Scheduler.DecidesByTaking | kernel/sched/scheduler.c:159-176 | a CPU whose queue is not empty decides on its next task only by taking the head, never on idle |
| Scheduler.ChosenWait | kernel/sched/scheduler.c:165-207 | a chosen task is current and RUNNING after the next switch of its CPU |
| Scheduler.BoundedWait | kernel/sched/scheduler.c:120-207 | a task at position k is current and RUNNING by the (k+1)-th switch of its CPU, not counting one already decided, unless it is dequeued by name |
| Scheduler.EnqueuedRuns | kernel/sched/scheduler.c:26-207 | an enqueued task runs once its CPU has switched more often than there were tasks before it, unless dequeued by name |
| Scheduler.Machine.SchedulerEnqueue | kernel/sched/scheduler.c:26-38 | stops exactly on a RUNNING, BLOCKED or waiting task; otherwise the task is READY and last on its CPU's queue, and nothing else has changed |
| Scheduler.Machine.SchedulerDequeue | kernel/sched/scheduler.c:43-52 | stops exactly on a task that is not READY or waits; otherwise just that task leaves its queue, the others in order |
| Scheduler.Machine.BlockCurrent | kernel/sched/scheduler.c:57-78 | stops exactly if idle or nobody is current; otherwise the current task is BLOCKED and last on the wait queue, and its CPU runs the head of its queue, or idle |
| Scheduler.Machine.WakeOne | kernel/sched/scheduler.c:83-97 | returns exactly if nobody waits; with a waiter it stops |
| Scheduler.Machine.WakeAll | kernel/sched/scheduler.c:102-118 | the loop returns exactly if nobody waits |
| Scheduler.Machine.PutBack | kernel/sched/scheduler.c:120-157 | in place, the head of a switch does what the step does, stops included |
| Scheduler.Machine.PickNext | kernel/sched/scheduler_policy.c:6-21 | the head of the run queue, or idle if it is empty |
| Scheduler.Machine.Commit | kernel/sched/scheduler.c:165-207 | in place, the tail of a switch does what the step does |
| Scheduler.Machine.Switch | kernel/sched/scheduler.c:120-207 | a whole switch never fails an assertion: the current task goes to the tail, READY, if it still runs, the head becomes current and RUNNING, every other task and CPU is untouched |
| Scheduler.PickCpu | kernel/sched/scheduler.c:212-233 | the first online CPU with the fewest queued tasks, and none exactly if every online count reaches 2^63 - 1 |
| FdtTokens.MovesForward | thirdparty/libfdt/fdt.c:160-218 | every tag read without error moves at least four bytes forward to an aligned offset; errors come with the end tag |
| FdtTokens.ReadsToken | thirdparty/libfdt/fdt.c:160-218 | a token lying in the block is read as its tag and skipped exactly, padding ignored |
| FdtTokens.TokenThere | thirdparty/libfdt/fdt.c:160-218 | wherever a tag is read without error a whole token lies |
| FdtTokens.OneToken | thirdparty/libfdt/fdt.c:160-218 | an offset holds at most one token |
| FdtTokens.OneReading | thirdparty/libfdt/fdt.c:160-218 | two readings of one structure block agree as far as both go |
| FdtReader.OffsetPtr | thirdparty/libfdt/fdt.c:139-158 | the 32-bit wrap checks accept exactly the ranges inside the structure block |
| FdtReader.SkipName | thirdparty/libfdt/fdt.c:175-183 | the loop stops one past the name's terminator, or fails at the block's end |
| FdtReader.ReadTag | thirdparty/libfdt/fdt.c:160-218 | the scanner equals the byte-format definition on every offset and every block |
| FdtReader.CheckNodeOffset | thirdparty/libfdt/fdt.c:220-230 | accepts exactly aligned offsets where a node tag is read |
| FdtReader.NextNode | thirdparty/libfdt/fdt.c:244-282 | arrives at the next node with its depth, at the end of the enclosing node, or at the end of the tree; refuses offsets of other tokens |
| FdtReader.FirstNode | thirdparty/libfdt/fdt.c:244-282 | started before the root the walk arrives at the root, one level down |
| FdtReader.NextNodeAnywhere | thirdparty/libfdt/fdt.c:244-282 | without a depth: the next node after the given one, or the first, at whatever level, and not found exactly if there is none |
| FdtReader.FirstSubnode | thirdparty/libfdt/fdt.c:284-293 | the first direct child, and not found exactly if there is none |
| FdtReader.NextSubnode | thirdparty/libfdt/fdt.c:295-310 | the next node of the same level under the same parent, and not found exactly if there is none |
| FdtReader.ChildrenAreSiblings | thirdparty/libfdt/fdt.c:284-310 | the children after a child are exactly its later siblings |
| FdtReader.Subnodes | thirdparty/libfdt/libfdt.h:230-232 | iterating lists exactly the direct children of a node, in order |
| FdtReader.ParentIsLast | thirdparty/libfdt/fdt_ro.c:612-670 | a node's parent is the last earlier node one level up |
| FdtReader.SupernodeAtDepth | thirdparty/libfdt/fdt_ro.c:612-647 | for a node's offset the enclosing node at the asked level; an error for any offset that is no node's |
| FdtReader.NodeDepth | thirdparty/libfdt/fdt_ro.c:649-660 | the number of nodes around a node, or an error exactly if the offset is no node's |
| FdtReader.ParentOffset | thirdparty/libfdt/fdt_ro.c:662-670 | the node whose direct child this is; not found for the root; an error for other offsets |
| FdtCheck.GetString | thirdparty/libfdt/fdt_ro.c:33-97 | the name at an offset, in finished blobs from the start of the strings and in unfinished ones back from the end; none exactly if out of range or unterminated; before version 17 only the blob's end bounds it |
| FdtCheck.NumMemRsv | thirdparty/libfdt/fdt_ro.c:159-198 | the first reserve entry of size zero, and truncated exactly if none lies in the blob |
| FdtCheck.EndedReads | thirdparty/libfdt/fdt_ro.c:159-198 | the reserve map reads as a list of entries before the structure block exactly if an entry of size zero ends it there |
| FdtCheck.MapReads | thirdparty/libfdt/fdt_ro.c:159-198 | the count found is that of the entries before the first of size zero; it is all of them exactly if none has size zero |
| FdtCheck.RsvKept | thirdparty/libfdt/fdt_ro.c:159-198 | every entry and the end read the same in a blob with the same bytes before the structure block |
| FdtCheck.CheckHeader | thirdparty/libfdt/fdt.c:89-137 | accepts exactly headers whose blocks lie inside the blob, for every version and its header size, wrap checks included |
| FdtCheck.HeaderWords | thirdparty/libfdt/fdt.c:69-81 | a header has seven words, and one more from versions 2, 3 and 17 on each |
| FdtCheck.TokenFits | thirdparty/libfdt/fdt_check.c:40-96 | the tests of one turn of the scan are exactly whether the token may follow and, for a node, the depth stays an int |
| FdtCheck.DepthBound | thirdparty/libfdt/fdt_check.c:60-63 | nesting is at most a fourth of the bytes read, so the depth test never rejects a blob |
| FdtCheck.ScanStruct | thirdparty/libfdt/fdt_check.c:40-97 | the scan succeeds exactly if some reading of the block is complete, and then gives it |
| FdtCheck.CheckFull | thirdparty/libfdt/fdt_check.c:13-98 | returns zero exactly for accepted blobs: header, reserve map end, nesting, unnamed root, resolvable names, end tag |
| FdtCheck.AcceptedReads | thirdparty/libfdt/fdt_check.c:40-97 | an accepted blob whose first tag opens a node is one tree under that root, fit for every walk |
| FdtBytes.MoveBytes | lib/string.c:4-20 | an overlapping move delivers the source bytes as they were and touches nothing else |
| FdtBytes.FindString | thirdparty/libfdt/fdt.c:312-322 | the first place a name stands whole, and none exactly if it stands nowhere |
| FdtBytes.NamesKept | thirdparty/libfdt/fdt_sw.c:249-264 | names already stored stay where they are, counted from their own end, when a block grows |
| FdtBytes.RenameInPlace | thirdparty/libfdt/fdt_sw.c:358-369 | storing a new name offset changes that property and no other token |
| FdtWriter.Writer.Create | thirdparty/libfdt/fdt_sw.c:109-141 | fails exactly on a buffer below the header or unknown flags; otherwise an empty unfinished tree |
| FdtWriter.Writer.AddReservemapEntry | thirdparty/libfdt/fdt_sw.c:187-205 | succeeds exactly in its state and with room; all entries added so far read back |
| FdtWriter.Writer.FinishReservemap | thirdparty/libfdt/fdt_sw.c:207-216 | an empty entry ends the map behind the entries added, and the structure block begins |
| FdtWriter.Writer.Grab | thirdparty/libfdt/fdt_sw.c:94-107 | grants space exactly if it fits between structure and strings |
| FdtWriter.Writer.BeginNode | thirdparty/libfdt/fdt_sw.c:218-233 | succeeds exactly with room in its state, appending the node's opening; otherwise changes nothing |
| FdtWriter.Writer.EndNode | thirdparty/libfdt/fdt_sw.c:235-247 | succeeds exactly with room in its state, appending the node's end; otherwise changes nothing |
| FdtWriter.Writer.AddString | thirdparty/libfdt/fdt_sw.c:249-264 | a name goes below the strings, zero without room; the store leaves the buffer exactly if strings and name exceed the whole buffer |
| FdtWriter.Writer.FindAddString | thirdparty/libfdt/fdt_sw.c:275-290 | the offset stands for the name, shared or new, and everything written before still says what it said |
| FdtWriter.Writer.AddProperty | thirdparty/libfdt/fdt_sw.c:292-334 | success appends the property; failure leaves what was written saying the same, its name rolled back; enough room guarantees success |
| FdtWriter.Writer.Finish | thirdparty/libfdt/fdt_sw.c:336-383 | succeeds exactly with room for the end tag; the blob then says exactly the run of calls, names resolved from the start of the moved strings, and its reserve map the entries added |
| FdtWriter.Writer.Relocate | thirdparty/libfdt/fdt_sw.c:348-379 | moving the strings and rewriting every name offset keeps every name |
| FdtWriter.Writer.FixNames | thirdparty/libfdt/fdt_sw.c:355-371 | the pass rewrites every property's name offset once and nothing else |
| FdtWriter.FixSays | thirdparty/libfdt/fdt_sw.c:358-369 | an offset counted from the end and the same offset plus the size counted from the start are one name |
| FdtWriter.AcceptedIffTidy | thirdparty/libfdt/fdt_check.c:13-98 | the full check accepts a finished blob exactly if the calls were well nested under one unnamed root (and the blob is shorter than the largest int) |
| FdtWriter.TidyReads | thirdparty/libfdt/fdt_sw.c:336-383 | and then all tree walks read one tree from it |
| FdtEdit.SpliceLaid | thirdparty/libfdt/fdt_rw.c:55-95 | bytes spliced between tokens leave earlier tokens in place and move later ones as they are |
| FdtEdit.SpliceRooted | thirdparty/libfdt/fdt_rw.c:186-237 | putting in or replacing a property leaves a tree a tree |
| FdtEdit.RwProbe | thirdparty/libfdt/fdt_rw.c:13-41 | passes blocks in order, and what passes is in order exactly if no block's end wraps 32 bits |
| FdtEdit.NextProp | thirdparty/libfdt/fdt_ro.c:200-222 | the next property of the node past padding, and not found exactly at a node boundary |
| FdtEdit.GetProperty | thirdparty/libfdt/fdt_ro.c:393-417 | the node's first property of the name, not found exactly if it has none, and a bad offset exactly if no node's tag is read there |
| FdtEdit.Editor.SpliceData | thirdparty/libfdt/fdt_rw.c:55-69 | succeeds exactly if the result fits; bytes before stay and bytes after move |
| FdtEdit.Editor.SpliceStruct | thirdparty/libfdt/fdt_rw.c:84-95 | the same with structure size and strings offset brought up to date |
| FdtEdit.Editor.ResizeProperty | thirdparty/libfdt/fdt_rw.c:186-204 | succeeds exactly if it fits; that property's value is replaced and everything else reads as before |
| FdtEdit.Editor.FindAddString | thirdparty/libfdt/fdt_rw.c:127-155 | the name stands at the returned place, shared or appended, and every reading stays the same; fails exactly if it is not there and does not fit |
| FdtEdit.Editor.InsertProperty | thirdparty/libfdt/fdt_rw.c:206-237 | a new first property; fails exactly if it does not fit with its name, and then the name is taken back and everything reads as before |
| FdtEdit.Editor.SetProp | thirdparty/libfdt/fdt_rw.c:262-295 | fails exactly if no node's tag is read at the offset or the property, with a name that is not there yet, does not fit; success sets it and leaves every other node and property reading as before; failure leaves everything reading as before; a reserve map that ends before the structure block keeps every entry and its end, and the blob is then accepted by the full check exactly if it was |
| FdtEdit.SetReadsBack | thirdparty/libfdt/fdt_rw.c:281-295 | the property set is the node's first of its name and has the given bytes |
| FdtEdit.AcceptedEditable | thirdparty/libfdt/fdt_rw.c:13-41 | an accepted blob with its blocks in order can be edited |
| FdtEdit.EditableComplete | thirdparty/libfdt/fdt_rw.c:281-295 | after any edits the structure block is one the full check accepts exactly if the root is unnamed |
| FdtEdit.EditableAccepted | thirdparty/libfdt/fdt_check.c:13-98 | a blob that can be edited is accepted exactly if its root is unnamed and its reserve map ends in the blob |
| FdtEdit.MapRunsOver | thirdparty/libfdt/fdt_rw.c:13-41 | a blob that can be edited although its reserve map ends only inside a property's value, and is accepted if eight bytes of that value are zero |
| FdtEdit.SettingMovesMapEnd | thirdparty/libfdt/fdt_rw.c:262-295 | setting that property leaves a blob whose reserve map ends there exactly if the new value has the eight zero bytes, whatever the old one had |
| Framebuffer.Compare | thirdparty/Flanterm/src/flanterm_backends/fb.c:802-816 | cells compare equal exactly if they look the same |
| Framebuffer.RoomLeft | thirdparty/Flanterm/src/flanterm_backends/fb.c:835-837 | with a position not yet queued the queue has room, so its overflow branch is dead |
| Framebuffer.ScrollIsShift | thirdparty/Flanterm/src/flanterm_backends/fb.c:845-899 | shifting the rows between the margins and blanking the row left over is scrolling |
| Framebuffer.Terminal.constructor | thirdparty/Flanterm/src/flanterm_backends/fb.c:1494-1530 | a blank screen, nothing queued, cursor home |
| Framebuffer.Terminal.Push | thirdparty/Flanterm/src/flanterm_backends/fb.c:818-843 | the plain screen that queue, map and grid stand for changes at that cell only; nothing is lost while the map names every item, and otherwise exactly a cell that needs a new item of a full queue |
| Framebuffer.QueuedShows | thirdparty/Flanterm/src/flanterm_backends/fb.c:818-843 | each way a push may go keeps what the map names, keeps it complete, and replaces that cell of the plain screen |
| Framebuffer.Terminal.MoveCharacter | thirdparty/Flanterm/src/flanterm_backends/fb.c:948-967 | one cell of the plain screen is copied to another; out of range does nothing |
| Framebuffer.Terminal.Scroll | thirdparty/Flanterm/src/flanterm_backends/fb.c:874-899 | the plain screen scrolls up by one row between the margins |
| Framebuffer.Terminal.RevScroll | thirdparty/Flanterm/src/flanterm_backends/fb.c:845-872 | the plain screen scrolls down by one row between the margins |
| Framebuffer.Terminal.Clear | thirdparty/Flanterm/src/flanterm_backends/fb.c:901-918 | the plain screen is all blanks |
| Framebuffer.Terminal.SetCursorPos | thirdparty/Flanterm/src/flanterm_backends/fb.c:920-939 | any pair of 64-bit values lands on the screen; values from 2^63 on count as zero |
| Framebuffer.Terminal.GetCursorPos | thirdparty/Flanterm/src/flanterm_backends/fb.c:941-946 | the position with a column past the end counted as the last |
| Framebuffer.Terminal.RawPutChar | thirdparty/Flanterm/src/flanterm_backends/fb.c:1101-1127 | wraps, scrolls or stays as the modes say, writes one cell of the plain screen, and keeps the cursor at most one past the last column |
| Framebuffer.Terminal.DrawCursor | thirdparty/Flanterm/src/flanterm_backends/fb.c:1038-1065 | the cell under the cursor is drawn inverted and settled |
| Framebuffer.Terminal.Flush | thirdparty/Flanterm/src/flanterm_backends/fb.c:1067-1099 | nothing is left queued; of several items for a position the first is drawn, under the cursor the one the map names; with the map naming every item and the pixels in step they become a full redraw of the plain screen with the cursor, wherever it was and whether or not it moved or is shown |
| Framebuffer.Terminal.PlotItems | thirdparty/Flanterm/src/flanterm_backends/fb.c:1074-1083 | the loop of a flush draws at each pending position the first item for it and passes over the others |
| Framebuffer.FlushShows | thirdparty/Flanterm/src/flanterm_backends/fb.c:1067-1099 | a flush keeps the plain screen if the map named every item, and pixels in step become its redraw |
| Framebuffer.Terminal.FullRefresh | thirdparty/Flanterm/src/flanterm_backends/fb.c:1129-1175 | the plain screen is kept and the pixels show the grid and the cursor, with nothing queued a full redraw; the map names every item afterwards exactly if it did and no cell was queued under the cursor, and otherwise that item is left in the queue; later flushes stay right exactly if the cursor is hidden, off screen, where it was last drawn, or on a cell that looks the same inverted |
| Framebuffer.Overtaken | thirdparty/Flanterm/src/flanterm_backends/fb.c:1074-1083 | for an item so left behind, a later push to its position adds a second one, which the next flush passes over, drawing the older, unless the cursor stands there |
| Framebuffer.RefreshQueue | thirdparty/Flanterm/src/flanterm_backends/fb.c:1038-1065 | settling the cell under the cursor keeps the plain screen, and queue and map in order exactly if it was not queued |
| TerminalSpec.ParameterExact | thirdparty/Flanterm/src/flanterm.c:669-685 | a numeric parameter is its decimal value exactly if that fits 32 bits, and otherwise still exceeds a tenth of the range |
| TerminalSpec.ParameterSticks | thirdparty/Flanterm/src/flanterm.c:669-685 | past 32 bits a parameter is what its first digits make that exceed a tenth of the range, held to the range |
| TerminalSpec.DecodesEncoded | thirdparty/Flanterm/src/flanterm.c:1981-2063 | the UTF-8 encoding of every scalar value decodes to it, and of surrogates to an error |
| TerminalSpec.SecondByte | thirdparty/Flanterm/src/flanterm.c:1993-2016 | exactly the overlong second bytes are marked at once, and those past the last scalar value are dropped with no mark |
| TerminalRuns.ShowsEncoded | thirdparty/Flanterm/src/flanterm.c:1981-2063 | from between sequences the UTF-8 encoding of any scalar value outside ASCII draws its glyph, or replacements as wide as it is, and does nothing else |
| TerminalRuns.MarksSurrogate | thirdparty/Flanterm/src/flanterm.c:2022-2024 | the encoding of a surrogate draws one character, its last byte's |
| TerminalRuns.PastLastShowsNothing | thirdparty/Flanterm/src/flanterm.c:1993-2016 | a sequence past the last scalar value draws nothing at all |
| TerminalRuns.CharacterDrawn | thirdparty/Flanterm/src/flanterm.c:1968-2126 | a printable character with a glyph is one cell, in ASCII, the special set or UTF-8 |
| TerminalRuns.TextDrawn | thirdparty/Flanterm/src/flanterm.c:1968-2126 | a UTF-8 text that fits the row appears there, a cell for a character, with the cursor behind it and nothing else changed |
| TerminalRuns.SequenceRuns | thirdparty/Flanterm/src/flanterm.c:652-750 | a control sequence with up to sixteen parameters, given or empty, performs its final byte's function on their values; it is taken as a private one exactly if the private mark is still set |
| TerminalRuns.PrivateOutlivesCancel | thirdparty/Flanterm/src/flanterm.c:1968-1979 | cancelling a private sequence leaves the private mark set |
| TerminalRuns.Cancels | thirdparty/Flanterm/src/flanterm.c:1968-1979 | CAN ends whatever was in progress and draws nothing |
| TerminalRuns.CursorPlaced | thirdparty/Flanterm/src/flanterm.c:810-856 | cursor positioning with digit strings of any length goes to the decimal row and column, or the nearest, within the margins in origin mode |
| TerminalRuns.RestoresSaved | thirdparty/Flanterm/src/flanterm.c:1094-1120 | what ESC 7 saved ESC 8 brings back after any bytes of which none saves or resets again: cursor, pen and attributes, and nothing else |
| TerminalRuns.StepKeepsSaved | thirdparty/Flanterm/src/flanterm.c:1968-2126 | only ESC 7, ESC c and a private h with parameter 1049 change what was saved |
| TerminalRuns.WithoutTheseBytes | thirdparty/Flanterm/src/flanterm.c:1968-2126 | so no byte stream without the bytes 7, c and h does |
| TerminalRuns.RenditionRuns | thirdparty/Flanterm/src/flanterm.c:142-452 | a rendition sequence with one parameter, given in decimal, applies just that rendition and ends |
| TerminalRuns.PlainAgain | thirdparty/Flanterm/src/flanterm.c:151-164 | SGR 0 gives the plain pen and clears every attribute, and changes nothing else on the display |
| TerminalRuns.ReverseRuns | thirdparty/Flanterm/src/flanterm.c:361-376 | SGR 7 and 27 swap the pen's sides exactly if reverse video changes |
| TerminalRuns.ReverseAndBack | thirdparty/Flanterm/src/flanterm.c:361-376 | SGR 7 and then SGR 27 gives the display back exactly if the text was not reversed before or the pen looks the same swapped |
| TerminalRuns.ErasedAll | thirdparty/Flanterm/src/flanterm.c:941-944 | ESC [ 2 J makes every cell a blank in the pen's colours and changes nothing else |
| TerminalRuns.PrivateRuns | thirdparty/Flanterm/src/flanterm.c:457-502 | a private sequence with up to sixteen parameters sets or resets the modes they name and ends |
| TerminalRuns.CursorShown | thirdparty/Flanterm/src/flanterm.c:457-502 | ESC [ ? 25 h and l show and hide the cursor and change nothing else on the display |
| TerminalRuns.CommandShowsNothing | thirdparty/Flanterm/src/flanterm.c:566-602 | an operating system command of any length, ended by BEL or ESC backslash, leaves the display alone and the terminal between sequences |
| TerminalRuns.CharsetChosen | thirdparty/Flanterm/src/flanterm.c:2069-2082 | ESC ( and ESC ) with B or 0 make the first or the second set ASCII or the special graphics, and show nothing |
| TerminalCells.LineFeedByte | thirdparty/Flanterm/src/flanterm.c:626-636 | LF, VT and FF: the next row in the same column; on the last row between the margins all cells between them move up a row and the last is blank; nothing else changes |
| TerminalCells.CarriageReturnByte | thirdparty/Flanterm/src/flanterm.c:637-640 | CR: the first column, and nothing else |
| TerminalCells.BackspaceByte | thirdparty/Flanterm/src/flanterm.c:612-617 | BS: a column back unless there is none, and nothing else |
| TerminalCells.TabByte | thirdparty/Flanterm/src/flanterm.c:618-625 | HT: the next column that is a multiple of eight, or the last column if the row has none |
| TerminalCells.ShiftBytes | thirdparty/Flanterm/src/flanterm.c:641-646 | SO and SI choose the second and first character set and show nothing |
| TerminalCells.IgnoredByte | thirdparty/Flanterm/src/flanterm.c:647-649 | the other control characters do nothing to the display |
| TerminalCells.CancelByte | thirdparty/Flanterm/src/flanterm.c:1968-1979 | CAN and SUB in any state end what is in progress and show nothing |
| TerminalCells.ControlsWithin | thirdparty/Flanterm/src/flanterm.c:664-667 | a control character inside a control sequence acts as outside it, and the sequence goes on |
| TerminalCells.IndexEscape | thirdparty/Flanterm/src/flanterm.c:1178-1195 | ESC D and ESC E: a line feed in the same and in the first column, cell by cell |
| TerminalCells.ReverseIndexEscape | thirdparty/Flanterm/src/flanterm.c:1196-1204 | ESC M: a row up; on the top margin all cells between the margins move down a row and the first is blank |
| TerminalCells.ResetEscape | thirdparty/Flanterm/src/flanterm.c:1168-1177 | ESC c: blank cells in the plain colours, cursor home, margins at the edges, modes, attributes and sets at their defaults, and this saved |
| TerminalCells.ArgIs | thirdparty/Flanterm/src/flanterm.c:669-719 | what a final byte finds for a parameter is its decimal value or the default, exact up to 32 bits |
| TerminalCells.MoveSequence | thirdparty/Flanterm/src/flanterm.c:765-804 | the relative moves: by the number given, one if none, and no further than the edge or, in origin mode, the margin |
| TerminalCells.PlaceSequence | thirdparty/Flanterm/src/flanterm.c:810-855 | the absolute moves: to the row and column counted from one, the nearest if there is none, in origin mode within the margins |
| TerminalCells.MarginSequence | thirdparty/Flanterm/src/flanterm.c:1017-1033 | ESC [ r: the margins asked for exactly if they are at least two rows of the screen, else its edges, with the cursor home |
| TerminalCells.PlaceSaved | thirdparty/Flanterm/src/flanterm.c:986-988 | ESC [ s remembers the cursor's cell |
| TerminalCells.PlaceRecalled | thirdparty/Flanterm/src/flanterm.c:989-991 | ESC [ u goes to the cell remembered |
| TerminalCells.EraseSequence | thirdparty/Flanterm/src/flanterm.c:906-946 | ESC [ J and K blank exactly the cells before, from or around the cursor that the parameter says, on the screen or in the row |
| TerminalCells.InsertSequence | thirdparty/Flanterm/src/flanterm.c:947-963 | ESC [ @: blanks at the cursor, the rest of the row pushed right and out, all other cells kept |
| TerminalCells.DeleteSequence | thirdparty/Flanterm/src/flanterm.c:965-971 | ESC [ P: cells from the cursor on gone, the rest of the row pulled left, blanks behind it, all other cells kept |
| TerminalCells.ClearSequence | thirdparty/Flanterm/src/flanterm.c:972-982 | ESC [ X: so many cells of the row from the cursor on blank, all others kept |
| TerminalCells.ScrollSequence | thirdparty/Flanterm/src/flanterm.c:857-1052 | ESC [ S, T, M and L: the rows between the margins, or from the cursor's to the bottom margin, moved by so many rows, those left over blank, all others kept |
| TerminalCells.CharacterCells | thirdparty/Flanterm/src/flanterm_backends/fb.c:1101-1127 | a character in UTF-8: in its place in the pen's colours, the cursor behind it, after wrapping and scrolling as the modes say, or in insert mode with the rest of the row pushed right; all other cells kept |
| TerminalCells.AsciiCells | thirdparty/Flanterm/src/flanterm.c:2069-2125 | an ASCII character is drawn as itself, or in the special graphics set as its table says |
| TerminalCells.ReplacementCells | thirdparty/Flanterm/src/flanterm.c:2026-2046 | a character without a glyph is a mark and blanks as wide as it is, and nothing if it has no width |
| TerminalCells.RepeatSequence | thirdparty/Flanterm/src/flanterm.c:1054-1072 | ESC [ n b shows what sending the last character n more times would, at most a row's length |
| TerminalCells.InsertModeSequence | thirdparty/Flanterm/src/flanterm.c:514-538 | ESC [ 4 h and l set and reset insert mode and show nothing |
| TerminalCells.OriginMode | thirdparty/Flanterm/src/flanterm.c:476-480 | private mode 6: rows count from the top margin or the top, and the cursor goes to the first |
| TerminalCells.WrapMode | thirdparty/Flanterm/src/flanterm.c:481-483 | private mode 7: wrapping on or off, and nothing else |
| TerminalCells.AlternateMode | thirdparty/Flanterm/src/flanterm.c:487-495 | private mode 1049: set, saves, clears and goes home; reset, clears and brings back what was saved |
| TerminalCells.UnknownSequence | thirdparty/Flanterm/src/flanterm.c:1076-1091 | a final byte without a function, and a repetition of nothing, end the sequence and show nothing |
| TerminalCells.SkippedSequence | thirdparty/Flanterm/src/flanterm.c:734-748 | a sequence with intermediate bytes is skipped up to its final byte and does nothing |
| TerminalCells.FunctionKeyDropped | thirdparty/Flanterm/src/flanterm.c:653-657 | ESC [ [ takes the next byte with it and does nothing |
| TerminalCells.EscapeRestarts | thirdparty/Flanterm/src/flanterm.c:758-764 | ESC inside a control sequence drops it, and the next opens as if nothing had come before |
| TerminalCells.CommandCut | thirdparty/Flanterm/src/flanterm.c:566-602 | ESC inside an operating system command ends it, and with the next byte is an escape of its own |
| TerminalCells.BrokenCells | thirdparty/Flanterm/src/flanterm.c:1981-1992 | a UTF-8 sequence that an ASCII character breaks off shows as a mark, followed by the character |
| TerminalCells.UnknownToggle | thirdparty/Flanterm/src/flanterm.c:514-538 | the other modes of ESC [ h and l do nothing |
| TerminalCells.UnknownMode | thirdparty/Flanterm/src/flanterm.c:475-497 | private modes other than 6, 7, 25 and 1049 do nothing |
| TerminalCells.FirstText | thirdparty/Flanterm/src/flanterm.c:132-140 | a new terminal shows the first text it is sent in the top left corner of an otherwise blank screen |
| TerminalStyles.ColourSequence | thirdparty/Flanterm/src/flanterm.c:259-319 | SGR 30 to 37, 40 to 47, 90 to 97, 100 to 107: that colour for the text or the background, bright as its number or the side's bold says, on the other side in reverse video; nothing else changes |
| TerminalStyles.DefaultSequence | thirdparty/Flanterm/src/flanterm.c:321-359 | SGR 39 and 49: that side's default colour, bright if its bold is on, on the other side in reverse video |
| TerminalStyles.BoldSequence | thirdparty/Flanterm/src/flanterm.c:166-258 | SGR 1, 22, 5 and 25: bold on and off for the text and the background, the side's current colour given again, a direct colour left alone |
| TerminalStyles.UnknownRendition | thirdparty/Flanterm/src/flanterm.c:142-452 | any other parameter changes neither pen nor attributes |
| TerminalStyles.NumberedSequence | thirdparty/Flanterm/src/flanterm.c:377-452 | SGR 38;5;n and 48;5;n: colour n of 256, from the sixteen or the palette, on the other side in reverse video |
| TerminalStyles.DirectSequence | thirdparty/Flanterm/src/flanterm.c:377-452 | SGR 38;2;r;g;b and 48;2;r;g;b: that colour, eight bits of each part |
| TerminalStyles.RenditionSplits | thirdparty/Flanterm/src/flanterm.c:142-452 | several rendition parameters in one sequence leave the display and the attributes as sequences of their own would |
| TerminalStyles.ModesSplit | thirdparty/Flanterm/src/flanterm.c:457-502 | several private modes in one sequence leave display, attributes and saved state as sequences of their own would |
| Escape.NewTerminal | thirdparty/Flanterm/src/flanterm_backends/fb.c:1494-1592 | the initial state: blank, cursor home, whole screen between the margins, drawn in full |
| Escape.Parser.Write | thirdparty/Flanterm/src/flanterm.c:132-140 | every byte stream takes the terminal exactly where the plain terminal of the specification goes, indices stay in bounds, all loops end, and with automatic flushing the pixels are a full redraw of that terminal's screen and cursor |
| Escape.Parser.PutChar | thirdparty/Flanterm/src/flanterm.c:1968-2126 | every byte in every state: context, screen, cursor, pen, margins and modes become what the specification's step says |
| Escape.Parser.UnicodeByte | thirdparty/Flanterm/src/flanterm.c:1981-2046 | a byte in an open UTF-8 sequence: shown, marked, dropped or waited for as the decoder says, and left for the next stage exactly if it does not belong |
| Escape.Parser.PlainByte | thirdparty/Flanterm/src/flanterm.c:2069-2125 | a byte outside sequences names a character set, opens an escape, is a control or is printed |
| Escape.Parser.EscapeByte | thirdparty/Flanterm/src/flanterm.c:1122-1217 | a byte after an escape: the command, sequence or short escape it continues or opens, as the specification says |
| Escape.Parser.ControlSequence | thirdparty/Flanterm/src/flanterm.c:652-732 | a byte of a control sequence: introducer, control, digit, separator or end, as the specification says |
| Escape.Parser.NumberByte | thirdparty/Flanterm/src/flanterm.c:669-685 | a digit extends the current parameter in 32-bit arithmetic; digits past the sixteenth parameter are dropped |
| Escape.Parser.SetDefaults | thirdparty/Flanterm/src/flanterm.c:701-719 | missing parameters, and zeros, take the default the final byte has |
| Escape.Parser.FinalByte | thirdparty/Flanterm/src/flanterm.c:750-1091 | the final byte's function is performed with scrolling off and wrapping on, both are put back, and unknown finals end or skip the sequence |
| Escape.Parser.Perform | thirdparty/Flanterm/src/flanterm.c:764-1084 | each final byte selects its function, on screen, cursor, pen, margins or modes |
| Escape.Parser.Repeat | thirdparty/Flanterm/src/flanterm.c:1054-1072 | the last graphic character again as often as asked, at most a row's length, with the caller's modes |
| Escape.Parser.MarginsFromValues | thirdparty/Flanterm/src/flanterm.c:1017-1033 | the margins asked for if they are at least two rows inside the screen, else the whole screen; cursor home |
| Escape.Parser.MoveBy | thirdparty/Flanterm/src/flanterm.c:765-804 | relative moves clamp to the screen, and vertical ones in origin mode to the margins |
| Escape.Parser.MoveTo | thirdparty/Flanterm/src/flanterm.c:810-856 | absolute moves are counted from one and clamped likewise |
| Escape.Parser.ScrollBy | thirdparty/Flanterm/src/flanterm.c:857-884 | insert and delete line and scrolling act on the rows from the cursor, or the top margin, to the bottom margin, at most as often as there are rows; margins unchanged |
| Escape.Parser.EraseInDisplay | thirdparty/Flanterm/src/flanterm.c:906-946 | exactly the cells from the cursor to the end, from the start to the cursor, or all become blanks |
| Escape.Parser.EraseInLine | thirdparty/Flanterm/src/flanterm.c:992-1016 | the same within the cursor's row |
| Escape.Parser.InsertChars | thirdparty/Flanterm/src/flanterm.c:947-964 | blanks at the cursor with the rest of the row moved right, none past its end |
| Escape.Parser.DeleteChars | thirdparty/Flanterm/src/flanterm.c:965-982 | the rest of the row moved left over the deleted cells, blanks at its end |
| Escape.Parser.EraseChars | thirdparty/Flanterm/src/flanterm.c:972-982 | exactly that many blanks, none past the row's end |
| Escape.Parser.ExecuteC0 | thirdparty/Flanterm/src/flanterm.c:604-650 | backspace, tab, line feeds, carriage return and shifts in and out move the cursor, scroll or switch the character set, and nothing else |
| Escape.Parser.DecPrivate | thirdparty/Flanterm/src/flanterm.c:457-502 | private modes set or reset in order: origin, wrapping, cursor, and saving or restoring around a clear |
| Escape.Parser.LineFeed | thirdparty/Flanterm/src/flanterm.c:626-636 | scrolls exactly at the bottom margin, otherwise moves down unless on the last row |
| Escape.Parser.Sgr | thirdparty/Flanterm/src/flanterm.c:142-452 | the pen and the current colours after any parameter list, extended colours included; missing values end it |
| Escape.Parser.SgrColour | thirdparty/Flanterm/src/flanterm.c:259-319 | the colour goes to the side reverse video selects, bright as the text or background flag says |
| Escape.Parser.SgrReverse | thirdparty/Flanterm/src/flanterm.c:361-375 | the two colours swap exactly if reverse video changes |
| Escape.Parser.OscParse | thirdparty/Flanterm/src/flanterm.c:566-602 | a command's bytes are kept as far as the buffer goes; BEL or ESC backslash ends it, and ESC with another byte hands that byte on |
| Escape.Parser.Save | thirdparty/Flanterm/src/flanterm.c:1108-1120 | keeps exactly the attributes, charsets, pen and cursor, and changes nothing else |
| Escape.Parser.Restore | thirdparty/Flanterm/src/flanterm.c:1094-1106 | brings exactly those back, and changes nothing else |
| Numbers.Strtoul | lib/stdlib.c:13-74 | the value of the longest digit run, negated modulo 2^64 after a minus sign, or 2^64 - 1 if it does not fit, and where it stops, exactly if the 32-bit remainder does not cut the value off; if it does, 2^64 - 1; never reads past the terminator |
| Numbers.ReadsOnce | lib/stdlib.c:13-74 | a text has one reading |
| Numbers.CutoffIsExact | lib/stdlib.c:41-58 | the cutoff test is exactly whether the next value exceeds 64 bits |
| Numbers.CutNeedsWideBase | lib/stdlib.c:41-58 | a value in range is taken for too large only in a base of more than 31 bits |
| Numbers.NeverCutBelow31Bits | lib/stdlib.c:41-58 | so in no base up to 2^31, and in none the language allows |
| Numbers.CutExample | lib/stdlib.c:42-42 | the text 30 in base 2^62 is such a value |
| Numbers.EndIsStandard | lib/stdlib.c:34-74 | the parser stops where section 7.22.1.4 of C11 says exactly if the text is not a hexadecimal prefix with no hexadecimal digit behind it |
| Numbers.DigitsAreValue | kernel/debug/printf.c:121-124 | the digits have the number as their value, all belong to the base, and none is a needless zero |
| Numbers.DigitCount | kernel/debug/printf.c:121-124 | n digits suffice exactly below the n-th power of the base |
| Numbers.TextFits | kernel/debug/printf.c:110-130 | the text fits the 32-byte buffer exactly below the 32nd power of the base, 31st with a sign |
| Numbers.AlwaysFits | kernel/debug/printf.c:110-130 | every 64-bit value fits exactly in bases of at least five; so in 10 and 16 |
| Numbers.PrintDigits | kernel/debug/printf.c:110-130 | the buffer holds the text backwards, or a write past its end exactly if the text is longer |
| Numbers.PrintInt | kernel/debug/printf.c:132-140 | the text is appended to the output and nothing else changes |
| Numbers.ReadsBack | kernel/debug/printf.c:132-140 | parsing what was printed gives the value modulo 2^64 and stops right after it, whatever non-digit follows |
| Numbers.PointerReadsBack | kernel/debug/printf.c:78-82 | the same for printed pointers, in base 16 or with the base detected |

## Left out

- Drivers, interrupt controller, UART, timer, assembly, exception printing and boot protocol: hardware access and plumbing.
- TLB flushes, barriers and weak memory order.
- The mapping of the kernel's own sections at start: a list of calls of `Memory.Kernel.Map`.
- `vm_free`, which releases a region record twice; `runqueue_peek`, which uses the wrong member; `waitqueue_remove`, which leaves the task marked as waiting.
- Growth of the kernel heap: it asks for no room for the header, so success after growing cannot be claimed.
- `print_double`, `print_string`, format strings, console buffering, arena, ring buffer and the other list: they would only add easy members.
- Glyph drawing, fonts, rotation, colour conversion, the code page and width tables, and the terminal's callbacks.
- Device-tree overlays, property alignment before version 16, `fdt_resize`, `fdt_open_into`, node deletion and renaming, paths, aliases and phandles.
- Memory.Kernel.Map: the state after running out of table pages is not described beyond the empty stack; the kernel has stopped.
- Memory.Kernel.KmemFree: freeing a page that is already free, or is a table, is the caller's mistake and not described.
- Scheduler.Machine.Switch: task records and queues are values reassigned in place; the pointer structure of the queues is `IntrusiveList`.
- FdtEdit.Editor.SetProp: for names given whole, as `fdt_setprop` does (a rollback after a partial name would take back too many bytes), and not for an offset inside a name or value whose bytes read as a node's tag, which the code takes for a node.
- FdtCheck.CheckFull: versions from 17 on, which have the structure block's size; the header check and the names cover all versions.
- FreeList.Heap.AddRegion: regions shorter than a header are excluded; the code would write their header past their end.
- Scheduler.BoundedWait: counts switches; it does not bound time.
