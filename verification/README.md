# A verified model of the kernel's core data structures and protocols

This project models the parts of a RISC-V kernel, written in C, whose correctness is hard to see from the code, and
proves what they promise. Each part is a small group of Dafny modules.

- **Shared definitions** (`Common`).
- **Page-cache index** (`RadixIndex`, `RadixStore`, `RadixState`, `RadixTree`, `PageCacheFill`): the variable-height
  64-way radix tree with tagged pointers, child counts and two tag bitmaps refines a map with two sets, through any
  run of inserts, deletes and tag operations. The ordered scan reports exactly the wanted items. On top of it, the
  loops that fill the page cache, write it back and batch the disk transfers. A node is identified by its level and index prefix, so
  that all index arithmetic is repeated division by 64.
- **Page allocator** (`BuddyIndex`, `BuddyTiling`, `BuddyPool`, `Buddy`, `Kalloc`): splitting and merging over page
  metadata that is stale inside blocks, on pools of any size; a failed allocation means that no aligned run of free
  pages exists. With reference counts on top, any run of allocations, shares and frees refines a map of live blocks.
- **Virtual memory** (`PageTableStore`, `PageTable`, `CopyOnWrite`, `Vma`): the three-level tables of Sv39 (section
  4.4 of the RISC-V Privileged Architecture, version 20211203) with 2 MB superpages refine a flat map; allocation of a
  range is all or nothing; under any run of faults, forks and unmaps each process sees a private memory; splitting
  memory areas and mprotect.
- **Sleeping and scheduling** (`Counting`, `Semaphore`, `Scheduler`, `SchedulerWaits`, `SchedulerRace`): state
  machines over the interleaved steps of any number of threads and CPUs, with explicit lock owners.
- **Protocols on semaphores** (`PipeRing`, `Pipe`, `SiblingRing`, `ProcessTree`): the pipe, and clone, exit, reparent
  and waitpid.
- **Two forms of one thing** (`BufferCache`, `Crc16`): the block cache against a flat disk, and byte-wise CRC16
  against bit-wise long division (section 4.5 of the SD Physical Layer Simplified Specification).

Objects that the kernel updates in place are classes with a validity predicate; loops are methods with invariants.
Protocols are state machines: `Enabled` and `Apply` describe one step, `Reaches` a whole run, and each main theorem
holds of every reachable state. Where the steps of one lock-holder are cut, and what is joined into one step, is said
at the head of each module. Fields that no step reads (`home`, `wait`, `written`, `taken`, `flat`, `released`) record
history for the statements only. Memory allocation may fail wherever the kernel's may: which calls of the allocator
find no memory is an arbitrary set (`starved`), so that a refusal for want of memory is always one of those calls.

Where a promise does not hold of the code as it stands, the code is modelled as it is, the exact condition is proved,
and a member ends in the failing outcome:

- `get_free_mem` and the page counter agree if and only if the number of pages is a multiple of the number of CPUs
  (`Kalloc.Memory.GetFreeMem`); three pages on two CPUs do not (`Kalloc.CountedOutsidePools`).
- `calculate_crc16` reads a second byte even of a one-byte message; the two CRCs then agree if and only if that byte
  is zero (`Crc16.Calculate`, `Crc16.OverReadShows`).
- `cond_signal` can be stopped by `thread_wakeup_atomic`. In a run no signaller is ever stopped, or one step from it,
  if and only if every such wakeup finds its thread still in the waiting queue, and not as the only one there while a
  signaller stands between its test of the queue and its removal (`SchedulerWaits.StopsExactly`). After any other
  wakeup the next step of a signaller stops it; both ways are reached (`SchedulerRace.ExternalWakeupPanics`,
  `SchedulerRace.ExternalWakeupEmptiesQueue`).
- `uvmalloc` is all or nothing only over vacant space: a mapped page in the range, or a table of common pages left
  from earlier mappings where a superpage is to go, stops the kernel (`PageTable.Space.Uvmalloc`,
  `PageTable.LeftoverTableStops`).
- `copyout` writes through read-only leaves; others notice exactly when the frame is shared and its content changes
  (`CopyOnWrite.Machine.CopyoutPage`, `CopyOnWrite.CopyoutIsSeen`).
- `check_vma_intersect` misses an overlap exactly when the new area sticks out on both sides (`Vma.TouchesExactly`), so
  a new area can overlap old ones (`Vma.Space.MapRange`, `Vma.OverlapGoesIn`).
- An mprotect that is not refused succeeds if and only if its range lies inside one area, and stops the kernel
  otherwise (`Vma.Space.Mprotect`, `Vma.ProtectAcross`).
- A waitpid for one child reaps that child if and only if no child before it in the list has exited when the walk looks
  at it (`ProcessTree.ReapsTheWanted`, `ProcessTree.AnotherIsReaped`).

## Model

| member | source | states |
|---|---|---|
| `RadixTree.Tree.Lookup` | src/lib/radix-tree.c:213-257 | returns exactly the item mapped at the index, or NULL |
| `RadixTree.Tree.Insert` | src/lib/radix-tree.c:261-323 | returns -1 and changes nothing iff the index is taken; otherwise adds exactly one binding and no tag, growing the tree as needed |
| `RadixTree.Tree.Extend` | src/lib/radix-tree.c:327-364 | raises the height to the least that holds the index; map and tags unchanged |
| `RadixTree.Tree.PushRoot` | src/lib/radix-tree.c:342-362 | one new root above the old one leaves map and tags unchanged |
| `RadixTree.Tree.AddNode` | src/lib/radix-tree.c:284-297 | a missing node on the path appears with the parent's count, the tags and the map kept |
| `RadixTree.Tree.PutItem` | src/lib/radix-tree.c:310-322 | the free slot found carries no tag, so the assertions there hold; the item goes in |
| `RadixTree.Tree.Shrink` | src/lib/radix-tree.c:371-396 | brings the height back to the least possible; map and tags unchanged |
| `RadixTree.Tree.Delete` | src/lib/radix-tree.c:401-481 | returns the item and removes exactly that index, from the map and from both tags |
| `RadixTree.Tree.TagSet` | src/lib/radix-tree.c:63-90 | adds a stored index to the tag's set, and to nothing else; stops at an assertion iff the index is not stored, unless the tree is empty and of height zero |
| `RadixTree.Tree.TagClear` | src/lib/radix-tree.c:96-144 | removes the index from the tag's set, stored or not |
| `RadixTree.Tree.ClearBit` | src/lib/radix-tree.c:128-135 | one unwinding round: it goes on up exactly while no tagged item is left below |
| `RadixTree.Tree.TagGet` | src/lib/radix-tree.c:148-192 | true iff the index is in the tag's set |
| `RadixTree.Tree.LookupBatch` | src/lib/radix-tree.c:497-559 | one batch is the increasing list of the wanted items from the index up to a strictly larger one, which is the end of a leaf unless the limit is reached |
| `RadixTree.Tree.GangLookup` | src/lib/radix-tree.c:561-609 | an unlimited scan reports each wanted item from the first index on exactly once, in increasing order; a limited one reports all there is, or everything up to the end of a leaf beyond the first index, or as many as it may |
| `RadixTree.Tree.Serve` | src/lib/radix-tree.c:63-609 | any single request acts, and is answered, as on a map and two sets; a mark of an absent index stops the kernel |
| `RadixTree.Tree.Run` | src/lib/radix-tree.c:63-609 | any run of requests, up to one that stops the kernel, refines the same run on a map and two sets, answer by answer |
| `RadixTree.Tree.NodeMeaning` | src/lib/radix-tree.c:63-481 | in every well-formed tree a node's count is its number of non-null slots and positive; a slot is non-null iff an item lies below it; a tag bit is set iff an item below carries the tag; the root bit iff any item does |
| `RadixState.FreeUntagged` | src/lib/radix-tree.c:314-319 | in a well-formed tree no empty slot is tagged, in the nodes and at the root |
| `RadixState.MaxIndexShift` | src/lib/radix-tree.c:52-57 | an index fits a height iff nothing is left of it after that many divisions by 64 |
| `RadixIndex.ListingMembers` | src/lib/radix-tree.c:561-609 | the reference listing holds exactly the set's members in the range |
| `RadixIndex.ListingIncreasing` | src/lib/radix-tree.c:561-609 | the reference listing is strictly increasing |
| `RadixIndex.LeafListed` | src/lib/radix-tree.c:536-552 | a listing up to the end of a leaf holds every wanted item of that leaf from the first index on |
| `PageCacheFill.RunEnd` | src/fs/mpage.c:67-78 | finds the end of the run of adjacent pages, which are the pages of one call |
| `PageCacheFill.Batch` | src/fs/mpage.c:55-94 | the calls' pages, one after the other, are exactly the list; consecutive calls could not have been joined |
| `PageCacheFill.AddressSpace.Find` | src/mm/filemap.c:37-55 | found iff the index is cached |
| `PageCacheFill.AddressSpace.Add` | src/mm/filemap.c:12-34 | one more page in the cache and in its count; a taken index stops the kernel and changes nothing |
| `PageCacheFill.AddressSpace.GapEnd` | src/fs/mpage.c:124-131 | the longest run of absent pages from the start |
| `PageCacheFill.AddressSpace.FillGap` | src/fs/mpage.c:133-174 | the run is allocated contiguously, cached and listed in order |
| `PageCacheFill.AddressSpace.ReadPages` | src/fs/mpage.c:109-191 | stops the kernel iff the first page is cached or the allocator fails; otherwise the missing pages, in order and contiguous within a run, are added and, if asked for, read each exactly once in maximal batches |
| `PageCacheFill.RangeIsCached` | src/fs/mpage.c:109-191 | after the fill the whole range is cached, earlier entries are kept, nothing else appears |
| `PageCacheFill.MissingMeaning` | src/fs/mpage.c:121-131 | the missing pages are exactly the absent indices, in increasing order |
| `PageCacheFill.AddressSpace.WritePages` | src/fs/mpage.c:194-223 | the write-back of the dirty pages: exactly those, in increasing order, in maximal batches; its assertion fails iff pages are cached and none is dirty, and it panics iff the allocator fails |
| `PageCacheFill.WrittenOnce` | src/fs/mpage.c:194-223 | each dirty page is written at exactly one place of that order |
| `Buddy.Pool.GetBuddy` | src/mm/buddy.c:31-42 | the page at the same offset in the buddy of the page's block, or none iff that lies outside the pool |
| `Buddy.FlipIsBuddy` | src/mm/buddy.c:31-42 | flipping that bit gives the head of the other half of the next larger block |
| `Buddy.FlipMeaning` | src/mm/buddy.c:31-42 | for any page, flipping the bit goes to the same offset in the other half, and flipping twice comes back |
| `Buddy.Pool.GetPages` | src/mm/buddy.c:120-152 | fails iff the pool has no aligned run of that many free pages; otherwise hands out exactly such a run, the rest as before |
| `Buddy.Pool.SplitPage` | src/mm/buddy.c:154-167 | halves the block to the order wanted; the pool stays partitioned and no free page is lost |
| `Buddy.Pool.SplitOnce` | src/mm/buddy.c:157-165 | one halving; the assertion that the buddy is not allocated holds |
| `Buddy.Pool.FreePages` | src/mm/buddy.c:169-181 | exactly the pages of the block become free, and its free pages are counted |
| `Buddy.Pool.MergePage` | src/mm/buddy.c:183-213 | merges until the buddy is not free, changing nothing about who holds which page |
| `Buddy.Pool.FreeBytes` | src/mm/buddy.c:215-227 | the bytes of all free blocks |
| `Buddy.Pool.constructor` | src/mm/buddy.c:70-118 | after initialisation every page of a pool of any size is free |
| `Buddy.Pool.Accounts` | src/mm/buddy.c:120-213 | each counter is its list's length; the list names exactly the free blocks of its order, aligned inside the pool; no two buddies below the top order are both free |
| `Buddy.UseOf` | src/mm/buddy.c:148-171 | a page is marked allocated iff it is the head of an allocated block |
| `BuddyTiling.Partition` | src/mm/buddy.c:70-213 | every page is in exactly one block |
| `BuddyTiling.BlockInPool` | src/mm/buddy.c:31-42 | a block lies inside the pool, on a multiple of its size |
| `BuddyTiling.BuddyIsHead` | src/mm/buddy.c:183-213 | a buddy inside the pool is the head of a block no larger than it |
| `BuddyPool.BuddyTest` | src/mm/buddy.c:190-197 | not allocated and of the same order means: the buddy is a free block of that order |
| `BuddyPool.RunInOneBlock` | src/mm/buddy.c:183-213 | since free buddies never stay apart, an aligned run of free pages lies in one free block |
| `BuddyPool.RunMeansBlock` | src/mm/buddy.c:120-152 | there is a free block of at least that order iff there is an aligned run of free pages |
| `BuddyPool.SplitStep` | src/mm/buddy.c:154-167 | one halving keeps partition, lists, counters, flags and the separation of free buddies |
| `BuddyPool.MergeStep` | src/mm/buddy.c:197-204 | one joining keeps them |
| `Kalloc.SizeToPageOrder` | src/mm/kalloc.c:43-62 | the least order whose block holds the size |
| `Kalloc.Memory.constructor` | src/mm/buddy.c:45-68 | one pool per CPU, all pages free, counter equal to the number of pages |
| `Kalloc.Memory.TakeAny` | src/mm/kalloc.c:26-41 | fails iff no pool has such a run; otherwise takes it from the own pool if that has one, else from the first other that has; the live blocks of all pools stay as they were |
| `Kalloc.Memory.Kmalloc` | src/mm/kalloc.c:64-93 | a block of the least sufficient order, where no live block was, becomes live with one reference, and no other block changes; fails iff the live blocks leave no room, panics iff the order is too large; the own pool is preferred; the counter follows |
| `Kalloc.Memory.Kfree` | src/mm/kalloc.c:139-161 | refused iff no live block begins there; drops one reference; with the last one exactly that block is no longer live and the counter rises by its size |
| `Kalloc.Memory.SharePage` | src/mm/kalloc.c:163-168 | one more reference to the live block that begins there, nothing else; its assertion fails iff there is none |
| `Kalloc.Memory.GetFreeMem` | src/mm/buddy.c:215-227 | the free bytes of all pools; equal to the counter iff the page number is a multiple of the CPU number |
| `Kalloc.CountedOutsidePools` | src/mm/buddy.c:215-227 | three pages on two CPUs: 12288 bytes counted, 8192 found |
| `Kalloc.Memory.Serve` | src/mm/kalloc.c:64-168 | any single request acts as on a map of live blocks and is answered fairly |
| `Kalloc.Memory.Run` | src/mm/kalloc.c:64-168 | any run of kmalloc, share_page and kfree does; live blocks stay disjoint; the counter and the live blocks make up all pages |
| `Kalloc.Memory.LiveBlocks` | src/mm/kalloc.c:64-168 | live blocks are aligned, inside their pools and pairwise disjoint, with positive counts |
| `Kalloc.Memory.BookMeaning` | src/mm/kalloc.c:64-168 | a page is free iff no live block covers it, and referenced iff one begins there |
| `Kalloc.Memory.ExhaustedMeaning` | src/mm/kalloc.c:26-41 | no pool has an aligned free run iff the live blocks leave no room for one |
| `PageTable.Space.constructor` | src/mm/vm.c:299-305 | an empty table maps nothing |
| `PageTable.Space.WalkOnly` | src/mm/vm.c:113-141 | without allocation: the entry for the page and the level of the leaf on its path, or none |
| `PageTable.Space.WalkAlloc` | src/mm/vm.c:113-141 | with allocation: as before, adding only tables on the path and changing no mapping; no entry iff the allocator fails |
| `PageTable.Space.WalkAddr` | src/mm/vm.c:161-184 | the flat translation of the page, with the offset inside a superpage, for user pages |
| `PageTable.Space.MapOne` | src/mm/vm.c:225-236 | one new leaf over nothing; every other page translates as before |
| `PageTable.Space.MapPages` | src/mm/vm.c:198-243 | maps exactly the units of the range to consecutive frames; stops part way iff the allocator fails, at a page mapped already, or at the end of the address space |
| `PageTable.Space.UnmapAt` | src/mm/vm.c:260-285 | erases the one leaf that maps the page, and frees its block if asked for |
| `PageTable.Space.Unmap` | src/mm/vm.c:250-295 | removes exactly the pages of the range; succeeds iff it may skip unmapped pages or every page is mapped |
| `PageTable.Space.Uvmdealloc` | src/mm/vm.c:375-385 | unmaps and frees exactly the pages between the two rounded sizes, iff all of them are mapped |
| `PageTable.Space.GrowPages` | src/mm/vm.c:321-332 | the loops over common pages, head and tail: grown up to the limit, or everything undone, or stopped at a page that was mapped before |
| `PageTable.Space.GrowSupers` | src/mm/vm.c:338-352 | the loop over superpages: grown up to the end, or everything undone, or stopped where a page was mapped or a table of common pages stood before |
| `PageTable.Space.Uvmalloc` | src/mm/vm.c:309-369 | all or nothing: on success exactly the rounded range is covered by new leaves with new blocks; iff the allocator fails, leaves and blocks are as before; a success means the range was vacant, a stop that it was not |
| `PageTable.LeftoverTableStops` | src/mm/vm.c:225-235 | in an empty space, after a page was mapped and unmapped, uvmalloc of a superpage stops the kernel |
| `PageTable.Space.Undo` | src/mm/vm.c:323-331 | the failure path restores the leaves and blocks of the start |
| `PageTable.OldOutside` | src/mm/vm.c:321-365 | whatever was grown was not mapped before |
| `PageTable.GrownFlat` | src/mm/vm.c:309-369 | in the flat view each page of the range maps into a new block, all others as before |
| `PageTable.GrownInjective` | src/mm/vm.c:309-369 | two pages of the range never share a frame |
| `PageTableStore.SetLeaf` | src/mm/vm.c:236-236 | writing a leaf keeps the tables well formed and changes the flat map in exactly its unit |
| `PageTableStore.ClearLeaf` | src/mm/vm.c:285-285 | erasing a leaf unmaps exactly its unit |
| `CopyOnWrite.SharingKeepsPermission` | src/mm/vm.c:478-489 | the flag rewriting of fork neither grants nor takes a right to write, and is idempotent |
| `CopyOnWrite.Machine.Fork` | src/mm/vm.c:429-517 | the child's memory is the parent's page by page, its leaves shared or, in the stack, new; nobody else's memory or right to write changes; it stops early iff there is no memory for a stack page |
| `CopyOnWrite.CopiedMeaning` | src/mm/vm.c:429-517 | the child sees exactly what the parent saw, and nobody else sees a difference |
| `CopyOnWrite.ForkedPower` | src/mm/vm.c:478-489 | the leaves a fork leaves behind give every process the rights it had, and the child its parent's |
| `CopyOnWrite.Machine.Cow` | src/mm/pagefault.c:95-117 | a private writable copy, with no process's memory changed |
| `CopyOnWrite.Machine.Demand` | src/mm/pagefault.c:65-66 | a fresh zero page in one process, or nothing |
| `CopyOnWrite.Machine.Write` | src/mm/pagefault.c:42-93 | a store changes one byte in one process's memory; granted through a writable leaf, denied without the right, and through a copy-on-write leaf refused only for want of memory |
| `CopyOnWrite.Machine.Unmap` | src/mm/kalloc.c:139-161 | removes one page of one process, and its frame with the last reference |
| `CopyOnWrite.Machine.CopyoutPage` | src/mm/vm.c:546-566 | when it succeeds, and that it is private on pages the process may write; on the others exactly when the frame has one leaf or its content stays |
| `CopyOnWrite.CopyoutIsSeen` | src/mm/vm.c:546-566 | a read-only page after a fork: what copyout writes for one process the other sees |
| `CopyOnWrite.Machine.Serve` | src/mm/pagefault.c:42-117 | any single request acts as on private memories with rights, and is answered fairly: denied for lack of a right only, out of memory iff the allocator fails, a release never refused |
| `CopyOnWrite.Machine.Run` | src/mm/vm.c:429-517 | any run of stores, faults, forks and unmaps acts as on private memories, every answer fair, somebody turned away for want of memory iff the allocator fails |
| `CopyOnWrite.ShareStep` | src/mm/vm.c:478-508 | sharing keeps: count = number of leaves naming the frame, and a writable leaf is the only one |
| `CopyOnWrite.DropStep` | src/mm/kalloc.c:139-161 | dropping a reference keeps them, freeing the frame with the last |
| `CopyOnWrite.RawStore` | src/mm/vm.c:560-566 | a store that ignores the flags is private iff the frame has one leaf or its content stays |
| `Vma.Space.Alloc` | src/mm/vma.c:26-39 | the first unused slot, or none iff all are used |
| `Vma.Space.Intersects` | src/mm/vma.c:50-66 | true iff an end of the area lies in a listed one |
| `Vma.TouchesExactly` | src/mm/vma.c:50-66 | the test misses an overlap iff the area sticks out on both sides |
| `Vma.Space.MapRange` | src/mm/vma.c:130-157 | a new area in the first unused slot; stops iff the address is unaligned or the test sees an overlap; the areas then stay disjoint iff it swallows none |
| `Vma.AddDisjoint` | src/mm/vma.c:68-77 | an area that passes the test keeps the areas disjoint iff it swallows none |
| `Vma.OverlapGoesIn` | src/mm/vma.c:50-77 | three pages around one: the test passes and the two areas overlap |
| `Vma.Space.Find` | src/mm/vma.c:224-235 | the first listed area that covers the address |
| `Vma.Unique` | src/mm/vma.c:224-235 | with disjoint areas it is the only one |
| `Vma.Space.Split` | src/mm/vma.c:351-387 | inside the area: the overlap assertion holds and the two pieces replace it; beyond its end: never succeeds; fails, changing nothing, iff no slot is unused |
| `Vma.SplitMeaning` | src/mm/vma.c:351-387 | every address keeps its permission, kind, file and file offset |
| `Vma.SplitDisjoint` | src/mm/vma.c:351-387 | the areas stay disjoint |
| `Vma.SplitApart` | src/mm/vma.c:68-77 | the new piece touches no listed area |
| `Vma.Space.Mprotect` | src/mm/mmap.c:152-190 | on success the permission of exactly the rounded range changes; on -1 no address's meaning does; -1 iff the range wraps, the permission is invalid, no area covers the start or a cut finds no slot; otherwise success iff the range lies inside one area, and a stop if not |
| `Vma.ProtectAcross` | src/mm/mmap.c:152-190 | two adjacent areas: mprotect of both stops the kernel |
| `Vma.ProtectMeaning` | src/mm/mmap.c:188-188 | a new permission on an area is one on exactly its addresses |
| `Semaphore.Safety` | src/atomic/semaphore.c:12-32 | every reachable state keeps lock, waiting queue, accounts and wakeups |
| `Semaphore.WaitsAndTokens` | src/atomic/semaphore.c:12-32 | one thread inside; unfinished waits = max(0, -value) + wakeup; completed and completing waits + tokens + wakeups = initial value + signals |
| `Semaphore.NoLostWakeup` | src/atomic/semaphore.c:12-32 | a granted wakeup that nobody is about to send has a thread out of the queue on its way |
| `Semaphore.WakeupIsTaken` | src/atomic/semaphore.c:16-20 | with the lock free, two steps of such a thread complete its wait |
| `Semaphore.Quiescent` | src/atomic/semaphore.c:12-32 | when nobody is in between, exactly the waits without a token sleep |
| `Semaphore.CountStep` | src/atomic/semaphore.c:12-32 | each single step keeps accounts and wakeups, spurious wakeups included |
| `Semaphore.StepRefines` | src/atomic/semaphore.c:12-32 | each step is a step, or none, of a counter whose wait completes exactly by taking a token and whose signal adds one |
| `Semaphore.RunRefines` | src/atomic/semaphore.c:5-32 | any run is a run of that counter from the initial value |
| `Semaphore.TokenIsTaken` | src/atomic/semaphore.c:12-32 | with a token, a waiting thread and the lock free, two steps complete a wait |
| `Scheduler.StepKeeps` | src/proc/sched.c:53-166 | every step of any CPU keeps the agreement of locks, states, queues and CPUs |
| `Scheduler.Safety` | src/proc/sched.c:53-166 | so every reachable state has it |
| `Scheduler.OneCpuPerThread` | src/proc/sched.c:147-166 | no thread is executed by two CPUs; a lock and a mutex have one owner |
| `Scheduler.RunningIsAlone` | src/proc/sched.c:53-166 | a thread executed outside its lock is RUNNING, in no state queue, popped by no scheduler |
| `Scheduler.SwitchIsSafe` | src/proc/sched.c:111-121 | at the switch only the thread's lock is held and it is not RUNNING, so those panics are unreachable; the thread is in a queue or popped |
| `SchedulerWaits.WaitSafety` | src/atomic/cond.c:21-67 | as long as every external wakeup is harmless, waiting queues hold exactly the threads that wait there |
| `SchedulerWaits.SignalNeverPanics` | src/atomic/cond.c:50-67 | then the signaller always finds a thread, and it is SLEEPING |
| `SchedulerWaits.WakeupWaits` | src/proc/sched.c:95-108 | a wakeup of a thread still in its waiting queue, outside a signaller's window on a queue of one, keeps what the signallers rely on |
| `SchedulerWaits.HarmfulStops` | src/atomic/cond.c:50-66 | after any other wakeup there is a signaller whose next step stops it |
| `SchedulerWaits.StopsExactly` | src/atomic/cond.c:50-67 | in any run: nobody is ever stopped or a step from it iff every external wakeup is harmless |
| `SchedulerWaits.NoSleeperForgotten` | src/atomic/cond.c:21-67 | with harmless wakeups a SLEEPING thread is in the waiting queue its wait_chan_entry names, or a signaller has it |
| `SchedulerRace.ExternalWakeupPanics` | src/proc/sched.c:95-108 | one external wakeup between dequeue and lock leads to the panic |
| `SchedulerRace.ExternalWakeupEmptiesQueue` | src/atomic/cond.c:50-56 | one between the test of the queue and the dequeue leaves the signaller without a thread |
| `PipeRing.Ring.IsFull` | include/ipc/pipe.h:36-36 | the wrapped comparison says exactly that PIPESIZE bytes are inside |
| `PipeRing.Ring.IsEmpty` | include/ipc/pipe.h:37-37 | the comparison says exactly that no byte is inside |
| `PipeRing.Ring.Put` | src/ipc/pipe.c:88-88 | appends a byte, across counter wrap-around |
| `PipeRing.Ring.Get` | src/ipc/pipe.c:123-126 | takes the oldest byte, across counter wrap-around |
| `PipeRing.Ring.Fill` | src/ipc/pipe.c:74-98 | appends the bytes in order until they end, the ring is full or the copy faults |
| `PipeRing.Ring.Drain` | src/ipc/pipe.c:120-127 | takes the oldest bytes in order until enough, empty or the copy faults |
| `Pipe.PrefixOfWritten` | src/ipc/pipe.c:53-131 | for any readers, writers and closes: bytes read are a prefix of bytes written, at most PIPESIZE behind |
| `Pipe.NeverBothBlocked` | src/ipc/pipe.c:53-131 | one reader and one writer are never both asleep without a token |
| `Pipe.BlockedForAReason` | src/ipc/pipe.c:53-131 | a blocked reader has an empty pipe and an open writer, a blocked writer a full pipe and an open reader |
| `Pipe.NeverStuck` | src/ipc/pipe.c:69-131 | while both are inside their calls, one can step |
| `SiblingRing.Family.AppendChild` | src/proc/pcb_life.c:83-89 | the ring's list of children grows at the end |
| `SiblingRing.Family.DeleteChild` | src/proc/pcb_life.c:71-81 | exactly that child leaves the list |
| `SiblingRing.Family.HandOver` | src/proc/pcb_life.c:580-599 | the first child goes to the end of init's list, with a token if it is a zombie |
| `SiblingRing.Family.Reparent` | src/proc/pcb_life.c:569-615 | the exiting process ends childless, all its children appended in order to init's, init signalled once per zombie |
| `SiblingRing.AdoptedMeaning` | src/proc/pcb_life.c:591-591 | exactly the adopted processes get init as parent |
| `SiblingRing.AppendLinks` | include/lib/list.h:121-123 | insertion before the first node extends the ring at the end |
| `SiblingRing.RemoveLinks` | include/lib/list.h:97-100 | deletion closes the ring over the node |
| `ProcessTree.StepKeeps` | src/proc/pcb_life.c:401-615 | every step keeps the tree, the zombie count and the zombie ahead of each walk |
| `ProcessTree.Safety` | src/proc/pcb_life.c:401-615 | so every reachable state has them |
| `ProcessTree.ZombiesAreTokens` | src/proc/pcb_life.c:502-565 | reported zombie children of a live process = its tokens, plus one between wait and reap; the invalid-wakeup panic is unreachable |
| `ProcessTree.WaitEndsWithAZombie` | src/proc/pcb_life.c:523-523 | a waiting process can go on iff it has a reported zombie child |
| `ProcessTree.WaitsForTheWantedChild` | src/proc/pcb_life.c:533-538 | at the child it wants the walk waits exactly until that child has exited, at any other not at all |
| `ProcessTree.ReapsTheWanted` | src/proc/pcb_life.c:532-560 | a walk for one child reaps it iff no child before it has exited when the walk looks at it; it reaps the first it finds exited |
| `ProcessTree.AnotherIsReaped` | src/proc/pcb_life.c:532-560 | a run in which waitpid for a live child reaps another |
| `ProcessTree.OrphansAreAdopted` | src/proc/pcb_life.c:417-450 | an exited process has no children; everyone else is in the list of a parent that has not exited |
| `BufferCache.Bcache.Bget` | src/fs/bio.c:39-70 | the first matching buffer from the front, else the last unreferenced one, else nothing |
| `BufferCache.StepKeeps` | src/fs/bio.c:39-116 | every step keeps counts, list order, uniqueness and agreement with the disks |
| `BufferCache.Safety` | src/fs/bio.c:39-116 | so every reachable state has them |
| `BufferCache.Transparent` | src/fs/bio.c:73-84 | whoever holds a block after bread sees what a flat disk would hold, alone |
| `BufferCache.UnlockedIsClean` | src/fs/bio.c:101-116 | no block in two buffers; an unlocked valid buffer equals its disk block; an unreferenced one is nobody's |
| `BufferCache.RecyclesLeastRecent` | src/fs/bio.c:56-69 | recycling takes the unreferenced buffer least recently released, and panics iff all are referenced |
| `Crc16.UpdateClosed` | include/driver/crc.h:48-57 | the byte-wise update is: shift up a byte, add quotient times polynomial |
| `Crc16.EightSteps` | include/driver/crc.h:76-80 | eight division steps do the same to the register |
| `Crc16.ByteStep` | include/driver/crc.h:71-81 | one byte of long division is one byte-wise update, the next byte moving up |
| `Crc16.Calculate` | include/driver/crc.h:60-83 | long division equals the byte-wise fold for every length but one; for one byte iff the byte after it is zero |
| `Crc16.OverReadShows` | include/driver/crc.h:60-83 | one byte with a nonzero byte behind it: the two computations differ |
| `Crc16.UpdateLinear` | include/driver/crc.h:48-57 | the update of a difference is the difference of the updates |
| `Crc16.DetectsBursts` | include/driver/crc.h:48-57 | messages differing within sixteen consecutive bits never share a CRC |
| `Crc16.DetectsSingleBit` | include/driver/crc.h:48-57 | flipping one bit always changes the CRC |
| `Crc16.UpdateOdd` | include/driver/crc.h:48-57 | the remainder carries the parity of what went in |
| `Crc16.DetectsOddErrors` | include/driver/crc.h:48-57 | messages of equal length differing in an odd number of bits, anywhere, never share a CRC |

## Left out

- SizeToPageOrder: sizes are unbounded; the 32-bit shift in the source overflows for blocks that cannot be allocated anyway.
- GangLookup: only the unlimited scan is complete, because the source stops a limited one after its first batch.
- Insert: indices are below 2^30, where the height stays within five; beyond, the 32-bit shift of src/lib/radix-tree.c:56 is undefined in C. Node allocation does not fail.
- Unmap: superpages are inside or outside the range; one cut by it is freed as a whole, and below a cut at the start new, empty pages are mapped (src/mm/vm.c:288-291), so there is no mapping to preserve.
- Uvmdealloc: as for Unmap, no superpage is cut.
- Uvmalloc: table pages made on the way are not taken back on failure, as in the source.
- MapPages: permissions include R or X; an entry with neither would read as a pointer to a table.
- Fork: no CLONE_VM and no shared file mapping, which share memory on purpose; stack pages are mapped and common; a failed mapping panics in the source and ends the run.
- CopyoutPage: one page that is mapped already; the unmapped case dereferences the entry pointer obtained before the fault.
- Demand: file contents read on a fault are not modelled.
- Cow: the new page is mapped after the old one is dropped, where the source does the reverse; both happen within one fault.
- ReadPages: what the disk holds is not modelled.
- Split: file reference counts.
- ExternalWakeupPanics: what other CPUs do after a panic is not restricted.
- PrefixOfWritten: kill, and use of a pipe after both ends are closed and it is freed.
- ZombiesAreTokens: one thread per process and successful copyout of the status; freeing the child and unlinking it are one step, since only the parent reaps.
- Transparent: requests are for nonzero devices, and a changed buffer is passed to bwrite before it is released.
- Locks, atomics and interrupts inside the allocator and the page tables: one caller at a time.
- Memory recycling when few pages are left (alloc_fail).
- Context switch internals, trap entry, drivers and inline assembly: hardware effects.
- FAT32, VFS and the file map's read and write loops.
- Kill, exit groups, signals, futex timeouts, timers and select.
- String-keyed hash tables, whose equality is by hash value, and the byte-wise crc7, which is not a step form of calculate_crc7.
- Sockets, shared memory segments, exec, console and printing.
