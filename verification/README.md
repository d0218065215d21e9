# A model of the kernel's memory, scheduling and process life, and of its user-level locks

The kernel gives each process a two-level page table, shares frames between parent and
child with copy-on-write, schedules threads round robin from lists embedded in their
control blocks, and keeps processes in a forest whose exited members are collected by
`wait`. Its thread library builds mutexes, condition variables and semaphores from
`testandset`, `deschedule` and `make_runnable`. This project models these parts and proves
what they guarantee over every run.

Four developments, each with a specification on values, the results about it, and, where
the kernel updates memory in place, classes proved against the specification:

* **Memory** - `FrameAllocator`, `PageTables`, `VirtualMemory` (the operations),
  `VmInvariant` (what each keeps), `VmFork`, `EagerMemory` and `VmRefinement`
  (copy-on-write refines eager copying), `VmLimits` and `VmSharing` (where it does not, and
  what fork shares),
  `PageDirectories` and `MemorySystem` (in place, on arrays of entries); `Regions` and
  `RegionOutcomes` for new_pages and remove_pages, `RegionCalls` (in place).
* **User-level locks** - `UserMutex` (each testandset, test, list operation and store is
  one step of one of any number of threads), `Semaphore` (with the condition variable and
  the kernel's blocking calls), `SemaphoreProgress` (what the calls achieve), `UserList`.
* **Scheduler** - `ThreadList` (embedded doubly linked lists), `Scheduler` (setters, calls
  and timer), `SchedulerRuns` (runs, bounded waiting, sleeping), `SchedulerCalls` (in
  place, on the linked lists).
* **Processes** - `Lifecycle`, `LifecycleRuns`, `ProcessTree` (in place, on the linked
  sibling and thread chains), `ThreadHash`; `WaitProtocol` and `WaitRuns` (wait and vanish
  against each other, in steps), `WaitLists` (that the scheduler's waiting lists follow
  them).

`Collections` holds options and plain facts about sequences and sets.

## Reading the model

* A page is named by process, directory and table index; `OffsetsBijective` ties these to
  32-bit addresses. Entries are records of flags and a physical page number. Counts are at
  most 255, as the kernel's 8-bit counters are, with the same test before the increment.
* A system call, a tick or a paging operation is one step. A tick that arrives with switching
  disabled only counts. The call gates leave interrupts on, though: in `WaitProtocol` wait is
  cut into steps, between which other threads run, and vanish, which disables switching, is
  one.
* Whether an allocation of a page table succeeds is a parameter, and so are the way
  create_thread ends (no memory, no lock, a thread), the contents of a new frame and the value
  behind deschedule's flag.
* The scheduler and the process forest are two state machines. Which waiting list a vanishing
  thread wakes is an argument of the scheduler's step; `WaitProtocol` takes it from the forest,
  and `WaitLists` shows that the scheduler's lists change as that machine's do.

## Where the code departs from its comments

The model follows the code. Lemmas say exactly when a point matters, and runs from boot show
that the code gets there; the first point and the one on reference frames have no such run.

* create_page is documented to hand out zeroed frames; it does not (new_pages zeroes them).
  New pages have arbitrary contents here.
* Pages zero-filled on demand are mapped writable, so a write goes to the shared zero frame
  (`ZeroPagesNeverFault`, `ZeroPageWriteExact`, `ZeroPageLeakReachable`). The refinement
  makes no claim about the contents of such pages.
* The copy-on-write fault grants write access first and ignores a failed copy
  (`CowFaultExact`, `CowWithoutFrameLeaks`, `CowLeakReachable`).
* Fork on a frame with 255 owners copies it, falls through when no frame is free, and makes a
  read-only page writable in the child (`CopyEntryExact`, `ForkExact`,
  `ForkPermissionExact`, `SaturationReachable`, `ForkStuckReachable`, `ForkGrantsWrite`).
* A mapping to a reference frame is not counted (`ReferenceFrameUncounted`). No caller in this
  kernel gives one: all pass NULL.
* An empty region is recorded and cannot be removed, and hides a later region at its base; at
  address 0 its record reads as a free slot (`RemoveUndoesNew`, `EmptyRegionBlocks`,
  `EmptyRegionReachable`, `NewPagesSlots`, `EmptyAtZeroReachable`).
* The kernel's own stores are not stopped by write protection, and the delivery of an exception
  checks its stack for reading only (`KernelStoreExact`, `CheckedStoreIsolated`,
  `KernelStoreReachable`).
* Yielding to one's own id leaves the caller running but not at the head of the running list;
  idle must not block while it is alone, nor vanish (`SchedulerRuns.StepExact`, `YieldToSelf`,
  `IdleAloneSleeps`, `IdleAloneReachable`, `VanishedIdleRuns`, `VanishedIdleReachable`). A sleeping idle is woken before its time when nobody
  else is left (`SleepsUntilDue`, `IdleWokenEarly`, `IdleAsleepReachable`).
* create_thread enters the thread in the books of its process before it allocates the lock, and
  does not take it out again if that fails: the process never exits
  (`LifecycleRuns.StepExact`, `NoLockOvercounts`, `NeverExits`, `LastThreadLost`).
* fork and copy_process call destroy_process on a child that has not exited, which refuses: a
  child without thread stays in its parent's chain for good (`LifecycleRuns.StepExact`,
  `ThreadlessReachable`, `NeverCollected`).
* If init exits while it has children it adopts them from itself, and nobody collects what it
  adopts later (`InitAdoptsItself`, `ForkAndExit`, `InitDies`, `InitDiesAtBoot`,
  `InitStaysDead`).
* wait looks for an exited child before it disables switching, and vanish wakes only a waiter of
  the parent the process had: a wake-up can be missed, and a child collected twice
  (`WaitProtocol.StepExact`, `LostWakeUp`, `AdoptionMissed`, `CollectedTwice`, `SeenAndGone` and
  the runs that reach them).
* A semaphore with a negative initial count, or with broadcasts on its condition variable, lets
  more threads in than count plus signals (`SemaphoreSafety`, `NegativeCountAdmits`,
  `BroadcastAdmits`).

## Model

| member | source | states |
|---|---|---|
| `FrameAllocator.NextFreeIsFirst` | kern/vm/frame.c:165-178 | the circular search stops at the first frame with count 0 ahead of its start, or at -1 if the stretch it looks at has none |
| `FrameAllocator.FullTurnFindsFree` | kern/vm/frame.c:165-178 | a full turn of the search misses no free frame: it ends in -1 if and only if every count is above 0 |
| `FrameAllocator.GetFrameValid` | kern/vm/frame.c:150-181 | get_frame keeps the cursor on a frame with count 0, or at -1 exactly when there is none, and no count passes 255 |
| `FrameAllocator.AllocateExact` | kern/vm/frame.c:81-93 | allocate_frame fails exactly when every frame is owned; otherwise it returns a frame with count 0, which then has count 1, and changes no other count |
| `FrameAllocator.FreeFrameValid` | kern/vm/frame.c:107-134 | free_frame keeps the cursor exact, in the error cases too |
| `FrameAllocator.AllocateThenFree` | kern/vm/frame.c:81-134 | freeing a frame just allocated succeeds and restores every count |
| `FrameAllocator.Allocator.Get` | kern/vm/frame.c:150-181 | the in-place search loop over the count table does what GetFrame says |
| `FrameAllocator.Allocator.AllocateFrame` | kern/vm/frame.c:81-93 | in place, does what Allocate says; its panic is not reached |
| `FrameAllocator.Allocator.Free` | kern/vm/frame.c:107-134 | in place, does what FreeFrame says |
| `PageTables.OffsetsBijective` | kern/inc/page.h:30-32 | directory and table offsets split page addresses without loss, both ways round, and the addresses below USER_MEM_START are exactly the first four directories |
| `PageTables.FrameIdInverse` | kern/inc/page.h:34-35 | FRAME_ID inverts FRAME_ADDR |
| `PageTables.OwnersAfterUpdate` | kern/vm/frame.c:19-28 | when one entry changes, the number of owners of each frame changes by what that entry owned before and owns after |
| `PageTables.KernelHalfIdentity` | kern/vm/page.c:100-156 | in an address space with the shape init_paging builds, every kernel address is present, translates to itself and is closed to user code, and exactly the zero frame is read-only |
| `PageDirectories.InitPaging` | kern/vm/page.c:91-160 | the nested loops and the protection of the zero frame build, in arrays, a directory of that shape whose tables are all different objects |
| `PageDirectories.Directories.constructor` | kern/vm/page.c:63-78 | no directory and no table yet |
| `PageDirectories.Directories.Lookup` | kern/vm/page.c:470-484 | the lookup through the arrays finds exactly the entry the address space has there, or none |
| `PageDirectories.Directories.Put` | kern/vm/page.c:551-613 | one store to one slot of one page table changes exactly one entry of exactly one address space, since no two directory entries point to the same table |
| `PageDirectories.Directories.Install` | kern/vm/page.c:271-281 | links a new zeroed table into one directory; no other address space changes |
| `PageDirectories.Directories.Clear` | kern/vm/page.c:202-205 | clears one directory entry; no other address space changes |
| `PageDirectories.Directories.Drop` | kern/vm/page.c:634-673 | takes away one directory and leaves the others as they are |
| `PageDirectories.Directories.Build` | kern/vm/page.c:91-160 | adds the directory of init_paging for one process; no table is shared and no other address space changes |
| `VmInvariant.InitialInv` | kern/vm/page.c:63-78 | the memory system at boot satisfies the invariant: exact counts, shared frames read-only, kernel half intact, cursor exact |
| `VmInvariant.CreatePageInv` | kern/vm/page.c:238-330 | create_page without a reference frame keeps the invariant; it adds one page with a fresh frame (or the zero frame), or changes no mapping and no count |
| `VmInvariant.CreatePageSucceeds` | kern/vm/page.c:238-330 | when it succeeds, if and only if: a user page, not mapped, a free frame unless zero-filled on demand, and a page table present or obtainable |
| `VmInvariant.NewPageWrite` | kern/vm/page.c:296-324 | the first user write to a new page is carried out if and only if the page is for data, zeroes, heap, stack or a region, and then the page holds that byte and nothing else changed in it; for code and constants it is refused and nothing changes |
| `VmInvariant.ReferenceFrameUncounted` | kern/vm/page.c:301-304 | a mapping to a reference frame is not counted: conservation is lost if and only if a reference frame is given for a user page that is not mapped and whose page table is there or can be had |
| `VmInvariant.ReferenceFrameSucceeds` | kern/vm/page.c:238-330 | when create_page accepts a reference frame, if and only if |
| `VmInvariant.CreatePageAnswers` | kern/vm/page.c:238-330 | which error create_page returns, in terms of counts and mappings; backing out of a page zero-filled on demand panics |
| `VmInvariant.ReferenceFrameEntry` | kern/vm/page.c:301-323 | a page on a reference frame maps it copy-on-write, with the permission of its type, and changes nothing else |
| `VmInvariant.DestroyPageAnswers` | kern/vm/page.c:339-361 | which error destroy_page returns; a page zero-filled on demand panics |
| `VmInvariant.ZeroFaultEffect` | kern/vm/page.c:383-391 | the zero-fill branch of the fault handler gives the page a zeroed writable frame of its own, or kills the thread without a free one |
| `VmInvariant.DestroyPageInv` | kern/vm/page.c:339-361 | destroy_page keeps the invariant |
| `VmInvariant.CowFaultExact` | kern/vm/frame.c:199-244 | a copy-on-write fault leaves no shared frame writable if and only if the frame has one owner or a frame is free; then the page is private, writable, count 1, and holds the old contents |
| `VmInvariant.CowFaultFrame` | kern/vm/frame.c:199-244 | a page nobody shares any more keeps its frame and nothing else changes; a shared one gets the frame under the cursor, if there is one, and its old frame loses one owner |
| `VmInvariant.ZeroPagesNeverFault` | kern/vm/page.c:297-323 | pages zero-filled on demand are writable from the start, so the zero-fill branch of the fault handler is never reached |
| `VmInvariant.UserWriteInv` | kern/vm/page.c:372-400 | a user write, with the fault it may take, keeps the invariant if and only if there is room for the copy it needs |
| `VmFork.CopyEntryExact` | kern/vm/page.c:551-613 | copying one entry keeps the invariant and gives parent and child the same contents, except when the frame has 255 owners and none is free: then it has 256 owning entries |
| `VmFork.CopyEntriesExact` | kern/vm/page.c:548-619 | the same for a whole page table |
| `VmFork.CopyDirsExact` | kern/vm/page.c:520-620 | the same for the whole directory, and for every point at which the loop may stop |
| `VmFork.ForkExact` | kern/vm/page.c:507-626 | fork keeps the invariant if and only if there is a free frame for each saturated frame among the copied pages; then the child sees copies of the parent's pages and nobody sees a change |
| `VmRefinement.StepRefines` | kern/vm/page.c:168-673 | every paging operation keeps the invariant if and only if it has room, and then does to the pages of all processes what a machine with private, eagerly copied pages does |
| `VmRefinement.RunInvariant` | kern/vm/frame.c:19-28 | in every reachable state each count equals the number of owning entries over all address spaces, no shared frame is writable, and the kernel half is intact |
| `VmRefinement.RunRefines` | kern/vm/page.c:507-626 | from boot, over any run of creation, fork, writes with faults, removal, reset and teardown, every step of copy-on-write is a step of eager copying |
| `VmRefinement.Isolation` | kern/vm/frame.c:199-244 | no run of operations on other processes changes what a process reads |
| `VmRefinement.ForkSnapshot` | kern/vm/page.c:507-626 | after a fork the child reads the parent's pages as they were at the fork, whatever the others do later |
| `VmRefinement.ResetRefines` | kern/vm/page.c:168-212 | reset_paging takes away exactly the pages of its process |
| `VmRefinement.TeardownRefines` | kern/vm/page.c:634-673 | destroy_paging takes away exactly the pages of its process |
| `VmRefinement.TeardownEffect` | kern/vm/page.c:634-673 | teardown gives every frame back and removes the address space, and keeps the invariant |
| `VmLimits.CowWithoutFrameLeaks` | kern/vm/page.c:394-398 | without a free frame the handler grants write access and ignores the failed copy: the other owner reads the written byte |
| `VmLimits.CowLeakReachable` | kern/vm/page.c:394-398 | a run of three operations, each with room, that reaches such a state |
| `VmLimits.ZeroPageWriteExact` | kern/vm/page.c:297-323 | a write to a page zero-filled on demand leaves all such pages as they were if and only if it writes the byte that is there |
| `VmLimits.ZeroPageLeakReachable` | kern/vm/page.c:297-323 | a run after which a child's write to such a page changes what its parent reads |
| `VmLimits.KernelStoreExact` | kern/vm/page.c:402-457 | a store by the kernel, which write protection does not stop, leaves another page as it is if and only if the two do not share the frame or the byte does not change |
| `VmLimits.CheckedStoreIsolated` | kern/syscall/syshelper.c:116-131 | a store after a check for writing never reaches another page |
| `VmLimits.ForkPermissionExact` | kern/vm/page.c:588-594 | fork keeps the write permission of a page unless the page is read-only on a saturated frame: then the child may write |
| `VmSharing.ForkSharesExact` | kern/vm/page.c:551-613 | page by page: a fork with room gives parent and child the same entry on the same frame if and only if the frame is not saturated, and the child a writable frame of its own otherwise |
| `VmSharing.ForkElsewhere` | kern/vm/page.c:520-620 | fork changes no entry of a third process, whatever its outcome |
| `VmSharing.SaturationReachable` | kern/vm/frame.c:150-160 | in a memory of any size a run of forks, each with room, brings a frame to 255 owners |
| `VmSharing.ForkStuckReachable` | kern/vm/page.c:588-594 | with one frame of memory the next fork then breaks the invariant |
| `VmSharing.ForkGrantsWrite` | kern/vm/page.c:588-594 | with more than one frame it has room, and makes a read-only page of the parent writable in the child |
| `VmSharing.KernelStoreReachable` | kern/vm/page.c:402-457 | in a memory of any size, after one fork: a store by the kernel after a check for reading only reaches the parent |
| `MemorySystem.Paging.constructor` | kern/vm/page.c:63-78 | the state at boot, on fresh arrays |
| `MemorySystem.Paging.CreatePage` | kern/vm/page.c:238-330 | on the arrays, does what the function CreatePage says, error paths included, and keeps all tables apart |
| `MemorySystem.Paging.DestroyPage` | kern/vm/page.c:339-361 | on the arrays, does what DestroyPage says |
| `MemorySystem.Paging.CopyEntry` | kern/vm/page.c:551-613 | on the arrays, does what CopyEntry says |
| `MemorySystem.Paging.CopyTable` | kern/vm/page.c:548-619 | the inner loop of copy_paging, on the arrays of parent and child |
| `MemorySystem.Paging.CopyPaging` | kern/vm/page.c:507-626 | the outer loop of copy_paging, with a new table per directory |
| `MemorySystem.Paging.Fork` | kern/vm/page.c:507-626 | init_paging and copy_paging on the arrays; the child shares no table with anyone |
| `MemorySystem.Paging.ResetPaging` | kern/vm/page.c:168-212 | the loops of reset_paging on the arrays |
| `MemorySystem.Paging.DestroyPaging` | kern/vm/page.c:634-673 | the loops of destroy_paging on the arrays |
| `MemorySystem.Paging.CopyOnWrite` | kern/vm/frame.c:199-244 | on the arrays, does what CopyOnWrite says |
| `MemorySystem.Paging.PageFault` | kern/vm/page.c:372-400 | the zero-fill and copy-on-write branches of the fault handler, on the arrays |
| `Regions.Unpack` | kern/syscall/paging.c:66 | base and page count come back out of a packed slot |
| `Regions.NewPagesAllOrNothing` | kern/syscall/paging.c:44-60 | a new_pages call that does not succeed, at whichever page and across the wrap at 2^32, leaves every entry, every count, all contents and the table as they were, and never panics |
| `Regions.NewPagesEffect` | kern/syscall/paging.c:44-63 | a successful one maps exactly the pages of the region, unmapped before, writable and reading as zeroes; no other page changes |
| `Regions.NewPagesKeepsTable` | kern/syscall/paging.c:65-82 | new_pages keeps the recorded regions mapped and disjoint and the cursor on a free slot |
| `Regions.RemovePagesEffect` | kern/syscall/paging.c:94-129 | remove_pages never panics, removes exactly the pages of the region it finds, and keeps the table |
| `Regions.NewPagesSlots` | kern/syscall/paging.c:69-82 | the cursor stays -1 exactly when the table is full, if and only if the new region is not the empty one at address 0 or another slot is free |
| `Regions.RemovePagesSlots` | kern/syscall/paging.c:122-126 | remove_pages keeps the cursor exact |
| `Regions.RemoveUndoesNew` | kern/syscall/paging.c:94-129 | remove_pages undoes the new_pages just made, of any length - entries, counts, slots - if and only if the region is not empty and no earlier slot records an empty region at that base |
| `Regions.EmptyRegionBlocks` | kern/syscall/paging.c:94-129 | from the empty table: an empty region at a base, then a region at the same base; remove_pages at that base fails |
| `Regions.EmptyRegionReachable` | kern/syscall/paging.c:31-85 | both calls succeed in the first process after boot |
| `Regions.EmptyAtZeroReachable` | kern/syscall/paging.c:65-82 | from the empty table: empty regions take all slots but one, then the empty region at address 0 takes the last, and the cursor says full while the slot reads as free |
| `Regions.EmptyTableInv` | kern/prog/process.c:60-61 | the table of a new process satisfies the invariants of the region results |
| `Regions.StepKeepsTable` | kern/syscall/paging.c:31-129 | one call, or any other paging operation of the system, keeps memory and table in order, and no call panics |
| `Regions.RunKeepsTable` | kern/syscall/paging.c:31-129 | over a whole program image, whatever other processes do, recorded regions stay mapped and pairwise disjoint |
| `Regions.RunKeepsSlots` | kern/syscall/paging.c:69-82 | over such a run without an empty region at address 0 the cursor is -1 exactly when no slot is free |
| `RegionOutcomes.CreateRangeExact` | kern/syscall/paging.c:47-60 | the allocation loop makes all pages if and only if each is a user page, not mapped, with a table that is there, comes with an earlier page or can be had, and there is a free frame for each |
| `RegionOutcomes.NewPagesExact` | kern/syscall/paging.c:31-85 | what new_pages answers: refused if base or length are not page aligned or the length is negative or above 0xfff pages, worn out if no slot is left, done if and only if the pages can be made as above, and failed otherwise |
| `RegionOutcomes.RemovePagesExact` | kern/syscall/paging.c:94-129 | what remove_pages answers: done if and only if the base is aligned and the first slot with that base records a page |
| `RegionCalls.RegionTable.NewPages` | kern/syscall/paging.c:31-85 | the loops of _new_pages, in place |
| `RegionCalls.RegionTable.MakePages` | kern/syscall/paging.c:47-49 | the allocation loop, in place, up to the first failure |
| `RegionCalls.RegionTable.DestroyPages` | kern/syscall/paging.c:53-57 | the roll-back and removal loops, in place |
| `RegionCalls.RegionTable.ZeroPages` | kern/syscall/paging.c:63 | the zeroing of the new region, in place |
| `RegionCalls.RegionTable.Record` | kern/syscall/paging.c:65-82 | the circular search for the next free slot, in place |
| `RegionCalls.RegionTable.RemovePages` | kern/syscall/paging.c:94-129 | the loops of _remove_pages, in place |
| `UserMutex.StepInv` | user/libthread/mutex.c:161-256 | every step of any thread keeps the mutex invariant: one holder of the interaction flag, one owner, exact waiting list without duplicates |
| `UserMutex.MutualExclusion` | user/libthread/mutex.c:161-256 | two threads in the critical section are the same thread, and it is the owner |
| `UserMutex.FlagReleasedSoon` | user/libthread/mutex.c:175-211 | a thread that has the interaction flag lets go of it after at most four steps of its own |
| `UserMutex.StepRefinesFifo` | user/libthread/mutex.c:161-256 | every step is a step of a first-come first-served lock, or invisible |
| `UserMutex.RunSafety` | user/libthread/mutex.c:161-256 | over every interleaving of any number of threads: mutual exclusion, owner -1 only with an empty waiting list, no duplicate waiters |
| `UserMutex.ExactHandOff` | user/libthread/mutex.c:226-256 | a waiter with k others ahead becomes the owner at exactly the (k+1)-th hand-off |
| `UserMutex.OwnerEnters` | user/libthread/mutex.c:184-211 | over every interleaving: a waiter made the owner stays the owner and comes one step closer to the critical section with each step that gets it somewhere, and is in it after at most five |
| `UserMutex.LockFree` | user/libthread/mutex.c:161-211 | uninterrupted, mutex_lock on a free mutex takes it and does nothing else |
| `UserMutex.LockTaken` | user/libthread/mutex.c:161-211 | uninterrupted, mutex_lock on a mutex of another thread puts the caller at the end of the list and lets go of the flag |
| `UserMutex.WaiterLooks` | user/libthread/mutex.c:187-205 | a waiter that is not the owner looks and goes back to where it was |
| `UserMutex.UnlockAlone` | user/libthread/mutex.c:226-256 | uninterrupted, mutex_unlock makes the first waiter the owner, or nobody, and returns |
| `UserMutex.UnlockFree` | user/libthread/mutex.c:238-241 | mutex_unlock of a mutex nobody owns changes nothing |
| `UserList.List.AddLast` | user/libthread/list.c:151-186 | appends to the sequence the nodes stand for |
| `UserList.List.AddFirst` | user/libthread/list.c:109-142 | prepends to it |
| `UserList.List.RemoveHead` | user/libthread/list.c:240-273 | takes the first value off, or returns -1 on the empty list |
| `UserList.List.RemoveTail` | user/libthread/list.c:196-229 | takes the last value off, or returns -1 on the empty list |
| `Semaphore.LockMoves` | user/libthread/mutex.c:161-256 | the locks used here move as the lock that the mutex implements |
| `Semaphore.StepList` | user/libthread/condvar.c:92-171 | every step of sem_wait, sem_signal, cond_wait, cond_signal and cond_broadcast keeps the two locks, the waiting list and the blocked threads in order |
| `Semaphore.StepInv` | user/libthread/semaphore.c:80-127 | the list stays as long as the count is below zero, up to what the mutex holder has in hand, if and only if the step is not a broadcast that takes a waiter off |
| `Semaphore.AdmissionBound` | user/libthread/semaphore.c:80-127 | no more are let in than slots, signals and waiters taken by broadcasts, and with the mutex free the list is exact up to a slack that only broadcasts and a negative initial count create |
| `Semaphore.AdmissionExact` | user/libthread/semaphore.c:80-127 | with an exact count no more threads are let in than initial count plus signals; with the mutex free, exactly max(0, -n) wait and all others have been let in |
| `Semaphore.SemaphoreSafety` | user/libthread/semaphore.c:80-127 | over every interleaving, broadcasts included, and every initial count: entries never exceed initial slots, signals and waiters taken by broadcasts; without the latter and with a count that is not negative the list is exact and no slot is lost |
| `Semaphore.BroadcastAdmits` | user/libthread/condvar.c:144-158 | for every initial count a run in which a broadcast lets in one thread more than there were slots, without a signal |
| `Semaphore.NegativeCountAdmits` | user/libthread/semaphore.c:43-48 | a run with a negative initial count in which more enter than count plus signals |
| `Semaphore.SignalFindsWaiter` | user/libthread/condvar.c:121-135 | a signaller that raised a count below zero always finds a waiter |
| `Semaphore.WakeAfterDeschedule` | user/libthread/condvar.c:167-171 | make_runnable fails only while the waiter is about to deschedule, and succeeds one step of the waiter later |
| `Semaphore.OneWaker` | user/libthread/condvar.c:167-171 | a waiter taken off the list has exactly one waker |
| `Semaphore.EveryWakeUpDelivered` | user/libthread/condvar.c:92-171 | over every interleaving, broadcasts included: each waiter taken off the list gets exactly one successful make_runnable and returns once for it, and none returns otherwise, up to the wake-ups still on their way |
| `SemaphoreProgress.BroadcastWakesAll` | user/libthread/condvar.c:144-158 | over every interleaving: a broadcaster wakes exactly the waiters that were on the list when it got the mutex, in their order, and lets go of the mutex only when all of them are woken |
| `SemaphoreProgress.BroadcastEmpties` | user/libthread/condvar.c:152-154 | over every run a broadcast ends with an empty list |
| `SemaphoreProgress.CastAdvances` | user/libthread/condvar.c:152-171 | each step of a broadcaster brings it closer to the end, three for each waiter and one, except while the waiter in hand is about to deschedule |
| `SemaphoreProgress.CastUndisturbed` | user/libthread/condvar.c:144-158 | and nobody else changes how many it has left |
| `SemaphoreProgress.CallsCountOnce` | user/libthread/semaphore.c:80-127 | over every interleaving and for every thread: each call is under way or has returned, each sem_signal that returned raised the count exactly once, each sem_wait lowered it exactly once, and a broadcast never changed it |
| `SemaphoreProgress.WaitersInOrder` | user/libthread/condvar.c:92-171 | over every interleaving waiters are taken off the list in the order in which they came |
| `SemaphoreProgress.CountersExact` | user/libthread/semaphore.c:80-127 | the numbers of decrements, increments, entries and broadcast wake-ups that the bounds speak of are what happened along the run |
| `Semaphore.NoDeadlock` | user/libthread/semaphore.c:80-127 | while the semaphore's mutex is held some thread can move |
| `ThreadList.OneList` | kern/prog/thrlist.c:18-22 | a thread is in at most one list, and its list field names it |
| `ThreadList.InsertSorted` | kern/prog/thrlist.c:113-133 | sorted insertion keeps the wake times sorted and is stable |
| `ThreadList.AddHead` | kern/prog/thrlist.c:43-65 | puts the thread first, refuses one that is in a list, and keeps all lists well-formed doubly linked lists with the right size |
| `ThreadList.AddTail` | kern/prog/thrlist.c:74-96 | the same at the end |
| `ThreadList.SlotBefore` | kern/prog/thrlist.c:116-120 | the walk from the tail ends at the last thread not due later |
| `ThreadList.AddSorted` | kern/prog/thrlist.c:105-136 | puts the thread behind the last one not due later, and keeps all lists well formed |
| `ThreadList.Find` | kern/prog/thrlist.c:145-155 | the first thread of the list with the id, null if and only if there is none |
| `ThreadList.Remove` | kern/prog/thrlist.c:171-194 | takes the thread out of its list, whichever place it has, and keeps all lists well formed |
| `ThreadList.Destroy` | kern/prog/thrlist.c:204-215 | empties the list; its threads are in no list |
| `Scheduler.UnsetBase` | kern/prog/thread.c:83-93 | unset_state keeps each thread in the one list its tag stands for, or in none |
| `Scheduler.SetRunningBase` | kern/prog/thread.c:111-127 | set_running: that, with the thread at the head of the running list |
| `Scheduler.SetRunnableBase` | kern/prog/thread.c:138-149 | set_runnable: that, with the thread at its end |
| `Scheduler.SetBlockedBase` | kern/prog/thread.c:160-169 | set_blocked: that, with the thread in no list |
| `Scheduler.SetSleepingEffect` | kern/prog/thread.c:180-196 | set_sleeping: wake time is now plus the ticks asked for, place by wake time |
| `Scheduler.SetWaitingBase` | kern/prog/thread.c:204-219 | set_waiting: that, with the thread at the end of its process's waiting list |
| `SchedulerRuns.DescheduleInv` | kern/syscall/management.c:42-72 | deschedule keeps the scheduler in order if and only if idle alone does not block |
| `SchedulerRuns.YieldInv` | kern/syscall/management.c:96-120 | yield keeps it in order if and only if the caller does not name itself while others are runnable |
| `SchedulerRuns.MakeRunnableInv` | kern/syscall/management.c:133-157 | make_runnable keeps it in order |
| `SchedulerRuns.SleepInv` | kern/syscall/management.c:171-194 | sleep keeps it in order if and only if idle alone does not sleep |
| `SchedulerRuns.WaitInv` | kern/syscall/lifecycle.c:334-344 | a round of wait's loop keeps it in order if and only if idle alone does not wait |
| `SchedulerRuns.VanishInv` | kern/syscall/lifecycle.c:379-410 | vanish keeps it in order if and only if it is not idle that vanishes |
| `SchedulerRuns.SpawnInv` | kern/syscall/lifecycle.c:424-450 | a new thread keeps it in order |
| `SchedulerRuns.CallExact` | kern/syscall/management.c:42-194 | every call that keeps to the rules hands the processor to exactly the thread it should (next in line, idle, the named one, the one made runnable, the first waiter), keeps the order of the others, and leaves its caller blocked, asleep, waiting, gone or at the end of the list |
| `SchedulerRuns.MakeRunnableCalled` | kern/syscall/management.c:133-157 | make_runnable succeeds if and only if the target is blocked; the target then runs, in front of all others |
| `SchedulerRuns.TickExact` | kern/drivers/timer.c:71-140 | a switching tick wakes exactly the sleepers that are due, in order, behind all runnable threads, and then rotates the running list; idle drops out unless it is alone |
| `SchedulerRuns.StepExact` | kern/prog/thread.c:24-38 | from a good state no call or tick panics, and it leads to a good state if and only if idle neither vanishes nor blocks alone and nobody yields to itself while others are runnable |
| `SchedulerRuns.CallAnswers` | kern/syscall/management.c:96-194 | what each call answers - yield refuses a thread not in the running list, make_runnable a negative id or one not blocked, sleep a negative time - and that a refused call changes nothing |
| `SchedulerRuns.BootInv` | kern/prog/thread.c:61-68 | the scheduler at boot is in order |
| `SchedulerRuns.RunInv` | kern/prog/thread.c:226-244 | over every such run each thread is in the list of its tag, the head of the running list has the processor and has not vanished, and get_self never panics |
| `SchedulerRuns.TickAdvances` | kern/drivers/timer.c:116-135 | at a switching tick a thread in place i > 0 moves to place i - 1, whoever wakes and whether or not idle is in the list |
| `SchedulerRuns.BoundedWaiting` | kern/drivers/timer.c:79-136 | over ticks only, a thread in place i has the processor after i switching ticks |
| `SchedulerRuns.SleepInOrder` | kern/prog/thrlist.c:105-136 | a new sleeper goes behind all those due no later and in front of all due later; the others keep their order |
| `SchedulerRuns.NoneOverdue` | kern/drivers/timer.c:79-88 | after a switching tick nobody who is due is asleep |
| `SchedulerRuns.TickWakes` | kern/drivers/timer.c:79-88 | a switching tick wakes a sleeper if and only if it is due |
| `SchedulerRuns.SleepsUntilDue` | kern/prog/thread.c:171-196 | over every run of calls and ticks a sleeper stays asleep until its wake tick; idle does if and only if no step leaves the running list empty |
| `SchedulerRuns.SleeperStep` | kern/prog/thread.c:171-196 | one step before the wake tick leaves a sleeper asleep if and only if it is not idle or the running list is not left empty |
| `SchedulerRuns.IdleWokenEarly` | kern/syscall/management.c:182-192 | a call that leaves the running list empty switches to idle, asleep or not, whatever its wake time |
| `SchedulerRuns.IdleAsleepReachable` | kern/syscall/management.c:171-194 | from boot, within the rules: idle asleep, one other thread runnable, whose next deschedule wakes idle early |
| `SchedulerRuns.VanishedIdleRuns` | kern/syscall/lifecycle.c:379-410 | if idle vanishes and the other thread blocks, the processor goes to the vanished idle |
| `SchedulerRuns.VanishedIdleReachable` | kern/syscall/lifecycle.c:379-410 | a run from boot that gets there |
| `SchedulerRuns.YieldToSelf` | kern/syscall/management.c:102-118 | a thread that yields to its own id while another is runnable keeps the processor and is not the head of the running list |
| `SchedulerRuns.YieldToSelfReachable` | kern/syscall/management.c:102-118 | this is reached by one thread_fork after boot |
| `SchedulerRuns.IdleAloneSleeps` | kern/syscall/management.c:182-192 | if idle alone sleeps the running list is empty and the next call panics |
| `SchedulerRuns.IdleAloneReachable` | kern/syscall/management.c:42-72 | one call after boot idle is alone |
| `SchedulerCalls.Kernel.UnsetState` | kern/prog/thread.c:83-93 | on the linked lists, does what Unset says |
| `SchedulerCalls.Kernel.SetRunning` | kern/prog/thread.c:111-127 | on the linked lists, does what SetRunning says |
| `SchedulerCalls.Kernel.SetRunnable` | kern/prog/thread.c:138-149 | on the linked lists, does what SetRunnable says |
| `SchedulerCalls.Kernel.SetBlocked` | kern/prog/thread.c:160-169 | on the linked lists, does what SetBlocked says |
| `SchedulerCalls.Kernel.SetSleeping` | kern/prog/thread.c:180-196 | on the linked lists, does what SetSleeping says |
| `SchedulerCalls.Kernel.SetWaiting` | kern/prog/thread.c:204-219 | on the linked lists, does what SetWaiting says |
| `SchedulerCalls.Kernel.ContextSwitch` | kern/context/context.S:24-92 | on the linked lists, does what Switch says |
| `SchedulerCalls.Kernel.Deschedule` | kern/syscall/management.c:42-72 | on the linked lists, is the step Deschedule |
| `SchedulerCalls.Kernel.Yield` | kern/syscall/management.c:96-120 | on the linked lists, is the step Yield |
| `SchedulerCalls.Kernel.MakeRunnable` | kern/syscall/management.c:133-157 | on the linked lists, is the step MakeRunnable |
| `SchedulerCalls.Kernel.YieldTid` | kern/syscall/management.c:96-120 | the step Yield for the thread the hash table has under the id |
| `SchedulerCalls.Kernel.MakeRunnableTid` | kern/syscall/management.c:133-157 | the step MakeRunnable for the thread the hash table has under the id |
| `SchedulerCalls.Kernel.Sleep` | kern/syscall/management.c:171-194 | on the linked lists, is the step Sleep |
| `SchedulerCalls.Kernel.WaitRound` | kern/syscall/lifecycle.c:334-344 | on the linked lists, is the step Wait |
| `SchedulerCalls.Kernel.Vanish` | kern/syscall/lifecycle.c:379-410 | on the linked lists, is the step Vanish |
| `SchedulerCalls.Kernel.Spawn` | kern/syscall/lifecycle.c:424-450 | on the linked lists, is the step Spawn |
| `SchedulerCalls.Kernel.WakeDue` | kern/drivers/timer.c:80-88 | the wake-up loop |
| `SchedulerCalls.Kernel.TimerHandler` | kern/drivers/timer.c:71-140 | on the linked lists, is the step Tick |
| `Lifecycle.BornInv` | kern/prog/process.c:143-151 | fork keeps the forest and the thread counts in order |
| `Lifecycle.StaffedInv` | kern/prog/thread.c:331-346 | a thread that create_thread makes keeps them in order |
| `Lifecycle.StatusInv` | kern/syscall/lifecycle.c:299-306 | set_status keeps them in order |
| `Lifecycle.ExitEffect` | kern/prog/process.c:209-240 | adoption splices the whole chain in front of init's, makes init the parent of its members and changes nothing else |
| `Lifecycle.InitExitEffect` | kern/prog/process.c:209-240 | if it is init that exits its count doubles, and its children are in nobody's chain |
| `Lifecycle.ExitForestExact` | kern/prog/process.c:209-240 | after an exit every chain is in order again if and only if it was not init or init had no children |
| `Lifecycle.LinkedForest` | kern/prog/process.c:143-151 | a new child keeps every chain in order |
| `Lifecycle.BuriedForest` | kern/prog/process.c:254-285 | the burial of an exited process keeps every chain in order |
| `Lifecycle.LiveNone` | kern/prog/process.c:206-207 | no thread is active exactly when all have vanished |
| `Lifecycle.VanishExact` | kern/syscall/lifecycle.c:379-410 | vanish keeps forest and counts in order if and only if it is not the last thread of init |
| `Lifecycle.BuriedEffect` | kern/prog/process.c:254-285 | destroy_process takes the process and its threads away, and one child from its parent, and changes nothing else |
| `Lifecycle.BuriedInv` | kern/prog/process.c:254-285 | destroy_process keeps forest and counts in order |
| `LifecycleRuns.StepExact` | kern/syscall/lifecycle.c:256-450 | a call, with every way create_thread can end, keeps forest and counts in order if and only if init keeps a thread, no fork fails after linking the child and no create_thread fails for want of its lock |
| `LifecycleRuns.SturdyExact` | kern/syscall/lifecycle.c:256-450 | whichever way create_thread ends, a call keeps the chains in order, and no process counting fewer threads than it has, if and only if init keeps a thread |
| `LifecycleRuns.RunSturdy` | kern/syscall/lifecycle.c:256-450 | so over every run, whatever fails, while init lives |
| `LifecycleRuns.NoLockOvercounts` | kern/prog/thread.c:357-362 | a thread_fork that fails for want of the lock leaves a process that counts a thread in no table |
| `LifecycleRuns.NeverExits` | kern/prog/thread.c:332-362 | such a process never exits, whatever is called afterwards, within the rules or not |
| `LifecycleRuns.LastThreadLost` | kern/syscall/lifecycle.c:424-450 | a process asks for a second thread, which fails that way, and its only thread vanishes: no thread is left and it has not exited |
| `LifecycleRuns.ForkedChild` | kern/syscall/lifecycle.c:256-292 | the first fork after boot, from which the run above starts |
| `LifecycleRuns.ThreadlessReachable` | kern/syscall/lifecycle.c:270-274 | from boot: a fork that gets no thread leaves a child in the chain of init, which can only wait for it |
| `LifecycleRuns.NeverCollected` | kern/syscall/lifecycle.c:270-274 | such a child never exits and is never collected, whatever is called afterwards |
| `LifecycleRuns.InitDies` | kern/syscall/lifecycle.c:379-410 | when the last thread of init vanishes init has exited and has no thread |
| `LifecycleRuns.InitDiesAtBoot` | kern/syscall/lifecycle.c:379-410 | reached right after boot |
| `LifecycleRuns.InitStaysDead` | kern/syscall/lifecycle.c:318-410 | after that init never waits again, whatever is called: what it adopts is never collected |
| `LifecycleRuns.ExitedExact` | kern/prog/process.c:202-242 | a process has exited exactly when every thread it created has vanished |
| `LifecycleRuns.RootOf` | kern/prog/process.c:143-151 | every line of parents ends in a process without parent: the links form a forest |
| `LifecycleRuns.OneLiveParent` | kern/prog/process.c:202-242 | a process is in the chain of exactly the process it names as parent; that one has not exited and its count is the length of the chain |
| `LifecycleRuns.WaitExact` | kern/syscall/lifecycle.c:334-355 | wait collects if and only if a child has exited, gives up if and only if there is no child, sleeps otherwise, and never finds a child without original thread |
| `LifecycleRuns.YoungestExited` | kern/prog/process.c:163-174 | the child found has exited, and every younger one has not |
| `LifecycleRuns.CollectEffect` | kern/syscall/lifecycle.c:349-361 | a successful wait returns the original thread and the exit status of one exited child of the caller, lowers the count by one and takes the child and all its threads away |
| `LifecycleRuns.WaitAnswers` | kern/syscall/lifecycle.c:325-334 | what wait answers at once: no children if there are none, full if there are as many waiters as children, a child if one has exited, else it sleeps |
| `LifecycleRuns.StatusEffect` | kern/syscall/lifecycle.c:299-306 | a call changes the status of nobody but the caller of set_status, to the value given; a child starts with -1 |
| `LifecycleRuns.StatusExact` | kern/syscall/lifecycle.c:299-306 | over every run from boot, whatever fails: the status of a process is the one it last set, or -1 |
| `LifecycleRuns.WaitReturnsStatus` | kern/syscall/lifecycle.c:349-361 | a wait that collects a process hands out that status, and its original thread |
| `LifecycleRuns.OriginalEffect` | kern/prog/thread.c:331-346 | the original thread of a process is the first one it gets |
| `LifecycleRuns.OriginalStays` | kern/prog/thread.c:331-346 | and stays that over every run, whatever fails |
| `LifecycleRuns.StageStep` | kern/inc/process.h:21 | a process only moves from unborn to running to exited to buried, one stage at a time |
| `LifecycleRuns.BootInv` | kern/prog/process.c:95-116 | the forest of one process is in order |
| `LifecycleRuns.RunInv` | kern/syscall/lifecycle.c:318-410 | over every run within these rules: forest and counts in order, stages never go back, and as many processes are buried as waits have succeeded, so none is collected twice |
| `ProcessTree.Reparent` | kern/prog/process.c:219-226 | the adoption loop: every process of the chain gets the new parent, and the last is the oldest |
| `ProcessTree.Splice` | kern/prog/process.c:228-234 | the two chains become one well-formed chain |
| `ProcessTree.Table.CopyProcess` | kern/prog/process.c:128-155 | on the linked chains, does what Linked says |
| `ProcessTree.Table.ExitedChild` | kern/prog/process.c:163-174 | the walk ends at the youngest exited child, or at null if there is none |
| `ProcessTree.Table.VanishProcess` | kern/prog/process.c:202-242 | on the linked chains, does what Exit says; refused while threads are active; init with children ends in a ring |
| `ProcessTree.Table.InitAdoptsItself` | kern/prog/process.c:209-236 | if init exits with children its count doubles and its chain becomes a ring |
| `ProcessTree.Start` | kern/prog/process.c:95-116 | the table with its first process and thread is the forest at boot |
| `ProcessTree.ForkAndExit` | kern/prog/process.c:202-242 | the first process forks and exits: its chain is a ring |
| `ProcessTree.LinkThread` | kern/prog/thread.c:331-346 | puts the new thread first in the doubly linked chain of its process |
| `ProcessTree.UnlinkThread` | kern/prog/thread.c:460-468 | takes a thread out of the chain, whichever place it has |
| `ProcessTree.Table.CreateThread` | kern/prog/thread.c:308-373 | on the linked thread chains, does what ThreadStep says in each of the three ways it can end |
| `ProcessTree.Table.ThreadFork` | kern/syscall/lifecycle.c:424-450 | on the linked thread chains, is thread_fork |
| `ProcessTree.Table.SetStatus` | kern/syscall/lifecycle.c:299-306 | in place, is set_status |
| `ProcessTree.Table.DestroyThreads` | kern/prog/process.c:262-265 | the loop over the linked threads ends and takes each of them out of its chain and of the table |
| `ProcessTree.Table.DestroyProcess` | kern/prog/process.c:254-285 | on the linked chains, does what Buried says, with and without a parent; refused unless the process has exited |
| `ProcessTree.Table.Collect` | kern/syscall/lifecycle.c:334-361 | on the linked chains, is the loop of wait, in every state whose chains are in order |
| `ProcessTree.Table.Wait` | kern/syscall/lifecycle.c:318-362 | on the linked chains, is wait up to its first sleep, in every such state |
| `ProcessTree.Table.Fork` | kern/syscall/lifecycle.c:256-292 | on the linked chains, is fork without its memory copy, with every way create_thread can end |
| `ProcessTree.Table.Vanish` | kern/syscall/lifecycle.c:379-392 | on the linked chains, is vanish, in every such state in which the process counts no fewer threads than it has; the last thread of an init with children leaves a ring |
| `WaitProtocol.LookGood` | kern/syscall/lifecycle.c:328-334 | the look for an exited child keeps every wake-up and every claim in order |
| `WaitProtocol.CheckExact` | kern/syscall/lifecycle.c:346-347 | the second check keeps them in order if and only if it sends the thread away, or the child it saw is still there and no other thread is past the check with it |
| `WaitProtocol.DozeExact` | kern/syscall/lifecycle.c:335-343 | going to sleep keeps them in order if and only if for every exited child of the process a thread is on its way |
| `WaitProtocol.CollectGood` | kern/syscall/lifecycle.c:349-361 | with claims in order collecting always succeeds, and keeps all in order |
| `WaitProtocol.VanishExact` | kern/syscall/lifecycle.c:379-410 | vanish keeps them in order if and only if init keeps a thread and, if threads of init sleep on, others are on their way for the exited children it has and adopts |
| `WaitProtocol.ToldExact` | kern/syscall/lifecycle.c:389-398 | a vanishing thread tells the parent of its process if and only if it is the last one |
| `WaitProtocol.StepExact` | kern/syscall/lifecycle.c:318-410 | every step of every thread keeps wait in order - nobody past the second check with a child that is gone or claimed, a thread on its way for each exited child of a process that sleeps - if and only if it is in time |
| `WaitRuns.RunGood` | kern/syscall/lifecycle.c:318-410 | over every interleaving of threads whose steps are in time wait stays in order |
| `WaitRuns.NoneMissed` | kern/syscall/lifecycle.c:311-314 | then a process whose threads in wait are all asleep has no exited child |
| `WaitRuns.Together` | kern/syscall/lifecycle.c:318-362 | uninterrupted, the look and what follows it are one round of wait as `Lifecycle` has it |
| `WaitRuns.LostWakeUp` | kern/syscall/lifecycle.c:334-343 | from every state in order: a child that exits between the look and the sleep of its parent wakes nobody, and the parent sleeps on it |
| `WaitRuns.LostWakeUpReachable` | kern/syscall/lifecycle.c:334-343 | from boot that takes four steps, after which no thread can run |
| `WaitRuns.AdoptionMissed` | kern/prog/process.c:209-236 | an exited child adopted by a sleeping init wakes nobody |
| `WaitRuns.AdoptionReachable` | kern/syscall/lifecycle.c:392-405 | a run from boot, in time up to its last step, that gets there |
| `WaitRuns.CollectedTwice` | kern/syscall/lifecycle.c:347-358 | two threads that saw the same exited child and both pass the second check: the second to collect it uses what the first has freed |
| `WaitRuns.SeenAndGone` | kern/syscall/lifecycle.c:334-347 | a thread interrupted before the second check while another collects the child is sent away if and only if that was the only child, and uses what has been freed otherwise |
| `WaitRuns.BothSawReachable` | kern/syscall/lifecycle.c:334-347 | a run from boot, in time, to a state from which both happen |
| `WaitRuns.NeverNull` | kern/syscall/lifecycle.c:334-358 | from boot, over every run in time: a thread that left the loop without a child is sent away by the second check, and none goes on with a null child |
| `WaitRuns.SleepsOn` | kern/syscall/lifecycle.c:397-405 | over every run a sleeper in wait sleeps until a child of its process exits after it went to sleep, whatever has exited before |
| `WaitRuns.WokenInOrder` | kern/syscall/lifecycle.c:334-405 | over every run the threads of a process that sleep in wait are woken in the order in which they went to sleep, one for each child that exits |
| `WaitLists.StepLists` | kern/syscall/lifecycle.c:334-405 | every step of the scheduler changes each waiting list as the steps above do: wait appends its caller, a vanish that is given the list takes the first off, nothing else touches it, unless idle is in it and nobody else is left |
| `ThreadHash.Table.Find` | kern/prog/thrhash.c:56-66 | returns the thread the map holds for the id, or null if it holds none |
| `ThreadHash.Table.Add` | kern/prog/thrhash.c:20-30 | adds one pair to the map; chains stay well formed, disjoint and in their bucket |
| `ThreadHash.Table.Remove` | kern/prog/thrhash.c:36-50 | takes one pair out of the map; chains stay well formed, disjoint and in their bucket |
| `ThreadHash.Table.BucketsApart` | kern/prog/thrhash.c:20-74 | no thread is in two chains |

## Left out

- The translation look-aside buffer: page tables take effect at once, so the copy through the
  parent's mapping in fork reads and writes the frames it names.
- The bit positions of flags within an entry, and the checks that addresses are page aligned.
- create_page with a reference frame inside runs, as nobody asks for one: `ReferenceFrameUncounted`
  says what it would do.
- Refusals of fork's memory copy after some tables were made: the loop may stop at any
  directory (`CopyDirsExact`), and teardown of the half-made child is DoTeardown.
- exec and the loading of programs, which reset paging without clearing the region table: region
  results hold within one program image.
- VmRefinement.Isolation: about writes by user code; stores of the kernel into user pages are
  no operations of its runs (`KernelStoreExact` says what they do).
- MemorySystem.Paging.CopyPaging: the loop's stop at a failed table allocation is the number of
  directories it is given.
- Lifecycle.ExitEffect: asks that the process is not init; that case is `InitExitEffect`.
- Lifecycle.InitExitEffect: the value model of the forest has no chain for the children of an init
  that has exited; the ring that the kernel makes of it is `InitAdoptsItself`.
- Process ids used up by forks that fail before the family links.
- ThreadList.AddHead: takes a thread and a list that are not null, so the null-argument error is
  not modelled.
- ThreadList.AddTail: the same.
- ThreadList.AddSorted: the same.
- ThreadList.Find: takes a list that is not null.
- ThreadList.Remove: takes a thread that is not null.
- ThreadList.Destroy: takes a list that is not null.
- SchedulerCalls.Kernel.Yield: takes the thread found for the id; `YieldTid` finds it.
- SchedulerCalls.Kernel.MakeRunnable: takes the thread found for the id; `MakeRunnableTid` finds it.
- SchedulerCalls.Kernel.Vanish: takes the parent's waiting list; which one it is says
  `WaitProtocol.VanishStep`.
- Interruption inside calls other than wait: fork, thread_fork, new_pages and the scheduler's calls
  are single steps.
- SchedulerRuns.BoundedWaiting: about ticks only, as calls may put other threads first.
- The set-up of idle, init and the first process at boot (set_idle cuts family links): runs start
  with init as a root.
- The check of wait's status pointer, and the store through it.
- Overflow of the tick counter, thread ids and process ids.
- The kernel's own mutexes, condition variables and read/write locks: calls are atomic here.
- mutex_destroy, cond_destroy, sem_destroy, list_destroy, the user-level read/write lock and
  thread library.
- Killing of threads by faults and exceptions, software exception handlers, the assembly of
  entry, exit and stack switch, devices, console and boot.
