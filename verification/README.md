# T-Kernel: a verified model of its core

This project models the kernel objects and the memory allocation library of T-Kernel 2.0 in Dafny and
proves what they are for. Every critical section of the kernel is one method call on the state it works
on; invariants (`Valid()`) are therefore statements about every reachable state, and the contracts of
the methods say exactly what each call does to that state. The user-level locks, which are concurrent
below the level of critical sections, are transition systems with a program counter per task, and their
theorems speak about every state of every run.

Where the code works in place, so does the model: control blocks are classes, queues and tables are
fields that the methods reassign, buffers are arrays, and loops are loops. Memory of the heap is a
sequence of 8-byte cells with addresses, links and the flags in the low bits of `prev`; the allocator
reads and writes nothing else. Priorities follow the kernel: a smaller number is more urgent.

## How it is organised

- **Mutexes.** `MutexState` has the control blocks, the local priority equation and the waits-for
  relation; `MutexPropagation` what one step of priority propagation does; `MutexTransfers` how holders,
  waiters and base priorities change; `MutexSteps` the effects of the routines as relations;
  `MutexKernel` the system calls and hooks with their mutual recursion; `MutexTheorem` the global
  minimum. The equation is kept by lock, unlock, timeout, forced release and `tk_chg_pri` without any
  assumption on the waits-for relation: propagation moves all priorities in one direction, which bounds
  it even on a deadlock cycle. Deletion and termination need the holder, or the ending task, to be off
  every cycle. `MutexDeadlock` shows what a cycle does to the global statement: one program of system
  calls that leads to a failure, and `UpAndBack`, two calls that do so from every deadlocked state in
  which nobody asks for priority 0.
- **Heap.** `Rings` (doubly linked rings in memory), `FreeQueue` (the two-tier free queue),
  `HeapLayout` (pages tiled by areas), `HeapSteps`, `HeapSplit`, `HeapPages` and `HeapSearch` (what
  single steps do to the layout, the queue and the blocks), `HeapCheck` (the run-time checker),
  `MemAlloc` (the allocator), `MemAllocTheorem` (what follows for every heap in order). The same
  allocator runs in the kernel variant `imalloc` and in the variable-size pool; `kept` records the
  wholly free pages that a release with interrupts disabled has left, and the memory of a pool.
- **Objects with wait queues.** `WaitQueue` (queue order), `MemPool`, `MessageRing` and `MessageBuffer`,
  `EventFlag`, `Semaphore`, `Rendezvous`.
- **Locks on kernel objects.** `FastMLock` on the event flag scan, `FastLock` on the semaphore scan.
- **Scheduling and time.** `BitSearch`, `Scheduler`, `TaskSync`, `Timer`.
- **Memory copies.** `MemMove`.
- **Shared.** `Common`: optional values, priorities, bytes, sequences of numbers.

## Where code and documentation differ

- The comments in `searchFreeArea` (`tkernel_source/lib/libtk/src/memalloc.c:58-62,64,74`) name the two
  search directions the wrong way round; the model follows the code. Both directions find the same area.
- A forced release of a task in `Lock` breaks the lock, because `Lock` ignores the error of the
  semaphore wait: `FastLock.SafeIffNeverForced` proves that the lock is safe in every continuation of
  every state of a run exactly when the run contains no forced release.
- `tkl_memcpy` and `tkl_memmove` take a length of zero, but with pointers that are not both aligned the
  `do` loop in front of the words then runs over all memory (`tkernel_source/lib/libstr/src/string.c:136-150`
  and `:180-190`): `MemMove.MemMove` says that these are the only calls that leave their memory.

## Model

| member | source | states |
|---|---|---|
| MutexTheorem.InheritedPriorityIsGlobalMinimum | tkernel_source/kernel/tkernel/src/mutex.c:263-303 | In a consistent state with no deadlock behind a task, its priority is the minimum of the base priorities and held ceilings of all tasks transitively blocked on it through TA_INHERIT mutexes, and the minimum is attained |
| MutexDeadlock.UrgencyStays | tkernel_source/kernel/tkernel/src/mutex.c:263-303 | Without the no-deadlock condition that is false: system calls lead two tasks of base priority 9 into a deadlock and, by one priority change up and one back, to priority 5, which nobody asks for any more |
| MutexDeadlock.UpAndBack | tkernel_source/kernel/tkernel/src/task_manage.c:410-455 | In every deadlock: if a task on a waits-for cycle holds no ceiling mutex and nobody behind a task it is blocked on asks for priority 0, then tk_chg_pri of the first to 0 and back leaves the second at priority 0, off the global minimum |
| MutexDeadlock.RaisedToZero | tkernel_source/kernel/tkernel/src/mutex.c:263-285 | A change to base priority 0 brings every task that the changed one is blocked on, through any chain, to priority 0 |
| MutexDeadlock.CycleAsks | tkernel_source/kernel/tkernel/src/mutex.c:263-285 | A task on a cycle at priority 0 holds a mutex whose first waiter has priority 0 too |
| MutexDeadlock.KeptByCycle | tkernel_source/kernel/tkernel/src/mutex.c:108-150 | A task on a cycle at priority 0 keeps that priority whatever base priority it is given, and no other task changes |
| MutexDeadlock.RaisedTogether | tkernel_source/kernel/tkernel/src/mutex.c:263-285 | On such a cycle a priority change raises both tasks, and the change back lowers neither, because each still finds the other's demand |
| MutexDeadlock.DeadlockKeepsUrgency | tkernel_source/kernel/tkernel/src/mutex.c:290-303 | The state these calls end in has a waits-for cycle and is not at the global minimum |
| MutexDeadlock.MakeDeadlock | tkernel_source/kernel/tkernel/src/mutex.c:415-500 | Two tasks that each lock one inheritance mutex and then the other's are both blocked |
| MutexTheorem.ChainUrgency | tkernel_source/kernel/tkernel/src/mutex.c:263-285 | Along any chain of owners urgency never falls: no task is less urgent than a task blocked on it |
| MutexTheorem.OwnDemandBound | tkernel_source/kernel/tkernel/src/mutex.c:263-285 | A task is at least as urgent as every base priority and ceiling behind it |
| MutexTheorem.WalkUp | tkernel_source/kernel/tkernel/src/mutex.c:108-150 | Following a priority back from holder to first waiter ends at a task that asks for it itself, because chains without cycles are finite |
| MutexTheorem.OneStepUp | tkernel_source/kernel/tkernel/src/mutex.c:113-144 | A priority comes either from the task itself or from the first waiter of an inheritance mutex it holds |
| MutexKernel.Kernel.constructor | tkernel_source/kernel/tkernel/src/mutex.c:62-88 | After initialization no task and no mutex exists and all equations hold |
| MutexKernel.Kernel.CreMtx | tkernel_source/kernel/tkernel/src/mutex.c:316-368 | A new mutex is free, has an empty queue, and keeps its ceiling only with TA_CEILING; no priority changes |
| MutexKernel.Kernel.LocMtx | tkernel_source/kernel/tkernel/src/mutex.c:415-500 | Lock: exact error conditions (unregistered, already held, base priority above the ceiling, wait disabled, polling), the exact new state when the mutex was free, the blocked state otherwise, and every task at its demanded priority afterwards |
| MutexKernel.Kernel.BlockOn | tkernel_source/kernel/tkernel/src/mutex.c:473-494 | Blocking raises tasks only for TA_INHERIT, only less urgent ones and only to the waiter's priority, puts the waiter at the end or behind its equals, and changes nothing else |
| MutexKernel.Kernel.JoinQueue | tkernel_source/kernel/tkernel/src/wait.c:152-161 | A task joins the queue of a mutex at the end, or behind all that are at least as urgent |
| MutexKernel.Kernel.UnlMtx | tkernel_source/kernel/tkernel/src/mutex.c:505-557 | Unlock: the caller drops to the minimum of its remaining demands, then the first waiter becomes the holder (raised to the ceiling if need be) or the mutex becomes free; errors change nothing |
| MutexKernel.Kernel.HandOver | tkernel_source/kernel/tkernel/src/mutex.c:530-551 | Passing a mutex on: its first waiter holds it, leaves the wait, and every other task is still at its demand |
| MutexKernel.Kernel.ReleaseMutex | tkernel_source/kernel/tkernel/src/mutex.c:108-150 | release_mutex sets the task to the minimum of its base priority and of what its other mutexes ask for, in spite of the value carried over between loop rounds, and propagates the loss of urgency along the chain of owners |
| MutexKernel.Kernel.ScanMutexList | tkernel_source/kernel/tkernel/src/mutex.c:113-144 | The in-place unlinking loop removes exactly the given mutex from the list and finds exactly the minimum of the remaining demands |
| MutexKernel.Kernel.MutexPri | tkernel_source/kernel/tkernel/src/mutex.c:126-138 | A mutex that asks for nothing leaves the carried-over value; any other yields its ceiling or the priority of its first waiter |
| MutexKernel.Kernel.ChangeTaskPriority | tkernel_source/kernel/tkernel/src/task.c:227-252 | A priority change with its hooks re-establishes every task's equation, moves priorities in one direction only, leaves TA_TFIFO queues alone, reorders a queue only because one of its tasks changed, and terminates on every chain, cyclic ones included |
| MutexKernel.Kernel.MtxChgPri | tkernel_source/kernel/tkernel/src/mutex.c:263-285 | The hook repositions the waiting task and leaves owner and chain at their demands |
| MutexKernel.Kernel.AdjustHolder | tkernel_source/kernel/tkernel/src/mutex.c:271-284 | Raising the owner only when it is less urgent, and recomputing it only when it had the old priority, is enough |
| MutexKernel.Kernel.MtxRelWai | tkernel_source/kernel/tkernel/src/mutex.c:290-303 | When a waiter leaves, recomputing the owner only if it had the waiter's priority restores all equations |
| MutexKernel.Kernel.ReleaseWait | tkernel_source/kernel/tkernel/src/wait.c:60-76 | Timeout and forced release: the task waits no more and stands in no queue, everybody else stays in theirs, others only lose urgency, all equations hold |
| MutexSteps.WaitGivenUp | tkernel_source/kernel/tkernel/src/wait.c:60-76 | A task that has given up its wait stands in no queue, and nobody else has left or joined one |
| MutexKernel.Kernel.ChgPriMutex | tkernel_source/kernel/tkernel/src/mutex.c:210-257 | A base priority is refused exactly when it is more urgent (a lower number) than the ceiling of a held or awaited ceiling mutex; otherwise the answer is the minimum of all demands with the new base |
| MutexKernel.Kernel.ChgPri | tkernel_source/kernel/tkernel/src/task_manage.c:410-455 | tk_chg_pri: exact error conditions; on success the base is the one asked for and the priority becomes the new minimum, propagated to the owners; no entry changes otherwise but in priority |
| MutexKernel.Kernel.SignalOne | tkernel_source/kernel/tkernel/src/mutex.c:169-196 | One mutex of an ending task goes to its first waiter or becomes free |
| MutexKernel.Kernel.SignalAllMutex | tkernel_source/kernel/tkernel/src/mutex.c:163-197 | All mutexes of an ending task are passed on, each to the head of its own queue; no other mutex is touched |
| MutexKernel.Kernel.Finalize | tkernel_source/kernel/tkernel/src/task_manage.c:272-298 | An ending task leaves its wait queue and passes on its mutexes; every survivor is at its demand |
| MutexKernel.Kernel.TerTsk | tkernel_source/kernel/tkernel/src/task_manage.c:272-298 | Termination: the task is dormant, waits for nothing, holds nothing, and base and current priority are its initial priority again, whatever they had been changed to; every mutex it held has its first waiter as holder or is free, TA_TFIFO queues keep their order, survivors are at their demands |
| MutexKernel.Kernel.CancelWait | tkernel_source/kernel/tkernel/src/wait.h:50-54 | A task that stays marked as waiting is taken out of its queue and its owner loses the inherited urgency |
| MutexKernel.Kernel.WaitDelete | tkernel_source/kernel/tkernel/src/wait.c:125-134 | Every waiter of a deleted mutex is released and nobody else changes |
| MutexKernel.Kernel.DelMtx | tkernel_source/kernel/tkernel/src/mutex.c:373-404 | Deletion: the holder loses the mutex and what it inherited from it, all waiters are released, other mutexes keep their waiters |
| MutexKernel.Kernel.Detach | tkernel_source/kernel/tkernel/src/mutex.c:386-392 | The first half of deletion: the holder's list loses the mutex, priorities only lose urgency |
| MutexKernel.Kernel.QueueInsertTpri | tkernel_source/kernel/tkernel/src/wait.h:79-97 | The insertion goes behind all tasks at least as urgent and in front of all others |
| MutexKernel.Kernel.GcbChangePriority | tkernel_source/kernel/tkernel/src/wait.c:183-187 | A waiting task moves to the place of its new priority, behind its equals |
| MutexKernel.Kernel.SetTaskState | tkernel_source/kernel/tkernel/src/task_manage.c:32-266 | Creating or starting a task that holds nothing and waits for nothing keeps all equations |
| MutexKernel.Kernel.SetOtherWait | tkernel_source/kernel/tkernel/src/wait.c:152-161 | Waiting for another kind of object keeps all equations |
| MutexPropagation.MoveHead | tkernel_source/kernel/tkernel/src/mutex.c:263-270 | How a reordered queue's demand on its holder relates to its demand before, for a raised and for a lowered waiter |
| MutexPropagation.MoveOthers | tkernel_source/kernel/tkernel/src/mutex.c:263-285 | A priority change of a waiter can only unsettle the holder of the mutex it waits for |
| MutexPropagation.MoveRaises | tkernel_source/kernel/tkernel/src/mutex.c:273-277 | A raise passed on to the holder is a raise there too, strictly downward in priority number |
| MutexPropagation.MoveRest | tkernel_source/kernel/tkernel/src/mutex.c:278-284 | Otherwise the holder is already right unless it had the waiter's old priority |
| MutexPropagation.MoveSettles | tkernel_source/kernel/tkernel/src/mutex.c:269-271 | Without inheritance repositioning a waiter settles the state |
| MutexPropagation.SettleAlone | tkernel_source/kernel/tkernel/src/task.c:239-250 | A task that is in no priority-ordered mutex queue can be given its new priority without a hook |
| MutexPropagation.NextHolder | tkernel_source/kernel/tkernel/src/mutex.c:271-272 | An awaited inheritance mutex has a holder, other than the waiter, that is safe to visit |
| MutexPropagation.DropDemands | tkernel_source/kernel/tkernel/src/mutex.c:113-124 | Unlinking a mutex unsettles nobody but its former holder |
| MutexTransfers.TakeLinks | tkernel_source/kernel/tkernel/src/mutex.c:454-466 | Taking a mutex keeps lists, queues and ceilings in order |
| MutexTransfers.TakeDemands | tkernel_source/kernel/tkernel/src/mutex.c:454-466 | A new holder needs no other priority than its own or the ceiling |
| MutexTransfers.LeaveTerm | tkernel_source/kernel/tkernel/src/mutex.c:290-303 | What a mutex asks for after one of its waiters has left: never more, and the same unless the waiter was the one that counted |
| MutexTransfers.LeaveDemands | tkernel_source/kernel/tkernel/src/mutex.c:290-303 | Only a holder with the leaving waiter's priority can have inherited from it |
| MutexTransfers.QueueTerm | tkernel_source/kernel/tkernel/src/mutex.c:473-494 | What a mutex asks for after a task has joined its queue |
| MutexTransfers.QueueDemands | tkernel_source/kernel/tkernel/src/mutex.c:473-494 | A holder raised in advance to the newcomer's priority is at its demand once the newcomer is queued |
| MutexTransfers.BaseDemands | tkernel_source/kernel/tkernel/src/task_manage.c:435-448 | A new base priority unsettles its own task only |
| MutexTransfers.LeaveAllDemands | tkernel_source/kernel/tkernel/src/mutex.c:530-547 | Releasing the first waiter of a mutex that has just been given up unsettles nobody |
| MutexTransfers.DormantDemands | tkernel_source/kernel/tkernel/src/task.c:106-140 | An ended task is reset to its initial base and current priority, and that unsettles nobody |
| MutexSteps.LeaveOthers | tkernel_source/kernel/tkernel/src/mutex.c:290-303 | When a waiter leaves, everybody but the holder with its priority is at its demand |
| MutexSteps.LeftQueues | tkernel_source/kernel/tkernel/src/wait.h:50-54 | A task stands in no wait queue but that of the mutex it waits for |
| MutexSteps.AvoidsAcyclic | tkernel_source/kernel/tkernel/src/task_manage.c:272-298 | Off every cycle, the chain of owners above a leaving task never comes back to it |
| MutexSteps.BlockedAfter | tkernel_source/kernel/tkernel/src/mutex.c:473-494 | Raising the chain and then queueing composes to the effect of blocking |
| Rings.InitRing | tkernel_source/include/sys/queue.h:41-45 | QueInit makes a ring of one |
| Rings.InsertRing | tkernel_source/include/sys/queue.h:59-65 | QueInsert puts an element before the given one in the ring, for any ring and position |
| Rings.RemoveRing | tkernel_source/include/sys/queue.h:72-78 | QueRemove takes exactly that element out of the ring |
| Rings.AreaInsertRing | tkernel_source/lib/libtk/src/memalloc.c:146-152 | Insertion behind an area when flags share the prev word |
| Rings.AreaRemoveRing | tkernel_source/lib/libtk/src/memalloc.c:157-161 | Removal of an area keeps the neighbour's flags |
| FreeQueue.AppendNewSize | tkernel_source/lib/libtk/src/memalloc.c:103-123 | An area of a new size takes its place in the strictly ascending size order |
| FreeQueue.AppendSameSize | tkernel_source/lib/libtk/src/memalloc.c:103-123 | An area of a known size joins that size's ring |
| FreeQueue.RemoveSibling | tkernel_source/lib/libtk/src/memalloc.c:128-140 | Removing an area that is not the first of its size |
| FreeQueue.RemoveAlone | tkernel_source/lib/libtk/src/memalloc.c:128-140 | Removing the only area of its size |
| FreeQueue.RemoveLeader | tkernel_source/lib/libtk/src/memalloc.c:128-140 | Removing the first area of several equal ones: the next one is promoted into the size order with all others behind it |
| HeapLayout.AreasApart | tkernel_source/lib/libtk/src/mem.h:30-54 | No two areas overlap and none overlaps the control block |
| HeapLayout.BelowEnd | tkernel_source/lib/libtk/src/mem.h:30-54 | Every area ends inside its page |
| HeapLayout.AboveStart | tkernel_source/lib/libtk/src/mem.h:30-54 | Every area starts inside its page |
| HeapLayout.SamePage | tkernel_source/lib/libtk/src/mem.h:30-54 | Two areas of a page do not overlap |
| HeapSteps.QueueWork | tkernel_source/lib/libtk/src/memalloc.c:103-140 | Work on the free queue touches no header and no block |
| HeapSteps.UseStep | tkernel_source/lib/libtk/src/memalloc.c:196-214 | Marking an area used or free keeps the heap in order |
| HeapSplit.SplitStep | tkernel_source/lib/libtk/src/memalloc.c:202-210 | Splitting an area keeps pages tiled and free areas queued |
| HeapSplit.MergeStep | tkernel_source/lib/libtk/src/memalloc.c:372-383 | Merging an area into its neighbour keeps the heap in order |
| HeapSplit.AbsorbedUndone | tkernel_source/lib/libtk/src/memalloc.c:303-336 | Re-splitting a merged area at the old size restores every header, because the part split off always meets the minimum fragment bound |
| HeapSplit.SplitBlocks | tkernel_source/lib/libtk/src/memalloc.c:202-210 | Splitting changes the contents of no block but the one that is cut |
| HeapSplit.MergeBlocks | tkernel_source/lib/libtk/src/memalloc.c:372-383 | Merging free areas changes no block |
| HeapPages.AddStep | tkernel_source/lib/libtk/src/memalloc.c:167-191 | A new page is tiled by one free area between its TOP and END headers |
| HeapPages.DropStep | tkernel_source/lib/libtk/src/memalloc.c:386-390 | Giving a page back leaves the other pages as they were |
| HeapPages.AddBlocks | tkernel_source/lib/libtk/src/memalloc.c:167-191 | A new page changes no block |
| HeapPages.DropBlocks | tkernel_source/lib/libtk/src/memalloc.c:386-390 | Giving a page back changes no block |
| HeapSearch.SearchBest | tkernel_source/lib/libtk/src/memalloc.c:54-82 | What the search finds is the smallest free area that fits, among all free areas of the heap |
| HeapSearch.SearchFailed | tkernel_source/lib/libtk/src/memalloc.c:54-82 | A search that ends at the queue head proves that no free area fits |
| HeapSearch.AllocatedNoneFits | tkernel_source/lib/libtk/src/memalloc.c:196-214 | Allocation never makes room: what did not fit before does not fit afterwards |
| HeapSearch.LargestLast | tkernel_source/kernel/tkernel/src/mempool.c:142-148 | The last element of the size order is a largest free area of the heap |
| HeapSearch.AppendOk | tkernel_source/lib/libtk/src/memalloc.c:385-394 | An area may be queued once it has no free neighbour and does not fill its page |
| HeapSearch.InsideStep | tkernel_source/lib/libtk/src/mem.h:30-54 | Writing inside a live block changes that block only and no structure of the heap |
| MemAlloc.Heap.constructor | tkernel_source/lib/libtk/src/tkminit.c:59-82 | An empty heap: two empty queues, no page, no block |
| MemAlloc.Heap.SearchFreeArea | tkernel_source/lib/libtk/src/memalloc.c:54-82 | Whichever end the search starts from, it finds the place of the size in the ascending order |
| MemAlloc.Heap.SearchDown | tkernel_source/lib/libtk/src/memalloc.c:63-72 | The scan from the largest area finds the first size that fits |
| MemAlloc.Heap.SearchUp | tkernel_source/lib/libtk/src/memalloc.c:73-81 | The scan from the smallest area finds the same place |
| MemAlloc.Heap.AppendFreeArea | tkernel_source/lib/libtk/src/memalloc.c:103-123 | Registering an area makes it one of the queued ones; headers, pages and blocks stay |
| MemAlloc.Heap.RemoveFreeQue | tkernel_source/lib/libtk/src/memalloc.c:128-140 | Exactly that area leaves the free queue, whichever of its two tiers it stands in; headers, pages and blocks stay |
| MemAlloc.Heap.Allocate | tkernel_source/lib/libtk/src/memalloc.c:196-214 | The area becomes a block of the wanted size if the rest is worth keeping, else of its full size; the rest is queued; other blocks keep their contents |
| MemAlloc.Heap.SplitOff | tkernel_source/lib/libtk/src/memalloc.c:202-210 | The area keeps its first part and its contents, the rest is one more queued area |
| MemAlloc.Heap.ChkAlloc | tkernel_source/lib/libtk/src/memcheck.c:33-104 | On any area ring the checker accepts exactly when its tests hold of every area and the pointer is NULL or a used area, and its two counts are those of the ring |
| MemAlloc.Heap.MallocCheck | tkernel_source/lib/libtk/src/memcheck.c:137-142 | On a heap in order the checker says yes exactly for NULL and for live blocks |
| MemAlloc.Heap.AddPage | tkernel_source/lib/libtk/src/memalloc.c:183-190 | A page is registered as one free area with room for all but its two headers |
| MemAlloc.Heap.NewPage | tkernel_source/lib/libtk/src/memalloc.c:167-191 | Whole pages with room for the request and two headers are asked for; without page size or answer nothing changes |
| MemAlloc.Heap.TakeFree | tkernel_source/lib/libtk/src/memalloc.c:241-246 | The smallest fitting area leaves the queue, or none fits and nothing changes |
| MemAlloc.Heap.UseTaken | tkernel_source/lib/libtk/src/memalloc.c:256-257 | A taken area becomes a new block of at least the wanted size and at most a minimal fragment more |
| MemAlloc.Heap.Malloc | tkernel_source/lib/libtk/src/memalloc.c:221-258 | malloc fails exactly when the size is zero or nothing fits and no page can be had; otherwise it adds one new block of at least the bytes asked for, cut from the best fit or from a new page exactly when the rest is worth an area, and leaves every other block untouched |
| MemAlloc.Heap.UnitsLeast | tkernel_source/lib/libtk/src/memalloc.c:230-239 | The cells asked for are the fewest that hold the bytes and, unless the size is zero, a minimal fragment |
| MemAlloc.Heap.PageUnitsLeast | tkernel_source/lib/libtk/src/memalloc.c:167-181 | The page block asked for is the fewest whole pages with room for the request and two headers |
| MemAlloc.Heap.ImallocFree | tkernel_source/kernel/sysmgr/src/imalloc.c:234-276 | The first critical section of imalloc: best fit with at least the bytes asked for, or nothing changed |
| MemAlloc.Heap.ImallocPage | tkernel_source/kernel/sysmgr/src/imalloc.c:250-276 | The second critical section of imalloc: a block from a new page with at least the bytes asked for, whatever happened in between |
| MemAlloc.Heap.KernelUnitsLeast | tkernel_source/kernel/sysmgr/src/imalloc.c:234-248 | The same for imalloc, where size zero also gets a minimal fragment |
| MemAlloc.Heap.MergeNext | tkernel_source/lib/libtk/src/memalloc.c:372-376 | A free area behind is merged in; a block that grows keeps its contents |
| MemAlloc.Heap.MergePrev | tkernel_source/lib/libtk/src/memalloc.c:378-383 | A free area in front takes the released area in |
| MemAlloc.Heap.Merge | tkernel_source/lib/libtk/src/memalloc.c:369-383 | A released block and its free neighbours become one free area around it |
| MemAlloc.Heap.Retire | tkernel_source/lib/libtk/src/memalloc.c:385-394 | A page goes back exactly when it is wholly free and interrupts are enabled; a wholly free one that stays is recorded as kept; otherwise the area is queued |
| MemAlloc.Heap.MemFree | tkernel_source/lib/libtk/src/memalloc.c:354-395 | free removes exactly that block, coalesces on both sides, and keeps no page that has become wholly free unless interrupts are disabled; which kept pages come and go |
| MemAlloc.Heap.WriteBlock | tkernel_source/lib/libtk/src/mem.h:30-54 | The owner of a block may write its cells without disturbing the heap or another block |
| MemAlloc.Heap.CopyBlock | tkernel_source/lib/libtk/src/memalloc.c:338-341 | Copying between two live blocks changes the target's contents only |
| MemAlloc.Heap.Absorb | tkernel_source/lib/libtk/src/memalloc.c:303-313 | The first step of realloc: the block takes in a free area behind it, keeps its contents, and nothing else that fits changes |
| MemAlloc.Heap.RoomMeans | tkernel_source/lib/libtk/src/memalloc.c:303-313 | A block can grow in place by the free area behind it and that area's header, if there is one, and else not at all |
| MemAlloc.Heap.ShrinkTo | tkernel_source/lib/libtk/src/memalloc.c:318-321 | A block is cut to the new size in place, its contents a prefix of the old |
| MemAlloc.Heap.Realloc | tkernel_source/lib/libtk/src/memalloc.c:281-349 | realloc fails exactly when the block cannot grow in place, no free area fits and no page can be had, and then every area and block is as before; it stays in place exactly when there is room; the block then has at least the bytes asked for and keeps the first min(old, new) cells; size zero frees as free does |
| MemAlloc.Heap.ReallocBlock | tkernel_source/lib/libtk/src/memalloc.c:303-346 | The same for a block, with the pages held afterwards |
| MemAlloc.Heap.MoveBlock | tkernel_source/lib/libtk/src/memalloc.c:327-345 | Moving a merged block keeps its old contents; failing restores the old size |
| HeapCheck.TiledIsChecked | tkernel_source/lib/libtk/src/memcheck.c:42-87 | A heap in order passes every test of the checker |
| HeapCheck.CellsConserved | tkernel_source/lib/libtk/src/memcheck.c:42-87 | Used cells, free cells and headers add up exactly to the pages held |
| HeapCheck.Accepts | tkernel_source/lib/libtk/src/memcheck.c:42-87 | What the checker accepts: every page starts with a TOP header and ends with an END header, and no area is shorter than a header and two cells |
| HeapCheck.Refuses | tkernel_source/lib/libtk/src/memcheck.c:42-87 | What it refuses: one of these tests fails at some area |
| HeapCheck.CountedOnce | tkernel_source/lib/libtk/src/memcheck.c:60-85 | Areas in use count as used only, free areas and END headers as free only |
| MemAllocTheorem.BlocksDisjoint | tkernel_source/lib/libtk/src/memalloc.c:196-258 | Live blocks are disjoint, headers included, have at least the minimal size and lie inside one page |
| MemAllocTheorem.FreeAreasApart | tkernel_source/lib/libtk/src/memalloc.c:354-395 | No two neighbouring areas are both free, and no free area fills its page |
| MemAllocTheorem.QueueIsFreeAreas | tkernel_source/lib/libtk/src/memalloc.c:54-140 | The two-tier queue holds exactly the free areas, each once |
| MemAllocTheorem.NothingLeft | tkernel_source/lib/libtk/src/memalloc.c:354-395 | When every block has been given back, in any order, and no release with interrupts disabled has left a page, no page is held and both queues are empty |
| MemAllocTheorem.OnlyKeptPages | tkernel_source/kernel/sysmgr/src/imalloc.c:306-346 | However releases with interrupts enabled and disabled are mixed: once every block has been given back, each page still held is one wholly free area that a release with interrupts disabled has left |
| MemPool.Pool.constructor | tkernel_source/kernel/tkernel/src/mempool.c:336-355 | A new pool is one free area of the rounded size |
| MemPool.RoundSizeLeast | tkernel_source/kernel/tkernel/src/mempool.c:112-118 | A request is rounded up to the fewest cells that hold it and a minimal fragment |
| MemPool.Pool.MaxFreeSize | tkernel_source/kernel/tkernel/src/mempool.c:142-148 | The answer is the size of the largest free area: a size fits exactly when it is not above it |
| MemPool.Pool.GetBlk | tkernel_source/kernel/tkernel/src/mempool.c:269-297 | A block is found exactly when some free area fits; no request that did not fit fits afterwards |
| MemPool.Pool.RelBlk | tkernel_source/kernel/tkernel/src/mempool.c:302-331 | A block is released exactly when it is in use; the pool itself is never given back |
| MemPool.Pool.Wakeup | tkernel_source/kernel/tkernel/src/mempool.c:363-385 | Waiting tasks are served strictly from the head, each with a block of its own, until the head no longer fits |
| MemPool.Pool.GetMpl | tkernel_source/kernel/tkernel/src/mempool.c:534-585 | A request is refused exactly when it is larger than the pool, and served at once, with at least the bytes asked for, exactly when nobody at least as urgent waits and an area fits; otherwise it queues, times out or is refused; the head waiter never fits afterwards |
| MemPool.Pool.RelMpl | tkernel_source/kernel/tkernel/src/mempool.c:590-625 | Releasing a block serves the queue from its head as far as the memory goes |
| MemPool.Pool.RelWai | tkernel_source/kernel/tkernel/src/mempool.c:410-413 | When a waiter gives up, those behind it are served if they now can be |
| MemPool.Pool.ChgPri | tkernel_source/kernel/tkernel/src/mempool.c:392-405 | When a waiter's priority changes, a new head that fits is served |
| MemPool.OneServed | tkernel_source/kernel/tkernel/src/mempool.c:369-384 | One round of the wakeup loop extends the granted prefix by the head of the queue |
| MemPool.AllReturned | tkernel_source/kernel/tkernel/src/mempool.c:302-355 | When every block has been released the pool is one free area of its full size again |
| MemPool.WaitersWaitForBlocks | tkernel_source/kernel/tkernel/src/mempool.c:534-625 | A waiting task always waits for a block that somebody holds, so every admitted request can be met |
| WaitQueue.Join | tkernel_source/kernel/tkernel/src/wait.c:152-161 | Entering a wait queue: at the end, or behind all that are at least as urgent |
| WaitQueue.JoinedOk | tkernel_source/kernel/tkernel/src/wait.c:194-208 | gcb_top_of_wait_queue predicts who is first after joining |
| WaitQueue.LeftOk | tkernel_source/kernel/tkernel/src/wait.h:50-54 | Leaving takes out exactly that waiter and keeps the places of the others |
| WaitQueue.MovedOk | tkernel_source/kernel/tkernel/src/wait.c:183-187 | A priority change keeps queue order and members |
| WaitQueue.MovedAt | tkernel_source/kernel/tkernel/src/wait.c:183-187 | A waiter whose priority changes goes behind its equals, and the others keep their order |
| MessageRing.DecodeEncode | tkernel_source/kernel/tkernel/src/messagebuf.c:101-105 | The four header bytes give back every message size |
| MessageRing.HeaderWhole | tkernel_source/kernel/tkernel/src/messagebuf.c:101-105 | A header is never split by the end of the ring |
| MessageRing.StoreHolds | tkernel_source/kernel/tkernel/src/messagebuf.c:127-154 | A record written at the tail, wrapped or not, is added behind the stored messages, which stay |
| MessageRing.FetchHolds | tkernel_source/kernel/tkernel/src/messagebuf.c:160-190 | The head of the ring decodes to exactly the oldest message, wrapped or not, and the others follow it |
| MessageRing.HoldsAppend | tkernel_source/kernel/tkernel/src/messagebuf.c:127-154 | Records laid end to end hold the messages one after the other |
| MessageRing.HoldsPrefix | tkernel_source/kernel/tkernel/src/messagebuf.c:127-154 | Records are not touched by writes behind them |
| MessageRing.Steps | tkernel_source/kernel/tkernel/src/messagebuf.c:127-190 | Where the position steps past header, first piece and padding lead, for every wrap position |
| MessageRing.StoreState | tkernel_source/kernel/tkernel/src/messagebuf.c:127-154 | The new tail and free count after a store |
| MessageRing.FetchState | tkernel_source/kernel/tkernel/src/messagebuf.c:160-190 | The new head and free count after a read |
| MessageRing.UnroundedSuffices | tkernel_source/kernel/tkernel/src/messagebuf.c:111-114 | The test without rounding is right because the free size is a multiple of four |
| MessageBuffer.Buffer.constructor | tkernel_source/kernel/tkernel/src/messagebuf.c:253-317 | A new buffer is empty and its size is rounded up to a multiple of four |
| MessageBuffer.Buffer.CopyOut | tkernel_source/kernel/tkernel/src/messagebuf.c:170-185 | Reading around the end of the ring gives the bytes in order |
| MessageBuffer.Buffer.MsgToMbf | tkernel_source/kernel/tkernel/src/messagebuf.c:127-154 | A store adds the message behind the others in the ring |
| MessageBuffer.Buffer.MbfToMsg | tkernel_source/kernel/tkernel/src/messagebuf.c:160-190 | A read takes out exactly the oldest message |
| MessageBuffer.Buffer.MbfWakeup | tkernel_source/kernel/tkernel/src/messagebuf.c:198-214 | Waiting messages move into the ring from the head of the queue as long as they fit, and their order is kept |
| MessageBuffer.Buffer.Store | tkernel_source/kernel/tkernel/src/messagebuf.c:401-404 | Storing keeps the invariant that the first waiting sender does not fit |
| MessageBuffer.Buffer.Enqueue | tkernel_source/kernel/tkernel/src/messagebuf.c:406-417 | A sender that has to wait joins the queue, the first sender still does not fit, and with TA_TFIFO its message goes behind all accepted before |
| MessageBuffer.Buffer.Snd | tkernel_source/kernel/tkernel/src/messagebuf.c:363-423 | Send: handed over exactly when a receiver waits; otherwise stored exactly when it fits and the caller is an interrupt handler or more urgent than every waiting sender; else queued or refused; a task's message to a TA_TFIFO buffer is always delivered behind all that were accepted before |
| MessageBuffer.Buffer.FromRing | tkernel_source/kernel/tkernel/src/messagebuf.c:458-463 | Receiving from the ring takes the oldest pending message, and waiting messages follow in order |
| MessageBuffer.Buffer.FromSender | tkernel_source/kernel/tkernel/src/messagebuf.c:465-471 | Receiving from a waiting sender, even of a message larger than the ring, takes the oldest pending message |
| MessageBuffer.Buffer.Take | tkernel_source/kernel/tkernel/src/messagebuf.c:458-471 | A message is taken from the ring if it holds one, else from the first waiting sender: in either case the oldest pending one |
| MessageBuffer.Buffer.Rcv | tkernel_source/kernel/tkernel/src/messagebuf.c:433-490 | Receive returns exactly the oldest pending message of ring and send queue together, waiting senders are served in order; it waits exactly when there is none |
| MessageBuffer.Buffer.RelSender | tkernel_source/kernel/tkernel/src/messagebuf.c:237-240 | A sender that gives up withdraws its message and no other, and those behind it are stored if they fit |
| MessageBuffer.Buffer.ChgPri | tkernel_source/kernel/tkernel/src/messagebuf.c:219-232 | A sender's new priority reorders the queue and a new head that fits is stored |
| MessageBuffer.Buffer.RelReceiver | tkernel_source/kernel/tkernel/src/wait.c:60-76 | A receiver that gives up leaves the queue |
| EventFlag.CondMonotone | tkernel_source/kernel/tkernel/src/eventflag.c:86-93 | A condition that fails goes on failing while bits are only cleared |
| EventFlag.CondBits | tkernel_source/kernel/tkernel/src/eventflag.c:86-93 | With TWF_ORW some bit asked for has to be set, without it all of them |
| EventFlag.ScanMissesNone | tkernel_source/kernel/tkernel/src/eventflag.c:192-245 | After a set, early exits included, no waiting task's condition holds |
| EventFlag.ScanShrinks | tkernel_source/kernel/tkernel/src/eventflag.c:214-239 | The pattern only loses bits during the scan |
| EventFlag.ScanSplits | tkernel_source/kernel/tkernel/src/eventflag.c:214-239 | Every waiting task is either kept or released, and a released one is told a pattern that meets its condition |
| EventFlag.ScanKeepsOrder | tkernel_source/kernel/tkernel/src/eventflag.c:214-239 | The tasks left keep their order |
| EventFlag.ScanInTurn | tkernel_source/kernel/tkernel/src/eventflag.c:214-239 | The waiting tasks take their turns in queue order: the scan of a queue is the scan of any first part and then of the rest with the bits that are left, early exits included |
| EventFlag.ScanOfOne | tkernel_source/kernel/tkernel/src/eventflag.c:219-236 | One turn: a task whose bits are set is released with the pattern of that moment, and exactly the bits it is to clear are cleared |
| EventFlag.Flag.constructor | tkernel_source/kernel/tkernel/src/eventflag.c:116-159 | A new flag has the initial pattern and no waiter |
| EventFlag.Flag.SetFlg | tkernel_source/kernel/tkernel/src/eventflag.c:192-245 | The in-place loop releases, keeps and clears exactly as the scan specification says: every released task is told some (TWF_ORW) or all of its bits, every task left lacks all or some of them |
| EventFlag.Flag.ClrFlg | tkernel_source/kernel/tkernel/src/eventflag.c:250-268 | Clearing can make no waiting task's condition true |
| EventFlag.Flag.WaiFlg | tkernel_source/kernel/tkernel/src/eventflag.c:278-334 | Wait: met at once exactly when some (TWF_ORW) or all bits asked for are set, and which bits are then cleared; exact conditions for waiting and each error |
| EventFlag.Flag.Rel | tkernel_source/kernel/tkernel/src/wait.c:60-76 | A task that gives up leaves the others in order |
| EventFlag.Flag.ChgPri | tkernel_source/kernel/tkernel/src/eventflag.c:98-104 | A task's new priority moves it in the queue |
| Semaphore.ScanCounts | tkernel_source/kernel/tkernel/src/semaphore.c:246-267 | Counts are conserved: what the scan takes goes to the released tasks, and the count never becomes negative |
| Semaphore.ScanMissesNone | tkernel_source/kernel/tkernel/src/semaphore.c:246-267 | The scan leaves nobody who could be served: not the head, and with TA_CNT nobody at all |
| Semaphore.ScanTakesPrefix | tkernel_source/kernel/tkernel/src/semaphore.c:246-267 | Without TA_CNT the released tasks are the first of the queue |
| Semaphore.ScanKeepsOrder | tkernel_source/kernel/tkernel/src/semaphore.c:246-267 | The tasks left keep their order |
| Semaphore.ScanZero | tkernel_source/kernel/tkernel/src/semaphore.c:263-266 | Stopping at a count of zero misses nobody |
| Semaphore.ScanInTurn | tkernel_source/kernel/tkernel/src/semaphore.c:246-267 | With TA_CNT the waiting tasks take their turns: the scan of a queue is the scan of any first part and then of the rest with the count that is left |
| Semaphore.ScanOfOne | tkernel_source/kernel/tkernel/src/semaphore.c:252-262 | One turn: a task is served exactly when the count suffices |
| Semaphore.ScanServes | tkernel_source/kernel/tkernel/src/semaphore.c:246-267 | Without TA_CNT the tasks served are the first of the queue, up to the first one the count is too small for; with TA_CNT it is too small for everybody left |
| Semaphore.Sem.constructor | tkernel_source/kernel/tkernel/src/semaphore.c:141-188 | A new semaphore has its initial count and no waiter |
| Semaphore.Sem.SigSem | tkernel_source/kernel/tkernel/src/semaphore.c:221-273 | Signal: refused exactly when the maximum would be exceeded; otherwise counts are conserved and everybody who can be served is |
| Semaphore.Sem.ReleaseWaiters | tkernel_source/kernel/tkernel/src/semaphore.c:246-267 | The loop through the queue releases, keeps and counts exactly as the scan specification says |
| Semaphore.Sem.ServeAt | tkernel_source/kernel/tkernel/src/semaphore.c:259-266 | Serving the waiter at any position takes its count and leaves the scan of the rest to be done |
| Semaphore.Sem.WaiSem | tkernel_source/kernel/tkernel/src/semaphore.c:283-332 | Wait: exact conditions for acquiring, waiting and each error |
| Semaphore.Sem.Serve | tkernel_source/kernel/tkernel/src/semaphore.c:100-120 | The hook's loop serves the queue from its head, unless TA_CNT makes that unnecessary |
| Semaphore.Sem.RelWai | tkernel_source/kernel/tkernel/src/semaphore.c:126-129 | A waiter that gives up may let the next one be served |
| Semaphore.Sem.ChgPri | tkernel_source/kernel/tkernel/src/semaphore.c:88-121 | A new head after a priority change is served if its request can be met |
| FastMLock.MutualExclusion | tkernel_source/lib/libtk/src/fastmlock.c:83-150 | In every state of every interleaving at most one task holds a lock number, its bit is set, and the waiter counter is exact |
| FastMLock.AnsweredHolds | tkernel_source/lib/libtk/src/fastmlock.c:83-104 | In every state of every run, a task that is told it has got a number holds it, and no other task holds it or is told so |
| FastMLock.NoLostWakeup | tkernel_source/lib/libtk/src/fastmlock.c:83-150 | If a number is free while a task is blocked on it, some task is about to wake it or to take the number, although one counter serves all 32 numbers |
| FastMLock.RunInv | tkernel_source/lib/libtk/src/fastmlock.c:83-150 | Every state of every run satisfies the invariant |
| FastMLock.StepInv | tkernel_source/lib/libtk/src/fastmlock.c:83-150 | Every atomic step of every task keeps the invariant |
| FastMLock.InitInv | tkernel_source/lib/libtk/src/fastmlock.c:155-177 | A new lock satisfies the invariant |
| FastMLock.EnterInv | tkernel_source/lib/libtk/src/fastmlock.c:89 | The counter increment |
| FastMLock.BtsInv | tkernel_source/lib/libtk/src/fastmlock.c:90-94 | The atomic test-and-set |
| FastMLock.WaiFlgInv | tkernel_source/lib/libtk/src/fastmlock.c:96-99 | The wait on the lock's event bit, successful or not |
| FastMLock.GiveUpInv | tkernel_source/lib/libtk/src/fastmlock.c:96-99 | A timeout or forced release while blocked |
| FastMLock.ReorderInv | tkernel_source/kernel/tkernel/src/eventflag.c:98-104 | A priority change of a blocked task |
| FastMLock.Answers | tkernel_source/lib/libtk/src/fastmlock.c:83-104 | A step lets MLockTmo answer success exactly when the step makes the task the holder, and an error exactly when its wait has failed or been given up, with no lock changed; a lock is lost only by unlocking |
| FastMLock.TriesAgain | tkernel_source/lib/libtk/src/fastmlock.c:89-100 | Nobody spins: a task that finds its number taken waits, and tries the lock bit again only when the event bit of that number has been set |
| FastMLock.SetIs | tkernel_source/lib/libtk/src/fastmlock.c:147 | Setting an event bit makes the first task that waits for it try again, or changes no task |
| FastMLock.ExitInv | tkernel_source/lib/libtk/src/fastmlock.c:101 | The counter decrement |
| FastMLock.UnlockInv | tkernel_source/lib/libtk/src/fastmlock.c:146 | The bit reset |
| FastMLock.ReadInv | tkernel_source/lib/libtk/src/fastmlock.c:147 | Reading a counter of zero means that nobody needs waking |
| FastMLock.SetInv | tkernel_source/lib/libtk/src/fastmlock.c:147 | Setting the event bit wakes one waiter of that number or leaves the bit for the next one |
| FastMLock.ScanOne | tkernel_source/kernel/tkernel/src/eventflag.c:192-245 | With single-bit requests that clear their bit, a set releases the first task waiting for that bit and nobody else |
| FastLock.MutualExclusion | tkernel_source/lib/libtk/src/fastlock.c:61-76 | In every state of every interleaving at most one task holds the lock |
| FastLock.NoOverflow | tkernel_source/lib/libtk/src/fastlock.c:71-76 | The semaphore of maximum one never overflows |
| FastLock.BlockedIsServed | tkernel_source/lib/libtk/src/fastlock.c:61-76 | While a task is blocked somebody holds the lock or is about to signal |
| FastLock.RunInv | tkernel_source/lib/libtk/src/fastlock.c:61-76 | In every run holders, semaphore count and signals on the way add up to one if a task is inside and to zero otherwise |
| FastLock.StepInv | tkernel_source/lib/libtk/src/fastlock.c:37-76 | Every atomic step keeps that sum |
| FastLock.SignalServes | tkernel_source/lib/libtk/src/fastlock.c:71-76 | A signal hands the lock to the head of the semaphore queue |
| FastLock.ForcedReleaseBreaks | tkernel_source/lib/libtk/src/fastlock.c:61-66 | After a forced release of any waiting task at most three ordinary steps lead to two holders, because Lock ignores the error: at once, by the signal on its way, or by the count that this signal leaves behind |
| FastLock.SafeIffNeverForced | tkernel_source/lib/libtk/src/fastlock.c:61-76 | In a run with forced releases, every continuation of every state has at most one holder if and only if nobody is released by force |
| FastLock.RunSafe | tkernel_source/lib/libtk/src/fastlock.c:61-76 | After a run without forced release every continuation keeps at most one holder |
| FastLock.ForcedRunExists | tkernel_source/lib/libtk/src/fastlock.c:61-66 | A task that waits behind a holder and is released by force: a run that ends with two holders |
| FastLock.InitInv | tkernel_source/lib/libtk/src/fastlock.c:81-104 | A new lock satisfies the sum |
| BitSearch.BitSearch1 | tkernel_source/lib/libsys/src/bitsearch1.c:28-106 | The masked, word-skipping, halving search finds the first set bit of the range, or that there is none |
| BitSearch.LowestBit | tkernel_source/lib/libsys/src/bitsearch1.c:70-88 | The five halving steps find the lowest set bit of a word |
| BitSearch.Halve | tkernel_source/lib/libsys/src/bitsearch1.c:70-88 | One halving step keeps the lowest set bit in view |
| BitSearch.LeastInWord | tkernel_source/lib/libsys/src/bitsearch1.c:46-94 | The lowest bit of the first non-empty word is the first set bit of the range |
| BitSearch.EmptyWord | tkernel_source/lib/libsys/src/bitsearch1.c:95-102 | Skipping an empty word skips no set bit |
| Scheduler.Sched.constructor | tkernel_source/kernel/tkernel/src/ready_queue.h:59-70 | An empty ready queue: no bit set, no top priority |
| Scheduler.Sched.ReadyQueueTop | tkernel_source/kernel/tkernel/src/ready_queue.h:75-83 | The head of the most urgent non-empty queue, or none |
| Scheduler.Sched.Insert | tkernel_source/kernel/tkernel/src/ready_queue.h:100-118 | The task goes behind its equals; the answer says whether it is now the most urgent |
| Scheduler.Sched.InsertTop | tkernel_source/kernel/tkernel/src/ready_queue.h:123-137 | The task goes in front of its equals |
| Scheduler.Sched.Delete | tkernel_source/kernel/tkernel/src/ready_queue.h:147-177 | The task leaves its queue; bit and top priority agree again, found by the bit search |
| Scheduler.Sched.Rotate | tkernel_source/kernel/tkernel/src/ready_queue.h:183-194 | The head of a queue goes to its end with a fresh slice, and the others keep their order |
| Scheduler.Sched.MoveLast | tkernel_source/kernel/tkernel/src/ready_queue.h:199-209 | The task goes behind its equals; the answer is the new head |
| Scheduler.Sched.TimeSliceSchedule | tkernel_source/kernel/tkernel/src/task.c:150-161 | A task is charged a period and moved behind its equals with a fresh slice exactly when its slice is used up |
| Scheduler.Sched.Reschedule | tkernel_source/kernel/tkernel/src/task.c:167-184 | The head of the ready queue is scheduled; the running task is charged if it is replaced |
| Scheduler.Sched.MakeReady | tkernel_source/kernel/tkernel/src/task.c:191-206 | A ready task is scheduled exactly when it is more urgent than all others, and bitmap, queues and schedule agree |
| Scheduler.Sched.MakeNonReady | tkernel_source/kernel/tkernel/src/task.c:215-222 | Only the removal of the scheduled task changes the schedule |
| Scheduler.Sched.ChangeReadyPriority | tkernel_source/kernel/tkernel/src/task.c:227-236 | A ready task gets its new place and the schedule follows |
| Scheduler.Sched.RotateReadyQueue | tkernel_source/kernel/tkernel/src/task.c:257-261 | After a rotation of the top queue its second task is scheduled |
| Scheduler.Sched.RotateReadyQueueRun | tkernel_source/kernel/tkernel/src/task.c:266-273 | Rotation of the top queue, if there is one |
| Scheduler.Sched.TimerTick | tkernel_source/kernel/tkernel/src/timer.c:184-198 | A tick changes the schedule only at the end of the running task's slice |
| Scheduler.SliceRunsOut | tkernel_source/kernel/tkernel/src/task.c:150-161 | A task keeps its place for as many periods as its slice holds and gives way after the next |
| Scheduler.DeleteQueues | tkernel_source/kernel/tkernel/src/ready_queue.h:147-177 | Deleting keeps each queue exactly the ready tasks of its priority |
| Scheduler.DeletedHead | tkernel_source/kernel/tkernel/src/ready_queue.h:147-177 | Deleting a task other than the head does not change the head, even when the top priority is searched anew |
| TaskSync.ResumptionsUndo | tkernel_source/kernel/tkernel/src/task_sync.c:30-117 | Suspensions nest: n of them followed by n resumptions restore the task, whatever its state |
| TaskSync.StillSuspended | tkernel_source/kernel/tkernel/src/task_sync.c:77-117 | Fewer resumptions leave it suspended |
| TaskSync.ReleaseCommutes | tkernel_source/kernel/tkernel/src/wait.c:29-46 | Suspension and the end of a wait commute |
| TaskSync.Tasks.constructor | tkernel_source/kernel/tkernel/src/task.c:54-101 | No task exists |
| TaskSync.Tasks.Enter | tkernel_source/kernel/tkernel/src/wait.c:29-36 | A task is in the ready queue exactly while its state is ready |
| TaskSync.Tasks.SetState | tkernel_source/kernel/tkernel/src/task_manage.c:244-266 | A task that is created, started or ended has no suspension, wakeup or event left |
| TaskSync.Tasks.SusTsk | tkernel_source/kernel/tkernel/src/task_sync.c:30-72 | Suspend: exact errors, and the count is positive exactly while the task is suspended |
| TaskSync.Tasks.RsmTsk | tkernel_source/kernel/tkernel/src/task_sync.c:77-160 | Resume one level or all: exact errors and states |
| TaskSync.Tasks.SlpTsk | tkernel_source/kernel/tkernel/src/task_sync.c:177-208 | Sleep: a counted wakeup is used up instead of waiting |
| TaskSync.Tasks.WupTsk | tkernel_source/kernel/tkernel/src/task_sync.c:213-240 | Wakeup: it ends a sleep or is counted, never both and never lost |
| TaskSync.Tasks.CanWup | tkernel_source/kernel/tkernel/src/task_sync.c:245-270 | Counted wakeups are returned and forgotten |
| TaskSync.Tasks.WaiTev | tkernel_source/kernel/tkernel/src/task_sync.c:285-322 | Task event wait: served at once exactly when an awaited event is pending |
| TaskSync.Tasks.SigTev | tkernel_source/kernel/tkernel/src/task_sync.c:327-357 | Task event signal: it ends the wait for it or stays pending |
| TaskSync.Tasks.WaitRelease | tkernel_source/kernel/tkernel/src/wait.c:41-46 | The end of a wait: ready, or still suspended |
| TaskSync.Tasks.MakeWait | tkernel_source/kernel/tkernel/src/wait.c:91-104 | The beginning of a wait, also by a task that has been suspended meanwhile |
| MemMove.MemMove | tkernel_source/lib/libstr/src/string.c:171-227 | For every overlap and alignment the memory afterwards is that of a simultaneous copy; the call stays inside its memory if and only if there is something to copy or both pointers are aligned |
| MemMove.MemCpy | tkernel_source/lib/libstr/src/string.c:128-166 | The same, under the same condition, for regions that do not overlap |
| MemMove.CopyUp | tkernel_source/lib/libstr/src/string.c:179-200 | Leading bytes, words and trailing bytes upwards copy everything, exactly when there is something to copy or both pointers are aligned |
| MemMove.CopyDown | tkernel_source/lib/libstr/src/string.c:201-225 | Trailing bytes, words and leading bytes downwards, under the same condition |
| MemMove.DoBytesUp | tkernel_source/lib/libstr/src/string.c:187-189 | The do loop in front of the words tests its count behind its body: it copies its bytes if the count is positive, and with a count of zero it runs out of the memory |
| MemMove.DoBytesDown | tkernel_source/lib/libstr/src/string.c:211-213 | The same for the downward do loop |
| MemMove.CopyOfNothing | tkernel_source/lib/libstr/src/string.c:171-227 | A call that leaves its memory: zero bytes from address 1 to address 0 |
| MemMove.BytesUp | tkernel_source/lib/libstr/src/string.c:198-200 | The upward byte loop extends the copied prefix by its bytes |
| MemMove.WordsUp | tkernel_source/lib/libstr/src/string.c:191-197 | The upward word loop extends the copied prefix by its words |
| MemMove.BytesDown | tkernel_source/lib/libstr/src/string.c:222-224 | The downward byte loop extends the copied suffix by its bytes |
| MemMove.WordsDown | tkernel_source/lib/libstr/src/string.c:215-221 | The downward word loop extends the copied suffix by its words |
| MemMove.WordUp | tkernel_source/lib/libstr/src/string.c:194-196 | One word upwards equals four bytes upwards |
| MemMove.WordDown | tkernel_source/lib/libstr/src/string.c:218-220 | One word downwards equals four bytes downwards |
| Timer.CycNextTimeLeast | tkernel_source/kernel/tkernel/src/time_calls.c:258-276 | The next startup time is the least base + k * interval, k >= 1, after the current time |
| Timer.DueEnqueued | tkernel_source/kernel/tkernel/src/timer.c:99-109 | An event started for the future is not due |
| Timer.DidOk | tkernel_source/kernel/tkernel/src/time_calls.c:457-532 | Whatever a timer call does, between interrupts or from a handler, the queue stays in order and in agreement with the cyclic handlers, new events lie in the future, only the events it names go, and only creation or a restart without TA_PHS begins a new phase |
| Timer.StopOk | tkernel_source/kernel/tkernel/src/time_calls.c:510-532 | Stopping and deleting a cyclic handler keeps queue and handlers in agreement |
| Timer.CreatedOk | tkernel_source/kernel/tkernel/src/time_calls.c:344-421 | Creating a cyclic handler keeps queue and handlers in agreement, and its first activation lies in the future |
| Timer.PoppedOk | tkernel_source/kernel/tkernel/src/time_calls.c:258-300 | Firing an event queues a cyclic one again at its next time, in its phase, and leaves fewer due events |
| Timer.RoundOk | tkernel_source/kernel/tkernel/src/timer.c:201-211 | A whole callback, stops and restarts of cyclic handlers included, leaves fewer due events, so the loop of the handler ends |
| Timer.RoundPhase | tkernel_source/kernel/tkernel/src/time_calls.c:291-300 | Through a callback that does not restart it, a cyclic handler keeps its phase |
| Timer.FiredOk | tkernel_source/kernel/tkernel/src/timer.c:200-211 | When the loop ends no queued event is due |
| Timer.FiredOrKept | tkernel_source/kernel/tkernel/src/timer.c:200-211 | In one interrupt an event that no callback stops fires exactly if it is due, and otherwise stays queued |
| Timer.FiredWereDue | tkernel_source/kernel/tkernel/src/timer.c:200-211 | Nothing fires in an interrupt that is not due |
| Timer.FiredPhase | tkernel_source/kernel/tkernel/src/time_calls.c:258-300 | Over a whole interrupt a cyclic handler that nobody resets moves to the first time after now in its phase, and is stopped or started only if some callback does so |
| Timer.PhaseOverRun | tkernel_source/kernel/tkernel/src/time_calls.c:258-300 | Over any run of interrupts, timeouts, creations, stops, starts and deletions, by tasks and by handlers, a handler with TA_PHS, or one that nobody restarts, that is not created anew keeps time - base a multiple of its interval, and no event is ever overdue |
| Timer.TimeoutFires | tkernel_source/kernel/tkernel/src/timer.c:125-139 | From timer_insert to the callback: in any run that lasts long enough, whatever else tasks and handlers do, a timeout that is not stopped fires at an interrupt not before its delay has passed and less than one period after it |
| Timer.EventOverRun | tkernel_source/kernel/tkernel/src/timer.c:175-216 | Over any run an event that nobody stops stays queued until its time and then fires, in the first interrupt that reaches its time |
| Timer.StepFiresOrKeeps | tkernel_source/kernel/tkernel/src/timer.c:175-216 | Over one interrupt or call, an event that nobody stops fires or stays queued |
| Timer.Timers.constructor | tkernel_source/kernel/tkernel/src/timer.c:54-75 | No event, no cyclic handler in use |
| Timer.Timers.EnqueueTmeb | tkernel_source/kernel/tkernel/src/timer.c:99-109 | The event goes behind all that are not later |
| Timer.Timers.TimerInsert | tkernel_source/kernel/tkernel/src/timer.c:125-139 | A timeout is queued for exactly the time of the call plus the delay, all other events stay, and an infinite timeout queues nothing |
| Timer.Timers.TimerDelete | tkernel_source/kernel/tkernel/src/timer.h:115-118 | Exactly the event of that number leaves the queue |
| Timer.Timers.CallUserHandler | tkernel_source/kernel/tkernel/src/time_calls.c:291-315 | A handler runs: the effect is that of its calls one after the other, creation, deletion, stop and start of any cyclic handler included |
| Timer.Timers.CallBack | tkernel_source/kernel/tkernel/src/time_calls.c:291-300 | One round of the handler loop: a cyclic event is queued for its next time before the user handler runs |
| Timer.Timers.TimerHandler | tkernel_source/kernel/tkernel/src/timer.c:175-216 | Events fire in order, none early and none later than one period; every due event fires unless a handler stops, restarts or deletes it; the loop terminates; cyclic handlers that no callback resets keep their phase |
| Timer.Timers.CreCyc | tkernel_source/kernel/tkernel/src/time_calls.c:344-421 | Creation: first activation after the phase, or at once, with whatever the handler does, and then one interval later |
| Timer.Timers.StaCyc | tkernel_source/kernel/tkernel/src/time_calls.c:457-505 | Start: E_NOEXS exactly for an unused number; with TA_PHS the phase is kept over stop and start, without it the interval begins now; the other events stay |
| Timer.Timers.StpCyc | tkernel_source/kernel/tkernel/src/time_calls.c:510-532 | Stop: E_NOEXS exactly for an unused number; otherwise the handler's event, and no other, leaves the queue |
| Timer.Timers.DelCyc | tkernel_source/kernel/tkernel/src/time_calls.c:426-451 | Deletion: E_NOEXS exactly for an unused number; the handler's event, and no other, leaves the queue, and its number is free again |
| Timer.Timers.MakeCyc | tkernel_source/kernel/tkernel/src/time_calls.c:344-421 | Creation under a free number: the time of the first activation, counted with TA_STA and no phase from the call made at once; the other handlers and events stay |
| Rendezvous.Ports.constructor | tkernel_source/kernel/tkernel/src/rendezvous.c:57-83 | No rendezvous, every task's first number names it |
| Rendezvous.Numbers | tkernel_source/kernel/tkernel/src/rendezvous.c:91-107 | The next number of a task is new and its current number is not void; no more bytes than the first port allowed have been copied to it |
| Rendezvous.Ports.CalPor | tkernel_source/kernel/tkernel/src/rendezvous.c:229-317 | Call: the first acceptor whose pattern intersects takes it under a new number; otherwise the caller queues; the exact new state for every outcome, disabled waits included |
| Rendezvous.Ports.AcpPor | tkernel_source/kernel/tkernel/src/rendezvous.c:327-416 | Accept: the first caller whose pattern intersects is taken with its message under a new number; otherwise the acceptor queues; exact new state for every outcome |
| Rendezvous.Ports.RplRdv | tkernel_source/kernel/tkernel/src/rendezvous.c:544-580 | Reply succeeds only for a current number, at most once, and copies no more than the port called first allows |
| Rendezvous.Ports.FwdPor | tkernel_source/kernel/tkernel/src/rendezvous.c:421-539 | Forward: exactly which refusal answers E_OBJ and which E_PAR; the old number is void; the caller gets a new number or is queued at the other port; along any chain of forwards no more is copied than the port called first allows |
| Rendezvous.Ports.RelCaller | tkernel_source/kernel/tkernel/src/wait.c:60-76 | A caller that gives up leaves its queue |
| Rendezvous.Ports.RelAcceptor | tkernel_source/kernel/tkernel/src/wait.c:60-76 | An acceptor that gives up leaves its queue |
| Rendezvous.Ports.RelEnd | tkernel_source/kernel/tkernel/src/wait.c:60-76 | A caller released during its rendezvous: its number is void |
| Rendezvous.Ports.ChgPri | tkernel_source/kernel/tkernel/src/rendezvous.c:122-128 | A caller's new priority moves it in the queue |
| Rendezvous.CallMoved | tkernel_source/kernel/tkernel/src/rendezvous.c:122-128 | A caller that moves in the queue keeps the port invariants |
| Rendezvous.CallMet | tkernel_source/kernel/tkernel/src/rendezvous.c:258-300 | A call that meets an acceptor keeps the port invariants: no queued caller and acceptor ever intersect |
| Rendezvous.CallerMet | tkernel_source/kernel/tkernel/src/rendezvous.c:349-390 | The same for an accept that meets a caller |
| Rendezvous.CallQueued | tkernel_source/kernel/tkernel/src/rendezvous.c:302-312 | A caller that nobody meets may be queued |
| Rendezvous.AcceptQueued | tkernel_source/kernel/tkernel/src/rendezvous.c:398-410 | An acceptor that nobody meets may be queued |
| Rendezvous.RendezvousEnds | tkernel_source/kernel/tkernel/src/rendezvous.c:566-575 | The end of a rendezvous makes its number void for ever |

## Left out

- MutexKernel.Kernel.TerTsk: requires that the ending task is on no cycle of the waits-for relation; on one, the release hook would come round to the half-removed task.
- MutexKernel.Kernel.DelMtx: requires that the holder is on no cycle of the waits-for relation, for the same reason.
- MutexTheorem.InheritedPriorityIsGlobalMinimum: requires that no deadlock cycle is blocked on the task; MutexDeadlock.UpAndBack leads from every deadlock in which nobody asks for priority 0 to a state where it fails.
- MutexKernel.Kernel.ChangeTaskPriority: the branch for a ready task and the hooks of objects other than mutexes are modelled in Scheduler and in the modules of those objects.
- MutexKernel.Kernel.CreMtx: control blocks are taken from the table by number; the free queue of control blocks and attribute checks are not modelled.
- MemAlloc.Heap.Malloc: sizes near 2^32, where rounding and page counts of the original would wrap around, are not modelled: sizes are unbounded.
- MemAlloc.Heap.NewPage: what the page allocator answers is a parameter, required to be memory that is not in use.
- MemAlloc.Heap.MemFree: without test mode the pointer must be NULL or a live block, as the original assumes.
- MemAlloc.Heap.ChkAlloc: the dump to the system log is omitted.
- MemAlloc.Heap.ImallocPage: the time between the two critical sections of `imalloc` is the time between two calls.
- MemPool.Pool.RelBlk: the pointer must be the address behind an area header of the pool, because the original cannot tell whether it is.
- MessageRing.DecodeEncode: the byte order of the header is little-endian.
- FastMLock.NoLostWakeup: no task is terminated inside the lock, and the waiter counter does not overflow.
- FastLock.MutualExclusion: runs contain no forced release; SafeIffNeverForced says what one does. Deletion of the lock is not modelled.
- BitSearch.BitSearch1: the big-endian branch is omitted; a word is the set of its bits.
- MemMove.MemMove: a word has four bytes; when a call leaves its memory, what it has overwritten by then is not stated.
- Timer.Timers.TimerHandler: the number that creation takes from the free ones is a parameter; time is unbounded.
- Timer.Timers.TimerInsert: an immediate timeout does not occur, because its callers answer polling themselves; the 64-bit end of time is not modelled.
- Rendezvous.Ports.GenRdvno: numbers are unbounded; the original's wrap after 2^16 rendezvous of one task.
- Rendezvous.Ports.RplRdv: buffers are represented by the number of bytes copied into them, not by their addresses.
- MutexKernel.Kernel.SetTaskState: creation and start only as far as mutexes see them; task contexts and stacks are not modelled.
- Scheduler.Sched.Reschedule: no task holds or waits for the kernel lock, so `klocktsk` and `klockwait` do not occur; dispatch requests are no-ops.
- Scheduler.Sched.ChangeReadyPriority: only ready tasks; see MutexKernel for waiting ones.
- TaskSync.Tasks.SetState: creation, start and end of a task only as far as its suspension and wakeup counts go.
- A task's list of mutexes and all wait queues outside the heap are sequences instead of links, so sharing and dangling of those links is not captured.
- `mtxtsk` of an unregistered mutex may be stale in the original and is not read there; here it is kept and not read either.
- Deletion of message buffers, pools, event flags, semaphores and ports, alarm handlers, fixed-size pools and mailboxes would only add simpler members.
- Object names, extended information, debugger views, ID and attribute checks, the device manager, the boot sequence and everything in assembly language are not part of this model.
