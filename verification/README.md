# FX-RTOS Lite: verified model of the kernel's core

A Dafny model of the uniprocessor kernel of FX-RTOS Lite, with proofs of the properties its parts rest on. Kernel
operations run with interrupts disabled, so each locked section is one atomic step; runs are sequences of such steps
in any order.

| part | files |
|---|---|
| TLSF memory pool | `Bits`, `SizeClass`, `PoolHeap`, `PoolOps`, `PoolMemory`, `PoolLinks`, `PoolIndex`, `PoolState`, `MemPool`, `PoolRuns` |
| intrusive circular queue | `RtlQueue` |
| scheduler and its container | `SchedContainer`, `Scheduler` |
| waiting framework and wait protocol | `Sync`, `WaitProtocol` |
| message queue, mutex, read/write lock, event flags, block pool | `MsgQueue`, `Mutex`, `RwLock`, `EvFlags`, `BlockPool` |
| timers with wrapping ticks | `Timer` |
| nested event service routines | `Esr` |
| shared | `Options`, `Seqs` |

Each part has two sides. Functions on values say what an operation does, and the lemmas are about them: invariants
kept by every operation, then by every run. A class holds the fields the C code updates, and its methods do what the C
functions do, loops included; each method's `ensures` equates the new state with the function of the old state.

How the pool is layered: `PoolHeap` is the abstract value (blocks that tile regions, and segregated lists);
`PoolMemory` and `PoolLinks` say how headers and list links lie in memory words, with `prev_phys_block` in the last
word of the previous block's payload; `PoolIndex` is the two-level bitmap; `PoolState` ties all of them together; the
class in `MemPool` works on words and bitmaps only.

What the model takes as given:

- Objects start zero-filled.
- `hw_cpu_clz` and `hw_cpu_ctz` have their mathematical meaning.
- The pool has the 32-bit layout with 16 second-level lists per row; the chunk limit is any power of two from 2^7 to
  2^31. The number of priority levels is any number from 8 to 1024.
- Timer comparisons wrap around in two's complement, as the C code assumes of signed subtraction.
- The change counter of the scheduler does not wrap around.
- Waiters' priorities at the moment of a selection are a parameter of the operation.
- Whether an object is available at the start of a wait is a parameter of the wait protocol, which therefore covers
  every kind of object.

Where the code and its comments disagree, or the code has a limit its comments do not name:

- `rtl_mem_pool_add_mem` accepts a region of exactly `BLK_SIZE_MAX` bytes, which is mapped one row past the tables;
  the model excludes that size (`SizeClass.InTableIff`).
- `mapping_search` of a request close to the limit leads one row past the tables; `SizeClass.SearchRowInTable` says
  exactly when.
- `align_up` wraps around for the last three sizes; `SizeClass.AdjustCovers` says exactly when.
- `rtl_queue_copy` says that the destination must be empty; it is right for any destination.
- `fx_rwlock_kick_readers` is meant for a lock without an owner but does not test the owner; `RwLock.KickExact` and
  `RwLock.KickBreaks`.
- `fx_rwlock_unlock_with_policy` counts a reader out whoever calls it; `RwLock.UnlockInv` says when that is right,
  `RwLock.UnlockBreaks` is a run that goes wrong.
- The comment on skipping a reschedule relies on raises being made with nothing pending; `Scheduler.ShortcutExact` and
  `Scheduler.PendingRaiseBreaks`.
- Mutex ceilings released out of order can leave a wrong priority, at once or at a later release that is in order;
  `Mutex.OutOfOrderExact` says which releases do no harm, `Mutex.OutOfOrderBreaks` is a run that goes wrong.
- `fx_timer_internal_set_rel` reads the counter and arms in two locked sections; if the delay has passed in between, the
  timer fires in the first tick after arming (`Timer.OneShotOnTime`).
- `fx_block_pool_init` divides by the block size before it checks it; `BlockPool.InitExact`.

## Model

| member | source | states |
|---|---|---|
| `Bits.LowestBitIsolated` | components/rtl/mem_pool/rtl_mem_pool.c:74-80 | a word and its two's complement have exactly the lowest set bit in common |
| `PoolIndex.TlsfFfsIsCtz` | components/rtl/mem_pool/rtl_mem_pool.c:74-80 | `tlsf_ffs` gives the position of the lowest set bit of any non-zero word |
| `Bits.FlsHighestBit` | components/rtl/mem_pool/rtl_mem_pool.c:82-87 | `tlsf_fls` gives the position of the highest set bit, and -1 for zero |
| `SizeClass.AdjustCovers` | components/rtl/mem_pool/rtl_mem_pool.c:211-252 | an adjusted request is aligned, in range and covers the bytes asked for exactly when the alignment does not wrap around |
| `SizeClass.AdjustExact` | components/rtl/mem_pool/rtl_mem_pool.c:235-252 | a request is refused exactly when it is zero or rounds up to the chunk limit or beyond; any other is rounded up to a multiple of 4, by less than 4 unless to the minimum |
| `SizeClass.MappingRange` | components/rtl/mem_pool/rtl_mem_pool.c:259-282 | a size is mapped to a list whose range of sizes contains it |
| `SizeClass.MappingUnique` | components/rtl/mem_pool/rtl_mem_pool.c:259-282 | no other list has a range that contains the size |
| `SizeClass.InTableIff` | components/rtl/mem_pool/rtl_mem_pool.c:259-282 | a block size is mapped inside the tables exactly when it is below the chunk limit |
| `SizeClass.MappingMonotone` | components/rtl/mem_pool/rtl_mem_pool.c:259-282 | a larger size is never mapped to an earlier list |
| `SizeClass.RankOrder` | components/rtl/mem_pool/rtl_mem_pool.c:259-282 | every size of a later list is beyond the whole range of an earlier one, across rows |
| `SizeClass.GoodFit` | components/rtl/mem_pool/rtl_mem_pool.c:284-294 | whatever list at or after the searched one a block is in, it covers the request; the rounding may carry into the next power of two |
| `SizeClass.SearchAtMinSize` | components/rtl/mem_pool/rtl_mem_pool.c:284-294 | a request on the lower bound of a list is searched from that very list |
| `SizeClass.SearchExact` | components/rtl/mem_pool/rtl_mem_pool.c:284-294 | the searched lists are exactly those whose every size covers the request |
| `SizeClass.AmpleIsSearched` | components/rtl/mem_pool/rtl_mem_pool.c:284-294 | a block that is larger by a sixteenth lies in a searched list |
| `SizeClass.SearchRowInTable` | components/rtl/mem_pool/rtl_mem_pool.c:284-307 | the search of an adjusted request stays in the tables exactly when the request leaves room for the rounding |
| `PoolIndex.SearchFinds` | components/rtl/mem_pool/rtl_mem_pool.c:296-334 | the two-level bitmap search finds the first non-empty list at or after the starting one, or nothing when there is none |
| `PoolOps.LocateFits` | components/rtl/mem_pool/rtl_mem_pool.c:503-527 | good fit, first half: the located block is free and at least as large as the request |
| `PoolOps.LocateFailsIff` | components/rtl/mem_pool/rtl_mem_pool.c:296-334 | good fit, second half: nothing is found exactly when no free block lies in the rounded-up class or above |
| `PoolOps.LocateExact` | components/rtl/mem_pool/rtl_mem_pool.c:503-527 | in bytes: a request is served exactly when some free block lies in a list whose every size covers it |
| `PoolOps.AllocInBytes` | components/rtl/mem_pool/rtl_mem_pool.c:621-628 | which requests are refused, that one in range is served whenever some free block is ample for it, and that the block holds it |
| `MemPool.Pool.SearchSuitableBlock` | components/rtl/mem_pool/rtl_mem_pool.c:296-334 | the bitmap loop on the words computes that search |
| `PoolIndex.InsertAgrees` | components/rtl/mem_pool/rtl_mem_pool.c:368-389 | linking a block keeps list heads, second-level bits and first-level bits in agreement with the lists |
| `PoolIndex.RemoveAgrees` | components/rtl/mem_pool/rtl_mem_pool.c:339-366 | unlinking any member of a list keeps them in agreement, also when the list or the row becomes empty |
| `PoolLinks.InsertLinksOk` | components/rtl/mem_pool/rtl_mem_pool.c:368-389 | linking a block leaves all other lists' links as they are and makes the block the first of its own, whatever the scribbled-on `block_null` holds |
| `PoolLinks.RemoveLinksOk` | components/rtl/mem_pool/rtl_mem_pool.c:339-366 | unlinking a block closes its list around it and touches no other list |
| `MemPool.Pool.InsertFreeBlock` | components/rtl/mem_pool/rtl_mem_pool.c:368-389 | the exact words and bitmap bits that linking writes |
| `MemPool.Pool.RemoveFreeBlock` | components/rtl/mem_pool/rtl_mem_pool.c:339-366 | the exact words and bitmap bits that unlinking writes |
| `MemPool.Pool.BlockRemove` | components/rtl/mem_pool/rtl_mem_pool.c:391-397 | takes a free block off the list of its size, keeping memory, bitmaps and lists consistent |
| `MemPool.Pool.BlockInsert` | components/rtl/mem_pool/rtl_mem_pool.c:399-405 | puts a free block on the list of its size, keeping memory, bitmaps and lists consistent |
| `PoolHeap.AbsorbStep` | components/rtl/mem_pool/rtl_mem_pool.c:438-447 | joining two neighbours keeps tiling, physical links and lists |
| `PoolHeap.SplitStep` | components/rtl/mem_pool/rtl_mem_pool.c:413-436 | cutting a block keeps tiling, physical links and lists |
| `PoolMemory.AbsorbWords` | components/rtl/mem_pool/rtl_mem_pool.c:438-447 | the header words after joining two blocks are those of the joined block, `prev_phys_block` of the successor included |
| `PoolMemory.SplitWords` | components/rtl/mem_pool/rtl_mem_pool.c:413-436 | the header words after a cut are those of the two pieces |
| `PoolMemory.MarkFreeWords` | components/rtl/mem_pool/rtl_mem_pool.c:192-201 | marking a block free writes its flag, the successor's prev-free flag and the overlapping `prev_phys_block` |
| `MemPool.Pool.BlockMergePrev` | components/rtl/mem_pool/rtl_mem_pool.c:452-465 | a freed block is joined with a free predecessor, which leaves its list |
| `MemPool.Pool.BlockMergeNext` | components/rtl/mem_pool/rtl_mem_pool.c:470-484 | a freed block is joined with a free successor, which leaves its list |
| `MemPool.Pool.BlockTrimFree` | components/rtl/mem_pool/rtl_mem_pool.c:489-501 | what the request does not need is cut off and listed |
| `MemPool.Pool.constructor` | components/rtl/mem_pool/rtl_mem_pool.c:548-565 | an initialised pool is consistent and holds nothing |
| `MemPool.Pool.AddMem` | components/rtl/mem_pool/rtl_mem_pool.c:576-610 | accepts exactly the sizes in range, adds all the bytes but two headers as one free block with its sentinel inside the memory given, and keeps memory, bitmaps, lists and tiling consistent; for a refused size nothing is asked of the memory |
| `PoolOps.RegionExact` | components/rtl/mem_pool/rtl_mem_pool.c:580-587 | which sizes are accepted, and that the payload is what is given less two headers, rounded down to a multiple of 4 |
| `MemPool.Pool.Alloc` | components/rtl/mem_pool/rtl_mem_pool.c:621-628 | performs the allocation of the abstract heap on memory and bitmaps, writes nothing into live payloads, changes nothing when it fails, refuses exactly what is out of range, and serves a request in range whenever some free block is ample |
| `MemPool.Pool.Free` | components/rtl/mem_pool/rtl_mem_pool.c:636-645 | performs the release of the abstract heap on memory and bitmaps, writes nothing into live payloads |
| `MemPool.Pool.Store` | components/rtl/mem_pool/rtl_mem_pool.h:85-100 | the owner of a block may write all of its payload, the word that overlaps `prev_phys_block` included, without harm to the pool |
| `MemPool.Pool.GetMaxBlk` | components/rtl/mem_pool/rtl_mem_pool.c:661-676 | returns the lower bound of the last non-empty list, 0 when all are empty |
| `PoolOps.LastHoldsBlock` | components/rtl/mem_pool/rtl_mem_pool.c:661-676 | the bound is that of a free block and is itself an adjusted request |
| `PoolOps.LastIsLargest` | components/rtl/mem_pool/rtl_mem_pool.c:661-676 | no free block is as large as the bound plus the width of its list |
| `PoolOps.LastIsServed` | components/rtl/mem_pool/rtl_mem_pool.c:661-676 | an allocation of exactly the bound is served at once, from the last list |
| `PoolOps.TakeInv` | components/rtl/mem_pool/rtl_mem_pool.c:529-542 | an allocation keeps the whole invariant: tiling, prev-free links, no adjacent free blocks, lists complete |
| `PoolOps.TakeLive` | components/rtl/mem_pool/rtl_mem_pool.c:529-542 | the block handed out is live, covers the request with less than one header to spare, and no other live block changes |
| `PoolOps.ReleaseInv` | components/rtl/mem_pool/rtl_mem_pool.c:636-645 | a release keeps the whole invariant, with no two adjacent free blocks left |
| `PoolOps.ReleaseLive` | components/rtl/mem_pool/rtl_mem_pool.c:636-645 | a release ends the life of that block only |
| `PoolOps.AddStep` | components/rtl/mem_pool/rtl_mem_pool.c:576-610 | a new region is one free block with a used zero-size sentinel behind it |
| `PoolRuns.OwnersApart` | components/rtl/mem_pool/rtl_mem_pool.c:621-628 | no byte belongs to two live allocations, and every such byte lies in a region |
| `PoolRuns.RoundTrip` | components/rtl/mem_pool/rtl_mem_pool.c:621-645 | allocating and freeing at once restores the physical sequence of blocks |
| `PoolRuns.Conserved` | components/rtl/mem_pool/rtl_mem_pool.c:413-447 | live bytes, free bytes and headers of a region add up to the bytes that were added |
| `PoolRuns.Drained` | components/rtl/mem_pool/rtl_mem_pool.c:449-484 | a region without live blocks is one free block of its original size |
| `PoolRuns.RunKeepsInv` | components/rtl/mem_pool/rtl_mem_pool.c:576-645 | every run of add, alloc and free keeps the invariant and what callers hold |
| `PoolRuns.RunsAreSafe` | components/rtl/mem_pool/rtl_mem_pool.c:576-645 | after any run held blocks are aligned, large enough, disjoint and, headers included, inside the memory that was added, and every region adds up |
| `PoolRuns.DrainRestores` | components/rtl/mem_pool/rtl_mem_pool.c:576-645 | once everything is freed, in any order, each region is again one free block of the size it had before the run |
| `PoolRuns.RegionsStay` | components/rtl/mem_pool/rtl_mem_pool.c:576-645 | no run moves, shrinks or drops a region |
| `PoolRuns.AddedIsRestored` | components/rtl/mem_pool/rtl_mem_pool.c:576-645 | all the bytes that were added, less two headers and rounded down, are one free block again whenever nothing is held |
| `RtlQueue.Enqueue` | components/rtl/queue/rtl_queue.c:37-44 | appends an item to the circular queue |
| `RtlQueue.Dequeue` | components/rtl/queue/rtl_queue.c:49-63 | takes the first item, or nothing from an empty queue, and leaves it unlinked |
| `RtlQueue.Insert` | components/rtl/queue/rtl_queue.c:68-75 | links an item behind a given one; `rtl_list_insert` is the same code |
| `RtlQueue.Remove` | components/rtl/queue/rtl_queue.c:80-86 | takes an item out from any place and leaves it unlinked |
| `RtlQueue.Copy` | components/rtl/queue/rtl_queue.c:91-98 | moves all items of one queue to the end of another, which need not be empty; `rtl_list_insert_range` is the same code |
| `RtlQueue.SplicedIn` | components/rtl/list/rtl_list.h:53-60 | a ring with one more item linked in is a ring in both directions |
| `RtlQueue.CutOut` | components/rtl/list/rtl_list.h:62-69 | a ring with one item unlinked is a ring in both directions |
| `SchedContainer.AddAgrees` | components/nanokernel/sched/sched_alg/mpq/fx_sched_alg.c:93-99 | adding keeps both bitmap levels and the queues in agreement with the plain sequence of ready items |
| `SchedContainer.RemoveAgrees` | components/nanokernel/sched/sched_alg/mpq/fx_sched_alg.c:106-122 | removing keeps them in agreement, also when a queue or a word becomes empty |
| `SchedContainer.LevelDrop` | components/nanokernel/sched/sched_alg/mpq/fx_sched_alg.c:106-122 | taking an item out of the sequence takes it out of its own level only |
| `SchedContainer.GetIsBest` | components/nanokernel/sched/sched_alg/mpq/fx_sched_alg.c:133-147 | the two trailing-zero counts lead to the earliest-added item of minimal priority number |
| `SchedContainer.LowestLevelIsBest` | components/nanokernel/sched/sched_alg/mpq/fx_sched_alg.c:133-147 | the head of the lowest non-empty level is that item |
| `SchedContainer.Container.constructor` | components/nanokernel/sched/sched_alg/mpq/fx_sched_alg.c:71-79 | an empty container stands for the empty sequence |
| `SchedContainer.Container.Add` | components/nanokernel/sched/sched_alg/mpq/fx_sched_alg.c:93-99 | appends the item to the sequence |
| `SchedContainer.Container.Remove` | components/nanokernel/sched/sched_alg/mpq/fx_sched_alg.c:106-122 | takes the item out of the sequence |
| `SchedContainer.Container.Get` | components/nanokernel/sched/sched_alg/mpq/fx_sched_alg.c:133-147 | returns the earliest-added item of minimal priority number |
| `Scheduler.ResumeInv` | components/nanokernel/sched/up/fx_sched.c:267-298 | a resume keeps: pending, or the active item ready and of highest priority |
| `Scheduler.SuspendInv` | components/nanokernel/sched/up/fx_sched.c:238-259 | a suspend keeps it |
| `Scheduler.RemoveInv` | components/nanokernel/sched/up/fx_sched.c:135-153 | a removal keeps it |
| `Scheduler.YieldInv` | components/nanokernel/sched/up/fx_sched.c:325-346 | a yield keeps it |
| `Scheduler.SetParamsInv` | components/nanokernel/sched/up/fx_sched.c:161-217 | a change of priority keeps it, the skipped reschedule included, just when the item is not raising itself, is not ready, or is on top |
| `Scheduler.GetNextInv` | components/nanokernel/sched/up/fx_sched.c:305-320 | after a dispatch nothing is pending and the active item is on top |
| `Scheduler.InitializedIs` | components/nanokernel/sched/up/fx_sched.c:103-126 | a new item is suspended, and one resume puts it into the queue of its priority |
| `Scheduler.ResumedIs` | components/nanokernel/sched/up/fx_sched.c:267-298 | the last of as many resumes as suspends puts the item at the end of its queue, and reschedules if it is not of lower priority than the active one |
| `Scheduler.SuspendedIs` | components/nanokernel/sched/up/fx_sched.c:238-259 | the first suspend takes the item out of its queue and reschedules, further ones count |
| `Scheduler.NestedSuspends` | components/nanokernel/sched/up/fx_sched.c:238-298 | after n suspends an item is ready with the n-th resume and not before |
| `Scheduler.RemovedIs` | components/nanokernel/sched/up/fx_sched.c:135-153 | a removed item is in no queue |
| `Scheduler.YieldedIs` | components/nanokernel/sched/up/fx_sched.c:325-346 | a yield puts the item behind all others of its priority and changes no other queue |
| `Scheduler.YieldRotates` | components/nanokernel/sched/up/fx_sched.c:305-346 | after a yield of the item on top the next one of its priority is dispatched, if there is one |
| `Scheduler.RoundRobin` | components/nanokernel/sched/up/fx_sched.c:305-346 | the items of one priority that yield in turn each run once, in order, and then start over |
| `Scheduler.ParamsSetIs` | components/nanokernel/sched/up/fx_sched.c:161-217 | the priority is set, also of a suspended item, and a ready one goes to the end of its new queue |
| `Scheduler.NoPendingIsOnTop` | components/nanokernel/sched/up/fx_sched.c:161-217 | with no reschedule pending that condition on raises holds |
| `Scheduler.RunsKeepTop` | components/nanokernel/sched/up/fx_sched.c:135-346 | in every state of every run a reschedule is pending or the active item is ready and of highest priority |
| `Scheduler.ShortcutExact` | components/nanokernel/sched/up/fx_sched.c:182-197 | after any self-raise and a dispatch, whatever was dispatched sets itself to the priority before the raise without rescheduling, and that is right just when the raising item was on top before |
| `Scheduler.PendingRaiseBreaks` | components/nanokernel/sched/up/fx_sched.c:182-197 | a reachable state from which one raise leaves the raising item running below another, and a smaller raise the item dispatched instead |
| `Scheduler.BestIsBest` | components/nanokernel/sched/up/fx_sched.c:305-320 | the item to run next is the earliest-added one of minimal priority number |
| `Scheduler.Sched.constructor` | components/nanokernel/sched/up/fx_sched.c:103-127 | the idle item is current before it is resumed |
| `Scheduler.Sched.Init` | components/nanokernel/sched/up/fx_sched.c:103-127 | a new item starts suspended |
| `Scheduler.Sched.Resume` | components/nanokernel/sched/up/fx_sched.c:267-298 | performs the resume on the container and returns the previous counter |
| `Scheduler.Sched.Suspend` | components/nanokernel/sched/up/fx_sched.c:238-259 | performs the suspend on the container and returns the previous counter |
| `Scheduler.Sched.Remove` | components/nanokernel/sched/up/fx_sched.c:135-153 | performs the removal on the container |
| `Scheduler.Sched.Yield` | components/nanokernel/sched/up/fx_sched.c:325-346 | performs the yield on the container |
| `Scheduler.Sched.SetParams` | components/nanokernel/sched/up/fx_sched.c:161-217 | performs the change of priority on the container |
| `Scheduler.Sched.GetNext` | components/nanokernel/sched/up/fx_sched.c:305-320 | performs the dispatch and returns the new item, or none when nothing was pending |
| `Sync.WaitBlockGet` | components/nanokernel/sync_fwk/up/fx_sync.c:76-105 | FIFO selects the longest waiting, PRIO the longest waiting of those of highest priority |
| `Sync.ChosenIsChosen` | components/nanokernel/sync_fwk/up/fx_sync.c:76-105 | the selection function meets that description |
| `Sync.NotifiedOneLinked` | components/nanokernel/sync_fwk/up/fx_sync.c:114-143 | notifying one waiter keeps blocks and queues in agreement |
| `Sync.StartedIs` | components/nanokernel/sync_fwk/up/fx_sync.c:62-67 | a block that starts to wait is the last in its queue |
| `Sync.ChosenIsNext` | components/nanokernel/sync_fwk/up/fx_sync.c:79-110 | FIFO releases the longest waiting, PRIO the longest waiting of those of highest priority |
| `Sync.NotifiedAllLinked` | components/nanokernel/sync_fwk/up/fx_sync.c:144-153 | notifying all empties the queue and keeps blocks and queues in agreement |
| `Sync.NotifiedAllIs` | components/nanokernel/sync_fwk/up/fx_sync.c:144-153 | every queued block gets the reason and no other block changes |
| `Sync.RolledBackIs` | components/nanokernel/sync_fwk/up/fx_sync.c:160-179 | rollback unlinks both blocks of a waiter; exactly those still linked become CANCELLED |
| `Sync.WaitNet.WaitStart` | components/nanokernel/sync_fwk/up/fx_sync.c:62-67 | links a block to an object |
| `Sync.WaitNet.NotifyOne` | components/nanokernel/sync_fwk/up/fx_sync.c:134-143 | takes a block out of its queue and notifies it |
| `Sync.WaitNet.NotifyAll` | components/nanokernel/sync_fwk/up/fx_sync.c:144-153 | the dequeue loop notifies all, in queue order |
| `Sync.WaitNet.Rollback` | components/nanokernel/sync_fwk/up/fx_sync.c:160-179 | the loop over the blocks of a waiter rolls them back |
| `WaitProtocol.NextInv` | components/nanokernel/thread/kthread/fx_thread_wait.c:100-277 | every step of any thread, object or event keeps the protocol's invariant for all threads |
| `WaitProtocol.ReturnedClean` | components/nanokernel/thread/kthread/fx_thread_wait.c:100-211 | a thread that came back is in no queue, and came back with OK just when the object was given to it, which happens at most once |
| `WaitProtocol.SleepsUntilNotified` | components/nanokernel/thread/kthread/fx_thread_wait.c:145-189 | a thread sleeps just while none of its blocks was notified, however notifications interleave |
| `WaitProtocol.EndResult` | components/nanokernel/thread/kthread/fx_thread_wait.c:37-70 | the result: OK if the main block was satisfied, even after the cancel event; else CANCELLED or TIMEOUT if that was; else DELETED |
| `WaitProtocol.NobodySleepsOnASetEvent` | components/nanokernel/thread/kthread/fx_thread_wait.c:136-140 | in no state of any run does a thread wait in the queue of a cancel event that is set, or sleep with it set |
| `WaitProtocol.SetWakesAll` | components/nanokernel/sync_objects/fx_event.c:55-72 | setting an event sets it and wakes everybody who waits for it |
| `WaitProtocol.ResetIs` | components/nanokernel/sync_objects/fx_event.c:80-90 | resetting an event touches nobody who waits |
| `WaitProtocol.BeginResult` | components/nanokernel/thread/kthread/fx_thread_wait.c:124-200 | with the object there or the cancel event set a wait has its result at once, and otherwise it sleeps |
| `WaitProtocol.TimedBeginResult` | components/nanokernel/thread/kthread/fx_thread_wait.c:216-277 | what each kind of timeout leads to; the timer event is reset before a timed wait |
| `WaitProtocol.RunInv` | components/nanokernel/thread/kthread/fx_thread_wait.c:100-277 | all reachable states have the invariant, whatever the attribute word aliased with the status holds |
| `WaitProtocol.Waits.WaitObject` | components/nanokernel/thread/kthread/fx_thread_wait.c:100-157 | performs the wait up to the sleep, the early returns with their rollback included |
| `WaitProtocol.Waits.WaitEnd` | components/nanokernel/thread/kthread/fx_thread_wait.c:187-211 | performs the rest of the wait and returns its result |
| `WaitProtocol.Waits.TimedWaitObject` | components/nanokernel/thread/kthread/fx_thread_wait.c:225-277 | infinite, zero, in-range and out-of-range timeouts |
| `WaitProtocol.Waits.SetInternal` | components/nanokernel/sync_objects/fx_event.c:55-72 | setting an event notifies its waiters only if it was not set |
| `MsgQueue.SentValid` | components/nanokernel/sync_objects/fx_msgq_core.c:73-128 | a send keeps: blocked senders imply a full ring, blocked receivers an empty one |
| `MsgQueue.ReceivedValid` | components/nanokernel/sync_objects/fx_msgq_core.c:142-198 | a receive keeps it |
| `MsgQueue.FlushedValid` | components/nanokernel/sync_objects/fx_msgq_core.c:270-299 | a flush keeps it |
| `MsgQueue.SentIsEnqueue` | components/nanokernel/sync_objects/fx_msgq_core.c:73-128 | with FIFO policy a send appends to the one queue of ring and blocked senders, or hands over when that queue is empty |
| `MsgQueue.ReceivedIsDequeue` | components/nanokernel/sync_objects/fx_msgq_core.c:142-198 | with FIFO policy a receive takes the first message of that queue, refill included |
| `MsgQueue.SentIs` | components/nanokernel/sync_objects/fx_msgq_core.c:73-128 | for any policy: a send is refused only by a full ring; the next receiver gets the message, or it goes to the end of the ring that was asked for |
| `MsgQueue.AdmittedIs` | components/nanokernel/sync_objects/fx_msgq_core.c:177-190 | the next blocked sender by the policy gets the place that is free |
| `MsgQueue.ReceivedIs` | components/nanokernel/sync_objects/fx_msgq_core.c:142-198 | for any policy: a receive takes the first message of the ring, and one blocked sender fills up |
| `MsgQueue.FrontIsNext` | components/nanokernel/sync_objects/fx_msgq_core.c:39-60 | a message sent to the front is the next to be received |
| `MsgQueue.CancelledAre` | components/nanokernel/sync_fwk/up/fx_sync.c:114-179 | who gives up waiting leaves the queue, and nothing else happens |
| `MsgQueue.FlushDropsRing` | components/nanokernel/sync_objects/fx_msgq_core.c:270-299 | a flush drops the ring's messages only; blocked senders' messages survive it in order |
| `MsgQueue.RunsAreFifo` | components/nanokernel/sync_objects/fx_msgq_core.c:73-198 | every message is delivered once, in send order, to the receivers in the order they asked |
| `MsgQueue.RunsKeepOrder` | components/nanokernel/sync_objects/fx_msgq_core.c:73-299 | with cancelled waits and flushes as well, what is delivered or waits is a subsequence of what was offered, and receivers are served in the order they asked |
| `MsgQueue.RunsConserve` | components/nanokernel/sync_objects/fx_msgq_core.c:73-299 | for any policy, insertion end, timeout and flush, no message is duplicated or disappears |
| `MsgQueue.PutBackRing` | components/nanokernel/sync_objects/fx_msgq_core.c:39-60 | writing at the head appends to the ring, and head stays tail plus items modulo the size |
| `MsgQueue.PutFrontRing` | components/nanokernel/sync_objects/fx_msgq_core.c:39-60 | stepping the tail back prepends to the ring, and head stays tail plus items modulo the size |
| `MsgQueue.TakeRing` | components/nanokernel/sync_objects/fx_msgq_core.c:166-169 | stepping the tail forward drops the first message |
| `MsgQueue.MsgQ.constructor` | components/nanokernel/sync_objects/fx_msgq_core.c:210-235 | a new queue is empty |
| `MsgQueue.MsgQ.PutMsg` | components/nanokernel/sync_objects/fx_msgq_core.c:39-60 | puts a message at either end of the ring buffer |
| `MsgQueue.MsgQ.TestAndWaitSend` | components/nanokernel/sync_objects/fx_msgq_core.c:73-128 | performs the send on the ring buffer |
| `MsgQueue.MsgQ.TestAndWaitRecv` | components/nanokernel/sync_objects/fx_msgq_core.c:142-198 | performs the receive on the ring buffer |
| `MsgQueue.MsgQ.CoreFlush` | components/nanokernel/sync_objects/fx_msgq_core.c:270-299 | the flush loop performs the flush on the ring buffer |
| `Mutex.EffectiveIsHighest` | components/nanokernel/sync_objects/fx_mutex.c:121-134 | the effective priority is the highest of the base and the ceilings of what is owned |
| `Mutex.AcquireInv` | components/nanokernel/sync_objects/fx_mutex.c:50-119 | acquiring, recursively or waiting, keeps every thread at its effective priority |
| `Mutex.AcquiredIs` | components/nanokernel/sync_objects/fx_mutex.c:50-119 | a thread gets a mutex that is free or its own, and waits behind the others for any other |
| `Mutex.ReleasedIs` | components/nanokernel/sync_objects/fx_mutex.c:258-380 | a full release makes the next waiter by the policy the owner, or nobody; a partial one counts; a stranger's does nothing |
| `Mutex.CancelledIs` | components/nanokernel/sync_fwk/up/fx_sync.c:114-179 | who gives up waiting leaves the queue, and nothing else happens |
| `Mutex.ReleaseFullyInv` | components/nanokernel/sync_objects/fx_mutex.c:277-370 | a release, with or without hand-off, of a mutex without ceiling, of the last ceiling, or of one that raised nothing, keeps every thread at its effective priority |
| `Mutex.HandOffInSteps` | components/nanokernel/sync_objects/fx_mutex.c:295-363 | a hand-off is: the owner gives up, the waiter leaves the queue, the waiter is given the mutex |
| `Mutex.NextInv` | components/nanokernel/sync_objects/fx_mutex.c:50-380 | every operation keeps owners, waiters, saved priorities and effective priorities |
| `Mutex.PriorityIsEffective` | components/nanokernel/sync_objects/fx_mutex.c:50-380 | in every run of such releases a thread's priority is the highest of base and owned ceilings, its base once it owns nothing, and an unowned mutex has no waiters |
| `Mutex.OutOfOrderExact` | components/nanokernel/sync_objects/fx_mutex.c:277-370 | a release keeps effective and saved priorities right just when no ceiling was taken later, or the released ceiling and all later ones are no higher than the saved priority |
| `Mutex.RightAtOnce` | components/nanokernel/sync_objects/fx_mutex.c:348-363 | the priority right after a release is right just when no ceiling taken later is higher than the saved priority |
| `Mutex.StaleShows` | components/nanokernel/sync_objects/fx_mutex.c:348-363 | a saved priority that is not right shows when its mutex is the last that is released |
| `Mutex.OutOfOrderBreaks` | components/nanokernel/sync_objects/fx_mutex.c:277-370 | a run in which a release out of order leaves the right priority and the next one, in order, a wrong one |
| `Mutex.AcquireReleaseRoundTrip` | components/nanokernel/sync_objects/fx_mutex.c:50-380 | a release undoes the acquire before it, recursion included |
| `Mutex.MutexObj.TestAndWait` | components/nanokernel/sync_objects/fx_mutex.c:50-119 | performs the acquire on the mutex and the priorities |
| `Mutex.MutexObj.ReleaseWithPolicy` | components/nanokernel/sync_objects/fx_mutex.c:258-380 | performs the release on the mutex and the priorities, or refuses a thread that is not the owner |
| `RwLock.UnlockInv` | components/nanokernel/sync_objects/fx_rwlock.c:172-253 | an unlock keeps exclusion, the count of readers and the service of the queues just when a thread that is counted out was let in |
| `RwLock.ReadTriedIs` | components/nanokernel/sync_objects/fx_rwlock.c:47-73 | a reader gets in just when no writer owns the lock or waits for it |
| `RwLock.WriteTriedIs` | components/nanokernel/sync_objects/fx_rwlock.c:85-109 | a writer gets in just when nobody owns the lock or reads |
| `RwLock.UnlockedIs` | components/nanokernel/sync_objects/fx_rwlock.c:172-253 | the owner's or the last reader's unlock hands over to the next writer by the policy, or the owner's lets all readers in; with another owner it does nothing |
| `RwLock.KickIs` | components/nanokernel/sync_objects/fx_rwlock.c:313-342 | a kick lets all queued readers in unless a writer waits |
| `RwLock.GivesUpIs` | components/nanokernel/sync_objects/fx_rwlock.c:357-403 | who gives up is not queued any more, and a writer that comes back without the lock owes a kick |
| `RwLock.NextInv` | components/nanokernel/sync_objects/fx_rwlock.c:47-342 | every operation keeps them, a kick just when nobody owns the lock, no reader is queued, or a writer is, and an unlock just when it is fair |
| `RwLock.RunsAreExclusive` | components/nanokernel/sync_objects/fx_rwlock.c:47-342 | in all runs of such kicks and unlocks, whatever happens to priorities, no thread that was let in to read is still there while a writer owns the lock |
| `RwLock.UnlockBreaks` | components/nanokernel/sync_objects/fx_rwlock.c:172-253 | a run in which an unlock by a thread that holds nothing lets a writer in beside a reader |
| `RwLock.KickExact` | components/nanokernel/sync_objects/fx_rwlock.c:322-342 | the kick keeps the whole invariant just when there is no owner, no queued reader, or a queued writer |
| `RwLock.KickBreaks` | components/nanokernel/sync_objects/fx_rwlock.c:322-342 | a run in which a kick gives an owner a reader beside it |
| `RwLock.ReadersReleasedIs` | components/nanokernel/sync_objects/fx_rwlock.c:211-220 | the release loop empties the readers' queue and lets in and counts everyone in it |
| `RwLock.ReadersWoken` | components/nanokernel/sync_objects/fx_rwlock.c:211-220 | it notifies the queued readers and nobody else, each once |
| `RwLock.ReadersWokenInOrder` | components/nanokernel/sync_objects/fx_rwlock.c:211-220 | with FIFO policy in the order they came |
| `RwLock.Lock.TestAndWaitReader` | components/nanokernel/sync_objects/fx_rwlock.c:47-73 | performs the read lock |
| `RwLock.Lock.TestAndWaitWriter` | components/nanokernel/sync_objects/fx_rwlock.c:85-109 | performs the write lock |
| `RwLock.Lock.UnlockWithPolicy` | components/nanokernel/sync_objects/fx_rwlock.c:172-253 | performs the unlock with its loop |
| `RwLock.Lock.KickReaders` | components/nanokernel/sync_objects/fx_rwlock.c:322-342 | performs the kick with its loop |
| `EvFlags.TestIsMet` | components/nanokernel/sync_objects/fx_ev_flags.c:79-82 | the test on words is the request flag by flag: all of them, or some of them |
| `EvFlags.SetReleases` | components/nanokernel/sync_objects/fx_ev_flags.c:163-229 | a set releases exactly the waiters met by old flags or new flags, and shows all of them that one snapshot |
| `EvFlags.SetLeaves` | components/nanokernel/sync_objects/fx_ev_flags.c:163-229 | it leaves the snapshot without the flags that released waiters consume, bit by bit |
| `EvFlags.SetOrder` | components/nanokernel/sync_objects/fx_ev_flags.c:163-229 | who waits on keeps the place, and those released are notified in the reverse of the order in which they came |
| `EvFlags.TriedIs` | components/nanokernel/sync_objects/fx_ev_flags.c:63-99 | a test succeeds just when the request is met, shows the flags there were and consumes those it clears |
| `EvFlags.ClearedIs` | components/nanokernel/sync_objects/fx_ev_flags.c:152-237 | clearing takes away the given flags and releases nobody |
| `EvFlags.GivenUpIs` | components/nanokernel/sync_fwk/up/fx_sync.c:114-179 | who gives up waiting leaves the queue |
| `EvFlags.ShownIsNotZero` | components/nanokernel/sync_objects/fx_ev_flags.c:247-284 | a released waiter is never shown an empty word, so the word tells whether it was released |
| `EvFlags.SetInv` | components/nanokernel/sync_objects/fx_ev_flags.c:163-229 | a set keeps: no queued request is met, temporary queue empty |
| `EvFlags.TriedInv` | components/nanokernel/sync_objects/fx_ev_flags.c:63-99 | a wait or test keeps it, consuming flags included |
| `EvFlags.RunsForgetNobody` | components/nanokernel/sync_objects/fx_ev_flags.c:63-237 | in every state of every run no queued request is met by the current flags |
| `EvFlags.Evf.TestAndWait` | components/nanokernel/sync_objects/fx_ev_flags.c:63-99 | performs the test, consuming flags |
| `EvFlags.Evf.Gather` | components/nanokernel/sync_objects/fx_ev_flags.c:165-203 | the walk moves the waiters to be released to the temporary queue and adds up what they consume |
| `EvFlags.Evf.NotifyTemp` | components/nanokernel/sync_objects/fx_ev_flags.c:223-228 | the second loop empties the temporary queue |
| `EvFlags.Evf.SetOrClear` | components/nanokernel/sync_objects/fx_ev_flags.c:152-237 | performs the set or the clear |
| `BlockPool.InitExact` | components/nanokernel/sync_objects/fx_block_pool.c:118-155 | exactly which initialisations are accepted, with blocks that have room for what was asked for, despite 32-bit wrap-around; exactly four sizes divide by zero before the checks |
| `BlockPool.HandedApart` | components/nanokernel/sync_objects/fx_block_pool.c:62-77 | blocks handed out do not overlap and lie in the pool's memory |
| `BlockPool.TestedIs` | components/nanokernel/sync_objects/fx_block_pool.c:46-105 | a block is handed out just when there is one, and the caller is told where it is |
| `BlockPool.ReturnedIs` | components/nanokernel/sync_objects/fx_block_pool.c:248-289 | a returned block goes to the next waiter by the policy, who is told the very pointer, or into the list |
| `BlockPool.GivenUpIs` | components/nanokernel/sync_fwk/up/fx_sync.c:114-179 | who gives up waiting leaves the queue |
| `BlockPool.TestedInv` | components/nanokernel/sync_objects/fx_block_pool.c:46-105 | an allocation keeps: each carved block free or handed out, counter exact, waiters only when nothing is available |
| `BlockPool.ReturnedInv` | components/nanokernel/sync_objects/fx_block_pool.c:248-289 | a release keeps it, also when the block goes straight to a waiter |
| `BlockPool.RunsConserve` | components/nanokernel/sync_objects/fx_block_pool.c:46-289 | in every state of every run, whatever happens to priorities, blocks handed out are disjoint and, with the counter of free ones, are the whole pool |
| `BlockPool.AllocReleaseRoundTrip` | components/nanokernel/sync_objects/fx_block_pool.c:46-289 | releasing what was just allocated puts the block first in the list and restores the count |
| `BlockPool.Pool.constructor` | components/nanokernel/sync_objects/fx_block_pool.c:118-155 | performs the initialisation |
| `BlockPool.Pool.Test` | components/nanokernel/sync_objects/fx_block_pool.c:46-105 | performs the allocation or the start of the wait |
| `BlockPool.Pool.ReleaseInternal` | components/nanokernel/sync_objects/fx_block_pool.c:248-289 | performs the release |
| `Timer.CompareExact` | components/nanokernel/timer/lw/fx_timer_internal.h:67-68 | within 2^31 ticks the wrapping comparisons are right, except for a time exactly 2^31 ahead |
| `Timer.CompareFar` | components/nanokernel/timer/lw/fx_timer_internal.h:67-68 | all the way round: a later time is recognised exactly up to a distance of 2^31 |
| `Timer.InsertIs` | components/nanokernel/timer/lw/fx_timer_internal.c:134-150 | insertion keeps the list sorted |
| `Timer.ArmedBehind` | components/nanokernel/timer/lw/fx_timer_internal.c:134-150 | a timer goes behind all that are not due later |
| `Timer.ArmedInv` | components/nanokernel/timer/lw/fx_timer_internal.c:159-178 | arming keeps the list sorted and within reach of the wrapped comparison, if the deadline is near to all others |
| `Timer.ArmableInTime` | components/nanokernel/timer/lw/fx_timer_internal.c:159-199 | a deadline that is at most one tick overdue is near enough |
| `Timer.LagRequeued` | components/nanokernel/timer/lw/fx_timer_internal.c:214-233 | each round of the catch-up loop lowers the total lag, so it terminates |
| `Timer.TickedInv` | components/nanokernel/timer/lw/fx_timer_internal.c:205-241 | a tick ends with nothing due and the list sorted inside the window |
| `Timer.OneShotOnTime` | components/nanokernel/timer/lw/fx_timer_internal.c:160-241 | a one-shot timer armed for d ticks fires once: in exactly the d-th tick after the counter was read if fewer than d ticks pass between that and arming, else in the first tick after arming |
| `Timer.WaitsUntilDue` | components/nanokernel/timer/lw/fx_timer_internal.c:160-241 | no tick before that fires a timer |
| `Timer.FiresWhenDue` | components/nanokernel/timer/lw/fx_timer_internal.c:159-241 | a one-shot timer armed for an absolute deadline fires once, in exactly the tick that reaches it, or the next one if it has passed |
| `Timer.CancelledIsSilent` | components/nanokernel/timer/lw/fx_timer_internal.c:115-129 | a timer that is cancelled does not fire until it is armed again |
| `Timer.RearmedForgets` | components/nanokernel/timer/lw/fx_timer_internal.c:159-178 | a timer that is armed again forgets its old deadline |
| `Timer.PeriodicOnTime` | components/nanokernel/timer/lw/fx_timer_internal.c:160-241 | a periodic timer keeps its schedule without drift, and catches up on the deadlines missed when it is armed late |
| `Timer.TiesFireInOrder` | components/nanokernel/timer/lw/fx_timer_internal.c:134-241 | timers with the same deadline, one-shot or periodic, fire there in the order they were armed |
| `Timer.Timers.InsertTimer` | components/nanokernel/timer/lw/fx_timer_internal.c:134-150 | the insertion loop on wrapped words finds the same place as on unbounded deadlines |
| `Timer.Timers.InternalCancel` | components/nanokernel/timer/lw/fx_timer_internal.c:115-129 | unlinks a timer, and tells whether it was linked |
| `Timer.Timers.InternalSetAbs` | components/nanokernel/timer/lw/fx_timer_internal.c:159-178 | arms a timer for an absolute tick value |
| `Timer.Timers.InternalSetRel` | components/nanokernel/timer/lw/fx_timer_internal.c:187-199 | reads the counter and arms in two sections with any number of ticks in between, the sum wrapping around |
| `Timer.Timers.ReadTicks` | components/nanokernel/timer/lw/fx_timer_internal.c:192-197 | the first of these sections |
| `Timer.Timers.TickHandler` | components/nanokernel/timer/lw/fx_timer_internal.c:204-241 | the tick loop on wrapped words fires what is due on unbounded ones |
| `Esr.NextIs` | components/nanokernel/esr/sw/fx_esr.c:382-392 | the routine that is due is the top of the stack, or not started and of higher priority than the top |
| `Esr.LeftInv` | components/nanokernel/esr/sw/fx_esr.c:231-271 | a routine that exits or waits hands on the very frame in which the one below was interrupted |
| `Esr.AddedIs` | components/nanokernel/esr/sw/fx_esr.c:120-164 | a routine that is added has its level, and is neither started nor ready |
| `Esr.ActivatedIs` | components/nanokernel/esr/sw/fx_esr.c:197-222 | a message is refused just when the last one is still there; otherwise it is kept and the routine is ready |
| `Esr.LeftIs` | components/nanokernel/esr/sw/fx_esr.c:231-271 | a routine that leaves is not ready or started any more, and the one below goes on where it was interrupted |
| `Esr.ExitedIs` | components/nanokernel/esr/sw/fx_esr.c:231-271 | an exit clears the message, so that the next one is taken |
| `Esr.WaitedMsgIs` | components/nanokernel/esr/sw/fx_esr.c:469-529 | waiting starts the routine again with the message there is, or attaches it; a poll goes on |
| `Esr.RolledBackIs` | components/nanokernel/esr/sw/fx_esr.c:328-348 | a routine that starts is taken off its port |
| `Esr.NotifiedIs` | components/nanokernel/esr/sw/fx_esr.c:445-458 | a notification delivers the message and makes the routine ready |
| `Esr.BestFirst` | components/nanokernel/esr/sw/fx_esr.c:382-392 | a routine is ahead of all others of its level when it is started, so none of them is due before it has ended |
| `Esr.WaitedMsgInv` | components/nanokernel/esr/sw/fx_esr.c:469-529 | waiting for a message keeps the stack, also when the message is there and the routine is to restart; polling changes only the message |
| `Esr.DispatchFresh` | components/nanokernel/esr/sw/fx_esr.c:409-435 | a fresh routine is stacked on the frame just interrupted, or on the one handed on |
| `Esr.DispatchGoes` | components/nanokernel/esr/sw/fx_esr.c:354-440 | what a dispatch does in every case; afterwards the running routine is the ready one of highest priority |
| `Esr.NextInv` | components/nanokernel/esr/sw/fx_esr.c:197-529 | every operation keeps the stack of strictly rising priority with the idle routine at the bottom, whatever levels routines are added with |
| `Esr.RunsNest` | components/nanokernel/esr/sw/fx_esr.c:197-529 | all runs, several routines of one level included |
| `Esr.EsrContext.constructor` | components/nanokernel/esr/sw/fx_esr.c:70-104 | the idle routine is started and current |
| `Esr.EsrContext.Activate` | components/nanokernel/esr/sw/fx_esr.c:197-222 | a message that is still there blocks another; otherwise the routine is resumed |
| `Esr.EsrContext.Exit` | components/nanokernel/esr/sw/fx_esr.c:231-271 | performs the exit |
| `Esr.EsrContext.WaitMsg` | components/nanokernel/esr/sw/fx_esr.c:469-529 | performs the wait for a message, or the poll |
| `Esr.EsrContext.DispatchHandler` | components/nanokernel/esr/sw/fx_esr.c:354-440 | performs the dispatch and tells which frame goes on |

## Left out

- Assembly and HAL: context switches, interrupt controllers, memory protection. An interrupt frame is a value with an owner.
- `fx_mem_pool.c`, `fx_msgq.c`, `fx_msgq_esr.c`, `ktimer/enabled/fx_timer.c`: argument-checking wrappers over the modelled code.
- Semaphores, condition variables and simple events as objects of their own: short invariants; the event appears as the cancel object of a wait.
- The barrier: its count is not kept by waits that time out.
- Thread termination and APCs, with the status INTERRUPTED: they unlink waits from outside the protocol.
- Destructors of objects and pools. DELETED notifications are steps of the wait protocol all the same.
- `fx_esr_raise_pl` and `fx_esr_lower_pl`: the raised level is not known to the scheduler, so levels are not kept in order.
- `fx_timer_set_tick_count` and the tickless branch of timeslicing: they break the timer window by design.
- Timer callbacks, and interrupts between them, that arm or cancel timers during the same tick: a callback is an entry of a log.
- Magic values, trace calls and debug assertions.
- The default policy of the block pool, which its initialisation does not store: the policy is a parameter.
- Other second-level subdivisions of the pool than 16 lists per row, the default of `RTL_MEM_POOL_SUBDIV_LOG2`: the arithmetic of the size classes is that of this value.
- Esr.EsrContext.WaitMsg: the wait block that a poll rewrites is not modelled, only whether the routine is attached and its message.
- Timing: how long operations take with interrupts disabled.
- Pointer surgery of the queues inside the scheduler, the wait queues and the timers: these hold sequences, and `RtlQueue` shows that the linked code does what sequences do.
- The `block_null` of the pool: its words may hold anything after the first insertion, and no proof uses them.
- Scheduler.RunsKeepTop: an item raises itself only while it is on top, which holds whenever no reschedule is pending; `SetParamsInv` shows that any other self-raise breaks the invariant, and `PendingRaiseBreaks` what comes of it.
- Mutex.PriorityIsEffective: a ceiling is released last-in first-out, or when it and all later ones raised nothing, and nothing else changes priorities; `OutOfOrderExact` shows that any other release breaks the invariant.
- RwLock.RunsAreExclusive: readers are kicked only while nobody owns the lock, or when the kick lets nobody in, and readers that are counted out were let in; `NextInv` shows that any other kick or unlock breaks the invariant.
- Esr.RunsNest: the idle routine neither exits nor waits.
- Timer.OneShotOnTime: deadlines seen from now and periods are below 0x7FFFFFFF, nothing but ticks moves the counter, and a deadline that is overdue when its timer is armed is less than 2^31 ticks from all others in the list; `ArmableInTime` shows that one tick overdue is always near enough, `CompareFar` what the comparison says beyond.
- WaitProtocol.ReturnedClean: the cancel event's timer is a step that may happen at any time; how the timer counts is the subject of `Timer`.
- EvFlags.SetReleases: flag words are unbounded numbers, since no operation carries between bits.
