# Verified models of the kernel's stateful components

The kernel has two interchangeable heap allocators, a scheduler with aging and a rotating level
pointer, pipes, and semaphores on which the `mvar` program is built. This project models these five
components in Dafny and proves what they keep: in every reachable state, over every run, and for any
interleaving of their callers.

`dafny verify dfyconfig.toml` checks everything.

| files | component |
|---|---|
| `Dyadic`, `Intervals`, `Options` | powers of two and alignment, counting runs of cells, an option type |
| `BuddySpec`, `BuddySteps`, `BuddyOrder`, `BuddyInit`, `BuddyMemory` | the buddy allocator (`Kernel/memory/buddyMemory.c`) |
| `FirstFitSpec`, `FirstFitSteps`, `FirstFitRing`, `FirstFitMemory` | the first-fit allocator (`Kernel/memory/firstFitMemory.c`) |
| `Allocator` | the one interface specification that both allocators refine |
| `Lists` | the doubly linked lists (`Kernel/lib/list.c`) |
| `SchedulerSpec`, `SchedulerLists`, `SchedulerInvariant`, `SchedulerSteps`, `SchedulerCalm`, `SchedulerRuns`, `SchedulerRules`, `SchedulerQuantum`, `SchedulerLives`, `Fairness`, `FairnessRuns`, `Scheduler` | the scheduler (`Kernel/processes/scheduler.c`) |
| `PipeSpec`, `PipeCode`, `PipeProtocol`, `PipeStray`, `PipeTable` | pipes (`Kernel/pipes/pipe.c`) |
| `SemaphoreSpec`, `SemaphoreOrder`, `SemaphoreCode` | semaphores (`Kernel/semaphores/semaphores.c`) |
| `MVar` | the readers and writers of `Userland/shell/commands/mvar.c` |

## How the models are built

Code that changes state in place is a class whose methods change fields (`BuddyMemory.Manager`,
`FirstFitMemory.Manager`, `Lists.List`, `SchedulerCode.Scheduler`, `PipeCode.Pipe`,
`PipeTable.PipeManager`, `SemaphoreCode.SemaphoreCell`). Each method is proved equal to a function of
the old state, and the theorems are about those functions, so that they range over all runs. What an
operation does is also stated without its function: the rules of `SchedulerRules`, `SchedulerQuantum`
and `SchedulerLives`, the orders of `BuddyOrder`, the steps of `SemaphoreOrder` and `MVar.StepAtCell`
give the new records, places in queues, counters and values outright.

* **Allocators.** A heap is a labelling of its cells (page frames, 16-byte units): each cell carries
  the block that holds it. Tilings, canonical forms and completeness are stated on labels; the
  managers' page records, headers, list links, rover and counters are proved to agree with them.
* **Kernel code is atomic between context switches.** Interrupts are off inside the kernel
  (`Kernel/idt/idtLoader.c`, `Kernel/asm/interrupts.asm`), so a call is one step up to the `yield` in
  which it sleeps, and another step from there. `pipe_read`, `pipe_write`, `down` and `waitpid` are
  split in this way. The `mvar` processes may be interleaved anywhere.
* **`oom` parameters** say whether the heap refuses a block; they stand for `mm_alloc` returning NULL.
* **`blocked` sets** in pipes and semaphores stand for the `BLOCKED` status that `set_status` gives.

## What the theorems assume

* Buddy: a request is covered only up to `2^32 - 4096` bytes, because `size + 4095` is computed in 32
  bits; `GrantCovers` proves that this is exact. A larger request is granted one page, so for it the
  promise that a block once freed serves any request no larger fails: `PromiseExact` proves that in
  every zone it holds exactly up to that size, and `WrappedGrantIsSmall` follows a heap of one page
  from `mm_init` to where it fails at two pages.
  `mm_free` gets a pointer to the first page of a live block, or one that the function rejects.
* First-fit: the sentinel lies below the heap. `mm_init` gives up on fewer than two units.
* `create_process` is called with `num_processes + 1 < MAX_PROCESSES`: behind the insertion the pid
  search ends exactly when a slot is still free (`FreeSlotFound`). The first process made is the
  unkillable idle process.
* Nobody but the dying child changes the status of a process inside `waitpid`, which does not look
  again after its `yield`; the idle process does not call `waitpid`.
* Bounded waiting is for a process that others leave alone, in runs where nobody sets the running
  process to READY. At level 4 the bound grows with the wakeups of the run, each of which goes in
  front of all who wait there (`WakeupJumpsQueue`).
* Semaphore and pipe participants are not killed or made ready from outside.

## Model

| member | source | states |
|---|---|---|
| `BuddySpec.RunInOneBlock` | Kernel/memory/buddyMemory.c:200-269 | any wholly free run of frames aligned to its size lies inside one free block |
| `BuddySpec.FreeBlockIsMaximal` | Kernel/memory/buddyMemory.c:200-233 | the block around a free frame is the largest aligned, wholly free run around it |
| `BuddySpec.CanonicalForm` | Kernel/memory/buddyMemory.c:200-233 | two coalesced zones with the same free frames have the same free blocks |
| `BuddySteps.FreeZoneKeeps` | Kernel/memory/buddyMemory.c:200-233 | freeing a live block frees exactly its frames, keeps every other live block, and coalesces back to a tiling in which no free block has a free buddy of its order and the lists hold each free block once |
| `BuddySteps.MergeKeeps` | Kernel/memory/buddyMemory.c:208-230 | each round of coalescing leaves everything but the block in hand in order |
| `BuddySteps.AllocComplete` | Kernel/memory/buddyMemory.c:235-269 | allocation of an order finds a block exactly when some aligned run of that order is wholly free |
| `BuddySteps.AllocKeeps` | Kernel/memory/buddyMemory.c:235-269 | what is granted is one aligned run that was free; the remainders are free blocks on their lists; the zone stays canonical |
| `BuddySteps.SplitZoneKeeps` | Kernel/memory/buddyMemory.c:255-261 | splitting down leaves the run in hand live, all else of the block free, and no buddies to coalesce |
| `BuddySteps.FreeThenAlloc` | Kernel/memory/buddyMemory.c:200-269 | right after a block of some order is freed, the search for that order or less finds a block |
| `BuddyOrder.AllocOrder` | Kernel/memory/buddyMemory.c:235-269 | the block granted starts at the head of the first non-empty list from the order up, which leaves that list; of the rest one half becomes the only entry of each list passed |
| `BuddyOrder.FreeOrder` | Kernel/memory/buddyMemory.c:171-233 | the coalesced block becomes the head of its list, one buddy inside it leaves each list climbed past, and all other lists and orders stay as they were |
| `BuddyMemory.FreeThenServed` | Kernel/memory/buddyMemory.c:104-149 | right after a block granted for some number of bytes, up to 2^32 - 4096, is freed, a request for no more bytes is met |
| `BuddyMemory.WrappedGrantIsSmall` | Kernel/memory/buddyMemory.c:111-117 | a larger request is granted a single page, and in any heap of one page, freed after that, a request of two pages cannot be met |
| `BuddyMemory.PromiseExact` | Kernel/memory/buddyMemory.c:104-149 | in every zone a freed block serves every request no larger than its own if and only if its own was at most 2^32 - 4096 bytes |
| `BuddyMemory.OrderGrows` | Kernel/memory/buddyMemory.c:110-117 | up to that size a smaller request never needs a larger order |
| `BuddyMemory.ServedSurvives` | Kernel/memory/buddyMemory.c:200-233 | a request that can be met can still be met after any further free |
| `BuddyMemory.Manager.FreeThenAlloc` | Kernel/memory/buddyMemory.c:104-149 | `mm_free` of a block, any further `mm_free`s, then `mm_alloc` of no more bytes does not return NULL |
| `BuddySteps.RunKeeps` | Kernel/memory/buddyMemory.c:104-149 | every run of requests keeps the invariant and the zone's frames |
| `BuddySteps.AllFreedRestores` | Kernel/memory/buddyMemory.c:200-269 | any run that leaves nothing live ends with the labels and the list contents it started from |
| `BuddyInit.GreedyOrderIsLargest` | Kernel/memory/buddyMemory.c:279-287 | the order picked for a frame is the largest that is aligned there and fits in what is left |
| `BuddyInit.GreedyNeverCoalesces` | Kernel/memory/buddyMemory.c:271-295 | while memory is added no block finds a free buddy, so adding is mere insertion |
| `BuddyInit.GreedyIsCanonical` | Kernel/memory/buddyMemory.c:271-295 | the decomposition that `mm_init` makes is canonical and wholly free |
| `BuddyInit.AllFreedIsGreedy` | Kernel/memory/buddyMemory.c:200-295 | any run from `mm_init` that leaves nothing live ends with that decomposition |
| `BuddyInit.StatsCountFreeFrames` | Kernel/memory/buddyMemory.c:151-164 | the blocks counted per order, times their sizes, are the free frames |
| `BuddyMemory.GrantCovers` | Kernel/memory/buddyMemory.c:110-117 | the granted pages cover the request if and only if it is at most 2^32 - 4096 bytes |
| `BuddyMemory.OrderForIsLeast` | Kernel/memory/buddyMemory.c:113-117 | the order searched for is the least that holds the pages, or past the top if none does |
| `BuddyMemory.OrderExact` | Kernel/memory/buddyMemory.c:110-119 | in bytes: every order below the one searched for is too small for the request, and the search passes the top order exactly when the largest block is too small |
| `BuddyMemory.ServedIs` | Kernel/memory/buddyMemory.c:110-119 | there is room for the request exactly when an aligned run of that order is free |
| `BuddyMemory.CoalescingTestExact` | Kernel/memory/buddyMemory.c:218-219 | the test on flag and order holds exactly when the buddy heads a listed free block of that order |
| `BuddyMemory.Manager.MmInit` | Kernel/memory/buddyMemory.c:76-102 | page records, lists and counts stand for the greedy decomposition of a wholly free zone |
| `BuddyMemory.Manager.MmAlloc` | Kernel/memory/buddyMemory.c:104-126 | not NULL exactly for a nonzero size for which some aligned run of the least order that holds its bytes is free; then the address of a run of just that order, granted for it |
| `BuddyMemory.Manager.MmFree` | Kernel/memory/buddyMemory.c:128-149 | the live block at the pointer is freed and coalesced, a rejected pointer changes nothing; what could be freed or granted before still can |
| `BuddyMemory.Manager.MmGetStats` | Kernel/memory/buddyMemory.c:151-164 | the total and exactly the free frames, in bytes |
| `BuddyMemory.Manager.FreePages` | Kernel/memory/buddyMemory.c:200-233 | the loop over page records coalesces as the specification does, with records and lists in agreement throughout |
| `BuddyMemory.Manager.MergeBuddy` | Kernel/memory/buddyMemory.c:221-229 | the buddy leaves its list and the block in hand grows to the lower of the two |
| `BuddyMemory.Manager.BuddyTest` | Kernel/memory/buddyMemory.c:218-219 | in the middle of coalescing the record of the buddy tells whether it heads a free block of the order |
| `BuddyMemory.Manager.AllocPages` | Kernel/memory/buddyMemory.c:235-269 | the first block of the first non-empty list from the order up is taken and split down |
| `BuddyMemory.Manager.SplitDown` | Kernel/memory/buddyMemory.c:255-263 | the upper halves go back to the lists order by order |
| `BuddyMemory.Manager.AddToFreeList` | Kernel/memory/buddyMemory.c:171-184 | the block becomes the head of its list, its pages free and of its order |
| `BuddyMemory.Manager.DelFromFreeList` | Kernel/memory/buddyMemory.c:186-198 | the block leaves its list and its pages are in use |
| `BuddyMemory.Manager.AddMemory` | Kernel/memory/buddyMemory.c:271-295 | the loop builds the greedy decomposition |
| `FirstFitSpec.RunInOneBlock` | Kernel/memory/firstFitMemory.c:134-191 | a run of free units lies inside one free block, as no two free blocks are adjacent |
| `FirstFitSpec.AllocComplete` | Kernel/memory/firstFitMemory.c:93-131 | some listed block is large enough exactly when some contiguous run of the units is free |
| `FirstFitSpec.CanonicalForm` | Kernel/memory/firstFitMemory.c:134-191 | tilings with the same free units have the same free blocks |
| `FirstFitSpec.AllFreeIsOneBlock` | Kernel/memory/firstFitMemory.c:46-72 | with every unit free the heap is the block that `mm_init` made |
| `FirstFitSteps.AllocKeeps` | Kernel/memory/firstFitMemory.c:97-124 | the tail of the fitting block, or all of it, becomes one live block; the rest stays one free block; the tiling stays separated |
| `FirstFitSteps.FreeKeeps` | Kernel/memory/firstFitMemory.c:134-191 | freeing frees exactly the block's units, keeps every other live block, and leaves no two free blocks adjacent |
| `FirstFitRing.CoalescingTestsExact` | Kernel/memory/firstFitMemory.c:163-180 | the two address tests hold exactly when the neighbours on that side are free |
| `FirstFitRing.PredecessorExists` | Kernel/memory/firstFitMemory.c:147-160 | a live block has an address predecessor in the ring |
| `FirstFitRing.PredecessorUnique` | Kernel/memory/firstFitMemory.c:147-160 | and only one |
| `FirstFitRing.FreeRingExact` | Kernel/memory/firstFitMemory.c:162-190 | after insertion and coalescing the ring again holds each free block once, by rising address |
| `FirstFitRing.FreeRingLinked` | Kernel/memory/firstFitMemory.c:162-190 | the header links written make up that ring |
| `FirstFitMemory.GrantCovers` | Kernel/memory/firstFitMemory.c:82-86 | the granted units hold the request beside the header and waste less than one unit |
| `FirstFitMemory.SearchStopsAtPredecessor` | Kernel/memory/firstFitMemory.c:149-160 | the search's two exits together hold exactly at the address predecessor |
| `FirstFitMemory.FullCircle` | Kernel/memory/firstFitMemory.c:126-130 | a search back at the rover has seen every free block, so no run is free |
| `FirstFitMemory.FreeThenServed` | Kernel/memory/firstFitMemory.c:134-191 | after a block granted for some size is freed, a request of no more bytes finds a free run |
| `FirstFitMemory.FreedLater` | Kernel/memory/firstFitMemory.c:134-191 | a request that can be met can still be met after any further free, and every other granted block is as it was |
| `FirstFitMemory.Manager.FreeThenAlloc` | Kernel/memory/firstFitMemory.c:74-191 | `mm_free` of a block, any further `mm_free`s, then `mm_alloc` of no more bytes does not return NULL |
| `FirstFitMemory.FreeAllRestores` | Kernel/memory/firstFitMemory.c:134-191 | freeing every live block, in any order, restores the single initial block |
| `FirstFitMemory.Manager.MmInit` | Kernel/memory/firstFitMemory.c:46-72 | one free block behind the sentinel, or nothing changed for fewer than two units |
| `FirstFitMemory.Manager.MmAlloc` | Kernel/memory/firstFitMemory.c:74-132 | from any rover position not NULL exactly for a nonzero size with a contiguous free run of the units; then a block granted at the first fitting header behind the rover |
| `FirstFitMemory.Manager.Take` | Kernel/memory/firstFitMemory.c:98-124 | unlinking or splitting keeps headers, ring, rover and free counter in agreement |
| `FirstFitMemory.Manager.MmFree` | Kernel/memory/firstFitMemory.c:134-191 | the block is freed and joined on both sides, and the rover stands on the block that holds it; what could be freed or granted before still can |
| `FirstFitMemory.Manager.FindPredecessor` | Kernel/memory/firstFitMemory.c:147-160 | the search ends from any rover position, at the address predecessor: below the block, and followed by a header above it or by the wrap-around |
| `FirstFitMemory.Manager.Release` | Kernel/memory/firstFitMemory.c:162-190 | the header writes give the coalesced heap |
| `FirstFitMemory.Manager.AllFreeRestores` | Kernel/memory/firstFitMemory.c:46-72 | when the counters say all memory is free the heap is the initial block |
| `FirstFitMemory.Manager.MmGetStats` | Kernel/memory/firstFitMemory.c:193-197 | the total and 16 times the free units |
| `Allocator.RunSound` | Kernel/include/memoryManagerInterface.h:6-7 | over any sequence of grants and releases every cell is free or in exactly one live block, and with nothing live all are free |
| `Allocator.GrantThenRelease` | Kernel/include/memoryManagerInterface.h:6-7 | giving back what was just granted leaves no trace |
| `BuddyRefines.AllocGrants` | Kernel/memory/buddyMemory.c:235-269 | buddy allocation is a grant in the sense of the interface |
| `BuddyRefines.FreeReleases` | Kernel/memory/buddyMemory.c:200-233 | buddy freeing is the release of that block |
| `BuddyRefines.IsSound` | Kernel/memory/buddyMemory.c:200-269 | a tiled zone is a sound heap |
| `BuddyRefines.StepRefines` | Kernel/memory/buddyMemory.c:104-149 | every legal request to the buddy allocator is a request to the interface |
| `BuddyRefines.RunsSoundly` | Kernel/memory/buddyMemory.c:104-149 | after every request of every run the live blocks lie apart, every frame is free or in one of them, and all are free when nothing is live |
| `FirstFitRefines.AllocGrants` | Kernel/memory/firstFitMemory.c:97-124 | first-fit allocation is a grant in the same sense |
| `FirstFitRefines.FreeReleases` | Kernel/memory/firstFitMemory.c:134-191 | first-fit freeing is the release of that block |
| `FirstFitRefines.IsSound` | Kernel/memory/firstFitMemory.c:74-191 | a tiled heap is a sound heap |
| `FirstFitRefines.StepRefines` | Kernel/memory/firstFitMemory.c:74-191 | whatever `mm_alloc` or `mm_free` did was a request to the interface |
| `FirstFitRefines.RunsSoundly` | Kernel/memory/firstFitMemory.c:74-191 | after every call of every run the live blocks lie apart, every unit is free or in one of them, and all are free when nothing is live |
| `Lists.List.Append` | Kernel/lib/list.c:17-38 | the element is last, on a new node; without memory nothing changes |
| `Lists.List.Prepend` | Kernel/lib/list.c:40-61 | the element is first, on a new node |
| `Lists.List.Remove` | Kernel/lib/list.c:63-84 | exactly the node's element is gone and is returned; the iterator survives exactly when it was not on the node; a null node changes nothing |
| `Lists.List.GetFirst` | Kernel/lib/list.c:86-89 | the first node, or null |
| `Lists.List.IsEmpty` | Kernel/lib/list.c:91-94 | whether there are no elements |
| `Lists.List.Begin` | Kernel/lib/list.c:96-99 | the iterator is on the first node |
| `Lists.List.HasNext` | Kernel/lib/list.c:101-104 | from a position of the list, whether `Next` will yield an element there |
| `Lists.List.Next` | Kernel/lib/list.c:106-115 | yields the element under the iterator and steps on, nothing at the end |
| `SchedulerLists.UnlinkListed` | Kernel/lib/list.c:63-84 | a process taken from its list is in no list, all others are where they were |
| `SchedulerLists.LinkListed` | Kernel/lib/list.c:17-61 | a process that enters the list of its status is there once, on the node its slot now points at |
| `SchedulerInvariant.MoveKeeps` | Kernel/processes/scheduler.c:183-198 | moving between queues keeps the invariant and changes only the two queues and the process |
| `SchedulerInvariant.SetPriorityKeeps` | Kernel/processes/scheduler.c:172-202 | `set_priority` keeps the invariant |
| `SchedulerInvariant.SetStatusKeeps` | Kernel/processes/scheduler.c:204-262 | `set_status` keeps it for a process that does not wait for a child |
| `SchedulerInvariant.PreemptKeeps` | Kernel/processes/scheduler.c:64-102 | behind preemption no process runs and the invariant holds |
| `SchedulerInvariant.NextLevelComplete` | Kernel/processes/scheduler.c:469-490 | the search finds a process exactly when some queue has one |
| `SchedulerInvariant.PickKeeps` | Kernel/processes/scheduler.c:469-490 | whoever is picked exists and can run, and is the idle process exactly when all queues are empty |
| `SchedulerSteps.SwitchKeeps` | Kernel/processes/scheduler.c:64-111 | after a switch exactly the current process runs |
| `SchedulerSteps.TickKeeps` | Kernel/processes/scheduler.c:37-112 | `schedule`, with a pending Ctrl+C or without, keeps the invariant |
| `SchedulerSteps.YieldKeeps` | Kernel/processes/scheduler.c:384-400 | `yield` keeps it and leaves exactly one process running |
| `SchedulerSteps.Reaped` | Kernel/processes/scheduler.c:284-297 | reaping removes exactly the zombie children and empties their slots |
| `SchedulerSteps.ZombiesReaped` | Kernel/processes/scheduler.c:284-297 | a zombie has no zombie children |
| `SchedulerSteps.BuriedOk` | Kernel/processes/scheduler.c:299-359 | what a death does to the table leaves every other process, and every waiting parent, in order |
| `SchedulerSteps.TerminateKeeps` | Kernel/processes/scheduler.c:264-359 | a dying process becomes a zombie of its living parent or is freed, its waiting parent wakes, and the invariant holds |
| `SchedulerSteps.KillKeeps` | Kernel/processes/scheduler.c:264-367 | `kill_process` with its final `yield` keeps the invariant |
| `SchedulerSteps.FreeSlotFound` | Kernel/processes/scheduler.c:163-166 | the pid search reaches a free slot if and only if the table is not full |
| `SchedulerSteps.CreateKeeps` | Kernel/processes/scheduler.c:114-170 | `create_process` keeps the invariant, with the next pid free and the count exact |
| `SchedulerSteps.AsleepKeeps` | Kernel/processes/scheduler.c:414-423 | a parent that goes to sleep in `waitpid` sleeps until its child is a zombie |
| `SchedulerSteps.FinishKeeps` | Kernel/processes/scheduler.c:425-447 | taking the dead child out empties its list place and slot and nothing else |
| `SchedulerCalm.SwitchCounts` | Kernel/processes/scheduler.c:77-101 | a switch counts a used-up quantum for the running process only, and only when the quantum ran out |
| `SchedulerCalm.YieldCalm` | Kernel/processes/scheduler.c:384-400 | a yield never counts as one, and makes no zombie |
| `SchedulerRules.Aging` | Kernel/processes/scheduler.c:77-101 | a process stopped by the timer goes behind its level; it moves up one with its count at zero exactly after at least ten quanta ran out in a row below the top level |
| `SchedulerRules.BlockThenWake` | Kernel/processes/scheduler.c:221-259 | blocking and waking a process leaves all others and the blocked queue as they were, and puts it at the head of the top queue |
| `SchedulerRules.PriorityRule` | Kernel/processes/scheduler.c:172-202 | a process that can run goes last in the queue of its new priority, any other is only marked, and the idle process, an empty slot and a priority of 5 or more are refused |
| `SchedulerRules.StatusRule` | Kernel/processes/scheduler.c:204-262 | sleeping costs one level and wipes the count, last among the blocked; waking puts the process first in the queue of level 4 and ends the running quantum; what is refused changes nothing |
| `SchedulerQuantum.SwitchPicks` | Kernel/processes/scheduler.c:104-111 | whatever operation switches, the head of the first non-empty queue from the level pointer down and around runs, the pointer one below it, on a quantum of 4 * 2^priority ticks |
| `SchedulerQuantum.StopRule` | Kernel/processes/scheduler.c:68-101 | a stopped process is last in its queue; if its quantum ran out its 16-bit count grows by one, and from ten on below level 4 it is promoted and the count restarts; nobody else but the picked one changes |
| `SchedulerQuantum.YieldRule` | Kernel/processes/scheduler.c:384-400 | a process that yields goes down one level, 0 staying 0, its count restarts, and it is last in the queue there; nobody else but the picked one changes |
| `SchedulerQuantum.FullQuantum` | Kernel/processes/scheduler.c:57-111 | after any switch, under ticks alone the picked process runs unchanged for 4 * 2^priority - 1 ticks and the next tick stops it, last in the queue of its level or of the one above if it aged |
| `SchedulerLives.FreeSlotFirst` | Kernel/processes/scheduler.c:163-166 | the slot found is the first free one around the table |
| `SchedulerLives.CreateRule` | Kernel/processes/scheduler.c:114-170 | a new process is a ready child of the current one in the slot kept for it, its priority cut down to 4, last in that queue; nothing else changes but the count and the next slot, the first free one behind it |
| `SchedulerLives.KillRule` | Kernel/processes/scheduler.c:264-367 | refused for an empty slot, a zombie or an unkillable process; else a zombie with the result, last in the list of a living parent, or gone without one, its zombie children gone; a parent waiting for it is first in the queue of level 4 and the quantum ends, else it does not |
| `SchedulerLives.CtrlCRule` | Kernel/processes/scheduler.c:41-55 | the interrupt clears the flag, and kills with -1 and replaces the current process exactly if that is not the idle one, reads the keyboard and may be killed; else it is an interrupt without the flag |
| `SchedulerLives.WaitBeginRule` | Kernel/processes/scheduler.c:402-423 | refused for who is no child; a dead child is taken at once; for a living one the caller sleeps last among the blocked, one level down for the sleep and one for the yield, and the child has the foreground |
| `SchedulerLives.WaitFinishRule` | Kernel/processes/scheduler.c:425-447 | the child waited for is a zombie of the caller, its result is returned, its slot and its entry alone are gone, and nobody is waited for or in the foreground |
| `SchedulerRuns.StepKeeps` | Kernel/processes/scheduler.c:37-448 | every operation keeps the scheduler's structure |
| `SchedulerRuns.RunKeeps` | Kernel/processes/scheduler.c:37-448 | so does every run of operations |
| `SchedulerRuns.ExactlyOneList` | Kernel/processes/scheduler.c:114-367 | every process but the idle one is at exactly one place of exactly one list, the one of its status, on the node its slot points at |
| `SchedulerRuns.ZombieOwned` | Kernel/processes/scheduler.c:318-342 | every zombie's parent is alive and has it in its list |
| `SchedulerRuns.StepAccounted` | Kernel/processes/scheduler.c:37-448 | zombies come from kills, with the results given to them, and `quantum_consumed_count` grows only by one and only on a natural expiry |
| `SchedulerRuns.RunFaithful` | Kernel/processes/scheduler.c:264-367 | in every run each zombie carries the result of the last kill of its pid |
| `SchedulerRuns.WaitHandshake` | Kernel/processes/scheduler.c:402-448 | in every run, when a parent comes back inside `waitpid` the child is a zombie in its own list and the value returned is the one given to the kill |
| `Fairness.RemoveBefore` | Kernel/lib/list.c:63-84 | nobody's place in a queue gets worse when a node leaves |
| `Fairness.NextLevelToward` | Kernel/processes/scheduler.c:469-490 | the search never runs past a level that has a process |
| `Fairness.PickCloser` | Kernel/processes/scheduler.c:469-490 | picking somebody else brings a waiting process closer, in picks and in quanta |
| `Fairness.ScheduleWaits` | Kernel/processes/scheduler.c:57-112 | every call of `schedule` dispatches a waiting process or lowers its bounds |
| `FairnessRuns.StepWaits` | Kernel/processes/scheduler.c:37-448 | every operation not aimed at a waiting process dispatches it or pays for its picks and outer calls out of the bounds, which only wakeups at the top level raise; the call nested in a Ctrl+C comes with a pick |
| `FairnessRuns.RunWaits` | Kernel/processes/scheduler.c:37-112 | over a run that passes a waiting process by, the picks, the calls of `schedule` that operations make themselves and all calls, nested ones included, stay below their bounds |
| `FairnessRuns.BoundedWaiting` | Kernel/processes/scheduler.c:37-112 | in every run a process at place k of its queue is dispatched within 5(k+1) picks and 64+124(k+1) calls of `schedule`, or 64+129(k+1) counting the one that each Ctrl+C nests; at level 4 each wakeup of the run counts as one more place |
| `FairnessRuns.WakeupJumpsQueue` | Kernel/processes/scheduler.c:243-258 | at level 4 every wakeup does put all who wait one place back |
| `FairnessRuns.SwitchDispatches` | Kernel/processes/scheduler.c:104-111 | every pick, from whatever operation, leaves one process running, the idle one exactly when all queues are empty |
| `SchedulerCode.Scheduler.constructor` | Kernel/processes/scheduler.c:16-35 | an empty table and empty queues, one tick to the first switch, the level pointer at 4 |
| `SchedulerCode.Scheduler.Schedule` | Kernel/processes/scheduler.c:37-112 | the new state is `Tick` of the old, a Ctrl+C kill and its nested interrupt included; when it switches, the first process of the rotation runs on 4 * 2^priority ticks |
| `SchedulerCode.Scheduler.StopCurrent` | Kernel/processes/scheduler.c:77-101 | the running process rotates, and moves up a level after ten quanta in a row |
| `SchedulerCode.Scheduler.GetNextPid` | Kernel/processes/scheduler.c:469-490 | the loop picks the head of the first non-empty level from the pointer down and around, and steps past it |
| `SchedulerCode.Scheduler.CreateProcess` | Kernel/processes/scheduler.c:114-170 | the new state is `Create` of the old, and the pid or -1 is returned |
| `SchedulerCode.Scheduler.FindUnused` | Kernel/processes/scheduler.c:163-166 | the search ends and stops at the first free slot from the pid just used |
| `SchedulerCode.Scheduler.SetPriority` | Kernel/processes/scheduler.c:172-202 | the new state is `SetPriority` of the old, with the source's result |
| `SchedulerCode.Scheduler.SetStatus` | Kernel/processes/scheduler.c:204-262 | the new state is `SetStatus` of the old, with the source's result |
| `SchedulerCode.Scheduler.KillProcess` | Kernel/processes/scheduler.c:264-367 | the new state is `Kill` of the old; 0 exactly for a live process that may be killed |
| `SchedulerCode.Scheduler.ReapChildren` | Kernel/processes/scheduler.c:284-297 | the loop empties the zombie list and the zombies' slots |
| `SchedulerCode.Scheduler.Yield` | Kernel/processes/scheduler.c:384-400 | the new state is `Yield` of the old; a running caller is last in the queue one level down with its count at 0 |
| `SchedulerCode.Scheduler.WaitpidBegin` | Kernel/processes/scheduler.c:402-423 | the new state is `WaitBegin` of the old: refused, asleep, or done with the child's result |
| `SchedulerCode.Scheduler.WaitpidFinish` | Kernel/processes/scheduler.c:425-447 | the new state is `WaitFinish` of the old, and the child's result is returned |
| `SchedulerCode.Scheduler.FindZombie` | Kernel/processes/scheduler.c:427-437 | the walk stops at the first zombie with the pid, or past the end |
| `SchedulerCode.Scheduler.KillForegroundProcess` | Kernel/processes/scheduler.c:374-377 | only the Ctrl+C flag is raised |
| `PipeSpec.DrainFifo` | Kernel/pipes/pipe.c:204-216 | a transfer out yields the oldest bytes in order, and the end marker exactly when every byte before it is taken; the marker stays |
| `PipeSpec.FillFifo` | Kernel/pipes/pipe.c:253-263 | a transfer in takes the first bytes of the data, up to its first end marker or a full pipe |
| `PipeCode.LiveIsData` | Kernel/include/pipe.h:10 | no live slot holds the end marker |
| `PipeCode.TakeByte` | Kernel/pipes/pipe.c:206-215 | taking the oldest byte out keeps all slots but the one at `bufferPosition` free of the end marker |
| `PipeCode.PutByte` | Kernel/pipes/pipe.c:255-262 | putting a byte in keeps that too, and the end marker goes to `bufferPosition` without being counted |
| `PipeCode.Pipe.Drained` | Kernel/pipes/pipe.c:204-216 | the inner read loop over the ring is that transfer out |
| `PipeCode.Pipe.Filled` | Kernel/pipes/pipe.c:253-263 | the inner write loop over the ring is that transfer in |
| `PipeCode.Pipe.Read` | Kernel/pipes/pipe.c:169-192 | refused, or the pipe after reading to the end of the call or its first sleep |
| `PipeCode.Pipe.ReadFromWriter` | Kernel/pipes/pipe.c:180-192 | a reader on an empty pipe that has no writer yet sleeps in the first loop, and comes back to it |
| `PipeCode.Pipe.ReadOn` | Kernel/pipes/pipe.c:194-223 | the outer read loop transfers, wakes the writer and sleeps as specified |
| `PipeCode.Pipe.ReadAgain` | Kernel/pipes/pipe.c:202-225 | a woken reader goes on with a transfer, without looking first |
| `PipeCode.Pipe.Write` | Kernel/pipes/pipe.c:228-236 | refused, or the pipe after writing to the end of the call or its first sleep |
| `PipeCode.Pipe.WriteOn` | Kernel/pipes/pipe.c:238-270 | the outer write loop transfers, wakes the reader and sleeps as specified, and stops for good at an end marker |
| `PipeCode.Pipe.WriteAgain` | Kernel/pipes/pipe.c:248-272 | a woken writer goes on with a transfer |
| `PipeCode.Pipe.OpenInput` | Kernel/pipes/pipe.c:84-97 | the writer's end is taken, or refused to another pid; a sleeping reader wakes |
| `PipeCode.Pipe.OpenOutput` | Kernel/pipes/pipe.c:98-111 | the reader's end is taken, or refused to another pid; a sleeping writer wakes |
| `PipeCode.Pipe.CloseInput` | Kernel/pipes/pipe.c:138-144 | behind the end marker the writer's end is shut and a sleeping reader wakes |
| `PipeCode.Pipe.CloseOutput` | Kernel/pipes/pipe.c:149-155 | the reader's end is shut and a sleeping writer wakes |
| `PipeProtocol.StepOk` | Kernel/pipes/pipe.c:57-273 | every step of a reader and a writer keeps the FIFO and the sleepers' invariant |
| `PipeProtocol.Fifo` | Kernel/pipes/pipe.c:169-273 | in every run, bytes written are bytes read and then the live bytes; a sleeping reader faces an empty pipe without an end, a sleeping writer a full one; they never sleep at once, and the flag is up exactly while one sleeps |
| `PipeProtocol.OpenWakes` | Kernel/pipes/pipe.c:84-111 | opening an end takes that end alone and wakes whoever sleeps on the other |
| `PipeProtocol.CloseFrees` | Kernel/pipes/pipe.c:149-162 | the reader's close shuts its end alone, wakes a sleeping writer and frees the pipe |
| `PipeProtocol.WriterWakesReader` | Kernel/pipes/pipe.c:238-270 | the writer's next step moves a byte and wakes a sleeping reader |
| `PipeProtocol.ReaderWakesWriter` | Kernel/pipes/pipe.c:194-223 | the reader's next step moves a byte and wakes a sleeping writer |
| `PipeProtocol.ReadReturns` | Kernel/pipes/pipe.c:169-226 | a finished read returns the next bytes of the stream, all that were asked for unless the end marker stands last, and then everything written has been read |
| `PipeProtocol.EndIsFinal` | Kernel/pipes/pipe.c:238 | once the end marker is in, nothing more is written and it stays |
| `PipeProtocol.StrayExactly` | Kernel/pipes/pipe.c:134-144 | a step writes to the freed pipe exactly as the writer's `pipe_close` resumes in it |
| `PipeStray.StrayRuns` | Kernel/pipes/pipe.c:128-162 | a run from the start has such a write behind it exactly if the writer closed a full pipe, the reader closed before the end marker was in, and the writer resumed |
| `PipeStray.ClosingWhen` | Kernel/pipes/pipe.c:134-138 | in every run, while the pipe is there, the writer is inside its close exactly since it closed a full pipe that was full again at every resumption |
| `PipeStray.MishapStrays` | Kernel/pipes/pipe.c:57-167 | such a run: both ends open, a pipeful is written, the writer closes, the reader closes, the writer resumes |
| `PipeProtocol.CloseSleeps` | Kernel/pipes/pipe.c:134-144 | that write sleeps exactly in a full pipe; otherwise the end marker is in, the end is shut and nobody sleeps |
| `PipeProtocol.FullCloseStrays` | Kernel/pipes/pipe.c:128-162 | from any full pipe with both ends open and idle, closing the writer's end and then the reader's does lead there |
| `PipeTable.IdsAreSlots` | Kernel/pipes/pipe.c:275-283 | ids and slots correspond, and no id overflows 16 signed bits |
| `PipeTable.InUseAtMost` | Kernel/pipes/pipe.c:32-40 | the count of slots in use is the table's size exactly when none is free |
| `PipeTable.PipeManager.constructor` | Kernel/pipes/pipe.c:18-28 | no pipe is open |
| `PipeTable.PipeManager.Get` | Kernel/pipes/pipe.c:30-55 | a new pipe in the first free slot from `lastFreePipe` on, whose id leads back to it and to no other; -1 exactly without memory or a free slot |
| `PipeTable.PipeManager.Find` | Kernel/pipes/pipe.c:37-40 | the scan ends, at the first free slot |
| `PipeTable.PipeManager.ById` | Kernel/pipes/pipe.c:285-293 | the pipe in the slot of the id |
| `PipeTable.PipeManager.Ensure` | Kernel/pipes/pipe.c:59-82 | an id without a pipe gets one, and the count stays exact |
| `PipeTable.PipeManager.Release` | Kernel/pipes/pipe.c:157-159 | the slot is emptied, and the count stays exact |
| `SemaphoreSpec.UpOk` | Kernel/semaphores/semaphores.c:244-257 | a post keeps the invariant and wakes the head of the queue |
| `SemaphoreSpec.DownOk` | Kernel/semaphores/semaphores.c:259-282 | a try of `down`, first or repeated, passing, sleeping or failing for memory, keeps it |
| `SemaphoreSpec.NoLostWakeup` | Kernel/semaphores/semaphores.c:222-282 | in every run, failing tries included, while processes sleep the counter is at most the number woken and not yet back |
| `SemaphoreSpec.Tokens` | Kernel/semaphores/semaphores.c:244-282 | over every run the counter plus the waits passed is the initial value plus the posts, if and only if no post overflows the counter |
| `SemaphoreOrder.ZeroSleeps` | Kernel/semaphores/semaphores.c:262-275 | a process that finds 0 sleeps, the counter stays 0, and it cannot try again until it is woken |
| `SemaphoreOrder.ZeroFails` | Kernel/semaphores/semaphores.c:266-272 | one refused its queue node leaves, and nothing else changes |
| `SemaphoreOrder.PositivePasses` | Kernel/semaphores/semaphores.c:278-281 | one that finds more takes exactly one off and is through |
| `SemaphoreOrder.PostWakes` | Kernel/semaphores/semaphores.c:244-257 | a post adds one and wakes exactly one sleeper if there is any, who can then try again; an overflow leaves 0 and wakes nobody |
| `SemaphoreOrder.FirstAsleepFirstWoken` | Kernel/semaphores/semaphores.c:222-282 | in every run those woken, then those still asleep, each once, are those that fell asleep, in the order in which they did |
| `SemaphoreCode.SemaphoreCell.AcquireMutex` | Kernel/semaphores/semaphores.c:201-214 | sleeps exactly when the lock was held |
| `SemaphoreCode.SemaphoreCell.ResumeFirstAvailable` | Kernel/semaphores/semaphores.c:222-236 | the first live process leaves the queue and wakes, and all before it leave |
| `SemaphoreCode.SemaphoreCell.Post` | Kernel/semaphores/semaphores.c:244-257 | the new state is `Up` of the old, the lock is free again and nobody queues for it |
| `SemaphoreCode.SemaphoreCell.Wait` | Kernel/semaphores/semaphores.c:259-282 | the new state is `Down` of the old: a caller that finds 0 is last in the queue and blocked, one that passes takes one, and the lock is free with nobody queueing for it |
| `MVar.StepGood` | Userland/shell/commands/mvar.c:68-162 | every step of any writer or reader, ending on a failed wait included, keeps one token, the lock with its holder, and reads in step with writes; a writer at the cell stores its own letter, a reader takes what is there, and no other step touches cell or logs |
| `MVar.StepAtCell` | Userland/shell/commands/mvar.c:89-148 | a writer at the cell stores its own letter, a reader takes what is there, and no other step touches the cell or the logs; nobody changes role or letter |
| `MVar.StepAtSemaphore` | Userland/shell/commands/mvar.c:75-158 | a writer waits at the writers' gate and posts the readers', a reader the reverse, both hold the lock around the cell, and each step touches just its one semaphore |
| `MVar.Linearizes` | Userland/shell/commands/mvar.c:127-162 | in every run of any readers and writers, READ.value + WRITE.value + processes in flight is 1, no two are at the cell together, and the values read are those written but for at most the last |
| `MVar.RunWrites` | Userland/shell/commands/mvar.c:68-104 | over every run the values written are the writers' letters in the order of their turns at the cell |
| `MVar.LettersAreRead` | Userland/shell/commands/mvar.c:89-148 | from the start, the values seen are those letters in that order but for at most the last, and each is the letter of some writer |
| `MVar.Alternates` | Userland/shell/commands/mvar.c:89-148 | a write finds everything read, a read takes the one value unread |
| `MVar.NoDeadlock` | Userland/shell/commands/mvar.c:68-162 | with a writer and a reader that have not ended, some process that is awake goes on to its next place, however short memory is |
| `MVar.OnlyGatesFail` | Userland/shell/commands/mvar.c:75-102 | a process can end only on a wait at its gate: the lock is free to whoever comes to it and no post overflows |
| `MVar.InitialGood` | Userland/shell/commands/mvar.c:198-211 | the semaphores as created satisfy the invariant |

## Left out

- Buddy list links: the circular `free_list_node` links are sequences here, one per order; flags and orders are kept per page record. The 64-bit wrap of addresses is not modelled.
- FirstFitMemory.Manager: calls before a successful `mm_init` (a NULL `freeList`) are not modelled.
- Scheduler queues: `SchedulerCode` holds each list as a sequence of identified nodes; `Lists.List` proves that the linked lists carry such sequences. Process records are values in the table, not shared objects.
- SchedulerCode.Scheduler.SetPriority: the branch for a failed `list_append` is left out: `list_remove` has just freed a node of the same size, and `BuddyMemory.Manager.FreeThenAlloc` and `FirstFitMemory.Manager.FreeThenAlloc` prove that `mm_alloc` then succeeds.
- SchedulerCode.Scheduler.SetStatus: the branches for a failed `list_append` or `list_prepend` are left out on the same two theorems.
- SchedulerCode.Scheduler.KillProcess: the branch for a failed `list_append` is left out on the same two theorems, which let any further frees, such as those of the reaped children, come in between. Pipe descriptors are left out too; their closing is in the pipe model.
- SchedulerCode.Scheduler.CreateProcess: a full table less one is shut out by its precondition, as the pid search would not end (`SchedulerSteps.FreeSlotFound`).
- SchedulerSteps.CreateKeeps: likewise.
- SchedulerCode.Scheduler.WaitpidBegin: a call by the idle process is shut out; it cannot be blocked and makes no such call.
- BuddyMemory.Manager.MmFree: a pointer into a later page of a live block is shut out; such a page keeps a stale order, which the source would free.
- SchedulerCode.Scheduler.Schedule: stack pointers and the `first_time` flag that guards them, and the 16-bit wrap of the remaining quantum while there are no processes at all.
- Process names, arguments, stacks and `get_process_info`: opaque to these properties.
- PipeProtocol: a pipe freed while its writer sleeps is not followed into a new pipe that takes its slot, nor a write into the freed one into whatever takes its memory.
- SemaphoreCode.SemaphoreCell.AcquireMutex: a refused queue node, on which the source spins, is not modelled; the lock is proved never to be contended.
- The semaphore table (`sem_init`, `sem_open`, `sem_close`, `sem_destroy`): only range and NULL checks around the above.
- Boot code, module and file loading, interrupt tables, devices, console, font, clock, shell parsing and string helpers: hardware, files or output.
