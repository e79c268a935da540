# Models of an allocator, a scheduler, a parallel Game of Life and two pieces of process management

This project states and proves what the hard parts of the repository do.  Each part has its own
modules, and they share nothing but `Common`.

## The coalescing allocator (ByteHeap, Blocks, BlockLemmas, Ring, CoalescingAllocator, AllocatorAnswers, AllocatorRuns, AllocatorPrograms, AllocatorExamples)

`HW4/malloc_3.cpp` keeps block headers inside the heap they describe.  The model does the same: the
heap is a sequence of bytes, headers are read and written in it byte by byte, and the class
`Allocator` has the source's globals as fields and one method for each function.  Every method is
proved against a list of blocks, on which first fit, splitting, merging and growth are plain
functions.  The class invariant says that the headers form one doubly linked ring in address order,
that the blocks tile the heap from its base to the break, that no two neighbours are free, and that
the incremental counters equal a recount.  The layout is that of a 32-bit machine: pointers and
`size_t` have 4 bytes, `long long` has 8, a header has 24.

`sbrk` either moves the break and yields fresh zero bytes, or returns the failure value; a parameter
`grant` decides when it is allowed to succeed.

What the code does beyond, or other than, what one would expect of malloc:

* Line 278 tests the first word of the block found instead of the pointer.  A free block that fits and
  whose payload starts with the bytes of -1 is marked in use and never returned: malloc answers NULL.
  `MallocSucceedsIff` has the exact condition.
* When realloc cannot grow the last block it returns the failure value of `sbrk`, not NULL;
  `ReallocFailsIff` has the condition.
* calloc multiplies in 32 bits; `CallocCoversIff` says when the block covers the array.

`AllocatorExamples` has a short program for each of the three.  `AllocatorAnswers` says in numbers, block by
block, what malloc, free and realloc make of the heap.

`AllocatorPrograms` puts the calls together.  To a program that uses only the pointers it holds, and
only the bytes it asked for, the heap is a map from pointers to contents: `Execute` shows this for every
program, which may choose each call by the answers it has had.

## The Game of Life (PcQueue, Life, Tiling, GameMachine, GameInvariant, GameMainSteps, GameWorkerSteps, GameRuns, GameFairness, MonitorGame, MonitorFairness)

The queue of `HW3/PCQueue.hpp` is a step machine of its own, in which a step is one action on the
mutex, a condition variable or the queue, and waiting threads may wake spuriously.  The game is a
second one: a step writes one cell, pushes or pops one job, or executes one statement on the shared
variables, and any thread may go next.  The main results are that every interleaving computes
the sequential generations, and that every fair one ends.

In the game machine a push or pop is a single step.  `MonitorGame` composes the two machines: a thread
inside push or pop goes through the steps of the monitor.  `MonitorFairness` has the main results for
the composition; there every strongly fair schedule ends the game.  A thread that can go, other than by
a spurious wakeup, again and again must go again and again; how the mutex chooses among those who
wait for it is left to the schedule.  Reads and writes of `finished` and of the counter are
taken as atomic, the board is a non-empty rectangle, and at least one thread is asked for; no more are
started than there are rows.

## The scheduler (RunQueues, SchedMath, Scheduler, SchedPick, SchedPolicy, ShortLife, SchedYield, ShortCalls, LoadBalance, Balancer, SmpScheduler, SchedExamples)

`HW2/kernel/sched.c` extends the O(1) scheduler with SCHED_SHORT.  Tasks, priority arrays and
runqueues are classes; each locked section is a method.  `Runqueue.Valid` is the invariant: a bit is
set exactly when its queue has a task, counts are totals, a queued task is exactly once in the queue
of its key in the array it names, SHORT tasks are only in the SHORT array, real-time tasks never in
the expired one, and priorities, slices and times are in their ranges.  Every operation keeps it.
The ghost map `slot` of an array names the queue of each of its tasks.  HZ is any number from 100 on.

Where the code departs from its comments:

* `set_user_nice` means to reschedule when a task gains priority, but compares the new static
  priority with itself; only a change of the current task itself marks it
  (`SetUserNice`, and `NiceMissesReschedule` for an instance).
* The table beside TASK_INTERACTIVE lists seven interactive levels for nice -10; C's rounding toward
  zero gives six (`InteractiveTable`).
* `try_to_wake_up` compares the `prio` fields of SHORT tasks, which do not order them; that can only
  cause additional reschedules (`PreemptsIff`, and `NeedlessReschedule` for an instance).
* The current SHORT task always has place 0, whatever its index (`CurrentIsNotFirst` has an instance).
* Between its two looks at the lengths load_balance may drop its lock, and then it can make this
  runqueue the longer one (`OvershotAfterRelock`); otherwise it cannot (`NotOvershot`).

## Process ids (PidAllocator)

`get_pid` in `HW2/kernel/fork.c` (the same as in `HW1/kernel/fork.c`), with PID_MAX 0x8000.  One
property fails and has its exact condition here: after a failing call the cached gap may be wrong, and
the next call may then hand out an id in use; the next scan repairs the gap (`GapAlways`).  The scan
ends from 300 on, or when a higher id is free; on every history from boot one of the two holds
(`ScanAlwaysEnds`).

## Process tree (ProcessTree, ProcessLinks)

`forget_original_parent` and the loop of `exit_notify` in `HW1/kernel/exit.c`, and the link macros of
`HW1/include/linux/sched.h`.  Ghost maps hold the links of all tasks as values; the lists of children
are sequences.  While the loop runs, the next child in line keeps a stale p_ysptr until its own turn;
the invariant says so.

## Model

| member | source | states |
|---|---|---|
| `ByteHeap.DecodeEncodeU32` | HW4/malloc_3.cpp:10-17 | A pointer stored into a header in the byte heap is read back unchanged |
| `ByteHeap.DecodeEncodeI64` | HW4/malloc_3.cpp:10-17 | So is a 64-bit size, negative ones included |
| `ByteHeap.HeaderInBytes` | HW4/malloc_3.cpp:10-17 | Which bytes of a header hold the flag, the start, the size in two's complement, next and prev, least significant byte first |
| `ByteHeap.StoreKeepsEmbedded` | HW4/malloc_3.cpp:165-173 | A store inside one header leaves every other header as it was |
| `BlockLemmas.MergeOrder` | HW4/malloc_3.cpp:140-145 | Merging p with its lower neighbour and then the result with the upper one gives what merging upwards first gives |
| `BlockLemmas.CoalesceKeeps` | HW4/malloc_3.cpp:131-151 | Two-sided merging of one free block leaves blocks that tile the heap with no two adjacent free ones, and keeps every block in use |
| `BlockLemmas.SplitKeeps` | HW4/malloc_3.cpp:153-176 | The split list tiles the heap with 4-aligned blocks and no two adjacent free ones, whether or not the rest merges with a free successor; the cut block is in use with exactly the requested size; all other blocks in use are kept |
| `BlockLemmas.AllocateKeeps` | HW4/malloc_3.cpp:228-306 | Serving a request by reuse, split, wilderness growth or append keeps the block invariant; the served block is in use, was not in use before, is large enough and wastes less than META + 128 bytes |
| `BlockLemmas.ReleaseKeeps` | HW4/malloc_3.cpp:310-326 | Freeing a block in use keeps the block invariant and every other block in use |
| `BlockLemmas.AbsorbKeeps` | HW4/malloc_3.cpp:367-368 | Taking over a free successor keeps the block invariant and every other block in use |
| `Blocks.BytesAccount` | HW4/malloc_3.cpp:35-63 | Allocated bytes plus META for each block are exactly the bytes between the heap base and the break |
| `Blocks.FreeIsPart` | HW4/malloc_3.cpp:35-48 | Free blocks and free bytes never exceed allocated blocks and bytes |
| `Blocks.RecountOneMore` | HW4/malloc_3.cpp:35-63 | What one more block adds to each of the four counters |
| `Ring.ConnectedLinks` | HW4/malloc_3.cpp:108-110 | After the pointer stores of connect the headers still form one doubly linked ring of the merged block list, the two-node ring included |
| `Ring.CutLinks` | HW4/malloc_3.cpp:165-173 | After the pointer stores of split the headers form one ring of the split block list |
| `Ring.AppendLinks` | HW4/malloc_3.cpp:295-303 | After the pointer stores of the tail append the headers form one ring with the new block last |
| `Ring.GrowLinks` | HW4/malloc_3.cpp:192-194 | Growing the last block keeps the ring |
| `Ring.PayloadKept` | HW4/malloc_3.cpp:153-176 | Writes confined to headers and to no live block leave the payload bytes of every block in use as they were |
| `CoalescingAllocator.Allocator.SetFree` | HW4/malloc_3.cpp:83-92 | Sets the flag; the free counters change by this block exactly when it was in use; no byte outside the flag changes |
| `CoalescingAllocator.Allocator.SetUsed` | HW4/malloc_3.cpp:93-102 | The reverse, exactly when the block was free |
| `CoalescingAllocator.Allocator.Connect` | HW4/malloc_3.cpp:104-129 | Absorbing a free neighbour merges two entries of the block list; the ring, the counters and every byte outside headers stay right in both branches on the first block |
| `CoalescingAllocator.Allocator.CheckIfFreeAndConnect` | HW4/malloc_3.cpp:131-151 | The free block ends up merged with each free neighbour, never across the ends of the ring; the full invariant holds afterwards |
| `CoalescingAllocator.Allocator.Split` | HW4/malloc_3.cpp:153-176 | The block is cut to the requested size and the rest becomes free, merged with a free successor; invariant, counters and payloads kept |
| `CoalescingAllocator.Allocator.Wilderness` | HW4/malloc_3.cpp:178-196 | The free last block grows to the request, or nothing changes and the failure value of sbrk is returned |
| `CoalescingAllocator.Allocator.FirstAllocation` | HW4/malloc_3.cpp:199-224 | An empty heap becomes a ring of one block in use, or stays empty when the break cannot move |
| `CoalescingAllocator.Allocator.FindFreeAllocationAddress` | HW4/malloc_3.cpp:228-254 | The search finds the lowest free block that fits, reuses or splits it, else grows a free last block, else answers NULL |
| `CoalescingAllocator.Allocator.Append` | HW4/malloc_3.cpp:289-304 | Behind the moved break: a new block in use after the last one; ring, counters and payloads kept |
| `CoalescingAllocator.Allocator.Malloc` | HW4/malloc_3.cpp:256-306 | The result and the new block list are those of the abstract malloc; the invariant holds, and the payload bytes of blocks in use are unchanged |
| `CoalescingAllocator.Allocator.Free` | HW4/malloc_3.cpp:310-326 | A block in use is released and merged; NULL changes nothing; payloads of other blocks are unchanged |
| `CoalescingAllocator.Allocator.Calloc` | HW4/malloc_3.cpp:328-341 | As malloc of the product modulo 2^32, and the bytes of the product are zero |
| `CoalescingAllocator.Allocator.ReallocInPlace` | HW4/malloc_3.cpp:353-388 | Shrinking, absorbing the successor and growing the last block, in this order, with the early returns of the code |
| `CoalescingAllocator.Allocator.MoveInto` | HW4/malloc_3.cpp:394-397 | The old bytes are copied and the old block is freed; the copy is intact afterwards |
| `CoalescingAllocator.Allocator.Realloc` | HW4/malloc_3.cpp:343-400 | The result and block list are those of the abstract realloc; the first min(old size, rounded size) bytes are preserved on all four strategies; all other payloads are unchanged, and the old one too when no block is returned |
| `AllocatorAnswers.MallocRecycles` | HW4/malloc_3.cpp:228-246 | The lowest free block that is large enough serves the request; it is cut exactly when the rest has room for a header and 128 bytes; four 0xff bytes at its front make the answer NULL; all blocks and the pointer in numbers |
| `AllocatorAnswers.MallocExtends` | HW4/malloc_3.cpp:247-306 | Otherwise a free last block grows by what it lacks or a new block is appended, or nothing changes when the break cannot move |
| `AllocatorAnswers.FreeMerges` | HW4/malloc_3.cpp:310-326 | The freed block and its free neighbours become one free block from the start of the first to the end of the last |
| `AllocatorAnswers.ReallocShrinks` | HW4/malloc_3.cpp:360-364 | A block that is large enough stays, and is cut exactly when the rest has room for a header and 128 bytes; that rest merges with a free successor |
| `AllocatorAnswers.ReallocAbsorbs` | HW4/malloc_3.cpp:366-373 | If the room up to the end of a free successor is enough, the old pointer is the answer, whether the break can move or not; the block ends where the successor did or is cut to the request |
| `AllocatorAnswers.ReallocGrows` | HW4/malloc_3.cpp:375-388 | A last block that is too small grows to the request, or the answer is -1 and nothing changes |
| `AllocatorAnswers.ReallocMoves` | HW4/malloc_3.cpp:389-398 | Else the answer is that of malloc, and the old block, still in the list, is freed unless it is NULL |
| `AllocatorAnswers.ReallocMovesIff` | HW4/malloc_3.cpp:343-400 | realloc answers with another pointer if and only if the block is too small, not the last one, has no free successor that would do, and malloc serves the request |
| `AllocatorRuns.MallocSucceedsIff` | HW4/malloc_3.cpp:256-306 | malloc returns a block if and only if the size is in range, a block fits or the break can move, and the payload to be recycled does not start with the word -1 |
| `AllocatorRuns.MallocIsFirstFit` | HW4/malloc_3.cpp:228-254 | The block returned is a fitting free block at the lowest address of all fitting ones |
| `AllocatorRuns.MinusOneLosesABlock` | HW4/malloc_3.cpp:276-283 | Whenever the block found starts with the word -1, malloc answers NULL and leaves that block marked in use |
| `AllocatorExamples.MinusOneExample` | HW4/malloc_3.cpp:276-283 | A run of the allocator in which that happens: a block filled with 0xff, freed, and asked for again |
| `AllocatorRuns.CallocCoversIff` | HW4/malloc_3.cpp:328-341 | The block calloc gets is as large as the array if and only if the product of the arguments is below 2^32 |
| `AllocatorExamples.CallocOverflow` | HW4/malloc_3.cpp:328-341 | 65536 elements of 65537 bytes: a block of 65536 bytes is returned |
| `AllocatorRuns.ReallocFailsIff` | HW4/malloc_3.cpp:375-387 | realloc returns the failure value of sbrk if and only if the block is the last one, too small, and the break cannot move |
| `AllocatorRuns.ReallocSucceedsIff` | HW4/malloc_3.cpp:343-400 | realloc returns a block if and only if the old one is large enough, can absorb its successor, is last and can grow, or is not last and malloc would serve the request |
| `AllocatorExamples.ReallocFails` | HW4/malloc_3.cpp:375-387 | A run in which realloc returns that failure value, which is not NULL |
| `AllocatorExamples.Absorbs` | HW4/malloc_3.cpp:366-373 | A run in which a block of 8 bytes becomes one of 120 in place, by taking over 100 bytes and a header, where the break cannot move |
| `AllocatorRuns.ReallocBlock` | HW4/malloc_3.cpp:343-400 | The block realloc returns has at least the rounded size and less than META + 128 bytes more, on every strategy |
| `AllocatorRuns.EveryStateIsWellFormed` | HW4/malloc_3.cpp:256-400 | In every state of every run of malloc, calloc, free and realloc the blocks tile the heap, are 4-aligned, and no two neighbours are free (runs of block lists; AllocatorPrograms.Execute has runs of the class with its ring and counters) |
| `AllocatorRuns.PayloadsAreDisjoint` | HW4/malloc_3.cpp:256-400 | A byte of one payload belongs to no other payload and to no header |
| `AllocatorRuns.AlignedToBase` | HW4/malloc_3.cpp:262-266 | Every header and payload is a multiple of 4 away from the heap base |
| `AllocatorPrograms.Perform` | HW4/malloc_3.cpp:256-400 | Each call keeps the heap in agreement with a map from the pointers the program holds to their contents: new pointers are new, realloc carries the common prefix over, everything else stays |
| `AllocatorPrograms.Execute` | HW4/malloc_3.cpp:256-400 | Any program, choosing each call by the answers so far, sees only answers such a map explains; no byte ever belongs to two pointers; the class invariant holds at the end, so after every prefix |
| `AllocatorPrograms.HeldApart` | HW4/malloc_3.cpp:256-400 | The bytes behind two pointers a program holds never overlap |
| `AllocatorPrograms.LoadSeesStore` | HW4/malloc_3.cpp:343-400 | In every such run a byte stored is read back unless it is stored again or its block is freed or reallocated in between |
| `AllocatorPrograms.ReallocCarriesOver` | HW4/malloc_3.cpp:343-400 | In every run realloc keeps each byte that both sizes have room for, and changes nothing when it answers 0 or -1 |
| `PcQueue.InvStep` | HW3/PCQueue.hpp:27-62 | Every action of every thread, spurious wakeups included, keeps the monitor invariant |
| `PcQueue.Fifo` | HW3/PCQueue.hpp:75-113 | In every interleaving the items taken are a prefix of the items pushed, and the rest is in the queue in order |
| `PcQueue.CountersZeroWhenFree` | HW3/PCQueue.hpp:27-62 | All three inside/waiting counters are zero whenever the mutex is free |
| `PcQueue.NoLostWakeup` | HW3/PCQueue.hpp:37-54 | With the mutex free, a sleeping consumer that nobody has notified means an empty queue |
| `PcQueue.SomeoneCanMove` | HW3/PCQueue.hpp:27-113 | As long as some call could complete, some thread can take a step without a spurious wakeup |
| `PcQueue.StepIsAtomic` | HW3/PCQueue.hpp:75-113 | Each step of the monitor is no step or exactly one step of an atomic queue, taken once by the call it belongs to: push stores the item it was given, pop returns the first one |
| `Life.ClippedWindow` | HW3/Life_Thread.cpp:28-58 | Counting in the clipped window gives the number of live cells among the eight neighbours, for width 1 and height 1 too |
| `Life.CalculateLiveNeighbours` | HW3/Life_Thread.cpp:19-62 | The loops count exactly the live neighbours |
| `Life.CalculateNextGenerationMatrix` | HW3/Life_Thread.cpp:64-89 | The rows of the job hold the next generation, cell by cell by Conway's rule over the set of live cells around; all other rows of the target are unchanged |
| `Life.ConwayRule` | HW3/Life_Thread.cpp:79-85 | A cell is alive next if and only if three of the cells around it are, or it is alive and two are; the cells around it are a set, given by their coordinates |
| `Life.GenerationIsConway` | HW3/Life_Thread.cpp:64-89 | Each generation of the reference follows from the one before by that rule, starting from the board itself |
| `Tiling.TilesCover` | HW3/Game.cpp:127-136 | The jobs of one generation are consecutive, non-empty and cover all rows, one for each thread |
| `Tiling.OneTileAtMost` | HW3/Game.cpp:127-136 | No row is in two jobs |
| `Tiling.TileAt` | HW3/Game.cpp:127-136 | Every job has height / n rows, the last one the remainder too |
| `Tiling.PushJobs` | HW3/Game.cpp:125-136 | The loop of _step produces these jobs in this order |
| `GameMainSteps.MainKeeps` | HW3/Game.cpp:62-85 | Every step of the main thread keeps the invariant of the game |
| `GameWorkerSteps.WorkerKeeps` | HW3/Life_Thread.cpp:93-127 | Every step of a worker, one cell at a time, keeps the invariant of the game |
| `GameRuns.RunKeeps` | HW3/Game.cpp:62-143 | The invariant holds in every state of every interleaving |
| `GameRuns.StepRefinesLife` | HW3/Game.cpp:125-143 | When _step returns for the k-th time the current board is the sequential board after k generations, for every schedule, with push and pop as single steps |
| `GameRuns.GameRefinesLife` | HW3/Game.cpp:105-143 | The same for every number of threads asked for, clamped to the number of rows |
| `GameRuns.BoardsObeyConway` | HW3/Game.cpp:62-143 | In every run and for every schedule the current boards of two consecutive generations are related by Conway's rule in every cell; the first is the given one, the last has the number of generations asked for |
| `GameRuns.FinalState` | HW3/Game.cpp:62-85 | After the joins: the final board, every worker gone, one null job left, generations × threads tile records |
| `GameRuns.NullJobsOnlyAtTheEnd` | HW3/Game.cpp:78-81 | A null job is in the queue only after `finished`, no worker uses one as a job, and then no real job is left anywhere |
| `GameRuns.WritesStayInTheTile` | HW3/Life_Thread.cpp:77-87 | A worker never writes the board that is read, and writes the other one only in the rows of its own job |
| `GameRuns.RecordsNameTheirWorker` | HW3/Life_Thread.cpp:112-122 | A tile record is added at the end only, by the worker that has counted a job, under its own number and for its own generation |
| `GameRuns.TilesInUseDiffer` | HW3/Life_Thread.cpp:93-104 | Two workers at work have different jobs |
| `GameRuns.NeverStuck` | HW3/Game.cpp:125-154 | Until the main thread is done some thread can take a step that is not idle spinning |
| `GameRuns.BoundedWork` | HW3/Game.cpp:62-85 | Every schedule makes a bounded number of such steps |
| `GameFairness.FairReachesDone` | HW3/Game.cpp:62-85 | With push and pop as single steps, weak fairness is enough for the main thread to be done in the end |
| `GameFairness.FairGameEnds` | HW3/Game.cpp:62-154 | The same as a whole, for every board and number of threads asked for: sequential board, all workers exited, generations × threads tile records; MonitorFairness has it with the steps of the monitor |
| `GameFairness.FairScheduleExists` | HW3/Game.cpp:62-154 | Every configuration has a weakly fair schedule |
| `GameRuns.CanFinish` | HW3/Game.cpp:62-85 | Every state that meets the invariant, so every reachable one, can be continued to the end |
| `MonitorGame.Simulates` | HW3/PCQueue.hpp:75-113 | Each step of the game with its monitor is no step or one step of the game, by the same thread |
| `MonitorGame.StepKeeps` | HW3/PCQueue.hpp:27-113 | Each such step keeps the invariants of game and monitor, their common queue, and for every thread inside a call what it is about to store or take |
| `MonitorFairness.MonitorRefinesLife` | HW3/Game.cpp:125-143 | With mutex, conditions and spurious wakeups in between, the current board is the sequential one in every state of every schedule |
| `MonitorFairness.MonitorObeysConway` | HW3/Game.cpp:62-143 | And they are related by Conway's rule in every cell |
| `MonitorFairness.MutexFree` | HW3/PCQueue.hpp:27-62 | Under every strongly fair schedule the mutex is free again and again |
| `MonitorFairness.ReachesDone` | HW3/Game.cpp:62-85 | Under every strongly fair schedule of the game with its monitor the main thread is done in the end |
| `MonitorFairness.FairMonitorGameEnds` | HW3/Game.cpp:62-154 | For every board, number of threads and strongly fair schedule the game with its monitor ends: sequential board, all workers exited, generations × threads tile records |
| `MonitorFairness.CanFinish` | HW3/Game.cpp:62-154 | From every state that meets the invariants the game with its monitor can be taken to its end, with the mutex free |
| `MonitorFairness.FairScheduleExists` | HW3/Game.cpp:62-154 | Every configuration has a strongly fair schedule |
| `PidAllocator.Allocator.Scan` | HW2/kernel/fork.c:107-131 | The restarting scan ends; success gives an id that is none of the four ids of any task, while all ids passed over in cyclic order are, with the gap re-established; failure means all others are in use |
| `PidAllocator.Allocator.GetPid` | HW2/kernel/fork.c:88-142 | With the gap, a non-zero result differs from pid, pgrp, tgid and session of every task, all ids passed over are among those, and the gap is re-established; what a result of 0 and each path mean |
| `PidAllocator.Allocator.Round` | HW2/kernel/fork.c:107-121 | One round of the scan keeps a free candidate and replaces a used one by its successor with the wrap |
| `PidAllocator.ScanAlwaysEnds` | HW2/kernel/fork.c:98-131 | On every history from boot, failing calls included, the scan of the next call ends: below 300 the next id is free, from 300 on the scan comes round |
| `PidAllocator.ScanForever` | HW2/kernel/fork.c:107-121 | Without that fact the rounds could go on for ever: below 300 with every id above in use each candidate is in use and none is the starting point |
| `PidAllocator.GrantIsUnique` | HW2/kernel/fork.c:98-131 | The grant is determined by the tasks and the previous id |
| `PidAllocator.GrantInWords` | HW2/kernel/fork.c:107-131 | What granting an id means, in terms of the four ids of each task |
| `PidAllocator.ForkGetsNewId` | HW2/kernel/fork.c:88-136 | On every history each fork gets an id that is none of the four ids of any task, unless it takes it from a spoilt gap |
| `PidAllocator.PidsDiffer` | HW2/kernel/fork.c:88-142 | On every history from boot without such a fork all tasks have different pids, in every state |
| `PidAllocator.GrantExcludesFailure` | HW2/kernel/fork.c:118-119 | Success and failure are exclusive |
| `PidAllocator.EventKeepsGap` | HW2/kernel/fork.c:88-136 | Exit, changes of group and session and every successful call keep the gap |
| `PidAllocator.GapAlways` | HW2/kernel/fork.c:88-141 | Over every history, failing calls included, the gap holds except after a failing call that left next_safe other than last_pid + 1, until a call has scanned |
| `PidAllocator.FastPathIsFree` | HW2/kernel/fork.c:103-133 | When the scan is skipped and the gap is not spoilt in this way, the id handed out is the one a full scan would find |
| `PidAllocator.AfterFailure` | HW2/kernel/fork.c:138-141 | After a failing call the gap holds if and only if next_safe is the successor of last_pid |
| `PidAllocator.DuplicateAfterFailure` | HW2/kernel/fork.c:113-141 | A full list, in the order of allocation, on which one call fails and the next hands out an id in use |
| `SchedMath.SliceRange` | HW2/kernel/sched.c:112-113 | Slices lie between the two limits, grow with priority and reach both limits |
| `SchedMath.SliceIsLinear` | HW2/kernel/sched.c:112-113 | Between the limits the slice goes down evenly with the static priority, in steps of a 39th |
| `SchedMath.BonusRange` | HW2/kernel/sched.c:259-260 | The bonus is between -5 and 5, and 0 at half the largest sleep average for every HZ |
| `SchedMath.BonusIsFifths` | HW2/kernel/sched.c:259-260 | The bonus is one level for each fifth of a second of average sleep, less five |
| `SchedMath.SleepersGain` | HW2/kernel/sched.c:248-260 | More sleep never lowers the bonus |
| `SchedMath.DynamicPriority` | HW2/kernel/sched.c:240-268 | The dynamic priority stays out of the real-time range and within 5 of the static one |
| `SchedMath.EffectiveInWords` | HW2/kernel/sched.c:240-268 | The dynamic priority in numbers: static priority plus five less those fifths, kept between 100 and 139; short_prio for SHORT tasks |
| `SchedMath.SleepIsCredited` | HW2/kernel/sched.c:270-294 | Sleep is added to the average in full, up to two seconds, and the priority follows; real-time and SHORT tasks get nothing |
| `SchedMath.SleepWraps` | HW2/kernel/sched.c:270-294 | Unless the sum exceeds a word, when 2^32 is lost |
| `SchedMath.InteractiveTable` | HW2/kernel/sched.c:76-101 | When TASK_INTERACTIVE holds at nice -20, -10, 0, 10 and 19; at -10 one level less than the table of its comment |
| `SchedMath.Demotion` | HW2/kernel/sched.c:825-836 | A SHORT task whose time is up becomes SCHED_OTHER with static priority min(old + 7, 139), exactly that dynamic priority and a slice within the limits |
| `ShortLife.ShortForItsTime` | HW2/kernel/sched.c:825-836 | Over any sequence of ticks, nice and policy calls, wake-ups and yields a SHORT task keeps all its fields but the time as long as fewer ticks than it had time have come, and the tick that uses up the last makes it SCHED_OTHER |
| `ShortLife.AffectedIsSound` | HW2/kernel/sched.c:749-843 | Each of these keeps priorities, slice and times of any task in their ranges |
| `SchedMath.RequestedTime` | HW2/kernel/sched.c:1298-1299 | A new SHORT task has at least one tick; the remaining time reported is within one tick below the request, and above it only for requests of less than a tick |
| `RunQueues.EnqueueTask` | HW2/kernel/sched.c:225-238 | The task is at the tail of the queue of its key; bitmap, count and p->array agree |
| `RunQueues.DequeueTask` | HW2/kernel/sched.c:213-223 | The task is out of its queue, the order of the others is kept, the bit is cleared exactly when the queue is empty |
| `RunQueues.IndexedAdded` | HW2/kernel/sched.c:225-238 | Adding keeps: bit k set iff queue k is non-empty, count = total length, every task in one place only |
| `RunQueues.IndexedWithout` | HW2/kernel/sched.c:213-223 | Removing keeps the same |
| `RunQueues.Swapped` | HW2/kernel/sched.c:896-904 | Exchanging the arrays when the active one is empty keeps every task in the array its class requires |
| `RunQueues.Runqueue.constructor` | HW2/kernel/sched.c:1733-1760 | An initial runqueue meets the invariant |
| `Scheduler.ActivateTask` | HW2/kernel/sched.c:270-294 | The task, with its sleep credited, is at the tail of the SHORT or active array; the invariant holds with it |
| `Scheduler.DeactivateTask` | HW2/kernel/sched.c:296-303 | The task is in no array, the invariant holds for the others |
| `Scheduler.PreemptsIff` | HW2/kernel/sched.c:398-408 | A woken task that outranks the current one in the order real-time, SHORT, SCHED_OTHER, idle always causes a reschedule; one that does not does so exactly when current is SHORT and has the larger prio field |
| `Scheduler.RankInWords` | HW2/kernel/sched.c:906-919 | That order, written with policies, prio and short_prio |
| `SchedExamples.NeedlessReschedule` | HW2/kernel/sched.c:398-408 | Two SHORT tasks, of which the one that ranks behind preempts the other |
| `Scheduler.TryToWakeUp` | HW2/kernel/sched.c:391-411 | Queues, fields and the reschedule flag after a wake-up where the task is, whether it sleeps or not; invariant kept |
| `Scheduler.SchedulerTick` | HW2/kernel/sched.c:771-836 | With time left the task keeps its place and mark; a round-robin task whose slice is over is last in its queue, marked, with a new slice; a SCHED_OTHER one is last among the expired tasks exactly when it is not interactive or they starve, both in numbers; a SHORT one is SCHED_OTHER, 7 levels nicer; all queues; invariant kept |
| `Scheduler.TickGoesOn` | HW2/kernel/sched.c:782-826 | Fields and queues after a tick that leaves time, for each policy |
| `Scheduler.TickGoesRound` | HW2/kernel/sched.c:782-790 | Fields and queues after the tick that ends a round-robin slice; the others keep their order |
| `Scheduler.TickExpires` | HW2/kernel/sched.c:807-822 | Queues and expired_timestamp after the tick that ends a SCHED_OTHER slice |
| `Scheduler.ExpiryFields` | HW2/kernel/sched.c:807-814 | The fields after it |
| `Scheduler.TickDemotes` | HW2/kernel/sched.c:826-836 | Fields and queues after the tick that ends a SHORT task's time |
| `SchedPick.FirstQueue` | HW2/kernel/sched.c:907-919 | The first set bit names a non-empty queue, and no queued task has a smaller key |
| `SchedPick.BestOfActive` | HW2/kernel/sched.c:908-919 | The head the code takes from the active array ranks first among all active and SHORT tasks |
| `SchedPick.BestOfShort` | HW2/kernel/sched.c:909-912 | So does the head of the first SHORT queue when no real-time task is queued |
| `SchedPick.BestInWords` | HW2/kernel/sched.c:906-919 | What the best task is, written with policies, prio, short_prio and the queues |
| `SchedPick.NothingQueued` | HW2/kernel/sched.c:885-893 | nr_running is 0 only when no task is queued |
| `SchedPick.PickNext` | HW2/kernel/sched.c:885-919 | Idle iff nothing is runnable, else the best task; the arrays are exchanged exactly when the active one was empty |
| `SchedPick.Schedule` | HW2/kernel/sched.c:868-940 | One pass: the previous task leaves iff it sleeps without a pending signal; the next one is the best; when the arrays are exchanged; expired tasks wait only behind active ones; queues, state and counts; invariant kept |
| `SchedPick.ScheduleUntilUnmarked` | HW2/kernel/sched.c:850-944 | The passes end; then the current task is not marked and is the best, or idle if nothing is runnable; no task is newly marked |
| `SchedPolicy.SetUserNice` | HW2/kernel/sched.c:1098-1136 | SHORT tasks keep their priority; others are requeued under the new one; the current task is marked exactly when it is the one that changes; invariant kept |
| `SchedExamples.NiceMissesReschedule` | HW2/kernel/sched.c:1124-1132 | A concrete runqueue on which another task, queued and runnable, comes to outrank the current one and the current one is not marked |
| `SchedPolicy.CheckPolicy` | HW2/kernel/sched.c:1235-1280 | Accepted exactly for the allowed changes; which error for bad SHORT parameters, for SHORT tasks and for real-time tasks |
| `SchedPolicy.ShortStaysShort` | HW2/kernel/sched.c:1249-1252 | No change of a SHORT task is allowed; only a SCHED_OTHER task becomes SHORT; priorities and time after each change |
| `SchedPolicy.PolicyInWords` | HW2/kernel/sched.c:1291-1310 | The fields after a change of policy in numbers, with the credit for sleep of a queued task |
| `SchedPolicy.SetScheduler` | HW2/kernel/sched.c:1210-1316 | Success iff the change is allowed and the arguments are usable; on success the new fields, the array, all three queues, the counts and the mark of the calling task, of whatever processor; nothing changes on failure; invariant kept |
| `SchedPolicy.WakeUpForked` | HW2/kernel/sched.c:422-443 | A new child joins the active array with 95% of its sleep average; invariant kept |
| `SchedPolicy.ForkInWords` | HW2/kernel/sched.c:422-436 | The sleep average and priority of the child in numbers |
| `SchedYield.YieldedLeads` | HW2/kernel/sched.c:1501-1517 | A SCHED_OTHER task that has stepped back is in front of its array only if it is alone in it |
| `SchedYield.TailLeads` | HW2/kernel/sched.c:1489-1499 | A real-time or SHORT task at the tail is in front only if all other tasks have larger keys |
| `SchedYield.StepBack` | HW2/kernel/sched.c:1500-1517 | Place, priority and bitmap after the yield of a SCHED_OTHER task |
| `SchedYield.YieldInWords` | HW2/kernel/sched.c:1489-1517 | Where a yielding task goes: the tail of its queue, or behind the first task of its own or, if alone with nothing better queued, of the best worse queue |
| `SchedYield.SchedYield` | HW2/kernel/sched.c:1483-1525 | A real-time or SHORT task goes on running exactly when every other active or SHORT task ranks strictly behind it, a SCHED_OTHER task exactly when it is alone in its array and no SHORT task is queued; its array, key and queues after the yield; invariant kept |
| `ShortCalls.OnePlace` | HW2/kernel/sched.c:2098-2113 | Every SHORT task is in the order once, so its index is unique |
| `ShortCalls.FirstIsBest` | HW2/kernel/sched.c:908-912 | Index 0 in that order means being picked by schedule() if and only if no real-time task is active |
| `ShortCalls.ShortPlaceInQueue` | HW2/kernel/sched.c:2076-2116 | The index of the task in the concatenated SHORT queues of this runqueue; 0 for the current task; for a sleeping one or one of another processor the count of the queues up to its short_prio; the error codes |
| `SchedExamples.CurrentIsNotFirst` | HW2/kernel/sched.c:2090-2092 | A run in which the current SHORT task is told 0 and another one is first in that order |
| `ShortCalls.ShortRemainingTime` | HW2/kernel/sched.c:2058-2072 | The ticks left in whole milliseconds, rounded down, and the error codes |
| `LoadBalance.PullTask` | HW2/kernel/sched.c:690-697 | One task moves from its queue to the tail of its queue in the active array here; both invariants, the other queues and the flag |
| `LoadBalance.MoveTasks` | HW2/kernel/sched.c:634-703 | Moves the first candidates, expired ones first, best priority first, tail first, until the budget or the candidates end; both runqueues as a function of the moved tasks |
| `Balancer.FindBusiest` | HW2/kernel/sched.c:594-616 | The first runqueue with the largest load above 1 among the others; the lengths are noted |
| `Balancer.WhoMoves` | HW2/kernel/sched.c:666-684 | A task can move if and only if it is active or expired there, not running, allowed on this processor and not run for more than the given ticks; it is then not SHORT |
| `Balancer.CandidateOrder` | HW2/kernel/sched.c:634-703 | Expired tasks before active ones, better prio first, the one nearer to the tail first |
| `Balancer.AllowanceAfter` | HW2/kernel/sched.c:616-632 | How many may move: one for an idle processor, half the difference of the loads for a busy one if that is a quarter of the larger, none unless the other runqueue is longer by two |
| `Balancer.NotOvershot` | HW2/kernel/sched.c:620-632 | No number of tasks the loads allow makes this runqueue the longer one, as long as the lengths do not change between the two looks; Rebalance carries the conclusion |
| `Balancer.OvershotAfterRelock` | HW2/kernel/sched.c:620-632 | If they do change while the lock is dropped, it can: an instance |
| `Balancer.Pull` | HW2/kernel/sched.c:620-703 | From the relocking on, whatever others did meanwhile: exactly the first candidates move, as many as the two looks at the lengths allow; both invariants kept |
| `Balancer.Rebalance` | HW2/kernel/sched.c:563-706 | Exactly the first candidates move: the tasks that come were queued, not running, not cache-hot and may run here; none that could have come but stayed was to be preferred to one that came; if any such stayed, as many came as the loads allow; tasks and counts are conserved; both invariants kept |
| `SmpScheduler.ScheduleSmp` | HW2/kernel/sched.c:868-940 | One pass with its balancing: idle iff no task was left and none could be pulled; a pull only then and of one task at most; when the arrays are exchanged; all queues, counts and timestamps; both invariants kept |
| `SmpScheduler.TickSmp` | HW2/kernel/sched.c:749-843 | The tick with its balancing, busy or idle, when it is due; the current task as by the tick alone; both invariants kept |
| `SmpScheduler.BalancingIsDue` | HW2/kernel/sched.c:717-728 | When a tick balances, on an idle and on a busy processor |
| `SmpScheduler.TryToWakeUpSmp` | HW2/kernel/sched.c:369-415 | A synchronous wake-up takes a sleeping task along if it may run here, any other happens where the task is; queues and flags of both runqueues; both invariants kept |
| `ProcessTree.FindReaper` | HW1/kernel/exit.c:224-233 | The first thread of the group behind the task that is not exiting, and the global reaper exactly when there is none |
| `ProcessTree.ForgetOriginalParent` | HW1/kernel/exit.c:218-253 | No task keeps the exiting one as original parent; exactly its children get the reaper, or the global one |
| `ProcessTree.MovedTree` | HW1/kernel/exit.c:465-478 | One round of pointer stores moves the first child to the front of another list and keeps every list well linked, up to one stale p_ysptr |
| `ProcessTree.AdoptedIsOrphans` | HW1/kernel/exit.c:465-478 | Handing over the children one by one gives each heir its children in reverse order, in front of its own |
| `ProcessTree.AdoptedOnce` | HW1/kernel/exit.c:465-478 | Each former child is in the list of its original parent exactly once and in no other |
| `ProcessTree.ChildListIsExact` | HW1/kernel/exit.c:465-478 | The list of a task holds exactly the tasks whose p_pptr is it |
| `ProcessTree.TreeInWords` | HW1/kernel/exit.c:465-478 | What the lists mean for p_cptr, p_pptr, p_ysptr and p_osptr of every task |
| `ProcessTree.OrphansOneMore` | HW1/kernel/exit.c:465-478 | One more child comes in front of the others of the same heir |
| `ProcessTree.GiveAwayChildren` | HW1/kernel/exit.c:465-498 | The loop ends, the exiting task has no children, every other list is as before behind the adopted children |
| `ProcessTree.ExitTask` | HW1/kernel/exit.c:407-498 | forget_original_parent and the loop together: original parents and child lists after the exit, from the ring of tasks and the thread ring before it; field by field, p_opptr and p_pptr of every task |
| `ProcessLinks.JoinedTree` | HW1/include/linux/sched.h:949-952 | SET_LINKS puts the task in front of its parent's list and leaves all other lists alone |
| `ProcessLinks.PartedTree` | HW1/include/linux/sched.h:936-941 | REMOVE_LINKS takes it out, wherever it is, and leaves all other lists alone |
| `ProcessLinks.JoinThenPart` | HW1/include/linux/sched.h:933-953 | Leaving undoes joining, for every list and for the links of every other task |
| `ProcessLinks.SetLinks` | HW1/include/linux/sched.h:944-953 | The task is last in the ring of all tasks, in both directions, and its parent's youngest child |
| `ProcessLinks.RemoveLinks` | HW1/include/linux/sched.h:933-942 | The ring and the child list are closed over the gap |
| `ProcessLinks.RingInWords` | HW1/include/linux/sched.h:933-953 | In the ring each task's next_task has it as prev_task |

## Left out

- CoalescingAllocator.Allocator.Wilderness: a request of exactly the size of the last block, for which the code would read a word beyond the break; neither caller passes one.
- Machines with 8-byte pointers, and a break that other code moves: the layout is the 32-bit one and the heap is contiguous.
- Double frees, foreign pointers and overlapping use by the program: the methods take pointers to blocks in use.
- The `size` and `num_meta_data_bytes` fields of the list header, which the code does not maintain, and the printing functions.
- `HW4/malloc_1.cpp` and `HW4/malloc_2.cpp`: no splitting or merging, so only easier members.
- The game's printing, timing, file reading and the durations in the histories; only the number of tile records is kept.
- GameRuns.StepRefinesLife: a push or pop is one step here; MonitorFairness.MonitorRefinesLife has the steps of the monitor.
- GameRuns.GameRefinesLife: a push or pop is one step here, as above.
- GameFairness.FairReachesDone: a push or pop is one step here; MonitorFairness.ReachesDone has the steps of the monitor.
- GameFairness.FairGameEnds: a push or pop is one step here; MonitorFairness.FairMonitorGameEnds has the steps of the monitor.
- AllocatorRuns.EveryStateIsWellFormed: runs are of block lists; AllocatorPrograms.Execute has runs of the class.
- `delete` of jobs and threads, and memory models weaker than interleaving.
- SchedPick.Schedule: one pass on one processor; SchedPick.ScheduleUntilUnmarked repeats it, SmpScheduler.ScheduleSmp has the balancing. Context switching is not modelled.
- SchedPolicy.SetScheduler: the credentials of the caller are two flags.
- Balancer.Rebalance: two processors, locked throughout; Balancer.Pull has what happens after a relocking, and the search for the busiest is for any number.
- Scheduler.SchedulerTick: one processor; SmpScheduler.TickSmp has the balancing. Statistics are left out.
- Scheduler.TryToWakeUp: one processor; SmpScheduler.TryToWakeUpSmp has the migration to the waking one.
- first_time_slice, sched_exit and the division of the time slice in do_fork; sys_nice and the calls that only read a field.
- Runqueue locks, migration threads, wait queues, interrupts and user-space copies.
- PidAllocator.GapAlways: get_pid and the linking of the new task are one event; a task linked late, after other calls have wrapped around, is not modelled. Session and group changes take only ids already in use.
- ProcessTree.ExitTask: one step, although the source releases tasklist_lock between the two phases and within the loop (HW1/kernel/exit.c:252, 464, 490-495), where other tasks may fork or exit.
- The rest of do_fork, do_exit and wait4; signals and the orphaned process group test in exit_notify.
- The system call restriction of HW1 and its log: short look-ups.
