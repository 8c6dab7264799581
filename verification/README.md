# A verified model of the ucore-on-MIPS kernel core and of the Decaf middle end

The repository holds a small teaching kernel (`lab8`) and the Decaf compiler whose programs run on it
(`decaf-dev`). This project models the parts of both where state, pointers and arithmetic make mistakes
likely, in the form the source has: classes with `modifies` clauses for the C structures and Java objects
that are updated in place, loops with invariants where the source loops, datatypes and functions where it
only computes.

- **Red-black tree** (`RedBlack*.dfy`): the nodes are heap objects with colour, parent and child fields and
  one nil and one root sentinel per tree, as in C. Insertion and deletion are proved on the pointers. The
  in-order sequence of members is the abstract value. Each node carries a ghost interval of positions, which
  makes every structural condition local to a node and its neighbours.
- **Processes, timers, semaphores** (`Processes`, `Family`, `Waiting`, `Timers`, `KernelSteps`, `KernelRuns`,
  `Wakeups`, `Pids`, `PidRuns`, `Machine`): the scheduler, fork, exit, wait, kill, sleep and the semaphores are
  one state machine over the process records. `Machine.Cpu` is the imperative code. Its methods refine the
  steps of `KernelSteps.Next`, and the theorems are about all runs of these steps from boot. Falling asleep
  or dying and the following call of `schedule` may be one step or two with ticks between them. `Effects` says
  step by step what happens to each process, and `Turns`, `Clock` and `Fates` what follows over runs: whose
  turn comes when, when sleepers wake, and what becomes of a killed process.
- **Memory** (`Shifts`, `Buddy*`, `Slab*`, `Vmas`, `Frames`, `PageTables`, `PageCosts`, `AddressSpaces`): the buddy
  allocator over an array of pages; the slab allocator on top of it; page directories, page tables and
  reference counts on top of the same allocator; the sorted list of areas; copying and tearing down whole
  address spaces, and how many frames that takes.
- **Simple file system** (`Counting`, `Bitmap`, `SfsMap`, `SfsVolume`, `SfsFile`, `SfsShared`, `SfsImage`): the
  free map, block maps with an indirect block stored as bytes on the disk, reading, writing and resizing
  files, many files on one volume, and the images that `mksfs` writes.
- **Decaf** (`Tac`, `Liveness`, `Precision`, `Simplify`, `FlowGraph`, `Inheritance`, `Overrides`, `ClassLayout`,
  `Classes`): liveness analysis and simplification of flow graphs; the check for cycles in the class hierarchy;
  overriding; slots, field offsets and virtual tables. Instructions mean what the interpreter of the repository
  makes of them (decaf-dev/tacvm-dev/src/decaf/tacvm/exec/Executor.java:194-348), on 32-bit words; what a call
  or a division by zero does is left open.
- **Arithmetic without a divider** (`Division`): the division routines of the Decaf run-time library and of
  the kernel, and printing and reading numbers.

`Lists` and `Options` are helpers. `dafny verify dfyconfig.toml` checks the whole project.

## Model

| member | source | states |
|---|---|---|
| RedBlackTree.Tree.constructor | lab8/kern/libs/rb_tree.c:29-64 | a new tree is valid and empty |
| RedBlackTree.Tree.Rotate | lab8/kern/libs/rb_tree.c:78-100 | the stores of the rotation macro, in either direction, have exactly the effect of a rotation on the links, also at the top |
| RedBlackTree.Tree.Insert | lab8/kern/libs/rb_tree.c:133-171 | the in-order sequence of members gains exactly the node, behind all members that compare less or equal and before all others; links, order, colours and black heights are right again; only storage of the tree changes |
| RedBlackTree.Tree.InsertFixup | lab8/kern/libs/rb_tree.c:140-170 | from a tree whose only fault may be a red edge at the new node, the loop ends in a tree without faults and the same order |
| RedBlackTree.Tree.Delete | lab8/kern/libs/rb_tree.c:295-327 | the in-order sequence loses exactly the node and nothing else moves; all rules hold again although the fix-up keeps the top node it read at its start; the node leaves the storage of the tree |
| RedBlackTree.Tree.DeleteFixup | lab8/kern/libs/rb_tree.c:246-288 | from a tree with one edge that is a black node short, the loop ends in a tree without faults and the same order, also when a rotation has made the saved top stale |
| RedBlackTree.Tree.Successor | lab8/kern/libs/rb_tree.c:179-198 | the member right behind the node in order, or nil for the last one |
| RedBlackTree.Tree.Predecessor | lab8/kern/libs/rb_tree.c:205-224 | the member right before the node in order, or nil for the first one |
| RedBlackTree.Tree.Search | lab8/kern/libs/rb_tree.c:231-239 | null exactly when the probe accepts no member; otherwise an accepted member whose subtree holds all accepted ones |
| RedBlackTree.Tree.CheckTree | lab8/kern/libs/rb_tree.c:379-404 | on a valid tree none of the assertions of the checker fails, and it returns the black height |
| RedBlackTree.WalkTop | lab8/kern/libs/rb_tree.h:6-16 | walking the left and right links of the nodes in order from the top gives the sequence of members that all other contracts speak of |
| RedBlackDepth.Shallow | lab8/kern/libs/rb_tree.c:379-404 | from the top of a valid tree no way down the links meets more nodes than twice the binary logarithm of the number of members plus one |
| Machine.Cpu.Enqueue | lab8/kern/schedule/default_sched.c:14-22 | the process joins the end of the run queue, once, with its time slice refilled |
| Machine.Cpu.Wakeup | lab8/kern/schedule/sched.c:59-76 | the process becomes runnable and is queued exactly if it is not the current one and was not runnable already |
| Machine.Cpu.Switch | lab8/kern/schedule/sched.c:79-100 | the step of the state machine that `Turns` is about: the current process goes to the back of the queue if it is runnable, and the first in the queue, or idle, runs |
| Machine.Cpu.ProcTick | lab8/kern/schedule/sched.c:34-41 | a tick of the time slice asks for rescheduling exactly when the slice is used up, and always for idle |
| Machine.Cpu.Fork | lab8/kern/process/proc.c:446-512 | the new process joins parent, list of children and run queue as one step of the state machine, and the invariant holds |
| Machine.Cpu.DoFork | lab8/kern/process/proc.c:446-512 | with the greatest number of processes nothing changes and an error is returned; otherwise fork with the identifier `get_pid` finds |
| Machine.Cpu.Exit | lab8/kern/process/proc.c:519-570 | idle and init stop the kernel; any other process becomes a zombie, its parent is woken if it waits, every child goes to init, which is woken for zombies, and another process runs |
| Machine.Cpu.Wait | lab8/kern/process/proc.c:885-942 | an awaited zombie child, the first in the list, is reaped; else the caller sleeps if it has an awaited child, and otherwise fails |
| Machine.Cpu.FindProc | lab8/kern/process/proc.c:268-280 | the process with the identifier, or none exactly if no process but idle has it |
| Machine.Cpu.Kill | lab8/kern/process/proc.c:946-959 | the step of the state machine whose effect is `Effects.KillEffect`, and the invariant holds |
| Machine.Cpu.DoKill | lab8/kern/process/proc.c:946-959 | an unknown identifier, a process already marked, and the kill of one that is not, each with its return value; the first two change nothing, and after the last the process is marked and runnable if its sleep could be interrupted |
| Machine.Cpu.Sleep | lab8/kern/process/proc.c:1112-1128 | no time, no effect; otherwise a timer is set and the process sleeps until it fires or the process is woken |
| Machine.Cpu.Down | lab8/kern/sync/sem.c:32-65 | takes a unit, or joins the end of the queue and gives up the processor |
| Machine.Cpu.TryDown | lab8/kern/sync/sem.c:68-76 | takes a unit exactly if there is one, and never waits |
| Machine.Cpu.Up | lab8/kern/sync/sem.c:16-30 | wakes the first waiter and hands it the unit, or adds a unit when nobody waits; the assertion on the wait state holds |
| Machine.Cpu.Resume | lab8/kern/process/proc.c:885-942 | what a process does when it runs again inside wait, down or sleep is a step that keeps the invariant; a killed waiter exits |
| Machine.Cpu.TrapReturn | lab8/kern/trap/trap.c:296-303 | before it returns to its program a killed process exits and one whose slice is used up gives way |
| KernelSteps.NextKeeps | lab8/kern/process/proc.c:446-942 | every step of the kernel keeps the invariant: run queue, family lists, wait states, timers and semaphores, also with ticks between falling asleep and the switch |
| KernelSteps.FiredAsleep | lab8/kern/schedule/sched.c:146-175 | a timer that fires belongs to a process that sleeps for it or has been woken: the assertions on its wait state hold |
| KernelRuns.BootOk | lab8/kern/process/proc.c:1051-1088 | the state after boot satisfies the invariant |
| KernelRuns.ReachableState | lab8/kern/process/proc.c:446-942 | in every state reached from boot: the run queue holds exactly the runnable processes but the current one, each once; every parent is there and no zombie; who sleeps for a child has a child it waits for, and none that is a zombie already, so no wakeup is lost; identifiers differ |
| Wakeups.WakeupsInRuns | lab8/kern/schedule/sched.c:59-76 | over every run from boot, whoever `wakeup_proc` is called on is there and no zombie, at that very moment |
| KernelRuns.UnitsConserved | lab8/kern/sync/sem.c:16-76 | over every run, units taken plus units left are the initial units plus those given; the value never falls below zero |
| KernelRuns.NextSem | lab8/kern/sync/sem.c:16-54 | in every step the queue of a semaphore stays, gains the current process at its end, or loses its first member to `up` |
| KernelRuns.DownReturnsGranted | lab8/kern/sync/sem.c:62-65 | in every run, who comes back from `down` was woken by `up`: the assertion on the flags holds even after a kill |
| Turns.NextMoves | lab8/kern/schedule/sched.c:79-100 | a step in which the current process gives up the processor gives it to the head of the queue, or to idle, and moves everybody else one place forward; any other step moves nobody and may only add at the end |
| Turns.GivesWay | lab8/kern/schedule/default_sched.c:14-38 | who gives way while it could go on is last in the line |
| Turns.NobodyOvertaken | lab8/kern/schedule/default_sched.c:14-38 | over every run, a process in the queue moves forward by exactly one place with each switch and never otherwise |
| Turns.TurnComes | lab8/kern/schedule/default_sched.c:14-38 | over every run, who is at place i of the queue is the current process after exactly i + 1 switches |
| Fates.NextRests | lab8/kern/schedule/default_sched.c:14-48 | in every step the slice of a process stays, or is used by a tick if it is the current one, or is refilled if it was used up or too long |
| Fates.AskedInTime | lab8/kern/schedule/default_sched.c:40-48 | over every run, who stays current through as many ticks as a time slice has is asked to give way |
| Effects.KillEffect | lab8/kern/process/proc.c:946-959 | a process not marked yet is marked, and runnable if its sleep can be interrupted; no other record changes |
| Effects.ForkEffect | lab8/kern/process/proc.c:446-512 | a runnable, unmarked child of the caller with the identifier and a fresh slice comes; nobody else changes but for family links |
| Effects.ExitEffect | lab8/kern/process/proc.c:519-570 | the caller is a zombie; its parent is awake if it waited for a child; each of its children has init as parent, which is awake if it waited and one of them is a zombie; nobody else changes |
| Effects.PerishEffect | lab8/kern/process/proc.c:519-566 | the same when ticks come between dying and the switch |
| Effects.WaitEffect | lab8/kern/process/proc.c:885-942 | with an awaited zombie child one such child is gone; else, with an awaited child, the caller sleeps for it; else it returns; nobody else changes |
| Effects.SleepEffect | lab8/kern/process/proc.c:1112-1128 | the caller sleeps with a timer of its own; nobody else changes |
| Effects.DownEffect | lab8/kern/sync/sem.c:32-65 | without a unit the caller sleeps for the semaphore; nobody else changes |
| Effects.UpEffect | lab8/kern/sync/sem.c:16-30 | while somebody waits, the first waiter is awake and has the unit; nobody else changes |
| Fates.StaysMarked | lab8/kern/process/proc.c:946-959 | over every run, who is marked stays marked until it is gone |
| Fates.KilledDies | lab8/kern/trap/trap.c:296-303 | over every run, the next return to its program, or out of waiting for a child, makes a killed process a zombie |
| Fates.MarkedDies | lab8/kern/trap/trap.c:296-303 | the step in which this happens, with all that exit does |
| Pids.PidAllocator.Get | lab8/kern/process/proc.c:195-227 | an unused identifier, the first one going up around the end from the last one given; the scan ends; no identifier of the list lies between the last one and the next known one |
| Pids.FreePid | lab8/kern/process/proc.c:195-227 | fewer processes than the limit leave an identifier free |
| PidRuns.PidsOverRuns | lab8/kern/process/proc.c:195-227 | over every run of forks and reaping, no process has an identifier strictly between `last_pid` and `next_safe`, and there are never more processes than the limit |
| PidRuns.BootPids | lab8/kern/process/proc.c:1051-1088 | which holds at boot |
| PidRuns.StartPids | lab8/kern/process/proc.c:1051-1088 | for the state that the first `get_pid` leaves, which gives init identifier 1 |
| Timers.AddedRefines | lab8/kern/schedule/sched.c:103-122 | adding to the list of differences adds one deadline at its place and moves no other |
| Timers.DeletedRefines | lab8/kern/schedule/sched.c:126-142 | deleting from it removes one deadline and moves no other |
| Timers.TickRefines | lab8/kern/schedule/sched.c:146-175 | a tick lowers every deadline by one and fires exactly those that are due; the first timer is never due between ticks |
| Timers.TickOwners | lab8/kern/schedule/sched.c:146-175 | every owner either fires or stays on the list, and none does both |
| Timers.AlarmsSorted | lab8/kern/schedule/sched.c:103-175 | deadlines come in the order of the list |
| Clock.AlarmSet | lab8/kern/process/proc.c:1112-1128 | `do_sleep` sets the deadline of the caller and no other |
| Clock.NextAlarm | lab8/kern/schedule/sched.c:146-175 | a deadline comes closer by one with each tick and stays in every other step of another process |
| Clock.TickWakesDue | lab8/kern/schedule/sched.c:146-175 | who is due is runnable after the tick; who sleeps for the clock and is not due still sleeps |
| Clock.TickSlice | lab8/kern/schedule/default_sched.c:40-48 | a tick shortens the slice of the current process, which is asked to give way exactly at its end; idle always is |
| Clock.SleepsThatLong | lab8/kern/process/proc.c:1112-1128 | over every run, who sleeps for n ticks and is not killed sleeps on through fewer |
| Clock.WakesOnTime | lab8/kern/process/proc.c:1112-1128 | and the tick number n wakes it |
| Machine.Cpu.AddTimer | lab8/kern/schedule/sched.c:103-122 | the loop over the list computes exactly the insertion the deadlines are proved about |
| Machine.Cpu.DelTimer | lab8/kern/schedule/sched.c:126-142 | the timer goes if it is still on the list, with its time handed to the next one |
| Machine.Cpu.RunTimers | lab8/kern/schedule/sched.c:146-175 | the loop over the timers is the tick of the state machine: each owner that fires is woken once; also between falling asleep and the switch |
| BuddyBlocks.Maximal | lab8/kern/mm/buddy_pmm.c:134-186 | free blocks of which no two are a mergeable pair are exactly the largest aligned blocks whose pages are all free |
| BuddyBlocks.Unique | lab8/kern/mm/buddy_pmm.c:158-186 | so the set of free pages determines the free blocks, whatever order they were freed in |
| BuddyBlocks.RoomFor | lab8/kern/mm/buddy_pmm.c:93-118 | there is a block of an order or above exactly if some aligned block of that order is all free |
| BuddyAllocator.Allocator.constructor | lab8/kern/mm/buddy_pmm.c:43-77 | a zone of any length becomes free blocks that cover exactly its pages |
| BuddyAllocator.GetOrder | lab8/kern/mm/buddy_pmm.c:80-90 | the smallest order that has room, or a panic exactly above the size of the largest block |
| BuddyAllocator.Allocator.AllocSub | lab8/kern/mm/buddy_pmm.c:93-118 | the first block of the smallest sufficient order is split; nothing is returned exactly if all free blocks are smaller |
| BuddyAllocator.Allocator.AllocPages | lab8/kern/mm/buddy_pmm.c:121-130 | `n` free pages in a row, which are no longer free while all others still are; without room no aligned block of the order was free; panic exactly above the largest block |
| BuddyAllocator.Allocator.IsBuddy | lab8/kern/mm/buddy_pmm.c:134-142 | the flags of a page say exactly whether the buddy block is on the free list, also outside the zone |
| BuddyAllocator.Allocator.FreeSub | lab8/kern/mm/buddy_pmm.c:158-186 | the pages of the block join the free ones, and merging leaves no mergeable pair; the reference counts of these pages and no others are cleared |
| BuddyAllocator.Allocator.FreePages | lab8/kern/mm/buddy_pmm.c:189-217 | any range of pages in use becomes free; the assertion fails exactly if the range reaches a whole double block behind the first double-block boundary |
| BuddyAllocator.Allocator.AllocThenFree | lab8/kern/mm/buddy_pmm.c:121-217 | allocating and freeing again restores the very same free blocks |
| BuddyAllocator.Allocator.NrFreePages | lab8/kern/mm/buddy_pmm.c:220-227 | the number of free pages |
| SlabInit.InitCaches | lab8/kern/mm/kmalloc.c:114-123 | no cache panics, and the caches are those of the table |
| SlabInit.CalculateSlabOrder | lab8/kern/mm/kmalloc.c:212-238 | the first order at which at most an eighth is wasted |
| SlabCaches.TableIs | lab8/kern/mm/kmalloc.c:255-283 | the table is what the computation of each cache gives |
| SlabCaches.TablesOk | lab8/kern/mm/kmalloc.c:175-202 | objects and control block fit the pages of a slab, and control blocks off the slab fit a cache that keeps its own on the slab |
| SlabAllocator.Slabs.constructor | lab8/kern/mm/kmalloc.c:114-123 | starts without slabs on a page allocator in any state |
| SlabAllocator.Slabs.Grow | lab8/kern/mm/kmalloc.c:327-367 | a new slab, or nothing changed at all, also when only its control block found no memory |
| SlabAllocator.Slabs.CacheAlloc | lab8/kern/mm/kmalloc.c:386-407 | an object of the cache that was in nobody's hands; without memory nothing changes, and then there was really none |
| SlabAllocator.Slabs.Kmalloc | lab8/kern/mm/kmalloc.c:412-419 | an object of the smallest cache that fits; objects already handed out stay as they are; panic exactly above the largest size; nothing only if that cache is used up and there is no block of pages for a slab, or no object for its control block |
| SlabAllocator.Slabs.CacheFree | lab8/kern/mm/kmalloc.c:472-484 | exactly that object stops being in use |
| SlabAllocator.Slabs.SlabDestroy | lab8/kern/mm/kmalloc.c:425-441 | the pages of an empty slab and the object of its control block are given back |
| SlabAllocator.Slabs.Kfree | lab8/kern/mm/kmalloc.c:488-490 | panics exactly on an address outside the slabs; otherwise exactly that object is free again |
| SlabState.LiveApart | lab8/kern/mm/kmalloc.c:371-381 | objects in use never overlap |
| SlabAllocator.AllBack | lab8/kern/mm/kmalloc.c:425-484 | when every object has been given back there is no slab left and every page is free as before |
| Vmas.Mm.FindVma | lab8/kern/mm/vmm.c:78-101 | the first area that ends behind the address: the cached area never changes the answer |
| Vmas.Mm.Insert | lab8/kern/mm/vmm.c:115-143 | the list stays sorted and free of overlaps; the assertions hold exactly if the new area overlaps none |
| Vmas.Mm.MmMap | lab8/kern/mm/vmm.c:161-189 | refused exactly for ranges outside user space or overlapping an area; without memory nothing changes; otherwise the smallest area of whole pages that holds the range is inserted |
| Vmas.Mm.UserMemCheck | lab8/kern/mm/vmm.c:438-462 | true exactly if every address of the range is in an area that permits the access, with the lowest page of a stack area excluded for writes |
| PageTables.Paging.SetupPgdir | lab8/kern/process/proc.c:320-329 | a blank directory, or nothing exactly if no frame is free |
| PageTables.Paging.GetPte | lab8/kern/mm/pmm.c:214-260 | the table for the page; a missing one is made when asked for and a frame is free, and only then there is none; no mapping changes |
| PageTables.Paging.PageRemovePte | lab8/kern/mm/pmm.c:279-293 | the frame is freed exactly when this was the last entry that mapped it |
| PageTables.Paging.PageInsert | lab8/kern/mm/pmm.c:313-331 | the page is mapped and nothing else changes, in any address space; fails exactly without a frame for a missing table; counts of references stay right also when the same page was mapped there |
| PageTables.Paging.PgdirAllocPage | lab8/kern/mm/pmm.c:338-351 | a frame that was free mapped at the page, or nothing changed; fails exactly without a frame for the page or for a missing table |
| PageTables.Paging.UnmapRange | lab8/kern/mm/pmm.c:526-541 | exactly the pages of the range become unmapped |
| PageTables.Paging.ExitRange | lab8/kern/mm/pmm.c:544-557 | exactly the tables of the range, which must map nothing, are given back, and no mapping changes |
| PageTables.Paging.CopyPage | lab8/kern/mm/pmm.c:571-594 | a fresh frame with the same bytes, mapped with the low permission bits; no memory exactly if a table is missing and nothing is free; panic exactly if nothing is free once the table is there |
| PageTables.Paging.CopyRange | lab8/kern/mm/pmm.c:560-601 | copies every mapped page it looks at; its outcome is the one that counting tables and frames gives |
| PageTables.Missed | lab8/kern/mm/pmm.c:560-601 | which pages of present tables it looks at, exactly |
| PageTables.CopiesAll | lab8/kern/mm/pmm.c:560-601 | when it looks at all of them, exactly |
| PageTables.SkippedPage | lab8/kern/mm/pmm.c:560-601 | an address space with a mapped user page that it misses |
| AddressSpaces.DupMmap | lab8/kern/mm/vmm.c:192-211 | the same list of areas, each copied; the outcome is the one that counting gives for pages, tables and the pages that caches take to note the areas |
| AddressSpaces.CopyMm | lab8/kern/process/proc.c:340-382 | on success the copy maps exactly the pages looked at, with equal bytes in frames of its own, and every other space is as before; without memory everything is as before, frame by frame; it succeeds exactly if there are as many free frames as it takes, and takes that many: the directory, one for each page copied and for each table, and the pages that caches take for the structures |
| AddressSpaces.CostDecides | lab8/kern/process/proc.c:340-382 | counting frame by frame, in the order of the code, ends well exactly if that sum is free |
| PageCosts.RangeSettles | lab8/kern/mm/pmm.c:560-601 | the same for one range, in a space that may have some of the tables already |
| AddressSpaces.ExitMmap | lab8/kern/mm/vmm.c:214-226 | tearing a space down restores the frames, counts and tables from before it was set up |
| FlowGraphs.BasicBlock.ComputeDefAndLiveUse | decaf-dev/src/decaf/dataflow/BasicBlock.java:62-148 | the two sets summarise the instructions: whatever is live behind the block, they tell what is live before it, each instruction as in `Precision.LiveMatters` |
| FlowGraphs.BasicBlock.AnalyzeLiveness | decaf-dev/src/decaf/dataflow/BasicBlock.java:150-213 | the set recorded at each instruction is what the instructions behind it make of what is live behind the block |
| FlowGraphs.FlowGraph.AnalyzeLiveness | decaf-dev/src/decaf/dataflow/FlowGraph.java:172-191 | the iteration ends, and its sets solve the liveness equations and lie below every other solution; temporary by temporary they are what runs to a return need; the graph is unchanged |
| Precision.LiveMatters | decaf-dev/src/decaf/dataflow/BasicBlock.java:162-211 | for every instruction: a temporary is live before it exactly if two states that differ only there can differ behind it in memory, arguments, calls, the result or a temporary live behind; except a temporary subtracted from or compared with itself |
| Liveness.OneAgrees | decaf-dev/src/decaf/dataflow/BasicBlock.java:162-211 | states that agree on what is live before an instruction agree behind it on what is live there, and on memory, arguments and calls |
| Liveness.RunsAlike | decaf-dev/src/decaf/dataflow/BasicBlock.java:150-213 | for any sets that cover the equations, with a meaning of its own for each opcode: two runs that enter a block with states that agree on what is live there take the same path with the same effects for ever, so what is dead may be overwritten |
| Liveness.WithinLeast | decaf-dev/src/decaf/dataflow/FlowGraph.java:172-191 | every solution contains what is read within any number of blocks before being overwritten |
| FlowGraphs.FlowGraph.Simplify | decaf-dev/src/decaf/dataflow/FlowGraph.java:193-258 | counting, cancelling, redirecting, compacting and renumbering the blocks in place gives exactly the new graph of the lemmas below, made of the old block objects that stay |
| Simplify.StayIff | decaf-dev/src/decaf/dataflow/FlowGraph.java:193-210 | the blocks that stay are, in their order, the entry and those that some block jumps to, except empty jumps |
| Simplify.TestsDiffer | decaf-dev/src/decaf/dataflow/FlowGraph.java:221-231 | no test of the new graph has two equal ways |
| Liveness.LiveExactly | decaf-dev/src/decaf/dataflow/FlowGraph.java:172-191 | in the least solution a temporary is live before a block if and only if a run from there to a return may read it first, or may reach a return without writing it while a run from the entry may read it first: this is all that the zero successors of return blocks add |
| Simplify.NewOk | decaf-dev/src/decaf/dataflow/FlowGraph.java:193-258 | the new graph is well formed, all its jumps lead to blocks that stay, and these keep their instructions |
| Simplify.HollowAgain | decaf-dev/src/decaf/dataflow/FlowGraph.java:221-231 | a block of the new graph is an empty jump if and only if it was an empty test whose two ways lead to one place |
| Simplify.EmptyJumpLeft | decaf-dev/src/decaf/dataflow/FlowGraph.java:221-231 | a method that begins with an empty `if`: its new graph has an empty jump |
| Simplify.TerminatesIff | decaf-dev/src/decaf/dataflow/FlowGraph.java:211-235 | the search for the ends of the chains ends if and only if no block that stays jumps into a cycle of empty jumps, which is found within as many steps as there are blocks |
| Simplify.NeverEnds | decaf-dev/src/decaf/dataflow/FlowGraph.java:211-235 | a graph on which it does not end |
| Simplify.TracesKept | decaf-dev/src/decaf/dataflow/FlowGraph.java:193-258 | every run of the new graph enters the same blocks in the same states and ends like the old one, whatever calls and divisions by zero do, if and only if the entry is kept |
| Simplify.SameResults | decaf-dev/src/decaf/dataflow/FlowGraph.java:193-258 | with the entry kept, both graphs end with the same result and effects, or neither ends |
| Simplify.PlainEntry | decaf-dev/src/decaf/dataflow/FlowGraph.java:193-258 | an entry that is no empty jump is kept |
| Simplify.EntryLost | decaf-dev/src/decaf/dataflow/FlowGraph.java:193-258 | a method that begins with a `for` without initialisation: its new graph starts with the update and does not run like the old one |
| Simplify.AcyclicTerminates | decaf-dev/src/decaf/dataflow/FlowGraph.java:211-235 | so it ends on every graph without a cycle of empty jumps |
| Inheritance.Hierarchy.Declare | decaf-dev/src/decaf/typecheck/BuildSym.java:48-58 | of classes with one name the first is declared, and exactly the others are reported |
| Inheritance.Hierarchy.CalcOrder | decaf-dev/src/decaf/typecheck/BuildSym.java:236-245 | the recursion ends, on cycles too; ranks count down along parents, and a cycle is told by its ranks |
| Inheritance.Hierarchy.CheckParents | decaf-dev/src/decaf/typecheck/BuildSym.java:60-70 | exactly the classes that close a cycle lose their parent, and exactly these and missing parents are reported |
| Inheritance.NoCycleLeft | decaf-dev/src/decaf/typecheck/BuildSym.java:236-245 | afterwards no class is its own ancestor |
| Inheritance.CutOnCycle | decaf-dev/src/decaf/typecheck/BuildSym.java:60-70 | only classes on a cycle lose a parent |
| Inheritance.OnePerCycle | decaf-dev/src/decaf/typecheck/BuildSym.java:60-70 | at most one class of a cycle does |
| Inheritance.EachCycleCut | decaf-dev/src/decaf/typecheck/BuildSym.java:60-70 | and at least one |
| Classes.LayOut | decaf-dev/src/decaf/typecheck/BuildSym.java:45-92 | for any set of classes, from names, parents and members to virtual tables: cycles are cut; a declared member is left exactly if its name is not seen above or both are virtual methods of compatible types; the table of a class has the entry of each of its own methods; and every slot of a class reaches, on an object of any descendant, what looking the name up there finds |
| Overrides.Checker.CheckAll | decaf-dev/src/decaf/typecheck/BuildSym.java:247-292 | in whatever order classes are visited: a declared member of a class is left exactly if its name is not seen above, or if both are virtual methods and their types are compatible |
| Overrides.LeftWellFormed | decaf-dev/src/decaf/typecheck/BuildSym.java:247-292 | which is what the layout of classes relies on |
| ClassLayout.SlotIff | decaf-dev/src/decaf/scope/ClassScope.java:70-78 | a name has a slot exactly if looking it up from the class finds a virtual method |
| ClassLayout.SlotsKept | decaf-dev/src/decaf/symbol/Class.java:152-188 | slots and field offsets of a class are a prefix of those of its descendants |
| ClassLayout.SlotsDistinct | decaf-dev/src/decaf/symbol/Class.java:152-188 | no name has two slots |
| ClassLayout.FieldIff | decaf-dev/src/decaf/symbol/Class.java:168-174 | a name has a place in the object exactly if looking it up from the class finds a field |
| ClassLayout.FieldsDistinct | decaf-dev/src/decaf/symbol/Class.java:168-174 | no two fields of an object, inherited or not, share a place |
| ClassLayout.FindsNearest | decaf-dev/src/decaf/scope/ClassScope.java:70-78 | lookup finds the member of the nearest class on the way up that declares the name |
| ClassLayout.FindsNothing | decaf-dev/src/decaf/scope/ClassScope.java:70-78 | and nothing only if none does |
| ClassLayout.Layout.ResolveFieldOrder | decaf-dev/src/decaf/symbol/Class.java:152-188 | numbers of methods, fields and sizes are those of the declarative layout, parents first |
| ClassLayout.Layout.CreateVTable | decaf-dev/src/decaf/translate/Translater.java:126-152 | every slot of the table is filled with the method that the class has there |
| ClassLayout.Dispatch | decaf-dev/src/decaf/translate/Translater.java:126-152 | calling a slot of the static class on an object of any descendant reaches the method that lookup finds in the descendant |
| Bitmaps.Bitmap.constructor | lab8/kern/fs/sfs/bitmap.c:18-50 | exactly the bits below the length are set |
| Bitmaps.Bitmap.Alloc | lab8/kern/fs/sfs/bitmap.c:52-71 | the lowest set bit, and none exactly if there is none |
| Bitmaps.Bitmap.Test | lab8/kern/fs/sfs/bitmap.c:83-88 | whether the bit is set |
| Bitmaps.Bitmap.Release | lab8/kern/fs/sfs/bitmap.c:91-97 | the bit joins the set ones |
| SfsFiles.FileSystem.BlockAlloc | lab8/kern/fs/sfs/sfs_inode.c:89-99 | a cleared free block, with count and free map kept in step; fails exactly if the count is zero |
| SfsFiles.FileSystem.BlockFree | lab8/kern/fs/sfs/sfs_inode.c:104-109 | the block is free again and counted |
| SfsFiles.FileSystem.GetSub | lab8/kern/fs/sfs/sfs_inode.c:201-245 | the entry of the indirect block; if there is none and one is to be made, exactly the needed blocks are taken, or all given back |
| SfsFiles.FileSystem.BmapGet | lab8/kern/fs/sfs/sfs_inode.c:257-292 | the block at a place of the file; a new one exactly if the disk has room for it and a needed indirect block |
| SfsFiles.FileSystem.Load | lab8/kern/fs/sfs/sfs_inode.c:354-371 | one block behind the end is added, cleared; every byte of the file and every block of others stay; a failure changes no block in use |
| SfsFiles.FileSystem.Truncate | lab8/kern/fs/sfs/sfs_inode.c:377-387 | the last block goes back to the free ones and nothing else changes |
| SfsFiles.CheckIo | lab8/kern/fs/sfs/sfs_inode.c:556-575 | the 32-bit checks refuse and clip as `SfsFiles.PlanIs` says |
| SfsFiles.PlanIs | lab8/kern/fs/sfs/sfs_inode.c:556-575 | refused exactly for a negative or too great offset or an end out of range; nothing for no bytes or a read behind the end; else the least of the length, what the greatest size leaves and, for a read, what the file has left |
| SfsFiles.FileSystem.Io | lab8/kern/fs/sfs/sfs_inode.c:553-632 | for every request: when it is refused, how many bytes it moves, and exactly when the kernel stops; otherwise the file is changed or read like a flat sequence of bytes and no other block in use is touched, if the transfer fits; if it does not, where the bytes of the missing block went, byte by byte, and that other files still notice nothing unless the very first block was missing; and how many blocks the file has |
| SfsFiles.ReadsFit | lab8/kern/fs/sfs/sfs_inode.c:568-627 | a read fits whatever the room on the disk, unless it goes to the end of a file that fills its block map |
| SfsFiles.SpoiltWrite | lab8/kern/fs/sfs/sfs_inode.c:603-631 | a write on a full disk that neither stops nor fits |
| SfsFiles.FileSystem.TruncFile | lab8/kern/fs/sfs/sfs_inode.c:911-955 | every outcome with its exact condition; cut or extended content, byte by byte; on failure the content stays and the file has as many blocks as there was room for; never a block of anybody else |
| SfsFiles.FileSystem.ReadThenResize | lab8/kern/fs/sfs/sfs_inode.c:553-955 | reading a file that ends with its last block and resizing it to its size stops the kernel exactly if the disk has room for a block more |
| SfsFiles.FileSystem.ExtendThenResize | lab8/kern/fs/sfs/sfs_inode.c:911-955 | so does a failed extension and a resize to the old size, exactly if the extension got a block |
| SfsFiles.ReadsAsZeros | lab8/kern/fs/sfs/sfs_inode.c:911-955 | an extension reads as zeros if and only if the old blocks hold zeros behind the old end |
| SfsVolume.OthersKept | lab8/kern/fs/sfs/sfs_inode.c:553-632 | a file without a block in common keeps its map and its bytes |
| SfsShared.ServeAll | lab8/kern/fs/sfs/sfs_inode.c:553-955 | over any sequence of requests on any files, resizes that fail included, files never come to share a block, and files not asked for keep every byte |
| SfsImage.Builder.AllocIno | lab8/tools/mksfs.c:174-180 | the next block, or none exactly if the image is full |
| SfsImage.CreateSfs | lab8/tools/mksfs.c:224-254 | too small exactly if the free map leaves no block; otherwise an image whose first free block is behind the map |
| SfsImage.Builder.WriteFreeMap | lab8/tools/mksfs.c:313-333 | exactly the blocks not allocated yet are marked free |
| SfsImage.Builder.Cache | lab8/tools/mksfs.c:182-212 | a cached block or inode gets a number of its own behind the free map |
| SfsImage.Builder.Close | lab8/tools/mksfs.c:312-348 | every cached block is in the image at its number and the super block at its own; neither is written over the free map |
| SfsImage.Mount | lab8/kern/fs/sfs/sfs_fs.c:207-224 | accepted exactly if the count of free bits is the recorded one |
| SfsImage.CloseThenMount | lab8/kern/fs/sfs/sfs_fs.c:128-224 | every image written is accepted by the kernel, whatever has been allocated and cached in it |
| Division.MyDiv | lab8/user/libs/intrinsic.c:89-103 | the quotient rounded toward zero |
| Division.MyRem | lab8/user/libs/intrinsic.c:105-119 | the remainder with the sign of the dividend |
| Division.QuotientRemainder | lab8/user/libs/intrinsic.c:89-119 | the two belong together, and the remainder is smaller than the divisor |
| Division.DivU10 | lab8/kern/include/thumips.h:29-38 | a tenth of every unsigned 32-bit number, rounded down, with no intermediate overflow |
| Division.DivU5 | lab8/kern/include/thumips.h:40-48 | a fifth of every unsigned 32-bit number, rounded down |
| Division.PrintNum | lab8/kern/libs/printfmt.c:90-117 | the digits of the number in base 8, 10 or 16 behind the padding |
| Division.DigitsStand | lab8/kern/libs/printfmt.c:90-117 | these are digits of the base, stand for the number, and do not lead with a zero |
| Division.ReadInteger | lab8/user/libs/intrinsic.c:59-67 | the value of the digits, wrapped to 32 bits |
| Division.PrintThenRead | lab8/user/libs/intrinsic.c:59-67 | reading the digits of a number that fits gives the number |
| Division.PrintAndRead | lab8/user/libs/intrinsic.c:59-67 | so does printing it and reading it back |

## Findings

Where the code does not do what its documentation or its other parts expect, the model keeps the code, and
the exact condition is proved.

- **`simplify` can lose the entry of a method.** It numbers the first block that stays as the new entry. The
  new graph runs like the old one if and only if that block is where the empty jumps from block 0 lead
  (`Simplify.TracesKept`). An entry that is no empty jump is always kept (`Simplify.PlainEntry`). A method that
  begins with `for (; c; update)` without a body is not: its new graph starts with the update
  (`Simplify.EntryLost`; the translator emits the jump to the condition at
  decaf-dev/src/decaf/translate/TransPass2.java:304-326).
- **`simplify` does not end on a cycle of empty jumps.** It ends if and only if no block that stays jumps into
  one (`Simplify.TerminatesIff`); `Simplify.NeverEnds` is a graph where it does not. The translator emits no such
  cycle, because every loop it generates has a conditional jump
  (decaf-dev/src/decaf/translate/TransPass2.java:304-326 and 363-376,
  decaf-dev/src/decaf/translate/Translater.java:385-391 and 417-423).
- **`simplify` can leave empty jumps behind.** It makes a plain jump of a test whose two ways lead to one place
  and does not look at the block again. The new graph has an empty jump exactly where such a test was empty
  (`Simplify.HollowAgain`), as at the start of a method that begins with `if (c) {} else {}`
  (`Simplify.EmptyJumpLeft`).
- **Liveness goes on at the entry behind a return.** The successors of a return block stay block 0. What this
  adds to the sets is exact (`Liveness.LiveExactly`): nothing where no run from the entry reads a temporary
  before it writes it.
- **`copy_range` can skip mapped pages.** Where a table is missing it goes on 1024 pages further instead of at
  the next table. It looks at all pages of present tables if and only if the range starts in a present table
  or on a table boundary, or no present table lies in the rest of the range (`PageTables.CopiesAll`);
  `PageTables.Missed` gives the pages, and `PageTables.SkippedPage` a user page that is mapped and not copied.
  Fork then gives the child an address space without it.
- **`copy_range` stops the kernel where it could report an error.** With a free frame for a missing table but
  none for the page its assertion fails. `PageTables.Paging.CopyPage` has the exact condition for a page, and
  `AddressSpaces.CopyMm` the one for a whole fork, with the pages that `kmalloc` takes counted.
- **`sfs_io_nolock` does not look at the result of loading a block.** A transfer behaves like one on a flat
  sequence of bytes if and only if it fits (`SfsFiles.Fits`). If it does not, the kernel stops at an assertion
  exactly under `SfsFiles.Stops`. In the remaining case the bytes of the missing last block go over the start
  of the block before, or to any block if there was none before; the call reports success, and the size of the
  file says more than its blocks hold (`SfsFiles.FileSystem.Io`, `SfsFiles.Strayed`, `SfsFiles.SpoiltWrite`).
- **Reading to the end of a file that fills its block map stops the kernel**: the empty last part asks for a block
  behind the last place of the map (`SfsFiles.ReadsFit`).
- **`sfs_truncfile` stops the kernel on files with an extra block.** Reading to an aligned end adds a block, and
  an extension that fails keeps the blocks it got. A later resize to the present size fails its assertion
  exactly if the number of blocks is not the right one for the size (`SfsFiles.PanicsOn`);
  `SfsFiles.FileSystem.ReadThenResize` and `SfsFiles.FileSystem.ExtendThenResize` get there.
- **An extended file may show old bytes.** It reads as zeros if and only if the bytes behind the old end are
  zeros in the blocks the file already had (`SfsFiles.ReadsAsZeros`).
- **`buddy_free_pages` refuses some ranges.** Its assertion on the order fails exactly if the range ends a whole
  double block (2048 pages) or more behind the first double-block boundary at or after its start
  (`BuddyAllocator.Allocator.FreePages`). Ranges that `buddy_alloc_pages` returns never get there
  (`BuddyAllocator.Allocator.AllocThenFree`).

## Left out

- RedBlackTree.Tree.Search: the probe must be monotone along the order; the source only calls it with such functions.
- Division.MyDiv: the least 32-bit number and a zero divisor are excluded; C leaves the negation of the first undefined, and the routine promises nothing for the second.
- Division.MyRem: the same two arguments are excluded.
- FlowGraphs.FlowGraph.Simplify: required to terminate; on other graphs the source never returns.
- Machine.Cpu.Fork: the memory, the stack and the files of the new process, and running out of memory before it is linked, when nothing has changed yet.
- Machine.Cpu.DoFork: the same parts of `do_fork`.
- Machine.Cpu.Exit: the exit code, the memory and the files of the process.
- Machine.Cpu.Wait: storing the exit code, and the check of the address for it.
- Machine.Cpu.FindProc: a search among all processes stands for the hash table.
- Vmas.Mm.UserMemCheck: the branch without an address space, whose bound depends on how the kernel is built.
- AddressSpaces.DupMmap: which allocations find their cache without an object is a parameter; a cache of objects this small then takes one page.
- AddressSpaces.CopyMm: the branches for kernel threads and for `CLONE_VM`, which only copy a pointer; which allocations find their cache without an object is a parameter.
- Division.PrintNum: bases other than 8, 10 and 16, which the kernel never asks for.
- SfsShared.ServeAll: stops at the first transfer that does not fit, after which the file has a size it has no block for.
- PageTables.Paging.SetupPgdir: the boot directory that is copied into a new one is taken to be empty.
- Running out of memory in `rb_tree_create`: nothing has changed yet.
- Waits for the keyboard and for the console.
- The comparison functions of the tree are pure and total preorders on its members.
- More than one zone of the buddy allocator; the reference counts of pages under page tables are kept apart from its page records.
- Bit operations with powers of two are written as the arithmetic they perform.
- The bounds checks of the interpreter on memory, which stop the program.
- Building basic blocks from instructions, register allocation and code emission.
- Type checking beyond inheritance and overriding.
- Errors of the disk device, and the locks of the file system.
- Directories, links, lookup of names, and the cache of inodes.
- `do_pgfault`, `mm_destroy`, the TLB, shared mappings, and copying strings from user memory.
- The first-fit page allocator, drivers, the boot code, `exec`, and the user programs.
