# tge-core, modelled and proved

tge-core is a C++ foundation library. This project models the parts of it whose correctness is not visible from any
one function: the lock-free hand-off to the event loop, the job system, the ordering and the life of modules, the
free-list allocator, the two dispatchers (events and logging), and the printers and parsers. Each is a Dafny model that
takes the branches, constants and error cases of the code, together with proofs about every input, every run or every
interleaving.

`dafny verify dfyconfig.toml` checks everything.

## How it is laid out

| file | what it holds |
|---|---|
| MpscQueue.dfy | the multi-producer queue as atomic steps over a heap with reuse of freed addresses |
| EventLoopHandoff.dfy | posters, wake flag and the passes of the loop, on top of the queue's steps |
| EventLoopRuns.dfy | what holds over every run of that machine |
| EventLoopProgress.dfy | why the loop thread alone gets through what was posted |
| JobGroups.dfy | job groups: submitters, pool runners, waiters, cancellers and nested groups as atomic steps |
| JobOrder.dfy | the order in which queued jobs are taken, and the runners handed out for them |
| JobFates.dfy | what became of each job: run once, or skipped or dropped by a cancellation |
| JobProgress.dfy | who can move inside the calls on job groups, and the knots of waits that never end |
| JobCompletion.dfy | that everybody gets through exactly without a knot, and that nested waits tie none |
| ThreadPool.dfy | the pool: priorities, the condition variable, the drain at termination |
| ParallelFor.dfy | the cut of an index range into chunks, with 32- and 64-bit widths written out |
| ParallelJobs.dfy | those chunks as jobs of a group |
| Dependencies.dfy, ModuleGraph.dfy | the graph theory of module ordering, and the methods that compute the order |
| Lifecycle.dfy | start-up and shut-down of modules in that order |
| Alignment.dfy | the bit mask that aligns an address |
| FreeBlocks.dfy, FreeListAllocator.dfy | geometry of the free list, and the allocator over raw memory |
| Requests.dfy | what a request needs, computed in words that wrap, against what it means |
| Subscriptions.dfy, EventSystem.dfy | the plain subscription list, and the event system that refines it |
| Deliveries.dfy, LogDelivery.dfy | calls owed to listeners, and pending messages, bounded history and listeners with replay |
| Timers.dfy | the timers of the event loop and one pass over the due ones |
| CommandLine.dfy | Windows command-line quoting against the C runtime's parsing |
| Base64.dfy, Pem.dfy | base64 and PEM decoding against their encodings |
| Ipv4.dfy | dotted-decimal addresses |
| Wrappers.dfy, Words.dfy | an optional value, and unsigned words that wrap |

Code in which threads interleave (MpscQueue, the EventLoop and Job modules, ThreadPool) is a machine: a state, a
function that applies one atomic step, and lemmas over every schedule of steps. A step that the C++ would make on freed
memory, or that would take a counter below zero, is a fault of the machine, and no schedule reaches one. Code that mutates an
object under a lock or on one thread is a class or a method with loops, proved against a specification on values. Loops
of the code are loops here.

## What turned out differently from the comments and names of the code

- A module that names the same sibling in two ordering entries makes `Resolve` report a cycle where there is none: the
  counter counts entries and placing the sibling takes off one. `ModuleGraph.Graph.Resolve` states the exact condition,
  `ModuleGraph.RepeatedEntryStalls` gives the input.
- Two registered modules may share an id. Each then counts down those that name it, and a module that waits for itself
  can be placed (`ModuleGraph.SharedIdMisleads`). The answer is right whatever is declared if and only if the ids are
  distinct (`ModuleGraph.RightExactlyForDistinctIds`).
- The allocator's mask aligns every address if and only if the alignment is a power of two
  (`Alignment.AlignsExactlyPowers`); with alignment 3 it does not (`Alignment.ThreeDoesNotAlign`). The geometry of the
  heap holds for other alignments too.
- The allocator adds header, padding and size in 64 bits, and a sum that wraps passes its test: 2^64 - 16 bytes are
  granted from a block of 1024 (`Requests.HugeRequestIsGranted`) and its record is overwritten
  (`FreeListAllocator.ZeroTotalBreaksList`). For a power of two the test is right on every block if and only if header,
  size and alignment less one fit into a word (`Requests.AgreesExactlyIfModest`), which a caller can check;
  `FreeListAllocator.Allocator.Allocate` promises all it does under that condition.
- A job body that waits for its own group, or bodies that wait for each other's, wait for ever. From a reachable state
  everybody can get out of all calls if and only if the waits form no such knot
  (`JobCompletion.ThroughExactlyWithoutKnot`). There never is one if each wait made inside a job is for a group younger
  than the job's own (`JobCompletion.NestedWaitsGetThrough`), as that of `ParallelFor` is
  (`ParallelJobs.OwnGroupIsNested`).
- `ParallelFor` rounds its chunk limit up in 32 bits. When the sum wraps the limit is always zero, so the range is
  walked serially; the partition stays exact (`ParallelFor.LimitMeaning`).
- Work given to the pool after its last worker has left is accepted and never handed out. The pool is drained exactly
  when that does not happen (`ThreadPool.DrainedExactlyWhenInTime`), which holds if only running work submits after
  termination has begun (`ThreadPool.PoliteIsInTime`). `ThreadPool.LateWorkIsLost` is a run in which it does happen.
- The command line carries a program and its arguments exactly when the program has no quote and nothing has a NUL
  (`CommandLine.RoundTrip`); splitting on white space alone agrees exactly when every argument was written without
  quotes (`CommandLine.WordSplit`).
- A text without any PEM block whose first byte is 0x30 is one DER certificate, so the empty list of certificates does
  not round-trip through such a text (`Pem.CertificatesRoundTrip`).

## Model

| member | source | states |
|---|---|---|
| `MpscQueue.StepInv` | public/tge/threading/mpsc_queue.hpp:68-114 | no step of a producer or of the consumer touches or deletes a node that is not allocated, and the queue's invariant carries over |
| `MpscQueue.SafeReclamation` | public/tge/threading/mpsc_queue.hpp:82-114 | in every interleaving head and tail stay allocated, and a node from which a stalled producer still has to link is allocated, has a null next, lies between tail and head and is not the one being deleted |
| `MpscQueue.StepRefinesFifo` | public/tge/threading/mpsc_queue.hpp:82-114 | the exchange appends to a plain FIFO, moving the value out takes its front, no other step changes it |
| `MpscQueue.DequeuedPrefix` | public/tge/threading/mpsc_queue.hpp:82-96 | over every run the dequeued values are a prefix of the values in exchange order: none lost, repeated or reordered |
| `MpscQueue.EmptyAnswer` | public/tge/threading/mpsc_queue.hpp:84-90 | a dequeue finds nothing exactly when the FIFO is empty or the producer of its front value stands between exchange and link |
| `MpscQueue.RunOwnOrder` | public/tge/threading/mpsc_queue.hpp:68-80 | over every run each thread has pushed what it enqueued, in its order, except one value it is about to exchange in |
| `MpscQueue.ProducerOrderKept` | public/tge/threading/mpsc_queue.hpp:68-96 | what the consumer took from one thread is a prefix of what that thread enqueued |
| `MpscQueue.RunNoLeak` | public/tge/threading/mpsc_queue.hpp:68-96 | over every run each allocated node is in the queue, private to one producer, or about to be deleted |
| `MpscQueue.Destroy` | public/tge/threading/mpsc_queue.hpp:56-66 | with nobody inside an operation the destructor's walk deletes every node, each once |
| `EventLoopHandoff.StepInv` | private/threading/event_loop.cpp:69-76 | a step of a poster or of the loop never faults and keeps what wake flag, queue and batch have to do with each other |
| `EventLoopHandoff.FlagUntilReported` | private/threading/poller.cpp:118-172 | a wake sets the flag and nothing but the wait that reports it clears it |
| `EventLoopRuns.NoLostWakeup` | private/threading/event_loop.cpp:142-164 | in every interleaving, a loop about to wait with a clear flag while a callback is queued has a poster inside Post that has yet to set the flag |
| `EventLoopRuns.QuietMeansAllRan` | private/threading/event_loop.cpp:184-200 | once all posters have returned, a clear flag at the wait means that every posted callback ran, once and in order, although a drain may stop early at an unlinked node |
| `EventLoopRuns.RanPrefix` | private/threading/event_loop.cpp:184-200 | at every moment the callbacks that ran are a prefix of those posted |
| `EventLoopProgress.DrainRest` | private/threading/event_loop.cpp:184-200 | with no poster inside Post the loop's own steps, finitely many, take everything out of the queue, run it and come back to the wait |
| `EventLoopProgress.RunRest` | private/threading/event_loop.cpp:194-199 | with an empty queue the loop's own steps run what is left of the batch and come back to the wait |
| `EventLoopProgress.WakeDeliversAll` | private/threading/poller.cpp:118-172 | with no poster inside Post, the wait that reports a set flag and the pass after it run every posted callback and come back with the flag clear |
| `JobGroups.NoFault` | private/threading/job_group.cpp:27-131 | no allowed step takes the counter below zero or uses a group that does not exist |
| `JobGroups.StepInv` | private/threading/job_group.cpp:27-131 | every step of submitter, runner, waiter or canceller keeps the invariant over counters, queues, stacks and jobs |
| `JobGroups.JobAccounting` | private/threading/job_group.cpp:63-131 | in every interleaving activeJobs is the jobs counted but not queued, plus pending, plus taken and unsettled, plus dropped and not yet subtracted |
| `JobOrder.TakenInOrder` | private/threading/job_group.cpp:33-38 | in every run the jobs taken off a group's queue, to run or to drop, and then those still on it are the jobs pushed, in the order they were pushed |
| `JobOrder.CancelDropsAll` | private/threading/job_group.cpp:113-131 | a cancellation takes every queued job off its own group's queue and none off any other |
| `JobOrder.OneRunnerPerJob` | private/threading/job_group.cpp:69-79 | in every run the runners in the pool, those about to be handed to it and those begun with are as many as the jobs pushed |
| `JobFates.StepFates` | private/threading/job_group.cpp:21-131 | every step keeps what is known of starts: a check reads the flags of the group and its ancestors, a cancelling thread has its flag set, a job in its body began once, one about to be settled without a start is of a cancelled group |
| `JobFates.SettledOnce` | private/threading/job_group.cpp:41-131 | in every run each job's body begins at most once, each job is settled at most once and exactly once when it is over, and one that is over without having begun is of a group that is cancelled, itself or through an ancestor |
| `JobFates.WaitSawAllRun` | private/threading/job_group.cpp:82-98 | when Wait returns and the group is not cancelled, each job ever counted for it was run exactly once |
| `JobGroups.RunnersCoverPending` | private/threading/job_group.cpp:63-79 | runners in the pool, with those about to be handed to it, are at least as many as the pending jobs of every group |
| `JobGroups.WaitSawAllSettled` | private/threading/job_group.cpp:82-98 | when Wait returns, each job ever counted for its group has been settled once |
| `JobGroups.CurrentIsInnermost` | private/threading/job_group.cpp:10-18 | in every run a thread's current group is that of the innermost job body on it, a group created there gets exactly that parent, and parents are older than their children |
| `JobGroups.CancellationSticks` | private/threading/job_group.cpp:21-24 | groups that keep their parents and flags stay cancelled, whichever ancestor was cancelled |
| `JobGroups.StartedWasNotDoomed` | private/threading/job_group.cpp:21-52 | a body starts only if neither its group nor an ancestor was cancelled when its check began, although the flags are read one at a time |
| `JobGroups.CancelledNeverStarts` | private/threading/job_group.cpp:41-57 | once a group or an ancestor is cancelled, no job of it whose check comes later starts in any continuation of the run |
| `JobProgress.NextStep` | private/threading/job_group.cpp:27-131 | every thread inside a call has a possible next step, which changes nothing exactly if it waits while jobs of the group are out and none is queued |
| `JobProgress.SomebodyMoves` | private/threading/job_group.cpp:82-98 | in every reachable state in which somebody is inside a call, such as a wait, somebody can move, or the waits form a knot |
| `JobProgress.StuckMeansKnot` | private/threading/job_group.cpp:82-98 | if nobody can move, each waits for a job body that another of them has underneath its own wait |
| `JobProgress.KnotForever` | private/threading/job_group.cpp:85-97 | no continuation unties a knot: none of its waits ever returns |
| `JobProgress.OwnGroupKnot` | private/threading/job_group.cpp:82-98 | a run in which a body waits for its own group and so ties a knot |
| `JobCompletion.NextLowers` | private/threading/job_group.cpp:27-131 | each step that a thread inside a call takes lowers the weight of what is left to do, unless it waits with jobs out and none queued |
| `JobCompletion.KnotWasThere` | private/threading/job_group.cpp:27-131 | such steps tie no knot |
| `JobCompletion.ThroughExactlyWithoutKnot` | private/threading/job_group.cpp:82-98 | from every reachable state, a finite continuation after which nobody is inside a call exists if and only if the waits form no knot |
| `JobCompletion.WithoutKnotThrough` | private/threading/job_group.cpp:82-98 | without a knot that continuation needs no new call and no runner: threads only go on with what they are inside of |
| `JobCompletion.EveryOrderGetsThrough` | private/threading/job_group.cpp:82-98 | without a knot, in whatever order threads take their effective steps, these are bounded in number and end only when nobody is inside a call |
| `JobCompletion.NestedIsInward` | public/tge/threading/parallel_for.hpp:42-43 | if each wait of a schedule is made outside every job or for a group younger than the job's own, then in every state reached bodies wait only for groups younger than theirs |
| `JobCompletion.NestedWaitsGetThrough` | public/tge/threading/parallel_for.hpp:42-43 | under such a schedule there is never a knot, and all waits can always get through |
| `ThreadPool.OrderIsStrictTotal` | private/threading/thread_pool.hpp:38-41 | the order of work items is irreflexive, transitive and total on distinct sequence numbers |
| `ThreadPool.RunsTheBest` | private/threading/thread_pool.cpp:87-95 | a worker that takes the mutex with work queued runs an item of the queue, of the highest priority and the oldest of that priority, and that item alone leaves the queue |
| `ThreadPool.StepKeeps` | private/threading/thread_pool.cpp:29-98 | every step keeps the accounting of items accepted, queued and begun by workers, the fairness of the order and the cover of wakes |
| `ThreadPool.RunKeeps` | private/threading/thread_pool.cpp:29-98 | over every run each accepted item is queued or was begun by a worker, exactly once, and a later item was begun first only for its higher priority |
| `ThreadPool.FifoWithinPriority` | private/threading/thread_pool.hpp:36-41 | over every run workers begin items of one priority in the order of acceptance |
| `ThreadPool.NoLostWakeup` | private/threading/thread_pool.cpp:29-80 | with no notification outstanding a sleeping worker means an awake worker for each queued item, and after the broadcast of a termination nobody sleeps |
| `ThreadPool.DrainedExactlyWhenInTime` | private/threading/thread_pool.cpp:44-98 | once all workers have left, the queue is empty and all accepted items were handed out exactly when no work came after the last of them |
| `ThreadPool.PoliteIsInTime` | private/threading/thread_pool.cpp:44-98 | if only running work submits after termination has begun, all of it comes in time |
| `ThreadPool.ExitedStays` | private/threading/thread_pool.cpp:82-91 | with all workers gone no step hands anything out |
| `ThreadPool.LateWorkIsLost` | private/threading/thread_pool.cpp:29-42 | a run in which work is accepted after the only worker has left, and no worker begins it |
| `ThreadPool.TerminationMoves` | private/threading/thread_pool.cpp:44-85 | after termination has begun a worker can move or its broadcast is still to come, until all have left |
| `ThreadPool.TerminationEnds` | private/threading/thread_pool.cpp:44-98 | from every reachable state with termination begun and no broadcast owed, finitely many steps of the workers alone lead to where all have left, with every accepted item handed out if and only if no work was behind the last worker already |
| `ParallelFor.ChunkCount` | private/threading/parallel_for.cpp:9-28 | never more chunks than items, for every grain, zero included, and every thread count |
| `ParallelFor.ChunkCountMeaning` | private/threading/parallel_for.cpp:9-28 | no chunk without workers and at most one per worker; if the limit does not wrap, as many as the workers or the least number that covers the items at a grain each; if it wraps, none |
| `ParallelFor.LimitMeaning` | private/threading/parallel_for.cpp:16-17 | the chunk limit covers the items with no chunk to spare, and is zero whenever the 32-bit sum wraps |
| `ParallelFor.BoundMeaning` | public/tge/threading/parallel_for.hpp:27-30 | the bound of a chunk is the product of items and chunk over the number of chunks, rounded down |
| `ParallelFor.BoundStep` | public/tge/threading/parallel_for.hpp:27-30 | consecutive bounds are apart by the quotient of items and chunks, or by one more |
| `ParallelFor.ChunkBound` | public/tge/threading/parallel_for.hpp:27-30 | the bound computed with wrapping 64-bit product and 32-bit sum is the exact one |
| `ParallelFor.SubmitChunks` | public/tge/threading/parallel_for.hpp:25-40 | the chunks follow one another over the whole range, none is empty and no two differ by more than one |
| `ParallelFor.VisitSerially` | public/tge/threading/parallel_for.hpp:47-50 | the serial loop visits each index of the range once and no other |
| `ParallelFor.ParallelFor` | public/tge/threading/parallel_for.hpp:14-52 | what it visits itself and what its jobs visit is each index of the range once, an inverted range nothing |
| `ParallelFor.VisitedOrSkipped` | public/tge/threading/parallel_for.hpp:33-43 | in whatever order the jobs run and whichever a cancellation skips, each index is visited once or lies in one skipped job |
| `ParallelJobs.EachIndexOnce` | public/tge/threading/parallel_for.hpp:33-43 | in no run of the job group is an index visited twice, and when Wait returns and the group is not cancelled each index of the range was visited exactly once |
| `ParallelJobs.OwnGroupIsNested` | public/tge/threading/parallel_for.hpp:23-43 | a wait for a group made under the thread's current one is for a group younger than the job that makes it |
| `Dependencies.TargetsMeaning` | private/module/module_graph.cpp:129-136 | the entries counted for a module are its Required and Optional ones that name a loaded module |
| `Dependencies.ValidMeaning` | public/tge/module/version.hpp:15-27 | declarations are valid exactly if every module has contract 1, every entry names a module, a Required one a loaded one, and a loaded one has the major version and at least the minor and patch that a version other than 0.0.0 asks for |
| `Dependencies.OrderPutsTargetsFirst` | private/module/module_graph.cpp:26-31 | in an order every module that a Required or an Optional entry names stands before the entry's owner |
| `Dependencies.CountdownMeaning` | private/module/module_graph.cpp:174-182 | a counter that starts at the entries and drops once per placed dependency is zero exactly when no entry was repeated and nothing is left to wait for |
| `Dependencies.WalkFindsCycle` | private/module/module_graph.cpp:154-170 | where everybody of a set waits for somebody of it, following the waits gives a cycle inside the set |
| `Dependencies.OrderRulesOutCycles` | private/module/module_graph.cpp:141-184 | an order that puts dependencies first exists only if there is no cycle |
| `Dependencies.GreedyIsOrder` | private/module/module_graph.cpp:141-184 | always placing the lowest ready index, to the end, gives an order with dependencies first |
| `Dependencies.GreedyIsLeast` | private/module/module_graph.cpp:143-152 | that order is lexicographically the least, by input index, of all orders that put dependencies first |
| `Dependencies.StallHasCycle` | private/module/module_graph.cpp:154-170 | when nothing is ready and no entry is repeated, the unplaced modules contain a real cycle |
| `ModuleGraph.ValidateDependencies` | private/module/module_graph.cpp:50-85 | accepts exactly the declarations in which no dependency is null, a required one is missing or a loaded one is too old |
| `ModuleGraph.Depends` | private/module/module_graph.cpp:88-99 | true exactly if some Required or Optional entry names the other module |
| `ModuleGraph.CountWaiting` | private/module/module_graph.cpp:121-139 | the counter of each module is its number of ordering entries that name a loaded module, in 32 bits |
| `ModuleGraph.LowestReady` | private/module/module_graph.cpp:143-152 | the lowest index whose counter is zero |
| `ModuleGraph.OrdinaryCounts` | private/module/module_graph.cpp:173-182 | with distinct ids the counters after any placements are entries minus placed dependencies, and the placed modules are marked |
| `ModuleGraph.PlacedAreMarked` | private/module/module_graph.cpp:173-182 | whatever the ids, a placed module keeps its mark, so that none is placed twice |
| `ModuleGraph.Graph.Resolve` | private/module/module_graph.cpp:103-188 | for any modules: invalid ones place nothing, valid ones are placed by the lowest zero counter until all are or none is zero; with distinct ids it succeeds exactly when the declarations are valid, no ordering entry is repeated and there is no cycle, the order is then the least with dependencies first, what Required and Optional entries name stands before their owner, and a stall without repeated entries comes with a cycle among the unplaced |
| `ModuleGraph.ValidateModules` | private/module/module_graph.cpp:109-116 | true exactly if every module's contract and declarations are valid |
| `ModuleGraph.Graph.PlaceModules` | private/module/module_graph.cpp:118-187 | valid modules are placed by the lowest zero counter until all are or none is zero |
| `ModuleGraph.OutcomeMeaning` | private/module/module_graph.cpp:103-188 | what such a placement by counters means with distinct ids, as just said |
| `ModuleGraph.NotifyDoesNotOrder` | private/module/module_graph.cpp:24-31 | taking all Notify entries from valid modules leaves the outcome and the order as they were |
| `ModuleGraph.SharedIdMisleads` | private/module/module_graph.cpp:173-182 | whenever a module shares the id of an earlier one, it can name its own id and is put into the order although it waits for itself |
| `ModuleGraph.RightExactlyForDistinctIds` | private/module/module_graph.cpp:103-188 | with given ids the answer is right for all declarations if and only if no two of the ids are the same |
| `ModuleGraph.RepeatedEntryStalls` | private/module/module_graph.cpp:129-136 | there are valid modules without a cycle that repeat an entry, so that Resolve fails on them |
| `Lifecycle.Runtime.NotifyDependentsInitialized` | private/module/runtime.cpp:286-295 | each registered module that has an entry for the initialized one, whatever its kind, is told of it, once and in registration order, and nobody else is |
| `Lifecycle.LifeRecorded` | private/module/runtime.cpp:233-346 | all calls of a life, block by block: each Initialize is followed by the notices to exactly the registered modules that name the module if it succeeded, and by its Terminate if not; each later Terminate is preceded by the notices to exactly the modules started before it that name it; all in order and with nothing in between |
| `Lifecycle.WarningsWarn` | private/module/runtime.cpp:322-328 | who is warned of a termination are those that name the module, once each and in the order of their start |
| `Lifecycle.Runtime.InitializeModule` | private/module/runtime.cpp:244-268 | a module that succeeds becomes the last active one and is announced, one that fails is terminated at once: the calls, exactly |
| `Lifecycle.Runtime.InitializeInOrder` | private/module/runtime.cpp:240-269 | modules are initialized in order up to the first that fails: who is active then and the calls made, exactly |
| `Lifecycle.Runtime.InitializeModules` | private/module/runtime.cpp:233-282 | an order that does not resolve starts nothing; otherwise the order of the graph, with distinct ids the least, is started up to the first failure, and the calls are those of its blocks |
| `Lifecycle.Runtime.NotifyTerminating` | private/module/runtime.cpp:322-330 | every other active module that declares the terminating one hears of it, in the order of their start, and nobody else |
| `Lifecycle.Runtime.TerminateLast` | private/module/runtime.cpp:320-334 | the active module initialized last is announced to those, then terminated and dropped: the calls, exactly |
| `Lifecycle.Runtime.TerminateModules` | private/module/runtime.cpp:315-346 | every active module is terminated in this way, the last initialized first, and all registrations are gone |
| `Lifecycle.Runtime.Live` | private/module/runtime.cpp:233-346 | all calls of a life, as the blocks of LifeRecorded: the order, with distinct ids the least, up to the first module whose Initialize fails, then those that succeeded in reverse; a graph that is rejected makes no call |
| `Lifecycle.LifeIsOrderly` | private/module/runtime.cpp:233-346 | read back, those calls leave the active modules a prefix of the order after each of them and nobody active in the end, and the terminated ones are the failed one and then the succeeded ones in reverse |
| `Lifecycle.OrderlyPrefix` | private/module/runtime.cpp:233-346 | after each single call of an orderly record the active modules are a prefix of the order |
| `Lifecycle.ActiveClosed` | private/module/runtime.cpp:233-346 | at every moment of start-up and shut-down an active module's ordering dependencies are active |
| `Lifecycle.TerminationHeardByNotifyOnly` | private/module/runtime.cpp:322-330 | who is told that a dependency terminates never declared an ordering dependency on it |
| `Lifecycle.StartedAreTerminated` | private/module/runtime.cpp:315-346 | the terminated modules are the started ones, each once |
| `Alignment.AlignUp` | private/memory/free_list_allocator.cpp:54-55 | the masked address is never below the data address and less than one alignment above it, whatever the alignment |
| `Alignment.AlignUpPower` | private/memory/free_list_allocator.cpp:54-54 | for a power of two the mask gives the least multiple of the alignment that is not below the address |
| `Alignment.AlignsExactlyPowers` | private/memory/free_list_allocator.cpp:54-54 | the mask aligns every address if and only if the alignment is a power of two |
| `Alignment.ThreeDoesNotAlign` | private/memory/free_list_allocator.cpp:54-54 | with alignment 3 the data address 32 is used as it is, and is no multiple of 3 |
| `FreeBlocks.FirstFit` | private/memory/free_list_allocator.cpp:49-58 | the first block that can hold header, padding and data, in exact arithmetic |
| `Requests.WordFirstFit` | private/memory/free_list_allocator.cpp:49-58 | the first block that passes the test as it is computed in 64-bit words |
| `Requests.PowerPadding` | private/memory/free_list_allocator.cpp:53-55 | for a power of two the wrapped padding is the exact one on every address, the last of the address space included |
| `Requests.AgreesExactlyIfModest` | private/memory/free_list_allocator.cpp:52-58 | for a power of two the wrapped test agrees with the exact one on every block if and only if header, alignment less one and size fit into a word |
| `Requests.RegularFirstFit` | private/memory/free_list_allocator.cpp:49-58 | for such a request, or for any alignment that no address of the buffer wraps with, the walk finds the exact first fit |
| `Requests.RegularFit` | private/memory/free_list_allocator.cpp:52-58 | what it takes of that block reaches from the block's start to the end of the data |
| `Requests.WrongFit` | private/memory/free_list_allocator.cpp:56-58 | every other request with a power of two has a block that is too small for it and passes the test |
| `Requests.UnalignedWraps` | private/memory/free_list_allocator.cpp:52-58 | without alignment the total falls short by a whole word as soon as header and size do not fit into one |
| `Requests.HugeRequestIsGranted` | private/memory/free_list_allocator.cpp:56-58 | 2^64 - 16 bytes pass the test on a block of 1024 bytes, with a total of zero |
| `FreeBlocks.CarveKeeps` | private/memory/free_list_allocator.cpp:60-90 | taking bytes from a block keeps the list sorted, apart and inside the buffer, and clear of the bytes taken |
| `FreeBlocks.CarveSum` | private/memory/free_list_allocator.cpp:60-90 | bytes taken, bytes lost with a rest too small to keep, and bytes still free add up |
| `FreeBlocks.RestStaysExactly` | private/memory/free_list_allocator.cpp:60-90 | the rest of a block stays in the list exactly if it has more than 16 bytes |
| `FreeBlocks.InsertKeeps` | private/memory/free_list_allocator.cpp:130-149 | the sorted insertion of a block clear of the list keeps order and bounds |
| `FreeBlocks.InsertSum` | private/memory/free_list_allocator.cpp:130-149 | the free bytes grow by the block's size |
| `FreeBlocks.CoalesceKeeps` | private/memory/free_list_allocator.cpp:159-179 | the pass keeps order and total and leaves no two blocks touching |
| `FreeBlocks.CoalesceClear` | private/memory/free_list_allocator.cpp:159-179 | joining neighbours covers no byte that was not free |
| `FreeBlocks.FreeRestores` | private/memory/free_list_allocator.cpp:113-156 | giving back what was split off a block restores the list as it was |
| `FreeListAllocator.Allocator.constructor` | private/memory/free_list_allocator.cpp:11-26 | the whole buffer is one free block, or there is none if there is no memory |
| `FreeListAllocator.DetachedSound` | private/memory/free_list_allocator.cpp:60-90 | after a block is split or unlinked the records spell out the carved list, and no header of a live allocation is disturbed |
| `FreeListAllocator.TakenSound` | private/memory/free_list_allocator.cpp:52-97 | taking the first fit of a regular request leaves a sound heap in which the allocation is live, from the start of the block to the end of its data |
| `FreeListAllocator.ZeroTotalBreaksList` | private/memory/free_list_allocator.cpp:56-92 | a block taken with a total that wrapped to zero stays in the list with its record overwritten, and the list then spells out no blocks |
| `FreeListAllocator.Allocator.FindFit` | private/memory/free_list_allocator.cpp:46-105 | the walk stops at the first block that passes the test in 64-bit words, with the record in front of it, or at the end |
| `FreeListAllocator.Allocator.Allocate` | private/memory/free_list_allocator.cpp:39-110 | for every request: nothing changes and null comes back when nothing is asked for or no block passes the test, else the masked address of the first that does; for a regular request: null exactly if no block can hold header, padding and data, else the first fit is used, the pointer is new, aligned if the alignment is a power of two, its header and data lie in its own bytes and the heap stays sound |
| `FreeListAllocator.Allocator.InsertSorted` | private/memory/free_list_allocator.cpp:130-149 | the freed record is linked at its place by address and live headers are kept |
| `FreeListAllocator.Allocator.CoalesceFreeBlocks` | private/memory/free_list_allocator.cpp:159-179 | the records spell out the joined list and live headers are kept |
| `FreeListAllocator.Allocator.Deallocate` | private/memory/free_list_allocator.cpp:113-156 | exactly the allocation's bytes come back, a null pointer changes nothing, the heap stays sound |
| `FreeListAllocator.AllocatedSound` | private/memory/free_list_allocator.cpp:39-110 | after an allocation free and live extents are disjoint and inside the buffer, and free, live and lost bytes still add up to the capacity with at most one record lost per allocation |
| `FreeListAllocator.FreedSound` | private/memory/free_list_allocator.cpp:113-156 | the same after a deallocation |
| `FreeListAllocator.OverwriteSound` | private/memory/free_list_allocator.cpp:39-156 | whatever a client writes into the bytes it was given, whatever they then look like, the list and every header survive |
| `FreeListAllocator.Allocator.ClientWrites` | private/memory/free_list_allocator.cpp:39-156 | the allocator stays valid over such writes, between any two calls |
| `Subscriptions.StepInv` | private/events/system.cpp:25-98 | whatever is done to the plain list, handles only grow and one that is gone never comes back |
| `Subscriptions.RunInv` | private/events/system.cpp:25-98 | the same over every sequence of subscriptions, unsubscriptions, emissions and turns |
| `Subscriptions.DispatchOrder` | private/events/system.cpp:83-98 | in every run, with handlers that do anything, a dispatch calls in subscription order and once each only handlers live at its start, and all of those whose turn has come and that are still live |
| `Subscriptions.LiveMeaning` | private/events/system.cpp:25-80 | in every run a handle is live exactly if it was given out for its event type and not unsubscribed since |
| `Subscriptions.BegunWithTheLive` | private/events/system.cpp:83-88 | in every run a dispatch starts with exactly the handlers of its event type that are live then, in subscription order |
| `Subscriptions.CalledIfSubscribed` | private/events/system.cpp:90-96 | at its turn a handler is called exactly if it is subscribed then |
| `Subscriptions.UnsubscribedNeverCalled` | private/events/system.cpp:52-98 | a handler that is unsubscribed before its turn is never called by that dispatch, whatever follows |
| `EventSystem.System.SubscribeErased` | private/events/system.cpp:25-49 | refines the plain list's subscription with a handle never given out before |
| `EventSystem.System.Unsubscribe` | private/events/system.cpp:52-80 | refines the plain list's removal, tombstones and compaction included; an unknown handle changes nothing |
| `EventSystem.System.GetSnapshot` | private/events/system.cpp:128-156 | the cached or rebuilt snapshot is the live handlers of the type in subscription order |
| `EventSystem.System.BeginEmit` | private/events/system.cpp:83-88 | refines the start of a dispatch on the plain list |
| `EventSystem.System.NextHandler` | private/events/system.cpp:90-96 | the entry is called exactly if it is still subscribed at its turn |
| `EventSystem.CompactedOk` | private/events/system.cpp:139-150 | dropping the tombstones keeps the live handlers and their order, with no dead left to count |
| `EventSystem.KilledOk` | private/events/system.cpp:60-76 | marking one handler dead counts it exactly and takes it, and no other, from the live ones |
| `EventSystem.BuriedMeaning` | private/events/system.cpp:62-76 | the dead are dropped exactly when they are more than half of the list, else the list stays and one more is counted |
| `EventSystem.SlotsUnsubscribed` | private/events/system.cpp:60-76 | with compaction the dead never exceed half of any list, whose live handlers and order are kept |
| `EventSystem.SubscribeTies` | private/events/system.cpp:25-49 | slots, flags and handle map still stand for the plain list after a subscription, with dispatches under way |
| `EventSystem.UnsubscribeTies` | private/events/system.cpp:52-80 | the same after a removal |
| `EventSystem.BeginTies` | private/events/system.cpp:83-88 | the same after a dispatch has taken its snapshot |
| `LogDelivery.Trim` | private/logging/log_system.cpp:866-869 | dropping from the front leaves the tail that fits |
| `LogDelivery.HistoryOn` | private/logging/log_system.cpp:864-869 | a channel's history is the last 1024 of the messages moved to it, or all of them if there are fewer |
| `LogDelivery.LogSystem.Write` | private/logging/log_system.cpp:769-769 | the message is queued behind the pending ones of its channel and no listener is called |
| `LogDelivery.LogSystem.DispatchPending` | private/logging/log_system.cpp:850-907 | the pending messages become history, history is the last 1024 moved, and what the thread owes is message by message a call of each of the channel's own listeners and then of the system's, as registered then, and of nobody else |
| `LogDelivery.LogSystem.RegisterListener` | private/logging/log_system.cpp:571-615 | the listener joins under one lock; with a flush it is owed the histories of all channels in order of time stamps, messages of one channel and stamp as they stand in its history, and otherwise nothing |
| `LogDelivery.LogSystem.UnregisterListener` | private/logging/log_system.cpp:618-626 | the listener and no other leaves, the others keep their order; what it was owed it still is, and every other registration stands as before |
| `LogDelivery.LogSystem.RegisterChannelListener` | private/logging/log_system.cpp:803-811 | the listener joins its channel and is owed nothing yet |
| `LogDelivery.LogSystem.UnregisterChannelListener` | private/logging/log_system.cpp:814-822 | the listener and no other leaves the channel, and the others keep their order |
| `LogDelivery.LogSystem.FlushTo` | private/logging/log_system.cpp:825-847 | a listener of the channel is called with its history, in order; anybody else is not |
| `Deliveries.SortIsStable` | private/logging/log_system.cpp:591-594 | the replay is in order of time stamps, and messages of one time stamp keep their order |
| `Deliveries.FanDispatches` | private/logging/log_system.cpp:872-906 | a dispatch goes message by message, each of them to all listeners in their order |
| `LogDelivery.LogSystem.Deliver` | private/logging/log_system.cpp:872-906 | one owed call is made |
| `LogDelivery.MoveAll` | private/logging/log_system.cpp:856-870 | moving pending to history keeps the invariant that each registration is owed one stretch of each channel |
| `LogDelivery.RegisterAll` | private/logging/log_system.cpp:578-600 | a registration keeps it |
| `LogDelivery.ExactlyOnce` | private/logging/log_system.cpp:862-869 | under any interleaving any message, pending ones included, is delivered or owed to any listener once if it was in history at a flushing registration or moved while the listener was registered for the channel, and never otherwise; only a channel's listener can ask for more |
| `LogDelivery.PendingIsNotDue` | private/logging/log_system.cpp:769-769 | a message that is still pending is due to nobody |
| `Timers.PerformAllFollows` | private/threading/event_loop.cpp:114-133 | scheduling gives new ids and only a cancellation removes an old timer |
| `Timers.PerformAllSchedules` | private/threading/event_loop.cpp:114-133 | the new timers are exactly those that some operation schedules, with its deadline and the next free id, and that no later one cancels |
| `Timers.PassingStep` | private/threading/event_loop.cpp:203-223 | one more callback keeps all that the pass has established and leaves fewer timers of before the pass |
| `Timers.GoneForGood` | private/threading/event_loop.cpp:203-223 | a timer that ran or was cancelled in the pass is never there again, whatever is scheduled or cancelled afterwards |
| `Timers.EventLoop.ScheduleAt` | private/threading/event_loop.cpp:114-125 | adds one timer, with the deadline asked for and an id that no timer has, and keeps the others |
| `Timers.EventLoop.CancelTimer` | private/threading/event_loop.cpp:128-133 | removes the timer of that id and no other |
| `Timers.EventLoop.SoonestTimer` | private/threading/event_loop.cpp:212-212 | finds the timer that is sooner than every other |
| `Timers.EventLoop.RunTimer` | private/threading/event_loop.cpp:216-221 | takes one timer off and then runs its callback |
| `Timers.EventLoop.RunDueTimers` | private/threading/event_loop.cpp:203-223 | ends whatever the callbacks do; runs only due timers of before the pass, by deadline and then by id, none after its cancellation; every other one is still there or cancelled, and a due one is left only behind one with a sooner deadline that the pass itself scheduled |
| `CommandLine.NeedsNoQuotes` | private/process/command_line.cpp:14-14 | true exactly if no character is one that needs quotes |
| `CommandLine.WrittenAsItStands` | private/process/command_line.cpp:14-17 | an argument is written as it stands exactly if it is not empty and has no space, tab, newline, vertical tab or quote |
| `CommandLine.AppendArgument` | private/process/command_line.cpp:12-47 | appends the argument plain, or between quotes with the backslashes that the parser will take off |
| `CommandLine.BuildCommandLine` | private/process/command_line.cpp:52-66 | the C runtime's parse of the result gives back the program and the arguments exactly when a command line can carry them |
| `CommandLine.ReadBody` | private/process/command_line.cpp:20-45 | reading what was written between quotes gives back the argument and stops behind the closing quote |
| `CommandLine.ReadPlain` | private/process/command_line.cpp:14-17 | reading a plain argument gives it back, backslashes and all |
| `CommandLine.RoundTrip` | private/process/command_line.cpp:12-66 | for every program and every list of arguments the parse returns them if and only if the program has no quote and nothing has a NUL |
| `CommandLine.WordSplit` | private/process/command_line.cpp:9-17 | splitting the tail on white space alone returns the arguments if and only if all of them are plain |
| `Base64.ToChar` | private/net/pem.cpp:17-43 | the character of a sextet, which reads back as that sextet |
| `Base64.Alphabet` | private/net/pem.cpp:17-43 | the characters are those of section 4 of RFC 4648, in its order |
| `Base64.MaskedStep` | private/net/pem.cpp:71-71 | shifting in a sextet under the sixteen-bit mask keeps the last sixteen bits of the unbounded string of bits |
| `Base64.NextByte` | private/net/pem.cpp:74-78 | the byte cut from the accumulator is the next eight bits of the unbounded string |
| `Base64.Accept` | private/net/pem.cpp:69-79 | one accepted character takes the decoder's variables from one prefix of the bits to the next |
| `Base64.DecodeBase64` | private/net/pem.cpp:47-84 | accepts exactly texts of alphabet characters and white space with nothing but padding behind the data, and gives the bytes of the unbounded concatenation of their bits |
| `Base64.DecodesExactlyIfClean` | private/net/pem.cpp:46-84 | a text decodes exactly if it has nothing but letters, digits, plus, slash, padding, spaces, tabs and line ends, and none of the first four behind padding |
| `Base64.RoundTrip` | private/net/pem.cpp:47-84 | every byte string, encoded and with spaces, tabs and line ends put anywhere, decodes to itself |
| `Pem.FindMeaning` | private/net/pem.cpp:93-116 | the search gives the first occurrence, or there is none |
| `Pem.DecodeBlocks` | private/net/pem.cpp:101-118 | the certificates are those of the bodies between begin and end markers, in order, without the ones that do not decode or are empty |
| `Pem.Decode` | private/net/pem.cpp:90-121 | with no begin marker a content that starts as DER is taken whole |
| `Pem.DecodeCertificates` | private/net/pem.cpp:90-121 | the same for the markers of a certificate |
| `Pem.LinesAreClear` | private/net/pem.cpp:93-93 | marker-free whole lines cannot form a begin marker together with what follows them |
| `Pem.CertificatesRoundTrip` | private/net/pem.cpp:90-121 | any list of non-empty certificates with spaces, tabs and line ends anywhere in the base64, marker-free lines before the blocks, and any blocks that are no base64 or empty among them, is read back as that list |
| `Ipv4.ScannedIsCanonical` | private/net/parse_ipv4.cpp:16-40 | whatever the scanner has accepted so far is the canonical text of its parts |
| `Ipv4.CanonicalIsScanned` | private/net/parse_ipv4.cpp:16-40 | the scanner takes every canonical text and has its parts |
| `Ipv4.ScanText` | private/net/parse_ipv4.cpp:16-40 | the loop's variables are the scanner's state for the whole text |
| `Ipv4.ParseIpv4` | private/net/parse_ipv4.cpp:8-49 | accepts a text exactly if it is the canonical text of an address, and answers that address |
| `Ipv4.FormatMeaning` | private/net/parse_ipv4.cpp:42-46 | the first number of the text is the highest byte of the address |
| `Ipv4.FormatInjective` | private/net/parse_ipv4.cpp:42-46 | two addresses never share a text |

## Left out

- Weak memory: atomics are sequentially consistent steps, and what happens under one lock is one step.
- Operating-system calls of the poller, sockets, child processes, certificate stores, files and threads: the poller is its wake flag; a wait may return for any other reason at any time. Failures of the wake write or of the wait are not modelled.
- `Watch`, `Unwatch` and `RunReadyWatches`: only that a watch takes an id and that a pass may run any watch before its posts is modelled.
- `QueueErased` and `DispatchQueued` of the event system: the queue of deferred emissions and its drain are not modelled.
- The allocator's usage counters: `Deallocate` reads the size after the record may have been overwritten, so they do not follow requested sizes.
- FreeListAllocator.Allocator.Allocate: of a request that is not regular, whose sums can wrap, it says which block the code takes and what it answers, and nothing of the heap afterwards, which the code does not keep sound.
- FreeListAllocator.Allocator.constructor: requires room for one free-block record, without which the first record would not fit its buffer, and a buffer inside the 64-bit address space.
- FreeListAllocator.Allocator.Deallocate: requires a null pointer or one that is live, as the code does without checking.
- ModuleGraph.Graph.Resolve: what it promises with distinct ids it promises for fewer dependencies per module than the 32-bit marker value; the error messages are not modelled.
- Lifecycle.Runtime.NotifyTerminating: modules are values there, so that two with one id and the same declarations count as the same one.
- Lifecycle.Runtime.Live: update registration and logging are not modelled, and modules do not register others while they initialize.
- JobGroups.WaitSawAllSettled: says what is settled when Wait returns; when it can return is in JobCompletion. The millisecond wait in between is a step that does nothing.
- JobFates.SettledOnce: a job is its body's beginning and end; what a body computes is not modelled, and an exception that leaves it neither.
- JobCompletion.EveryOrderGetsThrough: a body that runs is taken to end, and no scheduler is assumed to be fair: it bounds the effective steps and does not say that they are taken.
- JobGroups.RunnersCoverPending: the pool between a group and its runners is the count of runners handed out; priorities are in ThreadPool.
- ThreadPool.RunKeeps: the 64-bit sequence number does not wrap; the heap of the standard priority queue is its greatest element.
- ThreadPool.NoLostWakeup: a thread that is notified competes for the mutex with all awake ones, and no fairness is assumed.
- LogDelivery.LogSystem.RegisterListener: the dispatch before the lock is a separate step, a key that registers again counts as a new listener, and channels are listed in the order they were made, where the code's container has an order of its own; messages of two channels with one time stamp may so change places.
- LogDelivery.LogSystem.DispatchPending: formatting, level masks, the terminal and file targets and the removal of channels are not modelled.
- Timers.EventLoop.RunDueTimers: the clock is a parameter, ids do not wrap, and a callback is the list of timer operations it makes.
- Base64.DecodeBase64: shifts, masks and ors of the accumulator are written as products, remainders and sums, which they equal on the values they get.
- Pem.DecodeBlocks: the search for the next begin marker is made at the start of a round and not at the end of the one before, with the same calls in the same order.
- `CStackAllocator`, `CSerialJobQueue`, `CJobScheduler::WaitForAllJobs`, math, exposure curves, profiling and configuration: not part of this model.
