# User-level threads, their scheduler, and their allocator

The repository is a user-level thread library (`my_pthread.c`), a page allocator for it that keeps all of its
headers in one simulated memory (`memory_manager.c`), and benchmarks. This project models the scheduler with its
mutexes and selection algorithm, the allocator, and the parallel-sum benchmark, and proves what they keep over
whole runs. The methods of `Scheduler` work on linked queues and are proved to compute the functions of
`SchedulerModel`; `RoundRobin` and `Runs` reason about those same functions. `MemoryManager` and `Histories`, and the
methods and the state machine of `ParallelSum`, are tied together in the same way.

| file | what it holds |
|---|---|
| `SchedulerModel.dfy` | the scheduler as a state with one function per library call; the level search; termination of the yield helpers |
| `Ticks.dfy` | exactly what a tick does, threads passed over included |
| `RoundRobin.dfy` | fairness over a full round of ticks |
| `Bags.dfy`, `Runs.dfy` | every run of create, lock, unlock, exit, return and tick, and the invariant of all reachable states |
| `RunSteps.dfy` | every step keeps that invariant |
| `Reachable.dfy` | what holds of whole runs |
| `Outcomes.dfy` | what each step of a run leaves behind, spelled out, and the order of waking |
| `Preemption.dfy` | what a signal inside a lock attempt, or during its pause, does to a run |
| `Scenarios.dfy` | short runs in which a wake-up is lost, a tick never ends, a result is overwritten |
| `Queues.dfy`, `Removal.dfy` | the linked queues of tcbs, refined to sequences; look-up and removal by tid |
| `Scheduler.dfy` | the library calls over those queues, each refined to its function in `SchedulerModel` |
| `Clock.dfy`, `QuickSelect.dfy`, `Maintenance.dfy` | in-place selection and the choice of the threads to promote |
| `Layout.dfy`, `Carving.dfy`, `Assigning.dfy` | memory as headers and data at addresses, the intended layout, and what each group of header writes does to it |
| `Overreach.dfy` | what is left of the layout without header room, and after a request of negative size |
| `MemoryManager.dfy` | the allocator's list walks over that memory |
| `Histories.dfy` | whole histories of allocations: tiling, disjointness, isolation, capacity |
| `ParallelSum.dfy` | the parallel sum as interleaved loads, stores, lock and unlock steps, against the sequential sum |
| `Progress.dfy` | whether its workers come to an end |

Assumptions, with the lines they come from:

- There are at least two priority levels. With one level the search loop (my_pthread.c:587) never runs.
- A signal whose handler decides that the time slice is not used up lets `pause()` return. At the first pause of
  thread_function_wrapper (my_pthread.c:58) that is a step of the model (`DoResume` in `Runs`): the thread goes on and
  publishes its function's result over its exit value. At the other two pauses it is assumed away: a thread that waits
  for a mutex (my_pthread.c:796) takes no step until a tick runs it, and neither does a thread at the end of its wrapper
  (my_pthread.c:68), whose return would end the process. `Preemption.WaiterWoken` says what the first would do.
- A tick may come at any time once the first create has started the timer. Runs contain those ticks that neither fault
  nor recurse without end; `Reachable.TickFaults` says exactly which do: my_pthread.c:574 dereferences the thread it takes
  from a level, and a level of ended threads is searched for ever.
- SIGALRM is not masked in lock and unlock. In `Runs` a tick may come between the test-and-set of a lock attempt and
  its move to the wait queue (my_pthread.c:790-793); that move, an unlock, a create and an exit are one step each. What
  holds of runs holds with such ticks, except that nobody is stranded: there each move to a wait queue has to come in
  time, which `Preemption.ResumedAttempt` shows to be the exact condition and `Preemption.AttemptAtOnce` to hold of
  every attempt that is not interrupted. A tick between the dequeue and the enqueue of that move
  (my_pthread.c:793-794) loses the thread (`Preemption.LostBetweenQueues`); a tick inside enqueue, dequeue or unlock is
  not covered. `ParallelSum` also takes the release of the lock and the waking of a sleeper as two steps.
- Memory pages are larger than the stack that create asks for, or the stack is smaller: with pages of 4096 bytes and a
  stack of 8192 (my_pthread.c:556) my_pthread_create never returns (`Histories.StackNeverServed`), and none of the runs
  in `Runs`, nor the benchmark, gets past its first create.
- A call of my_allocate is not interrupted by a tick either, though SIGALRM is not masked there.
- Only the thread that holds a mutex unlocks it, and a thread calls exit at most once (it may still return after).
- `tmp_prev` (memory_manager.c:101) and the `next` field of a new page's first block (memory_manager.c:117-124,
  139-146) are read uninitialised in the source. Both are NULL here.
- Whether a time slice is used up (my_pthread.c:392) is a parameter of the signal handler.
- The tid of a thread that allocates is a parameter. It is 0 for the main thread both before the scheduler exists
  and after, so its pages stay its own.

Results that differ from what the code or its comments suggest:

- The guard of memory_manager.c:252 compares a block's total size with the payload and nothing else, so a request may
  also have too little header room or a negative size. For every size, memory stays a page and block list exactly when
  the block has room for the payload and two headers, or the negative size reaches back to the header of one of the
  page's blocks (`Overreach.CarveSoundExactly`); then the list is cut back there, and payloads in use with it.
  `Histories.GuardIgnoresHeaders` makes the first request of the main thread, for 4031 bytes, which breaks the layout;
  `Histories.NegativeRequest` asks for -180 bytes after 100, which frees them. Of a call in a history it is assumed
  that it comes from the library or a thread, for a size that is not negative and has header room, and that its search
  ends.
- The comment at memory_manager.c:367-372 promises NULL when a page has too little memory. The code adds a page and
  tries again. It does so for ever exactly when no page takes the request and either a fresh page would not, or the
  pages end exactly where memory does (`MemoryManager.SearchEndsExactly`).
- Otherwise a full memory goes unnoticed. assign_page does not check that it stays inside physical memory, and does so
  exactly when the rest is one page long or holds a page and one more page header (`Assigning.AssignInsideExactly`).
  When the page size divides the memory size, memory always looks as if some of it was unassigned
  (`Histories.Capacity`): up to (memory - metadata) / page size pages lie inside, and the request that needs one more
  is served from a page beyond the end (`Histories.AllocateAtCapacity`; `Histories.MemoryFilled` is a history that gets
  there). The exact-size branch (memory_manager.c:107) is then never taken. What lies beyond the end in C is not
  modelled; the model's memory goes on.
- get_and_remove_tcb (my_pthread.c:117) keeps counting the removed thread in `size`, and leaves `tail` on it when it
  was alone. The chains are right afterwards, but all queues are still valid exactly when nothing was found
  (`Removal.GetAndRemove`).
- The yield helpers return exactly when the level they select from holds a thread that has not ended, or, after an
  unlock, when nothing is scheduled; they do not look at other levels (`SchedulerModel.HaltsExactlyWhenTargetLive`,
  `SchedulerModel.ReturnsAfterUnlockExactly`). `Scenarios.TickWithoutEnd` is a run to a tick that never ends.
- A thread that exits, returns and is then woken by a signal delivers its function's result to whoever joins it
  (`Scenarios.ResultOverwritten`).
- Calling lock or exit before the first create dereferences a null tcb (my_pthread.c:787, 704); all other calls are safe
  in every run (`Reachable.NoFault`).
- The workers of the benchmark do not always come to an end. After any interleaving they still can exactly while some
  worker has still to release the lock and is not about to sleep, or nobody sleeps or is about to
  (`Progress.FinishExactly`). That is lost only by a worker that, after its last row, wakes nobody while another is
  about to sleep (`Progress.HopeLostExactly`); `Progress.SleepsForEver` is such a run. Attempts that are not interrupted
  never lose it (`Progress.CanFinish`).
- my_pthread_mutex_init (my_pthread.c:757) initialises the scheduler without recording it, so the first create does
  so again. Nothing is scheduled in between, and the mutexes' queues are not part of the scheduler's, so the model
  starts from an initialised scheduler.

## Model

| member | source | states |
|---|---|---|
| SchedulerModel.NextLevelIsFirst | my_pthread.c:579-613 | the two-stage search picks a level if and only if it is the first nonempty one in cyclic order after the current one, the current one last |
| SchedulerModel.NextLevelEmpty | my_pthread.c:600-612 | the search ends with no thread exactly when every level is empty |
| SchedulerModel.PassKeepsTarget | my_pthread.c:579-625 | a pass that asks for another has settled on its level, which holds the threads it held, and exactly the same threads are live |
| SchedulerModel.PassProgress | my_pthread.c:617-625 | after the level switch each recursive call has fewer YIELD threads or its first live thread strictly nearer the head |
| SchedulerModel.HaltsExactlyWhenTargetLive | my_pthread.c:571-632 | the helper's recursion ends if and only if the level it selects from holds a thread that is not TERMINATED |
| SchedulerModel.ReturnsAfterUnlockExactly | my_pthread.c:635-690 | the helper for a tick after an unlock returns, through the other one or not, if and only if the level it selects from is empty or holds such a thread |
| SchedulerModel.YieldFrame | my_pthread.c:571-632 | a tick only rotates levels, ends and revives nobody, and runs the head of the level it set out for, a thread that has not ended |
| SchedulerModel.YieldAfterUnlockFrame | my_pthread.c:635-690 | the same for a tick after an unlock, which runs nobody exactly when nothing is scheduled |
| SchedulerModel.ScheduleRecordsLevel | my_pthread.c:75-85 | a thread scheduled on a level carries that level as its priority |
| Ticks.YieldExact | my_pthread.c:571-632 | after the requeueing the level turns by exactly as many places as it has TERMINATED or YIELD threads before its first runnable one, which runs; HAS_RUN counts that thread only; the YIELD threads passed over become READY |
| Ticks.YieldAfterUnlockExact | my_pthread.c:635-690 | the same without a requeueing, at the level of the recorded priority |
| Ticks.UnlockerRunsOn | my_pthread.c:635-690 | so after an unlock no queue moves and the head runs on, unless it is TERMINATED or YIELD; over an empty level nobody is current |
| RoundRobin.WithinLevel | my_pthread.c:571-632 | the ticks within one level run its threads in order, each rotated to the tail and READY |
| RoundRobin.WholeLevel | my_pthread.c:571-632 | as many ticks as the level has threads restore it and enter the next nonempty level |
| RoundRobin.FullRound | my_pthread.c:571-632 | T ticks over T scheduled threads run each exactly once, the current one last, and bring back every queue, current_tcb and HAS_RUN, with all others READY |
| RunSteps.StepKeeps | my_pthread.c:523-812 | every call is safe in every reachable state, but for lock and exit before the first create; every safe step keeps the whole invariant, and keeps everybody from being stranded exactly when it is not a late move to a wait queue |
| Reachable.NoFault | my_pthread.c:699-812 | a call in any run is safe if and only if it is not a lock or exit before the first create; the dequeue of a failed lock attempt finds the caller, at the level read on entry, interrupted or not |
| Reachable.TickFaults | my_pthread.c:571-690 | in every run with a current thread, a tick neither faults nor goes on for ever if and only if some scheduled thread has not ended, or it is the one tick after an unlock that passes over an empty level |
| Reachable.EmptyLevelIsDeadlock | my_pthread.c:571-632 | in every run an empty first level means that every thread waits; if no move to a wait queue came late, each mutex waited for is held by one of them |
| Reachable.Conservation | my_pthread.c:523-812 | in every run each created thread is in exactly one level or wait queue, once; its priority is its level; the current thread heads its level or waits |
| Outcomes.TickExactly | my_pthread.c:571-690 | every tick of every run, thread by thread: who is requeued, how far the level turns, who runs, HAS_RUN, and every thread's state |
| Outcomes.UnlockExactly | my_pthread.c:804-812 | after every unlock of every run, waiters or none, AFTER_UNLOCK_PRIORITY is the unlocker's 0 and the longest waiter stands last in the first level; the next tick runs the unlocker on, unless it has ended, and moves no queue |
| Outcomes.CreateExactly | my_pthread.c:523-568 | every create of every run adds one READY thread at the end of the first level, the first one also thread 0, and changes nothing else |
| Outcomes.InitExactly | my_pthread.c:752-771 | every mutex_init of every run adds one free mutex and changes nothing else |
| Outcomes.LockExactly | my_pthread.c:789-797 | every test of every run leaves the mutex LOCKED, every move to the wait queue takes the caller from the head of its level to the end of the queue, and nothing else changes |
| Outcomes.EndExactly | my_pthread.c:38-69 | every exit, return and early end of the first pause ends the current thread with that result, or changes nothing for a thread that had exited |
| Outcomes.WokenInOrder | my_pthread.c:794-809 | in every run waiters are woken in the order in which they went to sleep |
| Outcomes.NeverYielding | my_pthread.c:571-690 | no thread of any run is in state YIELD |
| Reachable.MutualExclusion | my_pthread.c:774-812 | in every run, ticks between test-and-set and dequeue included, at most one thread is between lock and unlock, and one is exactly when the mutex is LOCKED |
| Reachable.NoStrandedWaiters | my_pthread.c:774-812 | in every run in which no move to a wait queue comes late, a nonempty wait queue means that somebody holds the mutex or a woken, scheduled thread has still to retry for it |
| Reachable.EndedForGood | my_pthread.c:574-630 | TERMINATED is absorbing, and no tick runs such a thread |
| Reachable.JoinDelivers | my_pthread.c:712-735 | a join that found its thread ends exactly once that has exited or returned, and delivers the exit value, even if the function returned afterwards; the function's result if it never exited or if it left its first pause since, which keeps the exit value exactly when the two are equal |
| Reachable.JoinFails | my_pthread.c:712-723 | join fails exactly for threads never created or waiting for a mutex |
| Preemption.AttemptAtOnce | my_pthread.c:789-797 | an attempt that is not interrupted is the one step of the specification, is safe, and is never late |
| Preemption.ResumedAttempt | my_pthread.c:789-797 | an attempt, first or repeated, interrupted between its test-and-set and its dequeue strands nobody if and only if the mutex is LOCKED when it resumes or another woken thread has still to retry |
| Scenarios.LostWakeUp | my_pthread.c:774-812 | a run of ten steps in which such an attempt leaves a thread asleep on a free mutex |
| Scenarios.TickWithoutEnd | my_pthread.c:571-632 | a run of four steps after which a tick never ends |
| Scenarios.ResultOverwritten | my_pthread.c:49-69 | a run of five steps after which join delivers the function's result instead of the exit value |
| Preemption.LostBetweenQueues | my_pthread.c:793-794 | in any run, a thread interrupted by a tick between its dequeue and its enqueue is in no queue and is not run, however things go on |
| Preemption.WaiterWoken | my_pthread.c:789-797 | a waiter whose pause ends without a tick takes a free mutex while it stands in its queue and in no level, or sends the head of the level to sleep in its stead |
| Queues.Queue.Enqueue | my_pthread.c:285-297 | appends, keeping an acyclic chain, the tail and the exact size |
| Queues.Queue.Dequeue | my_pthread.c:304-320 | takes the first thread and unlinks it, or null exactly from an empty queue |
| Queues.PerformAll | my_pthread.c:274-320 | any interleaving of enqueue and dequeue on disjoint queues is the same interleaving of append and pop-front on sequences, in what it leaves and in what each dequeue returns |
| Removal.GetTcb | my_pthread.c:90-114 | the first thread with the tid in level order, or null exactly when no level holds it |
| Removal.RemoveFrom | my_pthread.c:130-148 | the chain loses exactly the first match; where tail is left |
| Removal.GetAndRemove | my_pthread.c:117-152 | the first match in level order leaves its chain, the order of the rest and all other levels stay; all queues stay valid exactly when nothing was found |
| Scheduler.Scheduler.ScheduleThread | my_pthread.c:75-85 | rejects exactly the priorities that name no level, else appends to the level and records the priority |
| Scheduler.Scheduler.SearchLevels | my_pthread.c:581-613 | the loops over the queues find the head of the level the specification names, or null exactly when that is empty |
| Scheduler.Scheduler.YieldHelper | my_pthread.c:571-632 | terminates and takes the queues to the state that SchedulerModel.Yield gives |
| Scheduler.Scheduler.YieldAfterUnlockHelper | my_pthread.c:635-690 | the same for SchedulerModel.YieldAfterUnlock |
| Scheduler.Scheduler.SignalHandler | my_pthread.c:384-429 | with a current thread: a tick by the right helper when the slice is used up, else no change |
| Scheduler.Scheduler.MutexLockAttempt | my_pthread.c:789-797 | test-and-set; on failure the head of the caller's level moves to the tail of the wait queue; succeeds exactly on a free mutex |
| Scheduler.Scheduler.MutexUnlock | my_pthread.c:804-812 | releases, puts the longest waiter back on the first level, and records the unlocker's priority, whether or not somebody was woken |
| Scheduler.Scheduler.PublishResult | my_pthread.c:699-709 | records the result and ends the current thread |
| Scheduler.Scheduler.FunctionReturned | my_pthread.c:38-69 | publishes the function's result, unless the thread has exited and is not woken from its first pause |
| Scheduler.Scheduler.JoinFind | my_pthread.c:712-721 | the join's one search: null exactly when the thread is in no level, else its tcb |
| Scheduler.Scheduler.JoinLook | my_pthread.c:722-735 | one round of the join's loop on the tcb it found: the result, once the thread has ended |
| Scheduler.Scheduler.CreateThread | my_pthread.c:523-568 | schedules a new READY thread on the first level under the next tid, the first time also the caller as thread 0 |
| Scheduler.Scheduler.InitMutex | my_pthread.c:752-771 | a new unlocked mutex with an empty queue of its own |
| QuickSelect.RotationProgress | my_pthread.c:235-260 | when a range has been rotated left by one about its least element, as Pass says of a pass that moves neither bound, that element is strictly nearer the front |
| QuickSelect.Pass | my_pthread.c:236-253 | a pass permutes its range into no-younger and no-older sides; if it steps below the range it was such a rotation |
| QuickSelect.Select | my_pthread.c:232-263 | for every array and place k it ends, permutes the array, splits it at k, and returns an element of rank k of the input: in microseconds, at most k threads started earlier and more than k no later |
| Clock.BeforeIsEarlier | my_pthread.c:240-253 | on proper time stamps the comparison is that of elapsed microseconds |
| QuickSelect.SplitHasRank | my_pthread.c:262-262 | the element at a splitting place has that rank in any order of the elements |
| QuickSelect.RankUnique | my_pthread.c:262-262 | only one start time has a given rank, so the result does not depend on the order |
| Maintenance.Fill | my_pthread.c:492-501 | the scan from index 1 copies, in order, the threads that started no later, up to the end of the buffer |
| Maintenance.ChooseOldest | my_pthread.c:473-501 | for every number of threads the buffer of 15%, rounded up, is filled to its last entry; its first has that rank in microseconds, and no other started later |
| Layout.PayloadsDisjoint | memory_manager.c:243-318 | any two payloads of a layout are disjoint |
| Layout.PayloadHeaderApart | memory_manager.c:243-318 | payloads are disjoint from every block header of their page |
| Layout.BlockInside | memory_manager.c:243-318 | headers and payloads lie inside their page, past its header |
| Carving.CarveKeepsLayout | memory_manager.c:253-307 | with header room, allocating a block adds exactly that block to its page and leaves every other page and header as it was |
| Carving.CarveKeepsData | memory_manager.c:253-307 | with header room, it overwrites nothing that a client has stored |
| Overreach.CarveSoundExactly | memory_manager.c:252-307 | for every size, after an allocation memory is described by some layout if and only if there was room for the payload and two headers, or the size is negative and reaches back to a block |
| Overreach.CutKeepsLayout | memory_manager.c:252-307 | in the latter case it is the layout with the block list cut back there |
| Assigning.AssignKeepsLayout | memory_manager.c:107-192 | assigning appends one empty page of the owner and leaves every other page as it was |
| Assigning.AssignKeepsData | memory_manager.c:107-192 | assigning overwrites nothing that a client has stored |
| Assigning.AssignInsideExactly | memory_manager.c:130-192 | assigning stays inside physical memory if and only if the rest is one page or holds a page and a page header |
| Layout.WriteKeepsSolid | memory_manager.c:264-266 | whatever is copied into memory, no two headers or stored ranges in it overlap |
| MemoryManager.FirstServes | memory_manager.c:321-365 | read off the headers in memory before the call: the page that serves is the first of the requester that leaves strictly more than a thread's payload, or at least the library's; only if there is none is one page added |
| MemoryManager.SearchEndsExactly | memory_manager.c:321-365 | some round of the search finds a page if and only if a page takes the request, or memory is left unassigned and a fresh page would take it |
| MemoryManager.StoreKeepsLayout | memory_manager.c:373-384 | a client that stores inside payloads it was given never touches a header |
| MemoryManager.Allocator.Store | memory_manager.c:373-384 | such a store keeps the allocator valid and can be read back |
| MemoryManager.Allocator.InitMemoryMetadata | memory_manager.c:207-236 | one unassigned page covers all of memory after the metadata |
| MemoryManager.Allocator.AssignPage | memory_manager.c:99-202 | the walk over page headers in memory finds the unassigned page and makes exactly the writes of AssignMem, inside physical memory or not; nothing unassigned, no change |
| MemoryManager.Allocator.AllocateBlock | memory_manager.c:243-318 | for every size, null exactly when the trailing block is smaller than the payload; otherwise the next payload, with the layout one block longer, cut back, or lost |
| MemoryManager.Allocator.AllocateForScheduler | memory_manager.c:321-341 | ends and serves from the library's first page in list order whose last block is at least as large, by the headers in memory, else from one new page after one more try |
| MemoryManager.Allocator.AllocateForThread | memory_manager.c:344-365 | the same among the pages of the calling thread, where size_of_allocated plus the payload is below the page size, so that it never fits exactly |
| MemoryManager.Allocator.MyAllocate | memory_manager.c:373-384 | initialises once, serves the library or the thread whenever the search ends, with a result that is never null, exits exactly on other requests |
| Histories.BlocksTiled | memory_manager.c:243-318 | read off memory alone, a page's block list tiles it exactly, all ALLOCATED but the last |
| Histories.PagesTiled | memory_manager.c:99-236 | read off memory alone, while the pages lie inside memory: the page list is consecutive pages of one page size, each tiled, then one unassigned rest to the end of memory |
| Histories.CountPlusTrailing | memory_manager.c:243-307 | size_of_allocated plus the trailing block always makes one page |
| Histories.ThreadNeverFitsExactly | memory_manager.c:344-365 | so the exact-fit branch is unreachable for thread requests of any size |
| Histories.LibraryFitsExactly | memory_manager.c:253-269 | for the library it is reached, and leaves memory that no layout describes |
| Histories.HeaderNamesOwner | memory_manager.c:112-127 | the header in memory of every page names its owner |
| Histories.ExactFitSkipped | memory_manager.c:344-365 | a thread that asks for 100 bytes and then for the 3892 its page has left is given a second page |
| Histories.GuardIgnoresHeaders | memory_manager.c:252-307 | a fresh allocator serves the main thread's first request, for 4031 bytes, and its memory is described by no layout afterwards |
| Histories.NegativeRequest | memory_manager.c:252-307 | after a payload of 100 bytes a request for -180 is served, and the memory is that of an empty page |
| Histories.StackNeverServed | memory_manager.c:321-341 | no round of the search for 8192 bytes finds a page of 4096, whatever is assigned |
| Histories.Capacity | memory_manager.c:99-202 | with whole pages, k pages lie inside memory exactly for k up to (memory - metadata) / page size; the exact-size branch is unreachable, and so is a memory with nothing left to assign |
| Histories.AllocateAtCapacity | memory_manager.c:99-202 | from any history, a call that needs a page is served, and keeps all headers and data inside physical memory if and only if fewer pages than that are assigned |
| Histories.MemoryFilled | memory_manager.c:99-202 | a history of 2047 threads that fills physical memory, and goes beyond it with the next |
| Histories.OwnersNeverChange | memory_manager.c:99-202 | however a history goes on, pages keep their owners and payloads their place and size |
| Histories.GrantStands | memory_manager.c:321-384 | every payload ever handed out still has its address and the size asked for, in a page of the caller |
| Histories.HistoryDisjoint | memory_manager.c:243-384 | all payloads ever handed out are pairwise disjoint |
| Histories.GrantApartFromHeaders | memory_manager.c:99-318 | every payload ever handed out is apart from every page header and every block header, and inside physical memory if the pages are |
| Histories.OwnersIsolated | memory_manager.c:321-365 | two calls whose payloads lie in one page came from one owner: two threads, or a thread and the library, never share a page |
| Histories.AllocateNext | memory_manager.c:373-384 | my_allocate performs exactly one call of a history, returns the address granted to it, keeps all client data, and memory is inside physical memory exactly when the pages of the history are |
| ParallelSum.OnlyOwnerWrites | Benchmark/parallelCal.c:33-37 | row j is written only by worker j mod T |
| ParallelSum.StepKeeps | Benchmark/parallelCal.c:29-43 | every step of every worker keeps loaded values current, row sums right, the lock held by exactly the one in its critical section, and the shared sum equal to the rows added |
| ParallelSum.ParallelIsSequential | Benchmark/parallelCal.c:29-60 | for every number of workers and every interleaving, once all are done the shared sum and the row sums are those of the sequential computation: congruent at 32 bits to the exact sums, and equal to those that fit |
| ParallelSum.BenchmarkTotal | Benchmark/parallelCal.c:87-89 | on the benchmark's own matrix the exact sum is the rows times the sum of the squares below the columns |
| ParallelSum.OneInCriticalSection | Benchmark/parallelCal.c:38-42 | in every interleaving of test-and-set steps at most one worker is between lock and unlock |
| ParallelSum.RowWrittenByOwner | Benchmark/parallelCal.c:33-37 | in every interleaving other workers' steps leave a row as it is |
| Progress.MovesBounded | Benchmark/parallelCal.c:29-43 | in every interleaving the moves made and a bound on those left never exceed the bound at the start: nobody moves for ever |
| Progress.FinishExactly | Benchmark/parallelCal.c:97-103 | after any interleaving of test-and-set, sleep, release and wake steps the workers can still all end if and only if some waker is left, or nobody sleeps or is about to |
| Progress.HopeLostExactly | my_pthread.c:789-809 | a step takes that possibility away exactly when it wakes nobody, after its worker's last row, while another is about to sleep and no waker is left |
| Progress.NeverStuck | Benchmark/parallelCal.c:38-42 | with attempts that are not interrupted, some worker can move exactly while some worker is not done |
| Progress.CanFinish | Benchmark/parallelCal.c:97-103 | with such attempts, every partial interleaving can be continued until all workers are done |
| Progress.SleepsForEver | Benchmark/parallelCal.c:38-42 | a run of twelve steps after which a worker sleeps on a free lock and no continuation ends |
| ParallelSum.AloneIsRun | Benchmark/parallelCal.c:29-43 | steps of one worker alone are part of an interleaving |
| ParallelSum.Benchmark.Verify | Benchmark/parallelCal.c:46-60 | the loops compute the 32-bit sum of all rows, and every row sum: congruent to the exact ones, and equal to those that fit |
| ParallelSum.Benchmark.ParallelCalculate | Benchmark/parallelCal.c:29-43 | run alone from a free lock, the worker's code takes exactly the steps of its machine, ends where that is done, and leaves its rows' 32-bit sums |

## Left out

- Contexts, signal masks, alternate stacks, timers and clocks: foreign calls. A tick is a step that may come between any two calls; a time stamp is any pair of seconds and microseconds.
- time_compare (my_pthread.c:437-463): it does not compute what its comment says; its answer is a parameter of the signal handler.
- scheduler_maintenance as a tick action, and change_priority: their calls are commented out (my_pthread.c:388, 402-426). Only the selection of the threads to promote, and removal by tid, are modelled.
- fold_mlpq_to_array and get_num_scheduled_tcb: copies of the queues; the selection takes the copied records as its array, as tids with start times.
- The floating-point product in CEILING(n * 0.15): replaced by the integer ceiling of 3n/20.
- delete_tcb: the loop of get_and_remove_tcb again, with its only call commented out.
- last_yield_time and recent_start_time: written for the time-slice decision only.
- Failures of getcontext and the C representation of returned pointers: a result is a number.
- A signal between the calls that make up mutex_init, create and exit: the first masks signals, exit does too, and create is one step of a run.
- A second mutex_init on a mutex in use, and mutex_destroy, which does nothing.
- Reachable.JoinDelivers: that the thread joined ever ends is up to that thread.
- ParallelSum.Benchmark.ParallelCalculate: relates the code to the machine for one worker that nobody interrupts; a method has no interleavings, so those are stated about the machine alone.
- swap_pages and the swap file, my_deallocate (an empty body), and printing.
- The metadata record at the start of simulated memory: only its size matters to the layout, and its fields are those of the allocator.
- MemoryManager.Allocator.MyAllocate: requests whose search recurses without end are outside its contract; SearchEndsExactly says which these are.
- A request of negative size that is served: its contract says what describes memory then, not what becomes of the payloads it cuts off.
- What assign_page overwrites beyond the end of physical memory: the model's memory goes on there.
- Bytes: a header or a client's store is one cell at an address, and a copy over part of a cell removes the whole cell. What stale bytes would read as is not modelled.
- Memory addresses are unbounded integers, and so are sizes, tids and counters of the scheduler; only the benchmark's sums can overflow, and they wrap at 32 bits.
- Command-line handling and the filling of the matrix in parallelCal.c: the matrix and the number of workers are inputs, the latter at least 1.
- Benchmark/vectorMultiply.c (a simpler instance of the same pattern), Benchmark/externalCal.c, and the copy of the sources in virtual_memory_simulation-master-submit.
