# Hand-written concurrency and low-level code of an operating-systems course: a Dafny model

The repository holds small concurrent components written in C and assembly: user-level threads with
semaphores, queues and a pipeline; thread pools, latches and a parallel sum; channels in shared
memory; a context switch; a `select` server; and the number printers of a small unit-test framework.
This project models them and proves what they are meant to guarantee.

Concurrent components are step systems: an explicit program counter for every thread, the shared
state, and one action for each atomic operation of the source. `Runs` gives what they share: a run is
a sequence of states from an initial one, and an invariant of every step holds in every run. All
claims are for any scheduling and, but for the three threads of the pipeline, any number of threads.
Where a component is one object that works in place (the intrusive lists and node queues, the
semaphore, the bounded queue, the two lists of the descriptor pool, the slots of both rings, the
client table, the machine), a class does the same on fields, arrays and linked entries, and its
methods are proved to compute exactly what the step system uses. Condition variables may wake a
thread for no reason, as POSIX.1-2017 permits (System Interfaces, `pthread_cond_wait`).

The list operations are those of `uthreads/include/list.h`, thread creation and activation those of
`uthreads/uthread/uthread.c`; the table below cites the places that use them.

| file | what it models |
|---|---|
| `Runs.dfy`, `Arithmetic.dfy` | runs, invariants, ranks; counting and summing over threads; products and quotients |
| `Lists.dfy` | the intrusive circular list |
| `Semaphores.dfy`, `SemaphoreRuns.dfy` | the FIFO multi-unit semaphore, one operation and whole histories |
| `NodeQueues.dfy` | the queue of heap nodes on the list |
| `BoundedQueues.dfy` | the bounded queue made of two semaphores |
| `Pgrep.dfy` | reader, filter and presenter over two such queues |
| `PoolDrain.dfy`, `FlagPool.dfy` | the two shutdown protocols of the thread pool |
| `MonitoredPool.dfy` | the pool with pills over its real, monitor-style queue |
| `Latches.dfy` | the two countdown latches |
| `ParallelAdder.dfy` | the parallel sum over pool and latch |
| `DescriptorPool.dfy`, `DescriptorLists.dfy` | the pool with preallocated descriptors and its client |
| `TicketRing.dfy`, `TicketBuffers.dfy`, `TicketBytes.dfy` | the semaphore-and-ticket channel: its protocol, the bytes of its slots, and the two together |
| `ByteRing.dfy`, `ChannelMonitor.dfy`, `ByteChannel.dfy` | the byte channel: its buffer, its mutex and condition variables, and the two together |
| `ContextSwitch.dfy` | the context switch |
| `SelectServer.dfy` | the client table of the select server |
| `UnityPrint.dfy` | the number printers |

`dafny verify dfyconfig.toml` checks the whole project.

## Where the code gives less than it may seem to

- The ticket channel (`memchannel2`) is a queue only while puts come one at a time and gets come one
  at a time. `TicketRing.FaithfulIff` is the exact condition.
- The flag-and-pills pool may end with accepted items that have not run: those that the workers inside
  `queue_get` when the flag is set do not reach (`FlagPool.LeftoversExact`). The later pool with pills
  alone runs them all.
- The latch with the atomic counter lets a waiter pass while a signaller is still to use the lock as
  soon as there are as many signallers as counts; the locked one only when there are more
  (`TooSoonIff` in both). So a caller that destroys the latch after waiting, as `par_adder` does, with
  one signaller for each count, needs the locked one.
- `wi_create` may return NULL, and `tp_submit` does not check: it is safe for its client only because
  of the sizes (`DescriptorPool.RunsOutIff`).
- `par_adder` leaves out the last `nvals % NPROCS` values, so it adds up every array rightly only if
  NPROCS divides its length (`ParallelAdder.AgreesForSizeIff`).
- A semaphore request above the limit blocks everything behind it for ever
  (`SemaphoreRuns.GrantableIff`), and the two release loops differ when a request is for no units
  (`Semaphores.ReleaseLoopsAgree`).
- The select server counts `nready` down only when it removes a client, so a scan may go on after
  the last ready client; this is harmless, and `SelectServer.ServedOrMovedDown` rests on the count
  never running out too soon.

## Model

| member | source | states |
|---|---|---|
| `Lists.IsListEmpty` | uthreads/uthread/semaphore.c:49 | on a well-linked ring, the test on the head's link answers exactly whether the list has no element |
| `Lists.InsertTailList` | uthreads/uthread/semaphore.c:58-59 | from a well-linked ring with elements s, the four link writes leave a well-linked ring with elements s + [entry] |
| `Lists.InsertHeadList` | aula-05-13a/tpool2.c:22-24 | the same at the front: elements [entry] + s |
| `Lists.RemoveHeadList` | aula-05-04/uthreads/uthread/semaphore.c:57-63 | returns the first element, leaves a well-linked ring of the rest, and the removed entry's own forward link still leads to the next element |
| `Semaphores.ReleasedIsLongestAffordable` | uthreads/uthread/semaphore.c:86-101 | on positive requests the release loop lets go the longest prefix of the queue whose total the units in hand can pay |
| `Semaphores.ReleaseLoopsAgree` | aula-05-04/uthreads/uthread/semaphore.c:51-65 | for any units in hand >= 0 and any queue, the earlier loop releases at least as many; the two release the same waiters if and only if the queue has no place where the requests before it use up the units exactly, no fewer of them do, and the next request asks for nothing or less; so on every queue of positive requests |
| `Semaphores.ReleaseLoopsDiffer` | aula-05-04/uthreads/uthread/semaphore.c:57-64 | a queue with a zero-unit request on which the two loops differ |
| `Semaphores.Semaphore.constructor` | uthreads/uthread/semaphore.c:32-36 | a new semaphore stands for the given units and limit with nobody waiting |
| `Semaphores.Semaphore.Wait` | uthreads/uthread/semaphore.c:43-65 | the caller is parked unless the queue is empty and the units suffice; the new value is that of the specification: units taken, or request appended to the waiter list, in place on linked wait blocks |
| `Semaphores.Semaphore.ReleaseHead` | uthreads/uthread/semaphore.c:98-100 | the head waiter is paid, unlinked and made ready; its own link still leads to the next block or the head |
| `Semaphores.Semaphore.ReleaseLoop` | uthreads/uthread/semaphore.c:86-101 | the loop over the linked list leaves exactly the units, waiters and ready queue of the specification, for any start state |
| `Semaphores.Semaphore.ReleaseLoopWalking` | aula-05-04/uthreads/uthread/semaphore.c:54-63 | the loop that walks through entries it has just unlinked leaves the units, waiters and ready queue of its own specification |
| `Semaphores.Semaphore.Post` | uthreads/uthread/semaphore.c:71-102 | clamp and release loop together refine the value-level post, and the threads woken are linked into the ready queue, which is such a list too, in FIFO order |
| `Semaphores.Semaphore.PostWalking` | aula-05-04/uthreads/uthread/semaphore.c:51-65 | the earlier sem_post refines its specification and, on positive requests, has the same units, waiters and activation order as the later one |
| `SemaphoreRuns.PostReleases` | uthreads/uthread/semaphore.c:71-102 | one post on a semaphore in good order: woken followed by left is the old queue, units stay within 0 and limit, and a head that remains asks for more than the units left |
| `SemaphoreRuns.DoKeepsInv` | uthreads/uthread/semaphore.c:43-102 | every wait and every post keeps: no barging, units within bounds, nobody waiting for units that are there, every unit accounted for |
| `SemaphoreRuns.EveryHistorySafe` | uthreads/uthread/semaphore.c:43-102 | over any sequence of waits and posts: grants followed by waiters are the requests in order; 0 <= units <= limit; a waiting head asks for more than units; initial + posted = units + granted + clamped |
| `SemaphoreRuns.PostDiscards` | uthreads/uthread/semaphore.c:77-79 | a post discards nothing within the limit, and otherwise just what would exceed it |
| `SemaphoreRuns.NothingDiscarded` | uthreads/uthread/semaphore.c:71-102 | a history whose first and posted units together keep within the limit discards nothing |
| `SemaphoreRuns.FullPostsGrant` | uthreads/uthread/semaphore.c:71-102 | among any other operations, each post of at least `limit` units grants one more of the first j requests while those of them that still wait fit the limit |
| `SemaphoreRuns.FullPostsRelease` | uthreads/uthread/semaphore.c:71-102 | if every waiting request fits the limit, k full posts release at least min(k, waiters) threads |
| `SemaphoreRuns.OverLimitBlocks` | uthreads/uthread/semaphore.c:86-96 | a waiting request above the limit is never granted, nor is anything behind it, whatever happens afterwards |
| `SemaphoreRuns.GrantableIff` | uthreads/uthread/semaphore.c:71-102 | some future grants waiting request j if and only if neither it nor a request waiting before it is above the limit |
| `BoundedQueues.UnitPost` | uthreads/uthread/semaphore.c:77-101 | a one-unit post below the limit discards nothing: it wakes exactly the head waiter, or adds one unit |
| `BoundedQueues.InsertBalanced` | uthreads/tests/queue.c:38-39 | inserting and posting keeps: list length = hasItems units + granted getters, list length + hasSpace units + granted putters = size; the post is below the limit |
| `BoundedQueues.RemoveBalanced` | uthreads/tests/queue.c:47-51 | the same for removing; the list is not empty and the post is below the limit |
| `BoundedQueues.StepKeepsInv` | uthreads/tests/queue.c:33-53 | every half of every queue call by any thread keeps the counting invariant, with threads woken but not resumed counted as granted |
| `BoundedQueues.EveryRunSafe` | uthreads/tests/queue.c:24-53 | in every run of any number of threads: values leave in insertion order, both counting equations hold, removal never meets an empty list, no post is cut off by the clamp |
| `BoundedQueues.ParkedOnlyForCause` | uthreads/tests/queue.c:33-53 | when no thread is granted, getters are parked only on an empty queue and putters only on a full one |
| `BoundedQueues.BlockingQueue.constructor` | uthreads/tests/queue.c:24-30 | a new queue is empty with no item units and `size` space units |
| `BoundedQueues.BlockingQueue.BeginPut` | uthreads/tests/queue.c:36 | the first half of a put, on the real semaphore object, is the specification's request for space |
| `BoundedQueues.BlockingQueue.EndPut` | uthreads/tests/queue.c:38-39 | the second half links a node for the item at the tail and posts, on the real list and semaphore, waking the getters that the specification wakes |
| `BoundedQueues.BlockingQueue.BeginGet` | uthreads/tests/queue.c:45 | the first half of a get is the specification's request for an item |
| `BoundedQueues.BlockingQueue.EndGet` | uthreads/tests/queue.c:47-52 | the second half unlinks the head node, returns its item and posts the space |
| `NodeQueues.NodeQueue.Append` | aula-05-13a/queue.c:28-29 | a new node is linked at the tail of the well-linked list: contents grow by the item at the end |
| `NodeQueues.NodeQueue.TakeHead` | aula-05-13a/queue.c:38-39 | on a non-empty list the head node is unlinked and its item, the oldest, returned: it followed by the new contents is the old contents |
| `Pgrep.KeptFeed` | uthreads/tests/pgrep.c:43-49 | filtering the reader's whole feed leaves the matching lines in order and then the sentinel |
| `Pgrep.ContainsIff` | uthreads/tests/pgrep.c:44 | a line is kept if and only if it is something, the word, and something |
| `Pgrep.StepKeepsInv` | uthreads/tests/pgrep.c:15-63 | every step of every thread keeps: both queues balanced, and shown + queued + held + still to be kept = the whole answer |
| `Pgrep.ShownIsPrefix` | uthreads/tests/pgrep.c:53-63 | what the presenter has shown is always a prefix of the matching lines, and all of them once it has ended |
| `Pgrep.SentinelDelivered` | uthreads/tests/pgrep.c:49-57 | once the filter has ended, the presenter finds something in its queue until it has ended too |
| `Pgrep.NeverStuck` | uthreads/tests/pgrep.c:15-63 | some thread can run in every reachable state until all three have ended |
| `Pgrep.StepLowersRank` | uthreads/tests/pgrep.c:15-63 | every step of every thread strictly lowers a natural-number rank |
| `Pgrep.RunBounded` | uthreads/tests/pgrep.c:15-63 | no run is longer than the rank of its first state |
| `Pgrep.PipelineCorrect` | uthreads/tests/pgrep.c:15-63 | for all lines, words, queue sizes >= 1 and schedulings: runs are at most 8 steps per line and 8 more; nothing can run if and only if all have ended; the output is exactly the matching lines in order with their count |
| `PoolDrain.NoPillsYet` | aula-05-13a/tpool.c:56-65 | before any pill is put, the queue holds only work and no worker has stopped |
| `PoolDrain.ServedWhileJoining` | aula-05-13a/tpool.c:67-69 | once all pills are put, any worker that has not stopped can act |
| `PoolDrain.TurnedDownAtOnce` | aula-05-13a/tpool.c:45 | once tp_destroy has begun, a tp_submit that is entering returns at once without taking the lock |
| `PoolDrain.JoinsHoldNoLock` | aula-05-13a/tpool.c:66-69 | while tp_destroy joins, a submitter waits for no one but other submitters, who can go on |
| `PoolDrain.StepKeepsInv` | aula-05-13a/tpool.c:15-69 | every atomic action of submitters, destroyer and workers keeps the lock and flag protocol, pills last, pills = queued + stopped workers, and each accepted item in exactly one place |
| `PoolDrain.StepLowersRank` | aula-05-13a/tpool.c:15-69 | every action of every thread strictly lowers a natural-number rank, so shutdown terminates |
| `PoolDrain.NeverStuck` | aula-05-13a/tpool.c:44-69 | some thread can act until all submitters, workers and the destroyer have ended |
| `PoolDrain.DrainedWhenEnded` | aula-05-13a/tpool.c:54-69 | after the joins the queue is empty, every worker has taken exactly one pill, and the items run are exactly the accepted ones, each once |
| `PoolDrain.PoolCorrect` | aula-05-13a/tpool.c:15-69 | over every run from the start, with any number of workers and submitters: no work item ever sits behind a pill, the pills put are those queued and one for each stopped worker, each accepted item is in exactly one place, items are taken in the order of acceptance; a submission is turned down only once tp_destroy has begun, so before that each one that has returned was accepted; the run is finite; when nothing can act all have ended; when tp_destroy returns the queue is empty, every worker has stopped on its pill, and the accepted items have run, each once |
| `MonitoredPool.StepProjects` | aula-05-13a/tpool.c:15-69 | over the real queue with its lock, waits, signals and wakeups for no reason, every step of the whole is, seen from the pool, one of its actions or nothing, and seen from the queue, one of its steps or nothing |
| `MonitoredPool.NeverStuck` | aula-05-13a/queue.c:26-43 | some thread can act, without waking for no reason, until every thread of the pool and every queue call has ended: no signal is lost, whoever waits |
| `MonitoredPool.EveryActionIsProgress` | aula-05-13a/tpool.c:15-69 | every action lowers a natural-number measure, but a wakeup for no reason, which raises it by 3 |
| `MonitoredPool.RunsEnd` | aula-05-13a/tpool.c:15-69 | over a whole run, the actions but for wakeups for no reason are no more than a bound fixed at the start and three for each such wakeup |
| `MonitoredPool.PoolCorrect` | aula-05-13a/tpool.c:15-69 | in every run over the real queue: the list is the pool's queue, no item is behind a pill, none lost or run twice, items are taken in the order of acceptance, nothing is turned down before tp_destroy begins; when only wakeups for no reason are left all has ended; after the joins the list is empty and the accepted items have run, each once |
| `FlagPool.ServedWhileJoining` | aula-05-13/tpool.c:35-37 | while tp_destroy joins a worker that has not stopped, that worker can act |
| `FlagPool.StepKeepsInv` | aula-05-13/tpool.c:13-63 | every action keeps: at most one late removal per worker, queue length + pills to be put >= workers still to get, each accepted item in exactly one place |
| `FlagPool.NeverStuck` | aula-05-13/tpool.c:13-63 | some thread can act until all have ended |
| `FlagPool.StepLowersRank` | aula-05-13/tpool.c:13-63 | every action lowers a natural-number rank |
| `FlagPool.PoolCorrect` | aula-05-13/tpool.c:13-63 | over every run: it is finite; an accepted item runs at most once; items are taken in the order of acceptance; nothing is turned down before the flag is set and the workers have stopped, so before the flag each submission that has returned was accepted; each worker removes at most one element after the flag; pills put = queued + taken; at the end accepted items are those run plus those left in the queue |
| `FlagPool.AcceptedItemMayNotRun` | aula-05-13/tpool.c:15-22 | for every number of workers and every positive number of submitters, a complete run in which an accepted item is never run |
| `FlagPool.LeftoversExact` | aula-05-13/tpool.c:13-44 | in every run in which tp_destroy ends, the items never run are exactly those in the queue when the flag is set, but for as many of the oldest as there are workers inside queue_get at that moment, and they are the last ones accepted; so every accepted item has run if and only if there were no more items than such workers |
| `FlagPool.ItemsLeftIff` | aula-05-13/tpool.c:13-44 | from a fresh pool some complete run leaves an accepted item unrun if and only if anything is submitted |
| `ParallelAdder.SeqAdder` | aula-05-13a/tp_adder.c:45-50 | the loop returns the sum of the first nvals values |
| `ParallelAdder.TotalOne` | aula-05-13a/tp_adder.c:45-50 | the sum of one value is that value, which with additivity fixes every sum |
| `ParallelAdder.RangeSum` | aula-05-13a/tp_adder.c:25-31 | the worker's loop returns the sum of its range |
| `ParallelAdder.RangesTile` | aula-05-13a/tp_adder.c:64-70 | the ranges are adjacent, of one size and inside the array; the clamp on `end` never fires |
| `ParallelAdder.SplitRanges` | aula-05-13a/tp_adder.c:64-70 | the loop with the moving cursor fills in exactly those ranges: they start at 0, follow each other and end at NPROCS*(nvals/NPROCS) |
| `ParallelAdder.CollectSums` | aula-05-13a/tp_adder.c:78-81 | adding up the partial sums gives the sum of the first NPROCS*(nvals/NPROCS) values |
| `ParallelAdder.LatchQuiet` | aula-05-13a/cdl.c:13-27 | once the caller is past the latch, the queue is empty and every worker is back at the pool: nobody is inside the latch or a range |
| `ParallelAdder.StepKeepsInv` | aula-05-13a/tp_adder.c:25-85 | every action of the caller and of any number of workers keeps the latch accounting, each range queued, being added or summed, and the partial result |
| `ParallelAdder.NeverStuck` | aula-05-13a/tp_adder.c:52-85 | some thread can act, without a spurious wakeup, until the call has returned |
| `ParallelAdder.EveryActionIsProgress` | aula-05-13a/tp_adder.c:25-85 | every action but a spurious wakeup lowers a non-negative measure; a spurious wakeup adds 2 |
| `ParallelAdder.CallEnds` | aula-05-13a/tp_adder.c:25-85 | over a whole call, the actions but for spurious wakeups are no more than a bound fixed at the start and two for each spurious wakeup |
| `ParallelAdder.ParAdderCorrect` | aula-05-13a/tp_adder.c:52-85 | in every interleaving the value returned is the sum of the first NPROCS*(nvals/NPROCS) values, and the pool and the latch are idle on return |
| `ParallelAdder.SplitCovers` | aula-05-13a/tp_adder.c:57-57 | the ranges cover NPROCS*(nvals/NPROCS) values and leave out exactly nvals mod NPROCS |
| `ParallelAdder.AgreesWithSequential` | aula-05-13a/tp_adder.c:45-85 | par_adder's value equals seq_adder's if and only if the values left out add up to zero, so always when NPROCS divides nvals |
| `ParallelAdder.AgreesForSizeIff` | aula-05-13a/tp_adder.c:45-85 | for arrays of n values the two agree whatever the values if and only if NPROCS divides n; an array of ones tells them apart otherwise |
| `LockedLatch.StepKeepsInv` | aula-05-13a/cdl.c:13-27 | every action keeps the latch invariant, spurious wakeups included |
| `LockedLatch.PassedMeansSignallersGone` | aula-05-13a/cdl.c:13-27 | with no more signallers than counts, a waiter let through knows that every signaller has left its critical section |
| `LockedLatch.BroadcastAtZero` | aula-05-13a/cdl.c:16-17 | only the signaller of the last count broadcasts |
| `LockedLatch.TooSoonIff` | aula-05-13a/cdl.c:13-27 | for any initial count and any numbers of threads, some run lets a waiter pass before every signaller has left if and only if there is a waiter and there are more signallers than counts |
| `LockedLatch.NobodyStranded` | aula-05-13a/cdl.c:13-27 | when no thread can act, all signallers have left and every waiter has passed unless there were fewer signallers than counts |
| `AtomicLatch.StepKeepsInv` | aula-05-13/cdl.c:14-27 | every action keeps: counter <= 0 with a waiter asleep or falling asleep implies a signaller still to broadcast |
| `AtomicLatch.NoLockBeforeLast` | aula-05-13/cdl.c:15 | until the last count the signallers leave the lock alone |
| `AtomicLatch.NobodyStranded` | aula-05-13/cdl.c:14-27 | the version with the atomic counter strands nobody either |
| `AtomicLatch.PassedWhileLatchInUse` | aula-05-13/cdl.c:14-19 | whenever there are a waiter, a signaller, and no fewer signallers than counts, a run in which a waiter has passed while a signaller is still to lock the latch, or to count |
| `AtomicLatch.TooSoonIff` | aula-05-13/cdl.c:14-27 | for any initial count and any numbers of threads, some run lets a waiter pass before every signaller has left if and only if there are a waiter and a signaller and no fewer signallers than counts |
| `DescriptorPool.StepKeepsInv` | aula-05-13a/tpool2.c:8-69 | every action keeps each descriptor in exactly one of free list, queue, submitter's hand, worker's hand, and the latch counter equal to the items outstanding |
| `DescriptorPool.NeverRunsOut` | aula-05-13a/tp_adder2.c:56-82 | over any number of calls of par_sum: each descriptor in exactly one place, at most NPROCS queued or running at any time, and the free list not empty when one is taken if NPROCS + workers <= descriptors |
| `DescriptorPool.CallsServed` | aula-05-13a/tp_adder2.c:62-75 | work is taken in the order of submission, and no call returns before all its items have been run |
| `DescriptorPool.LastFreedFirst` | aula-05-13a/tpool2.c:8-25 | the descriptor given back last is the first to be used again |
| `DescriptorPool.RunsOutIff` | aula-05-13a/tpool2.c:8-19 | some run makes wi_create return NULL if and only if items per call plus workers exceed the descriptors |
| `DescriptorPool.SourceSizesSafe` | aula-05-13a/tp_adder2.c:11-82 | with 1024 descriptors, 4 items a call and 16 workers no run makes it fail |
| `DescriptorLists.DescriptorStore.constructor` | aula-05-13a/tpool2.c:71-73 | two empty rings over the embedded descriptors |
| `DescriptorLists.DescriptorStore.InitFree` | aula-05-13a/tpool2.c:28-31 | the loop links every descriptor into the free list once, in order |
| `DescriptorLists.DescriptorStore.WiCreate` | aula-05-13a/tpool2.c:8-19 | NULL exactly when no descriptor is free; otherwise the head of the free list leaves it and is in hand; the queue is untouched although both lists go through the same links |
| `DescriptorLists.DescriptorStore.WiDestroy` | aula-05-13a/tpool2.c:22-25 | a descriptor in hand becomes the head of the free list; the queue is untouched |
| `DescriptorLists.DescriptorStore.Enqueue` | aula-05-13a/tpool2.c:66 | a descriptor in hand becomes the tail of the queue; the free list is untouched |
| `DescriptorLists.DescriptorStore.Dequeue` | aula-05-13a/tpool2.c:43-44 | the head of the queue leaves it and is in hand; the free list is untouched |
| `TicketRing.StepKeepsCounts` | aula-06-03/servers_tests/ipc/memchannel2/memchan.c:51-71 | every action keeps both conservation equations |
| `TicketRing.EveryRunConserves` | aula-06-03/servers_tests/ipc/memchannel2/memchan.c:51-71 | any number of threads: has_space + has_items + puts in flight + gets in flight = capacity, and iput = iget + has_items + puts past their ticket + gets before theirs |
| `TicketRing.GetReadsItem` | aula-06-03/servers_tests/ipc/memchannel2/memchan.c:62-67 | with one put and one get in flight, the slot a get is about to read holds the item put with its ticket, and no put is copying into it |
| `TicketRing.RefinesFifo` | aula-06-03/servers_tests/ipc/memchannel2/memchan.c:51-71 | under the discipline every action is a bounded-FIFO action or invisible: posting appends, a successful wait removes the oldest item and is given its ticket |
| `TicketRing.HeldUpOnlyForCause` | aula-06-03/servers_tests/ipc/memchannel2/memchan.c:51-71 | a thread inside a call can always go on; when none is, a put can begin exactly when the queue is not full and a get exactly when it is not empty |
| `TicketRing.DisciplinedRunsFaithful` | aula-06-03/servers_tests/ipc/memchannel2/memchan.c:51-71 | in every disciplined run each get reads the item put with its own ticket, and the two copies never touch the same slot |
| `TicketRing.TwoPutsGoWrong` | aula-06-03/servers_tests/ipc/memchannel2/memchan.c:53-58 | with two puts in flight allowed, a run in which a get reads a slot not yet written |
| `TicketRing.TwoGetsGoWrong` | aula-06-03/servers_tests/ipc/memchannel2/memchan.c:64-69 | with two gets in flight allowed, a run in which a slot is overwritten before it is read |
| `TicketRing.FaithfulIff` | aula-06-03/servers_tests/ipc/memchannel2/memchan.c:51-71 | for items of any type with two values to tell apart: every run from a fresh ring is faithful if and only if puts come one at a time and gets come one at a time, or there is one slot, one thread, or no put or no get at all |
| `TicketBuffers.TicketChannel.constructor` | aula-06-03/servers_tests/ipc/memchannel2/memchan.c:29-33 | a new channel has capacity * elem_size bytes and both counters at 0 |
| `TicketBuffers.TicketsApart` | aula-06-03/servers_tests/ipc/memchannel2/memchan.c:54-65 | no ticket less than a turn of the ring away from another has its slot |
| `TicketBuffers.TurnOfTheRing` | aula-06-03/servers_tests/ipc/memchannel2/memchan.c:54-65 | any `capacity` tickets in a row have all the slots, each exactly once |
| `TicketBuffers.TicketChannel.CopyIn` | aula-06-03/servers_tests/ipc/memchannel2/memchan.c:56 | the bytes written replace exactly one slot's value in the sequence of values that the step system works on |
| `TicketBuffers.TicketChannel.CopyOut` | aula-06-03/servers_tests/ipc/memchannel2/memchan.c:67 | the bytes read are exactly that slot's value |
| `TicketBytes.BytesFollow` | aula-06-03/servers_tests/ipc/memchannel2/memchan.c:53-67 | every action keeps the bytes, read slot by slot, equal to the values of the step system, and what has been copied out equal to what has been read |
| `TicketBytes.EveryGetReturnsItsBytes` | aula-06-03/servers_tests/ipc/memchannel2/memchan.c:51-71 | under the discipline, in every run, for every element size and capacity, every get has returned exactly the bytes that the put with its ticket was given |
| `TicketBytes.CopiesApart` | aula-06-03/servers_tests/ipc/memchannel2/memchan.c:56-67 | and while a get copies bytes out no put is copying into the same bytes |
| `ByteRing.WrapIsModulo` | aula-06-03/servers_tests/ipc/memchannel/memchan.c:73-74 | the comparison that wraps an index is reduction modulo the capacity |
| `ByteRing.SlotsDisjoint` | aula-06-03/servers_tests/ipc/memchannel/memchan.c:18-19 | slots are disjoint byte ranges inside the allocation |
| `ByteRing.PutHolds` | aula-06-03/servers_tests/ipc/memchannel/memchan.c:72-75 | a put adds exactly the bytes of the item at the end of what the ring holds: it fills its slot and no other, and the wrapped index is the right one |
| `ByteRing.GetHolds` | aula-06-03/servers_tests/ipc/memchannel/memchan.c:95-98 | a get copies out exactly the bytes of the oldest element, and the ring then holds the others |
| `ByteRing.MemChannel.constructor` | aula-06-03/servers_tests/ipc/memchannel/memchan.c:24-27 | a new channel holds nothing and has capacity * elem_size bytes |
| `ByteRing.Copy` | aula-06-03/servers_tests/ipc/memchannel/memchan.c:72 | in place, the item's bytes are written from the given offset on and no other byte changes |
| `ByteRing.WriteSlot` | aula-06-03/servers_tests/ipc/memchannel/memchan.c:72 | writing an item at a slot's offset, which is inside the buffer, replaces that slot's bytes and those of no other slot |
| `ByteRing.MemChannel.Put` | aula-06-03/servers_tests/ipc/memchannel/memchan.c:72-75 | the new memory is the specified one, and whatever contents the ring held, read from its bytes, grow by exactly the bytes of the item at the end |
| `ByteRing.MemChannel.Get` | aula-06-03/servers_tests/ipc/memchannel/memchan.c:95-98 | returns exactly the bytes of the oldest element the ring held, and leaves a ring that holds the rest |
| `ChannelMonitor.StepKeepsInv` | aula-06-03/servers_tests/ipc/memchannel/memchan.c:62-106 | every action of any thread, spurious wakeups included, keeps lock ownership, FIFO contents and the wakeup accounting |
| `ChannelMonitor.EveryRunFifo` | aula-05-13a/queue.c:26-43 | in every run, bounded or not, what was put is what was got followed by the queue, and a bounded queue stays within its capacity |
| `ChannelMonitor.NoLostWakeup` | aula-06-03/servers_tests/ipc/memchannel/memchan.c:69-102 | while a getter sleeps, items <= alert getters + putters still to signal, and symmetrically for space; so with items and sleeping getters, or space and sleeping putters, some thread can act without a spurious wakeup |
| `ChannelMonitor.StuckOnlyForCause` | aula-06-03/servers_tests/ipc/memchannel/memchan.c:69-102 | when no call can advance, getters sleep only on an empty queue and putters only on a full one; signal after or before unlock, bounded or unbounded |
| `ByteChannel.RingFollows` | aula-06-03/servers_tests/ipc/memchannel/memchan.c:62-106 | every action of the whole channel keeps the ring of bytes holding exactly the monitor's queue, and what has been copied out equal to what has been got |
| `ByteChannel.EveryGetReturnsOldest` | aula-06-03/servers_tests/ipc/memchannel/memchan.c:62-106 | in every run of any number of threads, for every element size and capacity: the byte strings returned by mc_get, then those in the ring, are those given to mc_put, in order |
| `ByteChannel.NextGet` | aula-06-03/servers_tests/ipc/memchannel/memchan.c:91-98 | a get that takes an element returns the bytes of the oldest put not yet taken |
| `ByteChannel.NoLostWakeup` | aula-06-03/servers_tests/ipc/memchannel/memchan.c:69-102 | with the wait loops testing the ring's size: while a getter sleeps and the ring is not empty, or a putter sleeps and it is not full, some thread can act without a spurious wakeup |
| `ContextSwitch.SavedFrame` | uthreads/uthread/ctxswitch.s:32-42 | the six pushes leave a frame that restores the caller as it was at its call, and write nothing else but the descriptor |
| `ContextSwitch.Cpu.PopContextAndReturn` | uthreads/uthread/ctxswitch.s:58-68 | six pops and a return load the seven words of a frame in order |
| `ContextSwitch.Cpu.SaveContext` | uthreads/uthread/ctxswitch.s:32-42 | the pushes and the store produce exactly the specified memory |
| `ContextSwitch.Cpu.SwitchContext` | uthreads/uthread/ctxswitch.s:25-68 | the instructions in order compute the specified switch; running_thread is the thread asked for and the stack pointer is just above its frame |
| `ContextSwitch.Cpu.InternalExit` | uthreads/uthread/ctxswitch.s:76-101 | the instructions in order compute the specified exit, whatever cleanup_thread does below its own return address; running_thread is the thread asked for, and every word of its frame is in its register |
| `ContextSwitch.SaveStaysOnOwnStack` | uthreads/uthread/ctxswitch.s:32-42 | saving writes the caller's descriptor and its own stack only |
| `ContextSwitch.WriteAllowedIff` | uthreads/uthread/semaphore.c:58-64 | a write by the running thread is a step of the model if and only if it is not to the saved stack pointer or the saved frame of a suspended thread: linking to a wait block on another thread's stack is one |
| `ContextSwitch.StepHonoursPromises` | uthreads/uthread/ctxswitch.s:25-101 | whoever gets the processor finds the context it was promised; a promise changes only when the thread itself switches out |
| `ContextSwitch.SwitchGivesTo` | uthreads/uthread/ctxswitch.s:42-68 | a switch makes the thread asked for the running one, with the context it was promised, or right after its own call if it is the caller itself; the caller is promised the context of its call and nothing else changes hands |
| `ContextSwitch.ExitGivesTo` | uthreads/uthread/ctxswitch.s:80-101 | an exit makes the thread asked for the running one, with the context it was promised; the one that exits is gone and the others are as they were |
| `ContextSwitch.PromiseKept` | uthreads/uthread/ctxswitch.s:25-101 | over any number of steps of others, a thread that has switched out stays promised the context of its call |
| `ContextSwitch.PromiseHeld` | uthreads/uthread/ctxswitch.s:25-101 | whatever a suspended or new thread is promised, it stays promised over any number of steps of others |
| `ContextSwitch.ResumedAsItLeft` | uthreads/uthread/ctxswitch.s:25-68 | in every run a thread that switched out resumes with the return address, stack pointer, rbp, rbx and r12-r15 of its call, whatever the others write in between, parked wait blocks on its stack included, but for its saved stack pointer and its saved frame |
| `ContextSwitch.SwitchedToAtOnce` | uthreads/uthread/ctxswitch.s:25-68 | in every run, a switch to a thread that has switched out resumes it at once, with the context of its call |
| `ContextSwitch.StartsAsCreated` | uthreads/uthread/ctxswitch.s:50-68 | in every run, whenever a created thread first gets the processor, through a switch or an exit of whichever thread and however much later, it starts with exactly the context laid out on its new stack |
| `ContextSwitch.CleanupStaysBelowFrame` | uthreads/uthread/ctxswitch.s:80-101 | the call of cleanup_thread pushes its return address outside everything saved; a callee that keeps that word and what is saved of every suspended thread meets all that an exit needs: it returns to its call site and the next thread resumes as promised |
| `SelectServer.RemoveKeepsConsistent` | aula-06-03/servers_tests/echo_service/echo_ip_selchannel/echo_srv.c:90-94 | swap-removal removes exactly that client from the array and the set |
| `SelectServer.CountReady` | aula-06-03/servers_tests/echo_service/echo_ip_selchannel/echo_srv.c:149-153 | the ready clients in the array never outnumber what select reported beside the listening descriptor |
| `SelectServer.ScanSafe` | aula-06-03/servers_tests/echo_service/echo_ip_selchannel/echo_srv.c:123-139 | the scan keeps array and set in agreement, reads only ready clients it has not passed, none twice |
| `SelectServer.ServedOrMovedDown` | aula-06-03/servers_tests/echo_service/echo_ip_selchannel/echo_srv.c:123-139 | a ready client at or ahead of the scan is read, or ends at a strictly smaller index |
| `SelectServer.PassSafe` | aula-06-03/servers_tests/echo_service/echo_ip_selchannel/echo_srv.c:102-140 | a whole pass keeps the table consistent and reads each client at most once |
| `SelectServer.WhoStays` | aula-06-03/servers_tests/echo_service/echo_ip_selchannel/echo_srv.c:102-140 | exactly who is in the table after a pass: those that were and the client accepted in it, but for those it has read zero, an error or nothing from; a pass that finds accept failing or the table full changes nothing and reads nobody |
| `SelectServer.BoundIsLeast` | aula-06-03/servers_tests/echo_service/echo_ip_selchannel/echo_srv.c:82-88 | the bound after a pass is the least that covers the old one and the client accepted |
| `SelectServer.ServedIff` | aula-06-03/servers_tests/echo_service/echo_ip_selchannel/echo_srv.c:123-139 | a client is read in a full pass if and only if it is ready and the pass has not moved it to a smaller index |
| `SelectServer.ServedInOrder` | aula-06-03/servers_tests/echo_service/echo_ip_selchannel/echo_srv.c:123-139 | clients are read in the order in which they stand in the table |
| `SelectServer.PassServesOrMovesDown` | aula-06-03/servers_tests/echo_service/echo_ip_selchannel/echo_srv.c:102-140 | a whole pass that does not return early reads a ready client or moves it to a smaller index |
| `SelectServer.AlwaysConsistent` | aula-06-03/servers_tests/echo_service/echo_ip_selchannel/echo_srv.c:142-155 | after any number of passes allset = listening descriptor plus clients, entries distinct, and maxclient_fd bounds them |
| `SelectServer.WhoIsIn` | aula-06-03/servers_tests/echo_service/echo_ip_selchannel/echo_srv.c:142-155 | exactly who is in the table after any number of passes: those there at the start or accepted in some pass, and that no pass since has read zero, an error or nothing from |
| `SelectServer.StartedConsistent` | aula-06-03/servers_tests/echo_service/echo_ip_selchannel/echo_srv.c:142-155 | in particular from the start of the loop: array and set agree, entries distinct, at most FD_SETSIZE - 4 clients, and maxclient_fd bounds them and the listening descriptor |
| `SelectServer.ServedWithin` | aula-06-03/servers_tests/echo_service/echo_ip_selchannel/echo_srv.c:102-155 | a client at index k that is ready in every pass is read within k+1 passes that do not return early |
| `SelectServer.BoundIsTight` | aula-06-03/servers_tests/echo_service/echo_ip_selchannel/echo_srv.c:123-139 | for every k, k full passes in which the client at index k is ready and is not read |
| `SelectServer.Server.constructor` | aula-06-03/servers_tests/echo_service/echo_ip_selchannel/echo_srv.c:75-77 | an empty table whose set holds the listening descriptor |
| `SelectServer.Server.AddClient` | aula-06-03/servers_tests/echo_service/echo_ip_selchannel/echo_srv.c:82-88 | -1 and nothing changed when full; otherwise the client is appended and the bound raised if needed |
| `SelectServer.Server.RemClient` | aula-06-03/servers_tests/echo_service/echo_ip_selchannel/echo_srv.c:90-94 | the array after removal, in place, is the specified one and the descriptor leaves the set |
| `SelectServer.Server.ScanClients` | aula-06-03/servers_tests/echo_service/echo_ip_selchannel/echo_srv.c:123-139 | the loop over the array, with swap-removal while iterating, leaves exactly the table and reads exactly the clients of the specified scan |
| `SelectServer.Server.Process` | aula-06-03/servers_tests/echo_service/echo_ip_selchannel/echo_srv.c:102-140 | accept, admission and the loop together leave exactly the table and read exactly the clients of the specified pass, early returns included |
| `UnityPrint.ValueOfDecimal` | aula-04-29/uthreads/tests/unit_tests/unity.c:192-208 | the decimal form reads back as the number and has no leading zero |
| `UnityPrint.DecimalUnique` | aula-04-29/uthreads/tests/unit_tests/unity.c:192-208 | it is the only digit string without leading zeros that does |
| `UnityPrint.FindDivisor` | aula-04-29/uthreads/tests/unit_tests/unity.c:194-200 | the loop ends at a power of ten that leaves one digit, and ten times the divisor never exceeds the number's type on the way |
| `UnityPrint.PrintNumberUnsigned` | aula-04-29/uthreads/tests/unit_tests/unity.c:192-208 | prints the decimal form of every 64-bit number |
| `UnityPrint.HexValueOfDigits` | aula-04-29/uthreads/tests/unit_tests/unity.c:211-231 | the k lowest hexadecimal digits read as the number modulo 16^k |
| `UnityPrint.PrintNumberHex` | aula-04-29/uthreads/tests/unit_tests/unity.c:211-231 | prints the requested number of nibbles, or 16 when out of range, and the text reads as the number modulo 16 to that power |
| `UnityPrint.FillBuffer` | aula-04-29/uthreads/tests/unit_tests/unity.c:315-347 | the digits of n, last first, at least the given number of them and no further leading zero, within ten cells; reversed they read as n |
| `UnityPrint.FixedIs` | aula-04-29/uthreads/tests/unit_tests/unity.c:314-325 | the digits padded to one more than d, with a point before the last d, are the usual form of n / 10^d with exactly d decimals |
| `UnityPrint.OutputBuffer` | aula-04-29/uthreads/tests/unit_tests/unity.c:321-325 | prints the buffer backwards with the point before the last `decimals` digits |
| `UnityPrint.DropZeros` | aula-04-29/uthreads/tests/unit_tests/unity.c:308-312 | n times ten to the number of zeros dropped is the old n; the last digit left after the point is not 0 |
| `UnityPrint.ReadText` | aula-04-29/uthreads/tests/unit_tests/unity.c:316-325 | digits with a point before the last d of them read as the same digits with d after the point |
| `UnityPrint.ParseParts` | aula-04-29/uthreads/tests/unit_tests/unity.c:321-351 | mantissa and exponent printed one after the other are read back separately |
| `UnityPrint.PrintMantissa` | aula-04-29/uthreads/tests/unit_tests/unity.c:314-325 | the mantissa text is the usual form of the whole part, without a leading zero, and then exactly `decimals` digits after a point; it reads back as n with `decimals` digits after the point |
| `UnityPrint.PrintExponent` | aula-04-29/uthreads/tests/unit_tests/unity.c:328-352 | the exponent text is the sign and the usual decimal form, made two digits long if it is shorter; it reads back as the exponent |
| `UnityPrint.PrintScaled` | aula-04-29/uthreads/tests/unit_tests/unity.c:303-353 | for every six-digit n and every exponent up to five below INT_MAX: the text reads back as a number that is exactly n*10^exponent in the one form allowed, and is the usual text of that number; the 16 buffer cells are never exceeded |
| `UnityPrint.DenotesUnique` | aula-04-29/uthreads/tests/unit_tests/unity.c:303-331 | there is only one mantissa, number of decimals and printed exponent without a trailing zero after the point, and with one whole digit when an exponent is printed: the text is fixed by the number alone |

## Left out

- Wrap-around of C integers in semaphore units, partial sums and the latch and ticket counters: they are unbounded integers here, as the programs keep them small. The printers do model their types.
- The protocols of the pools, the latches, the channel's lock and condition variables and the ticket ring are step systems on values, not objects: each shared field is changed by one atomic action, and what counts is their interleaving. Aliasing between the threads' local objects is not captured. Where such an action is more than an assignment (list and slot operations), a class shows it in place.
- In the flag-and-pills pool and under the parallel sum each call of the pool's queue (`queue_put`, `queue_get`) is one action; `MonitoredPool` opens these calls up for the pool with pills only.
- Freeing of list nodes, wait blocks and lines, and use after it. `queue_put` allocates its node before it asks for space; here the node is made when it is linked. A thread's link in the ready queue is part of its descriptor; here the entry is made when the thread is made ready.
- Copies into and out of a ticket-ring slot are one action each. Under the discipline no two copies ever touch one slot, so nothing is lost; outside it a torn copy would be one more way to go wrong.
- The `terminated` flag of the earlier pool is read and written atomically here, although the source uses a plain variable.
- FlagPool.PoolCorrect: work items that call `tp_submit` themselves are not modelled; the destroyer would hold the lock they need. Nor are items that do not end.
- DescriptorPool: the client is one thread calling `par_sum`, as in the source; several clients at once are not modelled, and `tp_destroy`, which stops no worker there, is left out. The worker's wait for an item is an action that is enabled when the queue is not empty.
- A second call of `tp_destroy`, use of a pool or queue after it, creation and destruction of mutexes and condition variables, process-shared attributes, and failing allocation.
- Queues of size 0 or less, which the source would accept and on which every put waits for ever.
- Which ready thread runs next: any may. The FIFO order of the ready queue is one instance. Apart from `ut_activate`, `ut_create` and what `internal_exit` calls, the scheduler is not part of this model.
- ContextSwitch: the x87 control word and MXCSR, which the code does not save; code that writes a suspended thread's saved stack pointer or saved frame; stack overflow beyond the room that a switch itself needs. Any other write by the running code or by `cleanup_thread` is allowed, to any stack.
- ContextSwitch: the main thread's descriptor is a local of `ut_run`, and the queues of `pgrep` are locals of `main`, so both lie on the main thread's own stack; by that thread's stack the model means the part below them, which is what it pushes on while other threads exist. Threads made before `ut_run` count as made by the main thread.
- Files, terminals, sockets and the clock: what `fgets`, `accept`, `read` and `select` answer are parameters. Lines are what `fgets` returns, of any length.
- SelectServer: descriptors of FD_SETSIZE or more, errors of `select` itself, and the contents of the messages echoed. The poll, epoll and libuv servers are not modelled; the poll server does not reset `revents` for a new client, so the claims here do not carry over to it.
- UnityPrint.PrintScaled: starts at the integer and the exponent to which `UnityPrintFloat` has scaled its argument; scaling and rounding are floating-point arithmetic and are left out. Exponents within five of INT_MAX, where `exponent + decimals` would overflow, are excluded; no float has one.
- Later copies of the pools, queues and channels, the echo clients, the measurement code and the process and memory demonstrations would only repeat what is here or are input and output.
