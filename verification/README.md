# A model of the list, mutex, thread and proxy programs

Dafny models of four programs of this repository, with proofs of what they keep in every run.

**The locked list (2.3).** Any number of traversers and swappers work on one singly linked list with one lock per
node, taken hand over hand. `LockList` is the program as a transition system: every lock, unlock, `next` read or
write, and each of the four steps of `inc_long` (lock, load, store, unlock), is one step of one thread. `shared`
chooses between the mutex program (`2.3/mutex`) and the read/write program (`2.3/rw`), which differ only in the
traversers' lock mode. `Tickets` is the history that explains the protocol, `LockCoupling` proves that every step
keeps it, and `LockTheorems` draws the conclusions: serializability in the order in which the head was locked,
complete passes, an intact chain between any pointer writes, freedom from deadlock, exact counters. `LockProgress`
shows what gets done: whole swaps and passes with their effect on memory and counters, and that no reachable state is
a dead end. `SerialList` says what the same operations mean when carried out one after the other, and `ListStorage`
carries them out on nodes in memory: `storage_init`, the three pointer writes, one pass, `storage_destroy`; it also
shows that what `storage_init` builds is an initial state of the concurrent program.

**The caching proxy.** `ProxyMachine` is the accepting thread, the pool of workers, the handler each of them runs and
the cache table, as one transition system; a step is one critical section, one blocking call, or one step of a thread
on its own. Condition variables have Mesa semantics and spurious wakeups; the network answers anything.
`ProxyInvariant` proves what every step keeps and `ProxyTheorems` the results: handles and lifetimes, one writer for a
key, what clients receive, who waits for whom, and the order of shutting down. `ProxyProgress` follows one request
from its first step to its last, as the one that fetches and as one that reads the cache, and `ProxyCompletion` shows
that every reachable state can go on to serve another request and can be shut down. The data structures are classes:
`CacheStore` (the growing buffer and the hash), `CacheTable` (the bucket chains, which are a map), `TaskQueue` (the
head/tail queue of the pool, and a worker on it) and `ProxyHandler` (the writer's and the reader's loops on an entry
in memory). `CacheRefinement` proves that the cache in memory does what the machine's steps say.

**The futex mutex (2.4).** `Futex` has every atomic operation and system call, and each half of `counter++`, as one
step. It proves mutual exclusion, the exact accounting of sleeping and waking, and the client's final counter.
`FutexWakeups` settles whether a waiting thread is always woken. It is not: with T workers of N rounds each, a run can
leave one asleep for good while the mutex is free and everybody else has finished, exactly when T >= 4 and N >= 1, or
T == 3 and N >= 2. The client (16 workers, 1000000 rounds) is on the wrong side of that line. `FutexProgress` shows
what remains: whoever tries gets a free mutex, and, since a sleeper may also wake up unasked, every reachable state
can be continued until all rounds are done.

**Cooperative threads (1.7).** `Uthread` is the scheduler as a class over linked threads. Both ends of its queue work
at the head, so a thread that yields is chosen again at once, and the whole machine comes to running the routines one
after the other, the one created last first.

`Basics` and `Counting` hold what several models share. `dafny verify dfyconfig.toml` checks everything.

## Model

| member | source | states |
|---|---|---|
| LockTheorems.Serializable | 2.3/mutex/threads.c:52-163 | In every reachable state: a finished pass saw exactly the list left by the swaps of the swappers that locked the head before it, one after the other in that order, and none of the later ones; a pass under way has locked the beginning of that list; the swaps still to come lead from the present order to the serial result; with no lock held, memory is that result. The swap of a swapper is that of the index it drew last, by a history of the draws. |
| LockTheorems.EveryPassIsComplete | 2.3/rw/threads.c:52-90 | Also with shared read locks and overlapping readers, every finished pass visited each of the n nodes exactly once, made n - 1 comparisons, and counted as many as there are neighbours of increasing, decreasing or equal length, as its kind says. |
| LockTheorems.ChainAlwaysIntact | 2.3/mutex/threads.c:111-163 | In every reachable state, also between the pointer writes of several swaps, completing the swaps under way gives one acyclic chain from the same first node through a permutation of the nodes `storage_init` built. |
| LockTheorems.ShortListExitsUnreachable | 2.3/mutex/threads.c:117-147 | A swapper at loop counter i holds list positions i and i + 1; when it tests, its prev, a and b are positions index, index + 1 and index + 2, and it holds just these; no exit for a missing node is ever reached. |
| LockTheorems.WaitsRise | 2.3/mutex/threads.c:59-88 | Whoever waits for a thread waits for a list position before anything that thread can wait for, in the present order of the list; counters_lock comes last. |
| LockTheorems.NoWaitingCycle | 2.3/mutex/threads.c:52-163 | No reachable state has a cycle of threads waiting for one another, over node locks and counters_lock together. |
| LockTheorems.NoDeadlock | 2.3/rw/threads.c:52-162 | In every reachable state some thread can take its next step, with either kind of lock. |
| LockTheorems.CountersAreExact | 2.3/mutex/threads.c:26-31 | Each swap, pair and iteration counter equals the number of such events of its kind, less those whose `inc_long` has not stored yet: with load and store as separate steps, no increment is lost. |
| LockCoupling.StepUnraced | 2.3/mutex/threads.c:26-31 | Because of counters_lock, what a thread has loaded in `inc_long` is still the value of the counter when it stores. |
| LockTheorems.SwapCountersExplainInversions | 2.3/mutex/threads.c:149-158 | When no swap is between its first write and its counter update, the inversions of the list by string length are the initial ones, less the ascending swaps, plus the descending ones, plus a drift bounded by the equal swaps and of their parity. |
| LockTheorems.CountersStayClose | 2.3/mutex/threads.c:165-202 | In every run the ascending and descending swap counters differ by at most the equal swaps, the swaps in flight and n(n - 1)/2. |
| LockTheorems.RunInv | 2.3/mutex/threads.c:52-163 | The invariant of the protocol holds in every state of every run, and the nodes it speaks of are those of the first state. |
| LockProgress.WholeSwap | 2.3/mutex/threads.c:111-163 | From every reachable state between operations, for every kind and every index that rand_r % (count - 1) can give, a swapper can on its own carry out the whole operation; memory is then the chain with the nodes of that index exchanged exactly when their lengths require it, its counter has gone up by one exactly then, the log has that swap, and no other counter has changed. |
| LockProgress.WholePass | 2.3/mutex/threads.c:52-91 | In the same way a traverser can carry out a whole pass: it visits all nodes in order, adds to its pair counter the number of neighbours that match and one to its iteration counter, and leaves the list and the other counters alone. |
| LockProgress.PickIsLogged | 2.3/mutex/threads.c:115-149 | In every run, whatever happens in between: what a swapper enters in the log when it locks the head is the swap of its kind at the index that it drew. |
| LockProgress.OperationsFinish | 2.3/mutex/threads.c:52-163 | Every reachable state can be continued to one in which no operation is under way. |
| LockProgress.ReadersShare | 2.3/rw/threads.c:52-90 | With read locks two traversers can hold the first node at the same time. |
| LockCoupling.StepInv | 2.3/mutex/threads.c:52-163 | Every step of every thread keeps the invariant: where each thread is and what it holds, mutual exclusion, pointers that agree with the order except under a swap, counters. |
| LockCoupling.StepLinked | 2.3/mutex/threads.c:152-158 | A pointer that disagrees with the order of the list is one that a swapper between its writes is about to write, after every step. |
| LockCoupling.ReadsOrder | 2.3/mutex/threads.c:73-77 | A node that a thread holds and is not itself rewriting points to its successor in the order. |
| Tickets.RetireBooks | 2.3/mutex/threads.c:149-163 | A swapper at its place may carry out its swap although others that locked the head earlier have not: the serial result, every other thread's view of the list and the account of inversions stay what they were. |
| Tickets.NextOfView | 2.3/mutex/threads.c:73-77 | The node that a thread locks next is the next one of the list as the swaps ticketed before it leave it. |
| SerialList.RunKeeps | 2.3/mutex/threads.c:111-163 | A sequence of swaps permutes the nodes, keeps them distinct and leaves the first one in place. |
| SerialList.Hoist | 2.3/mutex/threads.c:128-158 | A swap can be carried out before earlier ones that work further down the list, with the same result. |
| SerialList.InversionsExchange | 2.3/mutex/threads.c:149-158 | Exchanging neighbours changes the number of inversions by one, in the direction their lengths give, or not at all when they are equal. |
| SerialList.InversionsBound | 2.3/mutex/threads.c:149-158 | A list of n nodes has at most n(n - 1)/2 inversions. |
| SerialList.HitsMean | 2.3/mutex/threads.c:47-50 | What a pass counts, comparison by comparison, is the number of positions at which the length increases, decreases or stays, as the kind says. |
| SerialList.HitsPartition | 2.3/mutex/threads.c:47-50 | The three kinds together count every neighbouring pair of a nonempty list exactly once. |
| SerialList.NoneFalling | 2.3/mutex/threads.c:47-50 | A pass for decreasing lengths counts nothing exactly when the list has no inversion. |
| ListStorage.StorageInit | 2.3/mutex/list.c:19-74 | Null exactly for n <= 0; otherwise an empty sentinel and n fresh nodes with the drawn strings in order, chained without repetition, and count == n. |
| ListStorage.Storage.Link | 2.3/mutex/list.c:69-70 | Linking a new node behind the last one appends it to the chain. |
| ListStorage.StorageDestroy | 2.3/mutex/list.c:76-90 | Gives back every node of the list, each once, in order; nothing for a null list. |
| ListStorage.SwapNext | 2.3/mutex/threads.c:154-156 | The three pointer writes turn the chain into the chain with the two nodes exchanged. |
| ListStorage.Storage.DoRandomSwap | 2.3/mutex/threads.c:111-163 | On nodes in memory, for a chain of any length: the nodes number index and index + 1 are exchanged, and the counter goes up, exactly when both exist and their lengths are decreasing, increasing or different, as the kind says; otherwise, and when count < 2, nothing happens. |
| ListStorage.Storage.TraverseOnce | 2.3/mutex/threads.c:54-90 | One pass visits the nodes after the sentinel in order, and counts as many as there are neighbours of increasing, decreasing or equal length, as its kind says. |
| ListStorage.StorageIsInitial | 2.3/mutex/list.c:19-74 | What storage_init builds, with threads that have not started, is an initial state of the concurrent program. |
| ProxyTheorems.RefcountsAreHandles | cache/cache.c:107-184 | In every reachable state the reference count of an entry is the number of handlers that hold it, and a held entry is in the table, not destroyed and not about to be. |
| ProxyTheorems.DestroyedOnce | cache/cache.c:246-289 | Every entry ever created is in exactly one place: in the table, on its way to be destroyed by one worker, or destroyed, once. |
| ProxyTheorems.HandlersUseLiveEntries | proxy/proxy.c:300-433 | A handler never works with a destroyed entry, and whoever destroys one is the last. |
| ProxyTheorems.OneWriterPerKey | cache/cache.c:107-184 | Two handlers that fetch at the same time fetch for different keys. |
| ProxyTheorems.WritersDecide | proxy/proxy.c:320-433 | A writer that releases its entry has set exactly one of complete and failed; no entry is ever both; one that is neither has a writer at work; one that nobody holds and that is in the table is complete. |
| ProxyTheorems.FailedEntryNeverReplaced | cache/cache.c:125-157 | The branch of cache_start_or_join that drops and recreates a failed entry is never taken. |
| ProxyTheorems.ClientsReceivePrefixes | proxy/proxy.c:137-184 | What any client of an entry has been sent, the 502 reply apart, is a prefix of the entry's data, and that of what the origin has sent, at all times. |
| ProxyTheorems.ClientsAgree | proxy/proxy.c:137-184 | Of any two clients of one entry one has been sent a prefix of what the other has been sent. |
| ProxyTheorems.CompleteMeansWhole | proxy/proxy.c:156-161 | A reader that stopped on the complete exit has sent all that the origin has sent. |
| ProxyTheorems.ReadersPersist | proxy/proxy.c:141-183 | No step, by whichever thread, and no wakeup, spurious or not, makes a reader give up: it goes on reading the same entry until it has sent all of a complete one, or the entry has failed, or its client takes less than a whole piece. |
| ProxyTheorems.BodiesOnlyGrow | cache/cache.c:186-235 | Between any two states of a run an entry keeps its key, its data only grows, and that of a complete entry does not change. |
| ProxyTheorems.SleepingReaderHasWriter | proxy/proxy.c:144-168 | A handler asleep on an entry has sent all its data, the entry is neither complete nor failed, and another worker is running its writer and has a step that moves it on. |
| ProxyTheorems.SomeWorkerAwake | threadpool/threadpool.c:118-144 | With one worker or more: while a task is queued or a handler unfinished, some worker is neither asleep nor waiting for data. |
| ProxyTheorems.ShutdownProgresses | threadpool/threadpool.c:93-102 | While the main thread joins the workers, a worker can go on until all have exited. |
| ProxyTheorems.WorkConserving | threadpool/threadpool.c:122-141 | If a worker sleeps on has_work, at least as many workers are awake and free as tasks are queued, under spurious wakeups too. |
| ProxyTheorems.TasksInOrder | threadpool/threadpool.c:62-91 | Accepted tasks are started in the order of acceptance, each once, and a started task is finished once or run by exactly one worker. |
| ProxyTheorems.StopFinishesEverything | threadpool/threadpool.c:93-116 | When the joins of threadPoolStop are over every accepted handler has run to its end, the clean-up loop finds nothing, and every entry left in the table is complete and held by nobody. |
| ProxyTheorems.EverythingDestroyedOnce | proxy/proxy.c:503-505 | After cache_table_destroy every entry ever created has been destroyed exactly once. |
| ProxyTheorems.RunInv | proxy/proxy.c:186-508 | The invariant of pool, cache and handlers together holds in every state of every run. |
| ProxyProgress.WriterServes | proxy/proxy.c:300-433 | From every reachable state, for every key not in the cache and every conversation with its origin in chunks of 1 to 8192 bytes, a worker that has read the request serves it by its own steps: if it connects and its request goes out, the entry holds what the conversation gave as long as memory could be had, is complete exactly when that was a whole body, and the client got of each chunk what it took until it refused some; else the entry fails without data. A complete entry stays in the table with no handle; a failed one is destroyed, once. |
| ProxyProgress.WriterCaches | proxy/proxy.c:320-433 | With memory and a client that takes everything, client and cache have exactly what the origin sent, and the entry is complete exactly when that was the whole body. |
| ProxyProgress.ReaderServes | proxy/proxy.c:137-184 | For every key in the cache, in any state and without memory for a new entry, such a worker sends nothing of a failed entry and all there is of another, as far as the client takes it, in pieces of at most 4096 bytes; then it is done, or, if the client has everything and the entry is neither complete nor failed, waits for more. |
| ProxyProgress.HitAfterMiss | proxy/proxy.c:300-433 | A client that asks for a key after another one has fetched it gets the same bytes, from the same entry, and nothing is fetched again. |
| ProxyProgress.GivesUp | proxy/proxy.c:186-307 | A request that is rejected, or for which no entry can be had, ends with the cache as it was. |
| ProxyCompletion.NextRequest | proxy/proxy.c:470-500 | As long as the proxy accepts clients, every reachable state can be continued so that one more connects and is served: with all of an entry of its key that was complete, or with what its origin answered. |
| ProxyCompletion.ShutsDown | proxy/proxy.c:502-507 | Every reachable state can be continued until cache_table_destroy has returned, and then every task accepted by now has been run to its end, once, nothing was dropped, and every entry ever created has been destroyed, once. |
| ProxyInvariant.StepInv | proxy/proxy.c:300-433 | Every step of every thread keeps that invariant. |
| ProxyHandler.Fetch | proxy/proxy.c:367-433 | The writer's loop on an entry in memory ends with exactly one of complete and failed; it stops at the first chunk for which there is no memory, or at the end of the conversation; the data is what arrived until then, and the client was sent of each chunk what it took, until it refused some. |
| ProxyHandler.FetchedMeans | proxy/proxy.c:367-433 | The entry is complete exactly when the origin has sent a whole body, provided memory could be had, and then it holds that body; the client was sent a prefix, all of it if it took every chunk. |
| ProxyHandler.Answer | proxy/proxy.c:372-428 | One turn of that loop: which answers end it, and with which mark; what is stored and what the client gets of a chunk. |
| ProxyHandler.StreamFromCache | proxy/proxy.c:137-184 | The reader's loop while a writer changes the entry before each of its turns in any way: it always sends a prefix of the data; it ends on the complete exit only with the whole body sent, on the failed one only if the entry has failed, asleep only with all data sent and every change over, and early only if the client refuses bytes. When memory can be had, where it ends and how much it has sent by then are determined for every client and every series of changes. |
| ProxyHandler.EndsMeans | proxy/proxy.c:137-184 | So a client that takes every piece gets the whole final body of an entry that does not fail; the end is complete or failed as the entry is, and asleep exactly when no change marks it. |
| ProxyHandler.EvolvedMeans | proxy/proxy.c:137-184 | What the changes come to: the first mark among them decides the end, and the body is the old one followed by the chunks before that mark. |
| CacheStore.HashKey | cache/cache.c:10-17 | The hash, which wraps at every step, is the base-33 number of the key after 5381, wrapped once. |
| CacheStore.AppendFits | cache/cache.c:198-220 | The copy stays inside the buffer exactly when size + len does not wrap around size_t; doubling the capacity may wrap. |
| CacheStore.Entry.Reserve | cache/cache.c:198-217 | Room for what is needed with the bytes kept, or no change when realloc fails; the capacity is at most the first capacity or twice the need, and all copies made by realloc together are at most the capacity, while that is at most half of what size_t can count. |
| CacheStore.Entry.Append | cache/cache.c:186-226 | The chunk is added behind the data, or the data stays and the entry fails; which of the two, exactly; no allocation and no copying when the chunk fits. When size + len wraps around size_t, and only then, the copy would run past the block. |
| CacheTable.Table.constructor | cache/cache.c:67-85 | An empty table of 1024 buckets. |
| CacheTable.Table.Find | cache/cache.c:116-166 | Walking the bucket of a key finds the entry that the map has for it, or nothing. |
| CacheTable.Table.Insert | cache/cache.c:176-177 | Linking an entry at the head of its bucket adds its key to the map and disturbs no other. |
| CacheTable.Table.Unlink | cache/cache.c:274-283 | Taking an entry out of its bucket removes its key from the map and disturbs no other. |
| CacheTable.Table.StartOrJoin | cache/cache.c:107-184 | As an operation on the map: a hit adds a handle to the entry of the key; a miss, or a failed entry that nobody holds, gives a new empty entry with one handle, or null when none can be had, and the failed entry is destroyed; no other count changes. |
| CacheTable.Table.Release | cache/cache.c:246-289 | One handle less; the entry leaves the map and is destroyed exactly when that was the last one and the entry is not complete, or has failed. |
| CacheTable.Table.Destroy | cache/cache.c:87-105 | Destroys exactly the entries of the map, each once. |
| CacheRefinement.Join | cache/cache.c:107-184 | The entries and the table in memory after cache_start_or_join are what ProxyMachine.StartOrJoin makes of theirs, and the caller gets the handle and the part that it says. |
| CacheRefinement.Leave | cache/cache.c:246-289 | The same for cache_release and the machine's Touch, Kept and Unlink. |
| CacheRefinement.Clear | cache/cache.c:87-105 | cache_table_destroy destroys exactly the entries that ProxyMachine.DestroyAll counts as destroyed, each once. |
| CacheRefinement.Store | cache/cache.c:186-226 | The same for cache_append_data and the machine's WAppend, other entries' buffers untouched. |
| CacheRefinement.JoinMiss | cache/cache.c:125-183 | The machine's result for a key without a usable entry, as a change of the entries and the map in memory. |
| CacheTable.RepresentsRemove | cache/cache.c:274-283 | Without one entry the chains represent the map without its key: each key at most once, in the bucket its hash gives. |
| TaskQueue.Pool.Submit | threadpool/threadpool.c:62-91 | -1 for a null function, without memory, or after stop, and nothing is accepted; otherwise the task goes behind all accepted ones, and head and tail describe the chain of those not taken. |
| TaskQueue.Pool.Take | threadpool/threadpool.c:124-137 | A worker gets the first accepted task that has not been taken, or leaves when stop is set and there is none. |
| TaskQueue.Pool.Await | threadpool/threadpool.c:124-125 | While others submit, take and stop, a worker waits until there is a task or the pool is stopped, and no longer; it stays asleep only when neither is so and nothing more is going to happen. |
| TaskQueue.Pool.Work | threadpool/threadpool.c:118-144 | While others submit, take and stop before each of its turns, a worker runs accepted tasks in their order, each once; if nobody else takes any, exactly those that were queued and all that are submitted before the first stop. It leaves exactly when the pool has been or is stopped, and otherwise ends up asleep; either way every accepted task has been taken. |
| TaskQueue.Pool.Discard | threadpool/threadpool.c:104-110 | The clean-up loop frees exactly the tasks not taken; none, exactly when all have been taken. |
| Futex.FutexAccounting | 2.4/mutex/mutex.c:17-33 | In every reachable state: threads about to wait, refused waits, sleepers and spurious wakeups together equal one for state 2, pending wakeups and wasted wakeups. |
| Futex.SleepersOfFreeMutex | 2.4/mutex/mutex.c:17-33 | A free mutex with no wakeup pending has nobody asleep or about to sleep exactly when as many wakeups were wasted as waits came to nothing; with no wakeup wasted it has no sleeper. |
| Futex.MutualExclusion | 2.4/mutex/mutex.h:14-18 | The state is nonzero exactly when there is an owner, and there is at most one. |
| Futex.OwnershipStays | 2.4/mutex/mutex.c:20-26 | No step of another thread, the 1 to 2 exchange included, frees the mutex, takes it over or changes the counter. |
| Futex.FinalCounter | 2.4/mutex/main_mutex.c:27-37 | When all T workers have done their N rounds, with `counter++` split in two, the counter is T * N and the mutex is free. |
| Futex.StepInv | 2.4/mutex/mutex.c:17-33 | Every step keeps ownership, the account of sleeping and waking, and the account of the counter. |
| FutexProgress.GetsTheMutex | 2.4/mutex/mutex.c:17-27 | From every reachable state with the mutex free, a thread with rounds left that is neither asleep nor about to wake another locks it by steps of its own alone. |
| FutexProgress.AllCanFinish | 2.4/mutex/main_mutex.c:27-37 | Every reachable state can be continued to one in which all T workers have done their N rounds, and then the counter is T * N. |
| FutexWakeups.StrandsExactlyWhen | 2.4/mutex/mutex.c:17-33 | A run of T workers with N rounds each can leave a thread asleep with the mutex free and nothing left to wake it exactly when T >= 4 and N >= 1, or T == 3 and N >= 2. |
| FutexWakeups.FewNeverStrand | 2.4/mutex/mutex.c:17-33 | With fewer threads or rounds no reachable state is such. |
| FutexWakeups.ManyStrand | 2.4/mutex/main_mutex.c:27-37 | For all other numbers, a run that ends in such a state. |
| Uthread.Scheduler.QPush | 1.7/uthread.c:10 | A thread is pushed at the head of the queue. |
| Uthread.Scheduler.QPopReady | 1.7/uthread.c:12-19 | The first thread that is READY is taken out wherever it is, and the others stay in order; nothing changes when there is none. |
| Uthread.Scheduler.Create | 1.7/uthread.c:28-55 | -1 for a null argument or when malloc or getcontext fails, and the queue stays; otherwise a new thread, ready to run from the start, is first in the queue. |
| Uthread.Scheduler.Yield | 1.7/uthread.c:64-86 | A running thread that yields is chosen again itself; after a finished one the first of the queue runs, or the main context when there is none. |
| Uthread.Scheduler.Stretch | 1.7/uthread.c:21-26 | A thread writes its next stretch, and after the last one is FINISHED with the result of its routine. |
| Uthread.Scheduler.Turn | 1.7/uthread.c:21-86 | One stretch and the switch after it: the same thread goes on, or it is finished and the next one runs, and what has been written with what is still ahead stays the same. |
| Uthread.Scheduler.RunFrom | 1.7/uthread.c:64-97 | From the first switch until the main context has the processor again, every thread runs to its end before the next one starts; the queue is empty then. |
| Uthread.Scheduler.RunAll | 1.7/uthread.c:88-106 | The trace is that of sequential execution in the order of the queue, every thread is FINISHED with its result, the queue is empty; only the stack of the thread that was first is freed. |
| Uthread.SequentialIsBackwards | 1.7/uthread.c:10-55 | The order of the queue is the reverse of the order of creation. |
| Uthread.Program | 1.7/main.c:15-27 | A program that creates a thread for each routine and runs them all writes what the routines write one after the other, the last created first, and each thread keeps its routine's result; it writes nothing and returns 1 when some thread cannot be created. |

## Left out

- The concurrent programs (`LockList`, `ProxyMachine`, `Futex`) are step relations on values, with the history the theorems speak of beside the program's own state; their memory cells are not heap objects. The sequential classes show the same operations on the heap.
- Weak memory and fairness: atomics and locks are sequentially consistent steps, and the results say that some step, or some continuation of a run, is possible, not that a particular thread gets its turn.
- The admission policy of read/write locks: a reader is admitted when no writer holds the lock, also when one is waiting for it.
- Sockets, DNS, signals, printing, time and random seeds: what `recv`, `send`, `connect`, `rand_r` and `realloc` answer is a parameter or a free choice of the step.
- A `send` that returns 0, which makes `send_all` return a short count that its callers take for success (`proxy/proxy.c:35`).
- Logging, including the read of an entry's key after the table's lock has been released (`cache/cache.c:256`).
- HTTP request parsing (`proxy/proxy.c:195-298`): the key is given; the program cuts it at 511 bytes.
- The failure of `pthread_create` while the pool is being set up (`threadpool/threadpool.c:44-56`), which sets stop without the lock.
- Failing allocations in the creation of list nodes, tables and the pool; those of entries, buffers, tasks and threads are modelled.
- Null pool, table, entry and key arguments, which the functions reject or do nothing for.
- TaskQueue.Pool.Submit and its neighbours: that the machine's queue is this one is read off their contracts; for the cache CacheRefinement proves it.
- CacheRefinement.Store: `cache_mark_complete` and `cache_mark_failed`, one assignment each, have no such counterpart.
- ListStorage.Storage.DoRandomSwap: one thread that has the list to itself, without locks; with all the others it is in LockList.
- ListStorage.Storage.TraverseOnce: likewise.
- ProxyHandler.Fetch: the writer's loop without readers in between (together they are in ProxyMachine), for bodies shorter than 2 to the 64 bytes.
- ProxyHandler.StreamFromCache: the writer is a list of changes, at most one before each turn of the reader; no wakeup is modelled, since a turn stands for one; bodies shorter than 2 to the 64 bytes.
- CacheStore.Entry.Append: what memory is after a copy past the block is not modelled.
- Signed and unsigned overflow of `refcnt`, `count` and the `long` counters.
- The monitor thread and its snapshot of the counters; the random strings of `storage_init` are given, with any lengths.
- `storage_print`, `uthread_run`, and threads created by a running thread.
- Uthread.Scheduler.RunAll: a stack that is not freed is only reported as such; the saved context of a thread is the number of stretches it has run.
- `2.3/spinlock` (the same protocol), `2.4/spinlock` (a plain test-and-set lock) and `1.6` (whose three ways to free a stack share no exactly-once rule).
