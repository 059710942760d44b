# A verified model of the DLXOS teaching kernel and its concurrent programs

DLXOS is a small teaching kernel with hand-written semaphores, locks and Hoare-style condition
variables, a round-robin scheduler whose queues take their links from one fixed pool, a bitmap page
allocator, and a few text helpers. Four programs (apps/q2 to apps/q5) run on top of it. This project
models these layers in Dafny and proves what they are relied on for.

Interrupts are off inside every primitive, so a trap is one atomic step. A process that a trap puts
to sleep already stands behind the call that suspended it; it is asleep exactly while it is listed in
a waiting queue.

## How the pieces fit together

| file | what it holds |
|---|---|
| SyncObjects.dfy | a semaphore, a lock and a condition as values; semaphore accounting over any sequence of calls; the completion barrier |
| KernelState.dfy, KernelInvariant.dfy | the process table, the process queues, all synchronisation objects and the link pool as one state; the net effect of each trap; the invariant and its preservation |
| KernelRuns.dfy, KernelOwners.dfy | results over whole runs from start-up: the partition of the processes, link conservation, lock protocol, resuming as owner, turns of the scheduler with and without exits; owners that exit, pages for forks |
| KernelAnswers.dfy | what every call answers, whose status a trap changes, exactly when the kernel stops; handles and process numbers over whole runs |
| KernelMonitor.dfy, KernelSemaphores.dfy | a lock with two conditions, and a semaphore, as they appear in runs of the kernel |
| Kernel.dfy | the routines of os/process.c and os/synch.c as methods of a class, in the order in which they edit the state; each trap is shown to have the net effect of KernelState |
| LinkQueue.dfy | the intrusive doubly linked queues of os/queue.c on the heap, each routine shown to make one edit of a sequence |
| MonitorBuffer.dfy, BusyBuffer.dfy, SemBuffer.dfy | the bounded buffers of apps/q4, apps/q2 and apps/q3 for any number of pairs |
| BusyCompletion.dfy, SemCompletion.dfy | exactly which rings of apps/q2 can be completed, and which programs of apps/q3 can deadlock |
| FairRuns.dfy, MonitorFairness.dfy, BusyFairness.dfy, SemFairness.dfy | why every fair run of these programs ends, with a bound on its length |
| Chemistry.dfy | the reactions of apps/q5 |
| WordBits.dfy, Memory.dfy, PageOwnership.dfy, UserCopy.dfy | the page allocator, who owns which page as processes come and go, copying between user and system space |
| Text.dfy, Numerals.dfy, Arguments.dfy | ditoa and dstrtol; what dstrtol reads from numbers as they are written; process_create and get_argument |
| Tally.dfy, Ring.dfy, Common.dfy | counting over sequences and the streams through a ring; the ring; shared constants and types |

The statements of the programs are the cases of `Produce` and `Consume` in the three buffer modules
and of `CallOf` and `Step` in `Chemistry`; the primitives are `SemWait`, `SemSignal`, `Acquire`,
`Release`, `CondWait` and `CondSignal` of `SyncObjects`; the net effects of the traps are the
functions `TickStep` to `CondSignalStep` of `KernelState`. The table under "Model" names the members
whose contracts say something about them.

The buffer programs and the reactions are state machines: one step is one system call or one access
to shared memory by one process, and any process that is not asleep may take the next step.
`KernelMonitor.RunIsMonitorRun` is the link between the layers: seen through a lock and its two
conditions, every run of the kernel is a run of acquire, release, wait and signal steps of
`SyncObjects`, each made by the running process, on a monitor that stays sound and on which the
running process is never asleep. These are the steps the machine of apps/q4 makes.
`KernelSemaphores.SemaphoreInRun` says the same of a semaphore: from its creation on it is what the
waits and signals called on it make of it, so what `SyncObjects` proves of every sequence of calls
holds in the kernel.

A run is fair when every process that is awake and unfinished takes a step within any b consecutive
steps, as under round robin. Fair runs of apps/q4 and apps/q2 and of those programs of apps/q3 that
cannot deadlock end within a number of steps given in n and b, and only with everybody finished
(`FairRunsEnd` and `EndIsDone` in the three Fairness modules). The argument is the same for all three
and stands in `FairRuns`: what has been moved and signalled never goes back, and while something is
left somebody is due to move or signal who gets nearer to it by each step of one process that can
take it.

## Where the code does not do what one would expect

* **A consumer of apps/q3 can take the lock to sleep with it.** It compares the head slot before it
  waits for a full slot (apps/q3/consumer/consumer.c:41-42), so a digit that happens to be in the slot
  of an empty ring can deceive it. `SemCompletion.Deceivable` is the exact condition on what the
  programs are started with: five pairs or more, or a slot j of the fresh page that shows a digit d
  with d <= j <= 10(n-1) + d. A deadlock is reachable if and only if it holds, and every reachable
  state can be completed if and only if it does not. Digits stand for their characters, so any other
  byte, zero included, is a value outside 0 to 9: on a page of zeros up to four pairs are safe.
* **An exit makes the next process lose its turn.** The exiting process leaves the run queue before
  ProcessSchedule(0) rotates it. `KernelRuns.RunsInTurn` counts the scheduler call of an exit twice;
  `KernelRuns.MissesTurn` says that exactly the process an exit finds next in line is passed over.
* **Freeing a page twice** counts it twice. `PageAllocator.Memory.MemoryFreePage` states that the
  counter agrees with the map afterwards exactly when the page was not free, and the map stays one of
  managed pages exactly when the page is one.
* **Address translation refuses one page too few.** `UserCopy.RefusedExactly` gives the exact set of
  addresses refused.
* **ditoa** prints only a sign for a negative number, and its search for a power of ten overflows a
  32-bit integer from 10^9 on; `Text.SearchEnds` proves that it never ends from 1874919424 on.
  `Text.PrintAndRead` proves that printing and reading back returns the
  number if and only if it lies from 0 to 10^9 - 1.
* **dstrtol** looks for the prefix 0x only when it is called with base zero; called with base 16 it
  reads the 0 and stops at the x. `Numerals.StandsAt` says which numerals are read in which base.
* **get_argument** gives up at position 99 and at an empty argument. `Arguments.ArgumentsFound` states
  when all arguments are found, and that what is found is never wrong.
* **apps/q2** never sets the ring indices (apps/q2/makeprocs/makeprocs.c:42-62), and a page that an
  earlier process has used need not be zero. The model lets them start at any two values from 0 to 31
  on any page. `BusyCompletion.Good` is the exact condition on what the ring then seems to hold: it is
  nothing (the indices agree), or at least ten digits for each consumer of which the first 10n can be
  taken in their order. Every reachable state can be completed if and only if it holds;
  `BusyCompletion.OneSlotFreezes` is the smallest ring for which it does not.
* **A lock outlives an owner that exits.** The number stays in the lock, and a later process that is
  given the number passes for the owner: `KernelOwners.LaterProcessReleases` is a run in which it
  releases a lock it never acquired. `KernelOwners.OwnersExistExactly` says that owners exist at all
  times exactly in the runs in which no process exits as an owner.
* **apps/q5** computes 3 * a in an int. `Chemistry.IntCountsExactly` says for which arguments the
  loops nevertheless run as often as intended; up to 715827882 molecules of N3 they do.
* Comments in os/synch.c give other return values for cond_wait than the code; the model follows the code.

## Model

| member | source | states |
|---|---|---|
| SyncObjects.Accounting | os/synch.c:98-169 | For any initial count, negative ones included, and any sequence of waits and signals: requests = grants followed by those still waiting, in order; count = initial + signals - grants; nobody waits at a positive count; the number let through is the smaller of the requests and what count and signals pay for |
| SyncObjects.Barrier | apps/q5/makeprocs/makeprocs.c:81-90 | A semaphore created with -(n-1) lets its single waiter through exactly when n signals have come, in whatever order waiter and signals come |
| SyncObjects.AcquireEffect | os/synch.c:228-263 | lock_acquire keeps the monitor sound (no waiters on a free lock, owner never asleep, nobody queued twice) and engages the caller alone |
| SyncObjects.ReleaseEffect | os/synch.c:281-309 | lock_release by the owner keeps it sound and disengages the caller alone |
| SyncObjects.WaitEffect | os/synch.c:405-447 | cond_wait keeps it sound, puts the caller to sleep and changes nobody's being engaged |
| SyncObjects.SignalEffect | os/synch.c:477-520 | cond_signal keeps it sound and changes nobody's being engaged |
| KernelInvariant.InvKept | os/synch.c:98-520 | Every trap of the kernel leaves a state that satisfies the whole invariant (process partition, waiting queues, lock and semaphore rules, link conservation) or a stopped simulation |
| KernelInvariant.AtMostTwoLinksEach | os/queue.c:84-112 | Under the invariant the queues hold at most two links per PCB, so at least 400 - 64 links are free |
| KernelRuns.StartInv | os/process.c:67-94 | The state after start-up satisfies the invariant |
| KernelRuns.InvAlways | os/process.c:189-337 | So does every state of every run of traps that has not stopped |
| KernelRuns.EveryProcessInItsPlace | os/process.c:189-337 | In every reachable state a process is on the process queue its status names and on no other, and on the waiting queue of exactly one synchronisation object if it is WAITING, else of none |
| KernelRuns.LinksNeverRunOut | os/queue.c:84-143 | In every reachable state free links and queue lengths add up to 400 and at least 336 links are free |
| KernelRuns.LocksAreSound | os/synch.c:228-309 | In every reachable state a free lock has no waiters, and the owner of a lock waits neither for it nor on a condition bound to it |
| KernelRuns.LockStep | os/synch.c:281-309 | What any trap can do to a lock: its queue is served first come, first served, the head gets the lock, and the owner changes only from nobody to the caller or away from the caller that gives it up |
| KernelRuns.CondStep | os/synch.c:477-520 | A condition is served in order; whoever leaves it is its head and owns the lock at once |
| KernelRuns.OwnershipIsKept | os/synch.c:228-309 | Ownership leaves a process only by its own release, wait or signal on that lock |
| KernelRuns.LeavesAsOwner | os/synch.c:405-447 | A process leaves the queues of a lock and of its conditions only as the owner of the lock |
| KernelRuns.ResumesAsOwner | os/synch.c:405-520 | When lock_acquire, cond_wait or cond_signal has returned successfully, however long the caller slept and whatever ran in between, the caller owns the lock |
| KernelRuns.OnePlaceForward | os/process.c:189-242 | A trap that calls the scheduler moves everybody behind the head one place forward; any other trap moves nobody (exit excepted) |
| KernelRuns.ExitSkipsOne | os/traps.c:252-257 | An exit sends the next process in line to the back without its having run |
| KernelRuns.PlaceInLine | os/process.c:189-242 | In any run, exits included, the process at place j stands at place j less the scheduler calls made, those of exits counted twice, until its turn has come or has been passed |
| KernelRuns.RunsInTurn | os/process.c:189-242 | It becomes current exactly when that count reaches j |
| KernelRuns.MissesTurn | os/traps.c:252-257 | The count passes over j exactly at an exit that finds the process next in line; the process is then last, and current only if it is the only one left |
| KernelRuns.RoundRobin | os/process.c:189-242 | In a run without exits a process at place k becomes current after exactly k scheduler calls |
| KernelRuns.TrapIsObjectStep | os/synch.c:98-541 | Seen from the synchronisation objects, a trap is the operation of that one object by the running process, and no other object changes |
| KernelOwners.OwnersAlwaysExist | os/synch.c:228-309 | While no process exits as an owner, the process of every lock owner exists, so an owner is never a later process with a number used again |
| KernelOwners.OwnersExistExactly | os/synch.c:228-309 | In every run that is still going, the process of every lock owner has existed at all times if and only if no process has exited as an owner |
| KernelOwners.LaterProcessReleases | os/process.c:321-337 | There is a run from start-up in which a process exits as owner, a fork gives its number to a new process, and that process releases the lock in its first call |
| KernelOwners.PagesNeverRunOut | os/process.c:413-425 | If forks are refused for want of pages exactly when fewer than two are left, 64 pages behind the system are enough for every run |
| KernelOwners.PagesLeftAreCounted | os/memory.c:109-151 | When exactly the processes that exist hold their two pages, the pages left in the previous row are the allocator's own count, which is the number of pages marked free |
| KernelAnswers.AnswersExactly | os/synch.c:98-541 | sem_wait, sem_signal and lock_acquire answer SYNC_SUCCESS exactly for handles created before, lock_release exactly for the owner, cond_wait and cond_signal exactly for the owner of the condition's lock; any other call answers SYNC_FAIL and changes nothing |
| KernelAnswers.SemCreated | os/synch.c:67-84 | sem_create fails exactly when all 32 slots are in use and then changes nothing; otherwise it returns the first slot not in use, which has the count given and no waiters |
| KernelAnswers.LockCreated | os/synch.c:191-218 | lock_create fails exactly when all 64 slots are in use; otherwise the first slot not in use is a free lock |
| KernelAnswers.CondCreated | os/synch.c:376-403 | cond_create fails exactly when there is no such lock or all 32 slots are in use; otherwise the first slot not in use is a condition of that lock |
| KernelAnswers.HandlesInOrder | os/synch.c:67-84 | In every run from start-up the handles of each kind are 0, 1, 2, ... in the order of the calls, whoever makes them: the first 32 sem_create, 64 lock_create and 32 cond_create for locks that exist succeed, and no later one |
| KernelAnswers.StopsExactly | os/process.c:189-242 | The kernel stops exactly when its only runnable process exits or falls asleep without waking another, when a fork finds no free PCB, or when it finds no pages; each with its own reason |
| KernelAnswers.StatusExactly | os/process.c:255-337 | The status of every process after every trap: only the caller that exits or must sleep, the head of the queue the call wakes, and a process newly forked change theirs |
| KernelAnswers.NumbersInTurn | os/process.c:383-394 | In every run process numbers are given out in the order in which they became free: the number at place j of the free ones is the one the fork after the next j forks tries |
| KernelAnswers.FreeNumbersMove | os/process.c:116-149 | The number of a process that exits or cannot be loaded goes behind all other free ones; a process forked goes behind all runnable ones |
| KernelAnswers.ReturnsWithLock | os/synch.c:228-541 | lock_acquire on a lock that exists, and cond_wait and cond_signal by its owner, never fail, and the caller owns the lock when it runs again |
| KernelMonitor.ViewIsSound | os/synch.c:228-520 | A lock and its two conditions form a sound monitor, on which the running process is not asleep |
| KernelMonitor.TrapIsMonitorStep | os/synch.c:228-520 | Every trap is one of acquire, release, wait and signal of the running process on that monitor, or leaves it alone |
| KernelMonitor.RunIsMonitorRun | os/synch.c:228-520 | So is every trap of every run from start-up, until a third condition is created for the lock |
| KernelSemaphores.SemStep | os/synch.c:98-176 | A trap does to a semaphore what the call on it does, and no other trap touches it |
| KernelSemaphores.SemaphoreInRun | os/synch.c:98-176 | In every run from start-up a semaphore is, at any time after its creation with some count, what the waits and signals called on it since make of it |
| KernelSemaphores.AccountedInRun | os/synch.c:98-176 | So in every run grants follow the requests in order, the count is what was put in less what was granted, and as many are let through as ask or are paid for |
| KernelSemaphores.BarrierInRun | apps/q5/makeprocs/makeprocs.c:81-90 | In every run, the one process that waits on a semaphore created with -(n-1) sleeps on it exactly as long as fewer than n signals have come |
| KernelState.FirstFree | os/synch.c:191-208 | The slot search returns the first slot not in use, or the number of slots |
| KernelState.SleepKeepsPlaced | os/process.c:255-272 | Suspending the running process and scheduling the next keeps every process in its place, unless nobody is left to run |
| KernelState.WakeupKeepsPlaced | os/process.c:287-304 | So does waking the head of a waiting queue |
| KernelState.ExitKeepsPlaced | os/process.c:321-337 | So does an exit |
| KernelState.ForkKeepsPlaced | os/process.c:383-394 | So does a fork, whether the program loads or not |
| KernelCode.KernelModule.ProcessSuspend | os/process.c:255-272 | Status, run queue and wait queue after it; the link it frees is the link it takes, so the pool is not exhausted |
| KernelCode.KernelModule.ProcessWakeup | os/process.c:287-304 | Likewise in the other direction |
| KernelCode.KernelModule.ProcessDestroy | os/process.c:321-337 | The process becomes a zombie at the head of the zombie queue |
| KernelCode.KernelModule.ProcessSchedule | os/process.c:189-242 | Stops exactly when nobody can run; otherwise rotates unless suspending, makes the head current and frees every zombie, in order |
| KernelCode.KernelModule.Timer | os/traps.c:391-394 | The timer interrupt has the net effect Tick |
| KernelCode.KernelModule.ExitTrap | os/traps.c:252-257 | The exit trap has the net effect Exit, and no link allocation in it fails; when it stops the kernel is said by KernelAnswers.StopsExactly |
| KernelCode.KernelModule.ProcessFork | os/process.c:383-564 | The queue part of fork has the net effect Fork, including the failed load and the exhausted process table; it returns the new pid or -1 |
| KernelCode.KernelModule.SemCreateTrap | os/synch.c:67-84 | Slot search, initialisation and result are those of the net effect, which KernelAnswers.SemCreated describes |
| KernelCode.KernelModule.SemHandleWait | os/synch.c:98-132 | Handle checks, allocation of the link, insertion and sleep have the net effect of sem_wait |
| KernelCode.KernelModule.SemHandleSignal | os/synch.c:142-176 | The count goes up, the first waiter is woken and charged, as the net effect says |
| KernelCode.KernelModule.LockCreateTrap | os/synch.c:191-218 | Slot search, initialisation and result are those of the net effect |
| KernelCode.KernelModule.LockHandleAcquire | os/synch.c:228-270 | Re-acquire by the owner, sleep behind another owner or immediate ownership, as the net effect says |
| KernelCode.KernelModule.LockHandleRelease | os/synch.c:281-316 | Failure for a caller that is not the owner; otherwise hand-over to the first waiter |
| KernelCode.KernelModule.CondCreateTrap | os/synch.c:376-403 | Slot search, binding to the lock and result are those of the net effect |
| KernelCode.KernelModule.CondHandleWait | os/synch.c:405-475 | Failure without ownership; otherwise join the queue, pass the lock on, sleep; no link allocation fails |
| KernelCode.KernelModule.CondHandleSignal | os/synch.c:477-541 | Failure without ownership, success at once without waiters; otherwise the waiter gets the lock and the signaller queues for it |
| LinkQueue.Queue.constructor | os/queue.c:61-67 | An initialised queue is well formed and empty |
| LinkQueue.ModuleInit | os/queue.c:37-56 | The free links are the links of the pool, in their order, in a well-formed queue |
| LinkQueue.AllocLink | os/queue.c:84-112 | Takes the first free link, detached and holding the object; null exactly when the pool is empty, and then nothing changes; the other links keep their objects |
| LinkQueue.Remove | os/queue.c:118-143 | Takes the link out of its queue's sequence and appends it to the free links, also when its queue is the free list, and clears the caller's pointer; fails exactly for a missing link or one on no queue; all links of both queues keep their objects |
| LinkQueue.InsertAfter | os/queue.c:158-194 | Inserts behind the given link; fails exactly for a missing queue or link, a link of another queue, or no link with a queue that is not empty, and then changes nothing |
| LinkQueue.InsertBefore | os/queue.c:199-235 | Inserts before the given link; fails in exactly the same cases, and then changes nothing |
| LinkQueue.InsertFirst | os/queue.c:280-284 | The new sequence is the link followed by the old one |
| LinkQueue.InsertLast | os/queue.c:289-293 | The new sequence is the old one followed by the link |
| LinkQueue.MoveAfter | os/queue.c:240-275 | Moves one link of the sequence behind another; refuses exactly for links of other queues, for the last link, and without a second link unless the queue has one item; then nothing changes; all links keep their objects |
| LinkQueue.SkipLink | os/queue.c:257-264 | The first pointer writes of a move: first, last and the neighbours pass over the link, in the source's order |
| LinkQueue.SpliceIn | os/queue.c:266-272 | The remaining writes, with after's next pointer read as the first ones left it, give every link the neighbours of its new place |
| LinkQueue.QueuesDisjoint | os/queue.c:118-143 | Two well-formed queues share no link, so an edit of one leaves the other alone |
| LinkQueue.MoveFirstBehindLast | os/process.c:217-220 | Moving the first link behind the last is the scheduler's rotation |
| Ring.Put | apps/q4/producer/producer.c:46-47 | Writing slot w and advancing it appends to the live items, across wrap-around |
| Ring.Take | apps/q4/consumer/consumer.c:48-49 | Reading slot r and advancing it takes the first live item, across wrap-around |
| Tally.HeadIsWanted | apps/q4/consumer/consumer.c:43-54 | If n writers each write 0, 1, 2, ... and n readers have each taken 0, 1, 2, ..., some reader expects exactly the item at the head |
| Tally.SomeoneWantsNext | apps/q2/consumer/consumer.c:48-58 | In the streams of n producers and n consumers, while something is left to come out some consumer expects exactly the next item |
| Tally.NextIsWanted | apps/q2/consumer/consumer.c:48-58 | More generally, while the items taken and the next one are digits in an order in which n consumers counting from 0 can take them, some consumer expects exactly the next one |
| Tally.DigitAtMostPlace | apps/q3/producer/producer.c:34-51 | Whatever the interleaving of the producers, the item at place i is at most i |
| MonitorBuffer.InvKept | apps/q4/producer/producer.c:32-60 | Every step of a producer or consumer keeps the invariant: exclusion, the ring's contents, what the lock's owner knows, and that no wake-up is lost |
| MonitorBuffer.HoareGuarantee | os/synch.c:405-520 | In every reachable state, any number of pairs: a process behind its check or its cond_wait owns the lock and finds the ring not empty (consumer) or not full (producer), so the `if` without a second look is sound |
| MonitorBuffer.RingIsFifo | apps/q4/consumer/consumer.c:39-54 | Items removed, then the slots from r to w modulo 32, are the items inserted; each consumer got 0, 1, 2, ... in order |
| MonitorBuffer.SomeoneWantsHead | apps/q4/consumer/consumer.c:43-54 | Whenever the ring is not empty some unfinished consumer expects the digit at its head |
| MonitorBuffer.NeverStuck | apps/q4/producer/producer.c:32-60 | For n pairs with 2n + 1 processes at most 32, every reachable state has a continuation in which all processes finish, each consumer holding 0 to 9 |
| MonitorFairness.FairRunsEnd | apps/q4/producer/producer.c:32-60 | For n pairs with 2n + 1 processes at most 32 and any page, every run in which whoever is awake and unfinished takes a step within b steps ends, after at most 40n * (160n + 80) * b + 18n steps |
| MonitorFairness.EndIsDone | apps/q4/consumer/consumer.c:36-60 | In any run nobody can take a step exactly when all processes have finished, and then each consumer holds 0 to 9 |
| BusyBuffer.InvKept | apps/q2/producer/producer.c:35-57 | Every step keeps exclusion, the ring's contents, what the owner knows and the counts of the digits moved |
| BusyBuffer.RingIsFifo | apps/q2/consumer/consumer.c:44-58 | From any page and any two indices: what the ring seemed to hold at the start followed by the items inserted is what was removed followed by the slots from r to w modulo 32; each consumer got 0, 1, 2, ... in order |
| BusyBuffer.SomeoneWantsHead | apps/q2/consumer/consumer.c:48-58 | If nothing was found in the ring, then whenever it is not empty some unfinished consumer expects the digit at its head |
| BusyCompletion.NeverStuck | apps/q2/consumer/consumer.c:35-68 | For any number of pairs and from any good ring, every reachable state has a continuation in which all processes finish, each consumer holding 0 to 9 |
| BusyCompletion.BadRingFreezes | apps/q2/makeprocs/makeprocs.c:42-62 | From any other page and indices a state is reachable in which no unfinished consumer expects the head of the ring |
| BusyCompletion.FrozenForEver | apps/q2/consumer/consumer.c:48-58 | Every continuation of such a state is such a state |
| BusyCompletion.FrozenNeverCompletes | apps/q2/consumer/consumer.c:35-68 | And in none of them do all processes finish |
| BusyCompletion.CompletesExactly | apps/q2/makeprocs/makeprocs.c:42-62 | For every number of pairs, every page and any two indices: every reachable state can be completed if and only if the ring is good as it is found |
| BusyCompletion.EqualIndicesAreGood | apps/q2/makeprocs/makeprocs.c:42-62 | Indices that agree make a good ring, whatever the page holds |
| BusyCompletion.OneSlotFreezes | apps/q2/consumer/consumer.c:44-58 | One pair, w = 1, r = 0 and a slot 0 that does not show digit 0: nothing can be completed from the very start |
| BusyFairness.FairRunsEnd | apps/q2/consumer/consumer.c:35-68 | From a good ring every fair run ends, after at most 20n * (160n + 80) * b + 12n steps |
| BusyFairness.EndIsDone | apps/q2/producer/producer.c:35-57 | Whatever the ring held, nobody can take a step exactly when all processes have finished, and then each consumer holds 0 to 9 |
| SemBuffer.SlotsAreCounted | apps/q3/producer/producer.c:34-51 | In every reachable state, any number of pairs: inserted - removed = full.count plus what producers have filled but not signalled and consumers were granted but not taken = 32 - empty.count less what producers were granted but not filled and consumers have taken but not signalled; so it is from 0 to 32, and the ring holds the items inserted and not removed |
| SemBuffer.AccessesAreSafe | apps/q3/consumer/consumer.c:41-46 | No live slot is overwritten, and a consumer reads the first live item, which is the digit it expects; both while owning the lock |
| SemBuffer.StuckForEver | apps/q3/consumer/consumer.c:41-42 | A consumer asleep on the full slots of an empty ring stays asleep with the lock in every continuation |
| SemBuffer.SomeoneWillSignal | apps/q3/producer/producer.c:47-48 | With an item in the ring some producer that can run is about to send the signal that wakes such a consumer |
| SemBuffer.WakesIffRingHoldsItem | apps/q3/consumer/consumer.c:41-42 | A consumer asleep on the full slots can be woken if and only if the ring holds an item |
| SemBuffer.WaitReturnsIffRingHoldsItem | apps/q3/consumer/consumer.c:41-42 | In every reachable state a consumer about to wait for a full slot can come back if and only if the ring holds an item at the call |
| SemCompletion.SlotShows | apps/q3/producer/producer.c:43-44 | An item stays in its slot until 32 more have been written, and a slot not written yet is as it was found |
| SemCompletion.ShowsKept | apps/q3/producer/producer.c:43-44 | In every step the page holds what was inserted, but for the slot that is being filled |
| SemCompletion.OnlyIfDeceivable | apps/q3/consumer/consumer.c:41-42 | A consumer asleep on the full slots of an empty ring occurs only with five pairs or more or with a misleading slot in the page as found |
| SemCompletion.DeceivableDeadlocks | apps/q3/consumer/consumer.c:41-42 | In each of these cases a state is reachable in which a consumer sleeps with the lock and can never be woken |
| SemCompletion.DeadlocksExactly | apps/q3/consumer/consumer.c:34-58 | For every number of pairs and every page: a deadlock is reachable if and only if the program is deceivable |
| SemCompletion.NeverStuck | apps/q3/consumer/consumer.c:34-58 | If it is not, every reachable state has a continuation in which all processes finish, each consumer holding 0 to 9 |
| SemCompletion.CompletesExactly | apps/q3/producer/producer.c:34-51 | Every reachable state can be completed if and only if the program is not deceivable |
| SemFairness.FairRunsEnd | apps/q3/producer/producer.c:34-51 | Unless the program is deceivable every fair run ends, after at most 40n * (160n + 80) * b + 16n steps |
| SemFairness.EndIsDone | apps/q3/consumer/consumer.c:34-58 | Unless it is, nobody can take a step exactly when all processes have finished, and then each consumer holds 0 to 9 |
| Chemistry.RoundsFeasible | apps/q5/makeprocs/makeprocs.c:43-52 | The reaction counts computed for any two integers leave no reaction without molecules |
| Chemistry.IntCountsExactly | apps/q5/makeprocs/makeprocs.c:43-52 | For any two ints the wrapped counts make every loop run as often as the intended ones if and only if 3 * a fits an int, or there is no second reaction, or the wrapped product does no harm |
| Chemistry.SemaphoresStayInt | apps/q5/consumer/consumer.c:35-66 | Up to 715827882 molecules of N3 no semaphore's count ever leaves the range of an int |
| Chemistry.InvKept | apps/q5/consumer/consumer.c:35-66 | Every call keeps the account of all six molecules and of the completion semaphore |
| Chemistry.OneCallLess | apps/q5/consumer/consumer.c:35-66 | Every call reduces the number of calls still to be made by exactly one |
| Chemistry.UniqueOutcome | apps/q5/makeprocs/makeprocs.c:43-52 | For all counts a of N3 and h of H2O, every run that cannot go on has the same number of calls and the same final state: all five workers done, the creator released, N3 = 0, H2O = h mod 2, H2 = 2(h/2), N = 3a - R3, O2 = h/2 - R3, NO2 = R3 = min(3a, h/2) |
| Chemistry.EveryRunEnds | apps/q5/consumer/consumer.c:35-66 | No run is longer than that, and a run has ended exactly when it is that long |
| Chemistry.ReleasedLast | apps/q5/makeprocs/makeprocs.c:119 | The creating process gets past its wait only in that final state |
| Chemistry.AtomsConserved | apps/q5/consumer/consumer.c:35-58 | At every moment the nitrogen, hydrogen and oxygen atoms in the atmosphere and in the hands of the processes are those brought in, and nobody holds a negative amount |
| WordBits.MaskedHas | os/memory.c:57-67 | Storing a masked word sets the chosen bit and leaves the other 31 |
| WordBits.LowestBit | os/memory.c:127-129 | The bit search ends for every word that is not zero, at its lowest set bit |
| PageAllocator.MarkOne | os/memory.c:57-67 | Storing the masked word changes the mark of exactly one page |
| PageAllocator.Memory.MemorySetFreemap | os/memory.c:57-67 | The set of free pages gains or loses exactly the page given |
| PageAllocator.Memory.MemoryModuleInit | os/memory.c:77-100 | Free are exactly the pages from the end of the system to the end of memory, and the counter says how many |
| PageAllocator.Memory.FindWord | os/memory.c:120-125 | The circular search ends, at the first word with a free page |
| PageAllocator.Memory.MemoryAllocPage | os/memory.c:109-136 | Zero exactly when no page is free; otherwise a free page of the managed range, the first in circular order from the word last used, and only that page stops being free; the counter stays the number of marks |
| PageAllocator.Memory.MemoryFreePage | os/memory.c:145-151 | Any page of the map becomes free; the counter still agrees with the map exactly when it was not free before, and the map holds managed pages only exactly when it is one |
| PageOwnership.PteRoundTrip | os/memory.c:260-277 | The page freed by a page table entry is the page it was set up for exactly below 65536 |
| PageOwnership.PteIsValid | os/memory.c:260-263 | Every entry set up has the valid bit set and the dirty and referenced bits clear, and is the page's base address plus one exactly below page 65536 |
| PageOwnership.PteMasked | os/memory.c:287-291 | Of any entry MemoryPteToPage takes away the three status bits and nothing else |
| PageOwnership.PagesTaken | os/process.c:413-425 | Giving two free pages to a process keeps the partition of the pages |
| PageOwnership.PagesReturned | os/process.c:116-149 | So does taking the pages of a process back |
| PageOwnership.ProcessMemory.constructor | os/process.c:67-94 | At the start every page is free and no process owns one |
| PageOwnership.ProcessMemory.AllocPages | os/process.c:413-425 | Halts exactly when fewer than two pages are free; otherwise two different free pages become the process's own, the one by a valid page table entry, the other by its first address, as in every process in use; free pages plus two per process stay constant; with 64 pages behind the system it never halts |
| PageOwnership.ProcessMemory.FreePages | os/process.c:116-149 | Exactly the two pages of the process become free again |
| PageOwnership.ProcessMemory.Fork | os/process.c:476-480 | A load that fails leaves the free pages and their number as they were |
| UserCopy.RefusedExactly | os/memory.c:163-173 | For any page table, translation fails exactly behind the page after the mapped ones and at the first address of a page whose frame is zero; so with only the entry behind the mapped pages empty, of that page only the first address is refused |
| UserCopy.TranslatesTo | os/memory.c:163-173 | An address of a page up to the one behind the mapped ones leads to its place in that page's frame |
| UserCopy.Bcopy | os/misc.c:244-250 | Copies byte by byte upwards, for overlapping ranges as well |
| UserCopy.BcopyExactly | os/misc.c:244-250 | Every byte of the destination, for overlapping ranges as well: copied downwards or apart it arrives as it was; copied upwards into itself the range is repeated from its first bytes on |
| UserCopy.ReachExactly | os/memory.c:201-208 | A range reaches exactly as far as no address is refused |
| UserCopy.PageStep | os/memory.c:212-226 | One piece within a page does what translating and copying its bytes singly does |
| UserCopy.MoveBetweenSpaces | os/memory.c:194-230 | Copying page by page ends and returns the number of bytes before the first address whose translation fails, or all; memory is left as copying these bytes singly leaves it, for any ranges, overlapping or not |
| UserCopy.StopsBehindPages | os/memory.c:204-207 | When the entry behind the user's pages is empty, the bytes copied are exactly those of the range that lie in the user's pages |
| UserCopy.MemoryCopySystemToUser | os/memory.c:240-244 | For ranges mapped wholly or in part: as many bytes as the user's pages hold, each at the address its user address leads to, and no other byte of memory changes |
| UserCopy.MemoryCopyUserToSystem | os/memory.c:246-250 | Likewise from the user to the system's buffer |
| UserCopy.Landed | os/memory.c:216-220 | Once a byte has been copied it is where it should be, and stays there to the end |
| UserCopy.MappedSeparate | os/memory.c:163-173 | Addresses of pages with frames of their own lead to different bytes outside the system's buffer |
| UserCopy.ToUser | os/memory.c:240-244 | Each of the bytes copied, of a range mapped wholly or in part, lands at its address, and nothing else changes |
| UserCopy.FromUser | os/memory.c:246-250 | The buffer holds the bytes copied from the user's range, mapped wholly or in part, and nothing else changes |
| UserCopy.RoundTrip | os/memory.c:240-250 | Copying to user space and back returns the original bytes, as many as the range has in the user's pages |
| Text.Ditoa | os/misc.c:154-174 | Leaves the characters of the specification followed by a zero and touches nothing behind it; says whether it came to its end |
| Text.Dstrtol | os/misc.c:176-236 | Value and end position for any string and any base, with 32-bit wrap-around, are those of the specification |
| Text.NumberIs | os/misc.c:213-230 | For every base from 1 to 16 and any int read so far: the digits up to the first character that is none, and the value x * b^k plus their positional value, wrapped to 32 bits |
| Numerals.DigitStands | os/misc.c:213-220 | For every d below 16 the characters at place d of 0123456789abcdef and of 0123456789ABCDEF stand for d |
| Numerals.DigitsExactly | os/misc.c:213-223 | In every base from 1 to 16 the characters read as digits are the first of these lists and no others |
| Numerals.ReadsNumeral | os/misc.c:176-236 | Any numeral, with blanks in front, a minus sign, and letters of either case, is read as the int its value wraps to, negated behind the sign, with the position behind its digits: in every base to 16, and with base zero in base 16 behind 0x or 0X, in base 8 behind 0 and otherwise in base 10 |
| Numerals.WrittenAndRead | os/misc.c:176-236 | Round trip: every 32-bit integer, written in any base from 2 to 16 in any of these ways, is read back |
| Numerals.ReadsNothing | os/misc.c:182-212 | Where no number begins, and for bases below 0 and above 16, zero is returned with the position behind the blanks |
| Numerals.PrintsNoZeroInFront | os/misc.c:163-173 | From 1 to 10^9 - 1 ditoa prints decimal digits only, without a zero in front |
| Numerals.PrintsLarge | os/misc.c:165-173 | From 10^9 to 1874919423 ditoa prints nine characters that count what dividing the wrapped power, 1410065408 or 1874919424, by ten goes through, so that in these radices they are worth the number |
| Numerals.NegativeLosesDigits | os/misc.c:159-161 | Of a negative number it prints the sign alone, which reads as zero in every base |
| Text.DigitsReadBack | os/misc.c:213-230 | Reading the j digits printed for n behind a value v gives v * 10^j + n and the position behind them |
| Text.SearchEnds | os/misc.c:165-166 | The search for the power ends, within 16 multiplications, exactly for numbers below 1874919424 |
| Text.PrintAndRead | os/misc.c:154-236 | For every 32-bit integer: printing completes, and reading in base ten returns the number and the position of the terminator, if and only if the number lies from 0 to 10^9 - 1 |
| Arguments.PackArguments | os/process.c:930-948 | The buffer holds the arguments one after the other, each with its terminator, and two zeros |
| Arguments.ArgumentReader.GetArgument | os/process.c:902-928 | Result and new location for a first and a later call |
| Arguments.ArgumentReader.ArgumentVector | os/process.c:503-515 | The loop ends; argc is one more than the offsets found after the first |
| Arguments.OffsetsAreStarts | os/process.c:902-928 | From the start of an argument on, the offsets returned are the starts of arguments, in order and without gap |
| Arguments.ArgumentsFound | os/process.c:902-948 | All arguments are found, so that argc is the number packed, if and only if there is one, or none is empty and the last starts before position 99 |

## Left out

- KernelCode.KernelModule: its queues are sequences; that the pointer queues of os/queue.c make the same edits is proved separately in LinkQueue, and the two are not joined in one heap.
- The loops of apps/q2 to apps/q5 are steps on a value rather than loops over a shared object, because the steps of several processes interleave; that the shared page is updated in place is not captured.
- MonitorFairness.FairRunsEnd: here and for apps/q2 and apps/q3 fairness is a premise; that the kernel's round robin gives it to the programs' steps is not derived from KernelRuns.RoundRobin, since a turn there is a slice of many steps. Which runnable process takes the next step is otherwise left open; under an unfair schedule busy waiting need not end.
- BusyBuffer.RingIsFifo: indices outside 0 to 31, which the program would use to reach memory behind the ring, are not part of this model.
- Chemistry.UniqueOutcome: counts are mathematical integers; Chemistry.IntCountsExactly and Chemistry.SemaphoresStayInt say for which arguments the program's ints agree with them.
- Text.Ditoa: the search for the power need not end in the code (see Text.SearchEnds); the method gives up after a number of rounds chosen by the caller, and the results hold for every such number from 9 on.
- Arguments.PackArguments: the buffer of 1000 characters must be large enough, which the code does not check.
- PageAllocator.Memory.MemoryFreePage: pages freed lie in the part of the map in use, which the code does not check.
- PageOwnership.ProcessMemory.Fork: a process has one user page (npages is always 1) and shared pages are not part of this model.
- UserCopy.MoveBetweenSpaces: page table entries must be page aligned and frames must lie in memory, as entries made by MemorySetupPte are.
- KernelCode.KernelModule.CondCreateTrap: the lock handle must be in range, which the code does not check.
- lib/share_memory.o is not part of this model: the applications' shared page is taken as one memory all workers see.
- LockTransfer and the process_sleep trap as a direct user call: neither is used by the programs, and the first is reachable from no trap.
- What a process is beyond its number: the lock results hold in runs in which owners exit as well, but of the number (see above).
- Signals of apps/q2 to q4 on the completion semaphore: covered by SyncObjects.Barrier, not repeated in each program.
- Handles and counts passed as command-line strings: the programs work on the intended integers; expected_item and expected_reactions_str, whose buffers are too small for what is written to them, are not modelled.
- Executable loading, stack frames, the file system, keyboard and timer registers, printing, register save and restore: a load is a success or a failure, and a halted simulation is a state.
- Restoring the interrupt level: primitives are atomic; that LockRelease returns without restoring it when the caller is not the owner is not modelled.
- dmindex, whose outer loop does not advance, and dstrcpy, dstrncmp, dstrstr, dindex, min and bzero: easy members.
