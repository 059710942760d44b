/**
 The kernel's process table, scheduler queues and synchronisation objects (os/process.c, os/synch.c)
 as one value, and the net effect of every trap on it.

 Interrupts are off inside a trap, so a trap is one step; a process put to sleep resumes behind the
 call that suspended it. The result of a call is what its caller gets when it runs again.

 The queues of free, runnable, waiting and zombie processes hold process numbers; `freeLinks` counts
 the links left in the pool from which every entry of every queue takes one.
 */
module KernelState {
  import opened Common
  import opened Tally
  import opened SyncObjects

  const QUEUE_MAX_LINKS := 400
  const MAX_SEMS := 32
  const MAX_LOCKS := 64
  const MAX_CONDS := 32
  const SYNC_FAIL := -1
  const SYNC_SUCCESS := 1

  datatype Status = Free | Runnable | Waiting | Zombie

  datatype Cond = Cond(lock: int, waiting: seq<int>)

  /** Why the simulation has stopped, if it has. */
  datatype Halt = Going | NoRunnable | NoFreePcb | NoFreePage

  datatype Kernel = Kernel(
    status: seq<Status>, current: int,
    freePcbs: seq<int>, runQueue: seq<int>, waitQueue: seq<int>, zombies: seq<int>,
    freeLinks: int,
    sems: seq<Sem>, semInUse: seq<bool>,
    locks: seq<Lock>, lockInUse: seq<bool>,
    conds: seq<Cond>, condInUse: seq<bool>,
    halt: Halt)

  datatype Load = NoPages | NotExecutable | Loaded

  datatype Trap =
    | Tick | Exit | Fork(load: Load)
    | SemCreate(count: int) | SemWaitOn(h: int) | SemSignalOn(h: int)
    | LockCreate | LockAcquire(h: int) | LockRelease(h: int)
    | CondCreate(h: int) | CondWaitOn(h: int) | CondSignalOn(h: int)

  ghost predicate Sized(k: Kernel) {
    && |k.status| == PROCESS_MAX_PROCS
    && (forall c :: 0 <= c < |k.conds| ==> 0 <= k.conds[c].lock < MAX_LOCKS)
    && |k.sems| == |k.semInUse| == MAX_SEMS
    && |k.locks| == |k.lockInUse| == MAX_LOCKS
    && |k.conds| == |k.condInUse| == MAX_CONDS
  }

  // ---- The scheduler ----

  /** The queue without its first occurrence of `p`. */
  function Without(q: seq<int>, p: int): seq<int> {
    if q == [] then [] else if q[0] == p then q[1..] else [q[0]] + Without(q[1..], p)
  }

  /** ProcessSchedule once the head of the run queue is the process to run. */
  function Dispatch(k: Kernel): Kernel {
    if k.runQueue == [] then k.(halt := NoRunnable) else k.(current := k.runQueue[0])
  }

  /** ProcessSchedule(0): the running process goes to the back. */
  function Rotate(q: seq<int>): seq<int> {
    if q == [] then [] else q[1..] + [q[0]]
  }

  function Tail(q: seq<int>): seq<int> {
    if q == [] then [] else q[1..]
  }

  function SetStatus(status: seq<Status>, p: int, s: Status): seq<Status> {
    if 0 <= p < |status| then status[p := s] else status
  }

  /** Suspend the running process and schedule the next one. */
  function Sleep(k: Kernel): Kernel {
    Dispatch(k.(status := SetStatus(k.status, k.current, Waiting),
                runQueue := Tail(k.runQueue), waitQueue := k.waitQueue + [k.current]))
  }

  /** ProcessWakeup: the process joins the back of the run queue; the caller keeps running. */
  function Wakeup(k: Kernel, p: int): Kernel {
    k.(status := SetStatus(k.status, p, Runnable),
       waitQueue := Without(k.waitQueue, p), runQueue := k.runQueue + [p])
  }

  function TickStep(k: Kernel): Kernel {
    Dispatch(k.(runQueue := Rotate(k.runQueue)))
  }

  /** The exiting process leaves the run queue before ProcessSchedule(0) rotates it, and is reaped there. */
  function ExitStep(k: Kernel): Kernel {
    var rest := Tail(k.runQueue);
    if rest == [] then
      k.(status := SetStatus(k.status, k.current, Zombie), runQueue := [],
         zombies := [k.current] + k.zombies, halt := NoRunnable)
    else
      Dispatch(k.(status := SetStatus(k.status, k.current, Free), runQueue := Rotate(rest),
                  freePcbs := k.freePcbs + [k.current]))
  }

  function ForkStep(k: Kernel, load: Load): Kernel {
    if k.freePcbs == [] then k.(halt := NoFreePcb)
    else
      var p := k.freePcbs[0];
      match load
      case NoPages =>
        k.(status := SetStatus(k.status, p, Runnable), freePcbs := k.freePcbs[1..],
           freeLinks := k.freeLinks + 1, halt := NoFreePage)
      case NotExecutable =>
        k.(freePcbs := Rotate(k.freePcbs))
      case Loaded =>
        k.(status := SetStatus(k.status, p, Runnable), freePcbs := k.freePcbs[1..],
           runQueue := k.runQueue + [p], current := if k.current == NOBODY then p else k.current)
  }

  // ---- The synchronisation traps ----

  /** The first slot that is not in use, or the number of slots. */
  function FirstFree(used: seq<bool>): (i: nat)
    ensures i <= |used|
    ensures forall j :: 0 <= j < i ==> used[j]
    ensures i < |used| ==> !used[i]
  {
    if used == [] || !used[0] then 0 else 1 + FirstFree(used[1..])
  }

  predicate GoodHandle(h: int, used: seq<bool>) {
    0 <= h < |used| && used[h]
  }

  function SemWaitStep(k: Kernel, h: nat): Kernel
    requires h < |k.sems|
  {
    var k1 := k.(sems := k.sems[h := SemWait(k.sems[h], k.current)]);
    if k.sems[h].count <= 0 then Sleep(k1.(freeLinks := k.freeLinks - 1)) else k1
  }

  function SemSignalStep(k: Kernel, h: nat): Kernel
    requires h < |k.sems|
  {
    var k1 := k.(sems := k.sems[h := SemSignal(k.sems[h])]);
    if k.sems[h].count >= 0 && k.sems[h].waiting != [] then
      Wakeup(k1.(freeLinks := k.freeLinks + 1), k.sems[h].waiting[0])
    else k1
  }

  function AcquireStep(k: Kernel, h: nat): Kernel
    requires h < |k.locks|
  {
    var k1 := k.(locks := k.locks[h := Acquire(k.locks[h], k.current)]);
    if k.locks[h].pid != k.current && k.locks[h].pid >= 0 then Sleep(k1.(freeLinks := k.freeLinks - 1)) else k1
  }

  /** Hand lock `h` over and wake the process that gets it. */
  function HandOverStep(k: Kernel, h: nat): Kernel
    requires h < |k.locks|
  {
    var k1 := k.(locks := k.locks[h := HandOver(k.locks[h])]);
    if k.locks[h].waiting != [] then Wakeup(k1.(freeLinks := k.freeLinks + 1), k.locks[h].waiting[0]) else k1
  }

  /** CondWait by the owner of the lock: hand the lock over, then sleep on the condition. */
  function CondWaitStep(k: Kernel, c: nat): Kernel
    requires c < |k.conds| && 0 <= k.conds[c].lock < |k.locks|
  {
    var k1 := HandOverStep(k, k.conds[c].lock);
    var queue := CondWait(k.locks[k.conds[c].lock], k.conds[c].waiting, k.current).1;
    Sleep(k1.(conds := k.conds[c := Cond(k.conds[c].lock, queue)], freeLinks := k1.freeLinks - 1))
  }

  /** CondSignal by the owner while somebody waits: pass the lock to the waiter and queue for it. */
  function CondSignalStep(k: Kernel, c: nat): Kernel
    requires c < |k.conds| && 0 <= k.conds[c].lock < |k.locks|
    requires k.conds[c].waiting != []
  {
    var l := k.conds[c].lock;
    var (lock, queue) := CondSignal(k.locks[l], k.conds[c].waiting, k.current);
    var k1 := Wakeup(k.(conds := k.conds[c := Cond(l, queue)]), k.conds[c].waiting[0]);
    Sleep(k1.(locks := k.locks[l := lock]))
  }

  ghost predicate Enabled(k: Kernel, t: Trap) {
    && k.halt == Going
    && (k.current >= 0 || t.Fork?)
    && (t.CondCreate? ==> 0 <= t.h < MAX_LOCKS)
  }

  /** The kernel after a trap, and what the call returns to its caller (when that runs again). */
  function Step(k: Kernel, t: Trap): (Kernel, int)
    requires Sized(k) && Enabled(k, t)
  {
    match t
    case Tick => (TickStep(k), 0)
    case Exit => (ExitStep(k), 0)
    case Fork(load) => (ForkStep(k, load), 0)
    case SemCreate(count) =>
      var s := FirstFree(k.semInUse);
      if s == MAX_SEMS then (k, SYNC_FAIL)
      else (k.(semInUse := k.semInUse[s := true], sems := k.sems[s := Sem(count, [])]), s)
    case SemWaitOn(h) =>
      if GoodHandle(h, k.semInUse) then (SemWaitStep(k, h), SYNC_SUCCESS) else (k, SYNC_FAIL)
    case SemSignalOn(h) =>
      if GoodHandle(h, k.semInUse) then (SemSignalStep(k, h), SYNC_SUCCESS) else (k, SYNC_FAIL)
    case LockCreate =>
      var l := FirstFree(k.lockInUse);
      if l == MAX_LOCKS then (k, SYNC_FAIL)
      else (k.(lockInUse := k.lockInUse[l := true], locks := k.locks[l := Lock(NOBODY, [])]), l)
    case LockAcquire(h) =>
      if GoodHandle(h, k.lockInUse) then (AcquireStep(k, h), SYNC_SUCCESS) else (k, SYNC_FAIL)
    case LockRelease(h) =>
      if GoodHandle(h, k.lockInUse) && k.locks[h].pid == k.current then (HandOverStep(k, h), SYNC_SUCCESS)
      else (k, SYNC_FAIL)
    case CondCreate(h) =>
      var c := FirstFree(k.condInUse);
      if !k.lockInUse[h] || c == MAX_CONDS then (k, SYNC_FAIL)
      else (k.(condInUse := k.condInUse[c := true], conds := k.conds[c := Cond(h, [])]), c)
    case CondWaitOn(h) =>
      if !GoodHandle(h, k.condInUse) || k.locks[k.conds[h].lock].pid != k.current then (k, SYNC_FAIL)
      else (CondWaitStep(k, h), SYNC_SUCCESS)
    case CondSignalOn(h) =>
      if !GoodHandle(h, k.condInUse) || k.locks[k.conds[h].lock].pid != k.current then (k, SYNC_FAIL)
      else if k.conds[h].waiting == [] then (k, SYNC_SUCCESS)
      else (CondSignalStep(k, h), SYNC_SUCCESS)
  }

  // ---- What every trap keeps ----

  const QUEUES := MAX_SEMS + MAX_LOCKS + MAX_CONDS

  function SemQueue(h: int): int { h }
  function LockQueue(h: int): int { MAX_SEMS + h }
  function CondQueue(h: int): int { MAX_SEMS + MAX_LOCKS + h }

  /** The waiting queues of all synchronisation objects, numbered through. */
  ghost function Queue(k: Kernel, q: int): seq<int>
    requires Sized(k) && 0 <= q < QUEUES
  {
    if q < MAX_SEMS then k.sems[q].waiting
    else if q < MAX_SEMS + MAX_LOCKS then k.locks[q - MAX_SEMS].waiting
    else k.conds[q - MAX_SEMS - MAX_LOCKS].waiting
  }

  /** The process-table queue in which a process of this status is kept. */
  function Home(k: Kernel, s: Status): seq<int> {
    match s
    case Free => k.freePcbs case Runnable => k.runQueue case Waiting => k.waitQueue case Zombie => k.zombies
  }

  ghost predicate HomeHolds(k: Kernel, s: Status)
    requires Sized(k)
  {
    && NoDup(Home(k, s))
    && forall p :: p in Home(k, s) <==> 0 <= p < PROCESS_MAX_PROCS && k.status[p] == s
  }

  /** Each process is on exactly one of the four process queues, the one its status names, and on it once. */
  ghost predicate AtHome(k: Kernel)
    requires Sized(k)
  {
    HomeHolds(k, Free) && HomeHolds(k, Runnable) && HomeHolds(k, Waiting) && HomeHolds(k, Zombie)
  }

  ghost predicate Sleepers(k: Kernel, q: int)
    requires Sized(k) && 0 <= q < QUEUES
  {
    && NoDup(Queue(k, q))
    && forall p :: p in Queue(k, q) ==> 0 <= p < PROCESS_MAX_PROCS && k.status[p] == Waiting
  }

  ghost predicate Apart(k: Kernel, q: int, r: int)
    requires Sized(k) && 0 <= q < QUEUES && 0 <= r < QUEUES
  {
    forall p :: p in Queue(k, q) ==> p !in Queue(k, r)
  }

  ghost predicate OnSomeQueue(k: Kernel, p: int)
    requires Sized(k)
  {
    exists q :: 0 <= q < QUEUES && p in Queue(k, q)
  }

  /** A process sleeps on exactly one synchronisation object if its status is WAITING, else on none. */
  ghost predicate AsleepOnce(k: Kernel)
    requires Sized(k)
  {
    && (forall q :: 0 <= q < QUEUES ==> Sleepers(k, q))
    && (forall q, r :: 0 <= q < QUEUES && 0 <= r < QUEUES && q != r ==> Apart(k, q, r))
    && (forall p :: 0 <= p < PROCESS_MAX_PROCS && k.status[p] == Waiting ==> OnSomeQueue(k, p))
  }

  /** The running process is the head of the run queue; between traps nobody is a zombie. */
  ghost predicate Scheduled(k: Kernel) {
    && (k.current == NOBODY <==> k.runQueue == [])
    && (k.runQueue != [] ==> k.current == k.runQueue[0])
    && k.zombies == []
  }

  ghost predicate Placed(k: Kernel) {
    Sized(k) && AtHome(k) && AsleepOnce(k) && Scheduled(k)
  }

  /** `k1` is `k` but for the waiting queue `q`, which now holds `w`. */
  ghost predicate Edited(k: Kernel, k1: Kernel, q: int, w: seq<int>) {
    && Sized(k) && Sized(k1) && 0 <= q < QUEUES
    && k1.status == k.status && k1.current == k.current
    && k1.freePcbs == k.freePcbs && k1.runQueue == k.runQueue
    && k1.waitQueue == k.waitQueue && k1.zombies == k.zombies
    && forall r :: 0 <= r < QUEUES ==> Queue(k1, r) == if r == q then w else Queue(k, r)
  }

  lemma EditSem(k: Kernel, h: nat, s: Sem, links: int)
    requires Sized(k) && h < MAX_SEMS
    ensures Edited(k, k.(sems := k.sems[h := s], freeLinks := links), SemQueue(h), s.waiting)
  {
  }

  lemma EditLock(k: Kernel, h: nat, l: Lock, links: int)
    requires Sized(k) && h < MAX_LOCKS
    ensures Edited(k, k.(locks := k.locks[h := l], freeLinks := links), LockQueue(h), l.waiting)
  {
  }

  lemma EditCond(k: Kernel, h: nat, c: Cond, links: int)
    requires Sized(k) && h < MAX_CONDS && 0 <= c.lock < MAX_LOCKS
    ensures Edited(k, k.(conds := k.conds[h := c], freeLinks := links), CondQueue(h), c.waiting)
  {
  }

  lemma {:induction false} WithoutFacts(q: seq<int>, p: int)
    requires NoDup(q)
    ensures NoDup(Without(q, p))
    ensures forall x :: x in Without(q, p) <==> x in q && x != p
    ensures |Without(q, p)| == |q| - if p in q then 1 else 0
  {
    if q != [] {
      QueueTail(q);
      if q[0] != p {
        WithoutFacts(q[1..], p);
        assert q[0] !in Without(q[1..], p);
        assert forall x :: x in q <==> x == q[0] || x in q[1..];
      }
    }
  }

  /** The running process moves from the run queue to the wait queue and to the waiting queue `q`. */
  lemma SleepKeepsHome(k: Kernel, k1: Kernel, q: int)
    requires Placed(k) && k.runQueue != [] && 0 <= q < QUEUES
    requires Edited(k, k1, q, Queue(k, q) + [k.current])
    ensures Sized(Sleep(k1)) && AtHome(Sleep(k1))
  {
    QueueTail(k.runQueue);
    assert k.current in Home(k, Runnable);
  }

  lemma SleepKeepsAsleep(k: Kernel, k1: Kernel, q: int)
    requires Placed(k) && k.runQueue != [] && 0 <= q < QUEUES
    requires Edited(k, k1, q, Queue(k, q) + [k.current])
    ensures Sized(Sleep(k1)) && AsleepOnce(Sleep(k1))
  {
    assert k.current in Home(k, Runnable);
    var t := Sleep(k1);
    forall r | 0 <= r < QUEUES
      ensures Sleepers(t, r)
    {
      assert Sleepers(k, r);
      assert Queue(t, r) == Queue(k1, r);
    }
    forall r, u | 0 <= r < QUEUES && 0 <= u < QUEUES && r != u
      ensures Apart(t, r, u)
    {
      assert Apart(k, r, u) && Sleepers(k, r) && Sleepers(k, u);
      assert Queue(t, r) == Queue(k1, r) && Queue(t, u) == Queue(k1, u);
    }
    forall p | 0 <= p < PROCESS_MAX_PROCS && t.status[p] == Waiting
      ensures OnSomeQueue(t, p)
    {
      if p == k.current {
        assert p in Queue(t, q);
      } else {
        assert OnSomeQueue(k, p);
        var r :| 0 <= r < QUEUES && p in Queue(k, r);
        assert p in Queue(t, r);
      }
    }
  }

  /** The first process of waiting queue `q` leaves it and moves to the back of the run queue. */
  lemma WakeupKeepsHome(k: Kernel, k1: Kernel, q: int)
    requires Placed(k) && 0 <= q < QUEUES && Queue(k, q) != []
    requires Edited(k, k1, q, Queue(k, q)[1..])
    ensures var t := Wakeup(k1, Queue(k, q)[0]);
            Sized(t) && AtHome(t)
  {
    assert Sleepers(k, q) && Queue(k, q)[0] in Queue(k, q);
    WithoutFacts(k.waitQueue, Queue(k, q)[0]);
  }

  lemma WakeupSleepers(k: Kernel, k1: Kernel, q: int, r: int)
    requires Placed(k) && 0 <= q < QUEUES && Queue(k, q) != [] && 0 <= r < QUEUES
    requires Edited(k, k1, q, Queue(k, q)[1..])
    ensures var t := Wakeup(k1, Queue(k, q)[0]);
            Sized(t) && Queue(t, r) == Queue(k1, r) && Sleepers(t, r)
  {
    assert Sleepers(k, r) && Sleepers(k, q) && Queue(k, q)[0] in Queue(k, q);
    QueueTail(Queue(k, q));
    if r != q { assert Apart(k, q, r); }
  }

  lemma WakeupKeepsAsleep(k: Kernel, k1: Kernel, q: int)
    requires Placed(k) && 0 <= q < QUEUES && Queue(k, q) != []
    requires Edited(k, k1, q, Queue(k, q)[1..])
    ensures var t := Wakeup(k1, Queue(k, q)[0]);
            Sized(t) && AsleepOnce(t)
  {
    var p := Queue(k, q)[0];
    assert Sleepers(k, q) && p in Queue(k, q);
    QueueTail(Queue(k, q));
    var t := Wakeup(k1, p);
    forall r | 0 <= r < QUEUES
      ensures Queue(t, r) == Queue(k1, r) && Sleepers(t, r)
    {
      WakeupSleepers(k, k1, q, r);
    }
    forall r, u | 0 <= r < QUEUES && 0 <= u < QUEUES && r != u
      ensures Apart(t, r, u)
    {
      assert Apart(k, r, u);
    }
    forall x | 0 <= x < PROCESS_MAX_PROCS && t.status[x] == Waiting
      ensures OnSomeQueue(t, x)
    {
      assert OnSomeQueue(k, x);
      var r :| 0 <= r < QUEUES && x in Queue(k, r);
      assert x in Queue(t, r);
    }
  }

  lemma WakeupKeepsPlaced(k: Kernel, k1: Kernel, q: int)
    requires Placed(k) && k.runQueue != [] && 0 <= q < QUEUES && Queue(k, q) != []
    requires Edited(k, k1, q, Queue(k, q)[1..])
    ensures Placed(Wakeup(k1, Queue(k, q)[0]))
  {
    WakeupKeepsHome(k, k1, q);
    WakeupKeepsAsleep(k, k1, q);
  }

  lemma SleepKeepsPlaced(k: Kernel, k1: Kernel, q: int)
    requires Placed(k) && k.runQueue != [] && 0 <= q < QUEUES && k1.halt == Going
    requires Edited(k, k1, q, Queue(k, q) + [k.current])
    ensures Sleep(k1).halt == Going ==> Placed(Sleep(k1))
    ensures Sleep(k1).halt == Going <==> |k.runQueue| > 1
  {
    SleepKeepsHome(k, k1, q);
    SleepKeepsAsleep(k, k1, q);
    var t := Sleep(k1);
    if t.halt == Going {
      assert t.runQueue[0] in Home(t, Runnable);
    }
  }

  lemma TickKeepsPlaced(k: Kernel)
    requires Placed(k) && k.runQueue != [] && k.halt == Going
    ensures Placed(TickStep(k)) && TickStep(k).halt == Going
  {
    var t := TickStep(k);
    QueueTail(k.runQueue);
    assert k.runQueue[0] in Home(k, Runnable);
    assert t.runQueue[0] in Home(t, Runnable);
    SameQueues(k, t);
  }

  /** Traps that leave the waiting queues and the set of waiting processes alone. */
  lemma SameQueues(k: Kernel, t: Kernel)
    requires Sized(k) && Sized(t) && AsleepOnce(k)
    requires t.sems == k.sems && t.locks == k.locks && t.conds == k.conds
    requires forall p :: 0 <= p < PROCESS_MAX_PROCS ==> (t.status[p] == Waiting <==> k.status[p] == Waiting)
    ensures AsleepOnce(t)
  {
    forall r | 0 <= r < QUEUES
      ensures Sleepers(t, r)
    {
      assert Sleepers(k, r);
      assert Queue(t, r) == Queue(k, r);
    }
    forall r, u | 0 <= r < QUEUES && 0 <= u < QUEUES && r != u
      ensures Apart(t, r, u)
    {
      assert Apart(k, r, u);
      assert Queue(t, r) == Queue(k, r) && Queue(t, u) == Queue(k, u);
    }
    forall x | 0 <= x < PROCESS_MAX_PROCS && t.status[x] == Waiting
      ensures OnSomeQueue(t, x)
    {
      assert OnSomeQueue(k, x);
      var r :| 0 <= r < QUEUES && x in Queue(k, r);
      assert x in Queue(t, r);
    }
  }

  lemma ExitKeepsHome(k: Kernel)
    requires Placed(k) && k.runQueue != [] && k.halt == Going && ExitStep(k).halt == Going
    ensures Sized(ExitStep(k)) && AtHome(ExitStep(k))
  {
    QueueTail(k.runQueue);
    assert k.runQueue[0] in Home(k, Runnable);
    QueueTail(k.runQueue[1..]);
    assert k.runQueue[1] in Home(k, Runnable) && k.runQueue[1] in k.runQueue[1..];
  }

  lemma ExitKeepsPlaced(k: Kernel)
    requires Placed(k) && k.runQueue != [] && k.halt == Going
    ensures ExitStep(k).halt == Going ==> Placed(ExitStep(k))
    ensures ExitStep(k).halt == Going <==> |k.runQueue| > 1
  {
    var t := ExitStep(k);
    if t.halt == Going {
      assert k.runQueue[0] in Home(k, Runnable);
      ExitKeepsHome(k);
      assert t.runQueue[0] in Home(t, Runnable);
      SameQueues(k, t);
    }
  }

  lemma ForkKeepsPlaced(k: Kernel, load: Load)
    requires Placed(k) && k.halt == Going
    ensures ForkStep(k, load).halt == Going ==> Placed(ForkStep(k, load))
    ensures ForkStep(k, load).halt == Going <==> k.freePcbs != [] && load != NoPages
  {
    var t := ForkStep(k, load);
    if t.halt == Going {
      QueueTail(k.freePcbs);
      assert k.freePcbs[0] in Home(k, Free);
      SameQueues(k, t);
    }
  }
}
