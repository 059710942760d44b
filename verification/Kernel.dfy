/**
 The routines of os/process.c and os/synch.c in the order in which they work: links are taken from
 and returned to the pool one by one, queues are edited one after the other. Each trap is shown to
 have the net effect given in KernelState, and no "could not get link" branch to be taken.
 */
module KernelCode {
  import opened Common
  import opened Tally
  import opened SyncObjects
  import opened KernelState
  import opened KernelInvariant

  class KernelModule {
    var status: seq<Status>
    var current: int
    var freePcbs: seq<int>
    var runQueue: seq<int>
    var waitQueue: seq<int>
    var zombies: seq<int>
    var freeLinks: int
    var sems: seq<Sem>
    var semInUse: seq<bool>
    var locks: seq<Lock>
    var lockInUse: seq<bool>
    var conds: seq<Cond>
    var condInUse: seq<bool>
    var halt: Halt

    ghost function Abs(): Kernel
      reads this
    {
      Kernel(status, current, freePcbs, runQueue, waitQueue, zombies, freeLinks,
             sems, semInUse, locks, lockInUse, conds, condInUse, halt)
    }

    /** The object is as the net effect of trap `t` on `k` says. */
    ghost predicate After(k: Kernel, t: Trap)
      reads this
      requires KernelState.Sized(k) && Enabled(k, t)
    {
      SameUnlessHalted(Step(k, t).0)
    }

    /** The object is `k1`, or has stopped for the same reason. */
    ghost predicate SameUnlessHalted(k1: Kernel)
      reads this
    {
      halt == k1.halt && (halt == Going ==> Abs() == k1)
    }

    /** What the routines below rely on when they are entered from a trap. */
    ghost predicate Entered()
      reads this
    {
      && halt == Going && freeLinks > 0 && zombies == []
      && 0 <= current < |status| && runQueue != [] && runQueue[0] == current
    }

    // ---- Links ----

    /** AQueueAllocLink: fails when the pool is empty. */
    method AllocLink() returns (ok: bool)
      modifies this`freeLinks
      ensures ok == (old(freeLinks) > 0)
      ensures freeLinks == old(freeLinks) - if ok then 1 else 0
    {
      ok := freeLinks > 0;
      if ok { freeLinks := freeLinks - 1; }
    }

    // ---- os/process.c ----

    method ProcessSuspend(p: int)
      requires 0 <= p < |status| && freeLinks >= 0
      modifies this`status, this`runQueue, this`waitQueue, this`freeLinks
      ensures status == old(status)[p := Waiting] && freeLinks == old(freeLinks)
      ensures runQueue == Without(old(runQueue), p) && waitQueue == old(waitQueue) + [p]
    {
      status := status[p := Waiting];
      runQueue := Without(runQueue, p);
      freeLinks := freeLinks + 1;
      var ok := AllocLink();
      if !ok { assert false; }
      waitQueue := waitQueue + [p];
    }

    method ProcessWakeup(p: int)
      requires 0 <= p < |status| && freeLinks >= 0
      modifies this`status, this`runQueue, this`waitQueue, this`freeLinks
      ensures status == old(status)[p := Runnable] && freeLinks == old(freeLinks)
      ensures waitQueue == Without(old(waitQueue), p) && runQueue == old(runQueue) + [p]
    {
      status := status[p := Runnable];
      waitQueue := Without(waitQueue, p);
      freeLinks := freeLinks + 1;
      var ok := AllocLink();
      if !ok { assert false; }
      runQueue := runQueue + [p];
    }

    /** Puts the PCB back on the free list; its pages are the subject of module PageOwnership. */
    method ProcessFreeResources(p: int)
      requires 0 <= p < |status| && freeLinks > 0
      modifies this`status, this`freePcbs, this`freeLinks
      ensures status == old(status)[p := Free] && freePcbs == old(freePcbs) + [p]
      ensures freeLinks == old(freeLinks) - 1
    {
      var ok := AllocLink();
      if !ok { assert false; }
      status := status[p := Free];
      freePcbs := freePcbs + [p];
    }

    method ProcessDestroy(p: int)
      requires 0 <= p < |status| && freeLinks >= 0
      modifies this`status, this`runQueue, this`zombies, this`freeLinks
      ensures status == old(status)[p := Zombie] && freeLinks == old(freeLinks)
      ensures runQueue == Without(old(runQueue), p) && zombies == [p] + old(zombies)
    {
      status := status[p := Zombie];
      runQueue := Without(runQueue, p);
      freeLinks := freeLinks + 1;
      var ok := AllocLink();
      if !ok { assert false; }
      zombies := [p] + zombies;
    }

    /** Stops when nobody can run; otherwise picks the next process and frees all zombies. */
    method ProcessSchedule(suspended: bool)
      requires halt == Going && freeLinks >= 0
      requires forall i :: 0 <= i < |zombies| ==> 0 <= zombies[i] < |status|
      modifies this`current, this`runQueue, this`status, this`freePcbs, this`zombies, this`freeLinks, this`halt
      ensures old(runQueue) == [] ==> halt == NoRunnable
      ensures old(runQueue) != [] ==>
                && halt == Going && zombies == [] && freeLinks == old(freeLinks)
                && runQueue == (if suspended then old(runQueue) else Rotate(old(runQueue)))
                && current == runQueue[0]
                && freePcbs == old(freePcbs) + old(zombies)
                && |status| == old(|status|)
                && forall p :: 0 <= p < |status| ==>
                     status[p] == if p in old(zombies) then Free else old(status)[p]
    {
      if runQueue == [] {
        halt := NoRunnable;
        return;
      }
      if !suspended {
        runQueue := runQueue[1..] + [runQueue[0]];
      }
      current := runQueue[0];
      FreeZombies();
    }

    /** The loop at the end of ProcessSchedule. */
    method FreeZombies()
      requires freeLinks >= 0
      requires forall i :: 0 <= i < |zombies| ==> 0 <= zombies[i] < |status|
      modifies this`status, this`freePcbs, this`zombies, this`freeLinks
      ensures zombies == [] && freeLinks == old(freeLinks) && freePcbs == old(freePcbs) + old(zombies)
      ensures |status| == old(|status|)
      ensures forall p :: 0 <= p < |status| ==> status[p] == if p in old(zombies) then Free else old(status)[p]
    {
      ghost var reaped: seq<int> := [];
      while zombies != []
        invariant old(zombies) == reaped + zombies
        invariant freeLinks == old(freeLinks) && |status| == old(|status|)
        invariant freePcbs == old(freePcbs) + reaped
        invariant forall p :: 0 <= p < |status| ==> status[p] == if p in reaped then Free else old(status)[p]
        decreases |zombies|
      {
        var p := zombies[0];
        assert old(zombies)[|reaped|] == p;
        zombies := zombies[1..];
        freeLinks := freeLinks + 1;
        ProcessFreeResources(p);
        reaped := reaped + [p];
      }
      assert reaped == old(zombies);
    }

    /** ProcessSleep: the trap that suspends the caller and schedules another process. */
    method ProcessSleep()
      requires halt == Going && freeLinks >= 0 && zombies == []
      requires 0 <= current < |status| && runQueue != [] && runQueue[0] == current
      modifies this`current, this`runQueue, this`waitQueue, this`status, this`freePcbs, this`zombies,
               this`freeLinks, this`halt
      ensures SameUnlessHalted(Sleep(old(Abs())))
    {
      ProcessSuspend(current);
      ProcessSchedule(true);
      assert halt == Going ==> freePcbs == old(freePcbs);
      assert halt == Going ==> status == old(status)[old(current) := Waiting];
    }

    /** The timer interrupt. */
    method Timer()
      requires Inv(Abs()) && Enabled(Abs(), Tick)
      modifies this
      ensures After(old(Abs()), Tick)
    {
      LinksLeft(Abs());
      ProcessSchedule(false);
      assert status == old(status);
    }

    method ExitAt()
      requires Entered()
      modifies this
      ensures SameUnlessHalted(ExitStep(old(Abs())))
    {
      ProcessDestroy(current);
      assert zombies == [current] && runQueue == Tail(old(runQueue));
      ProcessSchedule(false);
      if halt == Going {
        assert status == old(status)[old(current) := Free];
        assert freePcbs == old(freePcbs) + [old(current)];
      }
    }

    /** The exit trap. */
    method ExitTrap()
      requires Inv(Abs()) && Enabled(Abs(), Exit)
      modifies this
      ensures After(old(Abs()), Exit)
    {
      LinksLeft(Abs());
      ExitAt();
    }

    method ForkAt(load: Load) returns (pid: int)
      requires freePcbs != [] ==> 0 <= freePcbs[0] < |status| && status[freePcbs[0]] == Free
      requires halt == Going && freeLinks > 0
      modifies this`freePcbs, this`freeLinks, this`status, this`runQueue, this`current, this`halt
      ensures SameUnlessHalted(ForkStep(old(Abs()), load))
      ensures halt == Going ==> pid == if load == Loaded then old(freePcbs)[0] else -1
    {
      pid := -1;
      if freePcbs == [] {
        halt := NoFreePcb;
        return;
      }
      var p := TakePcb();
      match load
      case NoPages =>
        halt := NoFreePage;
      case NotExecutable =>
        ProcessFreeResources(p);
        assert status == old(status);
      case Loaded =>
        EnterRunQueue(p);
        if current == NOBODY { current := p; }
        pid := p;
    }

    method TakePcb() returns (p: int)
      requires freePcbs != [] && 0 <= freePcbs[0] < |status|
      modifies this`freePcbs, this`freeLinks, this`status
      ensures p == old(freePcbs)[0] && freePcbs == old(freePcbs)[1..] && freeLinks == old(freeLinks) + 1
      ensures status == old(status)[p := Runnable]
    {
      p := freePcbs[0];
      freePcbs := Without(freePcbs, p);
      freeLinks := freeLinks + 1;
      status := status[p := Runnable];
    }

    method EnterRunQueue(p: int)
      requires freeLinks > 0
      modifies this`freeLinks, this`runQueue
      ensures freeLinks == old(freeLinks) - 1 && runQueue == old(runQueue) + [p]
    {
      var ok := AllocLink();
      if !ok { assert false; }
      runQueue := runQueue + [p];
    }

    /** ProcessFork as far as it concerns the queues; `load` says what memory and the file system answer. */
    method ProcessFork(load: Load) returns (pid: int)
      requires Inv(Abs()) && Enabled(Abs(), Fork(load))
      modifies this
      ensures After(old(Abs()), Fork(load))
      ensures halt == Going ==> pid == if load == Loaded then old(freePcbs)[0] else -1
    {
      LinksLeft(Abs());
      assert freePcbs != [] ==> freePcbs[0] in Home(Abs(), Free);
      pid := ForkAt(load);
    }

    // ---- os/synch.c ----

    method SemCreateTrap(count: int) returns (res: int)
      requires Inv(Abs()) && Enabled(Abs(), SemCreate(count))
      modifies this`sems, this`semInUse
      ensures After(old(Abs()), SemCreate(count)) && res == Step(old(Abs()), SemCreate(count)).1
    {
      var sem := 0;
      while sem < MAX_SEMS && semInUse[sem]
        invariant 0 <= sem <= MAX_SEMS && forall j :: 0 <= j < sem ==> semInUse[j]
      {
        sem := sem + 1;
      }
      if sem == MAX_SEMS { return SYNC_FAIL; }
      semInUse := semInUse[sem := true];
      sems := sems[sem := Sem(count, [])];
      return sem;
    }

    method SemWaitAt(h: int)
      requires 0 <= h < |sems| && Entered()
      modifies this
      ensures SameUnlessHalted(SemWaitStep(old(Abs()), h))
    {
      if sems[h].count <= 0 {
        var ok := AllocLink();
        if !ok { assert false; }
        sems := sems[h := Sem(sems[h].count, sems[h].waiting + [current])];
        ProcessSleep();
      } else {
        sems := sems[h := Sem(sems[h].count - 1, sems[h].waiting)];
      }
    }

    method SemHandleWait(h: int) returns (res: int)
      requires Inv(Abs()) && Enabled(Abs(), SemWaitOn(h))
      modifies this
      ensures After(old(Abs()), SemWaitOn(h)) && res == Step(old(Abs()), SemWaitOn(h)).1
    {
      if h < 0 || h >= MAX_SEMS || !semInUse[h] { return SYNC_FAIL; }
      LinksLeft(Abs());
      SemWaitAt(h);
      return SYNC_SUCCESS;
    }

    method SemSignalAt(h: int)
      requires 0 <= h < |sems| && Entered()
      requires sems[h].waiting != [] ==> 0 <= sems[h].waiting[0] < |status|
      modifies this`sems, this`status, this`runQueue, this`waitQueue, this`freeLinks
      ensures Abs() == SemSignalStep(old(Abs()), h)
    {
      sems := sems[h := Sem(sems[h].count + 1, sems[h].waiting)];
      if sems[h].count > 0 && sems[h].waiting != [] {
        var p := sems[h].waiting[0];
        sems := sems[h := Sem(sems[h].count, sems[h].waiting[1..])];
        freeLinks := freeLinks + 1;
        ProcessWakeup(p);
        sems := sems[h := Sem(sems[h].count - 1, sems[h].waiting)];
      }
    }

    method SemHandleSignal(h: int) returns (res: int)
      requires Inv(Abs()) && Enabled(Abs(), SemSignalOn(h))
      modifies this
      ensures After(old(Abs()), SemSignalOn(h)) && res == Step(old(Abs()), SemSignalOn(h)).1
    {
      if h < 0 || h >= MAX_SEMS || !semInUse[h] { return SYNC_FAIL; }
      LinksLeft(Abs());
      FirstIsProcess(Abs(), SemQueue(h));
      SemSignalAt(h);
      return SYNC_SUCCESS;
    }

    method LockCreateTrap() returns (res: int)
      requires Inv(Abs()) && Enabled(Abs(), LockCreate)
      modifies this`locks, this`lockInUse
      ensures After(old(Abs()), LockCreate) && res == Step(old(Abs()), LockCreate).1
    {
      var l := 0;
      while l < MAX_LOCKS && lockInUse[l]
        invariant 0 <= l <= MAX_LOCKS && forall j :: 0 <= j < l ==> lockInUse[j]
      {
        l := l + 1;
      }
      if l == MAX_LOCKS { return SYNC_FAIL; }
      lockInUse := lockInUse[l := true];
      locks := locks[l := Lock(NOBODY, [])];
      return l;
    }

    method LockAcquireAt(h: int)
      requires 0 <= h < |locks| && Entered()
      modifies this
      ensures SameUnlessHalted(AcquireStep(old(Abs()), h))
    {
      if locks[h].pid == current { return; }
      if locks[h].pid >= 0 {
        var ok := AllocLink();
        if !ok { assert false; }
        locks := locks[h := Lock(locks[h].pid, locks[h].waiting + [current])];
        ProcessSleep();
      } else {
        locks := locks[h := Lock(current, locks[h].waiting)];
      }
    }

    method LockHandleAcquire(h: int) returns (res: int)
      requires Inv(Abs()) && Enabled(Abs(), LockAcquire(h))
      modifies this
      ensures After(old(Abs()), LockAcquire(h)) && res == Step(old(Abs()), LockAcquire(h)).1
    {
      if h < 0 || h >= MAX_LOCKS || !lockInUse[h] { return SYNC_FAIL; }
      LinksLeft(Abs());
      LockAcquireAt(h);
      return SYNC_SUCCESS;
    }

    /** The part LockRelease and CondWait have in common: free the lock, then pass it to the first waiter. */
    method PassLock(h: int)
      requires 0 <= h < |locks| && freeLinks >= 0
      requires locks[h].waiting != [] ==> 0 <= locks[h].waiting[0] < |status|
      modifies this`locks, this`status, this`runQueue, this`waitQueue, this`freeLinks
      ensures Abs() == HandOverStep(old(Abs()), h)
    {
      locks := locks[h := Lock(NOBODY, locks[h].waiting)];
      if locks[h].waiting != [] {
        var p := locks[h].waiting[0];
        locks := locks[h := Lock(NOBODY, locks[h].waiting[1..])];
        freeLinks := freeLinks + 1;
        locks := locks[h := Lock(p, locks[h].waiting)];
        ProcessWakeup(p);
      }
    }

    method LockHandleRelease(h: int) returns (res: int)
      requires Inv(Abs()) && Enabled(Abs(), LockRelease(h))
      modifies this
      ensures After(old(Abs()), LockRelease(h)) && res == Step(old(Abs()), LockRelease(h)).1
    {
      if h < 0 || h >= MAX_LOCKS || !lockInUse[h] { return SYNC_FAIL; }
      if locks[h].pid != current { return SYNC_FAIL; }
      LinksLeft(Abs());
      FirstIsProcess(Abs(), LockQueue(h));
      PassLock(h);
      return SYNC_SUCCESS;
    }

    method CondCreateTrap(h: int) returns (res: int)
      requires Inv(Abs()) && Enabled(Abs(), CondCreate(h))
      modifies this`conds, this`condInUse
      ensures After(old(Abs()), CondCreate(h)) && res == Step(old(Abs()), CondCreate(h)).1
    {
      if !lockInUse[h] { return SYNC_FAIL; }
      var c := 0;
      while c < MAX_CONDS && condInUse[c]
        invariant 0 <= c <= MAX_CONDS && forall j :: 0 <= j < c ==> condInUse[j]
      {
        c := c + 1;
      }
      if c == MAX_CONDS { return SYNC_FAIL; }
      condInUse := condInUse[c := true];
      conds := conds[c := Cond(h, [])];
      return c;
    }

    method CondWaitAt(h: int)
      requires 0 <= h < |conds| && 0 <= conds[h].lock < |locks| && Entered()
      requires var q := locks[conds[h].lock].waiting; q != [] ==> 0 <= q[0] < |status|
      requires locks[conds[h].lock].pid == current
      modifies this
      ensures SameUnlessHalted(CondWaitStep(old(Abs()), h))
    {
      var l := conds[h].lock;
      var ok := AllocLink();
      if !ok { assert false; }
      conds := conds[h := Cond(l, conds[h].waiting + [current])];
      PassLock(l);
      ProcessSleep();
    }

    method CondHandleWait(h: int) returns (res: int)
      requires Inv(Abs()) && Enabled(Abs(), CondWaitOn(h))
      modifies this
      ensures After(old(Abs()), CondWaitOn(h)) && res == Step(old(Abs()), CondWaitOn(h)).1
    {
      if h < 0 || h >= MAX_CONDS || !condInUse[h] { return SYNC_FAIL; }
      if locks[conds[h].lock].pid != current { return SYNC_FAIL; }
      LinksLeft(Abs());
      FirstIsProcess(Abs(), LockQueue(conds[h].lock));
      CondWaitAt(h);
      return SYNC_SUCCESS;
    }

    method CondSignalAt(h: int)
      requires 0 <= h < |conds| && 0 <= conds[h].lock < |locks| && Entered()
      requires conds[h].waiting != [] && 0 <= conds[h].waiting[0] < |status|
      requires locks[conds[h].lock].pid == current
      modifies this
      ensures SameUnlessHalted(CondSignalStep(old(Abs()), h))
    {
      var l := conds[h].lock;
      var p := conds[h].waiting[0];
      conds := conds[h := Cond(l, conds[h].waiting[1..])];
      freeLinks := freeLinks + 1;
      locks := locks[l := Lock(p, locks[l].waiting)];
      var ok := AllocLink();
      if !ok { assert false; }
      locks := locks[l := Lock(p, locks[l].waiting + [current])];
      ProcessWakeup(p);
      assert Abs() == Wakeup(old(Abs()).(conds := conds), p).(locks := locks);
      ProcessSleep();
    }

    method CondHandleSignal(h: int) returns (res: int)
      requires Inv(Abs()) && Enabled(Abs(), CondSignalOn(h))
      modifies this
      ensures After(old(Abs()), CondSignalOn(h)) && res == Step(old(Abs()), CondSignalOn(h)).1
    {
      if h < 0 || h >= MAX_CONDS || !condInUse[h] { return SYNC_FAIL; }
      if locks[conds[h].lock].pid != current { return SYNC_FAIL; }
      if conds[h].waiting != [] {
        LinksLeft(Abs());
        FirstIsProcess(Abs(), CondQueue(h));
        CondSignalAt(h);
      }
      return SYNC_SUCCESS;
    }
  }

  lemma LinksLeft(k: Kernel)
    requires Inv(k)
    ensures k.freeLinks >= QUEUE_MAX_LINKS - 2 * PROCESS_MAX_PROCS
    ensures k.current != NOBODY ==> 0 <= k.current < |k.status|
  {
    AtMostTwoLinksEach(k);
    if k.current != NOBODY { assert k.current in Home(k, Runnable); }
  }

  lemma FirstIsProcess(k: Kernel, q: int)
    requires Inv(k) && 0 <= q < QUEUES
    ensures Queue(k, q) != [] ==> 0 <= Queue(k, q)[0] < |k.status|
  {
    assert Sleepers(k, q);
    if Queue(k, q) != [] { assert Queue(k, q)[0] in Queue(k, q); }
  }
}
