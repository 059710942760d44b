/**
 What every reachable kernel state keeps. The invariant has three parts, and each trap is shown to
 keep each of them on its own:

 - Placed (KernelState): a process is on the process queue its status names and on no other, and on
   exactly one waiting queue if it is WAITING, else on none; the running process heads the run queue;
 - Fair: a free lock has no waiters, its owner waits neither for it nor on its conditions, nobody
   waits at a positive count, and objects not in use have empty queues;
 - Conserved: free links and the entries of all queues add up to the pool.
 */
module KernelInvariant {
  import opened Common
  import opened Tally
  import opened SyncObjects
  import opened KernelState

  // ---- Synchronisation objects ----

  /** A free lock has no waiters; its owner waits neither for it nor on a condition bound to it. */
  ghost predicate LockFair(k: Kernel, l: int)
    requires Sized(k) && 0 <= l < MAX_LOCKS
  {
    if !k.lockInUse[l] then k.locks[l].waiting == []
    else
      && k.locks[l].pid >= NOBODY
      && (k.locks[l].pid == NOBODY ==> k.locks[l].waiting == [])
      && k.locks[l].pid !in k.locks[l].waiting
      && forall c :: 0 <= c < MAX_CONDS && k.condInUse[c] && k.conds[c].lock == l ==>
           k.locks[l].pid !in k.conds[c].waiting
  }

  ghost predicate CondFair(k: Kernel, c: int)
    requires Sized(k) && 0 <= c < MAX_CONDS
  {
    if !k.condInUse[c] then k.conds[c].waiting == [] else k.lockInUse[k.conds[c].lock]
  }

  /** Nobody waits at a positive count. */
  ghost predicate SemFair(k: Kernel, s: int)
    requires Sized(k) && 0 <= s < MAX_SEMS
  {
    k.sems[s].waiting != [] ==> k.semInUse[s] && k.sems[s].count <= 0
  }

  ghost predicate Fair(k: Kernel)
    requires Sized(k)
  {
    && (forall l :: 0 <= l < MAX_LOCKS ==> LockFair(k, l))
    && (forall c :: 0 <= c < MAX_CONDS ==> CondFair(k, c))
    && (forall s :: 0 <= s < MAX_SEMS ==> SemFair(k, s))
  }

  ghost predicate Ready(k: Kernel) {
    Placed(k) && Fair(k) && k.halt == Going && k.runQueue != []
  }

  /** The running process is on no waiting queue, and a waiting process on no other. */
  lemma RunnerIsAwake(k: Kernel, q: int)
    requires Placed(k) && k.runQueue != [] && 0 <= q < QUEUES
    ensures 0 <= k.current < PROCESS_MAX_PROCS && k.current !in Queue(k, q)
  {
    assert k.current in Home(k, Runnable);
    assert Sleepers(k, q);
  }

  lemma RunnerIsAwakeOnConds(k: Kernel)
    requires Placed(k) && k.runQueue != []
    ensures forall c :: 0 <= c < MAX_CONDS ==> k.current !in k.conds[c].waiting
  {
    forall c | 0 <= c < MAX_CONDS
      ensures k.current !in k.conds[c].waiting
    {
      RunnerIsAwake(k, CondQueue(c));
      assert Queue(k, CondQueue(c)) == k.conds[c].waiting;
    }
  }

  /** Placement does not look at counts, owners and flags. */
  lemma SameSleepers(k: Kernel, t: Kernel, q: int)
    requires Placed(k) && 0 <= q < QUEUES && Edited(k, t, q, Queue(k, q))
    ensures Placed(t)
  {
    forall r | 0 <= r < QUEUES
      ensures Sleepers(t, r)
    {
      assert Sleepers(k, r);
    }
    forall r, u | 0 <= r < QUEUES && 0 <= u < QUEUES && r != u
      ensures Apart(t, r, u)
    {
      assert Apart(k, r, u);
    }
    forall x | 0 <= x < PROCESS_MAX_PROCS && t.status[x] == Waiting
      ensures OnSomeQueue(t, x)
    {
      assert OnSomeQueue(k, x);
      var r :| 0 <= r < QUEUES && x in Queue(k, r);
      assert x in Queue(t, r);
    }
  }

  lemma FairBesideSem(k: Kernel, t: Kernel, h: nat)
    requires Sized(k) && Sized(t) && Fair(k) && h < MAX_SEMS
    requires t.locks == k.locks && t.lockInUse == k.lockInUse && t.conds == k.conds && t.condInUse == k.condInUse
    requires SemFair(t, h)
    requires forall s :: 0 <= s < MAX_SEMS && s != h ==> t.sems[s] == k.sems[s] && t.semInUse[s] == k.semInUse[s]
    ensures Fair(t)
  {
    forall l | 0 <= l < MAX_LOCKS
      ensures LockFair(t, l)
    {
      assert LockFair(k, l);
    }
    forall c | 0 <= c < MAX_CONDS
      ensures CondFair(t, c)
    {
      assert CondFair(k, c);
    }
    forall s | 0 <= s < MAX_SEMS
      ensures SemFair(t, s)
    {
      assert SemFair(k, s);
    }
  }

  lemma FairBesideLock(k: Kernel, t: Kernel, h: nat)
    requires Sized(k) && Sized(t) && Fair(k) && h < MAX_LOCKS
    requires t.sems == k.sems && t.semInUse == k.semInUse && t.conds == k.conds && t.condInUse == k.condInUse
    requires t.lockInUse == k.lockInUse && LockFair(t, h)
    requires forall l :: 0 <= l < MAX_LOCKS && l != h ==> t.locks[l] == k.locks[l]
    ensures Fair(t)
  {
    forall l | 0 <= l < MAX_LOCKS
      ensures LockFair(t, l)
    {
      assert LockFair(k, l);
    }
    forall c | 0 <= c < MAX_CONDS
      ensures CondFair(t, c)
    {
      assert CondFair(k, c);
    }
    forall s | 0 <= s < MAX_SEMS
      ensures SemFair(t, s)
    {
      assert SemFair(k, s);
    }
  }

  lemma SemWaitPlaced(k: Kernel, h: nat)
    requires Ready(k) && GoodHandle(h, k.semInUse)
    ensures var t := SemWaitStep(k, h); t.halt == Going ==> Placed(t)
  {
    var s := SemWait(k.sems[h], k.current);
    if k.sems[h].count <= 0 {
      EditSem(k, h, s, k.freeLinks - 1);
      SleepKeepsPlaced(k, k.(sems := k.sems[h := s], freeLinks := k.freeLinks - 1), SemQueue(h));
    } else {
      EditSem(k, h, s, k.freeLinks);
      SameSleepers(k, SemWaitStep(k, h), SemQueue(h));
    }
  }

  lemma SemSignalPlaced(k: Kernel, h: nat)
    requires Ready(k) && GoodHandle(h, k.semInUse)
    ensures Placed(SemSignalStep(k, h))
  {
    var s := SemSignal(k.sems[h]);
    if k.sems[h].count >= 0 && k.sems[h].waiting != [] {
      EditSem(k, h, s, k.freeLinks + 1);
      WakeupKeepsPlaced(k, k.(sems := k.sems[h := s], freeLinks := k.freeLinks + 1), SemQueue(h));
    } else {
      EditSem(k, h, s, k.freeLinks);
      SameSleepers(k, SemSignalStep(k, h), SemQueue(h));
    }
  }

  lemma SemKept(k: Kernel, h: nat)
    requires Ready(k) && GoodHandle(h, k.semInUse)
    ensures var t := SemWaitStep(k, h); t.halt == Going ==> Placed(t) && Fair(t)
    ensures var t := SemSignalStep(k, h); t.halt == Going && Placed(t) && Fair(t)
  {
    SemWaitPlaced(k, h);
    SemSignalPlaced(k, h);
    assert SemFair(k, h);
    if SemWaitStep(k, h).halt == Going { FairBesideSem(k, SemWaitStep(k, h), h); }
    FairBesideSem(k, SemSignalStep(k, h), h);
  }

  lemma AcquirePlaced(k: Kernel, h: nat)
    requires Ready(k) && GoodHandle(h, k.lockInUse)
    ensures var t := AcquireStep(k, h); t.halt == Going ==> Placed(t)
  {
    var l := Acquire(k.locks[h], k.current);
    if k.locks[h].pid != k.current && k.locks[h].pid >= 0 {
      EditLock(k, h, l, k.freeLinks - 1);
      SleepKeepsPlaced(k, k.(locks := k.locks[h := l], freeLinks := k.freeLinks - 1), LockQueue(h));
    } else {
      EditLock(k, h, l, k.freeLinks);
      SameSleepers(k, AcquireStep(k, h), LockQueue(h));
    }
  }

  lemma AcquireFair(k: Kernel, h: nat)
    requires Ready(k) && GoodHandle(h, k.lockInUse)
    ensures var t := AcquireStep(k, h); t.halt == Going ==> Fair(t)
  {
    var t := AcquireStep(k, h);
    if t.halt == Going {
      assert LockFair(k, h);
      RunnerIsAwake(k, LockQueue(h));
      assert Queue(k, LockQueue(h)) == k.locks[h].waiting;
      RunnerIsAwakeOnConds(k);
      AcquirePlaced(k, h);
      assert LockFair(t, h);
      FairBesideLock(k, t, h);
    }
  }

  lemma HandOverPlaced(k: Kernel, h: nat)
    requires Ready(k) && GoodHandle(h, k.lockInUse)
    ensures var t := HandOverStep(k, h); Placed(t) && t.halt == Going && t.current == k.current
    ensures |HandOverStep(k, h).runQueue| >= |k.runQueue| > 0
  {
    var l := HandOver(k.locks[h]);
    if k.locks[h].waiting != [] {
      EditLock(k, h, l, k.freeLinks + 1);
      WakeupKeepsPlaced(k, k.(locks := k.locks[h := l], freeLinks := k.freeLinks + 1), LockQueue(h));
    } else {
      EditLock(k, h, l, k.freeLinks);
      SameSleepers(k, HandOverStep(k, h), LockQueue(h));
    }
  }

  /** A process waiting for a lock waits on no condition; nobody at all does so under the free owner's name. */
  lemma NextOwnerIsFree(k: Kernel, h: nat, p: int)
    requires Placed(k) && h < MAX_LOCKS && (p == NOBODY || p in k.locks[h].waiting)
    ensures forall c :: 0 <= c < MAX_CONDS ==> p !in k.conds[c].waiting
  {
    assert Queue(k, LockQueue(h)) == k.locks[h].waiting;
    forall c | 0 <= c < MAX_CONDS
      ensures p !in k.conds[c].waiting
    {
      assert Queue(k, CondQueue(c)) == k.conds[c].waiting;
      assert Apart(k, LockQueue(h), CondQueue(c)) && Sleepers(k, CondQueue(c));
    }
  }

  lemma HandOverFair(k: Kernel, h: nat)
    requires Ready(k) && GoodHandle(h, k.lockInUse)
    ensures Fair(HandOverStep(k, h))
  {
    var t := HandOverStep(k, h);
    HandOverPlaced(k, h);
    assert LockFair(k, h);
    NextOwnerIsFree(k, h, t.locks[h].pid);
    if k.locks[h].waiting != [] {
      assert Sleepers(k, LockQueue(h)) && Queue(k, LockQueue(h)) == k.locks[h].waiting;
      assert k.locks[h].waiting[0] in k.locks[h].waiting;
      QueueTail(k.locks[h].waiting);
    }
    assert LockFair(t, h);
    FairBesideLock(k, t, h);
  }

  /** CondWait: after the hand-over the caller sleeps on the condition; somebody else owns the lock. */
  lemma CondWaitPlaced(k: Kernel, c: nat)
    requires Ready(k) && GoodHandle(c, k.condInUse) && k.locks[k.conds[c].lock].pid == k.current
    ensures var t := CondWaitStep(k, c); t.halt == Going ==> Placed(t)
  {
    assert CondFair(k, c);
    var k1 := HandOverStep(k, k.conds[c].lock);
    HandOverPlaced(k, k.conds[c].lock);
    var queue := k.conds[c].waiting + [k.current];
    assert k1.conds == k.conds && queue == Queue(k1, CondQueue(c)) + [k1.current];
    var k2 := k1.(conds := k1.conds[c := Cond(k.conds[c].lock, queue)], freeLinks := k1.freeLinks - 1);
    EditCond(k1, c, Cond(k.conds[c].lock, queue), k1.freeLinks - 1);
    SleepKeepsPlaced(k1, k2, CondQueue(c));
    assert CondWaitStep(k, c) == Sleep(k2);
  }

  lemma CondWaitFair(k: Kernel, c: nat)
    requires Ready(k) && GoodHandle(c, k.condInUse) && k.locks[k.conds[c].lock].pid == k.current
    ensures Fair(CondWaitStep(k, c))
  {
    assert CondFair(k, c);
    var h := k.conds[c].lock;
    var k1 := HandOverStep(k, h);
    HandOverPlaced(k, h);
    HandOverFair(k, h);
    assert LockFair(k, h);
    RunnerIsAwake(k, LockQueue(h));
    assert Queue(k, LockQueue(h)) == k.locks[h].waiting;
    assert LockFair(k1, h) && k1.locks[h].pid != k.current;
    var t := CondWaitStep(k, c);
    assert Sized(t);
    FairWithCond(k1, t, c);
  }

  /** Fairness when one condition queue changes without taking in the owner of its lock. */
  lemma FairWithCond(k: Kernel, t: Kernel, c: nat)
    requires Sized(k) && Sized(t) && Fair(k) && GoodHandle(c, k.condInUse)
    requires t.sems == k.sems && t.semInUse == k.semInUse && t.locks == k.locks && t.lockInUse == k.lockInUse
    requires t.condInUse == k.condInUse && t.conds[c].lock == k.conds[c].lock
    requires forall d :: 0 <= d < MAX_CONDS && d != c ==> t.conds[d] == k.conds[d]
    requires k.locks[k.conds[c].lock].pid !in t.conds[c].waiting
    ensures Fair(t)
  {
    forall l | 0 <= l < MAX_LOCKS
      ensures LockFair(t, l)
    {
      assert LockFair(k, l);
    }
    forall d | 0 <= d < MAX_CONDS
      ensures CondFair(t, d)
    {
      assert CondFair(k, d);
    }
    forall s | 0 <= s < MAX_SEMS
      ensures SemFair(t, s)
    {
      assert SemFair(k, s);
    }
  }

  /** CondSignal: the waiter is woken as the owner, then the caller sleeps on the lock. */
  lemma CondSignalPlaced(k: Kernel, c: nat)
    requires Ready(k) && GoodHandle(c, k.condInUse) && k.conds[c].waiting != []
    requires k.locks[k.conds[c].lock].pid == k.current
    ensures var t := CondSignalStep(k, c); t.halt == Going && Placed(t)
  {
    var l := k.conds[c].lock;
    var (lock, queue) := CondSignal(k.locks[l], k.conds[c].waiting, k.current);
    EditCond(k, c, Cond(l, queue), k.freeLinks);
    WakeupKeepsPlaced(k, k.(conds := k.conds[c := Cond(l, queue)]), CondQueue(c));
    var k1 := Wakeup(k.(conds := k.conds[c := Cond(l, queue)]), k.conds[c].waiting[0]);
    EditLock(k1, l, lock, k1.freeLinks);
    assert Queue(k1, LockQueue(l)) == k.locks[l].waiting;
    SleepKeepsPlaced(k1, k1.(locks := k.locks[l := lock]), LockQueue(l));
  }

  lemma CondSignalFair(k: Kernel, c: nat)
    requires Ready(k) && GoodHandle(c, k.condInUse) && k.conds[c].waiting != []
    requires k.locks[k.conds[c].lock].pid == k.current
    ensures Fair(CondSignalStep(k, c))
  {
    var l := k.conds[c].lock;
    var t := CondSignalStep(k, c);
    var p := k.conds[c].waiting[0];
    CondSignalPlaced(k, c);
    assert CondFair(k, c) && LockFair(k, l);
    WaiterElsewhere(k, c);
    assert LockFair(t, l);
    forall h | 0 <= h < MAX_LOCKS
      ensures LockFair(t, h)
    {
      assert LockFair(k, h);
    }
    forall d | 0 <= d < MAX_CONDS
      ensures CondFair(t, d)
    {
      assert CondFair(k, d);
    }
    forall s | 0 <= s < MAX_SEMS
      ensures SemFair(t, s)
    {
      assert SemFair(k, s);
    }
  }

  /** The first waiter of a condition is on no other queue of the condition's lock. */
  lemma WaiterElsewhere(k: Kernel, c: nat)
    requires Placed(k) && k.runQueue != [] && c < MAX_CONDS && k.conds[c].waiting != []
    ensures var p := k.conds[c].waiting[0];
            && 0 <= p < PROCESS_MAX_PROCS && p != k.current && p !in k.conds[c].waiting[1..]
            && p !in k.locks[k.conds[c].lock].waiting
            && forall d :: 0 <= d < MAX_CONDS && d != c ==> p !in k.conds[d].waiting
  {
    var l := k.conds[c].lock;
    var p := k.conds[c].waiting[0];
    assert Queue(k, CondQueue(c)) == k.conds[c].waiting && Queue(k, LockQueue(l)) == k.locks[l].waiting;
    assert p in k.conds[c].waiting;
    assert Sleepers(k, CondQueue(c));
    assert Apart(k, CondQueue(c), LockQueue(l));
    RunnerIsAwake(k, CondQueue(c));
    QueueTail(k.conds[c].waiting);
    forall d | 0 <= d < MAX_CONDS && d != c
      ensures p !in k.conds[d].waiting
    {
      assert Apart(k, CondQueue(c), CondQueue(d));
      assert Queue(k, CondQueue(d)) == k.conds[d].waiting;
    }
  }

  lemma CreateKept(k: Kernel, t: Trap)
    requires Ready(k) && Enabled(k, t) && (t.SemCreate? || t.LockCreate? || t.CondCreate?)
    ensures var k1 := Step(k, t).0; Placed(k1) && Fair(k1) && k1.halt == Going
  {
    var k1 := Step(k, t).0;
    if k1 != k {
      match t
      case SemCreate(count) =>
        var s := FirstFree(k.semInUse);
        assert SemFair(k, s);
        EditSem(k, s, Sem(count, []), k.freeLinks);
        SameSleepers(k, k1, SemQueue(s));
        FairBesideSem(k, k1, s);
      case LockCreate =>
        var l := FirstFree(k.lockInUse);
        assert LockFair(k, l);
        EditLock(k, l, Lock(NOBODY, []), k.freeLinks);
        SameSleepers(k, k1, LockQueue(l));
        NextOwnerIsFree(k, l, NOBODY);
        FairWithNewLock(k, k1, l);
      case CondCreate(h) =>
        var c := FirstFree(k.condInUse);
        assert CondFair(k, c);
        EditCond(k, c, Cond(h, []), k.freeLinks);
        SameSleepers(k, k1, CondQueue(c));
        FairWithNewCond(k, k1, c);
    }
  }

  lemma FairWithNewLock(k: Kernel, t: Kernel, h: nat)
    requires Sized(k) && Sized(t) && Fair(k) && h < MAX_LOCKS
    requires t == k.(locks := k.locks[h := Lock(NOBODY, [])], lockInUse := k.lockInUse[h := true])
    requires forall c :: 0 <= c < MAX_CONDS ==> NOBODY !in k.conds[c].waiting
    ensures Fair(t)
  {
    forall l | 0 <= l < MAX_LOCKS
      ensures LockFair(t, l)
    {
      assert LockFair(k, l);
    }
    forall c | 0 <= c < MAX_CONDS
      ensures CondFair(t, c)
    {
      assert CondFair(k, c);
    }
    forall s | 0 <= s < MAX_SEMS
      ensures SemFair(t, s)
    {
      assert SemFair(k, s);
    }
  }

  lemma FairWithNewCond(k: Kernel, t: Kernel, c: nat)
    requires Sized(k) && Sized(t) && Fair(k) && c < MAX_CONDS
    requires 0 <= t.conds[c].lock < MAX_LOCKS && k.lockInUse[t.conds[c].lock]
    requires t == k.(conds := k.conds[c := Cond(t.conds[c].lock, [])], condInUse := k.condInUse[c := true])
    ensures Fair(t)
  {
    forall l | 0 <= l < MAX_LOCKS
      ensures LockFair(t, l)
    {
      assert LockFair(k, l);
    }
    forall d | 0 <= d < MAX_CONDS
      ensures CondFair(t, d)
    {
      assert CondFair(k, d);
    }
    forall s | 0 <= s < MAX_SEMS
      ensures SemFair(t, s)
    {
      assert SemFair(k, s);
    }
  }

  /** Traps that touch no object keep the objects fair. */
  lemma SameObjectsFair(k: Kernel, t: Kernel)
    requires Sized(k) && Sized(t) && Fair(k)
    requires t.sems == k.sems && t.semInUse == k.semInUse && t.locks == k.locks && t.lockInUse == k.lockInUse
    requires t.conds == k.conds && t.condInUse == k.condInUse
    ensures Fair(t)
  {
    FairBesideSem(k, t, 0) by { assert SemFair(k, 0); }
  }

  // ---- Links ----

  ghost function Lengths(k: Kernel): seq<int>
    requires Sized(k)
  {
    seq(QUEUES, q requires 0 <= q < QUEUES => |Queue(k, q)|)
  }

  /** Links in use: one for each entry of each queue. */
  ghost function LinksInUse(k: Kernel): int
    requires Sized(k)
  {
    |k.freePcbs| + |k.runQueue| + |k.waitQueue| + |k.zombies| + Sum(Lengths(k))
  }

  ghost predicate Conserved(k: Kernel)
    requires Sized(k)
  {
    k.freeLinks + LinksInUse(k) == QUEUE_MAX_LINKS
  }

  lemma LengthsEdited(k: Kernel, t: Kernel, q: int, w: seq<int>)
    requires Sized(k) && Sized(t) && 0 <= q < QUEUES
    requires forall r :: 0 <= r < QUEUES ==> Queue(t, r) == if r == q then w else Queue(k, r)
    ensures Sum(Lengths(t)) == Sum(Lengths(k)) - |Queue(k, q)| + |w|
  {
    assert Lengths(t) == Lengths(k)[q := |w|];
    SumUpdate(Lengths(k), q, |w|);
  }

  /** The entries of the first `m` waiting queues, one after the other. */
  ghost function Joined(k: Kernel, m: nat): seq<int>
    requires Sized(k) && m <= QUEUES
  {
    if m == 0 then [] else Joined(k, m - 1) + Queue(k, m - 1)
  }

  lemma {:induction false} JoinedDistinct(k: Kernel, m: nat)
    requires Placed(k) && m <= QUEUES
    ensures NoDup(Joined(k, m)) && |Joined(k, m)| == Sum(Lengths(k)[..m])
    ensures forall p :: p in Joined(k, m) ==> 0 <= p < PROCESS_MAX_PROCS && exists q :: 0 <= q < m && p in Queue(k, q)
  {
    if m > 0 {
      JoinedDistinct(k, m - 1);
      assert Lengths(k)[..m][..m - 1] == Lengths(k)[..m - 1];
      assert Lengths(k)[..m][m - 1] == |Queue(k, m - 1)|;
      assert Sleepers(k, m - 1);
      var front, last := Joined(k, m - 1), Queue(k, m - 1);
      forall p | p in front
        ensures p !in last
      {
        var q :| 0 <= q < m - 1 && p in Queue(k, q);
        assert Apart(k, q, m - 1);
      }
      NoDupJoin(front, last);
      forall p | p in front + last
        ensures 0 <= p < PROCESS_MAX_PROCS && exists q :: 0 <= q < m && p in Queue(k, q)
      {
        if p in last { assert p in Queue(k, m - 1); }
      }
    }
  }

  /** A process holds at most one link in the process queues and one in the waiting queues. */
  lemma AtMostTwoLinksEach(k: Kernel)
    requires Placed(k)
    ensures LinksInUse(k) <= 2 * PROCESS_MAX_PROCS
  {
    JoinedDistinct(k, QUEUES);
    assert Lengths(k)[..QUEUES] == Lengths(k);
    forall i | 0 <= i < |Joined(k, QUEUES)|
      ensures 0 <= Joined(k, QUEUES)[i] < PROCESS_MAX_PROCS
    {
      assert Joined(k, QUEUES)[i] in Joined(k, QUEUES);
    }
    DistinctInRange(Joined(k, QUEUES), 0, PROCESS_MAX_PROCS);
    var all := k.freePcbs + k.runQueue + k.waitQueue + k.zombies;
    HomesDistinct(k);
    DistinctInRange(all, 0, PROCESS_MAX_PROCS);
  }

  lemma HomesDistinct(k: Kernel)
    requires Placed(k)
    ensures var all := k.freePcbs + k.runQueue + k.waitQueue + k.zombies;
            NoDup(all) && forall i :: 0 <= i < |all| ==> 0 <= all[i] < PROCESS_MAX_PROCS
  {
    assert forall i :: 0 <= i < |k.freePcbs| ==> k.freePcbs[i] in Home(k, Free);
    assert forall i :: 0 <= i < |k.runQueue| ==> k.runQueue[i] in Home(k, Runnable);
    assert forall i :: 0 <= i < |k.waitQueue| ==> k.waitQueue[i] in Home(k, Waiting);
  }

  lemma SleepConserves(k: Kernel, k1: Kernel, q: int)
    requires Placed(k) && k.runQueue != [] && 0 <= q < QUEUES && Conserved(k)
    requires Edited(k, k1, q, Queue(k, q) + [k.current]) && k1.freeLinks == k.freeLinks - 1
    ensures Sized(Sleep(k1)) && Conserved(Sleep(k1))
  {
    var t := Sleep(k1);
    assert forall r :: 0 <= r < QUEUES ==> Queue(t, r) == Queue(k1, r);
    LengthsEdited(k, t, q, Queue(k, q) + [k.current]);
  }

  lemma WakeupConserves(k: Kernel, k1: Kernel, q: int)
    requires Placed(k) && 0 <= q < QUEUES && Queue(k, q) != [] && Conserved(k)
    requires Edited(k, k1, q, Queue(k, q)[1..]) && k1.freeLinks == k.freeLinks + 1
    ensures var t := Wakeup(k1, Queue(k, q)[0]); Sized(t) && Conserved(t)
  {
    var p := Queue(k, q)[0];
    var t := Wakeup(k1, p);
    assert Sleepers(k, q) && p in Queue(k, q);
    assert p in Home(k, Waiting);
    WithoutFacts(k.waitQueue, p);
    assert forall r :: 0 <= r < QUEUES ==> Queue(t, r) == Queue(k1, r);
    LengthsEdited(k, t, q, Queue(k, q)[1..]);
  }

  lemma SameLinks(k: Kernel, t: Kernel)
    requires Sized(k) && Sized(t) && Conserved(k) && t.freeLinks == k.freeLinks
    requires forall q :: 0 <= q < QUEUES ==> Queue(t, q) == Queue(k, q)
    requires |t.freePcbs| + |t.runQueue| + |t.waitQueue| + |t.zombies|
          == |k.freePcbs| + |k.runQueue| + |k.waitQueue| + |k.zombies|
    ensures Conserved(t)
  {
    assert Lengths(t) == Lengths(k);
  }

  lemma SemConserves(k: Kernel, h: nat)
    requires Ready(k) && Conserved(k) && GoodHandle(h, k.semInUse)
    ensures Conserved(SemWaitStep(k, h)) && Conserved(SemSignalStep(k, h))
  {
    SemWaitConserves(k, h);
    SemSignalConserves(k, h);
  }

  lemma SemWaitConserves(k: Kernel, h: nat)
    requires Ready(k) && Conserved(k) && GoodHandle(h, k.semInUse)
    ensures Conserved(SemWaitStep(k, h))
  {
    if k.sems[h].count <= 0 { SemSleepConserves(k, h); } else { SemTakeConserves(k, h); }
  }

  lemma SemSleepConserves(k: Kernel, h: nat)
    requires Ready(k) && Conserved(k) && GoodHandle(h, k.semInUse) && k.sems[h].count <= 0
    ensures Conserved(SemWaitStep(k, h))
  {
    var s := SemWait(k.sems[h], k.current);
    EditSem(k, h, s, k.freeLinks - 1);
    SleepConserves(k, k.(sems := k.sems[h := s], freeLinks := k.freeLinks - 1), SemQueue(h));
  }

  lemma SemTakeConserves(k: Kernel, h: nat)
    requires Ready(k) && Conserved(k) && GoodHandle(h, k.semInUse) && k.sems[h].count > 0
    ensures Conserved(SemWaitStep(k, h))
  {
    EditSem(k, h, SemWait(k.sems[h], k.current), k.freeLinks);
    SameLinks(k, SemWaitStep(k, h));
  }

  lemma SemSignalConserves(k: Kernel, h: nat)
    requires Ready(k) && Conserved(k) && GoodHandle(h, k.semInUse)
    ensures Conserved(SemSignalStep(k, h))
  {
    var s := SemSignal(k.sems[h]);
    if k.sems[h].count >= 0 && k.sems[h].waiting != [] {
      EditSem(k, h, s, k.freeLinks + 1);
      WakeupConserves(k, k.(sems := k.sems[h := s], freeLinks := k.freeLinks + 1), SemQueue(h));
    } else {
      EditSem(k, h, s, k.freeLinks);
      SameLinks(k, SemSignalStep(k, h));
    }
  }

  lemma AcquireConserves(k: Kernel, h: nat)
    requires Ready(k) && Conserved(k) && GoodHandle(h, k.lockInUse)
    ensures Conserved(AcquireStep(k, h))
  {
    if k.locks[h].pid != k.current && k.locks[h].pid >= 0 {
      LockSleepConserves(k, h);
    } else {
      LockTakeConserves(k, h);
    }
  }

  lemma LockSleepConserves(k: Kernel, h: nat)
    requires Ready(k) && Conserved(k) && GoodHandle(h, k.lockInUse)
    requires k.locks[h].pid != k.current && k.locks[h].pid >= 0
    ensures Conserved(AcquireStep(k, h))
  {
    var l := Acquire(k.locks[h], k.current);
    EditLock(k, h, l, k.freeLinks - 1);
    SleepConserves(k, k.(locks := k.locks[h := l], freeLinks := k.freeLinks - 1), LockQueue(h));
  }

  lemma LockTakeConserves(k: Kernel, h: nat)
    requires Ready(k) && Conserved(k) && GoodHandle(h, k.lockInUse)
    requires k.locks[h].pid == k.current || k.locks[h].pid < 0
    ensures Conserved(AcquireStep(k, h))
  {
    EditLock(k, h, Acquire(k.locks[h], k.current), k.freeLinks);
    SameLinks(k, AcquireStep(k, h));
  }

  lemma HandOverConserves(k: Kernel, h: nat)
    requires Ready(k) && Conserved(k) && GoodHandle(h, k.lockInUse)
    ensures Conserved(HandOverStep(k, h))
  {
    var l := HandOver(k.locks[h]);
    if k.locks[h].waiting != [] {
      EditLock(k, h, l, k.freeLinks + 1);
      WakeupConserves(k, k.(locks := k.locks[h := l], freeLinks := k.freeLinks + 1), LockQueue(h));
    } else {
      EditLock(k, h, l, k.freeLinks);
      SameLinks(k, HandOverStep(k, h));
    }
  }

  lemma CondWaitConserves(k: Kernel, c: nat)
    requires Ready(k) && Conserved(k) && GoodHandle(c, k.condInUse) && k.locks[k.conds[c].lock].pid == k.current
    ensures Conserved(CondWaitStep(k, c))
  {
    assert CondFair(k, c);
    var k1 := HandOverStep(k, k.conds[c].lock);
    HandOverPlaced(k, k.conds[c].lock);
    HandOverConserves(k, k.conds[c].lock);
    var queue := k.conds[c].waiting + [k.current];
    assert k1.conds == k.conds && queue == Queue(k1, CondQueue(c)) + [k1.current];
    var k2 := k1.(conds := k1.conds[c := Cond(k.conds[c].lock, queue)], freeLinks := k1.freeLinks - 1);
    EditCond(k1, c, Cond(k.conds[c].lock, queue), k1.freeLinks - 1);
    SleepConserves(k1, k2, CondQueue(c));
    assert CondWaitStep(k, c) == Sleep(k2);
  }

  lemma CondSignalConserves(k: Kernel, c: nat)
    requires Ready(k) && Conserved(k) && GoodHandle(c, k.condInUse) && k.conds[c].waiting != []
    requires k.locks[k.conds[c].lock].pid == k.current
    ensures Conserved(CondSignalStep(k, c))
  {
    var l := k.conds[c].lock;
    var (lock, queue) := CondSignal(k.locks[l], k.conds[c].waiting, k.current);
    var up := k.freeLinks + 1;
    EditCond(k, c, Cond(l, queue), up);
    var k0 := k.(conds := k.conds[c := Cond(l, queue)], freeLinks := up);
    WakeupKeepsPlaced(k, k0, CondQueue(c));
    WakeupConserves(k, k0, CondQueue(c));
    var k1 := Wakeup(k0, k.conds[c].waiting[0]);
    EditLock(k1, l, lock, k.freeLinks);
    assert Queue(k1, LockQueue(l)) == k.locks[l].waiting;
    SleepConserves(k1, k1.(locks := k.locks[l := lock], freeLinks := k.freeLinks), LockQueue(l));
  }

  // ---- Every reachable state ----

  ghost predicate Inv(k: Kernel) {
    Placed(k) && Fair(k) && Conserved(k) && k.halt == Going
  }

  /** A trap stops the simulation or leads to a state with the same invariant. */
  lemma InvKept(k: Kernel, t: Trap)
    requires Inv(k) && Enabled(k, t)
    ensures var k1 := Step(k, t).0; k1.halt == Going ==> Inv(k1)
  {
    match t
    case Tick => InvKeptByScheduler(k, t);
    case Exit => InvKeptByScheduler(k, t);
    case Fork(load) => InvKeptByScheduler(k, t);
    case SemWaitOn(h) => if GoodHandle(h, k.semInUse) { SemKept(k, h); SemConserves(k, h); }
    case SemSignalOn(h) => if GoodHandle(h, k.semInUse) { SemKept(k, h); SemConserves(k, h); }
    case LockAcquire(h) =>
      if GoodHandle(h, k.lockInUse) { AcquirePlaced(k, h); AcquireFair(k, h); AcquireConserves(k, h); }
    case LockRelease(h) =>
      if GoodHandle(h, k.lockInUse) { HandOverPlaced(k, h); HandOverFair(k, h); HandOverConserves(k, h); }
    case CondWaitOn(h) => InvKeptByCond(k, t);
    case CondSignalOn(h) => InvKeptByCond(k, t);
    case _ => InvKeptByCreate(k, t);
  }

  lemma InvKeptByScheduler(k: Kernel, t: Trap)
    requires Inv(k) && Enabled(k, t) && (t.Tick? || t.Exit? || t.Fork?)
    ensures var k1 := Step(k, t).0; k1.halt == Going ==> Inv(k1)
  {
    var k1 := Step(k, t).0;
    if k1.halt == Going {
      match t {
        case Tick => TickKeepsPlaced(k);
        case Exit => ExitKeepsPlaced(k);
        case Fork(load) => ForkKeepsPlaced(k, load);
      }
      SameObjectsFair(k, k1);
      assert forall q :: 0 <= q < QUEUES ==> Queue(k1, q) == Queue(k, q);
      SameLinks(k, k1);
    }
  }

  lemma InvKeptByCond(k: Kernel, t: Trap)
    requires Inv(k) && Enabled(k, t) && (t.CondWaitOn? || t.CondSignalOn?)
    ensures var k1 := Step(k, t).0; k1.halt == Going ==> Inv(k1)
  {
    var h := t.h;
    if GoodHandle(h, k.condInUse) && k.locks[k.conds[h].lock].pid == k.current {
      if t.CondWaitOn? {
        CondWaitPlaced(k, h);
        CondWaitFair(k, h);
        CondWaitConserves(k, h);
      } else if k.conds[h].waiting != [] {
        CondSignalPlaced(k, h);
        CondSignalFair(k, h);
        CondSignalConserves(k, h);
      }
    }
  }

  lemma InvKeptByCreate(k: Kernel, t: Trap)
    requires Inv(k) && Enabled(k, t) && (t.SemCreate? || t.LockCreate? || t.CondCreate?)
    ensures Inv(Step(k, t).0)
  {
    CreateKept(k, t);
    CreateKeepsQueues(k, t, Step(k, t).0);
    SameLinks(k, Step(k, t).0);
  }

  /** An object not in use has nobody waiting, so creating it changes no queue. */
  lemma CreateKeepsQueues(k: Kernel, t: Trap, k1: Kernel)
    requires Inv(k) && Enabled(k, t) && (t.SemCreate? || t.LockCreate? || t.CondCreate?)
    requires k1 == Step(k, t).0 && Sized(k1)
    ensures forall q :: 0 <= q < QUEUES ==> Queue(k1, q) == Queue(k, q)
  {
    if k1 != k {
      match t
      case SemCreate(count) => assert SemFair(k, FirstFree(k.semInUse));
      case LockCreate => assert LockFair(k, FirstFree(k.lockInUse));
      case CondCreate(h) => assert CondFair(k, FirstFree(k.condInUse));
    }
  }
}
