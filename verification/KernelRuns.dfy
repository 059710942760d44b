/** The kernel over whole runs: from start-up, any enabled traps in any order. */
module KernelRuns {
  import opened Common
  import opened Tally
  import opened SyncObjects
  import opened KernelState
  import opened KernelInvariant

  /** ProcessModuleInit and SynchModuleInit: every PCB holds a link on the free list, last PCB first. */
  function Start(): Kernel {
    Kernel(seq(PROCESS_MAX_PROCS, _ => Free), NOBODY,
           seq(PROCESS_MAX_PROCS, i => PROCESS_MAX_PROCS - 1 - i), [], [], [],
           QUEUE_MAX_LINKS - PROCESS_MAX_PROCS,
           seq(MAX_SEMS, _ => Sem(0, [])), seq(MAX_SEMS, _ => false),
           seq(MAX_LOCKS, _ => Lock(0, [])), seq(MAX_LOCKS, _ => false),
           seq(MAX_CONDS, _ => Cond(0, [])), seq(MAX_CONDS, _ => false), Going)
  }

  lemma StartInv()
    ensures Inv(Start())
  {
    var k := Start();
    forall p | 0 <= p < PROCESS_MAX_PROCS
      ensures p in k.freePcbs
    {
      assert k.freePcbs[PROCESS_MAX_PROCS - 1 - p] == p;
    }
    assert Lengths(k) == seq(QUEUES, _ => 0);
    SumConst(QUEUES, 0);
  }

  /** `states[i + 1]` is the state after trap `i`. */
  ghost predicate StepsAt(states: seq<Kernel>, traps: seq<Trap>, i: nat)
    requires i < |traps| && |states| == |traps| + 1
  {
    Sized(states[i]) && Enabled(states[i], traps[i]) && states[i + 1] == Step(states[i], traps[i]).0
  }

  ghost predicate IsRun(states: seq<Kernel>, traps: seq<Trap>) {
    |states| == |traps| + 1 && forall i :: 0 <= i < |traps| ==> StepsAt(states, traps, i)
  }

  /** In every state a run from start-up passes through, the invariant holds, or the run has stopped there. */
  lemma {:induction false} InvAlways(states: seq<Kernel>, traps: seq<Trap>, i: nat)
    requires IsRun(states, traps) && states[0] == Start() && i < |states|
    ensures states[i].halt == Going ==> Inv(states[i])
  {
    if i == 0 {
      StartInv();
    } else {
      InvAlways(states, traps, i - 1);
      assert StepsAt(states, traps, i - 1);
      InvKept(states[i - 1], traps[i - 1]);
    }
  }

  /**
   The partition: a process is on the process queue of its status and on no other; it is on the
   waiting queue of exactly one semaphore, lock or condition if it is WAITING, and of none otherwise.
   */
  lemma EveryProcessInItsPlace(states: seq<Kernel>, traps: seq<Trap>, i: nat, p: int)
    requires IsRun(states, traps) && states[0] == Start() && i < |states| && states[i].halt == Going
    requires 0 <= p < PROCESS_MAX_PROCS
    ensures var k := states[i];
            && Sized(k)
            && (forall s :: p in Home(k, s) <==> k.status[p] == s)
            && (k.status[p] == Waiting <==> exists q :: 0 <= q < QUEUES && p in Queue(k, q))
            && (forall q, r :: 0 <= q < QUEUES && 0 <= r < QUEUES && p in Queue(k, q) && p in Queue(k, r) ==> q == r)
  {
    InvAlways(states, traps, i);
    var k := states[i];
    forall q, r | 0 <= q < QUEUES && 0 <= r < QUEUES && p in Queue(k, q) && p in Queue(k, r)
      ensures q == r
    {
      assert q != r ==> Apart(k, q, r);
    }
    if q :| 0 <= q < QUEUES && p in Queue(k, q) { assert Sleepers(k, q); }
    if k.status[p] == Waiting { assert OnSomeQueue(k, p); }
  }

  /** Free links and queue entries add up to the pool, and the pool never comes near its end. */
  lemma LinksNeverRunOut(states: seq<Kernel>, traps: seq<Trap>, i: nat)
    requires IsRun(states, traps) && states[0] == Start() && i < |states|
    ensures states[i].halt == Going ==>
              && Sized(states[i]) && states[i].freeLinks + LinksInUse(states[i]) == QUEUE_MAX_LINKS
              && states[i].freeLinks >= QUEUE_MAX_LINKS - 2 * PROCESS_MAX_PROCS
  {
    InvAlways(states, traps, i);
    if states[i].halt == Going { AtMostTwoLinksEach(states[i]); }
  }

  // ---- Locks ----

  /** `p` sleeps until it gets lock `l`: in the queue of the lock or of a condition bound to it. */
  ghost predicate WaitsFor(k: Kernel, p: int, l: int)
    requires Sized(k) && 0 <= l < MAX_LOCKS
  {
    p in k.locks[l].waiting || exists c :: 0 <= c < MAX_CONDS && k.conds[c].lock == l && p in k.conds[c].waiting
  }

  /** The running process owns the lock of condition `c`. */
  predicate Owner(k: Kernel, c: int) {
    && GoodHandle(c, k.condInUse) && c < |k.conds|
    && 0 <= k.conds[c].lock < |k.locks| && k.locks[k.conds[c].lock].pid == k.current
  }

  /** The traps by which a process can give lock `l` away. */
  predicate GivesUp(k: Kernel, t: Trap, l: int) {
    || (t.LockRelease? && t.h == l)
    || ((t.CondWaitOn? || t.CondSignalOn?) && 0 <= t.h < |k.conds| && k.conds[t.h].lock == l)
  }

  /**
   Queues are first come, first served: `now` is `was`, less its head if `popped`, with `me` possibly
   joining at the back.
   */
  ghost predicate Served(was: seq<int>, now: seq<int>, popped: bool, me: int) {
    && (popped ==> was != [])
    && var rest := if popped then was[1..] else was;
       now == rest || now == rest + [me]
  }

  /** The head of the queue of lock `l` is handed the lock. */
  predicate PopsLock(k: Kernel, t: Trap, l: int)
    requires 0 <= l < |k.locks|
  {
    && k.locks[l].pid == k.current && k.locks[l].waiting != []
    && ((t.LockRelease? && t.h == l) || (t.CondWaitOn? && Owner(k, t.h) && k.conds[t.h].lock == l))
  }

  /** The head of the queue of condition `c` is handed its lock. */
  predicate PopsCond(k: Kernel, t: Trap, c: int)
    requires 0 <= c < |k.conds|
  {
    t.CondSignalOn? && t.h == c && Owner(k, c) && k.conds[c].waiting != []
  }

  /**
   In every reachable state a free lock has no waiters, and the owner of a lock waits neither for it
   nor on its conditions.
   */
  lemma LocksAreSound(states: seq<Kernel>, traps: seq<Trap>, i: nat, l: int)
    requires IsRun(states, traps) && states[0] == Start() && i < |states| && states[i].halt == Going
    requires 0 <= l < MAX_LOCKS
    ensures var k := states[i];
            && Sized(k)
            && (k.lockInUse[l] && k.locks[l].pid == NOBODY ==> k.locks[l].waiting == [])
            && (k.lockInUse[l] && k.locks[l].pid != NOBODY ==> !WaitsFor(k, k.locks[l].pid, l))
  {
    InvAlways(states, traps, i);
    OwnerDoesNotWait(states[i], l);
  }

  lemma OwnerDoesNotWait(k: Kernel, l: int)
    requires Inv(k) && 0 <= l < MAX_LOCKS
    ensures k.lockInUse[l] && k.locks[l].pid == NOBODY ==> k.locks[l].waiting == []
    ensures k.lockInUse[l] && k.locks[l].pid != NOBODY ==> !WaitsFor(k, k.locks[l].pid, l)
  {
    assert LockFair(k, l);
    var owner := k.locks[l].pid;
    if k.lockInUse[l] && owner != NOBODY {
      forall c | 0 <= c < MAX_CONDS && k.conds[c].lock == l
        ensures owner !in k.conds[c].waiting
      {
        assert CondFair(k, c);
      }
    }
  }

  /**
   What any trap can do to a lock: its queue is served in order, and the lock changes hands only if
   it was free or its owner gives it up, to the head of its queue or of one of its conditions.
   */
  lemma LockStep(k: Kernel, t: Trap, l: int)
    requires Inv(k) && Enabled(k, t) && GoodHandle(l, k.lockInUse)
    ensures var now := Step(k, t).0.locks[l];
            && Served(k.locks[l].waiting, now.waiting, PopsLock(k, t, l), k.current)
            && (PopsLock(k, t, l) ==> now.pid == k.locks[l].waiting[0])
            && (now.pid != k.locks[l].pid ==>
                  || (k.locks[l].pid == NOBODY && now.pid == k.current)
                  || (k.locks[l].pid == k.current && GivesUp(k, t, l)))
  {
    if t.CondWaitOn? || t.CondSignalOn? { LockStepByCond(k, t, l); } else { LockStepByOther(k, t, l); }
  }

  lemma LockStepByOther(k: Kernel, t: Trap, l: int)
    requires Inv(k) && Enabled(k, t) && GoodHandle(l, k.lockInUse) && !t.CondWaitOn? && !t.CondSignalOn?
    ensures var now := Step(k, t).0.locks[l];
            && Served(k.locks[l].waiting, now.waiting, PopsLock(k, t, l), k.current)
            && (PopsLock(k, t, l) ==> now.pid == k.locks[l].waiting[0])
            && (now.pid != k.locks[l].pid ==>
                  || (k.locks[l].pid == NOBODY && now.pid == k.current)
                  || (k.locks[l].pid == k.current && GivesUp(k, t, l)))
  {
    assert LockFair(k, l);
  }

  lemma LockStepByCond(k: Kernel, t: Trap, l: int)
    requires Inv(k) && Enabled(k, t) && GoodHandle(l, k.lockInUse) && (t.CondWaitOn? || t.CondSignalOn?)
    ensures var now := Step(k, t).0.locks[l];
            && Served(k.locks[l].waiting, now.waiting, PopsLock(k, t, l), k.current)
            && (PopsLock(k, t, l) ==> now.pid == k.locks[l].waiting[0])
            && (now.pid != k.locks[l].pid ==> k.locks[l].pid == k.current && GivesUp(k, t, l))
  {
    if GoodHandle(t.h, k.condInUse) { assert CondFair(k, t.h); }
  }

  /** Likewise for a condition: whoever leaves it is its head and owns the lock. */
  lemma CondStep(k: Kernel, t: Trap, c: int)
    requires Inv(k) && Enabled(k, t) && GoodHandle(c, k.condInUse)
    ensures var k1 := Step(k, t).0;
            && k1.conds[c].lock == k.conds[c].lock
            && Served(k.conds[c].waiting, k1.conds[c].waiting, PopsCond(k, t, c), k.current)
            && (PopsCond(k, t, c) ==> k1.locks[k.conds[c].lock].pid == k.conds[c].waiting[0])
  {
    assert CondFair(k, c);
  }

  /** Ownership leaves a process only by its own release, wait or signal. */
  lemma OwnershipIsKept(k: Kernel, t: Trap, l: int)
    requires Inv(k) && Enabled(k, t) && GoodHandle(l, k.lockInUse) && k.locks[l].pid != NOBODY
    ensures Step(k, t).0.locks[l].pid != k.locks[l].pid ==> k.locks[l].pid == k.current && GivesUp(k, t, l)
  {
    LockStep(k, t, l);
  }

  lemma StaysUnlessHead(was: seq<int>, now: seq<int>, popped: bool, me: int, p: int)
    requires Served(was, now, popped, me) && p in was
    ensures p in now || (popped && p == was[0])
  {
    if popped && p != was[0] {
      var i :| 0 <= i < |was| && was[i] == p;
      assert was[1..][i - 1] == p;
    }
  }

  /** A process leaves the queues of a lock only as its owner. */
  lemma LeavesAsOwner(k: Kernel, t: Trap, p: int, l: int)
    requires Inv(k) && Enabled(k, t) && GoodHandle(l, k.lockInUse) && WaitsFor(k, p, l)
    requires Sized(Step(k, t).0)
    ensures WaitsFor(Step(k, t).0, p, l) || Step(k, t).0.locks[l].pid == p
  {
    var k1 := Step(k, t).0;
    if p in k.locks[l].waiting {
      LockStep(k, t, l);
      StaysUnlessHead(k.locks[l].waiting, k1.locks[l].waiting, PopsLock(k, t, l), k.current, p);
    } else {
      var c :| 0 <= c < MAX_CONDS && k.conds[c].lock == l && p in k.conds[c].waiting;
      assert CondFair(k, c);
      CondStep(k, t, c);
      StaysUnlessHead(k.conds[c].waiting, k1.conds[c].waiting, PopsCond(k, t, c), k.current, p);
    }
  }

  ghost predicate HoldsOrWaits(k: Kernel, p: int, l: int) {
    Sized(k) && GoodHandle(l, k.lockInUse) && (k.locks[l].pid == p || WaitsFor(k, p, l))
  }

  /** A successful acquire, wait or signal on lock `l`. */
  ghost predicate CallsForLock(k: Kernel, t: Trap, l: int)
    requires Inv(k) && Enabled(k, t)
  {
    && Step(k, t).1 == SYNC_SUCCESS
    && ((t.LockAcquire? && t.h == l) || ((t.CondWaitOn? || t.CondSignalOn?) && k.conds[t.h].lock == l))
  }

  lemma CallHoldsOrWaits(k: Kernel, t: Trap, l: int)
    requires Inv(k) && Enabled(k, t) && CallsForLock(k, t, l) && Sized(Step(k, t).0)
    ensures HoldsOrWaits(Step(k, t).0, k.current, l)
  {
    var k1 := Step(k, t).0;
    assert LockFair(k, l);
    if t.CondWaitOn? {
      assert CondFair(k, t.h);
      assert k.current in k1.conds[t.h].waiting;
    } else if t.CondSignalOn? {
      assert CondFair(k, t.h);
    }
  }

  lemma KeepsHoldingOrWaiting(k: Kernel, t: Trap, k1: Kernel, p: int, l: int)
    requires Inv(k) && Enabled(k, t) && HoldsOrWaits(k, p, l) && p >= 0 && p != k.current
    requires Sized(k1) && k1 == Step(k, t).0
    ensures HoldsOrWaits(k1, p, l)
  {
    if WaitsFor(k, p, l) { LeavesAsOwner(k, t, p, l); } else { OwnershipIsKept(k, t, l); }
  }

  lemma CallAt(states: seq<Kernel>, traps: seq<Trap>, i: nat, l: int)
    requires IsRun(states, traps) && states[0] == Start() && i < |traps| && states[i + 1].halt == Going
    requires Inv(states[i]) && Enabled(states[i], traps[i]) && CallsForLock(states[i], traps[i], l)
    ensures HoldsOrWaits(states[i + 1], states[i].current, l) && states[i].current >= 0
  {
    assert StepsAt(states, traps, i);
    InvAlways(states, traps, i + 1);
    CallHoldsOrWaits(states[i], traps[i], l);
  }

  /** A run that is still going has been going all along. */
  lemma WasGoing(states: seq<Kernel>, traps: seq<Trap>, m: nat)
    requires IsRun(states, traps) && m < |traps|
    ensures states[m].halt == Going
  {
    assert StepsAt(states, traps, m);
  }

  lemma HeldOneStep(states: seq<Kernel>, traps: seq<Trap>, m: nat, p: int, l: int)
    requires IsRun(states, traps) && states[0] == Start() && m < |traps| && states[m + 1].halt == Going
    requires HoldsOrWaits(states[m], p, l) && p >= 0 && states[m].current != p
    ensures HoldsOrWaits(states[m + 1], p, l)
  {
    assert StepsAt(states, traps, m) && Inv(states[m]) by {
      WasGoing(states, traps, m);
      InvAlways(states, traps, m);
    }
    assert Sized(states[m + 1]) by { InvAlways(states, traps, m + 1); }
    KeepsHoldingOrWaiting(states[m], traps[m], states[m + 1], p, l);
  }

  lemma {:induction false} HeldAlong(states: seq<Kernel>, traps: seq<Trap>, i: nat, m: nat, p: int, l: int)
    requires IsRun(states, traps) && states[0] == Start() && i <= m < |states| && states[m].halt == Going
    requires HoldsOrWaits(states[i], p, l) && p >= 0
    requires forall j :: i <= j < m ==> states[j].current != p
    ensures HoldsOrWaits(states[m], p, l)
  {
    if i < m {
      WasGoing(states, traps, m - 1);
      HeldAlong(states, traps, i, m - 1, p, l);
      HeldOneStep(states, traps, m - 1, p, l);
    }
  }

  /** Whoever runs is not asleep, so if it holds or waits for the lock it holds it. */
  lemma RunnerOwns(k: Kernel, l: int)
    requires Inv(k) && k.current >= 0 && HoldsOrWaits(k, k.current, l)
    ensures k.locks[l].pid == k.current
  {
    if WaitsFor(k, k.current, l) {
      RunnerIsAwake(k, LockQueue(l));
      assert Queue(k, LockQueue(l)) == k.locks[l].waiting;
      RunnerIsAwakeOnConds(k);
    }
  }

  /**
   Whenever lock_acquire, cond_wait or cond_signal has returned successfully to its caller, however
   long the caller slept and whatever ran meanwhile, the caller owns the lock.
   */
  lemma ResumesAsOwner(states: seq<Kernel>, traps: seq<Trap>, i: nat, m: nat, l: int)
    requires IsRun(states, traps) && states[0] == Start() && i < m < |states| && states[m].halt == Going
    requires Inv(states[i]) && Enabled(states[i], traps[i]) && CallsForLock(states[i], traps[i], l)
    requires forall j :: i < j < m ==> states[j].current != states[i].current
    requires states[m].current == states[i].current
    ensures Sized(states[m]) && GoodHandle(l, states[m].lockInUse) && states[m].locks[l].pid == states[i].current
  {
    if i + 1 < m { WasGoing(states, traps, i + 1); }
    CallAt(states, traps, i, l);
    HeldAlong(states, traps, i + 1, m, states[i].current, l);
    InvAlways(states, traps, m);
    RunnerOwns(states[m], l);
  }

  // ---- Round robin ----

  /** The trap puts its caller to sleep. */
  predicate Blocks(k: Kernel, t: Trap) {
    match t
    case SemWaitOn(h) => GoodHandle(h, k.semInUse) && h < |k.sems| && k.sems[h].count <= 0
    case LockAcquire(h) =>
      GoodHandle(h, k.lockInUse) && h < |k.locks| && k.locks[h].pid != k.current && k.locks[h].pid >= 0
    case CondWaitOn(c) => Owner(k, c)
    case CondSignalOn(c) => Owner(k, c) && k.conds[c].waiting != []
    case _ => false
  }

  /** The trap ends in ProcessSchedule. */
  predicate Schedules(k: Kernel, t: Trap) {
    t.Tick? || t.Exit? || Blocks(k, t)
  }

  /** A scheduler call moves everybody else one place forward; no other trap moves anybody. */
  lemma OnePlaceForward(k: Kernel, t: Trap, j: nat)
    requires Inv(k) && Enabled(k, t) && !t.Exit? && Step(k, t).0.halt == Going
    requires j < |k.runQueue| && (Schedules(k, t) ==> j >= 1)
    ensures var q := Step(k, t).0.runQueue;
            var d := if Schedules(k, t) then 1 else 0;
            j - d < |q| && q[j - d] == k.runQueue[j]
  {
    match t {
      case CondWaitOn(c) => OnePlaceForwardByCond(k, t, j);
      case CondSignalOn(c) => OnePlaceForwardByCond(k, t, j);
      case LockAcquire(h) => OnePlaceForwardByLock(k, t, j);
      case LockRelease(h) => OnePlaceForwardByLock(k, t, j);
      case SemWaitOn(h) => OnePlaceForwardBySem(k, t, j);
      case SemSignalOn(h) => OnePlaceForwardBySem(k, t, j);
      case _ =>
    }
  }

  lemma OnePlaceForwardBySem(k: Kernel, t: Trap, j: nat)
    requires Inv(k) && Enabled(k, t) && (t.SemWaitOn? || t.SemSignalOn?)
    requires j < |k.runQueue| && (Schedules(k, t) ==> j >= 1)
    ensures var q := Step(k, t).0.runQueue;
            var d := if Schedules(k, t) then 1 else 0;
            j - d < |q| && q[j - d] == k.runQueue[j]
  {
  }

  lemma OnePlaceForwardByCond(k: Kernel, t: Trap, j: nat)
    requires Inv(k) && Enabled(k, t) && (t.CondWaitOn? || t.CondSignalOn?)
    requires j < |k.runQueue| && (Schedules(k, t) ==> j >= 1)
    ensures var q := Step(k, t).0.runQueue;
            var d := if Schedules(k, t) then 1 else 0;
            j - d < |q| && q[j - d] == k.runQueue[j]
  {
  }

  lemma OnePlaceForwardByLock(k: Kernel, t: Trap, j: nat)
    requires Inv(k) && Enabled(k, t) && (t.LockAcquire? || t.LockRelease?)
    requires j < |k.runQueue| && (Schedules(k, t) ==> j >= 1)
    ensures var q := Step(k, t).0.runQueue;
            var d := if Schedules(k, t) then 1 else 0;
            j - d < |q| && q[j - d] == k.runQueue[j]
  {
  }

  /**
   An exit breaks the turn: the process next in line is sent to the back without having run, and
   everybody behind it moves two places forward.
   */
  lemma ExitSkipsOne(k: Kernel, j: nat)
    requires Inv(k) && Enabled(k, Exit) && Step(k, Exit).0.halt == Going
    requires 1 <= j < |k.runQueue|
    ensures var q := Step(k, Exit).0.runQueue;
            && |q| == |k.runQueue| - 1
            && k.runQueue[j] == q[if j == 1 then |q| - 1 else j - 2]
  {
  }

  /** Scheduler calls made by the traps from `i` up to `m`. */
  ghost function Calls(states: seq<Kernel>, traps: seq<Trap>, i: nat, m: nat): nat
    requires i <= m <= |traps| < |states|
  {
    if i == m then 0 else Calls(states, traps, i, m - 1) + if Schedules(states[m - 1], traps[m - 1]) then 1 else 0
  }

  /** How many places a trap moves everybody far enough behind the head forward. */
  function Pace(k: Kernel, t: Trap): nat {
    if t.Exit? then 2 else if Schedules(k, t) then 1 else 0
  }

  ghost function Progress(states: seq<Kernel>, traps: seq<Trap>, i: nat, m: nat): nat
    requires i <= m <= |traps| < |states|
  {
    if i == m then 0 else Progress(states, traps, i, m - 1) + Pace(states[m - 1], traps[m - 1])
  }

  lemma MovesForward(k: Kernel, t: Trap, k1: Kernel, j: nat)
    requires Inv(k) && Enabled(k, t) && k1 == Step(k, t).0 && k1.halt == Going
    requires j < |k.runQueue| && Pace(k, t) <= j
    ensures j - Pace(k, t) < |k1.runQueue| && k1.runQueue[j - Pace(k, t)] == k.runQueue[j]
  {
    if t.Exit? { ExitSkipsOne(k, j); } else { OnePlaceForward(k, t, j); }
  }

  lemma ForwardAt(states: seq<Kernel>, traps: seq<Trap>, m: nat, j: nat)
    requires IsRun(states, traps) && states[0] == Start() && m < |traps| && states[m + 1].halt == Going
    requires j < |states[m].runQueue| && Pace(states[m], traps[m]) <= j
    ensures var q := states[m + 1].runQueue;
            var d := Pace(states[m], traps[m]);
            j - d < |q| && q[j - d] == states[m].runQueue[j]
  {
    assert StepsAt(states, traps, m) && Inv(states[m]) by {
      WasGoing(states, traps, m);
      InvAlways(states, traps, m);
    }
    MovesForward(states[m], traps[m], states[m + 1], j);
  }

  /** The place of a process in any run, exits included, as long as its turn has not been passed. */
  lemma {:induction false} PlaceInLine(states: seq<Kernel>, traps: seq<Trap>, i: nat, m: nat, j: nat)
    requires IsRun(states, traps) && states[0] == Start() && i <= m < |states| && states[m].halt == Going
    requires j < |states[i].runQueue| && Progress(states, traps, i, m) <= j
    ensures j - Progress(states, traps, i, m) < |states[m].runQueue|
    ensures states[m].runQueue[j - Progress(states, traps, i, m)] == states[i].runQueue[j]
  {
    if i < m {
      WasGoing(states, traps, m - 1);
      PlaceInLine(states, traps, i, m - 1, j);
      ForwardAt(states, traps, m - 1, j - Progress(states, traps, i, m - 1));
    }
  }

  /**
   The turn of the process `j` places behind the running one: it runs when scheduler calls, those of
   exits counted twice, have reached `j`, and not before.
   */
  lemma RunsInTurn(states: seq<Kernel>, traps: seq<Trap>, i: nat, m: nat, j: nat)
    requires IsRun(states, traps) && states[0] == Start() && i <= m < |states| && states[m].halt == Going
    requires j < |states[i].runQueue| && Progress(states, traps, i, m) <= j
    ensures states[m].current == states[i].runQueue[j] <==> Progress(states, traps, i, m) == j
  {
    PlaceInLine(states, traps, i, m, j);
    InvAlways(states, traps, m);
    OnlyHeadRuns(states[m], j - Progress(states, traps, i, m));
  }

  /**
   Who misses the turn: exactly the process that an exit finds next in line, when the count goes from
   `j - 1` to `j + 1`. It is then last in line, and it runs only if it is also the only one left.
   */
  lemma MissesTurn(states: seq<Kernel>, traps: seq<Trap>, i: nat, m: nat, j: nat)
    requires IsRun(states, traps) && states[0] == Start() && i <= m < |traps| && states[m + 1].halt == Going
    requires j < |states[i].runQueue| && Progress(states, traps, i, m) < j < Progress(states, traps, i, m + 1)
    ensures traps[m].Exit? && Progress(states, traps, i, m) == j - 1
    ensures var q := states[m + 1].runQueue;
            && q != [] && q[|q| - 1] == states[i].runQueue[j]
            && (states[m + 1].current == states[i].runQueue[j] <==> |q| == 1)
  {
    PaceIs(states[m], traps[m]);
    WasGoing(states, traps, m);
    PlaceInLine(states, traps, i, m, j);
    PassedOver(states, traps, m);
  }

  lemma PaceIs(k: Kernel, t: Trap)
    ensures Pace(k, t) <= 2 && (Pace(k, t) == 2 <==> t.Exit?)
  {
  }

  /** What an exit does to the process next in line. */
  lemma PassedOver(states: seq<Kernel>, traps: seq<Trap>, m: nat)
    requires IsRun(states, traps) && states[0] == Start() && m < |traps| && states[m + 1].halt == Going
    requires traps[m].Exit? && |states[m].runQueue| > 1
    ensures var q := states[m + 1].runQueue;
            && q != [] && q[|q| - 1] == states[m].runQueue[1]
            && (states[m + 1].current == states[m].runQueue[1] <==> |q| == 1)
  {
    assert StepsAt(states, traps, m);
    assert Inv(states[m]) by { InvAlways(states, traps, m); }
    LastAfterExit(states[m]);
    assert Inv(states[m + 1]) by { InvAlways(states, traps, m + 1); }
    OnlyHeadRuns(states[m + 1], |states[m + 1].runQueue| - 1);
  }

  lemma LastAfterExit(k: Kernel)
    requires Inv(k) && Enabled(k, Exit) && Step(k, Exit).0.halt == Going && |k.runQueue| > 1
    ensures var q := Step(k, Exit).0.runQueue; q != [] && q[|q| - 1] == k.runQueue[1]
  {
    ExitSkipsOne(k, 1);
  }

  lemma {:induction false} CallsAreProgress(states: seq<Kernel>, traps: seq<Trap>, i: nat, m: nat)
    requires i <= m <= |traps| < |states| && forall n :: i <= n < m ==> !traps[n].Exit?
    ensures Progress(states, traps, i, m) == Calls(states, traps, i, m)
    decreases m
  {
    if i < m { CallsAreProgress(states, traps, i, m - 1); }
  }

  /**
   Round robin: while nobody exits, the process `j` places behind the running one is `j` places less
   the number of scheduler calls behind it later on; so it runs after exactly `j` such calls.
   */
  lemma RoundRobin(states: seq<Kernel>, traps: seq<Trap>, i: nat, m: nat, j: nat)
    requires IsRun(states, traps) && states[0] == Start() && i <= m < |states| && states[m].halt == Going
    requires forall n :: i <= n < m ==> !traps[n].Exit?
    requires j < |states[i].runQueue| && Calls(states, traps, i, m) <= j
    ensures j - Calls(states, traps, i, m) < |states[m].runQueue|
    ensures states[m].runQueue[j - Calls(states, traps, i, m)] == states[i].runQueue[j]
    ensures states[m].current == states[i].runQueue[j] <==> Calls(states, traps, i, m) == j
  {
    CallsAreProgress(states, traps, i, m);
    PlaceInLine(states, traps, i, m, j);
    RunsInTurn(states, traps, i, m, j);
  }

  lemma OnlyHeadRuns(k: Kernel, j: nat)
    requires Inv(k) && j < |k.runQueue|
    ensures k.current == k.runQueue[j] <==> j == 0
  {
    assert NoDup(Home(k, Runnable));
  }

  // ---- What the programs rely on ----

  /**
   Seen from the objects, a trap is the operation of that object alone, made by the running process:
   the steps the buffer programs are built from.
   */
  lemma TrapIsObjectStep(k: Kernel, t: Trap)
    requires Inv(k) && Enabled(k, t)
    ensures var k1 := Step(k, t).0;
            match t
            case SemWaitOn(h) => GoodHandle(h, k.semInUse) ==>
              k1.sems == k.sems[h := SemWait(k.sems[h], k.current)] && k1.locks == k.locks && k1.conds == k.conds
            case SemSignalOn(h) => GoodHandle(h, k.semInUse) ==>
              k1.sems == k.sems[h := SemSignal(k.sems[h])] && k1.locks == k.locks && k1.conds == k.conds
            case LockAcquire(h) => GoodHandle(h, k.lockInUse) ==>
              k1.locks == k.locks[h := Acquire(k.locks[h], k.current)] && k1.sems == k.sems && k1.conds == k.conds
            case LockRelease(h) => GoodHandle(h, k.lockInUse) ==>
              k1.locks == k.locks[h := Release(k.locks[h], k.current)] && k1.sems == k.sems && k1.conds == k.conds
            case CondWaitOn(c) => GoodHandle(c, k.condInUse) ==>
              var l := k.conds[c].lock;
              var (lock, queue) := CondWait(k.locks[l], k.conds[c].waiting, k.current);
              k1.locks == k.locks[l := lock] && k1.conds == k.conds[c := Cond(l, queue)] && k1.sems == k.sems
            case CondSignalOn(c) => GoodHandle(c, k.condInUse) ==>
              var l := k.conds[c].lock;
              var (lock, queue) := CondSignal(k.locks[l], k.conds[c].waiting, k.current);
              k1.locks == k.locks[l := lock] && k1.conds == k.conds[c := Cond(l, queue)] && k1.sems == k.sems
            case _ => true
  {
    if t.SemWaitOn? || t.SemSignalOn? {
      if GoodHandle(t.h, k.semInUse) { TrapIsSemStep(k, t); }
    } else if t.LockAcquire? || t.LockRelease? {
      if GoodHandle(t.h, k.lockInUse) { TrapIsLockStep(k, t); }
    }
  }

  lemma TrapIsSemStep(k: Kernel, t: Trap)
    requires Inv(k) && Enabled(k, t) && (t.SemWaitOn? || t.SemSignalOn?) && GoodHandle(t.h, k.semInUse)
    ensures var k1 := Step(k, t).0; var s := k.sems[t.h];
            && k1.sems == k.sems[t.h := if t.SemWaitOn? then SemWait(s, k.current) else SemSignal(s)]
            && k1.locks == k.locks && k1.conds == k.conds
  {
  }

  lemma TrapIsLockStep(k: Kernel, t: Trap)
    requires Inv(k) && Enabled(k, t) && (t.LockAcquire? || t.LockRelease?) && GoodHandle(t.h, k.lockInUse)
    ensures var k1 := Step(k, t).0; var l := k.locks[t.h];
            && k1.locks == k.locks[t.h := if t.LockAcquire? then Acquire(l, k.current) else Release(l, k.current)]
            && k1.sems == k.sems && k1.conds == k.conds
  {
  }
}
