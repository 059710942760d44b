/**
 Two results over whole runs that look beyond one process: whether the process that a lock names as
 its owner is still the one that was granted the lock, and whether memory can run out. Process
 numbers are used again after an exit, and an exit leaves the number of the process in its locks.
 */
module KernelOwners {
  import opened Common
  import opened Tally
  import opened SyncObjects
  import opened KernelState
  import opened KernelInvariant
  import opened KernelRuns
  import PageOwnership

  /** The process of every lock owner exists. */
  ghost predicate OwnersExist(k: Kernel) {
    Sized(k) && forall l :: 0 <= l < MAX_LOCKS ==> OwnerExists(k, l)
  }

  ghost predicate OwnerExists(k: Kernel, l: int)
    requires Sized(k) && 0 <= l < MAX_LOCKS
  {
    k.lockInUse[l] && 0 <= k.locks[l].pid < PROCESS_MAX_PROCS ==> Alive(k.status[k.locks[l].pid])
  }

  /** The trap ends a process that owns a lock. */
  ghost predicate ExitsAsOwner(k: Kernel, t: Trap)
    requires Sized(k)
  {
    t.Exit? && exists l :: 0 <= l < MAX_LOCKS && k.lockInUse[l] && k.locks[l].pid == k.current
  }

  predicate Alive(s: Status) { s == Runnable || s == Waiting }

  /** Only an exit takes a process out of existence, and only the caller. */
  lemma StaysAlive(k: Kernel, t: Trap, p: int)
    requires Inv(k) && Enabled(k, t) && 0 <= p < PROCESS_MAX_PROCS && Alive(k.status[p])
    requires t.Exit? ==> p != k.current
    ensures var k1 := Step(k, t).0;
            k1.halt == Going ==> |k1.status| == PROCESS_MAX_PROCS && Alive(k1.status[p])
  {
    match t {
      case SemWaitOn(h) => StaysAliveBySem(k, t, p);
      case SemSignalOn(h) => StaysAliveBySem(k, t, p);
      case LockAcquire(h) => StaysAliveByLock(k, t, p);
      case LockRelease(h) => StaysAliveByLock(k, t, p);
      case CondWaitOn(h) => StaysAliveByCond(k, t, p);
      case CondSignalOn(h) => StaysAliveByCond(k, t, p);
      case _ => StaysAliveByScheduler(k, t, p);
    }
  }

  lemma StaysAliveByScheduler(k: Kernel, t: Trap, p: int)
    requires Inv(k) && Enabled(k, t) && 0 <= p < PROCESS_MAX_PROCS && Alive(k.status[p])
    requires t.Tick? || t.Fork? || (t.Exit? && p != k.current) || t.SemCreate? || t.LockCreate? || t.CondCreate?
    ensures var k1 := Step(k, t).0;
            k1.halt == Going ==> |k1.status| == PROCESS_MAX_PROCS && Alive(k1.status[p])
  {
    if k.freePcbs != [] { assert k.freePcbs[0] in Home(k, Free); }
  }

  lemma StaysAliveBySem(k: Kernel, t: Trap, p: int)
    requires Sized(k) && Enabled(k, t) && 0 <= p < PROCESS_MAX_PROCS && Alive(k.status[p])
    requires t.SemWaitOn? || t.SemSignalOn?
    ensures var k1 := Step(k, t).0; |k1.status| == PROCESS_MAX_PROCS && Alive(k1.status[p])
  {
  }

  lemma StaysAliveByLock(k: Kernel, t: Trap, p: int)
    requires Sized(k) && Enabled(k, t) && 0 <= p < PROCESS_MAX_PROCS && Alive(k.status[p])
    requires t.LockAcquire? || t.LockRelease?
    ensures var k1 := Step(k, t).0; |k1.status| == PROCESS_MAX_PROCS && Alive(k1.status[p])
  {
  }

  lemma AliveAwake(k: Kernel, w: int, p: int)
    requires |k.status| == PROCESS_MAX_PROCS && 0 <= p < PROCESS_MAX_PROCS && Alive(k.status[p])
    ensures |Wakeup(k, w).status| == PROCESS_MAX_PROCS && Alive(Wakeup(k, w).status[p])
  {
  }

  lemma StaysAliveByCond(k: Kernel, t: Trap, p: int)
    requires Sized(k) && Enabled(k, t) && 0 <= p < PROCESS_MAX_PROCS && Alive(k.status[p])
    requires t.CondWaitOn? || t.CondSignalOn?
    ensures var k1 := Step(k, t).0; |k1.status| == PROCESS_MAX_PROCS && Alive(k1.status[p])
  {
    if Owner(k, t.h) {
      if t.CondWaitOn? {
        StaysAliveByWait(k, t.h, p);
      } else if k.conds[t.h].waiting != [] {
        StaysAliveBySignal(k, t.h, p);
      }
    }
  }

  lemma StaysAliveByWait(k: Kernel, c: nat, p: int)
    requires |k.status| == PROCESS_MAX_PROCS && 0 <= p < PROCESS_MAX_PROCS && Alive(k.status[p])
    requires c < |k.conds| && 0 <= k.conds[c].lock < |k.locks|
    ensures var k1 := CondWaitStep(k, c); |k1.status| == PROCESS_MAX_PROCS && Alive(k1.status[p])
  {
    assert Alive(HandOverStep(k, k.conds[c].lock).status[p]);
  }

  lemma StaysAliveBySignal(k: Kernel, c: nat, p: int)
    requires |k.status| == PROCESS_MAX_PROCS && 0 <= p < PROCESS_MAX_PROCS && Alive(k.status[p])
    requires c < |k.conds| && 0 <= k.conds[c].lock < |k.locks| && k.conds[c].waiting != []
    ensures var k1 := CondSignalStep(k, c); |k1.status| == PROCESS_MAX_PROCS && Alive(k1.status[p])
  {
    AliveAwake(k, k.conds[c].waiting[0], p);
  }

  /** Whoever owns a lock after a trap owned it before, or is the caller, or was asleep until now. */
  lemma OwnerComesFrom(k: Kernel, t: Trap, l: int)
    requires Inv(k) && Enabled(k, t) && GoodHandle(l, k.lockInUse)
    ensures var p := Step(k, t).0.locks[l].pid;
            || p == NOBODY || p == k.locks[l].pid || p == k.current
            || (0 <= p < PROCESS_MAX_PROCS && k.status[p] == Waiting)
  {
    if t.CondSignalOn? {
      OwnerComesFromSignal(k, t.h, l);
    } else if t.LockRelease? || t.CondWaitOn? {
      OwnerAfterHandOver(k, t, l);
      HeadWaits(k, LockQueue(l));
    } else {
      OwnerAfterOthers(k, t, l);
    }
  }

  lemma OwnerAfterHandOver(k: Kernel, t: Trap, l: int)
    requires Inv(k) && Enabled(k, t) && GoodHandle(l, k.lockInUse) && (t.LockRelease? || t.CondWaitOn?)
    ensures var p := Step(k, t).0.locks[l].pid;
            || p == NOBODY || p == k.locks[l].pid
            || (Queue(k, LockQueue(l)) != [] && p == Queue(k, LockQueue(l))[0])
  {
  }

  lemma OwnerAfterOthers(k: Kernel, t: Trap, l: int)
    requires Inv(k) && Enabled(k, t) && GoodHandle(l, k.lockInUse)
    requires !t.LockRelease? && !t.CondWaitOn? && !t.CondSignalOn?
    ensures Step(k, t).0.locks[l].pid == k.locks[l].pid || Step(k, t).0.locks[l].pid == k.current
  {
  }

  lemma OwnerComesFromSignal(k: Kernel, c: int, l: int)
    requires Inv(k) && Enabled(k, CondSignalOn(c)) && GoodHandle(l, k.lockInUse)
    ensures var p := Step(k, CondSignalOn(c)).0.locks[l].pid;
            p == k.locks[l].pid || (0 <= p < PROCESS_MAX_PROCS && k.status[p] == Waiting)
  {
    LocksAfterSignal(k, c);
    if Owner(k, c) && k.conds[c].waiting != [] { HeadWaits(k, CondQueue(c)); }
  }

  lemma LocksAfterSignal(k: Kernel, c: int)
    requires Sized(k) && Enabled(k, CondSignalOn(c))
    ensures Step(k, CondSignalOn(c)).0.locks
         == if Owner(k, c) && k.conds[c].waiting != [] then
              var l := k.conds[c].lock;
              k.locks[l := Lock(k.conds[c].waiting[0], k.locks[l].waiting + [k.current])]
            else k.locks
  {
  }

  lemma HeadWaits(k: Kernel, q: int)
    requires Inv(k) && 0 <= q < QUEUES
    ensures Queue(k, q) != [] ==>
              0 <= Queue(k, q)[0] < PROCESS_MAX_PROCS && k.status[Queue(k, q)[0]] == Waiting
  {
    assert Sleepers(k, q);
    if Queue(k, q) != [] { assert Queue(k, q)[0] in Queue(k, q); }
  }

  /** Unless an owner exits, every lock owner goes on existing. */
  lemma OwnersStay(k: Kernel, t: Trap, l: int)
    requires Inv(k) && Enabled(k, t) && GoodHandle(l, k.lockInUse) && Step(k, t).0.halt == Going
    requires OwnerExists(k, l) && !ExitsAsOwner(k, t)
    ensures var k1 := Step(k, t).0;
            var p := k1.locks[l].pid;
            0 <= p < PROCESS_MAX_PROCS ==> |k1.status| == PROCESS_MAX_PROCS && Alive(k1.status[p])
  {
    OwnerComesFrom(k, t, l);
    assert k.current in Home(k, Runnable) || t.Fork?;
    var p := Step(k, t).0.locks[l].pid;
    if 0 <= p < PROCESS_MAX_PROCS {
      if t.Exit? { assert p == k.locks[l].pid != k.current; }
      StaysAlive(k, t, p);
    }
  }

  /** A lock is created without an owner. */
  lemma NewLockIsFree(k: Kernel, t: Trap, l: int)
    requires Inv(k) && Enabled(k, t) && 0 <= l < MAX_LOCKS && !k.lockInUse[l]
    ensures var k1 := Step(k, t).0;
            l < |k1.lockInUse| && l < |k1.locks| && (k1.lockInUse[l] ==> k1.locks[l].pid == NOBODY)
  {
    if !t.LockCreate? { assert Step(k, t).0.lockInUse == k.lockInUse; }
  }

  lemma OwnersStayAt(k: Kernel, t: Trap, k1: Kernel)
    requires Inv(k) && Enabled(k, t) && Sized(k1) && k1 == Step(k, t).0 && k1.halt == Going
    requires OwnersExist(k) && !ExitsAsOwner(k, t)
    ensures OwnersExist(k1)
  {
    forall l | 0 <= l < MAX_LOCKS
      ensures OwnerExists(k1, l)
    {
      assert OwnerExists(k, l);
      if k.lockInUse[l] { OwnersStay(k, t, l); } else { NewLockIsFree(k, t, l); }
    }
  }

  /** No process exits while it owns a lock. */
  ghost predicate OwnersRelease(states: seq<Kernel>, traps: seq<Trap>) {
    && |states| == |traps| + 1
    && forall n :: 0 <= n < |traps| ==> Sized(states[n]) ==> !ExitsAsOwner(states[n], traps[n])
  }

  lemma OwnersOneStep(states: seq<Kernel>, traps: seq<Trap>, m: nat)
    requires IsRun(states, traps) && states[0] == Start() && OwnersRelease(states, traps)
    requires m < |traps| && states[m + 1].halt == Going && OwnersExist(states[m])
    ensures OwnersExist(states[m + 1])
  {
    assert StepsAt(states, traps, m) && Inv(states[m]) by {
      WasGoing(states, traps, m);
      InvAlways(states, traps, m);
    }
    assert Sized(states[m + 1]) by { InvAlways(states, traps, m + 1); }
    OwnersStayAt(states[m], traps[m], states[m + 1]);
  }

  /**
   If no process exits while it owns a lock, the owner of every lock is at any time a process that
   exists; so it is the process that was granted the lock, and not a later one with its number.
   */
  lemma {:induction false} OwnersAlwaysExist(states: seq<Kernel>, traps: seq<Trap>, m: nat)
    requires IsRun(states, traps) && states[0] == Start() && OwnersRelease(states, traps)
    requires m < |states| && states[m].halt == Going
    ensures OwnersExist(states[m])
  {
    if m > 0 {
      WasGoing(states, traps, m - 1);
      OwnersAlwaysExist(states, traps, m - 1);
      OwnersOneStep(states, traps, m - 1);
    }
  }

  /** An owner that exits leaves a lock whose owner does not exist. */
  lemma ExitLeavesOwner(k: Kernel, t: Trap, k1: Kernel)
    requires Inv(k) && Enabled(k, t) && Sized(k1) && k1 == Step(k, t).0 && k1.halt == Going
    requires ExitsAsOwner(k, t)
    ensures !OwnersExist(k1)
  {
    var l :| 0 <= l < MAX_LOCKS && k.lockInUse[l] && k.locks[l].pid == k.current;
    assert k.current in Home(k, Runnable);
    assert k1.status[k.current] == Free;
    assert !OwnerExists(k1, l);
  }

  lemma ExitAt(states: seq<Kernel>, traps: seq<Trap>, m: nat)
    requires IsRun(states, traps) && states[0] == Start() && m < |traps| && states[m + 1].halt == Going
    requires Sized(states[m]) && ExitsAsOwner(states[m], traps[m])
    ensures !OwnersExist(states[m + 1])
  {
    assert StepsAt(states, traps, m) && Inv(states[m]) by {
      WasGoing(states, traps, m);
      InvAlways(states, traps, m);
    }
    assert Sized(states[m + 1]) by { InvAlways(states, traps, m + 1); }
    ExitLeavesOwner(states[m], traps[m], states[m + 1]);
  }

  lemma {:induction false} GoingUntil(states: seq<Kernel>, traps: seq<Trap>, i: nat)
    requires IsRun(states, traps) && states[|traps|].halt == Going && i <= |traps|
    ensures states[i].halt == Going
  {
    if i < |traps| { WasGoing(states, traps, i); }
  }

  /**
   In a run that is still going, the owner of every lock is at any time a process that exists if and
   only if no process has exited as an owner.
   */
  lemma OwnersExistExactly(states: seq<Kernel>, traps: seq<Trap>)
    requires IsRun(states, traps) && states[0] == Start() && states[|traps|].halt == Going
    ensures (forall i :: 0 <= i <= |traps| ==> OwnersExist(states[i])) <==> OwnersRelease(states, traps)
  {
    if OwnersRelease(states, traps) {
      forall i | 0 <= i <= |traps|
        ensures OwnersExist(states[i])
      {
        GoingUntil(states, traps, i);
        OwnersAlwaysExist(states, traps, i);
      }
    } else {
      var n :| 0 <= n < |traps| && Sized(states[n]) && ExitsAsOwner(states[n], traps[n]);
      GoingUntil(states, traps, n + 1);
      ExitAt(states, traps, n);
    }
  }

  // ---- A run in which a number is used again ----

  /** Two processes start, the first acquires a lock and exits; forks bring its number up again, and its turn. */
  function ReuseTraps(): (ts: seq<Trap>)
    ensures |ts| == 68
    ensures forall i :: 5 <= i < 36 ==> ts[i] == Fork(Loaded)
    ensures forall i :: 36 <= i < 67 ==> ts[i] == Tick
  {
    [Fork(Loaded), Fork(Loaded), LockCreate, LockAcquire(0), Exit]
    + seq(31, _ => Fork(Loaded)) + seq(31, _ => Tick) + [LockRelease(0)]
  }

  /** The state after the first `i` traps; a trap that is not enabled is left out. */
  ghost function After(traps: seq<Trap>, i: nat): Kernel
    requires i <= |traps|
  {
    if i == 0 then Start()
    else
      var k := After(traps, i - 1);
      if Sized(k) && Enabled(k, traps[i - 1]) then Step(k, traps[i - 1]).0 else k
  }

  /** Process 31 has been granted lock 0, and nobody waits for it. */
  ghost predicate Granted(k: Kernel) {
    Sized(k) && k.halt == Going && k.lockInUse[0] && k.locks[0] == Lock(31, [])
  }

  /** Processes 31 and 30 have been started, 31 runs, and no lock has been created. */
  ghost predicate TwoStarted(k: Kernel) {
    && Sized(k) && k.halt == Going && k.current == 31 && k.runQueue == [31, 30]
    && |k.freePcbs| == 30 && Numbers(k.freePcbs) && !k.lockInUse[0]
  }

  lemma TwoForks()
    ensures var ts := ReuseTraps();
            && (forall i :: 0 <= i < 2 ==> Sized(After(ts, i)) && Enabled(After(ts, i), ts[i]))
            && TwoStarted(After(ts, 2))
  {
    assert After(ReuseTraps(), 1).runQueue == [31];
  }

  lemma LockGranted(k: Kernel)
    requires TwoStarted(k)
    ensures Enabled(k, LockCreate)
    ensures var c := Step(k, LockCreate).0;
            && Sized(c) && Enabled(c, LockAcquire(0))
            && var d := Step(c, LockAcquire(0)).0;
               Granted(d) && d.current == 31 && d.runQueue == k.runQueue && d.freePcbs == k.freePcbs
  {
  }

  lemma OwnerExits(k: Kernel)
    requires Granted(k) && k.current == 31 && k.runQueue == [31, 30] && |k.freePcbs| == 30 && Numbers(k.freePcbs)
    ensures Enabled(k, Exit) && Forked(Step(k, Exit).0, 0)
  {
  }

  /** The first traps: process 31 is gone, process 30 runs alone, and 31 is the last number to be used again. */
  lemma OwnerGone()
    ensures var ts := ReuseTraps();
            && (forall i :: 0 <= i < 5 ==> Sized(After(ts, i)) && Enabled(After(ts, i), ts[i]))
            && After(ts, 4).current == 31 && Granted(After(ts, 4)) && Forked(After(ts, 5), 0)
  {
    TwoForks();
    OwnerGoneFrom(ReuseTraps());
  }

  ghost predicate Goes(ts: seq<Trap>, i: nat)
    requires i < |ts|
  {
    Sized(After(ts, i)) && Enabled(After(ts, i), ts[i])
  }

  lemma OwnerGoneSteps(k2: Kernel, k3: Kernel, k4: Kernel)
    requires TwoStarted(k2) && Enabled(k2, LockCreate) && k3 == Step(k2, LockCreate).0
    requires Sized(k3) && Enabled(k3, LockAcquire(0)) && k4 == Step(k3, LockAcquire(0)).0
    ensures Granted(k4) && k4.current == 31 && Enabled(k4, Exit) && Forked(Step(k4, Exit).0, 0)
  {
    LockGranted(k2);
    OwnerExits(k4);
  }

  lemma {:induction false} OwnerGoneFrom(ts: seq<Trap>)
    requires |ts| >= 5 && ts[2] == LockCreate && ts[3] == LockAcquire(0) && ts[4] == Exit
    requires TwoStarted(After(ts, 2))
    ensures Goes(ts, 2) && Goes(ts, 3) && Goes(ts, 4)
    ensures After(ts, 4).current == 31 && Granted(After(ts, 4)) && Forked(After(ts, 5), 0)
  {
    LockGranted(After(ts, 2));
    AfterNext(ts, 2, After(ts, 3));
    AfterNext(ts, 3, After(ts, 4));
    OwnerGoneSteps(After(ts, 2), After(ts, 3), After(ts, 4));
    AfterNext(ts, 4, After(ts, 5));
  }

  lemma {:induction false} AfterNext(ts: seq<Trap>, i: nat, k: Kernel)
    requires i < |ts| && Goes(ts, i) && k == After(ts, i + 1)
    ensures k == Step(After(ts, i), ts[i]).0
  {
  }

  ghost predicate Numbers(q: seq<int>) {
    forall i :: 0 <= i < |q| ==> q[i] >= 0
  }

  /** After `m` more forks: process 30 runs, and 31 comes up after 30 - m others. */
  ghost predicate Forked(k: Kernel, m: nat) {
    && Granted(k) && k.current == 30 && m <= 31
    && |k.runQueue| == 1 + m && k.runQueue[0] == 30
    && |k.freePcbs| == 31 - m && Numbers(k.runQueue) && Numbers(k.freePcbs)
    && (if m <= 30 then k.freePcbs[30 - m] == 31 else k.runQueue[31] == 31)
  }

  lemma {:induction false} Forks(m: nat)
    requires m <= 31
    ensures Forked(After(ReuseTraps(), 5 + m), m)
  {
    if m == 0 {
      OwnerGone();
    } else {
      Forks(m - 1);
      OneFork(After(ReuseTraps(), 5 + m - 1), m - 1);
    }
  }

  lemma OneFork(k: Kernel, m: nat)
    requires Forked(k, m) && m < 31
    ensures Enabled(k, Fork(Loaded)) && Forked(Step(k, Fork(Loaded)).0, m + 1)
  {
  }

  /** After `m` ticks process 31 stands `m` places further up. */
  ghost predicate Turned(k: Kernel, m: nat) {
    && Granted(k) && m <= 31 && Numbers(k.runQueue)
    && |k.runQueue| == 32 && k.runQueue[31 - m] == 31 && k.current == k.runQueue[0]
  }

  lemma {:induction false} Ticks(m: nat)
    requires m <= 31
    ensures Turned(After(ReuseTraps(), 36 + m), m)
  {
    if m == 0 {
      Forks(31);
    } else {
      Ticks(m - 1);
      OneTick(After(ReuseTraps(), 36 + m - 1), m - 1);
    }
  }

  lemma OneTick(k: Kernel, m: nat)
    requires Turned(k, m) && m < 31
    ensures Enabled(k, Tick) && Turned(Step(k, Tick).0, m + 1)
  {
  }

  lemma ReuseEnabled(i: nat)
    requires i < 68
    ensures Sized(After(ReuseTraps(), i)) && Enabled(After(ReuseTraps(), i), ReuseTraps()[i])
  {
    if i < 5 {
      OwnerGone();
    } else if i < 36 {
      Forks(i - 5);
    } else {
      Ticks(i - 36);
    }
  }

  ghost function ReuseStates(): (states: seq<Kernel>)
    ensures |states| == 69 && forall i :: 0 <= i < 69 ==> states[i] == After(ReuseTraps(), i)
  {
    seq(69, i requires 0 <= i < 69 => After(ReuseTraps(), i))
  }

  lemma ReuseIsRun()
    ensures IsRun(ReuseStates(), ReuseTraps()) && ReuseStates()[0] == Start()
  {
    forall i | 0 <= i < 68
      ensures StepsAt(ReuseStates(), ReuseTraps(), i)
    {
      ReuseEnabled(i);
    }
  }

  /** Process 31 exits as the owner of lock 0. */
  ghost predicate OwnerLeaves(k: Kernel, t: Trap) {
    t == Exit && k.current == 31 && Granted(k)
  }

  /** The number 31 is given to a new process. */
  ghost predicate NumberReused(k: Kernel, t: Trap) {
    t == Fork(Loaded) && k.freePcbs != [] && k.freePcbs[0] == 31
  }

  /** A call of process 31 releases lock 0. */
  ghost predicate Releases(k: Kernel, t: Trap, k1: Kernel) {
    && t == LockRelease(0) && k.current == 31 && Granted(k) && Enabled(k, t)
    && Step(k, t).1 == SYNC_SUCCESS && Sized(k1) && k1.locks[0] == Lock(NOBODY, [])
  }

  lemma OwnerLeavesAt()
    ensures OwnerLeaves(After(ReuseTraps(), 4), ReuseTraps()[4])
  {
    OwnerGone();
  }

  lemma NumberReusedAt()
    ensures NumberReused(After(ReuseTraps(), 35), ReuseTraps()[35])
  {
    Forks(30);
  }

  lemma ReleasesAt()
    ensures Releases(After(ReuseTraps(), 67), ReuseTraps()[67], After(ReuseTraps(), 68))
  {
    Ticks(31);
    ReleasedByOther(After(ReuseTraps(), 67), After(ReuseTraps(), 68));
  }

  /**
   A run in which a process exits as the owner of a lock, a fork gives its number to a new process,
   and that process, without ever having acquired the lock, releases it.
   */
  lemma LaterProcessReleases() returns (states: seq<Kernel>, traps: seq<Trap>, e: nat, f: nat, m: nat)
    ensures IsRun(states, traps) && states[0] == Start() && e < f < m < |traps|
    ensures OwnerLeaves(states[e], traps[e]) && NumberReused(states[f], traps[f])
    ensures forall i :: f < i < m ==> traps[i] == Tick
    ensures Releases(states[m], traps[m], states[m + 1])
  {
    states, traps, e, f, m := ReuseStates(), ReuseTraps(), 4, 35, 67;
    ReuseIsRun();
    OwnerLeavesAt();
    NumberReusedAt();
    ReleasesAt();
  }

  lemma ReleasedByOther(k: Kernel, k1: Kernel)
    requires Turned(k, 31) && k1 == Step(k, LockRelease(0)).0
    ensures Step(k, LockRelease(0)).1 == SYNC_SUCCESS && Sized(k1) && k1.locks[0] == Lock(NOBODY, [])
  {
  }

  // ---- Pages for forks ----

  /** Pages left of `total` when every process that exists has two. */
  function PagesLeft(k: Kernel, total: int): int {
    total - 2 * (PROCESS_MAX_PROCS - |k.freePcbs|)
  }

  /** Exactly the processes that exist hold pages. */
  ghost predicate SameProcesses(k: Kernel, pcbs: seq<PageOwnership.Pages>) {
    |pcbs| == |k.status| && forall p :: 0 <= p < |pcbs| ==> (pcbs[p].inUse <==> k.status[p] != Free)
  }

  /** Then the pages left are what the allocator counts. */
  lemma PagesLeftAreCounted(k: Kernel, m: PageOwnership.ProcessMemory)
    requires Inv(k) && m.Valid() && SameProcesses(k, m.pcbs) && m.memory.pagestart <= m.memory.maxpage
    ensures PagesLeft(k, m.memory.maxpage - m.memory.pagestart) == m.memory.nfreepages == |m.memory.free|
  {
    FreeOnesListed(k, m.pcbs);
  }

  lemma FreeOnesListed(k: Kernel, pcbs: seq<PageOwnership.Pages>)
    requires Inv(k) && SameProcesses(k, pcbs)
    ensures Sum(PageOwnership.InUse(pcbs)) == PROCESS_MAX_PROCS - |k.freePcbs|
  {
    assert Home(k, Free) == k.freePcbs;
    forall i | 0 <= i < |k.freePcbs|
      ensures 0 <= k.freePcbs[i] < PROCESS_MAX_PROCS
    {
      assert k.freePcbs[i] in Home(k, Free);
    }
    ZerosListed(PageOwnership.InUse(pcbs), k.freePcbs);
  }

  /** A fork is told that there are no pages exactly when fewer than two are left. */
  predicate TruthfulFork(k: Kernel, t: Trap, total: int) {
    t.Fork? ==> (t.load == NoPages <==> PagesLeft(k, total) < 2)
  }

  /** With 64 pages behind the system no fork ever halts the kernel for want of pages. */
  lemma {:induction false} PagesNeverRunOut(states: seq<Kernel>, traps: seq<Trap>, m: nat, total: int)
    requires IsRun(states, traps) && states[0] == Start() && m < |states| && total >= 2 * PROCESS_MAX_PROCS
    requires forall n :: 0 <= n < |traps| ==> TruthfulFork(states[n], traps[n], total)
    ensures states[m].halt != NoFreePage
  {
    if m > 0 {
      assert StepsAt(states, traps, m - 1);
      assert TruthfulFork(states[m - 1], traps[m - 1], total);
      InvAlways(states, traps, m - 1);
      EnoughPages(states[m - 1], traps[m - 1], total);
    }
  }

  lemma EnoughPages(k: Kernel, t: Trap, total: int)
    requires Inv(k) && Enabled(k, t) && TruthfulFork(k, t, total) && total >= 2 * PROCESS_MAX_PROCS
    ensures Step(k, t).0.halt != NoFreePage
  {
  }
}
