/** What every trap answers its caller, whose status it changes, and when it stops the kernel. */
module KernelAnswers {
  /*
   Each condition is stated by what the caller could look up before the call: the slots in use, the
   count of a semaphore, the owner of a lock and who waits for it.
   */

  import opened Common
  import opened Tally
  import opened SyncObjects
  import opened KernelState
  import opened KernelInvariant
  import opened KernelRuns

  // ---- Answers ----

  /** Somebody has created semaphore, lock or condition `h`. */
  predicate SemExists(k: Kernel, h: int)
    requires |k.semInUse| == MAX_SEMS
  {
    0 <= h < 32 && k.semInUse[h]
  }

  predicate LockExists(k: Kernel, h: int)
    requires |k.lockInUse| == MAX_LOCKS
  {
    0 <= h < 64 && k.lockInUse[h]
  }

  predicate CondExists(k: Kernel, h: int)
    requires |k.condInUse| == MAX_CONDS
  {
    0 <= h < 32 && k.condInUse[h]
  }

  /** The caller owns the lock of condition `h`. */
  ghost predicate OwnsLockOf(k: Kernel, h: int)
    requires Sized(k)
  {
    CondExists(k, h) && k.locks[k.conds[h].lock].pid == k.current
  }

  /** A call on an object succeeds. */
  ghost predicate Succeeds(k: Kernel, t: Trap)
    requires Sized(k)
  {
    match t
    case SemWaitOn(h) => SemExists(k, h)
    case SemSignalOn(h) => SemExists(k, h)
    case LockAcquire(h) => LockExists(k, h)
    case LockRelease(h) => LockExists(k, h) && k.locks[h].pid == k.current
    case CondWaitOn(h) => OwnsLockOf(k, h)
    case CondSignalOn(h) => OwnsLockOf(k, h)
    case _ => false
  }

  predicate IsCall(t: Trap) {
    t.SemWaitOn? || t.SemSignalOn? || t.LockAcquire? || t.LockRelease? || t.CondWaitOn? || t.CondSignalOn?
  }

  /** A call answers success or failure, success exactly in these cases, and a failed call changes nothing. */
  lemma AnswersExactly(k: Kernel, t: Trap)
    requires Inv(k) && Enabled(k, t) && IsCall(t)
    ensures Step(k, t).1 == if Succeeds(k, t) then 1 else -1
    ensures !Succeeds(k, t) ==> Step(k, t).0 == k
  {
  }

  /** The first of the slots that is not in use, if `h` is one. */
  predicate FirstUnused(used: seq<bool>, h: int) {
    0 <= h < |used| && !used[h] && forall j :: 0 <= j < h ==> used[j]
  }

  /** sem_create fails exactly when all 32 semaphores are in use; otherwise the first unused one has the count given. */
  lemma SemCreated(k: Kernel, count: int)
    requires Inv(k) && Enabled(k, SemCreate(count))
    ensures var (k1, h) := Step(k, SemCreate(count));
            if forall i :: 0 <= i < 32 ==> SemExists(k, i) then h == -1 && k1 == k
            else
              && FirstUnused(k.semInUse, h)
              && k1 == k.(semInUse := k.semInUse[h := true], sems := k.sems[h := Sem(count, [])])
  {
    var s := FirstFree(k.semInUse);
    if s < 32 { assert !SemExists(k, s); }
  }

  /** lock_create fails exactly when all 64 locks are in use; otherwise the first unused one is free. */
  lemma LockCreated(k: Kernel)
    requires Inv(k) && Enabled(k, LockCreate)
    ensures var (k1, h) := Step(k, LockCreate);
            if forall i :: 0 <= i < 64 ==> LockExists(k, i) then h == -1 && k1 == k
            else
              && FirstUnused(k.lockInUse, h)
              && k1 == k.(lockInUse := k.lockInUse[h := true], locks := k.locks[h := Lock(NOBODY, [])])
  {
    var l := FirstFree(k.lockInUse);
    if l < 64 { assert !LockExists(k, l); }
  }

  /** cond_create fails exactly when there is no such lock or all 32 conditions are in use. */
  lemma CondCreated(k: Kernel, lock: int)
    requires Inv(k) && Enabled(k, CondCreate(lock))
    ensures var (k1, h) := Step(k, CondCreate(lock));
            if !LockExists(k, lock) || forall i :: 0 <= i < 32 ==> CondExists(k, i) then h == -1 && k1 == k
            else
              && FirstUnused(k.condInUse, h)
              && k1 == k.(condInUse := k.condInUse[h := true], conds := k.conds[h := Cond(lock, [])])
  {
    var c := FirstFree(k.condInUse);
    if c < 32 { assert !CondExists(k, c); }
  }

  // ---- Who falls asleep, who wakes up, and when the kernel stops ----

  /** The call puts its caller to sleep. */
  ghost predicate PutsToSleep(k: Kernel, t: Trap)
    requires Sized(k)
  {
    match t
    case SemWaitOn(h) => SemExists(k, h) && k.sems[h].count <= 0
    case LockAcquire(h) => LockExists(k, h) && k.locks[h].pid != NOBODY && k.locks[h].pid != k.current
    case CondWaitOn(h) => OwnsLockOf(k, h)
    case CondSignalOn(h) => OwnsLockOf(k, h) && k.conds[h].waiting != []
    case _ => false
  }

  /** The queue whose head the call wakes, which may be empty. */
  ghost function WakesFrom(k: Kernel, t: Trap): seq<int>
    requires Sized(k)
  {
    match t
    case SemSignalOn(h) => if SemExists(k, h) && k.sems[h].count == 0 then k.sems[h].waiting else []
    case LockRelease(h) => if LockExists(k, h) && k.locks[h].pid == k.current then k.locks[h].waiting else []
    case CondWaitOn(h) => if OwnsLockOf(k, h) then k.locks[k.conds[h].lock].waiting else []
    case CondSignalOn(h) => if OwnsLockOf(k, h) then k.conds[h].waiting else []
    case _ => []
  }

  /** Why the kernel stops at this trap, if it does. */
  ghost function Stops(k: Kernel, t: Trap): Halt
    requires Sized(k)
  {
    if t.Fork? && k.freePcbs == [] then NoFreePcb
    else if t == Fork(NoPages) then NoFreePage
    else if (t.Exit? || PutsToSleep(k, t)) && |k.runQueue| == 1 && WakesFrom(k, t) == [] then NoRunnable
    else Going
  }

  /**
   The kernel stops exactly when the only runnable process exits or falls asleep without waking
   another, when a fork finds no free PCB, or when it finds no pages.
   */
  lemma StopsExactly(k: Kernel, t: Trap)
    requires Inv(k) && Enabled(k, t)
    ensures Step(k, t).0.halt == Stops(k, t)
  {
    match t {
      case SemWaitOn(h) => StopsAtSem(k, t);
      case SemSignalOn(h) => StopsAtSem(k, t);
      case LockAcquire(h) => StopsAtLock(k, t);
      case LockRelease(h) => StopsAtLock(k, t);
      case CondWaitOn(h) => StopsAtCond(k, t);
      case CondSignalOn(h) => StopsAtCond(k, t);
      case _ =>
    }
  }

  lemma StopsAtSem(k: Kernel, t: Trap)
    requires Inv(k) && Enabled(k, t) && (t.SemWaitOn? || t.SemSignalOn?)
    ensures Step(k, t).0.halt == Stops(k, t)
  {
  }

  lemma StopsAtLock(k: Kernel, t: Trap)
    requires Inv(k) && Enabled(k, t) && (t.LockAcquire? || t.LockRelease?)
    ensures Step(k, t).0.halt == Stops(k, t)
  {
    if LockExists(k, t.h) { assert LockFair(k, t.h); }
  }

  lemma StopsAtCond(k: Kernel, t: Trap)
    requires Inv(k) && Enabled(k, t) && (t.CondWaitOn? || t.CondSignalOn?)
    ensures Step(k, t).0.halt == Stops(k, t)
  {
  }

  /** The status of process `p` after a trap. */
  ghost function StatusAfter(k: Kernel, t: Trap, p: int): Status
    requires Sized(k) && 0 <= p < PROCESS_MAX_PROCS
  {
    if p == k.current && t.Exit? then Free
    else if p == k.current && PutsToSleep(k, t) then Waiting
    else if WakesFrom(k, t) != [] && p == WakesFrom(k, t)[0] then Runnable
    else if t == Fork(Loaded) && k.freePcbs != [] && p == k.freePcbs[0] then Runnable
    else k.status[p]
  }

  lemma StatusExactly(k: Kernel, t: Trap, p: int)
    requires Inv(k) && Enabled(k, t) && Step(k, t).0.halt == Going && 0 <= p < PROCESS_MAX_PROCS
    ensures var k1 := Step(k, t).0; |k1.status| == PROCESS_MAX_PROCS && k1.status[p] == StatusAfter(k, t, p)
  {
    match t {
      case SemWaitOn(h) => StatusAtSem(k, t, p);
      case SemSignalOn(h) => StatusAtSem(k, t, p);
      case LockAcquire(h) => StatusAtLock(k, t, p);
      case LockRelease(h) => StatusAtLock(k, t, p);
      case CondWaitOn(h) => StatusAtWait(k, t, p);
      case CondSignalOn(h) => StatusAtSignal(k, t, p);
      case Fork(load) => StatusAtFork(k, load, p);
      case _ => StatusAtOthers(k, t, p);
    }
  }

  lemma StatusAtFork(k: Kernel, load: Load, p: int)
    requires Inv(k) && Enabled(k, Fork(load)) && Step(k, Fork(load)).0.halt == Going && 0 <= p < PROCESS_MAX_PROCS
    ensures |Step(k, Fork(load)).0.status| == PROCESS_MAX_PROCS
    ensures Step(k, Fork(load)).0.status[p] == StatusAfter(k, Fork(load), p)
  {
    if k.freePcbs != [] { assert k.freePcbs[0] in Home(k, Free); }
  }

  lemma StatusAtOthers(k: Kernel, t: Trap, p: int)
    requires Inv(k) && Enabled(k, t) && !IsCall(t) && !t.Fork? && Step(k, t).0.halt == Going
    requires 0 <= p < PROCESS_MAX_PROCS
    ensures var k1 := Step(k, t).0; |k1.status| == PROCESS_MAX_PROCS && k1.status[p] == StatusAfter(k, t, p)
  {
  }

  lemma StatusAtSem(k: Kernel, t: Trap, p: int)
    requires Inv(k) && Enabled(k, t) && (t.SemWaitOn? || t.SemSignalOn?) && 0 <= p < PROCESS_MAX_PROCS
    ensures var k1 := Step(k, t).0; |k1.status| == PROCESS_MAX_PROCS && k1.status[p] == StatusAfter(k, t, p)
  {
    if SemExists(k, t.h) { assert SemFair(k, t.h); }
  }

  lemma StatusAtLock(k: Kernel, t: Trap, p: int)
    requires Inv(k) && Enabled(k, t) && (t.LockAcquire? || t.LockRelease?) && 0 <= p < PROCESS_MAX_PROCS
    ensures var k1 := Step(k, t).0; |k1.status| == PROCESS_MAX_PROCS && k1.status[p] == StatusAfter(k, t, p)
  {
    if LockExists(k, t.h) { assert LockFair(k, t.h); }
  }

  lemma StatusAtWait(k: Kernel, t: Trap, p: int)
    requires Inv(k) && Enabled(k, t) && t.CondWaitOn? && 0 <= p < PROCESS_MAX_PROCS
    ensures var k1 := Step(k, t).0; |k1.status| == PROCESS_MAX_PROCS && k1.status[p] == StatusAfter(k, t, p)
  {
    if OwnsLockOf(k, t.h) { assert Step(k, t).0 == CondWaitStep(k, t.h); }
  }

  lemma StatusAtSignal(k: Kernel, t: Trap, p: int)
    requires Inv(k) && Enabled(k, t) && t.CondSignalOn? && 0 <= p < PROCESS_MAX_PROCS
    ensures var k1 := Step(k, t).0; |k1.status| == PROCESS_MAX_PROCS && k1.status[p] == StatusAfter(k, t, p)
  {
    if PutsToSleep(k, t) { assert Step(k, t).0 == CondSignalStep(k, t.h); }
  }

  // ---- Handles over whole runs ----

  /** Calls of sem_create among the first `m` traps. */
  ghost function SemCreates(traps: seq<Trap>, m: nat): nat
    requires m <= |traps|
  {
    if m == 0 then 0 else SemCreates(traps, m - 1) + if traps[m - 1].SemCreate? then 1 else 0
  }

  ghost function LockCreates(traps: seq<Trap>, m: nat): nat
    requires m <= |traps|
  {
    if m == 0 then 0 else LockCreates(traps, m - 1) + if traps[m - 1].LockCreate? then 1 else 0
  }

  /** Calls of cond_create for a lock that exists. */
  ghost function CondCreates(states: seq<Kernel>, traps: seq<Trap>, m: nat): nat
    requires m <= |traps| < |states|
  {
    if m == 0 then 0 else CondCreates(states, traps, m - 1) + if CreatesCond(states[m - 1], traps[m - 1]) then 1 else 0
  }

  ghost predicate CreatesCond(k: Kernel, t: Trap) {
    t.CondCreate? && |k.lockInUse| == MAX_LOCKS && LockExists(k, t.h)
  }

  /** The slots in use are the first `c`, or all of them. */
  ghost predicate FirstOnes(used: seq<bool>, c: nat) {
    forall i :: 0 <= i < |used| ==> (used[i] <==> i < c)
  }

  lemma UseKept(k: Kernel, t: Trap, k1: Kernel)
    requires Sized(k) && Enabled(k, t) && k1 == Step(k, t).0
    ensures !t.SemCreate? ==> k1.semInUse == k.semInUse
    ensures !t.LockCreate? ==> k1.lockInUse == k.lockInUse
    ensures !t.CondCreate? ==> k1.condInUse == k.condInUse
    ensures |k1.semInUse| == MAX_SEMS && |k1.lockInUse| == MAX_LOCKS && |k1.condInUse| == MAX_CONDS
  {
    if t.CondWaitOn? || t.CondSignalOn? { UseKeptByCond(k, t); }
  }

  lemma UseKeptByCond(k: Kernel, t: Trap)
    requires Sized(k) && Enabled(k, t) && (t.CondWaitOn? || t.CondSignalOn?)
    ensures var k1 := Step(k, t).0;
            k1.semInUse == k.semInUse && k1.lockInUse == k.lockInUse && k1.condInUse == k.condInUse
  {
  }

  lemma UseGrows(k: Kernel, t: Trap, k1: Kernel, sems: nat, locks: nat, conds: nat)
    requires Inv(k) && Enabled(k, t) && k1 == Step(k, t).0
    requires FirstOnes(k.semInUse, sems) && FirstOnes(k.lockInUse, locks) && FirstOnes(k.condInUse, conds)
    ensures FirstOnes(k1.semInUse, sems + if t.SemCreate? then 1 else 0)
    ensures FirstOnes(k1.lockInUse, locks + if t.LockCreate? then 1 else 0)
    ensures FirstOnes(k1.condInUse, conds + if CreatesCond(k, t) then 1 else 0)
  {
    UseKept(k, t, k1);
    if t.SemCreate? {
      SemCreated(k, t.count);
      OneMoreInUse(k.semInUse, k1.semInUse, Step(k, t).1, sems);
    } else if t.LockCreate? {
      LockCreated(k);
      OneMoreInUse(k.lockInUse, k1.lockInUse, Step(k, t).1, locks);
    } else if t.CondCreate? {
      CondCreated(k, t.h);
      if LockExists(k, t.h) { OneMoreInUse(k.condInUse, k1.condInUse, Step(k, t).1, conds); }
    }
  }

  lemma OneMoreInUse(used: seq<bool>, used1: seq<bool>, h: int, c: nat)
    requires FirstOnes(used, c)
    requires used1 == used || (FirstUnused(used, h) && used1 == used[h := true])
    requires used1 == used ==> forall i :: 0 <= i < |used| ==> used[i]
    ensures FirstOnes(used1, c + 1)
  {
    assert c < |used| ==> !used[c];
  }

  ghost predicate Handed(states: seq<Kernel>, traps: seq<Trap>, m: nat)
    requires m <= |traps| < |states|
  {
    && FirstOnes(states[m].semInUse, SemCreates(traps, m))
    && FirstOnes(states[m].lockInUse, LockCreates(traps, m))
    && FirstOnes(states[m].condInUse, CondCreates(states, traps, m))
  }

  lemma {:induction false} HandedInOrder(states: seq<Kernel>, traps: seq<Trap>, m: nat)
    requires IsRun(states, traps) && states[0] == Start() && m <= |traps|
    ensures Handed(states, traps, m)
  {
    if m > 0 {
      HandedInOrder(states, traps, m - 1);
      HandedNext(states, traps, m - 1);
    }
  }

  lemma {:induction false} HandedNext(states: seq<Kernel>, traps: seq<Trap>, m: nat)
    requires IsRun(states, traps) && states[0] == Start() && m < |traps| && Handed(states, traps, m)
    ensures Handed(states, traps, m + 1)
  {
    assert StepsAt(states, traps, m) && Inv(states[m]) by {
      WasGoing(states, traps, m);
      InvAlways(states, traps, m);
    }
    UseGrows(states[m], traps[m], states[m + 1],
             SemCreates(traps, m), LockCreates(traps, m), CondCreates(states, traps, m));
  }

  /**
   In every run from start-up the handles of each kind are 0, 1, 2, ... in the order of the calls: the
   first 32 calls of sem_create, 64 of lock_create and 32 of cond_create for a lock that exists
   succeed, whoever makes them, and no later one does.
   */
  lemma HandlesInOrder(states: seq<Kernel>, traps: seq<Trap>, i: nat)
    requires IsRun(states, traps) && states[0] == Start() && i < |traps|
    ensures Sized(states[i]) && Enabled(states[i], traps[i])
    ensures var r := Step(states[i], traps[i]).1;
            && (traps[i].SemCreate? ==> r == Handle(SemCreates(traps, i), 32))
            && (traps[i].LockCreate? ==> r == Handle(LockCreates(traps, i), 64))
            && (traps[i].CondCreate? ==>
                  r == if CreatesCond(states[i], traps[i]) then Handle(CondCreates(states, traps, i), 32) else -1)
  {
    assert StepsAt(states, traps, i) && Inv(states[i]) by {
      WasGoing(states, traps, i);
      InvAlways(states, traps, i);
    }
    HandedInOrder(states, traps, i);
    HandleFound(states[i], traps[i], SemCreates(traps, i), LockCreates(traps, i), CondCreates(states, traps, i));
  }

  function Handle(before: nat, slots: nat): int {
    if before < slots then before else -1
  }

  lemma HandleFound(k: Kernel, t: Trap, sems: nat, locks: nat, conds: nat)
    requires Inv(k) && Enabled(k, t)
    requires FirstOnes(k.semInUse, sems) && FirstOnes(k.lockInUse, locks) && FirstOnes(k.condInUse, conds)
    ensures var r := Step(k, t).1;
            && (t.SemCreate? ==> r == Handle(sems, 32))
            && (t.LockCreate? ==> r == Handle(locks, 64))
            && (t.CondCreate? ==> r == if CreatesCond(k, t) then Handle(conds, 32) else -1)
  {
    match t {
      case SemCreate(count) =>
        SemCreated(k, count);
        if sems < 32 { assert !SemExists(k, sems); }
      case LockCreate =>
        LockCreated(k);
        if locks < 64 { assert !LockExists(k, locks); }
      case CondCreate(h) =>
        CondCreated(k, h);
        if conds < 32 { assert !CondExists(k, conds); }
      case _ =>
    }
  }

  // ---- Process numbers over whole runs ----

  /** A fork takes the first free number, unless the program cannot be loaded; what an exit frees comes last. */
  lemma FreeNumbersMove(k: Kernel, t: Trap, k1: Kernel, j: nat)
    requires Inv(k) && Enabled(k, t) && k1 == Step(k, t).0 && k1.halt == Going && j < |k.freePcbs|
    ensures !t.Fork? ==> j < |k1.freePcbs| && k1.freePcbs[j] == k.freePcbs[j]
    ensures t.Fork? && j > 0 ==> j - 1 < |k1.freePcbs| && k1.freePcbs[j - 1] == k.freePcbs[j]
    ensures t == Fork(NotExecutable) ==>
              |k1.freePcbs| == |k.freePcbs| && k1.freePcbs[|k.freePcbs| - 1] == k.freePcbs[0]
    ensures t == Exit ==> k1.freePcbs != [] && k1.freePcbs[|k1.freePcbs| - 1] == k.current
    ensures t == Fork(Loaded) ==> k1.runQueue == k.runQueue + [k.freePcbs[0]]
  {
    if t.CondWaitOn? || t.CondSignalOn? {
      FreeNumbersStayAtCond(k, t);
    } else if !t.Fork? && !t.Exit? {
      FreeNumbersStay(k, t);
    }
  }

  lemma FreeNumbersStay(k: Kernel, t: Trap)
    requires Inv(k) && Enabled(k, t) && !t.Fork? && !t.Exit? && !t.CondWaitOn? && !t.CondSignalOn?
    ensures Step(k, t).0.freePcbs == k.freePcbs
  {
  }

  lemma FreeNumbersStayAtCond(k: Kernel, t: Trap)
    requires Inv(k) && Enabled(k, t) && (t.CondWaitOn? || t.CondSignalOn?)
    ensures Step(k, t).0.freePcbs == k.freePcbs
  {
  }

  /** Forks among the traps from `i` up to `m`. */
  ghost function Forks(traps: seq<Trap>, i: nat, m: nat): nat
    requires i <= m <= |traps|
  {
    if i == m then 0 else Forks(traps, i, m - 1) + if traps[m - 1].Fork? then 1 else 0
  }

  /**
   Process numbers are given out in the order in which they became free: the number at place `j` of
   the free ones is the one that the fork after the next `j` forks tries, whatever else happens.
   */
  lemma {:induction false} NumbersInTurn(states: seq<Kernel>, traps: seq<Trap>, i: nat, m: nat, j: nat)
    requires IsRun(states, traps) && states[0] == Start() && i <= m <= |traps| && states[m].halt == Going
    requires j < |states[i].freePcbs| && Forks(traps, i, m) <= j
    ensures j - Forks(traps, i, m) < |states[m].freePcbs|
    ensures states[m].freePcbs[j - Forks(traps, i, m)] == states[i].freePcbs[j]
    decreases m
  {
    if i < m {
      WasGoing(states, traps, m - 1);
      NumbersInTurn(states, traps, i, m - 1, j);
      NumbersMoveAt(states, traps, m - 1, j - Forks(traps, i, m - 1));
    }
  }

  lemma NumbersMoveAt(states: seq<Kernel>, traps: seq<Trap>, m: nat, j: nat)
    requires IsRun(states, traps) && states[0] == Start() && m < |traps| && states[m + 1].halt == Going
    requires j < |states[m].freePcbs| && (traps[m].Fork? ==> j > 0)
    ensures var d := if traps[m].Fork? then 1 else 0;
            j - d < |states[m + 1].freePcbs| && states[m + 1].freePcbs[j - d] == states[m].freePcbs[j]
  {
    assert StepsAt(states, traps, m) && Inv(states[m]) by {
      WasGoing(states, traps, m);
      InvAlways(states, traps, m);
    }
    FreeNumbersMove(states[m], traps[m], states[m + 1], j);
  }

  // ---- Calls that cannot fail ----

  /** The call asks for lock `l`, which exists; a wait or a signal comes from its owner. */
  ghost predicate AsksFor(k: Kernel, t: Trap, l: int)
    requires Sized(k)
  {
    match t
    case LockAcquire(h) => h == l && LockExists(k, l)
    case CondWaitOn(h) => OwnsLockOf(k, h) && k.conds[h].lock == l
    case CondSignalOn(h) => OwnsLockOf(k, h) && k.conds[h].lock == l
    case _ => false
  }

  /**
   lock_acquire on a lock that exists, and cond_wait and cond_signal by the owner of the lock, do not
   fail, and the caller owns the lock when it runs again.
   */
  lemma ReturnsWithLock(states: seq<Kernel>, traps: seq<Trap>, i: nat, m: nat, l: int)
    requires IsRun(states, traps) && states[0] == Start() && i < m < |states| && states[m].halt == Going
    requires Sized(states[i]) && AsksFor(states[i], traps[i], l)
    requires forall j :: i < j < m ==> states[j].current != states[i].current
    requires states[m].current == states[i].current
    ensures Enabled(states[i], traps[i]) && Step(states[i], traps[i]).1 == 1
    ensures Sized(states[m]) && LockExists(states[m], l) && states[m].locks[l].pid == states[i].current
  {
    assert StepsAt(states, traps, i) && Inv(states[i]) by {
      WasGoing(states, traps, i);
      InvAlways(states, traps, i);
    }
    AnswersExactly(states[i], traps[i]);
    ResumesAsOwner(states, traps, i, m, l);
  }
}
