/**
 A lock with two condition variables, as it appears in runs of the whole kernel. Seen through such a
 monitor every run of traps is a run of the steps that the program of apps/q4 is built from, each
 made by the running process, which is never asleep on the monitor.
 */
module KernelMonitor {
  import opened Common
  import opened Tally
  import opened SyncObjects
  import opened KernelState
  import opened KernelInvariant
  import opened KernelRuns

  /** `c` and `d` are the conditions bound to lock `l`, and the only ones. */
  ghost predicate Bound(k: Kernel, l: int, c: int, d: int) {
    && Sized(k) && GoodHandle(l, k.lockInUse)
    && GoodHandle(c, k.condInUse) && GoodHandle(d, k.condInUse) && c != d
    && k.conds[c].lock == k.conds[d].lock == l
    && forall e :: 0 <= e < MAX_CONDS && k.condInUse[e] && k.conds[e].lock == l ==> e == c || e == d
  }

  function View(k: Kernel, l: int, c: int, d: int): Monitor
    requires 0 <= l < |k.locks| && 0 <= c < |k.conds| && 0 <= d < |k.conds|
  {
    Monitor(k.locks[l], k.conds[c].waiting, k.conds[d].waiting)
  }

  /** What trap `t` of process `p` does to the monitor. */
  function ViewStep(m: Monitor, t: Trap, l: int, c: int, d: int, p: int): Monitor {
    if t == LockAcquire(l) then m.(lock := Acquire(m.lock, p))
    else if t == LockRelease(l) then m.(lock := Release(m.lock, p))
    else if t == CondWaitOn(c) then WaitOn(m, p, true)
    else if t == CondWaitOn(d) then WaitOn(m, p, false)
    else if t == CondSignalOn(c) then SignalOn(m, p, true)
    else if t == CondSignalOn(d) then SignalOn(m, p, false)
    else m
  }

  /** The monitor is sound and whoever runs is awake. */
  lemma ViewIsSound(k: Kernel, l: int, c: int, d: int)
    requires Inv(k) && Bound(k, l, c, d)
    ensures Sound(View(k, l, c, d)) && (k.current != NOBODY ==> !Asleep(View(k, l, c, d), k.current))
  {
    assert LockFair(k, l);
    assert Sleepers(k, LockQueue(l)) && Queue(k, LockQueue(l)) == k.locks[l].waiting;
    assert Sleepers(k, CondQueue(c)) && Queue(k, CondQueue(c)) == k.conds[c].waiting;
    assert Sleepers(k, CondQueue(d)) && Queue(k, CondQueue(d)) == k.conds[d].waiting;
    assert Apart(k, LockQueue(l), CondQueue(c)) && Apart(k, LockQueue(l), CondQueue(d));
    assert Apart(k, CondQueue(c), CondQueue(d));
    if k.current != NOBODY { assert k.current in Home(k, Runnable); }
  }

  lemma ViewByScheduler(k: Kernel, t: Trap, l: int, c: int, d: int)
    requires Bound(k, l, c, d) && Enabled(k, t) && (t.Tick? || t.Exit? || t.Fork?)
    ensures Sized(Step(k, t).0) && View(Step(k, t).0, l, c, d) == View(k, l, c, d)
  {
  }

  lemma ViewByCreate(k: Kernel, t: Trap, l: int, c: int, d: int)
    requires Bound(k, l, c, d) && Enabled(k, t) && (t.SemCreate? || t.LockCreate? || t.CondCreate?)
    ensures Sized(Step(k, t).0) && View(Step(k, t).0, l, c, d) == View(k, l, c, d)
  {
  }

  lemma ViewBySem(k: Kernel, t: Trap, l: int, c: int, d: int)
    requires Bound(k, l, c, d) && Enabled(k, t) && (t.SemWaitOn? || t.SemSignalOn?)
    ensures Sized(Step(k, t).0) && View(Step(k, t).0, l, c, d) == View(k, l, c, d)
  {
  }

  lemma ViewByOthers(k: Kernel, t: Trap, l: int, c: int, d: int)
    requires Bound(k, l, c, d) && Enabled(k, t)
    requires !t.LockAcquire? && !t.LockRelease? && !t.CondWaitOn? && !t.CondSignalOn?
    ensures Sized(Step(k, t).0) && View(Step(k, t).0, l, c, d) == View(k, l, c, d)
  {
    if t.Tick? || t.Exit? || t.Fork? {
      ViewByScheduler(k, t, l, c, d);
    } else if t.SemWaitOn? || t.SemSignalOn? {
      ViewBySem(k, t, l, c, d);
    } else {
      ViewByCreate(k, t, l, c, d);
    }
  }

  lemma ViewByAcquire(k: Kernel, t: Trap, l: int, c: int, d: int)
    requires Bound(k, l, c, d) && Enabled(k, t) && t.LockAcquire?
    ensures Sized(Step(k, t).0)
    ensures View(Step(k, t).0, l, c, d) == ViewStep(View(k, l, c, d), t, l, c, d, k.current)
  {
  }

  lemma ViewByRelease(k: Kernel, t: Trap, l: int, c: int, d: int)
    requires Bound(k, l, c, d) && Enabled(k, t) && t.LockRelease?
    ensures Sized(Step(k, t).0)
    ensures View(Step(k, t).0, l, c, d) == ViewStep(View(k, l, c, d), t, l, c, d, k.current)
  {
  }

  lemma ViewByWait(k: Kernel, t: Trap, l: int, c: int, d: int)
    requires Bound(k, l, c, d) && Enabled(k, t) && t.CondWaitOn?
    ensures Sized(Step(k, t).0)
    ensures View(Step(k, t).0, l, c, d) == ViewStep(View(k, l, c, d), t, l, c, d, k.current)
  {
    if Owner(k, t.h) { assert Step(k, t).0 == CondWaitStep(k, t.h); }
  }

  lemma ViewBySignal(k: Kernel, t: Trap, l: int, c: int, d: int)
    requires Bound(k, l, c, d) && Enabled(k, t) && t.CondSignalOn?
    ensures Sized(Step(k, t).0)
    ensures View(Step(k, t).0, l, c, d) == ViewStep(View(k, l, c, d), t, l, c, d, k.current)
  {
  }

  lemma TrapIsMonitorStep(k: Kernel, t: Trap, l: int, c: int, d: int)
    requires Bound(k, l, c, d) && Enabled(k, t)
    ensures Sized(Step(k, t).0)
    ensures View(Step(k, t).0, l, c, d) == ViewStep(View(k, l, c, d), t, l, c, d, k.current)
  {
    if t.LockAcquire? {
      ViewByAcquire(k, t, l, c, d);
    } else if t.LockRelease? {
      ViewByRelease(k, t, l, c, d);
    } else if t.CondWaitOn? {
      ViewByWait(k, t, l, c, d);
    } else if t.CondSignalOn? {
      ViewBySignal(k, t, l, c, d);
    } else {
      ViewByOthers(k, t, l, c, d);
    }
  }

  /** A lock keeps its two conditions until a third is created for it. */
  lemma BoundKept(k: Kernel, t: Trap, l: int, c: int, d: int)
    requires Bound(k, l, c, d) && Enabled(k, t) && t != CondCreate(l) && Sized(Step(k, t).0)
    ensures Bound(Step(k, t).0, l, c, d)
  {
    var k1 := Step(k, t).0;
    if !t.CondCreate? { BindingsKept(k, t); }
  }

  ghost predicate SameBindings(k: Kernel, k1: Kernel) {
    && k1.condInUse == k.condInUse && |k1.conds| == |k.conds|
    && (forall e :: 0 <= e < |k.conds| ==> k1.conds[e].lock == k.conds[e].lock)
    && |k1.lockInUse| == |k.lockInUse|
    && (forall l :: 0 <= l < |k.lockInUse| && k.lockInUse[l] ==> k1.lockInUse[l])
  }

  lemma BindingsKeptByCond(k: Kernel, t: Trap)
    requires Sized(k) && Enabled(k, t) && (t.CondWaitOn? || t.CondSignalOn?)
    ensures SameBindings(k, Step(k, t).0)
  {
  }

  lemma BindingsKept(k: Kernel, t: Trap)
    requires Sized(k) && Enabled(k, t) && !t.CondCreate?
    ensures SameBindings(k, Step(k, t).0)
  {
    if t.CondWaitOn? || t.CondSignalOn? { BindingsKeptByCond(k, t); }
  }

  lemma StepAt(k: Kernel, t: Trap, k1: Kernel, l: int, c: int, d: int)
    requires Bound(k, l, c, d) && Enabled(k, t) && k1 == Step(k, t).0
    ensures Sized(k1) && View(k1, l, c, d) == ViewStep(View(k, l, c, d), t, l, c, d, k.current)
    ensures t != CondCreate(l) ==> Bound(k1, l, c, d)
  {
    TrapIsMonitorStep(k, t, l, c, d);
    if t != CondCreate(l) { BoundKept(k, t, l, c, d); }
  }

  lemma {:induction false} StaysBound(states: seq<Kernel>, traps: seq<Trap>, i: nat, m: nat, l: int, c: int, d: int)
    requires IsRun(states, traps) && i <= m < |states| && Bound(states[i], l, c, d)
    requires forall n :: i <= n < m ==> traps[n] != CondCreate(l)
    ensures Bound(states[m], l, c, d)
    decreases m
  {
    if i < m {
      StaysBound(states, traps, i, m - 1, l, c, d);
      assert StepsAt(states, traps, m - 1);
      StepAt(states[m - 1], traps[m - 1], states[m], l, c, d);
    }
  }

  /**
   Runs of the kernel are runs of the monitor: from the moment a lock has its two conditions until a
   third is created for it, the monitor is sound, whoever runs is awake, and each trap is one call on
   the monitor by the running process or leaves it alone.
   */
  lemma RunIsMonitorRun(states: seq<Kernel>, traps: seq<Trap>, i: nat, m: nat, l: int, c: int, d: int)
    requires IsRun(states, traps) && states[0] == Start() && i <= m < |traps|
    requires Bound(states[i], l, c, d) && forall n :: i <= n < m ==> traps[n] != CondCreate(l)
    ensures Bound(states[m], l, c, d) && Sound(View(states[m], l, c, d))
    ensures states[m].current != NOBODY ==> !Asleep(View(states[m], l, c, d), states[m].current)
    ensures Sized(states[m + 1])
    ensures View(states[m + 1], l, c, d)
         == ViewStep(View(states[m], l, c, d), traps[m], l, c, d, states[m].current)
  {
    StaysBound(states, traps, i, m, l, c, d);
    assert StepsAt(states, traps, m);
    InvAlways(states, traps, m);
    ViewIsSound(states[m], l, c, d);
    StepAt(states[m], traps[m], states[m + 1], l, c, d);
  }
}
