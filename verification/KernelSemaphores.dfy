/**
 A semaphore as it appears in runs of the whole kernel: from its creation on it is what the waits and
 signals called on it make of it, in their order. So what holds of every sequence of calls, the
 accounting and the completion barrier, holds of every run.
 */
module KernelSemaphores {
  import opened Common
  import opened SyncObjects
  import opened KernelState
  import opened KernelInvariant
  import opened KernelRuns

  /** What trap `t` means to semaphore `h`. */
  function OpOf(k: Kernel, t: Trap, h: int): seq<SemOp> {
    if t == SemWaitOn(h) then [Wait(k.current)] else if t == SemSignalOn(h) then [Signal] else []
  }

  /** The calls on semaphore `h` from state `i` up to state `m`. */
  ghost function OpsOn(states: seq<Kernel>, traps: seq<Trap>, i: nat, m: nat, h: int): seq<SemOp>
    requires i <= m <= |traps| < |states|
    decreases m
  {
    if i == m then [] else OpsOn(states, traps, i, m - 1, h) + OpOf(states[m - 1], traps[m - 1], h)
  }

  function SemAfter(s: Sem, ops: seq<SemOp>): Sem
    requires |ops| <= 1
  {
    if ops == [] then s else match ops[0] case Wait(p) => SemWait(s, p) case Signal => SemSignal(s)
  }

  lemma SemStepBySem(k: Kernel, t: Trap, k1: Kernel, h: int)
    requires Inv(k) && Enabled(k, t) && k1 == Step(k, t).0 && GoodHandle(h, k.semInUse)
    requires t.SemWaitOn? || t.SemSignalOn?
    ensures GoodHandle(h, k1.semInUse) && h < |k1.sems| && k1.sems[h] == SemAfter(k.sems[h], OpOf(k, t, h))
  {
  }

  lemma SemStepByCond(k: Kernel, t: Trap, k1: Kernel, h: int)
    requires Inv(k) && Enabled(k, t) && k1 == Step(k, t).0 && GoodHandle(h, k.semInUse)
    requires t.CondCreate? || t.CondWaitOn? || t.CondSignalOn?
    ensures GoodHandle(h, k1.semInUse) && h < |k1.sems| && k1.sems[h] == k.sems[h]
  {
  }

  lemma SemStepByOther(k: Kernel, t: Trap, k1: Kernel, h: int)
    requires Inv(k) && Enabled(k, t) && k1 == Step(k, t).0 && GoodHandle(h, k.semInUse)
    requires !t.SemWaitOn? && !t.SemSignalOn? && !t.CondCreate? && !t.CondWaitOn? && !t.CondSignalOn?
    ensures GoodHandle(h, k1.semInUse) && h < |k1.sems| && k1.sems[h] == k.sems[h]
  {
  }

  /** A trap does to a semaphore what the call on it does, and no other trap touches it. */
  lemma SemStep(k: Kernel, t: Trap, k1: Kernel, h: int)
    requires Inv(k) && Enabled(k, t) && k1 == Step(k, t).0 && GoodHandle(h, k.semInUse)
    ensures GoodHandle(h, k1.semInUse) && h < |k1.sems| && k1.sems[h] == SemAfter(k.sems[h], OpOf(k, t, h))
  {
    if t.SemWaitOn? || t.SemSignalOn? {
      SemStepBySem(k, t, k1, h);
    } else if t.CondCreate? || t.CondWaitOn? || t.CondSignalOn? {
      SemStepByCond(k, t, k1, h);
    } else {
      SemStepByOther(k, t, k1, h);
    }
  }

  /** Semaphore `h` is in use in state `m` and makes the step of the call made there, if any. */
  ghost predicate SemMoves(states: seq<Kernel>, traps: seq<Trap>, m: nat, h: int)
    requires m < |traps| < |states|
  {
    && 0 <= h < |states[m].sems| && h < |states[m + 1].sems|
    && states[m + 1].sems[h] == SemAfter(states[m].sems[h], OpOf(states[m], traps[m], h))
  }

  lemma SemStepAt(states: seq<Kernel>, traps: seq<Trap>, m: nat, h: int)
    requires IsRun(states, traps) && states[0] == Start() && m < |traps| && GoodHandle(h, states[m].semInUse)
    ensures SemMoves(states, traps, m, h) && GoodHandle(h, states[m + 1].semInUse)
  {
    assert StepsAt(states, traps, m) && Inv(states[m]) by {
      WasGoing(states, traps, m);
      InvAlways(states, traps, m);
    }
    SemStep(states[m], traps[m], states[m + 1], h);
  }

  lemma {:induction false} SemMovesThroughout(states: seq<Kernel>, traps: seq<Trap>, i: nat, m: nat, h: int)
    requires IsRun(states, traps) && states[0] == Start() && i <= m <= |traps|
    requires GoodHandle(h, states[i].semInUse)
    ensures GoodHandle(h, states[m].semInUse)
    ensures forall n :: i <= n < m ==> SemMoves(states, traps, n, h)
    decreases m
  {
    if i < m {
      SemMovesThroughout(states, traps, i, m - 1, h);
      SemStepAt(states, traps, m - 1, h);
    }
  }

  ghost predicate Logged(s: Sem, count: int, ops: seq<SemOp>) {
    s == LogOf(count, ops).sem
  }

  lemma {:induction false} LogGrows(s: Sem, count: int, ops: seq<SemOp>, more: seq<SemOp>)
    requires Logged(s, count, ops) && |more| <= 1
    ensures Logged(SemAfter(s, more), count, ops + more)
  {
    if more == [] {
      assert ops + more == ops;
    } else {
      assert (ops + more)[..|ops|] == ops;
    }
  }

  /** Semaphore `h` as its creation with `count` leaves it. */
  ghost predicate Created(k: Kernel, h: int, count: int) {
    GoodHandle(h, k.semInUse) && h < |k.sems| && k.sems[h] == Sem(count, [])
  }

  /** A successful creation returns the handle of a semaphore that nobody has used. */
  lemma CreateCreates(k: Kernel, count: int)
    requires Inv(k) && Enabled(k, SemCreate(count))
    ensures var (k1, h) := Step(k, SemCreate(count));
            h != SYNC_FAIL ==> Created(k1, h, count) && !k.semInUse[h]
  {
  }

  ghost predicate AddsUp(states: seq<Kernel>, traps: seq<Trap>, i: nat, m: nat, h: int, count: int)
    requires i <= m <= |traps| < |states|
  {
    0 <= h < |states[m].sems| && Logged(states[m].sems[h], count, OpsOn(states, traps, i, m, h))
  }

  lemma {:induction false} MoveAddsUp(states: seq<Kernel>, traps: seq<Trap>, i: nat, m: nat, h: int, count: int)
    requires i <= m < |traps| < |states| && AddsUp(states, traps, i, m, h, count) && SemMoves(states, traps, m, h)
    ensures AddsUp(states, traps, i, m + 1, h, count)
  {
    var op := OpOf(states[m], traps[m], h);
    LogGrows(states[m].sems[h], count, OpsOn(states, traps, i, m, h), op);
    assert OpsOn(states, traps, i, m + 1, h) == OpsOn(states, traps, i, m, h) + op;
  }

  lemma {:induction false} MovesAddUp(states: seq<Kernel>, traps: seq<Trap>, i: nat, m: nat, h: int, count: int)
    requires i <= m <= |traps| < |states| && AddsUp(states, traps, i, i, h, count)
    requires forall n :: i <= n < m ==> SemMoves(states, traps, n, h)
    ensures AddsUp(states, traps, i, m, h, count)
    decreases m
  {
    if i < m {
      MovesAddUp(states, traps, i, m - 1, h, count);
      MoveAddsUp(states, traps, i, m - 1, h, count);
    }
  }

  /** In every run a semaphore is what the calls on it since its creation make of it. */
  lemma {:induction false} SemaphoreInRun(states: seq<Kernel>, traps: seq<Trap>, i: nat, m: nat, h: int, count: int)
    requires IsRun(states, traps) && states[0] == Start() && i <= m <= |traps| && Created(states[i], h, count)
    ensures GoodHandle(h, states[m].semInUse) && h < |states[m].sems|
    ensures states[m].sems[h] == LogOf(count, OpsOn(states, traps, i, m, h)).sem
  {
    SemMovesThroughout(states, traps, i, m, h);
    assert OpsOn(states, traps, i, i, h) == [];
    MovesAddUp(states, traps, i, m, h, count);
  }

  lemma {:induction false} BarrierHolds(n: nat, ops: seq<SemOp>, main: int)
    requires n >= 1 && Waiters(ops) == [main]
    ensures main in LogOf(-(n - 1), ops).sem.waiting <==> Signals(ops) < n
  {
    var log := LogOf(-(n - 1), ops);
    assert [main] == log.granted + log.sem.waiting by {
      LogCounts(-(n - 1), ops);
      Accounting(-(n - 1), ops);
    }
    Barrier(n, ops, main);
    if log.granted == [main] {
      assert |log.sem.waiting| == 0;
    } else {
      assert log.sem.waiting == [main];
    }
  }

  /** Hence its count is what was put in less what was granted, and grants follow the requests. */
  lemma {:induction false} AccountedInRun(
    states: seq<Kernel>, traps: seq<Trap>, i: nat, m: nat, h: int, count: int, ops: seq<SemOp>, log: SemLog)
    requires IsRun(states, traps) && states[0] == Start() && i <= m <= |traps| && Created(states[i], h, count)
    requires ops == OpsOn(states, traps, i, m, h) && log == LogOf(count, ops)
    ensures 0 <= h < |states[m].sems| && states[m].sems[h] == log.sem
    ensures Accounted(count, log) && log.asked == Waiters(ops) && log.signals == Signals(ops)
    ensures |log.granted| == Min(|log.asked|, Max(0, count + log.signals))
  {
    SemaphoreInRun(states, traps, i, m, h, count);
    Accounting(count, ops);
    LogCounts(count, ops);
  }

  /**
   The completion barrier in the kernel: a process that alone waits on a semaphore created with
   -(n - 1) sleeps on it as long as fewer than n signals have come, and no longer.
   */
  lemma {:induction false} BarrierInRun(
    states: seq<Kernel>, traps: seq<Trap>, i: nat, m: nat, h: int, n: nat, main: int, ops: seq<SemOp>)
    requires IsRun(states, traps) && states[0] == Start() && i <= m <= |traps| && n >= 1
    requires Created(states[i], h, -(n - 1))
    requires ops == OpsOn(states, traps, i, m, h) && Waiters(ops) == [main]
    ensures 0 <= h < |states[m].sems|
    ensures main in states[m].sems[h].waiting <==> Signals(ops) < n
  {
    SemaphoreInRun(states, traps, i, m, h, -(n - 1));
    BarrierHolds(n, ops, main);
  }
}
