/**
 The synchronisation objects of os/synch.c as values: what one primitive, run with interrupts
 disabled, does to the object it is called on. A process is asleep on an object exactly when it is
 listed in one of that object's waiting queues; it resumes behind the call that put it there.
 */
module SyncObjects {
  import opened Tally

  const NOBODY: int := -1

  datatype Sem = Sem(count: int, waiting: seq<int>)

  datatype Lock = Lock(pid: int, waiting: seq<int>)

  /** SemWait: sleep when the count is not positive, otherwise take one. */
  function SemWait(s: Sem, me: int): Sem {
    if s.count <= 0 then s.(waiting := s.waiting + [me])
    else s.(count := s.count - 1)
  }

  /** SemSignal: the woken process is charged by the signaller. */
  function SemSignal(s: Sem): Sem {
    var count := s.count + 1;
    if count > 0 && s.waiting != [] then Sem(count - 1, s.waiting[1..])
    else s.(count := count)
  }

  /** LockAcquire: nothing happens when the caller owns the lock already. */
  function Acquire(l: Lock, me: int): Lock {
    if l.pid == me then l
    else if l.pid >= 0 then l.(waiting := l.waiting + [me])
    else l.(pid := me)
  }

  /** Give the lock to the first process in its queue, or to nobody. */
  function HandOver(l: Lock): Lock {
    if l.waiting == [] then l.(pid := NOBODY)
    else Lock(l.waiting[0], l.waiting[1..])
  }

  /** LockRelease: a caller that is not the owner changes nothing. */
  function Release(l: Lock, me: int): Lock {
    if l.pid != me then l else HandOver(l)
  }

  /** CondWait on a condition whose queue is `c`: join the queue, then hand the lock over. */
  function CondWait(l: Lock, c: seq<int>, me: int): (Lock, seq<int>) {
    if l.pid != me then (l, c) else (HandOver(l), c + [me])
  }

  /** CondSignal: the first waiter gets the lock at once and the caller queues for it. */
  function CondSignal(l: Lock, c: seq<int>, me: int): (Lock, seq<int>) {
    if l.pid != me || c == [] then (l, c)
    else (Lock(c[0], l.waiting + [me]), c[1..])
  }

  // ---- Semaphore accounting ----

  datatype SemOp = Wait(p: int) | Signal

  /**
   A semaphore with what has happened to it: who asked, in order, who was let through, in order, and
   how many signals came.
   */
  datatype SemLog = SemLog(sem: Sem, asked: seq<int>, granted: seq<int>, signals: nat)

  function Apply(h: SemLog, op: SemOp): SemLog {
    match op
    case Wait(p) =>
      SemLog(SemWait(h.sem, p), h.asked + [p], if h.sem.count <= 0 then h.granted else h.granted + [p], h.signals)
    case Signal =>
      var woken := if |SemSignal(h.sem).waiting| < |h.sem.waiting| then h.sem.waiting[..1] else [];
      SemLog(SemSignal(h.sem), h.asked, h.granted + woken, h.signals + 1)
  }

  /** The log after `ops` on a semaphore created with `count`, which may be negative. */
  function LogOf(count: int, ops: seq<SemOp>): SemLog {
    if ops == [] then SemLog(Sem(count, []), [], [], 0)
    else Apply(LogOf(count, ops[..|ops| - 1]), ops[|ops| - 1])
  }

  function Min(a: int, b: int): int { if a < b then a else b }

  function Max(a: int, b: int): int { if a > b then a else b }

  ghost predicate Accounted(count: int, h: SemLog) {
    && h.asked == h.granted + h.sem.waiting
    && h.sem.count == count + h.signals - |h.granted|
    && (h.sem.waiting != [] ==> h.sem.count <= 0)
    && (h.granted != [] ==> h.sem.count >= 0)
  }

  lemma AccountedKept(count: int, h: SemLog, op: SemOp)
    requires Accounted(count, h)
    ensures Accounted(count, Apply(h, op))
  {
    if op.Signal? && h.sem.waiting != [] {
      assert h.sem.waiting == h.sem.waiting[..1] + h.sem.waiting[1..];
      assert h.granted + h.sem.waiting[..1] + h.sem.waiting[1..] == h.granted + h.sem.waiting;
    }
    if op.Wait? && h.sem.count > 0 {
      assert Apply(h, op).asked == h.asked + [op.p];
    }
  }

  /**
   Grants follow the order of the requests; the count is what was put in less what was granted; a
   process waits only at a count that is not positive. Hence exactly as many are let through as ask
   or as the initial count and the signals pay for, whichever is less.
   */
  lemma {:induction false} Accounting(count: int, ops: seq<SemOp>)
    ensures var h := LogOf(count, ops);
            Accounted(count, h) && |h.granted| == Min(|h.asked|, Max(0, count + h.signals))
  {
    if ops != [] {
      var front := ops[..|ops| - 1];
      Accounting(count, front);
      AccountedKept(count, LogOf(count, front), ops[|ops| - 1]);
    }
  }

  function Signals(ops: seq<SemOp>): nat {
    if ops == [] then 0 else Signals(ops[..|ops| - 1]) + if ops[|ops| - 1].Signal? then 1 else 0
  }

  function Waiters(ops: seq<SemOp>): seq<int> {
    if ops == [] then []
    else Waiters(ops[..|ops| - 1]) + match ops[|ops| - 1] case Wait(p) => [p] case Signal => []
  }

  lemma {:induction false} LogCounts(count: int, ops: seq<SemOp>)
    ensures LogOf(count, ops).signals == Signals(ops) && LogOf(count, ops).asked == Waiters(ops)
  {
    if ops != [] { LogCounts(count, ops[..|ops| - 1]); }
  }

  /**
   The completion barrier: a semaphore created with -(n - 1) lets its one waiter through exactly
   when n signals have come, whether it asked before, between or after them.
   */
  lemma Barrier(n: nat, ops: seq<SemOp>, main: int)
    requires n >= 1 && Waiters(ops) == [main]
    ensures LogOf(-(n - 1), ops).granted == [main] <==> Signals(ops) >= n
    ensures LogOf(-(n - 1), ops).granted == [] <==> Signals(ops) < n
  {
    Accounting(-(n - 1), ops);
    LogCounts(-(n - 1), ops);
  }

  // ---- A lock together with the queues of two condition variables bound to it ----

  datatype Monitor = Monitor(lock: Lock, notFull: seq<int>, notEmpty: seq<int>)

  predicate Asleep(m: Monitor, p: int) {
    p in m.lock.waiting || p in m.notFull || p in m.notEmpty
  }

  /** Owning the monitor or asleep on it. */
  predicate Engaged(m: Monitor, p: int) {
    p == m.lock.pid || Asleep(m, p)
  }

  /** A free lock has no waiters, the owner is not asleep, and nobody is queued twice. */
  ghost predicate Sound(m: Monitor) {
    && m.lock.pid >= NOBODY
    && (m.lock.pid == NOBODY ==> m.lock.waiting == [])
    && NoDup(m.lock.waiting) && NoDup(m.notFull) && NoDup(m.notEmpty)
    && !Asleep(m, m.lock.pid)
    && (forall p :: p in m.lock.waiting ==> p >= 0 && p !in m.notFull && p !in m.notEmpty)
    && (forall p :: p in m.notFull ==> p >= 0 && p !in m.notEmpty)
    && (forall p :: p in m.notEmpty ==> p >= 0)
  }

  lemma AcquireEffect(m: Monitor, me: int)
    requires Sound(m) && me >= 0 && !Engaged(m, me)
    ensures var k := m.(lock := Acquire(m.lock, me));
            Sound(k) && forall p :: p >= 0 ==> (Engaged(k, p) <==> Engaged(m, p) || p == me)
  {
  }

  lemma ReleaseEffect(m: Monitor, me: int)
    requires Sound(m) && me >= 0 && m.lock.pid == me
    ensures var k := m.(lock := Release(m.lock, me));
            Sound(k) && forall p :: p >= 0 ==> (Engaged(k, p) <==> Engaged(m, p) && p != me)
  {
    if m.lock.waiting != [] {
      QueueTail(m.lock.waiting);
      assert m.lock.waiting[0] in m.lock.waiting;
    }
  }

  /** Waiting keeps the caller engaged, so nobody enters or leaves the monitor. */
  lemma WaitEffect(m: Monitor, me: int, full: bool)
    requires Sound(m) && me >= 0 && m.lock.pid == me
    ensures var k := WaitOn(m, me, full);
            && Sound(k) && Asleep(k, me)
            && forall p :: p >= 0 ==> (Engaged(k, p) <==> Engaged(m, p))
  {
    ReleaseEffect(m, me);
    var k := m.(lock := Release(m.lock, me));
    var c := if full then m.notFull else m.notEmpty;
    assert me !in c && !Engaged(k, me);
    assert forall p :: p in c + [me] <==> p in c || p == me;
  }

  lemma SignalEffect(m: Monitor, me: int, full: bool)
    requires Sound(m) && me >= 0 && m.lock.pid == me
    ensures var k := SignalOn(m, me, full);
            Sound(k) && forall p :: p >= 0 ==> (Engaged(k, p) <==> Engaged(m, p))
  {
    var c := if full then m.notFull else m.notEmpty;
    if c != [] { QueueTail(c); assert c[0] in c; }
  }

  function WaitOn(m: Monitor, me: int, full: bool): Monitor {
    var (lock, c) := CondWait(m.lock, if full then m.notFull else m.notEmpty, me);
    if full then Monitor(lock, c, m.notEmpty) else Monitor(lock, m.notFull, c)
  }

  function SignalOn(m: Monitor, me: int, full: bool): Monitor {
    var (lock, c) := CondSignal(m.lock, if full then m.notFull else m.notEmpty, me);
    if full then Monitor(lock, c, m.notEmpty) else Monitor(lock, m.notFull, c)
  }
}
