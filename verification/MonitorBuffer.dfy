/** The programs of apps/q4: a bounded buffer under a Hoare monitor. */
module MonitorBuffer {
  /*
   `n` producers and `n` consumers share a ring under one lock with the conditions not_full and
   not_empty. A step is one system call or one access to shared memory by one process; any process
   that is not asleep may take the next step. Producers are 0..n, consumers n..2n.
   */

  import opened Common
  import opened Tally
  import opened Ring
  import opened SyncObjects

  /** Where a process is in its loop; a sleeping process already stands where it will resume. */
  datatype Pc = Top | Check | CallWait | Compare | Copy | Advance | CallSignal | Record | CallRelease

  datatype Proc = Proc(pc: Pc, index: nat, product: int, nums: seq<int>)

  /** `inserted`, `removed` and `tally` record what has passed through the ring so far. */
  datatype State = State(
    n: nat, procs: seq<Proc>, m: Monitor,
    w: int, r: int, buffer: seq<int>,
    inserted: seq<int>, removed: seq<int>, tally: seq<nat>)

  ghost predicate Sized(s: State) {
    && |s.procs| == |s.tally| == 2 * s.n
    && |s.buffer| == BUFFER_SIZE
    && 0 <= s.w < BUFFER_SIZE && 0 <= s.r < BUFFER_SIZE
  }

  function Init(n: nat, buffer: seq<int>): State {
    State(n, seq(2 * n, _ => Proc(Top, 0, 0, [])), Monitor(Lock(NOBODY, []), [], []), 0, 0, buffer,
          [], [], seq(2 * n, _ => 0))
  }

  ghost predicate Finished(s: State, p: int)
    requires Sized(s) && 0 <= p < 2 * s.n
  {
    s.procs[p].pc == Top && s.procs[p].index >= ITEMS
  }

  ghost predicate CanStep(s: State, p: int)
    requires Sized(s)
  {
    0 <= p < 2 * s.n && !Asleep(s.m, p) && !Finished(s, p)
  }

  function Goto(s: State, p: int, pc: Pc): State
    requires 0 <= p < |s.procs|
  {
    s.(procs := s.procs[p := s.procs[p].(pc := pc)])
  }

  /** One step of producer `p`. */
  function Produce(s: State, p: int): State
    requires Sized(s) && 0 <= p < s.n
  {
    var me := s.procs[p];
    match me.pc
    case Top =>
      s.(procs := s.procs[p := me.(pc := Check, product := me.index)],
         m := s.m.(lock := Acquire(s.m.lock, p)))
    case Check =>
      Goto(s, p, if (s.w + 1) % BUFFER_SIZE == s.r then CallWait else Copy)
    case CallWait =>
      Goto(s, p, Copy).(m := WaitOn(s.m, p, true))
    case Copy =>
      Goto(s, p, Advance).(buffer := s.buffer[s.w := me.product])
    case Advance =>
      Goto(s, p, CallSignal).(w := (s.w + 1) % BUFFER_SIZE,
                              inserted := s.inserted + [s.buffer[s.w]],
                              tally := s.tally[p := s.tally[p] + 1])
    case CallSignal =>
      Goto(s, p, CallRelease).(m := SignalOn(s.m, p, false))
    case CallRelease =>
      Goto(s, p, Record).(m := s.m.(lock := Release(s.m.lock, p)))
    case Record =>
      s.(procs := s.procs[p := me.(pc := Top, index := me.index + 1)])
    case Compare => s
  }

  /** One step of consumer `p`. */
  function Consume(s: State, p: int): State
    requires Sized(s) && s.n <= p < 2 * s.n
  {
    var me := s.procs[p];
    match me.pc
    case Top =>
      Goto(s, p, Check).(m := s.m.(lock := Acquire(s.m.lock, p)))
    case Check =>
      Goto(s, p, if s.w == s.r then CallWait else Compare)
    case CallWait =>
      Goto(s, p, Compare).(m := WaitOn(s.m, p, false))
    case Compare =>
      Goto(s, p, if s.buffer[s.r] != me.index then CallRelease else Copy)
    case Copy =>
      s.(procs := s.procs[p := me.(pc := Advance, product := s.buffer[s.r])])
    case Advance =>
      Goto(s, p, CallSignal).(r := (s.r + 1) % BUFFER_SIZE,
                              removed := s.removed + [me.product],
                              tally := s.tally[p := s.tally[p] + 1])
    case CallSignal =>
      Goto(s, p, Record).(m := SignalOn(s.m, p, true))
    case Record =>
      s.(procs := s.procs[p := me.(pc := CallRelease, index := me.index + 1, nums := me.nums + [me.product])])
    case CallRelease =>
      Goto(s, p, Top).(m := s.m.(lock := Release(s.m.lock, p)))
  }

  function Step(s: State, p: int): (t: State)
    requires Sized(s) && 0 <= p < 2 * s.n
    ensures Sized(t) && t.n == s.n
  {
    if p < s.n then Produce(s, p) else Consume(s, p)
  }

  // ---- What every reachable state keeps ----

  /** Between the return of lock_acquire and the call of lock_release. */
  predicate Inside(s: State, p: int)
    requires 0 <= p < |s.procs|
  {
    s.procs[p].pc != Top && !(p < s.n && s.procs[p].pc == Record)
  }

  /** A process is in its critical section iff it owns the lock or sleeps on the monitor. */
  ghost predicate Exclusive(s: State)
    requires Sized(s)
  {
    && Sound(s.m)
    && (forall p :: p >= 0 && Engaged(s.m, p) ==> p < 2 * s.n)
    && (forall p :: 0 <= p < 2 * s.n ==> (Inside(s, p) <==> Engaged(s.m, p)))
  }

  lemma ExclusiveKept(s: State, p: int)
    requires Sized(s) && Exclusive(s) && CanStep(s, p)
    ensures Exclusive(Step(s, p))
  {
    assert Inside(s, p) <==> Engaged(s.m, p);
    match s.procs[p].pc
    case Top => AcquireEffect(s.m, p);
    case CallWait => WaitEffect(s.m, p, p < s.n);
    case CallSignal => SignalEffect(s.m, p, p >= s.n);
    case CallRelease => ReleaseEffect(s.m, p);
    case _ => ExclusiveKeptByAccess(s, p);
  }

  lemma ExclusiveKeptByAccess(s: State, p: int)
    requires Sized(s) && Exclusive(s) && CanStep(s, p) && !IsCall(s.procs[p].pc)
    ensures Exclusive(Step(s, p))
  {
    forall x | 0 <= x < 2 * s.n
      ensures Inside(Step(s, p), x) <==> Engaged(Step(s, p).m, x)
    {
      assert Inside(s, x) <==> Engaged(s.m, x);
    }
  }

  predicate IsCall(pc: Pc) {
    pc == Top || pc == CallWait || pc == CallSignal || pc == CallRelease
  }

  /** Who can be asleep where: the place of a sleeper is where the call that suspended it returns. */
  ghost predicate QueuedAt(s: State, p: int)
    requires Sized(s) && 0 <= p < 2 * s.n
  {
    var pc := s.procs[p].pc;
    && (p < s.n ==> pc != Compare)
    && (p in s.m.lock.waiting ==> pc == Check || pc == if p < s.n then CallRelease else Record)
    && (p in s.m.notFull ==> p < s.n && pc == Copy)
    && (p in s.m.notEmpty ==> p >= s.n && pc == Compare)
  }

  ghost predicate Queued(s: State)
    requires Sized(s)
  {
    forall p :: 0 <= p < 2 * s.n ==> QueuedAt(s, p)
  }

  lemma QueuedKept(s: State, p: int)
    requires Sized(s) && Exclusive(s) && Queued(s) && CanStep(s, p)
    ensures Queued(Step(s, p))
  {
    assert Inside(s, p) <==> Engaged(s.m, p);
    forall x | 0 <= x < 2 * s.n
      ensures QueuedAt(Step(s, p), x)
    {
      assert QueuedAt(s, x);
      assert QueuedAt(s, p);
      if x == p { QueuedAtSelf(s, p); } else { QueuedAtOther(s, p, x); }
    }
  }

  lemma QueuedAtSelf(s: State, p: int)
    requires Sized(s) && CanStep(s, p) && QueuedAt(s, p)
    requires Inside(s, p) ==> s.m.lock.pid == p
    requires Sound(s.m)
    ensures QueuedAt(Step(s, p), p)
  {
  }

  lemma QueuedAtOther(s: State, p: int, x: int)
    requires Sized(s) && CanStep(s, p) && 0 <= x < 2 * s.n && x != p && QueuedAt(s, x)
    ensures QueuedAt(Step(s, p), x)
  {
  }

  function Live(s: State): seq<int>
    requires |s.removed| <= |s.inserted|
  {
    s.inserted[|s.removed|..]
  }

  /** First in, first out: what was removed, then what the ring holds, is what was inserted. */
  ghost predicate Fifo(s: State)
    requires Sized(s)
  {
    && |s.removed| <= |s.inserted| < |s.removed| + BUFFER_SIZE
    && s.removed == s.inserted[..|s.removed|]
    && Holds(s.buffer, s.r, Live(s))
    && s.w == (s.r + |Live(s)|) % BUFFER_SIZE
  }

  /** What the owner of the lock knows about the ring, by where it stands. */
  ghost predicate Informed(s: State)
    requires Sized(s) && |s.removed| <= |s.inserted|
  {
    var p := s.m.lock.pid;
    0 <= p < 2 * s.n ==>
      match s.procs[p].pc
      case CallWait => if p < s.n then |Live(s)| == BUFFER_SIZE - 1 else Live(s) == []
      case Compare => Live(s) != []
      case Copy => if p < s.n then |Live(s)| < BUFFER_SIZE - 1 else Live(s) != [] && Live(s)[0] == s.procs[p].index
      case Advance =>
        if p < s.n then |Live(s)| < BUFFER_SIZE - 1 && s.buffer[s.w] == s.procs[p].index
        else Live(s) != [] && Live(s)[0] == s.procs[p].index == s.procs[p].product
      case CallSignal => if p < s.n then Live(s) != [] else |Live(s)| < BUFFER_SIZE - 1
      case _ => true
  }

  ghost predicate InLoop(s: State, p: int)
    requires Sized(s) && 0 <= p < 2 * s.n
  {
    var me := s.procs[p];
    && me.index <= ITEMS
    && (me.pc != Top && (p < s.n || me.pc != CallRelease) ==> me.index < ITEMS)
    && s.tally[p] == me.index + (if Moved(s, p) then 1 else 0)
    && (if p < s.n then Inside(s, p) ==> me.product == me.index
        else (Moved(s, p) ==> me.product == me.index) && me.nums == seq(me.index, i => i))
  }

  /** The item has gone through the ring but is not yet counted in the depot. */
  predicate Moved(s: State, p: int)
    requires 0 <= p < |s.procs|
  {
    s.procs[p].pc == CallSignal || s.procs[p].pc == Record || (p < s.n && s.procs[p].pc == CallRelease)
  }

  ghost predicate Depots(s: State)
    requires Sized(s)
  {
    forall p :: 0 <= p < 2 * s.n ==> InLoop(s, p)
  }

  ghost predicate Core(s: State) {
    Sized(s) && Exclusive(s) && Queued(s) && Fifo(s) && Informed(s) && Depots(s)
  }

  /** The first sleeper of a queue is where the queue's sleepers are. */
  lemma FirstInLine(s: State, q: seq<int>)
    requires Core(s) && (q == s.m.lock.waiting || q == s.m.notFull || q == s.m.notEmpty)
    ensures q != [] ==> q[0] in q && 0 <= q[0] < 2 * s.n && QueuedAt(s, q[0])
  {
    if q != [] {
      assert q[0] in q;
      assert q[0] >= 0 && Engaged(s.m, q[0]);
    }
  }

  /** Past the acquire, a process that can run is the owner. */
  lemma RunnerOwns(s: State, p: int)
    requires Core(s) && CanStep(s, p)
    ensures InLoop(s, p) && QueuedAt(s, p)
    ensures Inside(s, p) <==> s.m.lock.pid == p
  {
    assert Inside(s, p) <==> Engaged(s.m, p);
  }

  lemma DepotsKept(s: State, p: int)
    requires Core(s) && CanStep(s, p)
    ensures Depots(Step(s, p))
  {
    RunnerOwns(s, p);
    forall x | 0 <= x < 2 * s.n
      ensures InLoop(Step(s, p), x)
    {
      assert InLoop(s, x);
      if x == p { DepotKept(s, p); }
    }
  }

  lemma DepotKept(s: State, p: int)
    requires Sized(s) && CanStep(s, p) && InLoop(s, p) && QueuedAt(s, p)
    requires p >= s.n && s.procs[p].pc == Advance ==> s.procs[p].product == s.procs[p].index
    ensures InLoop(Step(s, p), p)
  {
    if p < s.n { assert InLoop(Produce(s, p), p); } else { assert InLoop(Consume(s, p), p); }
  }

  predicate SameRing(s: State, t: State) {
    s.w == t.w && s.r == t.r && s.buffer == t.buffer && s.inserted == t.inserted && s.removed == t.removed
  }

  lemma RingTouchedByOwner(s: State, p: int)
    requires Core(s) && CanStep(s, p)
    requires s.procs[p].pc != Advance && !(p < s.n && s.procs[p].pc == Copy)
    ensures SameRing(s, Step(s, p)) && s.tally == Step(s, p).tally
  {
  }

  lemma FifoKept(s: State, p: int)
    requires Core(s) && CanStep(s, p)
    ensures Fifo(Step(s, p))
  {
    RunnerOwns(s, p);
    if s.procs[p].pc == Advance {
      if p < s.n { FifoKeptByInsert(s, p); } else { FifoKeptByRemove(s, p); }
    } else if p < s.n && s.procs[p].pc == Copy {
      FifoKeptByWrite(s, p);
    } else {
      RingTouchedByOwner(s, p);
    }
  }

  lemma FifoKeptByInsert(s: State, p: int)
    requires Sized(s) && Fifo(s) && 0 <= p < s.n && s.procs[p].pc == Advance
    requires |Live(s)| < BUFFER_SIZE - 1
    ensures Fifo(Step(s, p)) && Live(Step(s, p)) == Live(s) + [s.buffer[s.w]]
  {
    Put(s.buffer, s.r, Live(s), s.w, s.buffer[s.w]);
    assert Live(Step(s, p)) == Live(s) + [s.buffer[s.w]];
    assert s.buffer[s.w := s.buffer[s.w]] == s.buffer;
  }

  lemma FifoKeptByRemove(s: State, p: int)
    requires Sized(s) && Fifo(s) && s.n <= p < 2 * s.n && s.procs[p].pc == Advance
    requires Live(s) != [] && s.procs[p].product == Live(s)[0]
    ensures Fifo(Step(s, p)) && Live(Step(s, p)) == Live(s)[1..]
  {
    Take(s.buffer, s.r, Live(s));
    assert Live(Step(s, p)) == Live(s)[1..];
  }

  lemma FifoKeptByWrite(s: State, p: int)
    requires Sized(s) && Fifo(s) && 0 <= p < s.n && s.procs[p].pc == Copy
    requires |Live(s)| < BUFFER_SIZE - 1
    ensures Fifo(Step(s, p))
  {
    Put(s.buffer, s.r, Live(s), s.w, s.procs[p].product);
    assert Live(Step(s, p)) == Live(s) <= Live(s) + [s.procs[p].product];
  }

  /**
   Where the ring is left alone, its new owner, if any, resumes where nothing is presumed of it or
   where the signaller has vouched for it.
   */
  lemma InformedKept(s: State, p: int)
    requires Core(s) && CanStep(s, p)
    ensures Fifo(Step(s, p)) && Informed(Step(s, p))
  {
    FifoKept(s, p);
    RunnerOwns(s, p);
    if IsCall(s.procs[p].pc) {
      InformedKeptByCall(s, p);
    } else if p < s.n {
      InformedKeptByProducer(s, p);
    } else {
      InformedKeptByConsumer(s, p);
    }
  }

  lemma InformedKeptByCall(s: State, p: int)
    requires Core(s) && CanStep(s, p) && IsCall(s.procs[p].pc)
    requires Fifo(Step(s, p))
    ensures Informed(Step(s, p))
  {
    RunnerOwns(s, p);
    RingTouchedByOwner(s, p);
    assert Live(Step(s, p)) == Live(s);
    FirstInLine(s, s.m.lock.waiting);
    FirstInLine(s, s.m.notFull);
    FirstInLine(s, s.m.notEmpty);
  }

  lemma InformedKeptByProducer(s: State, p: int)
    requires Core(s) && CanStep(s, p) && !IsCall(s.procs[p].pc) && p < s.n
    requires Fifo(Step(s, p))
    ensures Informed(Step(s, p))
  {
    RunnerOwns(s, p);
  }

  lemma InformedKeptByConsumer(s: State, p: int)
    requires Core(s) && CanStep(s, p) && !IsCall(s.procs[p].pc) && p >= s.n
    requires Fifo(Step(s, p))
    ensures Informed(Step(s, p))
  {
    RunnerOwns(s, p);
    if Live(s) != [] { Take(s.buffer, s.r, Live(s)); }
  }

  ghost predicate History(s: State)
    requires Sized(s)
  {
    Streams(s.inserted, s.removed, s.tally, s.n)
  }

  lemma HistoryKept(s: State, p: int)
    requires Core(s) && History(s) && CanStep(s, p)
    ensures History(Step(s, p))
  {
    RunnerOwns(s, p);
    if s.procs[p].pc == Advance {
      HistoryGrows(s, p);
    } else {
      assert Step(s, p).tally == s.tally;
    }
  }

  lemma HistoryGrows(s: State, p: int)
    requires Sized(s) && History(s) && 0 <= p < 2 * s.n && s.procs[p].pc == Advance
    requires if p < s.n then s.buffer[s.w] == s.tally[p] < ITEMS else s.procs[p].product == s.tally[p] < ITEMS
    ensures History(Step(s, p))
  {
    if p < s.n {
      StreamsInsert(s.inserted, s.removed, s.tally, s.n, p);
    } else {
      StreamsRemove(s.inserted, s.removed, s.tally, s.n, p);
    }
  }

  /** The owner has moved an item but not yet signalled it. */
  function Owed(s: State, producer: bool): int
    requires Sized(s)
  {
    var p := s.m.lock.pid;
    if 0 <= p < 2 * s.n && s.procs[p].pc == CallSignal && (p < s.n) == producer then 1 else 0
  }

  /** No lost wake-up: every insert wakes a consumer and every removal a producer while any sleeps. */
  ghost predicate Wakeable(s: State)
    requires Sized(s) && |s.removed| <= |s.inserted|
  {
    && (s.m.notEmpty != [] ==> |s.m.notEmpty| + |Live(s)| <= s.n + Owed(s, true))
    && (s.m.notFull != [] ==> |s.m.notFull| + (BUFFER_SIZE - 1 - |Live(s)|) <= s.n + Owed(s, false))
    && |s.m.notEmpty| + |s.inserted| <= s.n * ITEMS + Owed(s, true)
  }

  ghost predicate Inv(s: State) {
    Core(s) && History(s) && Wakeable(s)
  }

  /** At most `n` consumers sleep, and each of them still has an item to take. */
  lemma SleepersBehind(s: State, p: int)
    requires Core(s) && History(s) && CanStep(s, p) && p >= s.n && s.procs[p].pc == CallWait
    ensures |s.m.notEmpty| + 1 <= s.n
    ensures |s.m.notEmpty| + 1 + |s.removed| <= s.n * ITEMS
  {
    RunnerOwns(s, p);
    var q := s.m.notEmpty + [p];
    var shifted := seq(|q|, i requires 0 <= i < |q| => q[i] - s.n);
    forall i | 0 <= i < |q|
      ensures s.n <= q[i] < 2 * s.n && s.tally[q[i]] < ITEMS
    {
      assert q[i] in q;
      assert i < |q| - 1 ==> q[i] in s.m.notEmpty && Engaged(s.m, q[i]) && QueuedAt(s, q[i]);
      assert InLoop(s, q[i]);
    }
    forall k | 0 <= k < s.n
      ensures s.tally[s.n..][k] <= ITEMS
    {
      assert InLoop(s, s.n + k);
    }
    DistinctInRange(q, s.n, 2 * s.n);
    SumShortfall(s.tally[s.n..], ITEMS, shifted);
  }

  lemma ProducersSleeping(s: State, p: int)
    requires Core(s) && CanStep(s, p) && p < s.n && s.procs[p].pc == CallWait
    ensures |s.m.notFull| + 1 <= s.n
  {
    RunnerOwns(s, p);
    var q := s.m.notFull + [p];
    forall i | 0 <= i < |q|
      ensures 0 <= q[i] < s.n
    {
      assert i < |q| - 1 ==> q[i] in s.m.notFull && Engaged(s.m, q[i]) && QueuedAt(s, q[i]);
    }
    DistinctInRange(q, 0, s.n);
  }

  lemma AtMostTen(s: State)
    requires Core(s)
    ensures forall k :: 0 <= k < 2 * s.n ==> s.tally[k] <= ITEMS
  {
    forall k | 0 <= k < 2 * s.n
      ensures s.tally[k] <= ITEMS
    {
      assert InLoop(s, k);
    }
  }

  lemma MovesBounded(s: State)
    requires Core(s) && History(s)
    ensures |s.inserted| <= s.n * ITEMS && |s.removed| <= s.n * ITEMS
  {
    AtMostTen(s);
    StreamsBounded(s.inserted, s.removed, s.tally, s.n);
  }

  lemma WakeableKept(s: State, p: int)
    requires Inv(s) && CanStep(s, p)
    requires Core(Step(s, p))
    ensures Wakeable(Step(s, p))
  {
    RunnerOwns(s, p);
    MovesBounded(s);
    if IsCall(s.procs[p].pc) {
      RingTouchedByOwner(s, p);
      WakeableKeptByCall(s, p);
    }
  }

  lemma WakeableKeptByCall(s: State, p: int)
    requires Inv(s) && CanStep(s, p) && IsCall(s.procs[p].pc)
    requires SameRing(s, Step(s, p)) && |s.inserted| <= s.n * ITEMS
    ensures Wakeable(Step(s, p))
  {
    RunnerOwns(s, p);
    FirstInLine(s, s.m.lock.waiting);
    if s.procs[p].pc == CallWait {
      WakeableKeptByWait(s, p);
    } else if s.procs[p].pc == CallSignal {
      FirstInLine(s, if p < s.n then s.m.notEmpty else s.m.notFull);
      WakeableKeptBySignal(s, p);
    }
  }

  lemma WakeableKeptByWait(s: State, p: int)
    requires Inv(s) && CanStep(s, p) && s.procs[p].pc == CallWait && s.m.lock.pid == p
    requires SameRing(s, Step(s, p)) && |s.inserted| <= s.n * ITEMS
    ensures Wakeable(Step(s, p))
  {
    FirstInLine(s, s.m.lock.waiting);
    if p < s.n { ProducersSleeping(s, p); } else { SleepersBehind(s, p); }
  }

  lemma WakeableKeptBySignal(s: State, p: int)
    requires Sized(s) && |s.removed| <= |s.inserted| && Wakeable(s)
    requires 0 <= p < 2 * s.n && s.procs[p].pc == CallSignal && s.m.lock.pid == p
    requires var c := if p < s.n then s.m.notEmpty else s.m.notFull;
             c != [] ==> 0 <= c[0] < 2 * s.n && s.procs[c[0]].pc != CallSignal
    requires SameRing(s, Step(s, p)) && |s.inserted| <= s.n * ITEMS
    ensures Wakeable(Step(s, p))
  {
  }

  lemma InvKept(s: State, p: int)
    requires Inv(s) && CanStep(s, p)
    ensures Inv(Step(s, p))
  {
    ExclusiveKept(s, p);
    QueuedKept(s, p);
    InformedKept(s, p);
    DepotsKept(s, p);
    HistoryKept(s, p);
    WakeableKept(s, p);
  }

  // ---- Runs ----

  /** The run `run` of single steps leads from `s` to `t`. */
  ghost predicate LeadsTo(s: State, run: seq<int>, t: State)
    requires Sized(s)
    decreases |run|
  {
    && Sized(t) && t.n == s.n
    && if run == [] then s == t else CanStep(s, run[0]) && LeadsTo(Step(s, run[0]), run[1..], t)
  }

  ghost predicate Reaches(s: State, t: State)
    requires Sized(s)
  {
    exists run :: LeadsTo(s, run, t)
  }

  lemma Stay(s: State)
    requires Sized(s)
    ensures Reaches(s, s)
  {
    assert LeadsTo(s, [], s);
  }

  lemma StepThen(s: State, p: int, t: State)
    requires Sized(s) && CanStep(s, p) && Reaches(Step(s, p), t)
    ensures Reaches(s, t)
  {
    var run :| LeadsTo(Step(s, p), run, t);
    assert ([p] + run)[1..] == run;
    assert LeadsTo(s, [p] + run, t);
  }

  lemma {:induction false} Chain(s: State, run: seq<int>, t: State, u: State)
    requires Sized(s) && LeadsTo(s, run, t) && Reaches(t, u)
    ensures Reaches(s, u)
    decreases |run|
  {
    if run != [] {
      Chain(Step(s, run[0]), run[1..], t, u);
      StepThen(s, run[0], u);
    }
  }

  /** The invariant holds at the start, whatever the shared page contains, and along every run. */
  lemma {:induction false} InvAlong(s: State, run: seq<int>, t: State)
    requires Inv(s) && LeadsTo(s, run, t)
    ensures Inv(t)
    decreases |run|
  {
    if run != [] {
      InvKept(s, run[0]);
      InvAlong(Step(s, run[0]), run[1..], t);
    }
  }

  lemma InvInit(n: nat, buffer: seq<int>)
    requires |buffer| == BUFFER_SIZE
    ensures Inv(Init(n, buffer))
  {
    var s := Init(n, buffer);
    StreamsStart(n);
    forall p | 0 <= p < 2 * n
      ensures InLoop(s, p)
    {
      assert s.procs[p] == Proc(Top, 0, 0, []);
      assert s.procs[p].nums == seq(0, i => i);
    }
  }

  // ---- From every reachable state all processes can still finish ----

  function Rank(s: State, p: int): nat
    requires 0 <= p < |s.procs|
  {
    match s.procs[p].pc
    case Check => 9 case CallWait => 8 case Compare => 7 case Copy => 6 case Advance => 5 case CallSignal => 4
    case Record => if p < s.n then 1 else 3
    case CallRelease => 2 case Top => 0
  }

  ghost function Ranks(s: State): seq<nat> {
    seq(|s.procs|, p requires 0 <= p < |s.procs| => Rank(s, p))
  }

  lemma RankFalls(s: State, p: int)
    requires Core(s) && CanStep(s, p) && s.procs[p].pc != Top
    ensures Sum(Ranks(Step(s, p))) < Sum(Ranks(s))
  {
    var t := Step(s, p);
    assert QueuedAt(s, p);
    assert Rank(t, p) < Rank(s, p);
    assert Ranks(t) == Ranks(s)[p := Rank(t, p)];
    SumUpdate(Ranks(s), p, Rank(t, p));
  }

  /** Everybody awake is at the top of its loop. */
  ghost predicate Quiet(s: State)
    requires Sized(s)
  {
    forall p :: 0 <= p < 2 * s.n ==> s.procs[p].pc == Top || Asleep(s.m, p)
  }

  function Moves(s: State): nat {
    |s.inserted| + |s.removed|
  }

  lemma DrainStep(s: State, p: int)
    requires Inv(s) && CanStep(s, p) && s.procs[p].pc != Top
    ensures Inv(Step(s, p)) && Moves(Step(s, p)) >= Moves(s)
    ensures Sum(Ranks(Step(s, p))) < Sum(Ranks(s))
  {
    InvKept(s, p);
    RankFalls(s, p);
  }

  /** Letting everybody awake run to the top of its loop always comes to an end. */
  lemma {:induction false} Drain(s: State) returns (t: State)
    requires Inv(s)
    ensures Inv(t) && t.n == s.n && Reaches(s, t) && Quiet(t) && Moves(t) >= Moves(s)
    decreases Sum(Ranks(s))
  {
    SumNat(Ranks(s));
    if Quiet(s) {
      Stay(s);
      t := s;
    } else {
      var p :| 0 <= p < 2 * s.n && s.procs[p].pc != Top && !Asleep(s.m, p);
      DrainStep(s, p);
      t := Drain(Step(s, p));
      StepThen(s, p, t);
    }
  }

  /** In a quiet state nobody owns the lock, and a sleeper waits on the condition of its own kind. */
  lemma QuietFacts(s: State, p: int)
    requires Inv(s) && Quiet(s) && 0 <= p < 2 * s.n
    ensures s.m.lock == Lock(NOBODY, []) && Owed(s, true) == Owed(s, false) == 0
    ensures s.tally[p] == s.procs[p].index <= ITEMS
    ensures s.procs[p].pc == Top || (s.procs[p].index < ITEMS && p in if p < s.n then s.m.notFull else s.m.notEmpty)
  {
    var o := s.m.lock.pid;
    if o != NOBODY {
      assert Engaged(s.m, o);
    }
    assert InLoop(s, p) && QueuedAt(s, p);
  }

  /** With at most 15 pairs, no producer sleeps while a consumer does or while the ring is empty. */
  lemma ProducerAwake(s: State, p: int)
    requires Inv(s) && Quiet(s) && 2 * s.n + 1 <= PROCESS_MAX_PROCS
    requires 0 <= p < s.n && s.tally[p] < ITEMS
    requires s.m.notEmpty != [] || Live(s) == []
    ensures s.procs[p].pc == Top && !Asleep(s.m, p)
    ensures |Live(s)| < BUFFER_SIZE - 1
  {
    QuietFacts(s, p);
    assert s.procs[p].pc == Top ==> !(Inside(s, p) || Engaged(s.m, p));
  }

  /** On the way to the ring with nothing in between: a producer with room, a consumer whose item is at the head. */
  ghost predicate OnCourse(s: State, p: int)
    requires Sized(s) && |s.removed| <= |s.inserted|
  {
    && CanStep(s, p)
    && (if p < s.n then |Live(s)| < BUFFER_SIZE - 1 else Live(s) != [] && Live(s)[0] == s.procs[p].index)
    && (if s.procs[p].pc == Top then s.m.lock == Lock(NOBODY, []) else CourseRank(s, p) > 0)
  }

  function CourseRank(s: State, p: int): nat
    requires 0 <= p < |s.procs|
  {
    match s.procs[p].pc
    case Top => 5 case Check => 4 case Compare => 3 case Copy => 2 case Advance => 1 case _ => 0
  }

  lemma StaysOnCourse(s: State, p: int)
    requires Inv(s) && OnCourse(s, p)
    ensures var t := Step(s, p);
            && Inv(t)
            && if s.procs[p].pc == Advance then Moves(t) == Moves(s) + 1
               else OnCourse(t, p) && CourseRank(t, p) < CourseRank(s, p) && Moves(t) == Moves(s)
  {
    InvKept(s, p);
    RunnerOwns(s, p);
    if s.procs[p].pc != Advance {
      assert Live(Step(s, p)) == Live(s);
      if Live(s) != [] { Take(s.buffer, s.r, Live(s)); }
    }
  }

  lemma {:induction false} MoveNow(s: State, p: int) returns (t: State)
    requires Inv(s) && OnCourse(s, p)
    ensures Inv(t) && t.n == s.n && Reaches(s, t) && Moves(t) == Moves(s) + 1
    decreases CourseRank(s, p)
  {
    StaysOnCourse(s, p);
    if s.procs[p].pc == Advance {
      t := Step(s, p);
      Stay(t);
    } else {
      t := MoveNow(Step(s, p), p);
    }
    StepThen(s, p, t);
  }

  ghost predicate AllDone(s: State)
    requires Sized(s)
  {
    forall p :: 0 <= p < 2 * s.n ==> Finished(s, p)
  }

  /** Some unfinished consumer always expects the digit at the head of the ring. */
  lemma SomeoneWantsHead(s: State) returns (c: int)
    requires Inv(s) && Live(s) != []
    ensures s.n <= c < 2 * s.n && s.tally[c] == Live(s)[0] && s.tally[c] < ITEMS
  {
    c := SomeoneWantsNext(s.inserted, s.removed, s.tally, s.n);
  }

  /** In a quiet state somebody can be picked who will move an item, unless all items have moved. */
  lemma NextMove(s: State) returns (t: State)
    requires Inv(s) && Quiet(s) && 2 * s.n + 1 <= PROCESS_MAX_PROCS && Moves(s) < 2 * s.n * ITEMS
    ensures Inv(t) && t.n == s.n && Reaches(s, t) && Moves(t) == Moves(s) + 1
  {
    var wanted := -1;
    if Live(s) != [] {
      wanted := SomeoneWantsHead(s);
      QuietFacts(s, wanted);
    }
    if wanted != -1 && s.procs[wanted].pc == Top {
      assert !(Inside(s, wanted) || Engaged(s.m, wanted));
      t := MoveNow(s, wanted);
    } else {
      assert s.m.notEmpty != [] || Live(s) == [];
      QuietFacts(s, 0);
      var p := SumShort(s.tally[..s.n], ITEMS);
      ProducerAwake(s, p);
      QuietFacts(s, p);
      t := MoveNow(s, p);
    }
  }

  /** All items moved and nobody in its critical section: everybody has finished. */
  lemma QuietlyDone(s: State)
    requires Inv(s) && Quiet(s) && Moves(s) == 2 * s.n * ITEMS
    ensures AllDone(s)
  {
    AtMostTen(s);
    AllMoved(s.inserted, s.removed, s.tally, s.n);
    forall p | 0 <= p < 2 * s.n
      ensures Finished(s, p)
    {
      assert InLoop(s, p);
      QuietFacts(s, p);
    }
  }

  /** From every state the program can be in there is a continuation in which all processes finish. */
  lemma {:induction false} CanFinish(s: State) returns (t: State)
    requires Inv(s) && 2 * s.n + 1 <= PROCESS_MAX_PROCS
    ensures Inv(t) && t.n == s.n && Reaches(s, t) && AllDone(t)
    decreases 2 * s.n * ITEMS - Moves(s)
  {
    var q := Drain(s);
    MovesBounded(q);
    if Moves(q) < 2 * q.n * ITEMS {
      var u := NextMove(q);
      t := CanFinish(u);
      var run :| LeadsTo(q, run, u);
      Chain(q, run, u, t);
    } else {
      QuietlyDone(q);
      Stay(q);
      t := q;
    }
    var run :| LeadsTo(s, run, q);
    Chain(s, run, q, t);
  }

  // ---- The results, for every reachable state ----

  ghost predicate Reachable(n: nat, buffer: seq<int>, s: State) {
    |buffer| == BUFFER_SIZE && Reaches(Init(n, buffer), s)
  }

  lemma ReachableInv(n: nat, buffer: seq<int>, s: State)
    requires Reachable(n, buffer, s)
    ensures Inv(s) && s.n == n
  {
    InvInit(n, buffer);
    var run :| LeadsTo(Init(n, buffer), run, s);
    InvAlong(Init(n, buffer), run, s);
  }

  /**
   A process about to touch the ring behind its check or its cond_wait owns the lock and finds the
   ring as it needs it, so the `if` without a second look is sound; every cond_wait, cond_signal and
   lock_release is called by the owner, so none of them fails.
   */
  lemma HoareGuarantee(n: nat, buffer: seq<int>, s: State, p: int)
    requires Reachable(n, buffer, s) && 0 <= p < 2 * n && CanStep(s, p)
    ensures Inside(s, p) <==> s.m.lock.pid == p
    ensures p < n && (s.procs[p].pc == Copy || s.procs[p].pc == Advance) ==> (s.w + 1) % BUFFER_SIZE != s.r
    ensures p >= n && (s.procs[p].pc == Compare || s.procs[p].pc == Copy || s.procs[p].pc == Advance) ==> s.w != s.r
  {
    ReachableInv(n, buffer, s);
    RunnerOwns(s, p);
  }

  /** Removed items, then the slots from r to w, are the inserted items; each consumer got 0, 1, 2, ... in order. */
  lemma RingIsFifo(n: nat, buffer: seq<int>, s: State)
    requires Reachable(n, buffer, s)
    ensures Sized(s) && s.inserted == s.removed + Slots(s.buffer, s.r, s.w)
    ensures forall p :: n <= p < 2 * n ==> s.procs[p].nums == seq(s.procs[p].index, i => i)
  {
    ReachableInv(n, buffer, s);
    SlotsAreLive(s.buffer, s.r, Live(s), s.w);
    assert s.inserted == s.removed + Live(s);
    forall p | n <= p < 2 * n
      ensures s.procs[p].nums == seq(s.procs[p].index, i => i)
    {
      assert InLoop(s, p);
    }
  }

  /**
   No reachable state is stuck: with as many pairs as the process table admits besides the process
   that creates them, some continuation finishes everybody, each consumer holding all ten digits.
   */
  lemma NeverStuck(n: nat, buffer: seq<int>, s: State) returns (t: State)
    requires Reachable(n, buffer, s) && 2 * n + 1 <= PROCESS_MAX_PROCS
    ensures Sized(s) && Reaches(s, t) && Reachable(n, buffer, t) && t.n == n && Sized(t) && AllDone(t)
    ensures forall p :: n <= p < 2 * n ==> t.procs[p].nums == [0, 1, 2, 3, 4, 5, 6, 7, 8, 9]
  {
    ReachableInv(n, buffer, s);
    t := CanFinish(s);
    var run :| LeadsTo(Init(n, buffer), run, s);
    Chain(Init(n, buffer), run, s, t);
    forall p | n <= p < 2 * n
      ensures t.procs[p].nums == [0, 1, 2, 3, 4, 5, 6, 7, 8, 9]
    {
      assert InLoop(t, p) && Finished(t, p);
      AllDigits();
    }
  }
}
