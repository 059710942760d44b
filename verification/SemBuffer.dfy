/** The programs of apps/q3: a bounded buffer guarded by two semaphores and a lock. */
module SemBuffer {
  /*
   A consumer looks at the head slot before it waits for a full slot, and waits with the lock in its
   hands. Producers are 0..n, consumers n..2n; a step is one system call or one access to shared
   memory.
   */

  import opened Tally
  import opened Ring
  import opened SyncObjects

  datatype Pc = Top | CallAcquire | Peek | CallWait | Copy | Advance | CallRelease | CallSignal | Record | CallLeave

  datatype Proc = Proc(pc: Pc, index: nat, product: int, nums: seq<int>)

  datatype State = State(
    n: nat, procs: seq<Proc>, lock: Lock, full: Sem, empty: Sem,
    w: int, r: int, buffer: seq<int>,
    inserted: seq<int>, removed: seq<int>, tally: seq<nat>)

  ghost predicate Sized(s: State) {
    && |s.procs| == |s.tally| == 2 * s.n
    && |s.buffer| == BUFFER_SIZE
    && 0 <= s.w < BUFFER_SIZE && 0 <= s.r < BUFFER_SIZE
  }

  function Init(n: nat, buffer: seq<int>): State {
    State(n, seq(2 * n, _ => Proc(Top, 0, 0, [])), Lock(NOBODY, []), Sem(0, []), Sem(BUFFER_SIZE, []), 0, 0, buffer,
          [], [], seq(2 * n, _ => 0))
  }

  predicate Asleep(s: State, p: int) {
    p in s.lock.waiting || p in s.full.waiting || p in s.empty.waiting
  }

  ghost predicate CanStep(s: State, p: int)
    requires Sized(s)
  {
    0 <= p < 2 * s.n && !Asleep(s, p) && !(s.procs[p].pc == Top && s.procs[p].index >= ITEMS)
  }

  function Goto(s: State, p: int, pc: Pc): State
    requires 0 <= p < |s.procs|
  {
    s.(procs := s.procs[p := s.procs[p].(pc := pc)])
  }

  function Produce(s: State, p: int): State
    requires Sized(s) && 0 <= p < s.n
  {
    var me := s.procs[p];
    match me.pc
    case Top =>
      s.(procs := s.procs[p := me.(pc := CallAcquire, product := me.index)], empty := SemWait(s.empty, p))
    case CallAcquire => Goto(s, p, Copy).(lock := Acquire(s.lock, p))
    case Copy => Goto(s, p, Advance).(buffer := s.buffer[s.w := me.product])
    case Advance =>
      Goto(s, p, CallRelease).(w := (s.w + 1) % BUFFER_SIZE, inserted := s.inserted + [s.buffer[s.w]],
                               tally := s.tally[p := s.tally[p] + 1])
    case CallRelease => Goto(s, p, CallSignal).(lock := Release(s.lock, p))
    case CallSignal => Goto(s, p, Record).(full := SemSignal(s.full))
    case Record => s.(procs := s.procs[p := me.(pc := Top, index := me.index + 1)])
    case _ => s
  }

  function Consume(s: State, p: int): State
    requires Sized(s) && s.n <= p < 2 * s.n
  {
    var me := s.procs[p];
    match me.pc
    case Top => Goto(s, p, Peek).(lock := Acquire(s.lock, p))
    case Peek => Goto(s, p, if s.buffer[s.r] == me.index then CallWait else CallLeave)
    case CallWait => Goto(s, p, Copy).(full := SemWait(s.full, p))
    case Copy => s.(procs := s.procs[p := me.(pc := Advance, product := s.buffer[s.r])])
    case Advance =>
      Goto(s, p, CallRelease).(r := (s.r + 1) % BUFFER_SIZE, removed := s.removed + [me.product],
                               tally := s.tally[p := s.tally[p] + 1])
    case CallRelease => Goto(s, p, CallSignal).(lock := Release(s.lock, p))
    case CallSignal => Goto(s, p, Record).(empty := SemSignal(s.empty))
    case Record =>
      s.(procs := s.procs[p := me.(pc := Top, index := me.index + 1, nums := me.nums + [me.product])])
    case CallLeave => Goto(s, p, Top).(lock := Release(s.lock, p))
    case CallAcquire => s
  }

  function Step(s: State, p: int): (t: State)
    requires Sized(s) && 0 <= p < 2 * s.n
    ensures Sized(t) && t.n == s.n
  {
    if p < s.n then Produce(s, p) else Consume(s, p)
  }

  // ---- The counting invariant ----

  /** The process accounts for a full slot: filled but not signalled, or waited for but not taken out. */
  function FullCredit(s: State, p: int): nat
    requires 0 <= p < |s.procs|
  {
    match s.procs[p].pc
    case CallRelease => if p < s.n then 1 else 0
    case CallSignal => if p < s.n then 1 else 0
    case Copy => if p < s.n then 0 else 1
    case Advance => if p < s.n then 0 else 1
    case _ => 0
  }

  /** The process accounts for an empty slot: waited for but not filled, or taken out but not signalled. */
  function EmptyCredit(s: State, p: int): nat
    requires 0 <= p < |s.procs|
  {
    match s.procs[p].pc
    case CallAcquire => if p < s.n then 1 else 0
    case Copy => if p < s.n then 1 else 0
    case Advance => if p < s.n then 1 else 0
    case CallRelease => if p < s.n then 0 else 1
    case CallSignal => if p < s.n then 0 else 1
    case _ => 0
  }

  ghost function FullCredits(s: State): seq<nat> {
    seq(|s.procs|, p requires 0 <= p < |s.procs| => FullCredit(s, p))
  }

  ghost function EmptyCredits(s: State): seq<nat> {
    seq(|s.procs|, p requires 0 <= p < |s.procs| => EmptyCredit(s, p))
  }

  /** Items in the ring, accounted for by the full slots. */
  ghost predicate FullSide(s: State) {
    && |s.inserted| - |s.removed| == s.full.count + Sum(FullCredits(s)) - |s.full.waiting|
    && s.full.count >= 0 && (s.full.waiting != [] ==> s.full.count == 0)
  }

  /** Items in the ring, accounted for by the empty slots. */
  ghost predicate EmptySide(s: State) {
    && |s.inserted| - |s.removed| == BUFFER_SIZE - s.empty.count - (Sum(EmptyCredits(s)) - |s.empty.waiting|)
    && s.empty.count >= 0 && (s.empty.waiting != [] ==> s.empty.count == 0)
  }

  ghost predicate Balanced(s: State) {
    FullSide(s) && EmptySide(s)
  }

  lemma CreditsChange(s: State, t: State, p: int)
    requires Sized(s) && Sized(t) && s.n == t.n && 0 <= p < 2 * s.n
    requires forall x :: 0 <= x < 2 * s.n && x != p ==> t.procs[x] == s.procs[x]
    ensures Sum(FullCredits(t)) == Sum(FullCredits(s)) - FullCredit(s, p) + FullCredit(t, p)
    ensures Sum(EmptyCredits(t)) == Sum(EmptyCredits(s)) - EmptyCredit(s, p) + EmptyCredit(t, p)
  {
    assert FullCredits(t) == FullCredits(s)[p := FullCredit(t, p)];
    SumUpdate(FullCredits(s), p, FullCredit(t, p));
    assert EmptyCredits(t) == EmptyCredits(s)[p := EmptyCredit(t, p)];
    SumUpdate(EmptyCredits(s), p, EmptyCredit(t, p));
  }

  lemma FullSideKept(s: State, p: int)
    requires Sized(s) && FullSide(s) && CanStep(s, p)
    ensures FullSide(Step(s, p))
  {
    if p < s.n { FullSideByProducer(s, p); } else { FullSideByConsumer(s, p); }
  }

  lemma FullSideByProducer(s: State, p: int)
    requires Sized(s) && FullSide(s) && CanStep(s, p) && p < s.n
    ensures FullSide(Produce(s, p))
  {
    CreditsChange(s, Produce(s, p), p);
  }

  lemma FullSideByConsumer(s: State, p: int)
    requires Sized(s) && FullSide(s) && CanStep(s, p) && p >= s.n
    ensures FullSide(Consume(s, p))
  {
    CreditsChange(s, Consume(s, p), p);
  }

  lemma EmptySideKept(s: State, p: int)
    requires Sized(s) && EmptySide(s) && CanStep(s, p)
    ensures EmptySide(Step(s, p))
  {
    if p < s.n { EmptySideByProducer(s, p); } else { EmptySideByConsumer(s, p); }
  }

  lemma EmptySideByProducer(s: State, p: int)
    requires Sized(s) && EmptySide(s) && CanStep(s, p) && p < s.n
    ensures EmptySide(Produce(s, p))
  {
    CreditsChange(s, Produce(s, p), p);
  }

  lemma EmptySideByConsumer(s: State, p: int)
    requires Sized(s) && EmptySide(s) && CanStep(s, p) && p >= s.n
    ensures EmptySide(Consume(s, p))
  {
    CreditsChange(s, Consume(s, p), p);
  }

  // ---- Who sleeps where ----

  predicate Inside(s: State, p: int)
    requires 0 <= p < |s.procs|
  {
    match s.procs[p].pc
    case Copy => true case Advance => true case CallRelease => true
    case Peek => true case CallWait => true case CallLeave => true
    case _ => false
  }

  ghost function M(s: State): Monitor {
    Monitor(s.lock, [], [])
  }

  ghost predicate PlacedAt(s: State, p: int)
    requires Sized(s) && 0 <= p < 2 * s.n
  {
    var pc := s.procs[p].pc;
    && (Inside(s, p) <==> Engaged(M(s), p))
    && (p in s.lock.waiting ==> pc == if p < s.n then Copy else Peek)
    && (p in s.full.waiting ==> p >= s.n && pc == Copy)
    && (p in s.empty.waiting ==> p < s.n && pc == CallAcquire)
    && (if p < s.n then pc != Peek && pc != CallWait && pc != CallLeave else pc != CallAcquire)
  }

  ghost predicate Listed(s: State, q: seq<int>) {
    NoDup(q) && forall p :: p in q ==> 0 <= p < 2 * s.n
  }

  ghost predicate Placed(s: State)
    requires Sized(s)
  {
    && Sound(M(s))
    && (forall p :: p >= 0 && Engaged(M(s), p) ==> p < 2 * s.n)
    && Listed(s, s.full.waiting) && Listed(s, s.empty.waiting)
    && (forall p :: 0 <= p < 2 * s.n ==> PlacedAt(s, p))
  }

  lemma PlacedKept(s: State, p: int)
    requires Sized(s) && Placed(s) && CanStep(s, p)
    ensures Placed(Step(s, p))
  {
    var t := Step(s, p);
    assert PlacedAt(s, p);
    LockPart(s, p);
    FullPart(s, p);
    EmptyPart(s, p);
    forall x | 0 <= x < 2 * s.n
      ensures PlacedAt(t, x)
    {
      assert PlacedAt(s, x);
      if x == p { PlacedSelf(s, p); } else { PlacedOther(s, p, x); }
    }
  }

  lemma LockPart(s: State, p: int)
    requires Sized(s) && CanStep(s, p) && PlacedAt(s, p) && Sound(M(s))
    ensures var t := Step(s, p);
            && Sound(M(t))
            && (forall x :: x >= 0 && x != p ==> (Engaged(M(t), x) <==> Engaged(M(s), x)))
            && (Engaged(M(t), p) <==> Inside(t, p))
            && (forall x :: x in t.lock.waiting ==> x in s.lock.waiting || x == p)
            && (p in t.lock.waiting ==> t.procs[p].pc == if p < s.n then Copy else Peek)
  {
    if s.lock.waiting != [] { QueueTail(s.lock.waiting); }
    match s.procs[p].pc {
      case Top => if p >= s.n { AcquireEffect(M(s), p); }
      case CallAcquire => AcquireEffect(M(s), p);
      case CallRelease => ReleaseEffect(M(s), p);
      case CallLeave => ReleaseEffect(M(s), p);
      case _ =>
    }
  }

  lemma FullPart(s: State, p: int)
    requires Sized(s) && CanStep(s, p) && Listed(s, s.full.waiting)
    ensures var t := Step(s, p);
            && Listed(t, t.full.waiting)
            && (forall x :: x in t.full.waiting ==> x in s.full.waiting || x == p)
            && (p in t.full.waiting ==> p >= s.n && t.procs[p].pc == Copy)
  {
    if s.full.waiting != [] { QueueTail(s.full.waiting); }
  }

  lemma EmptyPart(s: State, p: int)
    requires Sized(s) && CanStep(s, p) && Listed(s, s.empty.waiting)
    ensures var t := Step(s, p);
            && Listed(t, t.empty.waiting)
            && (forall x :: x in t.empty.waiting ==> x in s.empty.waiting || x == p)
            && (p in t.empty.waiting ==> p < s.n && t.procs[p].pc == CallAcquire)
  {
    if s.empty.waiting != [] { QueueTail(s.empty.waiting); }
  }

  lemma PlacedSelf(s: State, p: int)
    requires Sized(s) && CanStep(s, p) && PlacedAt(s, p)
    requires var t := Step(s, p);
             && (Engaged(M(t), p) <==> Inside(t, p))
             && (p in t.lock.waiting ==> t.procs[p].pc == if p < s.n then Copy else Peek)
             && (p in t.full.waiting ==> p >= s.n && t.procs[p].pc == Copy)
             && (p in t.empty.waiting ==> p < s.n && t.procs[p].pc == CallAcquire)
    ensures PlacedAt(Step(s, p), p)
  {
  }

  lemma PlacedOther(s: State, p: int, x: int)
    requires Sized(s) && CanStep(s, p) && 0 <= x < 2 * s.n && x != p && PlacedAt(s, x)
    requires var t := Step(s, p);
             && (Engaged(M(t), x) <==> Engaged(M(s), x))
             && (x in t.lock.waiting ==> x in s.lock.waiting)
             && (x in t.full.waiting ==> x in s.full.waiting)
             && (x in t.empty.waiting ==> x in s.empty.waiting)
    ensures PlacedAt(Step(s, p), x)
  {
  }

  // ---- The ring ----

  function Live(s: State): seq<int>
    requires |s.removed| <= |s.inserted|
  {
    s.inserted[|s.removed|..]
  }

  ghost predicate Fifo(s: State)
    requires Sized(s)
  {
    && |s.removed| <= |s.inserted| <= |s.removed| + BUFFER_SIZE
    && s.removed == s.inserted[..|s.removed|]
    && Holds(s.buffer, s.r, Live(s))
    && s.w == (s.r + |Live(s)|) % BUFFER_SIZE
  }

  /** The item has gone through the ring but is not yet counted in the depot. */
  predicate Moved(pc: Pc) {
    pc == CallRelease || pc == CallSignal || pc == Record
  }

  ghost predicate InLoop(s: State, p: int)
    requires Sized(s) && 0 <= p < 2 * s.n
  {
    var me := s.procs[p];
    && s.tally[p] == me.index + (if Moved(me.pc) then 1 else 0)
    && me.index <= ITEMS && (me.pc != Top ==> me.index < ITEMS)
    && (p < s.n && me.pc != Top ==> me.product == me.index)
    && (p < s.n && me.pc == Advance ==> s.buffer[s.w] == me.index)
    && (p >= s.n && (me.pc == CallWait || me.pc == Copy || me.pc == Advance) ==> s.buffer[s.r] == me.index)
    && (p >= s.n && (me.pc == Advance || me.pc == CallRelease || me.pc == CallSignal || me.pc == Record) ==>
          me.product == me.index)
    && (p >= s.n ==> me.nums == seq(me.index, i => i))
  }

  ghost predicate History(s: State)
    requires Sized(s)
  {
    Streams(s.inserted, s.removed, s.tally, s.n)
  }

  ghost predicate Inv(s: State) {
    && Sized(s) && Balanced(s) && Placed(s) && Fifo(s) && History(s)
    && forall p :: 0 <= p < 2 * s.n ==> InLoop(s, p)
  }

  /** A producer that was let through finds a free slot; a consumer that was let through finds an item. */
  lemma SlotReady(s: State, p: int)
    requires Sized(s) && Balanced(s) && Placed(s) && CanStep(s, p)
    requires s.procs[p].pc == Copy || s.procs[p].pc == Advance
    ensures p < s.n ==> |s.inserted| - |s.removed| < BUFFER_SIZE
    ensures p >= s.n ==> |s.inserted| - |s.removed| > 0
  {
    var q := (if p < s.n then s.empty.waiting else s.full.waiting) + [p];
    var credits := if p < s.n then EmptyCredits(s) else FullCredits(s);
    forall i | 0 <= i < |q|
      ensures 0 <= q[i] < |credits| && credits[q[i]] >= 1
    {
      if i < |q| - 1 {
        assert q[i] in if p < s.n then s.empty.waiting else s.full.waiting;
        assert PlacedAt(s, q[i]);
      }
    }
    SumAtLeast(credits, q);
  }

  /** At most one process is past the lock; it is the owner, asleep on the full slots or not. */
  lemma OneInside(s: State, p: int, x: int)
    requires Sized(s) && Placed(s) && 0 <= p < 2 * s.n && 0 <= x < 2 * s.n
    requires Inside(s, p) && p !in s.lock.waiting && Inside(s, x) && x !in s.lock.waiting
    ensures p == x
  {
    assert PlacedAt(s, p) && PlacedAt(s, x);
  }

  predicate Accesses(s: State, p: int)
    requires 0 <= p < |s.procs|
  {
    s.procs[p].pc == Advance || (p < s.n && s.procs[p].pc == Copy)
  }

  lemma FifoKept(s: State, p: int)
    requires Sized(s) && Balanced(s) && Placed(s) && Fifo(s) && CanStep(s, p) && InLoop(s, p)
    ensures Fifo(Step(s, p))
  {
    assert PlacedAt(s, p);
    if Accesses(s, p) {
      SlotReady(s, p);
      if s.procs[p].pc == Copy {
        FifoKeptByWrite(s, p);
      } else if p < s.n {
        FifoKeptByInsert(s, p);
      } else {
        FifoKeptByRemove(s, p);
      }
    }
  }

  lemma FifoKeptByWrite(s: State, p: int)
    requires Sized(s) && Fifo(s) && 0 <= p < s.n && s.procs[p].pc == Copy && |Live(s)| < BUFFER_SIZE
    ensures Fifo(Step(s, p))
  {
    Put(s.buffer, s.r, Live(s), s.w, s.procs[p].product);
    assert Live(Step(s, p)) == Live(s) <= Live(s) + [s.procs[p].product];
  }

  lemma FifoKeptByInsert(s: State, p: int)
    requires Sized(s) && Fifo(s) && 0 <= p < s.n && s.procs[p].pc == Advance && |Live(s)| < BUFFER_SIZE
    ensures Fifo(Step(s, p))
  {
    Put(s.buffer, s.r, Live(s), s.w, s.buffer[s.w]);
    assert Live(Step(s, p)) == Live(s) + [s.buffer[s.w]];
    assert s.buffer[s.w := s.buffer[s.w]] == s.buffer;
  }

  lemma FifoKeptByRemove(s: State, p: int)
    requires Sized(s) && Fifo(s) && s.n <= p < 2 * s.n && s.procs[p].pc == Advance && Live(s) != []
    requires s.procs[p].product == s.buffer[s.r]
    ensures Fifo(Step(s, p))
  {
    Take(s.buffer, s.r, Live(s));
    assert Live(Step(s, p)) == Live(s)[1..];
  }

  lemma LoopKept(s: State, p: int, x: int)
    requires Inv(s) && CanStep(s, p) && 0 <= x < 2 * s.n
    ensures InLoop(Step(s, p), x)
  {
    assert InLoop(s, p) && InLoop(s, x) && PlacedAt(s, p) && PlacedAt(s, x);
    if x == p { LoopKeptSelf(s, p); } else { LoopKeptOther(s, p, x); }
  }

  lemma LoopKeptSelf(s: State, p: int)
    requires Sized(s) && CanStep(s, p) && InLoop(s, p) && PlacedAt(s, p)
    ensures InLoop(Step(s, p), p)
  {
    if p < s.n { LoopKeptByProducer(s, p); } else { LoopKeptByConsumer(s, p); }
  }

  lemma LoopKeptByProducer(s: State, p: int)
    requires Sized(s) && CanStep(s, p) && InLoop(s, p) && PlacedAt(s, p) && p < s.n
    ensures InLoop(Produce(s, p), p)
  {
  }

  lemma LoopKeptByConsumer(s: State, p: int)
    requires Sized(s) && CanStep(s, p) && InLoop(s, p) && PlacedAt(s, p) && p >= s.n
    ensures InLoop(Consume(s, p), p)
  {
  }

  /** Nobody else touches the slot a process is looking at. */
  lemma LoopKeptOther(s: State, p: int, x: int)
    requires Sized(s) && CanStep(s, p) && 0 <= x < 2 * s.n && x != p && InLoop(s, x) && Placed(s)
    ensures InLoop(Step(s, p), x)
  {
    assert PlacedAt(s, x) && PlacedAt(s, p);
    if Accesses(s, p) && Inside(s, x) && x !in s.lock.waiting { OneInside(s, p, x); }
  }

  lemma HistoryKept(s: State, p: int)
    requires Sized(s) && History(s) && CanStep(s, p) && InLoop(s, p)
    ensures History(Step(s, p))
  {
    if s.procs[p].pc == Advance {
      if p < s.n {
        StreamsInsert(s.inserted, s.removed, s.tally, s.n, p);
      } else {
        StreamsRemove(s.inserted, s.removed, s.tally, s.n, p);
      }
    }
  }

  lemma InvKept(s: State, p: int)
    requires Inv(s) && CanStep(s, p)
    ensures Inv(Step(s, p))
  {
    assert InLoop(s, p);
    HistoryKept(s, p);
    FullSideKept(s, p);
    EmptySideKept(s, p);
    PlacedKept(s, p);
    assert InLoop(s, p);
    FifoKept(s, p);
    forall x | 0 <= x < 2 * s.n
      ensures InLoop(Step(s, p), x)
    {
      LoopKept(s, p, x);
    }
  }

  // ---- Runs ----

  /** The run `run` of single steps leads from `s` to `t`. */
  ghost predicate LeadsTo(s: State, run: seq<int>, t: State)
    requires Sized(s)
    decreases |run|
  {
    && Sized(t) && t.n == s.n
    && if run == [] then s == t else CanStep(s, run[0]) && LeadsTo(Step(s, run[0]), run[1..], t)
  }

  ghost predicate Reaches(s: State, t: State)
    requires Sized(s)
  {
    exists run :: LeadsTo(s, run, t)
  }

  lemma Stay(s: State)
    requires Sized(s)
    ensures Reaches(s, s)
  {
    assert LeadsTo(s, [], s);
  }

  lemma StepThen(s: State, p: int, t: State)
    requires Sized(s) && CanStep(s, p) && Reaches(Step(s, p), t)
    ensures Reaches(s, t)
  {
    var run :| LeadsTo(Step(s, p), run, t);
    assert ([p] + run)[1..] == run;
    assert LeadsTo(s, [p] + run, t);
  }

  lemma {:induction false} Chain(s: State, run: seq<int>, t: State, u: State)
    requires Sized(s) && LeadsTo(s, run, t) && Reaches(t, u)
    ensures Reaches(s, u)
    decreases |run|
  {
    if run != [] {
      Chain(Step(s, run[0]), run[1..], t, u);
      StepThen(s, run[0], u);
    }
  }

  lemma {:induction false} InvAlong(s: State, run: seq<int>, t: State)
    requires Inv(s) && LeadsTo(s, run, t)
    ensures Inv(t)
    decreases |run|
  {
    if run != [] {
      InvKept(s, run[0]);
      InvAlong(Step(s, run[0]), run[1..], t);
    }
  }

  lemma InvInit(n: nat, buffer: seq<int>)
    requires |buffer| == BUFFER_SIZE
    ensures Inv(Init(n, buffer))
  {
    var s := Init(n, buffer);
    assert FullCredits(s) == seq(2 * n, _ => 0) && EmptyCredits(s) == seq(2 * n, _ => 0);
    SumConst(2 * n, 0);
    StreamsStart(n);
    forall p | 0 <= p < 2 * n
      ensures InLoop(s, p) && PlacedAt(s, p)
    {
      assert s.procs[p] == Proc(Top, 0, 0, []);
      assert s.procs[p].nums == seq(0, i => i);
    }
  }

  ghost predicate Reachable(n: nat, buffer: seq<int>, s: State) {
    |buffer| == BUFFER_SIZE && Reaches(Init(n, buffer), s)
  }

  lemma ReachableInv(n: nat, buffer: seq<int>, s: State)
    requires Reachable(n, buffer, s)
    ensures Inv(s) && s.n == n
  {
    InvInit(n, buffer);
    var run :| LeadsTo(Init(n, buffer), run, s);
    InvAlong(Init(n, buffer), run, s);
  }

  // ---- The results ----

  /**
   The semaphores count the ring in every reachable state: whoever has filled, or is owed, a slot
   makes up the difference. So the ring never holds more than it can, the slots from r on are the
   inserted items still to be removed, and each consumer gets 0, 1, 2, ... in order.
   */
  lemma SlotsAreCounted(n: nat, buffer: seq<int>, s: State)
    requires Reachable(n, buffer, s)
    ensures Sized(s) && s.n == n && Balanced(s)
    ensures 0 <= |s.inserted| - |s.removed| <= BUFFER_SIZE
    ensures s.inserted == s.removed + seq(|s.inserted| - |s.removed|,
                                          i requires i >= 0 => s.buffer[(s.r + i) % BUFFER_SIZE])
    ensures forall p :: n <= p < 2 * n ==> s.procs[p].nums == seq(s.procs[p].index, i => i)
  {
    ReachableInv(n, buffer, s);
    assert s.inserted == s.removed + Live(s);
    forall p | n <= p < 2 * n
      ensures s.procs[p].nums == seq(s.procs[p].index, i => i)
    {
      assert InLoop(s, p);
    }
  }

  /**
   No live slot is overwritten and none is read that was not filled: the next write goes behind the
   last live item of a ring that is not full, the next read takes the first live item.
   */
  lemma AccessesAreSafe(n: nat, buffer: seq<int>, s: State, p: int)
    requires Reachable(n, buffer, s) && CanStep(s, p) && 0 <= p < 2 * n
    requires s.procs[p].pc == Copy || s.procs[p].pc == Advance
    ensures s.lock.pid == p
    ensures p < n ==> |s.inserted| - |s.removed| < BUFFER_SIZE
    ensures p < n ==> s.w == (s.r + (|s.inserted| - |s.removed|)) % BUFFER_SIZE
    ensures p >= n ==> |s.removed| < |s.inserted| && s.buffer[s.r] == s.inserted[|s.removed|] == s.procs[p].index
  {
    ReachableInv(n, buffer, s);
    assert PlacedAt(s, p) && InLoop(s, p);
    SlotReady(s, p);
    if p >= n { Take(s.buffer, s.r, Live(s)); }
  }

  // ---- A consumer asleep with the lock in its hands ----

  lemma SleeperOwnsLock(s: State, c: int)
    requires Inv(s) && c in s.full.waiting
    ensures s.n <= c < 2 * s.n && s.lock.pid == c && s.full == Sem(0, [c])
    ensures Sum(FullCredits(s)) == |Live(s)| + 1 && FullCredits(s)[c] == 1
    ensures forall p :: 0 <= p < 2 * s.n && p != c && Inside(s, p) ==> p in s.lock.waiting
  {
    assert PlacedAt(s, c);
    forall i | 0 <= i < |s.full.waiting|
      ensures s.full.waiting[i] == c
    {
      var d := s.full.waiting[i];
      assert d in s.full.waiting;
      assert PlacedAt(s, d);
    }
    assert s.full.waiting[0] == c;
    DistinctInRange(s.full.waiting, c, c + 1);
    forall p | 0 <= p < 2 * s.n && p != c && Inside(s, p)
      ensures p in s.lock.waiting
    {
      assert PlacedAt(s, p);
    }
  }

  ghost predicate Stuck(s: State, c: int) {
    Inv(s) && c in s.full.waiting && Live(s) == []
  }

  /** With the ring empty nobody owes it a signal, and nobody can get the lock to fill a slot. */
  lemma StuckStays(s: State, c: int, p: int)
    requires Stuck(s, c) && CanStep(s, p)
    ensures Stuck(Step(s, p), c)
  {
    InvKept(s, p);
    SleeperOwnsLock(s, c);
    assert PlacedAt(s, p);
    if FullCredit(s, p) >= 1 {
      SumUpdate(FullCredits(s), c, 0);
      SumUpdate(FullCredits(s)[c := 0], p, 0);
      SumNat(FullCredits(s)[c := 0][p := 0]);
    }
  }

  lemma {:induction false} StuckForEver(s: State, c: int, run: seq<int>, t: State)
    requires Stuck(s, c) && LeadsTo(s, run, t)
    ensures Stuck(t, c)
    decreases |run|
  {
    if run != [] {
      StuckStays(s, c, run[0]);
      StuckForEver(Step(s, run[0]), c, run[1..], t);
    }
  }

  /** With an item in the ring some producer has yet to signal it, and that signal wakes the sleeper. */
  lemma SomeoneWillSignal(s: State, c: int) returns (p: int)
    requires Inv(s) && c in s.full.waiting && Live(s) != []
    ensures CanStep(s, p) && s.procs[p].pc == CallSignal && c !in Step(s, p).full.waiting
  {
    SleeperOwnsLock(s, c);
    SumUpdate(FullCredits(s), c, 0);
    p := SumPositive(FullCredits(s)[c := 0]);
    assert FullCredit(s, p) > 0;
    assert PlacedAt(s, p);
  }

  ghost predicate CanWake(s: State, c: int)
    requires Sized(s)
  {
    exists t :: Reaches(s, t) && c !in t.full.waiting
  }

  /** A consumer asleep on the full slots can be woken if and only if the ring holds an item. */
  lemma WakesIffRingHoldsItem(s: State, c: int)
    requires Inv(s) && c in s.full.waiting
    ensures CanWake(s, c) <==> |s.removed| < |s.inserted|
  {
    if |s.removed| < |s.inserted| {
      var p := SomeoneWillSignal(s, c);
      Stay(Step(s, p));
      StepThen(s, p, Step(s, p));
    } else if t :| Reaches(s, t) && c !in t.full.waiting {
      var run :| LeadsTo(s, run, t);
      StuckForEver(s, c, run, t);
    }
  }

  /**
   The call itself: a consumer that has seen its digit in the head slot and is about to wait comes
   back from sem_wait in some continuation if and only if that digit is really in the ring.
   */
  lemma WaitReturnsIffRingHoldsItem(n: nat, buffer: seq<int>, s: State, c: int)
    requires Reachable(n, buffer, s) && n <= c < 2 * n && CanStep(s, c) && s.procs[c].pc == CallWait
    ensures Sized(Step(s, c)) && (CanWake(Step(s, c), c) <==> |s.removed| < |s.inserted|)
  {
    ReachableInv(n, buffer, s);
    InvKept(s, c);
    var t := Step(s, c);
    if c in t.full.waiting {
      WakesIffRingHoldsItem(t, c);
    } else {
      Stay(t);
      assert |s.removed| < |s.inserted| by {
        assert t.procs[c].pc == Copy;
        SlotReady(t, c);
      }
    }
  }
}
