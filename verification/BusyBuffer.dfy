/** The programs of apps/q2: a bounded buffer polled under one lock. */
module BusyBuffer {
  /*
   Nobody sleeps but in lock_acquire; whoever cannot use the ring releases the lock and tries again.
   Producers are 0..n, consumers n..2n; a step is one system call or one access to shared memory.
   */

  import opened Tally
  import opened Ring
  import opened SyncObjects

  /** `CallLeave` releases the lock empty-handed, `CallRelease` after an item has moved. */
  datatype Pc = Top | Check | Compare | Copy | Advance | CallRelease | Record | CallLeave

  datatype Proc = Proc(pc: Pc, index: nat, product: int, nums: seq<int>)

  /** `found` is what the indices make of the page at the start, `inserted` what the producers have added. */
  datatype State = State(
    n: nat, procs: seq<Proc>, lock: Lock,
    w: int, r: int, buffer: seq<int>,
    found: seq<int>, inserted: seq<int>, removed: seq<int>, tally: seq<nat>)

  ghost predicate Sized(s: State) {
    && |s.procs| == |s.tally| == 2 * s.n
    && |s.buffer| == BUFFER_SIZE
    && 0 <= s.w < BUFFER_SIZE && 0 <= s.r < BUFFER_SIZE
  }

  /** The creating process leaves page and indices as it finds them. */
  function Init(n: nat, w: int, r: int, buffer: seq<int>): State
    requires |buffer| == BUFFER_SIZE
  {
    State(n, seq(2 * n, _ => Proc(Top, 0, 0, [])), Lock(NOBODY, []), w, r, buffer,
          Slots(buffer, r, w), [], [], seq(2 * n, _ => 0))
  }

  ghost predicate Finished(s: State, p: int)
    requires Sized(s) && 0 <= p < 2 * s.n
  {
    s.procs[p].pc == Top && s.procs[p].index >= ITEMS
  }

  ghost predicate CanStep(s: State, p: int)
    requires Sized(s)
  {
    0 <= p < 2 * s.n && p !in s.lock.waiting && !Finished(s, p)
  }

  function Goto(s: State, p: int, pc: Pc): State
    requires 0 <= p < |s.procs|
  {
    s.(procs := s.procs[p := s.procs[p].(pc := pc)])
  }

  function Produce(s: State, p: int): State
    requires Sized(s) && 0 <= p < s.n
  {
    var me := s.procs[p];
    match me.pc
    case Top =>
      s.(procs := s.procs[p := me.(pc := Check, product := me.index)], lock := Acquire(s.lock, p))
    case Check =>
      Goto(s, p, if (s.w + 1) % BUFFER_SIZE == s.r then CallLeave else Copy)
    case Copy =>
      Goto(s, p, Advance).(buffer := s.buffer[s.w := me.product])
    case Advance =>
      Goto(s, p, CallRelease).(w := (s.w + 1) % BUFFER_SIZE,
                               inserted := s.inserted + [s.buffer[s.w]],
                               tally := s.tally[p := s.tally[p] + 1])
    case CallRelease => Goto(s, p, Record).(lock := Release(s.lock, p))
    case Record => s.(procs := s.procs[p := me.(pc := Top, index := me.index + 1)])
    case CallLeave => Goto(s, p, Top).(lock := Release(s.lock, p))
    case Compare => s
  }

  function Consume(s: State, p: int): State
    requires Sized(s) && s.n <= p < 2 * s.n
  {
    var me := s.procs[p];
    match me.pc
    case Top => Goto(s, p, Check).(lock := Acquire(s.lock, p))
    case Check => Goto(s, p, if s.w == s.r then CallLeave else Compare)
    case Compare => Goto(s, p, if s.buffer[s.r] == me.index then Copy else CallLeave)
    case Copy => s.(procs := s.procs[p := me.(pc := Advance, product := s.buffer[s.r])])
    case Advance =>
      Goto(s, p, CallRelease).(r := (s.r + 1) % BUFFER_SIZE,
                               removed := s.removed + [me.product],
                               tally := s.tally[p := s.tally[p] + 1])
    case CallRelease => Goto(s, p, Record).(lock := Release(s.lock, p))
    case Record =>
      s.(procs := s.procs[p := me.(pc := Top, index := me.index + 1, nums := me.nums + [me.product])])
    case CallLeave => Goto(s, p, Top).(lock := Release(s.lock, p))
  }

  function Step(s: State, p: int): (t: State)
    requires Sized(s) && 0 <= p < 2 * s.n
    ensures Sized(t) && t.n == s.n
  {
    if p < s.n then Produce(s, p) else Consume(s, p)
  }

  // ---- What every reachable state keeps ----

  ghost predicate Inside(s: State, p: int)
    requires Sized(s) && 0 <= p < 2 * s.n
  {
    s.procs[p].pc != Top && s.procs[p].pc != Record
  }

  ghost function M(s: State): Monitor {
    Monitor(s.lock, [], [])
  }

  /** A process is in its critical section iff it owns the lock or waits for it; waiting, it has seen nothing yet. */
  ghost predicate ExclusiveAt(s: State, p: int)
    requires Sized(s) && 0 <= p < 2 * s.n
  {
    && (Inside(s, p) <==> Engaged(M(s), p))
    && (p in s.lock.waiting ==> s.procs[p].pc == Check)
    && (p < s.n ==> s.procs[p].pc != Compare)
  }

  ghost predicate Exclusive(s: State)
    requires Sized(s)
  {
    && Sound(M(s))
    && (forall p :: p >= 0 && Engaged(M(s), p) ==> p < 2 * s.n)
    && (forall p :: 0 <= p < 2 * s.n ==> ExclusiveAt(s, p))
  }

  lemma ExclusiveKept(s: State, p: int)
    requires Sized(s) && Exclusive(s) && CanStep(s, p)
    ensures Exclusive(Step(s, p))
  {
    var t := Step(s, p);
    assert ExclusiveAt(s, p);
    match s.procs[p].pc {
      case Top => AcquireEffect(M(s), p);
      case CallRelease => ReleaseEffect(M(s), p);
      case CallLeave => ReleaseEffect(M(s), p);
      case _ => assert t.lock == s.lock;
    }
    if s.lock.waiting != [] { QueueTail(s.lock.waiting); }
    forall x | 0 <= x < 2 * s.n
      ensures ExclusiveAt(t, x)
    {
      assert ExclusiveAt(s, x);
    }
  }

  /** All that has been in the ring, in order. */
  function Stream(s: State): seq<int> { s.found + s.inserted }

  function Live(s: State): seq<int>
    requires |s.removed| <= |Stream(s)|
  {
    Stream(s)[|s.removed|..]
  }

  ghost predicate Fifo(s: State)
    requires Sized(s)
  {
    && |s.found| < BUFFER_SIZE && |s.removed| <= |Stream(s)| < |s.removed| + BUFFER_SIZE
    && s.removed == Stream(s)[..|s.removed|]
    && Holds(s.buffer, s.r, Live(s))
    && s.w == (s.r + |Live(s)|) % BUFFER_SIZE
  }

  /** What the owner of the lock knows about the ring, by where it stands. */
  ghost predicate Informed(s: State)
    requires Sized(s) && |s.removed| <= |Stream(s)|
  {
    var p := s.lock.pid;
    0 <= p < 2 * s.n ==>
      match s.procs[p].pc
      case Compare => Live(s) != []
      case Copy => if p < s.n then |Live(s)| < BUFFER_SIZE - 1 else Live(s) != [] && Live(s)[0] == s.procs[p].index
      case Advance =>
        if p < s.n then |Live(s)| < BUFFER_SIZE - 1 && s.buffer[s.w] == s.procs[p].index
        else Live(s) != [] && Live(s)[0] == s.procs[p].index == s.procs[p].product
      case _ => true
  }

  predicate Moved(pc: Pc) {
    pc == CallRelease || pc == Record
  }

  ghost predicate InLoop(s: State, p: int)
    requires Sized(s) && 0 <= p < 2 * s.n
  {
    var me := s.procs[p];
    && me.index <= ITEMS
    && (me.pc != Top ==> me.index < ITEMS)
    && s.tally[p] == me.index + (if Moved(me.pc) then 1 else 0)
    && (if p < s.n then me.pc != Top ==> me.product == me.index
        else (Moved(me.pc) ==> me.product == me.index) && me.nums == seq(me.index, i => i))
  }

  ghost predicate History(s: State)
    requires Sized(s)
  {
    Streams(s.inserted, s.removed, s.tally, s.n)
  }

  ghost predicate Core(s: State) {
    Sized(s) && Exclusive(s) && Fifo(s) && Informed(s) && forall p :: 0 <= p < 2 * s.n ==> InLoop(s, p)
  }

  ghost predicate Inv(s: State) {
    Core(s) && History(s)
  }

  lemma RunnerOwns(s: State, p: int)
    requires Core(s) && CanStep(s, p)
    ensures InLoop(s, p) && ExclusiveAt(s, p)
    ensures Inside(s, p) <==> s.lock.pid == p
  {
    assert ExclusiveAt(s, p);
  }

  lemma LoopKept(s: State, p: int, x: int)
    requires Core(s) && CanStep(s, p) && 0 <= x < 2 * s.n
    ensures InLoop(Step(s, p), x)
  {
    RunnerOwns(s, p);
    assert InLoop(s, x);
    if p < s.n { assert InLoop(Produce(s, p), x); } else { assert InLoop(Consume(s, p), x); }
  }

  predicate Accesses(s: State, p: int)
    requires 0 <= p < |s.procs|
  {
    s.procs[p].pc == Advance || (p < s.n && s.procs[p].pc == Copy)
  }

  lemma FifoKept(s: State, p: int)
    requires Core(s) && CanStep(s, p)
    ensures Fifo(Step(s, p))
  {
    RunnerOwns(s, p);
    if Accesses(s, p) { FifoKeptByOwner(s, p); }
  }

  lemma FifoKeptByOwner(s: State, p: int)
    requires Core(s) && CanStep(s, p) && Accesses(s, p)
    ensures Fifo(Step(s, p))
  {
    RunnerOwns(s, p);
    if s.procs[p].pc == Copy {
      FifoKeptByWrite(s, p);
    } else if p < s.n {
      FifoKeptByInsert(s, p);
    } else {
      FifoKeptByRemove(s, p);
    }
  }

  lemma FifoKeptByWrite(s: State, p: int)
    requires Sized(s) && Fifo(s) && 0 <= p < s.n && s.procs[p].pc == Copy && |Live(s)| < BUFFER_SIZE - 1
    ensures Fifo(Step(s, p))
  {
    Put(s.buffer, s.r, Live(s), s.w, s.procs[p].product);
    assert Live(Step(s, p)) == Live(s) <= Live(s) + [s.procs[p].product];
  }

  lemma FifoKeptByInsert(s: State, p: int)
    requires Sized(s) && Fifo(s) && 0 <= p < s.n && s.procs[p].pc == Advance && |Live(s)| < BUFFER_SIZE - 1
    ensures Fifo(Step(s, p))
  {
    Put(s.buffer, s.r, Live(s), s.w, s.buffer[s.w]);
    assert Live(Step(s, p)) == Live(s) + [s.buffer[s.w]];
    assert s.buffer[s.w := s.buffer[s.w]] == s.buffer;
  }

  lemma FifoKeptByRemove(s: State, p: int)
    requires Sized(s) && Fifo(s) && s.n <= p < 2 * s.n && s.procs[p].pc == Advance
    requires Live(s) != [] && s.procs[p].product == Live(s)[0]
    ensures Fifo(Step(s, p))
  {
    Take(s.buffer, s.r, Live(s));
    assert Live(Step(s, p)) == Live(s)[1..];
  }

  /** A new owner resumes at its check and presumes nothing. */
  lemma InformedKept(s: State, p: int)
    requires Core(s) && CanStep(s, p)
    ensures Fifo(Step(s, p)) && Informed(Step(s, p))
  {
    FifoKept(s, p);
    RunnerOwns(s, p);
    if Inside(s, p) && s.procs[p].pc != CallLeave && s.procs[p].pc != CallRelease {
      InformedKeptByOwner(s, p);
    } else if s.lock.waiting != [] {
      var q := s.lock.waiting[0];
      assert q in s.lock.waiting && Engaged(M(s), q);
      assert ExclusiveAt(s, q);
    }
  }

  lemma InformedKeptByOwner(s: State, p: int)
    requires Sized(s) && Fifo(s) && Informed(s) && CanStep(s, p) && s.lock.pid == p
    requires InLoop(s, p) && ExclusiveAt(s, p)
    requires Inside(s, p) && s.procs[p].pc != CallLeave && s.procs[p].pc != CallRelease
    requires Fifo(Step(s, p))
    ensures Informed(Step(s, p))
  {
    if Live(s) != [] { Take(s.buffer, s.r, Live(s)); }
    if s.procs[p].pc != Advance { assert Live(Step(s, p)) == Live(s); }
  }

  lemma HistoryKept(s: State, p: int)
    requires Core(s) && History(s) && CanStep(s, p)
    ensures History(Step(s, p))
  {
    RunnerOwns(s, p);
    if s.procs[p].pc == Advance {
      HistoryGrows(s, p);
    } else {
      assert Step(s, p).tally == s.tally;
    }
  }

  lemma HistoryGrows(s: State, p: int)
    requires Sized(s) && History(s) && 0 <= p < 2 * s.n && s.procs[p].pc == Advance
    requires if p < s.n then s.buffer[s.w] == s.tally[p] < ITEMS else s.procs[p].product == s.tally[p] < ITEMS
    ensures History(Step(s, p))
  {
    if p < s.n {
      StreamsInsert(s.inserted, s.removed, s.tally, s.n, p);
    } else {
      StreamsRemove(s.inserted, s.removed, s.tally, s.n, p);
    }
  }

  lemma InvKept(s: State, p: int)
    requires Inv(s) && CanStep(s, p)
    ensures Inv(Step(s, p))
  {
    ExclusiveKept(s, p);
    InformedKept(s, p);
    HistoryKept(s, p);
    forall x | 0 <= x < 2 * s.n
      ensures InLoop(Step(s, p), x)
    {
      LoopKept(s, p, x);
    }
  }

  // ---- Runs ----

  /** The run `run` of single steps leads from `s` to `t`. */
  ghost predicate LeadsTo(s: State, run: seq<int>, t: State)
    requires Sized(s)
    decreases |run|
  {
    && Sized(t) && t.n == s.n
    && if run == [] then s == t else CanStep(s, run[0]) && LeadsTo(Step(s, run[0]), run[1..], t)
  }

  ghost predicate Reaches(s: State, t: State)
    requires Sized(s)
  {
    exists run :: LeadsTo(s, run, t)
  }

  lemma Stay(s: State)
    requires Sized(s)
    ensures Reaches(s, s)
  {
    assert LeadsTo(s, [], s);
  }

  lemma StepThen(s: State, p: int, t: State)
    requires Sized(s) && CanStep(s, p) && Reaches(Step(s, p), t)
    ensures Reaches(s, t)
  {
    var run :| LeadsTo(Step(s, p), run, t);
    assert ([p] + run)[1..] == run;
    assert LeadsTo(s, [p] + run, t);
  }

  lemma {:induction false} Chain(s: State, run: seq<int>, t: State, u: State)
    requires Sized(s) && LeadsTo(s, run, t) && Reaches(t, u)
    ensures Reaches(s, u)
    decreases |run|
  {
    if run != [] {
      Chain(Step(s, run[0]), run[1..], t, u);
      StepThen(s, run[0], u);
    }
  }

  lemma {:induction false} InvAlong(s: State, run: seq<int>, t: State)
    requires Inv(s) && LeadsTo(s, run, t)
    ensures Inv(t)
    decreases |run|
  {
    if run != [] {
      InvKept(s, run[0]);
      InvAlong(Step(s, run[0]), run[1..], t);
    }
  }

  /** Neither does any run change what was found. */
  lemma {:induction false} FoundStays(s: State, run: seq<int>, t: State)
    requires Sized(s) && LeadsTo(s, run, t)
    ensures t.found == s.found
    decreases |run|
  {
    if run != [] { FoundStays(Step(s, run[0]), run[1..], t); }
  }

  /** The ring as it may be found: any page, and any two indices into it. */
  predicate Page(w: int, r: int, buffer: seq<int>) {
    |buffer| == BUFFER_SIZE && 0 <= w < BUFFER_SIZE && 0 <= r < BUFFER_SIZE
  }

  lemma InvInit(n: nat, w: int, r: int, buffer: seq<int>)
    requires Page(w, r, buffer)
    ensures Inv(Init(n, w, r, buffer))
  {
    var s := Init(n, w, r, buffer);
    StreamsStart(n);
    SlotsHold(buffer, r, w);
    assert Live(s) == Slots(buffer, r, w);
    forall p | 0 <= p < 2 * n
      ensures InLoop(s, p)
    {
      assert s.procs[p] == Proc(Top, 0, 0, []);
      assert s.procs[p].nums == seq(0, i => i);
    }
  }

  ghost predicate Reachable(n: nat, w: int, r: int, buffer: seq<int>, s: State) {
    Page(w, r, buffer) && Reaches(Init(n, w, r, buffer), s)
  }

  lemma ReachableInv(n: nat, w: int, r: int, buffer: seq<int>, s: State)
    requires Reachable(n, w, r, buffer, s)
    ensures Inv(s) && s.n == n && s.found == Slots(buffer, r, w)
  {
    var i := Init(n, w, r, buffer);
    InvInit(n, w, r, buffer);
    var run :| LeadsTo(i, run, s);
    InvAlong(i, run, s);
    FoundStays(i, run, s);
  }

  // ---- The results ----

  /**
   Whenever the indices agreed at the start and the ring is not empty, some unfinished consumer
   expects exactly the digit at its head.
   */
  lemma SomeoneWantsHead(s: State) returns (c: int)
    requires Inv(s) && s.found == [] && Live(s) != []
    ensures s.n <= c < 2 * s.n && s.tally[c] == Live(s)[0] < ITEMS
  {
    assert Stream(s) == s.inserted;
    c := SomeoneWantsNext(s.inserted, s.removed, s.tally, s.n);
  }

  /** First in, first out, from whatever the ring held, and each consumer's items are 0, 1, 2, ... in order. */
  lemma RingIsFifo(n: nat, w: int, r: int, buffer: seq<int>, s: State)
    requires Reachable(n, w, r, buffer, s)
    ensures Sized(s) && Slots(buffer, r, w) + s.inserted == s.removed + Slots(s.buffer, s.r, s.w)
    ensures forall p :: n <= p < 2 * n ==> s.procs[p].nums == seq(s.procs[p].index, i => i)
  {
    ReachableInv(n, w, r, buffer, s);
    SlotsAreLive(s.buffer, s.r, Live(s), s.w);
    assert Stream(s) == s.removed + Live(s);
    forall p | n <= p < 2 * n
      ensures s.procs[p].nums == seq(s.procs[p].index, i => i)
    {
      assert InLoop(s, p);
    }
  }
}
