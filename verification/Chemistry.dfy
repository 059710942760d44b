/** The programs of apps/q5: reactions between molecules counted by semaphores. */
module Chemistry {
  /*
   Two injectors and three reactions pass molecules to each other over one semaphore per kind of
   molecule, and the creating process waits for all five. A step is one call of sem_wait or
   sem_signal; a process asleep already stands behind the wait that suspended it.
   */

  import opened Common
  import opened SyncObjects

  const N3 := 0
  const H2O := 1
  const N := 2
  const H2 := 3
  const O2 := 4
  const NO2 := 5

  // The processes: the injectors of N3 and H2O, the three reactions, and the process that made them.
  const I_N3 := 0
  const I_H2O := 1
  const R1 := 2
  const R2 := 3
  const R3 := 4
  const MAIN := 5
  const WORKERS := 5

  /** `pc` counts the calls made in the current round; `left` the rounds still to do. */
  datatype Proc = Proc(pc: nat, left: nat, done: bool)

  datatype State = State(molecules: seq<Sem>, completed: Sem, procs: seq<Proc>)

  /** C's division of a possibly negative count by two. */
  function Half(x: int): int { if x < 0 then -((-x) / 2) else x / 2 }

  /** How often a loop runs that counts `x` down while it is positive. */
  function Times(x: int): nat { if x > 0 then x else 0 }

  /** The loop counts makeprocs hands to the five workers for `a` molecules of N3 and `h` of H2O. */
  function Counts(a: int, h: int): seq<int> {
    var r2 := Half(h);
    [a, h, a, r2, if 3 * a > r2 then r2 else 3 * a]
  }

  function Rounds(a: int, h: int): (e: seq<nat>)
    ensures |e| == WORKERS
  {
    seq(WORKERS, i requires 0 <= i < WORKERS => Times(Counts(a, h)[i]))
  }

  /** The counts as 32-bit ints: only the product can leave the range. */
  function IntCounts(a: int, h: int): seq<int> {
    var r2 := Half(h);
    [a, h, a, r2, if Wrap(3 * a) > r2 then r2 else Wrap(3 * a)]
  }

  /**
   The loops run as often as intended exactly when the product fits, or what it wraps to does no harm:
   for too many N3 it is no less than the number of second reactions, for too large a negative count
   one of the two is not positive, or there is no second reaction at all.
   */
  lemma IntCountsExactly(a: int, h: int)
    requires IsInt(a) && IsInt(h)
    ensures (forall p :: 0 <= p < WORKERS ==> Times(IntCounts(a, h)[p]) == Times(Counts(a, h)[p]))
       <==> (IsInt(3 * a) || Half(h) <= 0 || (if a > 0 then Wrap(3 * a) >= Half(h) else Wrap(3 * a) <= 0))
  {
    var r2, w := Half(h), Wrap(3 * a);
    assert IntCounts(a, h)[R3] == if w > r2 then r2 else w;
    assert Counts(a, h)[R3] == if 3 * a > r2 then r2 else 3 * a;
  }

  function Init(e: seq<nat>): State
    requires |e| == WORKERS
  {
    State([Sem(0, []), Sem(0, []), Sem(0, []), Sem(0, []), Sem(0, []), Sem(0, [])], Sem(-(WORKERS - 1), []),
          [Proc(0, e[0], false), Proc(0, e[1], false), Proc(0, e[2], false), Proc(0, e[3], false),
           Proc(0, e[4], false), Proc(0, 0, false)])
  }

  datatype Call = WaitFor(m: int) | SignalTo(m: int)

  /** Calls a worker makes in one round. */
  function CallsPerRound(p: int): (n: nat)
    ensures n >= 1
  {
    if p == R1 then 4 else if p == R2 then 5 else if p == R3 then 3 else 1
  }

  /** Call number `i` of a round. */
  function CallOf(p: int, i: int): (c: Call)
    ensures 0 <= c.m < 6
  {
    if p == I_N3 then SignalTo(N3)
    else if p == I_H2O then SignalTo(H2O)
    else if p == R1 then if i == 0 then WaitFor(N3) else SignalTo(N)
    else if p == R2 then if i < 2 then WaitFor(H2O) else if i < 4 then SignalTo(H2) else SignalTo(O2)
    else if i == 0 then WaitFor(N) else if i == 1 then WaitFor(O2) else SignalTo(NO2)
  }

  predicate Sized(s: State) {
    && |s.molecules| == 6 && |s.procs| == 6
    && forall p :: 0 <= p < WORKERS ==>
         s.procs[p].pc < CallsPerRound(p) && (s.procs[p].left == 0 ==> s.procs[p].pc == 0)
  }

  predicate AsleepOn(s: State, p: int, m: int) {
    0 <= m < |s.molecules| && p in s.molecules[m].waiting
  }

  predicate Asleep(s: State, p: int) {
    p in s.completed.waiting || exists m :: 0 <= m < |s.molecules| && AsleepOn(s, p, m)
  }

  predicate CanStep(s: State, p: int)
    requires Sized(s)
  {
    0 <= p < 6 && !Asleep(s, p) && !s.procs[p].done
  }

  function Perform(molecules: seq<Sem>, c: Call, p: int): seq<Sem>
    requires 0 <= c.m < |molecules|
  {
    molecules[c.m := if c.WaitFor? then SemWait(molecules[c.m], p) else SemSignal(molecules[c.m])]
  }

  /** The next call of process `p`, or, when its rounds are over, the signal that it is done. */
  function Step(s: State, p: int): (t: State)
    requires Sized(s) && 0 <= p < 6
    ensures Sized(t)
  {
    var me := s.procs[p];
    if p == MAIN then
      s.(completed := SemWait(s.completed, MAIN), procs := s.procs[p := me.(done := true)])
    else if me.left == 0 then
      s.(completed := SemSignal(s.completed), procs := s.procs[p := me.(done := true)])
    else
      var next := if me.pc + 1 == CallsPerRound(p) then me.(pc := 0, left := me.left - 1) else me.(pc := me.pc + 1);
      s.(molecules := Perform(s.molecules, CallOf(p, me.pc), p), procs := s.procs[p := next])
  }

  // ---- Runs ----

  ghost predicate LeadsTo(s: State, run: seq<int>, t: State)
    requires Sized(s)
    decreases |run|
  {
    if run == [] then s == t
    else CanStep(s, run[0]) && LeadsTo(Step(s, run[0]), run[1..], t)
  }

  ghost predicate Ended(s: State)
    requires Sized(s)
  {
    forall p :: !CanStep(s, p)
  }

  // ---- Accounting ----

  /** Rounds process `p` has completed, of the `e[p]` it is to do. */
  function Completed(e: seq<nat>, s: State, p: nat): int
    requires p < |e| && p < |s.procs|
  {
    e[p] - s.procs[p].left
  }

  /** Signals sent so far for molecule `m`. */
  function Produced(e: seq<nat>, s: State, m: int): int
    requires |e| == WORKERS && |s.procs| == 6
  {
    if m == N3 then Completed(e, s, I_N3)
    else if m == H2O then Completed(e, s, I_H2O)
    else if m == N then 3 * Completed(e, s, R1) + Max(0, s.procs[R1].pc - 1)
    else if m == H2 then 2 * Completed(e, s, R2) + Max(0, s.procs[R2].pc - 2)
    else if m == O2 then Completed(e, s, R2)
    else Completed(e, s, R3)
  }

  /** Waits called so far for molecule `m`. */
  function Asked(e: seq<nat>, s: State, m: int): int
    requires |e| == WORKERS && |s.procs| == 6
  {
    if m == N3 then Completed(e, s, R1) + Min(1, s.procs[R1].pc)
    else if m == H2O then 2 * Completed(e, s, R2) + Min(2, s.procs[R2].pc)
    else if m == N then Completed(e, s, R3) + Min(1, s.procs[R3].pc)
    else if m == O2 then Completed(e, s, R3) + Max(0, s.procs[R3].pc - 1)
    else 0
  }

  function Taker(m: int): int {
    if m == N3 then R1 else if m == H2O then R2 else R3
  }

  /** The last call of process `p` was a wait for molecule `m`. */
  predicate JustAsked(s: State, p: int, m: int)
    requires Sized(s)
  {
    0 <= p < WORKERS && s.procs[p].pc > 0 && CallOf(p, s.procs[p].pc - 1) == WaitFor(m)
  }

  predicate InBalance(e: seq<nat>, s: State, m: int)
    requires |e| == WORKERS && Sized(s) && 0 <= m < 6
  {
    var k := s.molecules[m];
    && k.count == Produced(e, s, m) - Asked(e, s, m) + |k.waiting|
    && k.count >= 0
    && (k.waiting != [] ==> k.waiting == [Taker(m)] && k.count == 0 && JustAsked(s, Taker(m), m))
  }

  function Finished(s: State, p: nat): nat
    requires p < |s.procs|
  {
    if s.procs[p].done then 1 else 0
  }

  /** The completion semaphore: the fifth signal releases the creating process. */
  predicate BarrierKept(s: State)
    requires Sized(s)
  {
    var signals := Finished(s, 0) + Finished(s, 1) + Finished(s, 2) + Finished(s, 3) + Finished(s, 4);
    var k := s.completed;
    if k.waiting != [] then k.waiting == [MAIN] && s.procs[MAIN].done && k.count == signals - (WORKERS - 1) <= 0
    else if s.procs[MAIN].done then signals == WORKERS && k.count == 0
    else k.count == signals - (WORKERS - 1)
  }

  predicate Within(e: seq<nat>, s: State, p: int)
    requires |e| == WORKERS && Sized(s) && 0 <= p < WORKERS
  {
    s.procs[p].left <= e[p] && (s.procs[p].done ==> s.procs[p].left == 0)
  }

  predicate Inv(e: seq<nat>, s: State) {
    && |e| == WORKERS && Sized(s) && s.procs[MAIN].pc == s.procs[MAIN].left == 0
    && (forall p :: 0 <= p < WORKERS ==> Within(e, s, p))
    && (forall m :: 0 <= m < 6 ==> InBalance(e, s, m))
    && BarrierKept(s)
  }

  lemma InvInit(e: seq<nat>)
    requires |e| == WORKERS
    ensures Inv(e, Init(e))
  {
  }

  /** Every call keeps the accounts of all six molecules. */
  lemma BalanceKept(e: seq<nat>, s: State, p: int, m: int)
    requires |e| == WORKERS && Sized(s) && 0 <= m < 6 && InBalance(e, s, m)
    requires 0 <= p < 6 && p !in s.molecules[m].waiting
    ensures InBalance(e, Step(s, p), m)
  {
    if 0 <= p < WORKERS && s.procs[p].left > 0 && CallOf(p, s.procs[p].pc).m == m {
      if CallOf(p, s.procs[p].pc).WaitFor? {
        WaitKeepsBalance(e, s, p, m);
      } else {
        SignalKeepsBalance(e, s, p, m);
      }
    } else {
      OthersKeepBalance(e, s, p, m);
    }
  }

  lemma OthersKeepBalance(e: seq<nat>, s: State, p: int, m: int)
    requires |e| == WORKERS && Sized(s) && 0 <= m < 6 && InBalance(e, s, m)
    requires 0 <= p < 6 && p !in s.molecules[m].waiting
    requires 0 <= p < WORKERS && s.procs[p].left > 0 ==> CallOf(p, s.procs[p].pc).m != m
    ensures InBalance(e, Step(s, p), m)
  {
    var k := s.molecules[m];
    if k.waiting != [] { assert Taker(m) in k.waiting && p != Taker(m); }
    if 0 <= p < WORKERS && s.procs[p].left > 0 {
      assert Step(s, p).molecules[m] == k;
      assert Produced(e, Step(s, p), m) == Produced(e, s, m) && Asked(e, Step(s, p), m) == Asked(e, s, m);
    }
  }

  lemma WaitKeepsBalance(e: seq<nat>, s: State, p: int, m: int)
    requires |e| == WORKERS && Sized(s) && 0 <= m < 6 && InBalance(e, s, m)
    requires 0 <= p < WORKERS && p !in s.molecules[m].waiting
    requires s.procs[p].left > 0 && CallOf(p, s.procs[p].pc) == WaitFor(m)
    ensures InBalance(e, Step(s, p), m)
  {
    assert p in [p] && Taker(m) == p;
  }

  lemma SignalKeepsBalance(e: seq<nat>, s: State, p: int, m: int)
    requires |e| == WORKERS && Sized(s) && 0 <= m < 6 && InBalance(e, s, m)
    requires 0 <= p < WORKERS && p !in s.molecules[m].waiting
    requires s.procs[p].left > 0 && CallOf(p, s.procs[p].pc) == SignalTo(m)
    ensures InBalance(e, Step(s, p), m)
  {
    var k := s.molecules[m];
    if k.waiting != [] { assert Taker(m) in k.waiting; }
  }

  lemma BarrierStep(e: seq<nat>, s: State, p: int)
    requires |e| == WORKERS && Sized(s) && BarrierKept(s) && 0 <= p < 6 && !s.procs[p].done
    ensures BarrierKept(Step(s, p))
  {
  }

  lemma InvKept(e: seq<nat>, s: State, p: int)
    requires Inv(e, s) && CanStep(s, p)
    ensures Inv(e, Step(s, p))
  {
    forall m | 0 <= m < 6
      ensures InBalance(e, Step(s, p), m)
    {
      assert InBalance(e, s, m);
      assert AsleepOn(s, p, m) ==> Asleep(s, p);
      BalanceKept(e, s, p, m);
    }
    BarrierStep(e, s, p);
    forall q | 0 <= q < WORKERS
      ensures Within(e, Step(s, p), q)
    {
      assert Within(e, s, q);
    }
  }

  lemma {:induction false} InvAlong(e: seq<nat>, s: State, run: seq<int>, t: State)
    requires Inv(e, s) && LeadsTo(s, run, t)
    ensures Inv(e, t)
    decreases |run|
  {
    if run != [] {
      InvKept(e, s, run[0]);
      InvAlong(e, Step(s, run[0]), run[1..], t);
    }
  }

  /** Up to 715827882 molecules of N3, and as many of H2O as an int can count, no count of a semaphore leaves an int. */
  lemma SemaphoresStayInt(a: int, h: int, run: seq<int>, t: State, m: int)
    requires LeadsTo(Init(Rounds(a, h)), run, t) && 0 <= m < 6
    requires a <= 7_1582_7882 && IsInt(h)
    ensures Sized(t) && IsInt(t.molecules[m].count)
  {
    var e := Rounds(a, h);
    RoundsFeasible(a, h);
    InvInit(e);
    InvAlong(e, Init(e), run, t);
    assert InBalance(e, t, m);
    assert forall p :: 0 <= p < WORKERS ==> Within(e, t, p);
    ProducedBounded(e, t, m);
  }

  lemma ProducedBounded(e: seq<nat>, s: State, m: int)
    requires Inv(e, s) && 0 <= m < 6
    ensures Produced(e, s, m) - Asked(e, s, m) + |s.molecules[m].waiting|
         <= if m == N then 3 * e[R1] else if m == H2 then 2 * e[R2] else if m == H2O then e[I_H2O]
            else if m == N3 then e[I_N3] else if m == O2 then e[R2] else e[R3]
  {
    assert Within(e, s, I_N3) && Within(e, s, I_H2O) && Within(e, s, R1) && Within(e, s, R2) && Within(e, s, R3);
    assert InBalance(e, s, m);
  }

  // ---- Every run has the same length ----

  function CallsLeft(s: State, p: int): int
    requires Sized(s) && 0 <= p < 6
  {
    (if p == MAIN then 0 else s.procs[p].left * CallsPerRound(p) - s.procs[p].pc) + if s.procs[p].done then 0 else 1
  }

  function Remaining(s: State): int
    requires Sized(s)
  {
    CallsLeft(s, 0) + CallsLeft(s, 1) + CallsLeft(s, 2) + CallsLeft(s, 3) + CallsLeft(s, 4) + CallsLeft(s, 5)
  }

  lemma CallsLeftStep(s: State, p: int, q: int)
    requires Sized(s) && 0 <= p < 6 && 0 <= q < 6 && !s.procs[p].done
    ensures CallsLeft(Step(s, p), q) == CallsLeft(s, q) - if p == q then 1 else 0
  {
    var me := s.procs[p];
    if p == q < WORKERS && me.left > 0 {
      var n := CallsPerRound(p);
      assert me.left * n == (me.left - 1) * n + n;
    }
  }

  lemma OneCallLess(s: State, p: int)
    requires Sized(s) && CanStep(s, p)
    ensures Remaining(Step(s, p)) == Remaining(s) - 1
  {
    CallsLeftStep(s, p, 0);
    CallsLeftStep(s, p, 1);
    CallsLeftStep(s, p, 2);
    CallsLeftStep(s, p, 3);
    CallsLeftStep(s, p, 4);
    CallsLeftStep(s, p, 5);
  }

  lemma {:induction false} RunShortens(s: State, run: seq<int>, t: State)
    requires Sized(s) && LeadsTo(s, run, t)
    ensures Sized(t) && Remaining(t) == Remaining(s) - |run|
    decreases |run|
  {
    if run != [] {
      OneCallLess(s, run[0]);
      RunShortens(Step(s, run[0]), run[1..], t);
    }
  }

  // ---- Nobody is left waiting ----

  /** The rounds are such that the atmosphere holds enough for every reaction. */
  predicate Feasible(e: seq<nat>) {
    && |e| == WORKERS
    && e[R1] <= e[I_N3] && 2 * e[R2] <= e[I_H2O] && e[R3] <= 3 * e[R1] && e[R3] <= e[R2]
  }

  lemma RoundsFeasible(a: int, h: int)
    ensures Feasible(Rounds(a, h))
    ensures Rounds(a, h) == [Times(a), Times(h), Times(a), Times(h) / 2, Min(3 * Times(a), Times(h) / 2)]
  {
  }

  /** A worker sleeps only on a molecule it takes, alone, behind its own wait. */
  lemma WhereAsleep(e: seq<nat>, s: State, p: int) returns (m: int)
    requires Inv(e, s) && 0 <= p < WORKERS && Asleep(s, p)
    ensures 0 <= m < 6 && p == Taker(m) && s.molecules[m] == Sem(0, [p]) && JustAsked(s, p, m)
  {
    assert p !in s.completed.waiting;
    m :| 0 <= m < |s.molecules| && AsleepOn(s, p, m);
    assert InBalance(e, s, m);
  }

  lemma MakerSleepsOnBarrier(e: seq<nat>, s: State)
    requires Inv(e, s)
    ensures Asleep(s, MAIN) <==> MAIN in s.completed.waiting
  {
    forall m | 0 <= m < |s.molecules|
      ensures !AsleepOn(s, MAIN, m)
    {
      assert InBalance(e, s, m);
    }
  }

  /** A worker that cannot step although it has rounds to do waits for a molecule nobody will lack. */
  lemma WorkerMoves(e: seq<nat>, s: State, p: int)
    requires Inv(e, s) && Feasible(e) && 0 <= p < WORKERS && !s.procs[p].done
    requires forall q :: 0 <= q < p ==> s.procs[q].done
    ensures !Asleep(s, p)
  {
    if Asleep(s, p) {
      var m := WhereAsleep(e, s, p);
      assert InBalance(e, s, m);
      forall q | 0 <= q < p
        ensures s.procs[q].left == 0 && s.procs[q].pc == 0
      {
        assert Within(e, s, q);
      }
    }
  }

  lemma EndedMeansDone(e: seq<nat>, s: State)
    requires Inv(e, s) && Feasible(e) && Ended(s)
    ensures forall p :: 0 <= p < 6 ==> s.procs[p] == Proc(0, 0, true)
    ensures s.completed == Sem(0, [])
  {
    WorkersDone(e, s, WORKERS - 1);
    forall p | 0 <= p < WORKERS
      ensures s.procs[p] == Proc(0, 0, true)
    {
      assert Within(e, s, p);
    }
    assert !CanStep(s, MAIN);
    MakerSleepsOnBarrier(e, s);
  }

  lemma {:induction false} WorkersDone(e: seq<nat>, s: State, p: nat)
    requires Inv(e, s) && Feasible(e) && Ended(s) && p < WORKERS
    ensures forall q :: 0 <= q <= p ==> s.procs[q].done
  {
    if p > 0 { WorkersDone(e, s, p - 1); }
    assert !CanStep(s, p);
    if !s.procs[p].done { WorkerMoves(e, s, p); }
  }

  // ---- The outcome ----

  /** What is left of `a` molecules of N3 and `h` of H2O when everything has reacted. */
  function Final(a: nat, h: nat): State {
    var no2 := Min(3 * a, h / 2);
    State([Sem(0, []), Sem(h % 2, []), Sem(3 * a - no2, []), Sem(2 * (h / 2), []), Sem(h / 2 - no2, []), Sem(no2, [])],
          Sem(0, []), seq(6, _ => Proc(0, 0, true)))
  }

  /** Calls in a complete run: five workers' rounds, and one on the completion semaphore by each of the six. */
  function Length(a: nat, h: nat): nat {
    a + h + 4 * a + 5 * (h / 2) + 3 * Min(3 * a, h / 2) + 6
  }

  /**
   Whatever the counts given (a negative one injects nothing) and whatever the interleaving, a run
   that cannot go on has made the same number of calls and ends in the same state: all five workers
   are done, the creating process has been released, and the atmosphere is the same.
   */
  lemma UniqueOutcome(a: int, h: int, run: seq<int>, t: State)
    requires LeadsTo(Init(Rounds(a, h)), run, t) && Sized(t) && Ended(t)
    ensures t == Final(Times(a), Times(h)) && |run| == Length(Times(a), Times(h))
  {
    var e := Rounds(a, h);
    RoundsFeasible(a, h);
    InvInit(e);
    InvAlong(e, Init(e), run, t);
    EndedMeansDone(e, t);
    RunShortens(Init(e), run, t);
    FinalMolecules(e, t, Times(a), Times(h));
    assert t.procs == seq(6, _ => Proc(0, 0, true));
    StartLength(a, h);
  }

  lemma StartLength(a: int, h: int)
    ensures Remaining(Init(Rounds(a, h))) == Length(Times(a), Times(h))
  {
    RoundsFeasible(a, h);
  }

  lemma FinalMolecules(e: seq<nat>, t: State, a: nat, h: nat)
    requires Inv(e, t) && e == [a, h, a, h / 2, Min(3 * a, h / 2)]
    requires forall p :: 0 <= p < 6 ==> t.procs[p] == Proc(0, 0, true)
    ensures t.molecules == Final(a, h).molecules
  {
    forall m | 0 <= m < 6
      ensures t.molecules[m] == Final(a, h).molecules[m]
    {
      assert InBalance(e, t, m);
    }
  }

  /** No run is longer than that, and one that is shorter can go on: every run ends, and ends there. */
  lemma EveryRunEnds(a: int, h: int, run: seq<int>, t: State)
    requires LeadsTo(Init(Rounds(a, h)), run, t)
    ensures |run| <= Length(Times(a), Times(h))
    ensures Sized(t) && (|run| == Length(Times(a), Times(h)) <==> Ended(t))
  {
    var e := Rounds(a, h);
    RoundsFeasible(a, h);
    InvInit(e);
    InvAlong(e, Init(e), run, t);
    RunShortens(Init(e), run, t);
    StartLength(a, h);
    forall p | 0 <= p < 6
      ensures CallsLeft(t, p) >= 0 && (CallsLeft(t, p) == 0 ==> t.procs[p].done)
    {
      CallsLeftNat(t, p);
    }
    if Ended(t) { UniqueOutcome(a, h, run, t); }
    if |run| == Length(Times(a), Times(h)) {
      assert forall p :: 0 <= p < 6 ==> CallsLeft(t, p) == 0;
    }
  }

  lemma CallsLeftNat(s: State, p: int)
    requires Sized(s) && 0 <= p < 6
    ensures CallsLeft(s, p) >= 0 && (CallsLeft(s, p) == 0 ==> s.procs[p].done)
  {
    if p < WORKERS && s.procs[p].left > 0 {
      assert s.procs[p].left * CallsPerRound(p) == (s.procs[p].left - 1) * CallsPerRound(p) + CallsPerRound(p);
    }
  }

  /** The creating process gets past its wait only after all five workers have made all their calls. */
  lemma ReleasedLast(a: int, h: int, run: seq<int>, t: State)
    requires LeadsTo(Init(Rounds(a, h)), run, t)
    ensures Sized(t)
    ensures t.procs[MAIN].done && !Asleep(t, MAIN) ==> t == Final(Times(a), Times(h))
  {
    var e := Rounds(a, h);
    RoundsFeasible(a, h);
    InvInit(e);
    InvAlong(e, Init(e), run, t);
    if t.procs[MAIN].done && !Asleep(t, MAIN) {
      assert forall p :: 0 <= p < WORKERS ==> Within(e, t, p) && t.procs[p].done;
      UniqueOutcome(a, h, run, t);
    }
  }

  // ---- Conservation ----

  datatype Atom = Nitrogen | Hydrogen | Oxygen

  /** The atoms of kind `x` in one molecule of `m`. */
  function Atoms(x: Atom, m: int): int {
    match x
    case Nitrogen => if m == N3 then 3 else if m == N || m == NO2 then 1 else 0
    case Hydrogen => if m == H2O || m == H2 then 2 else 0
    case Oxygen => if m == H2O then 1 else if m == O2 || m == NO2 then 2 else 0
  }

  /** What the first `i` calls of a round bring process `p`, less what they give away. */
  function Gained(x: Atom, p: int, i: nat): int {
    if i == 0 then 0 else Gained(x, p, i - 1) + Gain(x, CallOf(p, i - 1))
  }

  function Gain(x: Atom, c: Call): int {
    if c.WaitFor? then Atoms(x, c.m) else -Atoms(x, c.m)
  }

  /**
   The atoms process `p` has in hand: what an injector has still to release, or what a reaction has
   taken and not yet given.
   */
  function Held(s: State, x: Atom, p: int): int
    requires Sized(s) && 0 <= p < WORKERS
  {
    if p == I_N3 then s.procs[p].left * Atoms(x, N3)
    else if p == I_H2O then s.procs[p].left * Atoms(x, H2O)
    else
      Gained(x, p, s.procs[p].pc)
      - (if s.procs[p].pc > 0 && Asleep(s, p) then Atoms(x, CallOf(p, s.procs[p].pc - 1).m) else 0)
  }

  function InAir(s: State, x: Atom): int
    requires |s.molecules| == 6
  {
    s.molecules[N3].count * Atoms(x, N3) + s.molecules[H2O].count * Atoms(x, H2O) + s.molecules[N].count * Atoms(x, N)
    + s.molecules[H2].count * Atoms(x, H2) + s.molecules[O2].count * Atoms(x, O2)
    + s.molecules[NO2].count * Atoms(x, NO2)
  }

  function InHand(s: State, x: Atom): int
    requires Sized(s)
  {
    Held(s, x, I_N3) + Held(s, x, I_H2O) + Held(s, x, R1) + Held(s, x, R2) + Held(s, x, R3)
  }

  /** Whether the molecule of the last call is still awaited. */
  function Awaited(s: State, m: int): int
    requires |s.molecules| == 6 && 0 <= m < 6
  {
    |s.molecules[m].waiting|
  }

  lemma AsleepOnOwn(e: seq<nat>, s: State, p: int, m: int)
    requires Inv(e, s) && R1 <= p <= R3 && JustAsked(s, p, m)
    ensures 0 <= m < 6 && Awaited(s, m) == if Asleep(s, p) then 1 else 0
  {
    assert InBalance(e, s, m);
    assert AsleepOn(s, p, m) ==> Asleep(s, p);
    if Asleep(s, p) { var k := WhereAsleep(e, s, p); }
  }

  /** Which of its molecules a reaction is still waiting for. */
  predicate AwaitedBy(s: State, p: int)
    requires Sized(s) && R1 <= p <= R3
  {
    var pc := s.procs[p].pc;
    var asleep := Asleep(s, p);
    && (asleep ==> pc > 0 && CallOf(p, pc - 1).WaitFor?)
    && (p == R1 ==> Awaited(s, N3) == if asleep then 1 else 0)
    && (p == R2 ==> Awaited(s, H2O) == if asleep then 1 else 0)
    && (p == R3 ==> Awaited(s, N) == if asleep && pc == 1 then 1 else 0)
    && (p == R3 ==> Awaited(s, O2) == if asleep && pc == 2 then 1 else 0)
  }

  lemma AwaitedByReaction(e: seq<nat>, s: State, p: int)
    requires Inv(e, s) && R1 <= p <= R3
    ensures AwaitedBy(s, p)
  {
    var pc := s.procs[p].pc;
    assert InBalance(e, s, N3) && InBalance(e, s, H2O) && InBalance(e, s, N) && InBalance(e, s, O2);
    if pc > 0 && CallOf(p, pc - 1).WaitFor? {
      AsleepOnOwn(e, s, p, CallOf(p, pc - 1).m);
    } else if Asleep(s, p) {
      var m := WhereAsleep(e, s, p);
    }
  }

  /** What a reaction holds: the molecules its calls have asked for and been given, less those it has produced. */
  lemma HeldByReaction(s: State, x: Atom, p: int)
    requires Sized(s) && R1 <= p <= R3 && AwaitedBy(s, p)
    ensures Held(s, x, p) == HeldOf(s, x, p) && Held(s, x, p) >= 0
  {
    GainedSoFar(x, p, s.procs[p].pc);
  }

  function HeldOf(s: State, x: Atom, p: int): int
    requires Sized(s) && R1 <= p <= R3
  {
    var pc := s.procs[p].pc;
    if p == R1 then (Min(1, pc) - Awaited(s, N3)) * Atoms(x, N3) - Max(0, pc - 1) * Atoms(x, N)
    else if p == R2 then (Min(2, pc) - Awaited(s, H2O)) * Atoms(x, H2O) - Max(0, pc - 2) * Atoms(x, H2)
    else (Min(1, pc) - Awaited(s, N)) * Atoms(x, N) + (Max(0, pc - 1) - Awaited(s, O2)) * Atoms(x, O2)
  }

  lemma GainedSoFar(x: Atom, p: int, pc: nat)
    requires R1 <= p <= R3 && pc < CallsPerRound(p)
    ensures Gained(x, p, pc)
         == if p == R1 then Min(1, pc) * Atoms(x, N3) - Max(0, pc - 1) * Atoms(x, N)
            else if p == R2 then Min(2, pc) * Atoms(x, H2O) - Max(0, pc - 2) * Atoms(x, H2)
            else Min(1, pc) * Atoms(x, N) + Max(0, pc - 1) * Atoms(x, O2)
  {
    if pc > 0 { GainedSoFar(x, p, pc - 1); }
  }

  lemma AtomsAccounted(e: seq<nat>, s: State, x: Atom)
    requires Inv(e, s) && e[R1] == e[I_N3]
    ensures InAir(s, x) + InHand(s, x) == e[I_N3] * Atoms(x, N3) + e[I_H2O] * Atoms(x, H2O)
    ensures forall p :: 0 <= p < WORKERS ==> Held(s, x, p) >= 0
  {
    assert InBalance(e, s, N3) && InBalance(e, s, H2O) && InBalance(e, s, N);
    assert InBalance(e, s, H2) && InBalance(e, s, O2) && InBalance(e, s, NO2);
    HeldByEach(e, s, x);
  }

  lemma HeldByEach(e: seq<nat>, s: State, x: Atom)
    requires Inv(e, s)
    ensures forall p :: R1 <= p <= R3 ==> Held(s, x, p) == HeldOf(s, x, p)
    ensures forall p :: 0 <= p < WORKERS ==> Held(s, x, p) >= 0
  {
    forall p | R1 <= p <= R3
      ensures Held(s, x, p) == HeldOf(s, x, p) && Held(s, x, p) >= 0
    {
      AwaitedByReaction(e, s, p);
      HeldByReaction(s, x, p);
    }
  }

  /**
   At every moment the atoms in the atmosphere and in the hands of the processes are those brought
   in, and nobody holds a negative amount.
   */
  lemma AtomsConserved(a: int, h: int, run: seq<int>, t: State, x: Atom)
    requires LeadsTo(Init(Rounds(a, h)), run, t)
    ensures Sized(t)
    ensures InAir(t, x) + InHand(t, x) == Times(a) * Atoms(x, N3) + Times(h) * Atoms(x, H2O)
    ensures forall p :: 0 <= p < WORKERS ==> Held(t, x, p) >= 0
  {
    var e := Rounds(a, h);
    RoundsFeasible(a, h);
    InvInit(e);
    InvAlong(e, Init(e), run, t);
    AtomsAccounted(e, t, x);
  }
}
