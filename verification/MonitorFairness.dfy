/**
 The programs of apps/q4 under a fair scheduler. When every process that is awake and unfinished takes
 a step within any `b` consecutive steps, as under round robin, a run comes to an end after a number
 of steps bounded in the number of pairs and in `b`, and it ends with every process finished.
 */
module MonitorFairness {
  import opened Common
  import opened Tally
  import opened Ring
  import opened SyncObjects
  import opened MonitorBuffer
  import opened FairRuns

  // ---- What never goes back ----

  /** Items moved count twice, less the signal the owner still owes for the last one. */
  function Paid(s: State): int
    requires Sized(s)
  {
    2 * Moves(s) - Owed(s, true) - Owed(s, false)
  }

  lemma PaidGrows(s: State, q: int)
    requires Inv(s) && CanStep(s, q)
    ensures Paid(Step(s, q))
         == Paid(s) + if s.procs[q].pc == Advance || s.procs[q].pc == CallSignal then 1 else 0
  {
    if IsCall(s.procs[q].pc) { PaidByCall(s, q); } else { PaidByAccess(s, q); }
  }

  lemma PaidByCall(s: State, q: int)
    requires Inv(s) && CanStep(s, q) && IsCall(s.procs[q].pc)
    ensures Paid(Step(s, q)) == Paid(s) + if s.procs[q].pc == CallSignal then 1 else 0
  {
    RunnerOwns(s, q);
    FirstInLine(s, s.m.lock.waiting);
    FirstInLine(s, s.m.notFull);
    FirstInLine(s, s.m.notEmpty);
  }

  lemma PaidByAccess(s: State, q: int)
    requires Inv(s) && CanStep(s, q) && !IsCall(s.procs[q].pc)
    ensures Paid(Step(s, q)) == Paid(s) + if s.procs[q].pc == Advance then 1 else 0
  {
    RunnerOwns(s, q);
  }

  // ---- Who is due ----

  /**
   Process `p` has a signal to send, or else nobody has and `p` can use the ring as it is and sleeps on
   no condition; it is at most in line for the lock.
   */
  ghost predicate Due(s: State, p: int)
    requires Sized(s) && |s.removed| <= |s.inserted|
  {
    && 0 <= p < 2 * s.n
    && if s.m.lock.pid == p && s.procs[p].pc == CallSignal then true
       else
         && Owed(s, true) == Owed(s, false) == 0
         && s.tally[p] < ITEMS && p !in s.m.notFull && p !in s.m.notEmpty
         && if p < s.n then |Live(s)| < BUFFER_SIZE - 1 else Live(s) != [] && Live(s)[0] == s.tally[p]
  }

  /** Steps of its own that process `p` needs to move an item or to send its signal. */
  function Stage(s: State, p: int): nat
    requires 0 <= p < |s.procs|
  {
    match s.procs[p].pc
    case Record => if p < s.n then 6 else 7
    case CallRelease => if p < s.n then 7 else 6
    case Top => 5 case Check => 4 case Compare => 3 case Copy => 2 case Advance => 1
    case CallWait => 0 case CallSignal => 0
  }

  /** The line for the lock before `p`, counted in steps of its owners. */
  function Line(s: State, p: int): nat
    requires Sized(s)
  {
    if p in s.m.lock.waiting && 0 <= s.m.lock.pid < 2 * s.n then
      10 * Before(s.m.lock.waiting, p) + Rank(s, s.m.lock.pid)
    else 0
  }

  function Distance(s: State, p: int): nat
    requires Sized(s) && 0 <= p < 2 * s.n
  {
    Stage(s, p) * (20 * s.n + 10) + Line(s, p)
  }

  /** Whose step brings `p` nearer. */
  function Key(s: State, p: int): int {
    if p in s.m.lock.waiting then s.m.lock.pid else p
  }

  lemma KeyCanStep(s: State, p: int)
    requires Inv(s) && Due(s, p)
    ensures CanStep(s, Key(s, p))
  {
    assert InLoop(s, p);
    if p in s.m.lock.waiting {
      assert Engaged(s.m, s.m.lock.pid);
    }
  }

  lemma LineIsShort(s: State, p: int)
    requires Core(s)
    ensures Line(s, p) < 20 * s.n + 10
  {
    var q := s.m.lock.waiting;
    if p in q {
      forall i | 0 <= i < |q|
        ensures 0 <= q[i] < 2 * s.n
      {
        assert q[i] in q && Engaged(s.m, q[i]);
      }
      DistinctInRange(q, 0, 2 * s.n);
      BeforeInQueue(q, p);
    }
  }

  /** While nothing is moved or signalled, whoever is due stays due. */
  lemma StaysDue(s: State, p: int, q: int)
    requires Inv(s) && Due(s, p) && CanStep(s, q)
    requires s.procs[q].pc != Advance && s.procs[q].pc != CallSignal
    ensures Inv(Step(s, q)) && Due(Step(s, q), p)
  {
    InvKept(s, q);
    RunnerOwns(s, q);
    PaidGrows(s, q);
    RingTouchedBy(s, q);
  }

  lemma RingTouchedBy(s: State, q: int)
    requires Core(s) && CanStep(s, q) && s.procs[q].pc != Advance
    ensures Live(Step(s, q)) == Live(s) && Step(s, q).tally == s.tally
  {
  }

  /** The process that is due gets on by its own step. */
  lemma OwnStep(s: State, p: int)
    requires Inv(s) && Due(s, p) && CanStep(s, p)
    requires s.procs[p].pc != Advance && s.procs[p].pc != CallSignal
    ensures Stage(Step(s, p), p) < Stage(s, p)
  {
    RunnerOwns(s, p);
    if Live(s) != [] { Take(s.buffer, s.r, Live(s)); }
  }

  /** In line for the lock, it gets on by each step of the owner, and loses nothing by the steps of others. */
  lemma LineMoves(s: State, p: int, q: int)
    requires Inv(s) && CanStep(s, q) && p != q && p in s.m.lock.waiting
    requires s.procs[q].pc != Advance && s.procs[q].pc != CallSignal
    ensures if q == s.m.lock.pid then Line(Step(s, q), p) < Line(s, p)
            else Line(Step(s, q), p) == Line(s, p) && Key(Step(s, q), p) == Key(s, p)
  {
    RunnerOwns(s, q);
    var t := Step(s, q);
    assert Engaged(s.m, s.m.lock.pid);
    if q == s.m.lock.pid {
      OwnerMoves(s, p);
    } else if s.procs[q].pc == Top {
      BeforeAppended(s.m.lock.waiting, p, q);
    }
  }

  lemma OwnerMoves(s: State, p: int)
    requires Inv(s) && p in s.m.lock.waiting && 0 <= s.m.lock.pid < 2 * s.n && CanStep(s, s.m.lock.pid)
    requires s.procs[s.m.lock.pid].pc != CallSignal
    ensures Line(Step(s, s.m.lock.pid), p) < Line(s, p)
  {
    var q := s.m.lock.pid;
    RunnerOwns(s, q);
    FirstInLine(s, s.m.lock.waiting);
  }

  lemma Elsewhere(s: State, p: int, q: int)
    requires Inv(s) && CanStep(s, q) && p != q && p !in s.m.lock.waiting
    requires s.procs[q].pc != Advance && s.procs[q].pc != CallSignal
    ensures p !in Step(s, q).m.lock.waiting
  {
  }

  /** A step pays, or leaves whoever is due due, and nearer if it is the step of the key. */
  lemma DueStep(s: State, p: int, q: int)
    requires Inv(s) && Due(s, p) && CanStep(s, q)
    ensures var t := Step(s, q);
            && Inv(t)
            && (Paid(t) > Paid(s)
                || (Due(t, p) && if q == Key(s, p) then Distance(t, p) < Distance(s, p)
                                 else Key(t, p) == Key(s, p) && Distance(t, p) <= Distance(s, p)))
  {
    InvKept(s, q);
    PaidGrows(s, q);
    if s.procs[q].pc != Advance && s.procs[q].pc != CallSignal {
      StaysDue(s, p, q);
      if p == q { DistanceByOwn(s, p); } else { DistanceByOther(s, p, q); }
    }
  }

  lemma DistanceByOwn(s: State, p: int)
    requires Inv(s) && Due(s, p) && CanStep(s, p) && Inv(Step(s, p))
    requires s.procs[p].pc != Advance && s.procs[p].pc != CallSignal
    ensures Key(s, p) == p && Distance(Step(s, p), p) < Distance(s, p)
  {
    OwnStep(s, p);
    LineIsShort(Step(s, p), p);
    Lower(Stage(Step(s, p), p), Stage(s, p), 20 * s.n + 10, Line(Step(s, p), p));
  }

  lemma DistanceByOther(s: State, p: int, q: int)
    requires Inv(s) && CanStep(s, q) && 0 <= p < 2 * s.n && p != q
    requires s.procs[q].pc != Advance && s.procs[q].pc != CallSignal
    ensures if q == Key(s, p) then Distance(Step(s, q), p) < Distance(s, p)
            else Key(Step(s, q), p) == Key(s, p) && Distance(Step(s, q), p) <= Distance(s, p)
  {
    if p in s.m.lock.waiting { LineMoves(s, p, q); } else { Elsewhere(s, p, q); }
    assert Stage(Step(s, q), p) == Stage(s, p);
  }

  // ---- Somebody is due ----

  lemma SomeoneIsDue(s: State) returns (p: int)
    requires Inv(s) && 2 * s.n + 1 <= PROCESS_MAX_PROCS && Paid(s) < 40 * s.n
    ensures Due(s, p)
  {
    if Owed(s, true) + Owed(s, false) > 0 {
      p := s.m.lock.pid;
    } else {
      p := SomeoneIsDueForRing(s);
    }
  }

  lemma SomeoneIsDueForRing(s: State) returns (p: int)
    requires Inv(s) && 2 * s.n + 1 <= PROCESS_MAX_PROCS && Moves(s) < 2 * s.n * ITEMS
    requires Owed(s, true) == Owed(s, false) == 0
    ensures Due(s, p)
  {
    MovesBounded(s);
    p := -1;
    if Live(s) != [] {
      p := SomeoneWantsHead(s);
      assert QueuedAt(s, p);
    }
    if p == -1 || p in s.m.notEmpty {
      p := SumShort(s.tally[..s.n], ITEMS);
      assert QueuedAt(s, p);
      assert s.m.notFull == [];
    }
  }

  // ---- Fair runs ----

  ghost predicate StepAt(states: seq<State>, run: seq<int>, i: nat)
    requires i < |run| < |states|
  {
    && Sized(states[i]) && CanStep(states[i], run[i])
    && states[i + 1] == Step(states[i], run[i])
  }

  /** `run` says who took each step, `states` what it led to. */
  ghost predicate IsRun(states: seq<State>, run: seq<int>) {
    |states| == |run| + 1 && forall i :: 0 <= i < |run| ==> StepAt(states, run, i)
  }

  /** Whoever is awake and unfinished takes a step within `b` steps, unless the run is over before. */
  ghost predicate FairRun(states: seq<State>, run: seq<int>, b: nat)
    requires |states| == |run| + 1
  {
    forall i: nat, p :: i + b <= |run| && Sized(states[i]) && CanStep(states[i], p) ==> TurnWithin(run, i, b, p)
  }

  lemma {:induction false} InvAt(states: seq<State>, run: seq<int>, i: nat)
    requires IsRun(states, run) && Inv(states[0]) && i <= |run|
    ensures Inv(states[i]) && states[i].n == states[0].n
  {
    if i > 0 {
      InvAt(states, run, i - 1);
      assert StepAt(states, run, i - 1);
      InvKept(states[i - 1], run[i - 1]);
    }
  }

  // ---- The bound ----

  lemma DistanceBounded(s: State, p: int)
    requires Inv(s) && Due(s, p)
    ensures Distance(s, p) <= 160 * s.n + 79
  {
    LineIsShort(s, p);
    Lower(Stage(s, p), 8, 20 * s.n + 10, Line(s, p));
  }

  lemma PaidAtMost(s: State)
    requires Inv(s)
    ensures Paid(s) <= 40 * s.n
    ensures Paid(s) == 40 * s.n ==> Moves(s) == 20 * s.n
  {
    MovesBounded(s);
  }

  /** When all items have moved, nobody enters the critical section again. */
  lemma LastSteps(s: State, q: int)
    requires Inv(s) && CanStep(s, q) && Moves(s) == 20 * s.n
    ensures s.procs[q].pc != Top
  {
    AtMostTen(s);
    AllMoved(s.inserted, s.removed, s.tally, s.n);
    assert InLoop(s, q);
  }

  lemma {:induction false} EndsSoon(states: seq<State>, run: seq<int>, i: nat)
    requires IsRun(states, run) && i <= |run| && Inv(states[i]) && Moves(states[i]) == 20 * states[i].n
    ensures |run| <= i + Sum(Ranks(states[i]))
    decreases |run| - i
  {
    SumNat(Ranks(states[i]));
    if i < |run| {
      assert StepAt(states, run, i);
      LastSteps(states[i], run[i]);
      DrainStep(states[i], run[i]);
      MovesBounded(states[i + 1]);
      EndsSoon(states, run, i + 1);
    }
  }

  lemma RanksBounded(s: State)
    requires Sized(s)
    ensures Sum(Ranks(s)) <= 18 * s.n
  {
    SumAtMost(Ranks(s), 9);
  }

  /** A run as the argument of FairRuns sees it. */
  ghost function Seen(states: seq<State>): Account {
    Account(
      (i: nat, p: int) => i < |states| && Sized(states[i]) && CanStep(states[i], p),
      (i: nat) => if i < |states| && Sized(states[i]) then Paid(states[i]) else 0,
      (i: nat, p: int) => i < |states| && Inv(states[i]) && Due(states[i], p),
      (i: nat, p: int) =>
        if i < |states| && Sized(states[i]) && 0 <= p < 2 * states[i].n then Distance(states[i], p) else 0,
      (i: nat, p: int) => if i < |states| then Key(states[i], p) else p)
  }

  lemma SeenGoesOn(states: seq<State>, run: seq<int>, i: nat, p: int)
    requires IsRun(states, run) && Inv(states[0]) && i < |run|
    ensures GoesOn(Seen(states), run, i, p)
  {
    InvAt(states, run, i);
    assert StepAt(states, run, i);
    InvKept(states[i], run[i]);
    PaidGrows(states[i], run[i]);
    if Due(states[i], p) {
      KeyCanStep(states[i], p);
      DueStep(states[i], p, run[i]);
    }
  }

  lemma SeenSettles(states: seq<State>, run: seq<int>, i: nat, n: nat)
    requires IsRun(states, run) && Inv(states[0]) && i <= |run|
    requires n == states[0].n && 2 * n + 1 <= PROCESS_MAX_PROCS
    ensures SettlesAt(Seen(states), run, i, 40 * n, 160 * n + 79, 18 * n)
  {
    InvAt(states, run, i);
    var s := states[i];
    PaidAtMost(s);
    if Paid(s) < 40 * n {
      var p := SomeoneIsDue(s);
      DistanceBounded(s, p);
      assert Seen(states).due(i, p) && Seen(states).far(i, p) <= 160 * n + 79;
    } else {
      EndsSoon(states, run, i);
      RanksBounded(s);
    }
  }

  /**
   Whatever the page contains, every run in which everybody who can take a step takes one within `b`
   steps ends after at most so many steps.
   */
  lemma FairRunsEnd(n: nat, buffer: seq<int>, states: seq<State>, run: seq<int>, b: nat)
    requires |buffer| == BUFFER_SIZE && 2 * n + 1 <= PROCESS_MAX_PROCS
    requires IsRun(states, run) && states[0] == Init(n, buffer) && b > 0 && FairRun(states, run, b)
    ensures |run| <= 40 * n * ((160 * n + 80) * b) + 18 * n
  {
    InvInit(n, buffer);
    var a, top, most, tail := Seen(states), 40 * n, 160 * n + 79, 18 * n;
    forall i: nat, p | i < |run|
      ensures GoesOn(a, run, i, p)
    {
      SeenGoesOn(states, run, i, p);
    }
    forall i: nat | i <= |run|
      ensures SettlesAt(a, run, i, top, most, tail)
    {
      SeenSettles(states, run, i, n);
    }
    Ends(a, run, b, 0, top, most, tail, top);
  }

  lemma StoppedIsDone(s: State)
    requires Inv(s) && 2 * s.n + 1 <= PROCESS_MAX_PROCS && forall p :: !CanStep(s, p)
    ensures AllDone(s)
  {
    PaidAtMost(s);
    if Paid(s) < 40 * s.n {
      var p := SomeoneIsDue(s);
      KeyCanStep(s, p);
    }
    forall p | 0 <= p < 2 * s.n
      ensures s.procs[p].pc == Top || Asleep(s.m, p)
    {
      assert !CanStep(s, p);
    }
    QuietlyDone(s);
  }

  /** And it ends only with all processes finished, each consumer holding the ten digits. */
  lemma EndIsDone(n: nat, buffer: seq<int>, states: seq<State>, run: seq<int>)
    requires |buffer| == BUFFER_SIZE && 2 * n + 1 <= PROCESS_MAX_PROCS
    requires IsRun(states, run) && states[0] == Init(n, buffer)
    ensures var s := states[|run|];
            && Sized(s) && s.n == n
            && ((forall p :: !CanStep(s, p)) <==> AllDone(s))
            && (AllDone(s) ==> forall p :: n <= p < 2 * n ==> s.procs[p].nums == [0, 1, 2, 3, 4, 5, 6, 7, 8, 9])
  {
    InvInit(n, buffer);
    InvAt(states, run, |run|);
    var s := states[|run|];
    if forall p :: !CanStep(s, p) { StoppedIsDone(s); }
    forall p | n <= p < 2 * n && AllDone(s)
      ensures s.procs[p].nums == [0, 1, 2, 3, 4, 5, 6, 7, 8, 9]
    {
      assert InLoop(s, p) && Finished(s, p);
      AllDigits();
    }
  }
}
