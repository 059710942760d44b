/**
 The programs of apps/q2 under a fair scheduler. From a ring that is good as it is found, every run in
 which whoever is awake and unfinished takes a step within any `b` consecutive steps comes to an end.
 */
module BusyFairness {
  import opened Tally
  import opened Ring
  import opened SyncObjects
  import opened BusyBuffer
  import opened BusyCompletion
  import opened FairRuns

  lemma MovesGrow(s: State, q: int)
    requires Inv(s) && CanStep(s, q)
    ensures Moves(Step(s, q)) == Moves(s) + if s.procs[q].pc == Advance then 1 else 0
  {
    RunnerOwns(s, q);
  }

  /** Process `p` can use the ring as it is: there is room for its item, or its item is at the head. */
  ghost predicate Due(s: State, p: int)
    requires Sized(s) && |s.removed| <= |Stream(s)|
  {
    && 0 <= p < 2 * s.n && s.tally[p] < ITEMS
    && if p < s.n then |Live(s)| < BUFFER_SIZE - 1 else Live(s) != [] && Live(s)[0] == s.tally[p]
  }

  /** Steps of its own that a process needs to move an item. */
  function Stage(pc: Pc): nat {
    match pc
    case CallRelease => 7 case Record => 6 case CallLeave => 6 case Top => 5
    case Check => 4 case Compare => 3 case Copy => 2 case Advance => 1
  }

  /** The line for the lock before `p`, counted in steps of its owners. */
  function Line(s: State, p: int): nat
    requires Sized(s)
  {
    if p in s.lock.waiting && 0 <= s.lock.pid < 2 * s.n then
      10 * Before(s.lock.waiting, p) + Rank(s.procs[s.lock.pid].pc)
    else 0
  }

  function Distance(s: State, p: int): nat
    requires Sized(s) && 0 <= p < 2 * s.n
  {
    Stage(s.procs[p].pc) * (20 * s.n + 10) + Line(s, p)
  }

  /** Whose step brings `p` nearer. */
  function Key(s: State, p: int): int {
    if p in s.lock.waiting then s.lock.pid else p
  }

  lemma KeyCanStep(s: State, p: int)
    requires Inv(s) && Due(s, p)
    ensures CanStep(s, Key(s, p))
  {
    assert InLoop(s, p);
    if p in s.lock.waiting { OwnerIsInside(s); }
  }

  lemma LineIsShort(s: State, p: int)
    requires Core(s)
    ensures Line(s, p) < 20 * s.n + 10
  {
    var q := s.lock.waiting;
    if p in q {
      forall i | 0 <= i < |q|
        ensures 0 <= q[i] < 2 * s.n
      {
        assert q[i] in q && Engaged(M(s), q[i]);
      }
      DistinctInRange(q, 0, 2 * s.n);
      BeforeInQueue(q, p);
    }
  }

  /** While nothing is moved, whoever is due stays due. */
  lemma StaysDue(s: State, p: int, q: int)
    requires Inv(s) && Due(s, p) && CanStep(s, q) && s.procs[q].pc != Advance
    ensures Inv(Step(s, q)) && Due(Step(s, q), p)
  {
    InvKept(s, q);
    assert Live(Step(s, q)) == Live(s);
  }

  /** The process that is due gets on by its own step. */
  lemma OwnStep(s: State, p: int)
    requires Inv(s) && Due(s, p) && CanStep(s, p) && s.procs[p].pc != Advance
    ensures Stage(Step(s, p).procs[p].pc) < Stage(s.procs[p].pc)
  {
    RunnerOwns(s, p);
    if Live(s) != [] {
      Take(s.buffer, s.r, Live(s));
      NotEmpty(s);
    }
  }

  lemma OwnerMoves(s: State, p: int)
    requires Inv(s) && p in s.lock.waiting && 0 <= s.lock.pid < 2 * s.n && CanStep(s, s.lock.pid)
    ensures Line(Step(s, s.lock.pid), p) < Line(s, p)
  {
    var q, first := s.lock.pid, s.lock.waiting[0];
    RunnerOwns(s, q);
    assert first in s.lock.waiting && Engaged(M(s), first);
    assert ExclusiveAt(s, first);
  }

  lemma DistanceByOwn(s: State, p: int)
    requires Inv(s) && Due(s, p) && CanStep(s, p) && s.procs[p].pc != Advance && Inv(Step(s, p))
    ensures Key(s, p) == p && Distance(Step(s, p), p) < Distance(s, p)
  {
    OwnStep(s, p);
    var t := Step(s, p);
    LineIsShort(t, p);
    Lower(Stage(t.procs[p].pc), Stage(s.procs[p].pc), 20 * s.n + 10, Line(t, p));
  }

  /** In line for the lock a process gets on by each step of the owner, and loses nothing by the steps of others. */
  lemma DistanceByOther(s: State, p: int, q: int)
    requires Inv(s) && CanStep(s, q) && 0 <= p < 2 * s.n && p != q && s.procs[q].pc != Advance
    ensures if q == Key(s, p) then Distance(Step(s, q), p) < Distance(s, p)
            else Key(Step(s, q), p) == Key(s, p) && Distance(Step(s, q), p) <= Distance(s, p)
  {
    RunnerOwns(s, q);
    if p in s.lock.waiting {
      OwnerIsInside(s);
      if q == s.lock.pid { OwnerMoves(s, p); } else { BeforeAppended(s.lock.waiting, p, q); }
    }
    assert Step(s, q).procs[p] == s.procs[p];
  }

  /** A step that moves nothing leaves whoever is due due, and nearer if it is the step of the key. */
  lemma DueStep(s: State, p: int, q: int)
    requires Inv(s) && Due(s, p) && CanStep(s, q) && s.procs[q].pc != Advance
    ensures var t := Step(s, q);
            && Inv(t) && Due(t, p)
            && if q == Key(s, p) then Distance(t, p) < Distance(s, p)
               else Key(t, p) == Key(s, p) && Distance(t, p) <= Distance(s, p)
  {
    StaysDue(s, p, q);
    if p == q { DistanceByOwn(s, p); } else { DistanceByOther(s, p, q); }
  }

  lemma SomeoneIsDue(s: State) returns (p: int)
    requires Inv(s) && Good(s.n, s.found) && Moves(s) < 2 * s.n * ITEMS
    ensures Due(s, p)
  {
    MovesBounded(s);
    if Live(s) != [] && |s.removed| < s.n * ITEMS {
      NextFits(s);
      p := NextIsWanted(Stream(s), s.removed, s.tally, s.n);
    } else {
      p := SumShort(s.tally[..s.n], ITEMS);
    }
  }

  // ---- Fair runs ----

  ghost predicate StepAt(states: seq<State>, run: seq<int>, i: nat)
    requires i < |run| < |states|
  {
    && Sized(states[i]) && CanStep(states[i], run[i])
    && states[i + 1] == Step(states[i], run[i])
  }

  /** `run` says who took each step, `states` what it led to. */
  ghost predicate IsRun(states: seq<State>, run: seq<int>) {
    |states| == |run| + 1 && forall i :: 0 <= i < |run| ==> StepAt(states, run, i)
  }

  /** Whoever is awake and unfinished takes a step within `b` steps, unless the run is over before. */
  ghost predicate FairRun(states: seq<State>, run: seq<int>, b: nat)
    requires |states| == |run| + 1
  {
    forall i: nat, p :: i + b <= |run| && Sized(states[i]) && CanStep(states[i], p) ==> TurnWithin(run, i, b, p)
  }

  lemma {:induction false} InvAt(states: seq<State>, run: seq<int>, i: nat)
    requires IsRun(states, run) && Inv(states[0]) && i <= |run|
    ensures Inv(states[i]) && states[i].n == states[0].n && states[i].found == states[0].found
  {
    if i > 0 {
      InvAt(states, run, i - 1);
      assert StepAt(states, run, i - 1);
      InvKept(states[i - 1], run[i - 1]);
    }
  }

  // ---- The bound ----

  lemma DistanceBounded(s: State, p: int)
    requires Inv(s) && Due(s, p)
    ensures Distance(s, p) <= 160 * s.n + 79
  {
    LineIsShort(s, p);
    Lower(Stage(s.procs[p].pc), 8, 20 * s.n + 10, Line(s, p));
  }

  /** When all items have moved, everybody runs out of steps. */
  lemma LastSteps(s: State, q: int)
    requires Inv(s) && CanStep(s, q) && Moves(s) == 2 * s.n * ITEMS
    ensures s.procs[q].pc != Top
  {
    AtMostTen(s);
    AllMoved(s.inserted, s.removed, s.tally, s.n);
    assert InLoop(s, q);
  }

  lemma {:induction false} EndsSoon(states: seq<State>, run: seq<int>, i: nat)
    requires IsRun(states, run) && i <= |run| && Inv(states[i]) && Moves(states[i]) == 2 * states[i].n * ITEMS
    ensures |run| <= i + Sum(Ranks(states[i]))
    decreases |run| - i
  {
    SumNat(Ranks(states[i]));
    if i < |run| {
      assert StepAt(states, run, i);
      LastSteps(states[i], run[i]);
      DrainStep(states[i], run[i]);
      MovesBounded(states[i + 1]);
      EndsSoon(states, run, i + 1);
    }
  }

  lemma RanksBounded(s: State)
    requires Sized(s)
    ensures Sum(Ranks(s)) <= 12 * s.n
  {
    SumAtMost(Ranks(s), 6);
  }

  /** A run as the argument of FairRuns sees it. */
  ghost function Seen(states: seq<State>): Account {
    Account(
      (i: nat, p: int) => i < |states| && Sized(states[i]) && CanStep(states[i], p),
      (i: nat) => if i < |states| then Moves(states[i]) else 0,
      (i: nat, p: int) => i < |states| && Inv(states[i]) && Due(states[i], p),
      (i: nat, p: int) =>
        if i < |states| && Sized(states[i]) && 0 <= p < 2 * states[i].n then Distance(states[i], p) else 0,
      (i: nat, p: int) => if i < |states| then Key(states[i], p) else p)
  }

  lemma SeenGoesOn(states: seq<State>, run: seq<int>, i: nat, p: int)
    requires IsRun(states, run) && Inv(states[0]) && i < |run|
    ensures GoesOn(Seen(states), run, i, p)
  {
    InvAt(states, run, i);
    assert StepAt(states, run, i);
    var s, q := states[i], run[i];
    InvKept(s, q);
    MovesGrow(s, q);
    if Due(s, p) {
      KeyCanStep(s, p);
      if s.procs[q].pc != Advance { DueStep(s, p, q); }
    }
  }

  lemma SeenSettles(states: seq<State>, run: seq<int>, i: nat, n: nat)
    requires IsRun(states, run) && Inv(states[0]) && i <= |run|
    requires n == states[0].n && Good(n, states[0].found)
    ensures SettlesAt(Seen(states), run, i, 20 * n, 160 * n + 79, 12 * n)
  {
    InvAt(states, run, i);
    var s := states[i];
    MovesBounded(s);
    if Moves(s) < 20 * n {
      var p := SomeoneIsDue(s);
      DistanceBounded(s, p);
      assert Seen(states).due(i, p) && Seen(states).far(i, p) <= 160 * n + 79;
    } else {
      EndsSoon(states, run, i);
      RanksBounded(s);
    }
  }

  /** From a good ring, every run in which everybody who can take a step takes one within `b` steps ends. */
  lemma FairRunsEnd(n: nat, w: int, r: int, buffer: seq<int>, states: seq<State>, run: seq<int>, b: nat)
    requires Page(w, r, buffer) && Good(n, Slots(buffer, r, w))
    requires IsRun(states, run) && states[0] == Init(n, w, r, buffer) && b > 0 && FairRun(states, run, b)
    ensures |run| <= 20 * n * ((160 * n + 80) * b) + 12 * n
  {
    InvInit(n, w, r, buffer);
    var a, top, most, tail := Seen(states), 20 * n, 160 * n + 79, 12 * n;
    forall i: nat, p | i < |run|
      ensures GoesOn(a, run, i, p)
    {
      SeenGoesOn(states, run, i, p);
    }
    forall i: nat | i <= |run|
      ensures SettlesAt(a, run, i, top, most, tail)
    {
      SeenSettles(states, run, i, n);
    }
    Ends(a, run, b, 0, top, most, tail, top);
  }

  lemma OwnerCanStep(s: State)
    requires Core(s) && s.lock.pid != NOBODY
    ensures CanStep(s, s.lock.pid)
  {
    OwnerIsInside(s);
  }

  lemma StoppedIsDone(s: State)
    requires Inv(s) && forall p :: !CanStep(s, p)
    ensures AllDone(s)
  {
    if s.lock.pid != NOBODY { OwnerCanStep(s); }
    forall p | 0 <= p < 2 * s.n
      ensures Finished(s, p)
    {
      assert !CanStep(s, p);
    }
  }

  /** Whatever the ring held, a run can stop only with everybody finished, each consumer holding the ten digits. */
  lemma EndIsDone(n: nat, w: int, r: int, buffer: seq<int>, states: seq<State>, run: seq<int>)
    requires Page(w, r, buffer) && IsRun(states, run) && states[0] == Init(n, w, r, buffer)
    ensures var s := states[|run|];
            && Sized(s) && s.n == n
            && ((forall p :: !CanStep(s, p)) <==> AllDone(s))
            && (AllDone(s) ==> forall p :: n <= p < 2 * n ==> s.procs[p].nums == [0, 1, 2, 3, 4, 5, 6, 7, 8, 9])
  {
    InvInit(n, w, r, buffer);
    InvAt(states, run, |run|);
    var s := states[|run|];
    if forall p :: !CanStep(s, p) { StoppedIsDone(s); }
    forall p | n <= p < 2 * n && AllDone(s)
      ensures s.procs[p].nums == [0, 1, 2, 3, 4, 5, 6, 7, 8, 9]
    {
      assert InLoop(s, p) && Finished(s, p);
      AllDigits();
    }
  }
}
