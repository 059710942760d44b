/**
 The programs of apps/q3 under a fair scheduler. Unless the program is deceivable, every run in which
 whoever is awake and unfinished takes a step within any `b` consecutive steps comes to an end.
 */
module SemFairness {
  import opened Tally
  import opened Ring
  import opened SyncObjects
  import opened SemBuffer
  import opened SemCompletion
  import opened FairRuns

  /** The process has moved an item and not yet signalled it. */
  function Debt(s: State, p: int): nat
    requires 0 <= p < |s.procs|
  {
    if s.procs[p].pc == CallRelease || s.procs[p].pc == CallSignal then 1 else 0
  }

  ghost function Debts(s: State): seq<nat> {
    seq(|s.procs|, p requires 0 <= p < |s.procs| => Debt(s, p))
  }

  /** Items moved count twice, less the signals owed for them. */
  ghost function Paid(s: State): int {
    2 * Moves(s) - Sum(Debts(s))
  }

  lemma PaidGrows(s: State, q: int)
    requires Sized(s) && CanStep(s, q) && PlacedAt(s, q)
    ensures Moves(Step(s, q)) == Moves(s) + if s.procs[q].pc == Advance then 1 else 0
    ensures Paid(Step(s, q))
         == Paid(s) + if s.procs[q].pc == Advance || s.procs[q].pc == CallSignal then 1 else 0
  {
    var t := Step(s, q);
    assert Debts(t) == Debts(s)[q := Debt(t, q)];
    SumUpdate(Debts(s), q, Debt(t, q));
  }

  lemma NoDebt(s: State, p: int)
    requires Sized(s) && Sum(Debts(s)) == 0 && 0 <= p < 2 * s.n
    ensures s.procs[p].pc != CallRelease && s.procs[p].pc != CallSignal
  {
    if Debt(s, p) > 0 {
      SumUpdate(Debts(s), p, 0);
      SumNat(Debts(s)[p := 0]);
    }
  }

  /** A program that cannot be deceived, in a state it can get to. */
  ghost predicate Sane(buffer: seq<int>, s: State) {
    Known(s.n, buffer, s) && !Deceivable(s.n, buffer)
  }

  /** Where nobody owes a signal, nobody sleeps on the full slots. */
  lemma NobodyDeceived(buffer: seq<int>, s: State)
    requires Sane(buffer, s) && Sum(Debts(s)) == 0
    ensures s.full.waiting == []
  {
    if s.full.waiting != [] {
      var c := s.full.waiting[0];
      assert c in s.full.waiting;
      if Live(s) == [] {
        OnlyIfDeceivable(s.n, buffer, s, c);
      } else {
        var p := SomeoneWillSignal(s, c);
        NoDebt(s, p);
      }
    }
  }

  /** While the ring is empty nobody sleeps on the empty slots. */
  lemma RoomInEmptyRing(buffer: seq<int>, s: State)
    requires Sane(buffer, s) && Live(s) == []
    ensures s.empty.waiting == []
  {
    SumAtMost(EmptyCredits(s), 1);
  }

  // ---- Who is due ----

  /** Process `p` owes a signal, or nobody does and it can use the ring as it is. */
  ghost predicate Due(s: State, p: int)
    requires Sized(s) && |s.removed| <= |s.inserted|
  {
    && 0 <= p < 2 * s.n
    && if Debt(s, p) > 0 then true
       else
         && Sum(Debts(s)) == 0 && s.tally[p] < ITEMS
         && if p < s.n then Live(s) == [] else Live(s) != [] && Live(s)[0] == s.tally[p]
  }

  /** Steps of its own that a process needs to move an item or to send its signal. */
  function Stage(pc: Pc): nat {
    match pc
    case Record => 7 case CallLeave => 7 case Top => 6 case CallAcquire => 5 case Peek => 5
    case CallWait => 4 case Copy => 3 case Advance => 2 case CallRelease => 1 case CallSignal => 0
  }

  /** The line for the lock before `p`, counted in steps of its owners. */
  function Line(s: State, p: int): nat
    requires Sized(s)
  {
    if p in s.lock.waiting && 0 <= s.lock.pid < 2 * s.n then
      10 * Before(s.lock.waiting, p) + Rank(s.procs[s.lock.pid].pc)
    else 0
  }

  function Distance(s: State, p: int): nat
    requires Sized(s) && 0 <= p < 2 * s.n
  {
    Stage(s.procs[p].pc) * (20 * s.n + 10) + Line(s, p)
  }

  /** Whose step brings `p` nearer. */
  function Key(s: State, p: int): int {
    if p in s.lock.waiting then s.lock.pid else p
  }

  lemma OwnerIsInside(s: State)
    requires Inv(s) && s.lock.pid != NOBODY
    ensures 0 <= s.lock.pid < 2 * s.n && Inside(s, s.lock.pid) && PlacedAt(s, s.lock.pid)
    ensures s.lock.pid !in s.lock.waiting && s.lock.pid !in s.empty.waiting
  {
    assert Engaged(M(s), s.lock.pid);
    assert PlacedAt(s, s.lock.pid);
  }

  lemma KeyCanStep(buffer: seq<int>, s: State, p: int)
    requires Sane(buffer, s) && Due(s, p)
    ensures CanStep(s, Key(s, p))
  {
    assert PlacedAt(s, p) && InLoop(s, p);
    if Debt(s, p) == 0 {
      NobodyDeceived(buffer, s);
      if p < s.n { RoomInEmptyRing(buffer, s); }
      if p in s.lock.waiting { OwnerIsInside(s); }
    }
  }

  lemma LineIsShort(s: State, p: int)
    requires Inv(s)
    ensures Line(s, p) < 20 * s.n + 10
  {
    var q := s.lock.waiting;
    if p in q {
      forall i | 0 <= i < |q|
        ensures 0 <= q[i] < 2 * s.n
      {
        assert q[i] in q && Engaged(M(s), q[i]);
      }
      DistinctInRange(q, 0, 2 * s.n);
      BeforeInQueue(q, p);
    }
  }

  predicate Pays(pc: Pc) {
    pc == Advance || pc == CallSignal
  }

  /** While nothing is moved or signalled, whoever is due stays due. */
  lemma StaysDue(s: State, p: int, q: int)
    requires Inv(s) && Due(s, p) && CanStep(s, q) && !Pays(s.procs[q].pc) && Inv(Step(s, q))
    ensures Due(Step(s, q), p)
  {
    assert PlacedAt(s, q);
    PaidGrows(s, q);
    assert Live(Step(s, q)) == Live(s);
    if Debt(s, p) == 0 && p == q { NoDebt(Step(s, q), p); }
  }

  /** The process that is due gets on by its own step. */
  lemma OwnStep(s: State, p: int)
    requires Inv(s) && Due(s, p) && CanStep(s, p) && !Pays(s.procs[p].pc)
    ensures Stage(Step(s, p).procs[p].pc) < Stage(s.procs[p].pc)
  {
    assert PlacedAt(s, p) && InLoop(s, p);
    if Live(s) != [] { Take(s.buffer, s.r, Live(s)); }
  }

  lemma OwnerMoves(s: State, p: int)
    requires Inv(s) && p in s.lock.waiting && 0 <= s.lock.pid < 2 * s.n && CanStep(s, s.lock.pid)
    ensures Line(Step(s, s.lock.pid), p) < Line(s, p)
  {
    OwnerIsInside(s);
  }

  lemma DistanceByOwn(s: State, p: int)
    requires Inv(s) && Due(s, p) && CanStep(s, p) && !Pays(s.procs[p].pc) && Inv(Step(s, p))
    ensures Key(s, p) == p && Distance(Step(s, p), p) < Distance(s, p)
  {
    OwnStep(s, p);
    var t := Step(s, p);
    LineIsShort(t, p);
    Lower(Stage(t.procs[p].pc), Stage(s.procs[p].pc), 20 * s.n + 10, Line(t, p));
  }

  /** In line for the lock a process gets on by each step of the owner, and loses nothing by the steps of others. */
  lemma DistanceByOther(s: State, p: int, q: int)
    requires Inv(s) && CanStep(s, q) && 0 <= p < 2 * s.n && p != q && !Pays(s.procs[q].pc)
    ensures if q == Key(s, p) then Distance(Step(s, q), p) < Distance(s, p)
            else Key(Step(s, q), p) == Key(s, p) && Distance(Step(s, q), p) <= Distance(s, p)
  {
    StandsStill(s, p, q);
    if p !in s.lock.waiting {
      Elsewhere(s, p, q);
    } else if q == s.lock.pid {
      OwnerMoves(s, p);
    } else {
      LineGrowsBehind(s, p, q);
    }
  }

  lemma StandsStill(s: State, p: int, q: int)
    requires Sized(s) && CanStep(s, q) && 0 <= p < 2 * s.n && p != q
    ensures var t := Step(s, q); t.n == s.n && Stage(t.procs[p].pc) == Stage(s.procs[p].pc)
  {
    assert Step(s, q).procs[p] == s.procs[p];
  }

  lemma LineGrowsBehind(s: State, p: int, q: int)
    requires Inv(s) && CanStep(s, q) && p in s.lock.waiting && p != q && q != s.lock.pid
    ensures Line(Step(s, q), p) == Line(s, p) && Key(Step(s, q), p) == Key(s, p)
  {
    assert PlacedAt(s, q);
    OwnerIsInside(s);
    BeforeAppended(s.lock.waiting, p, q);
  }

  lemma Elsewhere(s: State, p: int, q: int)
    requires Inv(s) && CanStep(s, q) && p != q && p !in s.lock.waiting
    ensures Key(Step(s, q), p) == Key(s, p) == p && Line(Step(s, q), p) == Line(s, p) == 0
  {
  }

  /** A step that pays nothing leaves whoever is due due, and nearer if it is the step of the key. */
  lemma DueStep(s: State, p: int, q: int)
    requires Inv(s) && Due(s, p) && CanStep(s, q) && !Pays(s.procs[q].pc) && Inv(Step(s, q))
    ensures var t := Step(s, q);
            && Due(t, p)
            && if q == Key(s, p) then Distance(t, p) < Distance(s, p)
               else Key(t, p) == Key(s, p) && Distance(t, p) <= Distance(s, p)
  {
    StaysDue(s, p, q);
    if p == q { DistanceByOwn(s, p); } else { DistanceByOther(s, p, q); }
  }

  lemma SomeoneIsDue(s: State) returns (p: int)
    requires Inv(s) && Paid(s) < 40 * s.n
    ensures Due(s, p)
  {
    if Sum(Debts(s)) > 0 {
      p := SumPositive(Debts(s));
      assert Debt(s, p) > 0;
    } else {
      SumNat(Debts(s));
      AtMostTen(s);
      StreamsBounded(s.inserted, s.removed, s.tally, s.n);
      if Live(s) != [] {
        p := SomeoneWantsNext(s.inserted, s.removed, s.tally, s.n);
      } else {
        p := SumShort(s.tally[..s.n], ITEMS);
      }
      NoDebt(s, p);
    }
  }

  // ---- Fair runs ----

  ghost predicate StepAt(states: seq<State>, run: seq<int>, i: nat)
    requires i < |run| < |states|
  {
    && Sized(states[i]) && CanStep(states[i], run[i])
    && states[i + 1] == Step(states[i], run[i])
  }

  /** `run` says who took each step, `states` what it led to. */
  ghost predicate IsRun(states: seq<State>, run: seq<int>) {
    |states| == |run| + 1 && forall i :: 0 <= i < |run| ==> StepAt(states, run, i)
  }

  /** Whoever is awake and unfinished takes a step within `b` steps, unless the run is over before. */
  ghost predicate FairRun(states: seq<State>, run: seq<int>, b: nat)
    requires |states| == |run| + 1
  {
    forall i: nat, p :: i + b <= |run| && Sized(states[i]) && CanStep(states[i], p) ==> TurnWithin(run, i, b, p)
  }

  lemma {:induction false} SaneAt(buffer: seq<int>, states: seq<State>, run: seq<int>, i: nat)
    requires IsRun(states, run) && Sane(buffer, states[0]) && i <= |run|
    ensures SaneFrom(buffer, states[i], states[0].n)
  {
    if i > 0 {
      SaneAt(buffer, states, run, i - 1);
      SaneNext(buffer, states, run, i - 1, states[0].n);
    }
  }

  ghost predicate SaneFrom(buffer: seq<int>, s: State, n: nat) {
    Sane(buffer, s) && s.n == n
  }

  lemma SaneNext(buffer: seq<int>, states: seq<State>, run: seq<int>, i: nat, n: nat)
    requires IsRun(states, run) && i < |run| && SaneFrom(buffer, states[i], n)
    ensures SaneFrom(buffer, states[i + 1], n)
  {
    assert StepAt(states, run, i);
    SaneStep(buffer, states[i], run[i], states[i + 1]);
  }

  lemma SaneStep(buffer: seq<int>, s: State, q: int, t: State)
    requires Sane(buffer, s) && CanStep(s, q) && t == Step(s, q)
    ensures Sane(buffer, t) && t.n == s.n && PlacedAt(s, q)
  {
    OneStep(s.n, buffer, s, q);
  }

  // ---- The bound ----

  lemma DistanceBounded(s: State, p: int)
    requires Inv(s) && Due(s, p)
    ensures Distance(s, p) <= 160 * s.n + 79
  {
    LineIsShort(s, p);
    Lower(Stage(s.procs[p].pc), 8, 20 * s.n + 10, Line(s, p));
  }

  lemma PaidAtMost(s: State)
    requires Inv(s)
    ensures Paid(s) <= 40 * s.n
    ensures Paid(s) == 40 * s.n ==> Moves(s) == 20 * s.n
  {
    SumNat(Debts(s));
    AtMostTen(s);
    StreamsBounded(s.inserted, s.removed, s.tally, s.n);
  }

  /** When everything has been paid, everybody runs out of steps. */
  lemma LastSteps(s: State, q: int)
    requires Inv(s) && CanStep(s, q) && Moves(s) == 2 * s.n * ITEMS
    ensures s.procs[q].pc != Top
  {
    AtMostTen(s);
    AllMoved(s.inserted, s.removed, s.tally, s.n);
    assert InLoop(s, q);
  }

  lemma {:induction false} EndsSoon(states: seq<State>, run: seq<int>, i: nat)
    requires IsRun(states, run) && i <= |run| && Inv(states[i]) && Moves(states[i]) == 20 * states[i].n
    ensures |run| <= i + Sum(Ranks(states[i]))
    decreases |run| - i
  {
    SumNat(Ranks(states[i]));
    if i < |run| {
      assert StepAt(states, run, i);
      LastSteps(states[i], run[i]);
      InvKept(states[i], run[i]);
      DrainStep(states[i], run[i]);
      MovesBounded(states[i + 1]);
      EndsSoon(states, run, i + 1);
    }
  }

  lemma MovesBounded(s: State)
    requires Inv(s)
    ensures Moves(s) <= 20 * s.n
  {
    AtMostTen(s);
    StreamsBounded(s.inserted, s.removed, s.tally, s.n);
  }

  lemma RanksBounded(s: State)
    requires Sized(s)
    ensures Sum(Ranks(s)) <= 16 * s.n
  {
    SumAtMost(Ranks(s), 8);
  }

  ghost predicate Counted(s: State) {
    |s.removed| <= |s.inserted|
  }

  /** A run as the argument of FairRuns sees it. */
  ghost function Seen(states: seq<State>): Account {
    Account(
      (i: nat, p: int) => i < |states| && Sized(states[i]) && CanStep(states[i], p),
      (i: nat) => if i < |states| then Paid(states[i]) else 0,
      (i: nat, p: int) => i < |states| && Sized(states[i]) && Counted(states[i]) && Due(states[i], p),
      (i: nat, p: int) =>
        if i < |states| && Sized(states[i]) && 0 <= p < 2 * states[i].n then Distance(states[i], p) else 0,
      (i: nat, p: int) => if i < |states| then Key(states[i], p) else p)
  }

  ghost predicate Helps(s: State, q: int, t: State, p: int)
    requires Sized(s) && Sized(t) && s.n == t.n && Counted(s) && Counted(t)
  {
    && Paid(s) <= Paid(t)
    && (Due(s, p) ==>
          && CanStep(s, Key(s, p))
          && (Paid(s) < Paid(t)
              || (Due(t, p) && if q == Key(s, p) then Distance(t, p) < Distance(s, p)
                               else Key(t, p) == Key(s, p) && Distance(t, p) <= Distance(s, p))))
  }

  lemma SaneGoesOn(buffer: seq<int>, s: State, q: int, t: State, p: int)
    requires Sane(buffer, s) && CanStep(s, q) && t == Step(s, q)
    ensures Counted(s) && Counted(t) && Helps(s, q, t, p)
  {
    SaneStep(buffer, s, q, t);
    PaidGrows(s, q);
    if Due(s, p) {
      KeyCanStep(buffer, s, p);
      if !Pays(s.procs[q].pc) { DueStep(s, p, q); }
    }
  }

  lemma SeenGoesOn(buffer: seq<int>, states: seq<State>, run: seq<int>, i: nat, p: int)
    requires IsRun(states, run) && Sane(buffer, states[0]) && i < |run|
    ensures GoesOn(Seen(states), run, i, p)
  {
    var s, t := states[i], states[i + 1];
    assert Sized(s) && Sized(t) && s.n == t.n && Counted(s) && Counted(t) && Helps(s, run[i], t, p) by {
      SaneAt(buffer, states, run, i);
      assert StepAt(states, run, i);
      SaneGoesOn(buffer, s, run[i], t, p);
    }
  }

  lemma SeenSettles(buffer: seq<int>, states: seq<State>, run: seq<int>, i: nat, n: nat)
    requires IsRun(states, run) && Sane(buffer, states[0]) && i <= |run| && n == states[0].n
    ensures SettlesAt(Seen(states), run, i, 40 * n, 160 * n + 79, 16 * n)
  {
    SaneAt(buffer, states, run, i);
    var s := states[i];
    PaidAtMost(s);
    if Paid(s) < 40 * n {
      var p := SomeoneIsDue(s);
      DistanceBounded(s, p);
      assert Seen(states).due(i, p) && Seen(states).far(i, p) <= 160 * n + 79;
    } else {
      EndsSoon(states, run, i);
      RanksBounded(s);
    }
  }

  lemma SaneAtStart(n: nat, buffer: seq<int>)
    requires |buffer| == BUFFER_SIZE && !Deceivable(n, buffer)
    ensures Sane(buffer, Init(n, buffer))
  {
    Stay(Init(n, buffer));
    ReachableKnown(n, buffer, Init(n, buffer));
  }

  /** Every run of a program that cannot be deceived ends if everybody who can take a step takes one within `b`. */
  lemma FairRunsEnd(n: nat, buffer: seq<int>, states: seq<State>, run: seq<int>, b: nat)
    requires |buffer| == BUFFER_SIZE && !Deceivable(n, buffer)
    requires IsRun(states, run) && states[0] == Init(n, buffer) && b > 0 && FairRun(states, run, b)
    ensures |run| <= 40 * n * ((160 * n + 80) * b) + 16 * n
  {
    SaneAtStart(n, buffer);
    var a, top, most, tail := Seen(states), 40 * n, 160 * n + 79, 16 * n;
    forall i: nat, p | i < |run|
      ensures GoesOn(a, run, i, p)
    {
      SeenGoesOn(buffer, states, run, i, p);
    }
    forall i: nat | i <= |run|
      ensures SettlesAt(a, run, i, top, most, tail)
    {
      SeenSettles(buffer, states, run, i, n);
    }
    assert Paid(states[0]) == 0 by { NoDebtAtStart(n, buffer); }
    Ends(a, run, b, 0, top, most, tail, top);
  }

  lemma NoDebtAtStart(n: nat, buffer: seq<int>)
    ensures Sum(Debts(Init(n, buffer))) == 0
  {
    assert Debts(Init(n, buffer)) == seq(2 * n, _ => 0);
    SumConst(2 * n, 0);
  }

  /** Where nobody can take a step, nobody is due, so everything has been moved and signalled. */
  lemma StoppedIsDone(buffer: seq<int>, s: State)
    requires Sane(buffer, s) && forall p :: !CanStep(s, p)
    ensures AllDone(s)
  {
    PaidAtMost(s);
    if Paid(s) < 40 * s.n {
      var p := SomeoneIsDue(s);
      KeyCanStep(buffer, s, p);
    }
    forall p | 0 <= p < 2 * s.n
      ensures Resting(s, p)
    {
      assert !CanStep(s, p);
    }
    QuietAtLast(s.n, buffer, s);
    QuietlyDone(s);
  }

  lemma DoneIsStopped(s: State)
    requires Sized(s) && AllDone(s)
    ensures forall p :: !CanStep(s, p)
  {
    forall p
      ensures !CanStep(s, p)
    {
      if 0 <= p < 2 * s.n { assert Finished(s, p); }
    }
  }

  /** And it ends only with everybody finished, each consumer holding the ten digits. */
  lemma EndIsDone(n: nat, buffer: seq<int>, states: seq<State>, run: seq<int>)
    requires |buffer| == BUFFER_SIZE && !Deceivable(n, buffer)
    requires IsRun(states, run) && states[0] == Init(n, buffer)
    ensures var s := states[|run|];
            && Sized(s) && s.n == n
            && ((forall p :: !CanStep(s, p)) <==> AllDone(s))
            && (AllDone(s) ==> forall p :: n <= p < 2 * n ==> s.procs[p].nums == [0, 1, 2, 3, 4, 5, 6, 7, 8, 9])
  {
    SaneAtStart(n, buffer);
    SaneAt(buffer, states, run, |run|);
    var s := states[|run|];
    if forall p :: !CanStep(s, p) { StoppedIsDone(buffer, s); }
    if AllDone(s) { DoneIsStopped(s); }
    forall p | n <= p < 2 * n && AllDone(s)
      ensures s.procs[p].nums == [0, 1, 2, 3, 4, 5, 6, 7, 8, 9]
    {
      assert InLoop(s, p) && Finished(s, p);
      AllDigits();
    }
  }
}
