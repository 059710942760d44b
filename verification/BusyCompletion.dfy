/** When the programs of apps/q2 can be completed, whatever their ring held at the start. */
module BusyCompletion {
  import opened Tally
  import opened Ring
  import opened SyncObjects
  import opened BusyBuffer

  lemma Onward(s: State, t: State, u: State)
    requires Sized(s) && Sized(t) && Reaches(s, t) && Reaches(t, u)
    ensures Reaches(s, u)
  {
    var run :| LeadsTo(s, run, t);
    Chain(s, run, t, u);
  }

  lemma KeptOnward(s: State, t: State)
    requires Inv(s) && Reaches(s, t)
    ensures Inv(t) && t.n == s.n && t.found == s.found
  {
    var run :| LeadsTo(s, run, t);
    InvAlong(s, run, t);
    FoundStays(s, run, t);
  }

  // ---- Quiet states ----

  /** Steps a process can make before it is back at the top of its loop. */
  function Rank(pc: Pc): nat {
    match pc
    case Top => 0 case Check => 6 case Compare => 5 case Copy => 4 case Advance => 3
    case CallRelease => 2 case Record => 1 case CallLeave => 1
  }

  ghost function Ranks(s: State): seq<nat> {
    seq(|s.procs|, p requires 0 <= p < |s.procs| => Rank(s.procs[p].pc))
  }

  function Moves(s: State): nat {
    |s.inserted| + |s.removed|
  }

  lemma DrainStep(s: State, p: int)
    requires Inv(s) && CanStep(s, p) && s.procs[p].pc != Top
    ensures Inv(Step(s, p)) && Moves(Step(s, p)) >= Moves(s)
    ensures Sum(Ranks(Step(s, p))) < Sum(Ranks(s))
  {
    InvKept(s, p);
    var t := Step(s, p);
    assert ExclusiveAt(s, p);
    var v := Rank(t.procs[p].pc);
    assert v < Rank(s.procs[p].pc);
    assert Ranks(t) == Ranks(s)[p := v];
    SumUpdate(Ranks(s), p, v);
  }

  ghost predicate Quiet(s: State) {
    Sized(s) && s.lock == Lock(NOBODY, []) && forall p :: 0 <= p < 2 * s.n ==> s.procs[p].pc == Top
  }

  lemma QuietAtLast(s: State)
    requires Inv(s) && forall p :: 0 <= p < 2 * s.n ==> s.procs[p].pc == Top || p in s.lock.waiting
    ensures Quiet(s)
  {
    if s.lock.pid != NOBODY { OwnerIsInside(s); }
  }

  lemma OwnerIsInside(s: State)
    requires Core(s) && s.lock.pid != NOBODY
    ensures 0 <= s.lock.pid < 2 * s.n && Inside(s, s.lock.pid) && s.lock.pid !in s.lock.waiting
  {
    assert Engaged(M(s), s.lock.pid);
    assert ExclusiveAt(s, s.lock.pid);
  }

  lemma {:induction false} Drain(s: State) returns (t: State)
    requires Inv(s)
    ensures Sized(t) && Reaches(s, t) && Quiet(t) && Moves(t) >= Moves(s)
    decreases Sum(Ranks(s))
  {
    SumNat(Ranks(s));
    if p :| 0 <= p < 2 * s.n && s.procs[p].pc != Top && p !in s.lock.waiting {
      DrainStep(s, p);
      t := Drain(Step(s, p));
      StepThen(s, p, t);
    } else {
      QuietAtLast(s);
      Stay(s);
      t := s;
    }
  }

  // ---- Whole turns of one process while nobody else moves ----

  function Produced(s: State, p: int): State
    requires Sized(s) && 0 <= p < s.n
  {
    var i := s.procs[p].index;
    s.(procs := s.procs[p := s.procs[p].(pc := Top, index := i + 1, product := i)],
       w := (s.w + 1) % BUFFER_SIZE, buffer := s.buffer[s.w := i],
       inserted := s.inserted + [i], tally := s.tally[p := s.tally[p] + 1])
  }

  lemma ProducerTurn(s: State, p: int)
    requires Quiet(s) && 0 <= p < s.n && s.procs[p].index < ITEMS && (s.w + 1) % BUFFER_SIZE != s.r
    ensures Reaches(s, Produced(s, p)) && Quiet(Produced(s, p))
  {
    var a := Step(s, p);
    var b := Step(a, p);
    var c := Step(b, p);
    var d := Step(c, p);
    var e := Step(d, p);
    var f := Step(e, p);
    assert f.procs == Produced(s, p).procs;
    assert f == Produced(s, p);
    Stay(f);
    StepThen(e, p, f);
    StepThen(d, p, f);
    StepThen(c, p, f);
    StepThen(b, p, f);
    StepThen(a, p, f);
    StepThen(s, p, f);
  }

  function Consumed(s: State, p: int): State
    requires Sized(s) && s.n <= p < 2 * s.n
  {
    var i := s.procs[p].index;
    s.(procs := s.procs[p := Proc(Top, i + 1, i, s.procs[p].nums + [i])],
       r := (s.r + 1) % BUFFER_SIZE, removed := s.removed + [i], tally := s.tally[p := s.tally[p] + 1])
  }

  lemma ConsumerTurn(s: State, p: int)
    requires Quiet(s) && s.n <= p < 2 * s.n && s.procs[p].index < ITEMS
    requires s.w != s.r && s.buffer[s.r] == s.procs[p].index
    ensures Reaches(s, Consumed(s, p)) && Quiet(Consumed(s, p))
  {
    var a := Step(s, p);
    var b := Step(a, p);
    var c := Step(b, p);
    var d := Step(c, p);
    var e := Step(d, p);
    var f := Step(e, p);
    var g := Step(f, p);
    assert g.procs == Consumed(s, p).procs;
    assert g == Consumed(s, p);
    Stay(g);
    StepThen(f, p, g);
    StepThen(e, p, g);
    StepThen(d, p, g);
    StepThen(c, p, g);
    StepThen(b, p, g);
    StepThen(a, p, g);
    StepThen(s, p, g);
  }

  /** A consumer at the top of its loop that expects the head takes it. */
  lemma TakeHead(s: State, c: int) returns (t: State)
    requires Inv(s) && Quiet(s) && Live(s) != [] && s.n <= c < 2 * s.n && s.tally[c] == Live(s)[0] < ITEMS
    ensures Reaches(s, t) && Inv(t) && Quiet(t) && t.n == s.n && t.found == s.found
    ensures t.inserted == s.inserted && |t.removed| == |s.removed| + 1
    ensures t.tally == s.tally[c := s.tally[c] + 1]
  {
    assert InLoop(s, c);
    Take(s.buffer, s.r, Live(s));
    NotEmpty(s);
    ConsumerTurn(s, c);
    t := Consumed(s, c);
    KeptOnward(s, t);
  }

  lemma NotEmpty(s: State)
    requires Sized(s) && Fifo(s) && Live(s) != []
    ensures s.w != s.r
  {
  }

  /** A producer at the top of its loop puts its digit into a ring with room. */
  lemma PutNext(s: State, p: int) returns (t: State)
    requires Inv(s) && Quiet(s) && |Live(s)| < BUFFER_SIZE - 1 && 0 <= p < s.n && s.tally[p] < ITEMS
    ensures Reaches(s, t) && Inv(t) && Quiet(t) && t.n == s.n && t.found == s.found
    ensures t.inserted == s.inserted + [s.tally[p]] && t.removed == s.removed
    ensures t.tally == s.tally[p := s.tally[p] + 1]
  {
    assert InLoop(s, p);
    ProducerTurn(s, p);
    t := Produced(s, p);
    KeptOnward(s, t);
  }

  // ---- Which rings are good ----

  /** The ring is found empty, or it holds ten digits for each consumer, in an order in which they can be taken. */
  ghost predicate Good(n: nat, found: seq<int>) {
    n == 0 || found == [] || (ITEMS * n <= |found| && Fit(found[..ITEMS * n], n))
  }

  ghost predicate AllDone(s: State)
    requires Sized(s)
  {
    forall p :: 0 <= p < 2 * s.n ==> Finished(s, p)
  }

  lemma AtMostTen(s: State)
    requires Core(s)
    ensures forall k :: 0 <= k < 2 * s.n ==> s.tally[k] <= ITEMS
  {
    forall k | 0 <= k < 2 * s.n
      ensures s.tally[k] <= ITEMS
    {
      assert InLoop(s, k);
    }
  }

  lemma MovesBounded(s: State)
    requires Inv(s)
    ensures |s.inserted| <= s.n * ITEMS && |s.removed| <= s.n * ITEMS
  {
    AtMostTen(s);
    StreamsBounded(s.inserted, s.removed, s.tally, s.n);
  }

  lemma QuietlyDone(s: State)
    requires Inv(s) && Quiet(s) && Moves(s) == 2 * s.n * ITEMS
    ensures AllDone(s)
  {
    AtMostTen(s);
    AllMoved(s.inserted, s.removed, s.tally, s.n);
    forall p | 0 <= p < 2 * s.n
      ensures Finished(s, p)
    {
      assert InLoop(s, p);
    }
  }

  /** In a good ring, what has been taken and the head that comes next fit the consumers. */
  lemma NextFits(s: State)
    requires Inv(s) && Good(s.n, s.found) && Live(s) != [] && |s.removed| < s.n * ITEMS
    ensures Fit(Stream(s)[..|s.removed| + 1], s.n)
  {
    var k := |s.removed| + 1;
    if s.found == [] {
      assert Stream(s) == s.inserted;
      FitPrefix(s.inserted, s.n, k);
    } else {
      FitPrefix(s.found[..ITEMS * s.n], s.n, k);
      assert Stream(s)[..k] == s.found[..ITEMS * s.n][..k];
    }
  }

  lemma NextMove(s: State) returns (t: State)
    requires Inv(s) && Quiet(s) && Good(s.n, s.found) && Moves(s) < 2 * s.n * ITEMS
    ensures Reaches(s, t) && Inv(t) && t.n == s.n && t.found == s.found && Moves(t) == Moves(s) + 1
  {
    MovesBounded(s);
    if Live(s) != [] && |s.removed| < s.n * ITEMS {
      NextFits(s);
      var c := NextIsWanted(Stream(s), s.removed, s.tally, s.n);
      t := TakeHead(s, c);
    } else {
      var p := SumShort(s.tally[..s.n], ITEMS);
      t := PutNext(s, p);
    }
  }

  lemma {:induction false} CanFinish(s: State) returns (t: State)
    requires Inv(s) && Good(s.n, s.found)
    ensures Inv(t) && Reaches(s, t) && t.n == s.n && AllDone(t)
    decreases 2 * s.n * ITEMS - Moves(s)
  {
    var q := Drain(s);
    KeptOnward(s, q);
    MovesBounded(q);
    if Moves(q) < 2 * q.n * ITEMS {
      var u := NextMove(q);
      t := CanFinish(u);
      Onward(q, u, t);
    } else {
      QuietlyDone(q);
      Stay(q);
      t := q;
    }
    Onward(s, q, t);
  }

  // ---- A head that nobody wants ----

  /** No consumer that is not finished expects the head, and not all are finished. */
  ghost predicate Frozen(s: State) {
    && Inv(s) && Live(s) != [] && |s.removed| < s.n * ITEMS
    && forall c :: s.n <= c < 2 * s.n ==> !Wants(s, c)
  }

  predicate Wants(s: State, c: int)
    requires 0 <= c < |s.tally| && |s.removed| < |Stream(s)|
  {
    s.tally[c] == Stream(s)[|s.removed|] && s.tally[c] < ITEMS
  }

  lemma FrozenStays(s: State, p: int)
    requires Frozen(s) && CanStep(s, p)
    ensures Frozen(Step(s, p))
  {
    InvKept(s, p);
    RunnerOwns(s, p);
    if p >= s.n && s.procs[p].pc == Advance { assert Wants(s, p); }
    var t := Step(s, p);
    assert t.removed == s.removed && Stream(t)[|t.removed|] == Stream(s)[|s.removed|];
    forall c | s.n <= c < 2 * s.n
      ensures !Wants(t, c)
    {
      assert !Wants(s, c) && t.tally[c] == s.tally[c];
    }
  }

  lemma {:induction false} FrozenForEver(s: State, run: seq<int>, t: State)
    requires Frozen(s) && LeadsTo(s, run, t)
    ensures Frozen(t)
    decreases |run|
  {
    if run != [] {
      FrozenStays(s, run[0]);
      FrozenForEver(Step(s, run[0]), run[1..], t);
    }
  }

  ghost predicate CanComplete(s: State)
    requires Sized(s)
  {
    exists t :: Reaches(s, t) && AllDone(t)
  }

  lemma FrozenNeverCompletes(s: State)
    requires Frozen(s)
    ensures !CanComplete(s)
  {
    if t :| Reaches(s, t) && AllDone(t) {
      var run :| LeadsTo(s, run, t);
      FrozenForEver(s, run, t);
      SomebodyUnfinished(t);
    }
  }

  lemma SomebodyUnfinished(s: State)
    requires Inv(s) && |s.removed| < s.n * ITEMS
    ensures !AllDone(s)
  {
    var k := SumShort(s.tally[s.n..], ITEMS);
    assert InLoop(s, s.n + k);
    assert !Finished(s, s.n + k);
  }

  // ---- Any other ring can freeze ----

  /** While the consumers want what was found they take it, before any producer moves. */
  lemma {:induction false} TakeFound(s: State) returns (t: State)
    requires Inv(s) && Quiet(s) && s.inserted == []
    ensures Reaches(s, t) && Inv(t) && Quiet(t) && t.n == s.n && t.found == s.found && t.inserted == []
    ensures Live(t) == [] || forall c :: t.n <= c < 2 * t.n ==> !Wants(t, c)
    decreases |s.found| - |s.removed|
  {
    if Live(s) == [] || forall c :: s.n <= c < 2 * s.n ==> !Wants(s, c) {
      Stay(s);
      t := s;
    } else {
      var c :| s.n <= c < 2 * s.n && Wants(s, c);
      var u := TakeHead(s, c);
      t := TakeFound(u);
      Onward(s, u, t);
    }
  }

  /** A ring from which all consumers could take everything they want is good. */
  lemma AllTakenIsGood(s: State)
    requires Inv(s) && s.inserted == [] && |s.removed| == s.n * ITEMS
    ensures Good(s.n, s.found)
  {
    assert s.removed == s.found[..ITEMS * s.n];
  }

  /** Producers and consumers that have moved nothing yet. */
  function NewProducers(s: State): int
    requires Sized(s)
  {
    s.n - AtLeast(s.tally[..s.n], 1)
  }

  function NewConsumers(s: State): int
    requires Sized(s)
  {
    s.n - AtLeast(s.tally[s.n..], 1)
  }

  /** A party that has moved nothing, if there is one. */
  lemma FindNew(ds: seq<nat>) returns (k: nat)
    requires AtLeast(ds, 1) < |ds|
    ensures k < |ds| && ds[k] == 0
  {
    AtLeastAll(ds);
    AtLeastGap(ds, 0);
    k :| k < |ds| && ds[k] == 0;
  }

  lemma NobodyNew(ds: seq<nat>)
    requires AtLeast(ds, 1) == |ds|
    ensures forall k :: 0 <= k < |ds| ==> ds[k] != 0
  {
    AtLeastAll(ds);
    AtLeastGap(ds, 0);
  }

  lemma AtMostAll(ds: seq<nat>)
    ensures AtLeast(ds, 1) <= |ds|
  {
    AtLeastAll(ds);
    AtLeastGap(ds, 0);
  }

  /** A producer that is new puts a zero into the empty ring. */
  lemma PutZero(s: State) returns (t: State)
    requires Inv(s) && Quiet(s) && Live(s) == [] && NewProducers(s) > 0
    ensures Reaches(s, t) && Inv(t) && Quiet(t) && t.n == s.n && t.found == s.found
    ensures Live(t) == [0] && t.removed == s.removed
    ensures NewProducers(t) == NewProducers(s) - 1 && t.tally[t.n..] == s.tally[s.n..]
  {
    var p := FindNew(s.tally[..s.n]);
    t := PutNext(s, p);
    assert t.tally[..s.n] == s.tally[..s.n][p := 1];
    AtLeastBump(s.tally[..s.n], p, 1);
    assert Stream(t) == Stream(s) + [0];
  }

  /** A consumer that is new takes it, and is not finished afterwards. */
  lemma TakeZero(s: State) returns (t: State)
    requires Inv(s) && Quiet(s) && Live(s) == [0] && NewConsumers(s) > 0
    ensures Reaches(s, t) && Inv(t) && Quiet(t) && t.n == s.n && t.found == s.found
    ensures Live(t) == [] && |t.removed| < t.n * ITEMS
    ensures NewConsumers(t) == NewConsumers(s) - 1 && NewProducers(t) == NewProducers(s)
  {
    var k := FindNew(s.tally[s.n..]);
    t := TakeHead(s, s.n + k);
    assert t.tally[s.n..] == s.tally[s.n..][k := 1] && t.tally[..s.n] == s.tally[..s.n];
    AtLeastBump(s.tally[s.n..], k, 1);
    AtMostTen(t);
    SumBesides(t.tally[s.n..], k);
  }

  /** With more new producers than new consumers the zeros run out of takers. */
  lemma {:induction false} ZerosFreeze(s: State) returns (t: State)
    requires Inv(s) && Quiet(s) && Live(s) == [] && |s.removed| < s.n * ITEMS
    requires NewProducers(s) > NewConsumers(s)
    ensures Reaches(s, t) && Frozen(t)
    decreases NewProducers(s)
  {
    AtMostAll(s.tally[s.n..]);
    var u := PutZero(s);
    if NewConsumers(u) > 0 {
      var v := TakeZero(u);
      t := ZerosFreeze(v);
      Onward(u, v, t);
    } else {
      NobodyWantsZero(u);
      Stay(u);
      t := u;
    }
    Onward(s, u, t);
  }

  lemma NobodyWantsZero(s: State)
    requires Inv(s) && Live(s) == [0] && |s.removed| < s.n * ITEMS && NewConsumers(s) == 0
    ensures Frozen(s)
  {
    NobodyNew(s.tally[s.n..]);
    forall c | s.n <= c < 2 * s.n
      ensures !Wants(s, c)
    {
      assert s.tally[c] == s.tally[s.n..][c - s.n];
      assert Stream(s)[|s.removed|] == Live(s)[0];
    }
  }

  /** When everything found has been taken, fewer consumers than producers are new. */
  lemma FewerNewConsumers(s: State)
    requires Inv(s) && s.inserted == [] && s.removed != []
    ensures NewProducers(s) > NewConsumers(s)
  {
    var producers, consumers := s.tally[..s.n], s.tally[s.n..];
    if AtLeast(producers, 1) > 0 { SomeMoved(producers); }
    var k := SumPositive(consumers);
    AtLeastOne(consumers, k);
  }

  lemma {:induction false} SomeMoved(ds: seq<nat>)
    requires AtLeast(ds, 1) > 0
    ensures Sum(ds) > 0
  {
    var m := |ds| - 1;
    if ds[m] >= 1 { SumNat(ds[..m]); } else { SomeMoved(ds[..m]); }
  }

  lemma {:induction false} AtLeastOne(ds: seq<nat>, k: nat)
    requires k < |ds| && ds[k] >= 1
    ensures AtLeast(ds, 1) > 0
  {
    if k < |ds| - 1 { AtLeastOne(ds[..|ds| - 1], k); }
  }

  lemma BadRingFreezes(n: nat, w: int, r: int, buffer: seq<int>) returns (t: State)
    requires Page(w, r, buffer) && !Good(n, Slots(buffer, r, w))
    ensures Reachable(n, w, r, buffer, t) && Frozen(t)
  {
    var i := Init(n, w, r, buffer);
    InvInit(n, w, r, buffer);
    var s := TakeFound(i);
    MovesBounded(s);
    if |s.removed| == n * ITEMS { AllTakenIsGood(s); }
    if Live(s) == [] {
      assert s.removed == s.found;
      FewerNewConsumers(s);
      t := ZerosFreeze(s);
    } else {
      Stay(s);
      t := s;
    }
    Onward(i, s, t);
  }

  // ---- The results ----

  /** From a good ring every reachable state can be completed, each consumer holding 0 to 9. */
  lemma NeverStuck(n: nat, w: int, r: int, buffer: seq<int>, s: State) returns (t: State)
    requires Reachable(n, w, r, buffer, s) && Good(n, Slots(buffer, r, w))
    ensures Sized(s) && Reaches(s, t) && t.n == n && Sized(t) && AllDone(t)
    ensures forall p :: n <= p < 2 * n ==> t.procs[p].nums == [0, 1, 2, 3, 4, 5, 6, 7, 8, 9]
  {
    ReachableInv(n, w, r, buffer, s);
    t := CanFinish(s);
    forall p | n <= p < 2 * n
      ensures t.procs[p].nums == [0, 1, 2, 3, 4, 5, 6, 7, 8, 9]
    {
      assert InLoop(t, p) && Finished(t, p);
      AllDigits();
    }
  }

  /** Every reachable state can be completed if and only if the ring is good as it is found. */
  lemma CompletesExactly(n: nat, w: int, r: int, buffer: seq<int>)
    requires Page(w, r, buffer)
    ensures (forall s :: Reachable(n, w, r, buffer, s) ==> CanComplete(s)) <==> Good(n, Slots(buffer, r, w))
  {
    if Good(n, Slots(buffer, r, w)) {
      forall s | Reachable(n, w, r, buffer, s)
        ensures CanComplete(s)
      {
        var t := NeverStuck(n, w, r, buffer, s);
      }
    } else {
      var s := BadRingFreezes(n, w, r, buffer);
      FrozenNeverCompletes(s);
    }
  }

  /** Indices that agree make a good ring, whatever the page holds. */
  lemma EqualIndicesAreGood(n: nat, start: int, buffer: seq<int>)
    requires Page(start, start, buffer)
    ensures Good(n, Slots(buffer, start, start))
  {
  }

  /** One pair, and a page with one item that is no digit 0: nothing is ever taken. */
  lemma OneSlotFreezes(buffer: seq<int>)
    requires Page(1, 0, buffer) && buffer[0] != 0
    ensures Reachable(1, 1, 0, buffer, Init(1, 1, 0, buffer)) && !CanComplete(Init(1, 1, 0, buffer))
  {
    var s := Init(1, 1, 0, buffer);
    InvInit(1, 1, 0, buffer);
    Stay(s);
    assert Stream(s)[0] == buffer[0];
    FrozenNeverCompletes(s);
  }
}
