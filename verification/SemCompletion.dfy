/** When the programs of apps/q3 can be completed, and when they can deadlock. */
module SemCompletion {
  import opened Tally
  import opened Ring
  import opened SyncObjects
  import opened SemBuffer

  // ---- What the slots show ----

  /** The page after the items have been written to slot 0, 1, 2, ... and round again. */
  function Written(buffer: seq<int>, items: seq<int>): (r: seq<int>)
    requires |buffer| == BUFFER_SIZE
    ensures |r| == BUFFER_SIZE
  {
    if items == [] then buffer
    else
      var m := |items| - 1;
      Written(buffer, items[..m])[m % BUFFER_SIZE := items[m]]
  }

  /** An item stays in its slot until 32 more have been written; a slot not written yet is as it was. */
  lemma {:induction false} SlotShows(buffer: seq<int>, items: seq<int>, i: nat)
    requires |buffer| == BUFFER_SIZE && |items| - BUFFER_SIZE <= i < |items| + BUFFER_SIZE
    ensures i < |items| ==> Written(buffer, items)[i % BUFFER_SIZE] == items[i]
    ensures |items| <= i < BUFFER_SIZE ==> Written(buffer, items)[i] == buffer[i]
  {
    if items != [] {
      var m := |items| - 1;
      if i != m && i < m + BUFFER_SIZE {
        assert i < m ==> i % BUFFER_SIZE != m % BUFFER_SIZE;
        SlotShows(buffer, items[..m], i);
      }
    }
  }

  ghost predicate Filling(s: State)
    requires Sized(s)
  {
    exists p :: 0 <= p < s.n && s.procs[p].pc == Advance
  }

  /** The page holds what was inserted, but for the slot somebody is filling. */
  ghost predicate Shows(buffer: seq<int>, s: State)
    requires |buffer| == BUFFER_SIZE
  {
    && Sized(s)
    && s.w == |s.inserted| % BUFFER_SIZE && s.r == |s.removed| % BUFFER_SIZE
    && (forall j :: 0 <= j < BUFFER_SIZE && j != s.w ==> s.buffer[j] == Written(buffer, s.inserted)[j])
    && (s.buffer == Written(buffer, s.inserted) || Filling(s))
  }

  lemma ShowsKept(buffer: seq<int>, s: State, p: int)
    requires |buffer| == BUFFER_SIZE && Shows(buffer, s) && CanStep(s, p)
    ensures Shows(buffer, Step(s, p))
  {
    if p < s.n && s.procs[p].pc == Advance {
      ShowsAfterInsert(buffer, s, p);
    } else if p < s.n && s.procs[p].pc == Copy {
      assert Produce(s, p).procs[p].pc == Advance;
    } else {
      ShowsAfterOther(buffer, s, p);
    }
  }

  lemma {:induction false} WrittenNext(buffer: seq<int>, items: seq<int>, x: int)
    requires |buffer| == BUFFER_SIZE
    ensures Written(buffer, items + [x]) == Written(buffer, items)[|items| % BUFFER_SIZE := x]
  {
    assert (items + [x])[..|items|] == items;
  }

  lemma OneDiffers(a: seq<int>, b: seq<int>, w: nat)
    requires |a| == |b| && w < |a| && forall j :: 0 <= j < |a| && j != w ==> a[j] == b[j]
    ensures a == b[w := a[w]]
  {
  }

  /** Counting the next slot's content as inserted makes up for that slot. */
  lemma FilledIn(buffer: seq<int>, items: seq<int>, page: seq<int>)
    requires |buffer| == |page| == BUFFER_SIZE
    requires forall j :: 0 <= j < BUFFER_SIZE && j != |items| % BUFFER_SIZE ==> page[j] == Written(buffer, items)[j]
    ensures page == Written(buffer, items + [page[|items| % BUFFER_SIZE]])
  {
    WrittenNext(buffer, items, page[|items| % BUFFER_SIZE]);
    OneDiffers(page, Written(buffer, items), |items| % BUFFER_SIZE);
  }

  lemma ShowsAfterInsert(buffer: seq<int>, s: State, p: int)
    requires |buffer| == BUFFER_SIZE && Shows(buffer, s) && 0 <= p < s.n && s.procs[p].pc == Advance
    ensures Shows(buffer, Produce(s, p))
  {
    FilledIn(buffer, s.inserted, s.buffer);
  }

  /** The other steps leave the slots and the inserted items alone, and whoever is filling a slot where it is. */
  lemma LeavesSlots(s: State, p: int)
    requires Sized(s) && CanStep(s, p) && s.r == |s.removed| % BUFFER_SIZE
    requires p < s.n ==> s.procs[p].pc != Advance && s.procs[p].pc != Copy
    ensures var t := Step(s, p);
            && t.inserted == s.inserted && t.buffer == s.buffer && t.w == s.w
            && t.r == |t.removed| % BUFFER_SIZE && (Filling(s) ==> Filling(t))
  {
    if q :| 0 <= q < s.n && s.procs[q].pc == Advance { assert Step(s, p).procs[q].pc == Advance; }
  }

  lemma ShowsAfterOther(buffer: seq<int>, s: State, p: int)
    requires |buffer| == BUFFER_SIZE && Shows(buffer, s) && CanStep(s, p)
    requires p < s.n ==> s.procs[p].pc != Advance && s.procs[p].pc != Copy
    ensures Shows(buffer, Step(s, p))
  {
    LeavesSlots(s, p);
  }

  lemma {:induction false} ShowsAlong(buffer: seq<int>, s: State, run: seq<int>, t: State)
    requires |buffer| == BUFFER_SIZE && Shows(buffer, s) && LeadsTo(s, run, t)
    ensures Shows(buffer, t)
    decreases |run|
  {
    if run != [] {
      ShowsKept(buffer, s, run[0]);
      ShowsAlong(buffer, Step(s, run[0]), run[1..], t);
    }
  }

  /** A state of the program started with `n` pairs on a page `buffer`, as far as the results below need it. */
  ghost predicate Known(n: nat, buffer: seq<int>, s: State) {
    |buffer| == BUFFER_SIZE && Inv(s) && s.n == n && Shows(buffer, s)
  }

  lemma ReachableKnown(n: nat, buffer: seq<int>, s: State)
    requires Reachable(n, buffer, s)
    ensures Known(n, buffer, s)
  {
    ReachableInv(n, buffer, s);
    var run :| LeadsTo(Init(n, buffer), run, s);
    ShowsAlong(buffer, Init(n, buffer), run, s);
  }

  lemma KnownOnward(n: nat, buffer: seq<int>, s: State, t: State)
    requires Known(n, buffer, s) && Reaches(s, t)
    ensures Known(n, buffer, t)
  {
    var run :| LeadsTo(s, run, t);
    InvAlong(s, run, t);
    ShowsAlong(buffer, s, run, t);
  }

  // ---- Which programs can be deceived ----

  /**
   Slot `j` of the page shows a digit that some consumer may still be waiting for when `j` items have
   passed: it has taken all smaller digits itself, and the others no more than ten each.
   */
  predicate Misleads(n: nat, buffer: seq<int>, j: int) {
    0 <= j < |buffer| && 0 <= buffer[j] < ITEMS && buffer[j] <= j <= ITEMS * (n - 1) + buffer[j]
  }

  /** Five pairs, or a misleading slot in the page as the programs find it. */
  predicate Deceivable(n: nat, buffer: seq<int>) {
    n >= 5 || exists j :: 0 <= j < |buffer| && Misleads(n, buffer, j)
  }

  /** A consumer asleep on an empty ring gives away the number of pairs or a slot of the page. */
  lemma OnlyIfDeceivable(n: nat, buffer: seq<int>, s: State, c: int)
    requires Known(n, buffer, s) && Stuck(s, c)
    ensures Deceivable(n, buffer)
  {
    SleeperOwnsLock(s, c);
    assert PlacedAt(s, c) && InLoop(s, c);
    NobodyFills(s, c);
    CountedBesides(s, c);
    Showing(n, buffer, s.inserted, s.procs[c].index);
  }

  /** How many items can have passed when consumer `c` has taken `index`. */
  lemma CountedBesides(s: State, c: int)
    requires Inv(s) && s.n <= c < 2 * s.n && s.procs[c].pc == Copy
    ensures s.procs[c].index <= |s.removed| <= ITEMS * (s.n - 1) + s.procs[c].index
  {
    assert InLoop(s, c);
    forall i | 0 <= i < s.n
      ensures s.tally[s.n..][i] <= ITEMS
    {
      assert InLoop(s, s.n + i);
    }
    SumBesides(s.tally[s.n..], c - s.n);
  }

  /** The slot next in turn shows a digit `d` that fits the number of items passed. */
  lemma {:induction false} Showing(n: nat, buffer: seq<int>, items: seq<int>, d: int)
    requires |buffer| == BUFFER_SIZE && Ballot(items, n) && forall i :: 0 <= i < |items| ==> items[i] >= 0
    requires Written(buffer, items)[|items| % BUFFER_SIZE] == d && 0 <= d < ITEMS
    requires d <= |items| <= ITEMS * (n - 1) + d
    ensures Deceivable(n, buffer)
  {
    if |items| < BUFFER_SIZE {
      AsFound(buffer, items);
      assert Misleads(n, buffer, |items|);
    } else {
      LeftBehind(n, buffer, items);
    }
  }

  /** In the first round the slot next in turn is as the programs found it. */
  lemma {:induction false} AsFound(buffer: seq<int>, items: seq<int>)
    requires |buffer| == BUFFER_SIZE > |items|
    ensures Written(buffer, items)[|items| % BUFFER_SIZE] == buffer[|items|]
  {
    SlotShows(buffer, items, |items|);
  }

  /** In the second and later rounds the slot shows what was written 32 items ago. */
  lemma {:induction false} LeftBehind(n: nat, buffer: seq<int>, items: seq<int>)
    requires |buffer| == BUFFER_SIZE <= |items| && Ballot(items, n)
    requires items[|items| - BUFFER_SIZE] >= 0
    ensures Written(buffer, items)[|items| % BUFFER_SIZE] <= |items| - BUFFER_SIZE
  {
    var i := |items| - BUFFER_SIZE;
    assert i % BUFFER_SIZE == |items| % BUFFER_SIZE;
    SlotShows(buffer, items, i);
    DigitAtMostPlace(items, n, i);
  }

  lemma NobodyFills(s: State, c: int)
    requires Inv(s) && s.n <= c < 2 * s.n && s.lock.pid == c
    ensures !Filling(s)
  {
    forall p | 0 <= p < s.n
      ensures s.procs[p].pc != Advance
    {
      assert PlacedAt(s, p);
    }
  }

  // ---- Whole turns of one process while nobody else moves ----

  /** Nobody is past the lock or waits for it. */
  ghost predicate Open(s: State) {
    Sized(s) && s.lock == Lock(NOBODY, []) && s.full.waiting == []
  }

  /** A producer's turn up to the release of the lock. */
  function Filled(s: State, p: int): State
    requires Sized(s) && 0 <= p < s.n
  {
    var i := s.procs[p].index;
    s.(procs := s.procs[p := s.procs[p].(pc := CallRelease, product := i)],
       lock := Lock(p, []), empty := s.empty.(count := s.empty.count - 1),
       w := (s.w + 1) % BUFFER_SIZE, buffer := s.buffer[s.w := i], inserted := s.inserted + [i],
       tally := s.tally[p := s.tally[p] + 1])
  }

  lemma ProducerFills(s: State, p: int)
    requires Open(s) && s.empty.waiting == [] && s.empty.count > 0
    requires 0 <= p < s.n && s.procs[p].pc == Top && s.procs[p].index < ITEMS
    ensures Reaches(s, Filled(s, p))
  {
    var a := Step(s, p);
    var b := Step(a, p);
    var c := Step(b, p);
    var d := Step(c, p);
    assert d.procs == Filled(s, p).procs;
    assert d == Filled(s, p);
    Stay(d);
    StepThen(c, p, d);
    StepThen(b, p, d);
    StepThen(a, p, d);
    StepThen(s, p, d);
  }

  /** A consumer's turn up to the release of the lock. */
  function Taken(s: State, p: int): State
    requires Sized(s) && s.n <= p < 2 * s.n
  {
    var i := s.procs[p].index;
    s.(procs := s.procs[p := s.procs[p].(pc := CallRelease, product := i)],
       lock := Lock(p, []), full := s.full.(count := s.full.count - 1),
       r := (s.r + 1) % BUFFER_SIZE, removed := s.removed + [i],
       tally := s.tally[p := s.tally[p] + 1])
  }

  lemma ConsumerTakes(s: State, p: int)
    requires Open(s) && s.full.count > 0 && p !in s.empty.waiting
    requires s.n <= p < 2 * s.n && s.procs[p].pc == Top && s.procs[p].index < ITEMS
    requires s.buffer[s.r] == s.procs[p].index
    ensures Reaches(s, Taken(s, p))
  {
    var a := Step(s, p);
    var b := Step(a, p);
    var c := Step(b, p);
    var d := Step(c, p);
    var e := Step(d, p);
    assert e.procs == Taken(s, p).procs;
    assert e == Taken(s, p);
    Stay(e);
    StepThen(d, p, e);
    StepThen(c, p, e);
    StepThen(b, p, e);
    StepThen(a, p, e);
    StepThen(s, p, e);
  }

  /** The rest of either turn: release, signal, record. */
  function Ended(s: State, p: int): State
    requires Sized(s) && 0 <= p < 2 * s.n
  {
    var me := s.procs[p];
    var top := me.(pc := Top, index := me.index + 1, nums := if p < s.n then me.nums else me.nums + [me.product]);
    var t := s.(procs := s.procs[p := top], lock := Lock(NOBODY, []));
    if p < s.n then t.(full := SemSignal(s.full)) else t.(empty := SemSignal(s.empty))
  }

  lemma TurnEnds(s: State, p: int)
    requires Sized(s) && 0 <= p < 2 * s.n && s.procs[p].pc == CallRelease && s.lock == Lock(p, [])
    requires p !in s.full.waiting && p !in s.empty.waiting
    ensures Reaches(s, Ended(s, p))
  {
    var a := Step(s, p);
    var b := Step(a, p);
    var c := Step(b, p);
    assert c.procs == Ended(s, p).procs;
    assert c == Ended(s, p);
    Stay(c);
    StepThen(b, p, c);
    StepThen(a, p, c);
    StepThen(s, p, c);
  }

  // ---- A deceivable program can deadlock ----

  /** What pair `j` has moved when `k` items have passed: the last pair its `d` first, then the others ten each. */
  function Share(n: nat, d: nat, j: nat, k: nat): nat {
    if j == n - 1 then Min(k, d)
    else if k <= d + ITEMS * j then 0
    else if k >= d + ITEMS * (j + 1) then ITEMS
    else k - d - ITEMS * j
  }

  /** Producer and consumer of pair `j` are at the top of their loops, each with its share of the first `k` items. */
  ghost predicate SharesAt(s: State, d: nat, j: nat, k: nat)
    requires Sized(s) && j < s.n
  {
    && s.procs[j].pc == s.procs[s.n + j].pc == Top
    && s.procs[j].index == s.procs[s.n + j].index == Share(s.n, d, j, k)
  }

  /** `k` items have passed, each taken out as soon as it was put in. */
  ghost predicate PassedOn(s: State, d: nat, k: nat) {
    && Open(s) && s.full == Sem(0, []) && s.empty == Sem(BUFFER_SIZE, [])
    && |s.inserted| == |s.removed| == k
    && forall j :: 0 <= j < s.n ==> SharesAt(s, d, j, k)
  }

  /** The pair whose turn it is. */
  function Next(n: nat, d: nat, k: nat): int {
    if k < d then n - 1 else (k - d) / ITEMS
  }

  function Passed(s: State, j: nat): State
    requires Sized(s) && j < s.n
  {
    Ended(Taken(Ended(Filled(s, j), j), s.n + j), s.n + j)
  }

  lemma ProducerTurn(s: State, p: int)
    requires Open(s) && s.empty.waiting == [] && s.empty.count > 0
    requires 0 <= p < s.n && s.procs[p].pc == Top && s.procs[p].index < ITEMS
    ensures Reaches(s, Ended(Filled(s, p), p))
  {
    ProducerFills(s, p);
    TurnEnds(Filled(s, p), p);
    Onward(s, Filled(s, p), Ended(Filled(s, p), p));
  }

  lemma ConsumerTurn(s: State, p: int)
    requires Open(s) && s.full.count > 0 && p !in s.empty.waiting
    requires s.n <= p < 2 * s.n && s.procs[p].pc == Top && s.procs[p].index < ITEMS
    requires s.buffer[s.r] == s.procs[p].index
    ensures Reaches(s, Ended(Taken(s, p), p))
  {
    ConsumerTakes(s, p);
    TurnEnds(Taken(s, p), p);
    Onward(s, Taken(s, p), Ended(Taken(s, p), p));
  }

  lemma PairPasses(s: State, j: nat)
    requires Open(s) && s.full == Sem(0, []) && s.empty == Sem(BUFFER_SIZE, []) && s.w == s.r && j < s.n
    requires s.procs[j].pc == s.procs[s.n + j].pc == Top && s.procs[j].index == s.procs[s.n + j].index < ITEMS
    ensures Reaches(s, Passed(s, j))
  {
    ProducerTurn(s, j);
    var t := Ended(Filled(s, j), j);
    ConsumerTurn(t, s.n + j);
    Onward(s, t, Ended(Taken(t, s.n + j), s.n + j));
  }

  lemma Onward(s: State, t: State, u: State)
    requires Sized(s) && Sized(t) && Reaches(s, t) && Reaches(t, u)
    ensures Reaches(s, u)
  {
    var run :| LeadsTo(s, run, t);
    Chain(s, run, t, u);
  }

  lemma PassedOneMore(s: State, d: nat, k: nat)
    requires PassedOn(s, d, k) && d <= ITEMS && k < ITEMS * (s.n - 1) + d
    ensures var j := Next(s.n, d, k);
            && 0 <= j < s.n && SharesAt(s, d, j, k) && s.procs[j].index < ITEMS
            && PassedOn(Passed(s, j), d, k + 1)
  {
    var j, k1 := Next(s.n, d, k), k + 1;
    assert SharesAt(s, d, j, k);
    var t := Passed(s, j);
    forall i | 0 <= i < s.n
      ensures SharesAt(t, d, i, k1)
    {
      assert SharesAt(s, d, i, k);
    }
  }

  lemma PassOne(n: nat, buffer: seq<int>, s: State, d: nat, k: nat) returns (t: State)
    requires Known(n, buffer, s) && PassedOn(s, d, k) && d <= ITEMS && k < ITEMS * (n - 1) + d
    ensures Reaches(s, t) && Known(n, buffer, t) && PassedOn(t, d, k + 1)
  {
    PassedOneMore(s, d, k);
    PairPasses(s, Next(n, d, k));
    t := Passed(s, Next(n, d, k));
    KnownOnward(n, buffer, s, t);
  }

  lemma {:induction false} PassMany(n: nat, buffer: seq<int>, s: State, d: nat, k: nat, top: nat) returns (t: State)
    requires Known(n, buffer, s) && PassedOn(s, d, k) && k <= top <= ITEMS * (n - 1) + d && d <= ITEMS
    ensures Reaches(s, t) && Known(n, buffer, t) && PassedOn(t, d, top)
    decreases top - k
  {
    if k == top {
      Stay(s);
      t := s;
    } else {
      var u := PassOne(n, buffer, s, d, k);
      t := PassMany(n, buffer, u, d, k + 1, top);
      Onward(s, u, t);
    }
  }

  /** The last consumer looks at a slot that shows its next digit, while the ring is empty. */
  lemma Deceived(s: State, d: nat, k: nat) returns (t: State)
    requires PassedOn(s, d, k) && d <= k && d < ITEMS && s.n > 0 && s.buffer[s.r] == d
    ensures Reaches(s, t) && 2 * s.n - 1 in t.full.waiting && |t.inserted| == |t.removed|
  {
    assert SharesAt(s, d, s.n - 1, k);
    t := Lured(s, 2 * s.n - 1);
    GoesToSleep(s, 2 * s.n - 1);
  }

  function Lured(s: State, c: int): State
    requires Sized(s) && s.n <= c < 2 * s.n
  {
    s.(procs := s.procs[c := s.procs[c].(pc := Copy)], lock := Lock(c, []), full := Sem(0, [c]))
  }

  lemma GoesToSleep(s: State, c: int)
    requires Open(s) && s.full == Sem(0, []) && c !in s.empty.waiting
    requires s.n <= c < 2 * s.n && s.procs[c].pc == Top && s.procs[c].index < ITEMS
    requires s.buffer[s.r] == s.procs[c].index
    ensures Reaches(s, Lured(s, c))
  {
    var a := Step(s, c);
    var b := Step(a, c);
    var t := Step(b, c);
    assert t.procs == Lured(s, c).procs;
    assert t == Lured(s, c);
    Stay(t);
    StepThen(b, c, t);
    StepThen(a, c, t);
    StepThen(s, c, t);
  }

  /** A number of items after which the next slot shows the digit the last consumer waits for. */
  lemma WhenDeceived(n: nat, buffer: seq<int>) returns (k: nat, d: nat)
    requires |buffer| == BUFFER_SIZE && Deceivable(n, buffer)
    ensures n > 0 && d < ITEMS && d <= k <= BUFFER_SIZE && k <= ITEMS * (n - 1) + d
    ensures if k < BUFFER_SIZE then buffer[k] == d else d == 0
  {
    if n >= 5 {
      k, d := BUFFER_SIZE, 0;
    } else {
      k :| 0 <= k < |buffer| && Misleads(n, buffer, k);
      d := buffer[k];
    }
  }

  /** A consumer sleeps on the full slots with the lock, and in no continuation does it wake up. */
  ghost predicate Deadlocked(s: State, c: int) {
    Sized(s) && s.n <= c < 2 * s.n && s.lock.pid == c && c in s.full.waiting && !CanWake(s, c)
  }

  /**
   When so many items have passed that the next slot shows the digit the last consumer waits for,
   that consumer goes to sleep on the empty ring and keeps the lock for ever.
   */
  lemma {:induction false} DeceivableDeadlocks(n: nat, buffer: seq<int>) returns (s: State, c: int)
    requires |buffer| == BUFFER_SIZE && Deceivable(n, buffer)
    ensures Reachable(n, buffer, s) && Deadlocked(s, c)
  {
    var k, d := WhenDeceived(n, buffer);
    var t := PassFromStart(n, buffer, d, k);
    s, c := DeceivedForGood(n, buffer, t, d, k);
    assert Reachable(n, buffer, s) by { ReachableOnward(n, buffer, t, s); }
  }

  lemma ReachableOnward(n: nat, buffer: seq<int>, s: State, t: State)
    requires Reachable(n, buffer, s) && Sized(s) && Reaches(s, t)
    ensures Reachable(n, buffer, t)
  {
    Onward(Init(n, buffer), s, t);
  }

  lemma PassFromStart(n: nat, buffer: seq<int>, d: nat, k: nat) returns (t: State)
    requires |buffer| == BUFFER_SIZE && d <= ITEMS && k <= ITEMS * (n - 1) + d
    ensures Reachable(n, buffer, t) && Known(n, buffer, t) && PassedOn(t, d, k)
  {
    AtTheStart(n, buffer, d);
    t := PassMany(n, buffer, Init(n, buffer), d, 0, k);
  }

  lemma DeceivedForGood(n: nat, buffer: seq<int>, t: State, d: nat, k: nat) returns (s: State, c: int)
    requires Known(n, buffer, t) && PassedOn(t, d, k) && n > 0 && d < ITEMS && d <= k <= BUFFER_SIZE
    requires if k < BUFFER_SIZE then buffer[k] == d else d == 0
    ensures Reaches(t, s) && Deadlocked(s, c)
  {
    SlotOfNext(n, buffer, t, k, d);
    s := Deceived(t, d, k);
    assert Inv(s) && s.n == n by { KnownOnward(n, buffer, t, s); }
    c := 2 * n - 1;
    SleepsForGood(s, c);
  }

  lemma SleepsForGood(s: State, c: int)
    requires Inv(s) && c in s.full.waiting && |s.inserted| == |s.removed|
    ensures Deadlocked(s, c)
  {
    WakesIffRingHoldsItem(s, c);
    SleeperOwnsLock(s, c);
  }

  lemma AtTheStart(n: nat, buffer: seq<int>, d: nat)
    requires |buffer| == BUFFER_SIZE
    ensures Known(n, buffer, Init(n, buffer)) && PassedOn(Init(n, buffer), d, 0)
  {
    InvInit(n, buffer);
  }

  lemma SlotOfNext(n: nat, buffer: seq<int>, s: State, k: nat, d: nat)
    requires Known(n, buffer, s) && PassedOn(s, d, k) && n > 0 && k <= BUFFER_SIZE
    requires if k < BUFFER_SIZE then buffer[k] == d else d == 0
    ensures s.buffer[s.r] == d
  {
    forall p | 0 <= p < n
      ensures s.procs[p].pc != Advance
    {
      assert SharesAt(s, d, p, k);
    }
    if k < BUFFER_SIZE {
      SlotShows(buffer, s.inserted, k);
    } else {
      SlotShows(buffer, s.inserted, 0);
      DigitAtMostPlace(s.inserted, n, 0);
    }
  }

  // ---- Any other program can be completed ----

  ghost predicate Finished(s: State, p: int)
    requires Sized(s) && 0 <= p < 2 * s.n
  {
    s.procs[p].pc == Top && s.procs[p].index >= ITEMS
  }

  ghost predicate AllDone(s: State)
    requires Sized(s)
  {
    forall p :: 0 <= p < 2 * s.n ==> Finished(s, p)
  }

  /** Steps a process can make before it is back at the top of its loop. */
  function Rank(pc: Pc): nat {
    match pc
    case Top => 0 case Peek => 8 case CallWait => 7 case CallAcquire => 6 case Copy => 5 case Advance => 4
    case CallRelease => 3 case CallSignal => 2 case Record => 1 case CallLeave => 1
  }

  ghost function Ranks(s: State): seq<nat> {
    seq(|s.procs|, p requires 0 <= p < |s.procs| => Rank(s.procs[p].pc))
  }

  function Moves(s: State): nat {
    |s.inserted| + |s.removed|
  }

  lemma DrainStep(s: State, p: int)
    requires Inv(s) && CanStep(s, p) && s.procs[p].pc != Top
    ensures Moves(Step(s, p)) >= Moves(s) && Sum(Ranks(Step(s, p))) < Sum(Ranks(s))
  {
    var t := Step(s, p);
    assert PlacedAt(s, p);
    var v := Rank(t.procs[p].pc);
    assert v < Rank(s.procs[p].pc);
    assert Ranks(t) == Ranks(s)[p := v];
    SumUpdate(Ranks(s), p, v);
  }

  /** Everybody is at the top of its loop or sleeps until there is an empty slot. */
  ghost predicate Quiet(s: State) {
    Open(s) && forall p :: 0 <= p < 2 * s.n ==> QuietAt(s, p)
  }

  ghost predicate QuietAt(s: State, p: int)
    requires Sized(s) && 0 <= p < 2 * s.n
  {
    s.procs[p].pc == Top || (p < s.n && s.procs[p].pc == CallAcquire && p in s.empty.waiting)
  }

  ghost predicate Resting(s: State, p: int)
    requires Sized(s) && 0 <= p < 2 * s.n
  {
    s.procs[p].pc == Top || SemBuffer.Asleep(s, p)
  }

  /** When all who can have come back to the top, nobody is left past the lock, unless deceived. */
  lemma QuietAtLast(n: nat, buffer: seq<int>, s: State)
    requires Known(n, buffer, s) && !Deceivable(n, buffer)
    requires forall p :: 0 <= p < 2 * s.n ==> Resting(s, p)
    ensures Quiet(s)
  {
    if s.full.waiting != [] { NoSleeper(n, buffer, s); }
    if s.lock.pid != NOBODY { OwnerIsUp(s); }
    forall p | 0 <= p < 2 * s.n
      ensures QuietAt(s, p)
    {
      assert Resting(s, p) && PlacedAt(s, p);
    }
  }

  lemma SignallerIsUp(s: State, c: int) returns (p: int)
    requires Inv(s) && c in s.full.waiting && Live(s) != []
    ensures 0 <= p < 2 * s.n && !Resting(s, p)
  {
    p := SomeoneWillSignal(s, c);
  }

  lemma NoSleeper(n: nat, buffer: seq<int>, s: State)
    requires Known(n, buffer, s) && !Deceivable(n, buffer)
    requires forall p :: 0 <= p < 2 * s.n ==> Resting(s, p)
    ensures s.full.waiting == []
  {
    if s.full.waiting != [] {
      var c := s.full.waiting[0];
      assert c in s.full.waiting;
      if Live(s) == [] {
        OnlyIfDeceivable(n, buffer, s, c);
      } else {
        var p := SignallerIsUp(s, c);
      }
    }
  }

  /** The owner of the lock is past it and, with nobody asleep on the full slots, awake. */
  lemma OwnerIsUp(s: State)
    requires Inv(s) && s.lock.pid != NOBODY && s.full.waiting == []
    ensures 0 <= s.lock.pid < 2 * s.n && !Resting(s, s.lock.pid)
  {
    assert Engaged(M(s), s.lock.pid);
    assert PlacedAt(s, s.lock.pid);
  }

  lemma {:induction false} Drain(n: nat, buffer: seq<int>, s: State) returns (t: State)
    requires Known(n, buffer, s) && !Deceivable(n, buffer)
    ensures Known(n, buffer, t) && Reaches(s, t) && Quiet(t) && Moves(t) >= Moves(s)
    decreases Sum(Ranks(s))
  {
    SumNat(Ranks(s));
    if p :| 0 <= p < 2 * s.n && !Resting(s, p) {
      DrainStep(s, p);
      OneStep(n, buffer, s, p);
      t := Drain(n, buffer, Step(s, p));
      StepThen(s, p, t);
    } else {
      QuietAtLast(n, buffer, s);
      Stay(s);
      t := s;
    }
  }

  lemma OneStep(n: nat, buffer: seq<int>, s: State, p: int)
    requires Known(n, buffer, s) && CanStep(s, p)
    ensures Known(n, buffer, Step(s, p))
  {
    InvKept(s, p);
    ShowsKept(buffer, s, p);
  }

  /** In a quiet state the semaphores count the ring exactly. */
  lemma QuietCounts(s: State)
    requires Inv(s) && Quiet(s)
    ensures s.full.count == |Live(s)| && s.empty.count == BUFFER_SIZE - |Live(s)|
    ensures Live(s) == [] ==> s.empty.waiting == []
  {
    forall p | 0 <= p < 2 * s.n
      ensures FullCredit(s, p) == 0
      ensures EmptyCredit(s, p) <= 1 && (EmptyCredit(s, p) == 1 ==> p in s.empty.waiting)
    {
      assert QuietAt(s, p);
    }
    assert FullCredits(s) == seq(2 * s.n, _ => 0);
    SumConst(2 * s.n, 0);
    SumCovered(EmptyCredits(s), s.empty.waiting);
    forall i | 0 <= i < |s.empty.waiting|
      ensures 0 <= s.empty.waiting[i] < 2 * s.n && EmptyCredits(s)[s.empty.waiting[i]] >= 1
    {
      assert s.empty.waiting[i] in s.empty.waiting;
      assert PlacedAt(s, s.empty.waiting[i]);
    }
    SumAtLeast(EmptyCredits(s), s.empty.waiting);
  }

  /** In a quiet state somebody can be picked who will move an item, unless all items have moved. */
  lemma NextMove(n: nat, buffer: seq<int>, s: State) returns (t: State)
    requires Known(n, buffer, s) && Quiet(s) && Moves(s) < 2 * n * ITEMS
    ensures Known(n, buffer, t) && Reaches(s, t) && Moves(t) == Moves(s) + 1
  {
    QuietCounts(s);
    var p;
    if Live(s) != [] {
      p := SomeoneWantsNext(s.inserted, s.removed, s.tally, n);
      assert QuietAt(s, p) && InLoop(s, p) && PlacedAt(s, p);
      Take(s.buffer, s.r, Live(s));
      ConsumerTakes(s, p);
      t := Taken(s, p);
    } else {
      p := SumShort(s.tally[..n], ITEMS);
      assert QuietAt(s, p) && InLoop(s, p);
      ProducerFills(s, p);
      t := Filled(s, p);
    }
    KnownOnward(n, buffer, s, t);
  }

  lemma AtMostTen(s: State)
    requires Inv(s)
    ensures forall k :: 0 <= k < 2 * s.n ==> s.tally[k] <= ITEMS
  {
    forall k | 0 <= k < 2 * s.n
      ensures s.tally[k] <= ITEMS
    {
      assert InLoop(s, k);
    }
  }

  lemma QuietlyDone(s: State)
    requires Inv(s) && Quiet(s) && Moves(s) == 2 * s.n * ITEMS
    ensures AllDone(s)
  {
    AtMostTen(s);
    AllMoved(s.inserted, s.removed, s.tally, s.n);
    forall p | 0 <= p < 2 * s.n
      ensures Finished(s, p)
    {
      assert InLoop(s, p) && QuietAt(s, p);
    }
  }

  lemma {:induction false} CanFinish(n: nat, buffer: seq<int>, s: State) returns (t: State)
    requires Known(n, buffer, s) && !Deceivable(n, buffer)
    ensures Known(n, buffer, t) && Reaches(s, t) && AllDone(t)
    decreases 2 * n * ITEMS - Moves(s)
  {
    var q := Drain(n, buffer, s);
    AtMostTen(q);
    StreamsBounded(q.inserted, q.removed, q.tally, n);
    if Moves(q) < 2 * n * ITEMS {
      var u := NextMove(n, buffer, q);
      t := CanFinish(n, buffer, u);
      Onward(q, u, t);
    } else {
      QuietlyDone(q);
      Stay(q);
      t := q;
    }
    Onward(s, q, t);
  }

  // ---- The results ----

  /** A program that is not deceivable can be completed from every reachable state, each consumer holding 0 to 9. */
  lemma NeverStuck(n: nat, buffer: seq<int>, s: State) returns (t: State)
    requires Reachable(n, buffer, s) && !Deceivable(n, buffer)
    ensures Sized(s) && Reaches(s, t) && t.n == n && Sized(t) && AllDone(t)
    ensures forall p :: n <= p < 2 * n ==> t.procs[p].nums == [0, 1, 2, 3, 4, 5, 6, 7, 8, 9]
  {
    ReachableKnown(n, buffer, s);
    t := CanFinish(n, buffer, s);
    forall p | n <= p < 2 * n
      ensures t.procs[p].nums == [0, 1, 2, 3, 4, 5, 6, 7, 8, 9]
    {
      assert InLoop(t, p) && Finished(t, p);
      AllDigits();
    }
  }

  ghost predicate CanComplete(s: State)
    requires Sized(s)
  {
    exists t :: Reaches(s, t) && AllDone(t)
  }

  lemma DeadlockNeverCompletes(s: State, c: int)
    requires Inv(s) && Deadlocked(s, c)
    ensures !CanComplete(s)
  {
    if t :| Reaches(s, t) && AllDone(t) {
      var run :| LeadsTo(s, run, t);
      InvAlong(s, run, t);
      assert c in t.full.waiting;
      SleeperIsNotDone(t, c);
    }
  }

  lemma SleeperIsNotDone(s: State, c: int)
    requires Inv(s) && c in s.full.waiting
    ensures !AllDone(s)
  {
    assert PlacedAt(s, c);
    assert !Finished(s, c);
  }

  /** The program can deadlock if and only if it is deceivable. */
  lemma DeadlocksExactly(n: nat, buffer: seq<int>)
    requires |buffer| == BUFFER_SIZE
    ensures (exists s, c :: Reachable(n, buffer, s) && Deadlocked(s, c)) <==> Deceivable(n, buffer)
  {
    if Deceivable(n, buffer) {
      var s, c := DeceivableDeadlocks(n, buffer);
    } else if s, c :| Reachable(n, buffer, s) && Deadlocked(s, c) {
      ReachableKnown(n, buffer, s);
      WakesIffRingHoldsItem(s, c);
      OnlyIfDeceivable(n, buffer, s, c);
    }
  }

  /** Every reachable state can be completed if and only if the program is not deceivable. */
  lemma CompletesExactly(n: nat, buffer: seq<int>)
    requires |buffer| == BUFFER_SIZE
    ensures (forall s :: Reachable(n, buffer, s) ==> CanComplete(s)) <==> !Deceivable(n, buffer)
  {
    if Deceivable(n, buffer) {
      var s, c := DeceivableDeadlocks(n, buffer);
      ReachableInv(n, buffer, s);
      DeadlockNeverCompletes(s, c);
    } else {
      forall s | Reachable(n, buffer, s)
        ensures CanComplete(s)
      {
        var t := NeverStuck(n, buffer, s);
      }
    }
  }
}
