/** Counting over sequences: the arithmetic the buffer programs rest on. */
module Tally {

  /** How often `d` occurs in `w`. */
  function Occurrences(w: seq<int>, d: int): nat {
    if w == [] then 0
    else Occurrences(w[..|w| - 1], d) + if w[|w| - 1] == d then 1 else 0
  }

  /** How many entries of `ds` are at least `d`. */
  function AtLeast(ds: seq<nat>, d: int): nat {
    if ds == [] then 0
    else AtLeast(ds[..|ds| - 1], d) + if ds[|ds| - 1] >= d then 1 else 0
  }

  function Sum(ds: seq<int>): int {
    if ds == [] then 0 else Sum(ds[..|ds| - 1]) + ds[|ds| - 1]
  }

  ghost predicate NoDup<T>(s: seq<T>) {
    forall i, j :: 0 <= i < j < |s| ==> s[i] != s[j]
  }

  lemma OccurrencesAppend(w: seq<int>, x: int, d: int)
    ensures Occurrences(w + [x], d) == Occurrences(w, d) + if x == d then 1 else 0
  {
    assert (w + [x])[..|w|] == w;
  }

  lemma {:induction false} AtLeastBump(ds: seq<nat>, k: nat, d: int)
    requires k < |ds|
    ensures AtLeast(ds[k := ds[k] + 1], d) == AtLeast(ds, d) + if ds[k] + 1 == d then 1 else 0
  {
    var es := ds[k := ds[k] + 1];
    var m := |ds| - 1;
    if k == m {
      assert es[..m] == ds[..m];
    } else {
      assert es[..m] == ds[..m][k := ds[..m][k] + 1];
      AtLeastBump(ds[..m], k, d);
    }
  }

  /** An entry equal to `d` exists exactly when fewer entries reach `d + 1` than `d`. */
  lemma {:induction false} AtLeastGap(ds: seq<nat>, d: nat)
    ensures AtLeast(ds, d + 1) <= AtLeast(ds, d)
    ensures AtLeast(ds, d + 1) < AtLeast(ds, d) <==> exists k :: 0 <= k < |ds| && ds[k] == d
  {
    if ds != [] {
      var m := |ds| - 1;
      AtLeastGap(ds[..m], d);
      if k :| 0 <= k < m && ds[..m][k] == d { assert ds[k] == d; }
      if k :| 0 <= k < |ds| && ds[k] == d { assert k == m || ds[..m][k] == d; }
    }
  }

  lemma {:induction false} AtLeastAll(ds: seq<nat>)
    ensures AtLeast(ds, 0) == |ds|
  {
    if ds != [] { AtLeastAll(ds[..|ds| - 1]); }
  }

  lemma {:induction false} AtLeastZeros(n: nat, d: nat)
    requires d > 0
    ensures AtLeast(seq(n, _ => 0), d) == 0
  {
    if n > 0 {
      var zs: seq<nat> := seq(n, _ => 0);
      assert zs[..n - 1] == seq(n - 1, _ => 0);
      AtLeastZeros(n - 1, d);
    }
  }

  lemma {:induction false} SumUpdate(ds: seq<int>, k: nat, v: int)
    requires k < |ds|
    ensures Sum(ds[k := v]) == Sum(ds) - ds[k] + v
  {
    var m := |ds| - 1;
    if k == m {
      assert ds[k := v][..m] == ds[..m];
    } else {
      assert ds[k := v][..m] == ds[..m][k := v];
      SumUpdate(ds[..m], k, v);
    }
  }

  lemma {:induction false} SumConst(n: nat, v: int)
    ensures Sum(seq(n, _ => v)) == n * v
  {
    if n > 0 {
      var zs := seq(n, _ => v);
      assert zs[..n - 1] == seq(n - 1, _ => v);
      SumConst(n - 1, v);
      assert n * v == (n - 1) * v + v;
    }
  }

  /** Entries never exceed `top`, so the total falls short by at least one for every listed entry below it. */
  lemma {:induction false} SumShortfall(ds: seq<int>, top: int, q: seq<int>)
    requires forall k :: 0 <= k < |ds| ==> ds[k] <= top
    requires NoDup(q)
    requires forall i :: 0 <= i < |q| ==> 0 <= q[i] < |ds| && ds[q[i]] < top
    ensures Sum(ds) + |q| <= |ds| * top
    decreases |q|
  {
    if q == [] {
      SumAtMost(ds, top);
    } else {
      var k := q[0];
      SumUpdate(ds, k, ds[k] + 1);
      SumShortfall(ds[k := ds[k] + 1], top, q[1..]);
    }
  }

  lemma {:induction false} SumAtMost(ds: seq<int>, top: int)
    requires forall k :: 0 <= k < |ds| ==> ds[k] <= top
    ensures Sum(ds) <= |ds| * top
  {
    if ds != [] {
      SumAtMost(ds[..|ds| - 1], top);
      assert |ds| * top == (|ds| - 1) * top + top;
    }
  }

  /** Distinct listed entries of at least one each add up to at least their number. */
  lemma {:induction false} SumAtLeast(ds: seq<nat>, q: seq<int>)
    requires NoDup(q)
    requires forall i :: 0 <= i < |q| ==> 0 <= q[i] < |ds| && ds[q[i]] >= 1
    ensures Sum(ds) >= |q|
    decreases |q|
  {
    if q == [] {
      SumNat(ds);
    } else {
      var k := q[0];
      SumUpdate(ds, k, ds[k] - 1);
      SumAtLeast(ds[k := ds[k] - 1], q[1..]);
    }
  }

  lemma {:induction false} SumNat(ds: seq<nat>)
    ensures Sum(ds) >= 0
  {
    if ds != [] { SumNat(ds[..|ds| - 1]); }
  }

  /** A positive total has a positive entry. */
  lemma {:induction false} SumPositive(ds: seq<nat>) returns (k: nat)
    requires Sum(ds) > 0
    ensures k < |ds| && ds[k] > 0
  {
    var m := |ds| - 1;
    if ds[m] > 0 { k := m; } else { k := SumPositive(ds[..m]); }
  }

  /** Reaching the largest possible total means every entry is at the top. */
  lemma SumFull(ds: seq<int>, top: int, k: nat)
    requires k < |ds| && Sum(ds) == |ds| * top
    requires forall k :: 0 <= k < |ds| ==> ds[k] <= top
    ensures ds[k] == top
  {
    if ds[k] < top { SumShortfall(ds, top, [k]); }
  }

  /** Short of the largest total, some entry is below the top. */
  lemma {:induction false} SumShort(ds: seq<int>, top: int) returns (k: nat)
    requires Sum(ds) < |ds| * top
    ensures k < |ds| && ds[k] < top
  {
    var m := |ds| - 1;
    if ds[m] < top {
      k := m;
    } else {
      assert |ds| * top == m * top + top;
      k := SumShort(ds[..m], top);
    }
  }

  /** Zeros and ones: the list of all places of zeros makes up the rest of the length. */
  lemma ZerosListed(ds: seq<nat>, q: seq<int>)
    requires NoDup(q) && forall k :: 0 <= k < |ds| ==> ds[k] <= 1 && (k in q <==> ds[k] == 0)
    requires forall i :: 0 <= i < |q| ==> 0 <= q[i] < |ds|
    ensures Sum(ds) + |q| == |ds|
  {
    forall i | 0 <= i < |q|
      ensures ds[q[i]] < 1
    {
      assert q[i] in q;
    }
    SumShortfall(ds, 1, q);
    var rest: seq<nat> := seq(|ds|, i requires 0 <= i < |ds| => 1 - ds[i]);
    SumComplement(ds, rest);
    SumCovered(rest, q);
  }

  lemma {:induction false} SumComplement(ds: seq<int>, rest: seq<int>)
    requires |ds| == |rest| && forall i :: 0 <= i < |ds| ==> rest[i] == 1 - ds[i]
    ensures Sum(ds) + Sum(rest) == |ds|
  {
    if ds != [] { SumComplement(ds[..|ds| - 1], rest[..|ds| - 1]); }
  }

  /** A list of distinct numbers from a range is no longer than the range. */
  lemma DistinctInRange(q: seq<int>, lo: int, hi: int)
    requires lo <= hi
    requires NoDup(q)
    requires forall i :: 0 <= i < |q| ==> lo <= q[i] < hi
    ensures |q| <= hi - lo
    decreases hi - lo
  {
    if q != [] {
      assert lo <= q[0] < hi;
      if k :| 0 <= k < |q| && q[k] == hi - 1 {
        var r := q[..k] + q[k + 1..];
        DistinctInRange(r, lo, hi - 1);
      } else {
        DistinctInRange(q, lo, hi - 1);
      }
    }
  }

  lemma NoDupJoin<T>(a: seq<T>, b: seq<T>)
    requires NoDup(a) && NoDup(b) && forall x :: x in a ==> x !in b
    ensures NoDup(a + b)
  {
    forall i, j | 0 <= i < j < |a + b|
      ensures (a + b)[i] != (a + b)[j]
    {
      if i < |a| <= j { assert a[i] in a && b[j - |a|] in b; }
    }
  }

  /** What remains of a queue of distinct entries when its first entry leaves. */
  lemma QueueTail(q: seq<int>)
    requires NoDup(q) && q != []
    ensures NoDup(q[1..])
    ensures forall x :: x in q[1..] <==> x in q && x != q[0]
  {
    forall x | x in q && x != q[0]
      ensures x in q[1..]
    {
      var i :| 0 <= i < |q| && q[i] == x;
      assert q[1..][i - 1] == x;
    }
  }

  /**
   Every prefix holds each digit at most as often as the digit before it, and the digit 0 at most
   `n` times: what `n` writers counting upwards from 0 can have written.
   */
  ghost predicate Ballot(w: seq<int>, n: nat) {
    forall k, d: nat :: 0 <= k <= |w| ==> Occurrences(w[..k], d) <= Ceiling(w[..k], d, n)
  }

  function Ceiling(w: seq<int>, d: nat, n: nat): nat {
    if d == 0 then n else Occurrences(w, d - 1)
  }

  /** `ds[k]` is how many items party `k` has moved, each party moving 0, 1, 2, ... in this order. */
  ghost predicate Counts(w: seq<int>, ds: seq<nat>) {
    && |w| == Sum(ds)
    && forall d: nat :: Occurrences(w, d) == AtLeast(ds, d + 1)
  }

  lemma CountsAppend(w: seq<int>, ds: seq<nat>, k: nat)
    requires Counts(w, ds) && k < |ds|
    ensures Counts(w + [ds[k]], ds[k := ds[k] + 1])
  {
    SumUpdate(ds, k, ds[k] + 1);
    forall d: nat
      ensures Occurrences(w + [ds[k]], d) == AtLeast(ds[k := ds[k] + 1], d + 1)
    {
      OccurrencesAppend(w, ds[k], d);
      AtLeastBump(ds, k, d + 1);
    }
  }

  lemma CountsEmpty(n: nat)
    ensures Counts([], seq(n, _ => 0))
  {
    SumConst(n, 0);
    forall d: nat
      ensures Occurrences([], d) == AtLeast(seq(n, _ => 0), d + 1)
    {
      AtLeastZeros(n, d + 1);
    }
  }

  lemma BallotAppend(w: seq<int>, ds: seq<nat>, k: nat)
    requires Counts(w, ds) && Ballot(w, |ds|) && k < |ds|
    ensures Ballot(w + [ds[k]], |ds|)
  {
    var v := w + [ds[k]];
    forall j, d: nat | 0 <= j <= |v|
      ensures Occurrences(v[..j], d) <= Ceiling(v[..j], d, |ds|)
    {
      if j <= |w| {
        assert v[..j] == w[..j];
      } else {
        assert v[..j] == v;
        CountsAppend(w, ds, k);
        var es := ds[k := ds[k] + 1];
        AtLeastGap(es, d);
        AtLeastAll(es);
      }
    }
  }

  /**
   The next item to leave is always one that some party is waiting to take: the items taken so far
   together with the head form a ballot prefix.
   */
  lemma HeadIsWanted(inserted: seq<int>, removed: seq<int>, takers: seq<nat>)
    requires Ballot(inserted, |takers|)
    requires |removed| < |inserted| && removed == inserted[..|removed|]
    requires Counts(removed, takers)
    requires inserted[|removed|] >= 0
    ensures exists k :: 0 <= k < |takers| && takers[k] == inserted[|removed|]
  {
    var d: nat := inserted[|removed|];
    HeadShortage(inserted, removed, |takers|);
    assert AtLeast(takers, d + 1) < AtLeast(takers, d) by {
      assert Occurrences(removed, d) == AtLeast(takers, d + 1);
      if d == 0 {
        AtLeastAll(takers);
      } else {
        assert Occurrences(removed, d - 1) == AtLeast(takers, (d - 1) + 1);
      }
    }
    AtLeastGap(takers, d);
  }

  lemma HeadShortage(inserted: seq<int>, removed: seq<int>, n: nat)
    requires Ballot(inserted, n)
    requires |removed| < |inserted| && removed == inserted[..|removed|]
    requires inserted[|removed|] >= 0
    ensures Occurrences(removed, inserted[|removed|]) < Ceiling(removed, inserted[|removed|], n)
  {
    var d: nat := inserted[|removed|];
    var u := inserted[..|removed| + 1];
    assert u == removed + [d];
    OccurrencesAppend(removed, d, d);
    OccurrencesAppend(removed, d, d - 1);
    assert Occurrences(u, d) <= Ceiling(u, d, n);
  }

  // ---- The two streams through a ring that `n` producers fill and `n` consumers empty ----

  /** The number of items each producer has to insert and each consumer to remove. */
  const ITEMS := 10

  lemma AllDigits()
    ensures seq(ITEMS, i => i) == [0, 1, 2, 3, 4, 5, 6, 7, 8, 9]
  {
  }

  /** What `n` parties that each move 0, 1, 2, ... can have moved. */
  ghost predicate Fit(w: seq<int>, n: nat) {
    Ballot(w, n) && forall i :: 0 <= i < |w| ==> 0 <= w[i] < ITEMS
  }

  lemma FitAppend(w: seq<int>, ds: seq<nat>, k: nat)
    requires Counts(w, ds) && Fit(w, |ds|) && k < |ds| && ds[k] < ITEMS
    ensures Fit(w + [ds[k]], |ds|)
  {
    BallotAppend(w, ds, k);
  }

  lemma FitPrefix(w: seq<int>, n: nat, m: nat)
    requires Fit(w, n) && m <= |w|
    ensures Fit(w[..m], n)
  {
    forall k, d: nat | 0 <= k <= m
      ensures Occurrences(w[..m][..k], d) <= Ceiling(w[..m][..k], d, n)
    {
      assert w[..m][..k] == w[..k];
    }
  }

  /** What went in and what came out, by who moved what: every process moves 0, 1, 2, ... */
  ghost predicate Streams(inserted: seq<int>, removed: seq<int>, tally: seq<nat>, n: nat)
    requires |tally| == 2 * n
  {
    && Counts(inserted, tally[..n]) && Fit(inserted, n)
    && Counts(removed, tally[n..]) && Fit(removed, n)
  }

  lemma StreamsStart(n: nat)
    ensures Streams([], [], seq(2 * n, _ => 0), n)
  {
    var tally: seq<nat> := seq(2 * n, _ => 0);
    assert tally[..n] == seq(n, _ => 0) && tally[n..] == seq(n, _ => 0);
    CountsEmpty(n);
  }

  lemma StreamsInsert(inserted: seq<int>, removed: seq<int>, tally: seq<nat>, n: nat, p: nat)
    requires |tally| == 2 * n && Streams(inserted, removed, tally, n) && p < n && tally[p] < ITEMS
    ensures Streams(inserted + [tally[p]], removed, tally[p := tally[p] + 1], n)
  {
    var after := tally[p := tally[p] + 1];
    assert after[..n] == tally[..n][p := tally[p] + 1] && after[n..] == tally[n..];
    CountsAppend(inserted, tally[..n], p);
    FitAppend(inserted, tally[..n], p);
  }

  lemma StreamsRemove(inserted: seq<int>, removed: seq<int>, tally: seq<nat>, n: nat, p: nat)
    requires |tally| == 2 * n && Streams(inserted, removed, tally, n) && n <= p < 2 * n && tally[p] < ITEMS
    ensures Streams(inserted, removed + [tally[p]], tally[p := tally[p] + 1], n)
  {
    var after := tally[p := tally[p] + 1];
    assert after[n..] == tally[n..][p - n := tally[p] + 1] && after[..n] == tally[..n];
    CountsAppend(removed, tally[n..], p - n);
    FitAppend(removed, tally[n..], p - n);
  }

  /** While something is left to come out of `stream`, some consumer expects exactly the next item. */
  lemma NextIsWanted(stream: seq<int>, removed: seq<int>, tally: seq<nat>, n: nat) returns (c: int)
    requires |tally| == 2 * n && Counts(removed, tally[n..])
    requires |removed| < |stream| && removed == stream[..|removed|] && Fit(stream[..|removed| + 1], n)
    ensures n <= c < 2 * n && tally[c] == stream[|removed|] < ITEMS
  {
    var upto := stream[..|removed| + 1];
    assert upto[..|removed|] == removed && upto[|removed|] == stream[|removed|];
    HeadIsWanted(upto, removed, tally[n..]);
    var k :| 0 <= k < |tally[n..]| && tally[n..][k] == upto[|removed|];
    c := n + k;
  }

  lemma SomeoneWantsNext(inserted: seq<int>, removed: seq<int>, tally: seq<nat>, n: nat) returns (c: int)
    requires |tally| == 2 * n && Streams(inserted, removed, tally, n)
    requires |removed| < |inserted| && removed == inserted[..|removed|]
    ensures n <= c < 2 * n && tally[c] == inserted[|removed|] < ITEMS
  {
    FitPrefix(inserted, n, |removed| + 1);
    c := NextIsWanted(inserted, removed, tally, n);
  }

  lemma StreamsBounded(inserted: seq<int>, removed: seq<int>, tally: seq<nat>, n: nat)
    requires |tally| == 2 * n && Streams(inserted, removed, tally, n)
    requires forall k :: 0 <= k < 2 * n ==> tally[k] <= ITEMS
    ensures |inserted| <= n * ITEMS && |removed| <= n * ITEMS
  {
    SumAtMost(tally[..n], ITEMS);
    SumAtMost(tally[n..], ITEMS);
  }

  /** When everything has been moved, everybody has moved all its items. */
  lemma AllMoved(inserted: seq<int>, removed: seq<int>, tally: seq<nat>, n: nat)
    requires |tally| == 2 * n && Streams(inserted, removed, tally, n)
    requires forall k :: 0 <= k < 2 * n ==> tally[k] <= ITEMS
    requires |inserted| + |removed| == 2 * n * ITEMS
    ensures forall k :: 0 <= k < 2 * n ==> tally[k] == ITEMS
  {
    StreamsBounded(inserted, removed, tally, n);
    forall k | 0 <= k < 2 * n
      ensures tally[k] == ITEMS
    {
      if k < n {
        SumFull(tally[..n], ITEMS, k);
      } else {
        SumFull(tally[n..], ITEMS, k - n);
      }
    }
  }

  /** Digits come up in order: the item at place `i` is at most `i`. */
  lemma {:induction false} DigitAtMostPlace(inserted: seq<int>, n: nat, i: nat)
    requires Ballot(inserted, n) && i < |inserted| && inserted[i] >= 0
    ensures inserted[i] <= i
  {
    var d: nat := inserted[i];
    if d > 0 {
      var front := inserted[..i];
      var u := inserted[..i + 1];
      assert u == front + [d];
      OccurrencesAppend(front, d, d);
      OccurrencesAppend(front, d, d - 1);
      assert Occurrences(u, d) <= Ceiling(u, d, n);
      var j := Find(front, d - 1);
      DigitAtMostPlace(inserted, n, j);
    }
  }

  lemma {:induction false} Find(w: seq<int>, d: int) returns (j: nat)
    requires Occurrences(w, d) > 0
    ensures j < |w| && w[j] == d
  {
    var m := |w| - 1;
    if w[m] == d { j := m; } else { j := Find(w[..m], d); }
  }

  /** One entry and the largest the others can add bound the total. */
  lemma SumBesides(ds: seq<nat>, k: nat)
    requires k < |ds| && forall i :: 0 <= i < |ds| ==> ds[i] <= ITEMS
    ensures ds[k] <= Sum(ds) <= ITEMS * (|ds| - 1) + ds[k]
  {
    SumUpdate(ds, k, ITEMS);
    SumAtMost(ds[k := ITEMS], ITEMS);
    SumUpdate(ds, k, 0);
    SumNat(ds[k := 0]);
  }

  /** Entries that are at most one add up to at most the length of a list that holds all places of ones. */
  lemma {:induction false} SumCovered(ds: seq<nat>, q: seq<int>)
    requires forall k :: 0 <= k < |ds| ==> ds[k] <= 1 && (ds[k] == 1 ==> k in q)
    ensures Sum(ds) <= |q|
    decreases |q|
  {
    if q == [] {
      SumAtMost(ds, 0);
    } else if 0 <= q[0] < |ds| {
      var ds1 := ds[q[0] := 0];
      SumUpdate(ds, q[0], 0);
      forall k | 0 <= k < |ds1|
        ensures ds1[k] <= 1 && (ds1[k] == 1 ==> k in q[1..])
      {
        assert ds1[k] == 1 ==> k in q && k != q[0];
      }
      SumCovered(ds1, q[1..]);
    } else {
      SumCovered(ds, q[1..]);
    }
  }
}
