/**
 Why fair runs of the buffer programs end, whatever the program. Something is paid that is never taken
 back; as long as not all is paid some process is due to pay; and it gets nearer to that by each step
 of one process, its key, which can take that step and remains the key until it does.
 */
module FairRuns {

  /** What of a run the argument needs; step number `i` leads from moment `i` to moment `i + 1`. */
  datatype Account = Account(
    able: (nat, int) -> bool, paid: nat -> int,
    due: (nat, int) -> bool, far: (nat, int) -> nat, key: (nat, int) -> int)

  ghost predicate TurnWithin(run: seq<int>, i: nat, b: nat, p: int)
    requires i + b <= |run|
  {
    exists j :: i <= j < i + b && run[j] == p
  }

  /** Whoever can take a step takes one within `b` steps, unless the run is over before. */
  ghost predicate Fair(run: seq<int>, b: nat, able: (nat, int) -> bool) {
    forall i: nat, p :: i + b <= |run| && able(i, p) ==> TurnWithin(run, i, b, p)
  }

  ghost predicate Nearer(a: Account, run: seq<int>, i: nat, p: int)
    requires i < |run|
  {
    a.due(i + 1, p)
    && if run[i] == a.key(i, p) then a.far(i + 1, p) < a.far(i, p)
       else a.key(i + 1, p) == a.key(i, p) && a.far(i + 1, p) <= a.far(i, p)
  }

  ghost predicate GoesOn(a: Account, run: seq<int>, i: nat, p: int)
    requires i < |run|
  {
    && a.paid(i) <= a.paid(i + 1)
    && (a.due(i, p) ==> a.able(i, a.key(i, p)) && (a.paid(i) < a.paid(i + 1) || Nearer(a, run, i, p)))
  }

  ghost predicate Honest(a: Account, run: seq<int>) {
    forall i: nat, p :: i < |run| ==> GoesOn(a, run, i, p)
  }

  ghost predicate SomeoneDue(a: Account, i: nat, most: nat) {
    exists p :: a.due(i, p) && a.far(i, p) <= most
  }

  /** At every moment somebody is due, no farther than `most`, or all is paid and at most `tail` steps follow. */
  ghost predicate Settles(a: Account, run: seq<int>, top: int, most: nat, tail: nat) {
    forall i: nat :: i <= |run| ==> SettlesAt(a, run, i, top, most, tail)
  }

  ghost predicate SettlesAt(a: Account, run: seq<int>, i: nat, top: int, most: nat, tail: nat) {
    a.paid(i) <= top && if a.paid(i) < top then SomeoneDue(a, i, most) else |run| <= i + tail
  }

  /** By the next step of its key somebody has paid, or the process that is due is nearer. */
  lemma {:induction false} KeyTurn(a: Account, run: seq<int>, i: nat, j: nat, p: int) returns (x: nat)
    requires Honest(a, run) && i <= j < |run| && a.due(i, p) && run[j] == a.key(i, p)
    ensures i < x <= j + 1
    ensures a.paid(x) > a.paid(i) || (a.paid(x) == a.paid(i) && a.due(x, p) && a.far(x, p) < a.far(i, p))
    decreases j - i
  {
    assert GoesOn(a, run, i, p);
    x := i + 1;
    if a.paid(x) == a.paid(i) && run[i] != a.key(i, p) {
      x := KeyTurn(a, run, i + 1, j, p);
    }
  }

  lemma {:induction false} ProductGrows(a: nat, b: nat, c: nat)
    requires a <= b
    ensures 0 <= a * c <= b * c
    decreases b
  {
    if a < b {
      ProductGrows(a, b - 1, c);
      assert b * c == (b - 1) * c + c;
    } else if a > 0 {
      ProductGrows(a - 1, a - 1, c);
      assert a * c == (a - 1) * c + c;
    }
  }

  lemma Lower(a: nat, b: nat, c: nat, line: nat)
    requires a < b && line <= c
    ensures 0 <= a * c && a * c + line <= b * c
    ensures line < c ==> a * c + line < b * c
  {
    ProductGrows(0, a, c);
    ProductGrows(a + 1, b, c);
    assert (a + 1) * c == a * c + c;
  }

  /** The steps in which a process at distance `d` is waited for. */
  function Span(b: nat, d: nat): nat {
    (d + 1) * b
  }

  lemma SpanGrows(b: nat, e: nat, d: nat)
    requires e <= d
    ensures b <= Span(b, e) <= Span(b, d)
    ensures e < d ==> b + Span(b, e) <= Span(b, d)
  {
    ProductGrows(1, e + 1, b);
    ProductGrows(e + 1, d + 1, b);
    if e < d { Lower(e + 1, d + 1, b, b); }
  }

  /** Whoever is due brings about a payment within `b` steps for each step of its distance. */
  lemma {:induction false} Pays(a: Account, run: seq<int>, b: nat, i: nat, p: int) returns (x: nat)
    requires Honest(a, run) && Fair(run, b, a.able) && b > 0 && a.due(i, p)
    requires i + Span(b, a.far(i, p)) <= |run|
    ensures i < x <= i + Span(b, a.far(i, p)) && a.paid(x) > a.paid(i)
    decreases a.far(i, p)
  {
    SpanGrows(b, a.far(i, p), a.far(i, p));
    assert GoesOn(a, run, i, p);
    assert TurnWithin(run, i, b, a.key(i, p));
    var j :| i <= j < i + b && run[j] == a.key(i, p);
    x := KeyTurn(a, run, i, j, p);
    if a.paid(x) == a.paid(i) {
      SpanGrows(b, a.far(x, p), a.far(i, p));
      x := Pays(a, run, b, x, p);
    }
  }

  /** A fair run ends within a number of steps for each payment to be made, and some more. */
  lemma {:induction false} Ends(
    a: Account, run: seq<int>, b: nat, i: nat, top: int, most: nat, tail: nat, left: nat)
    requires Honest(a, run) && Fair(run, b, a.able) && b > 0 && Settles(a, run, top, most, tail)
    requires i <= |run| && left == top - a.paid(i)
    ensures |run| <= i + left * Span(b, most) + tail
    decreases left
  {
    assert SettlesAt(a, run, i, top, most, tail);
    var c := Span(b, most);
    if left > 0 {
      var p :| a.due(i, p) && a.far(i, p) <= most;
      SpanGrows(b, a.far(i, p), most);
      if i + Span(b, a.far(i, p)) <= |run| {
        var x := Pays(a, run, b, i, p);
        assert SettlesAt(a, run, x, top, most, tail);
        Ends(a, run, b, x, top, most, tail, top - a.paid(x));
        Lower(top - a.paid(x), left, c, c);
      } else {
        Lower(0, left, c, c);
      }
    }
  }

  // ---- Lines ----

  /** How many stand before `p` in the queue. */
  function Before(q: seq<int>, p: int): nat {
    if q == [] || q[0] == p then 0 else 1 + Before(q[1..], p)
  }

  lemma {:induction false} BeforeInQueue(q: seq<int>, p: int)
    requires p in q
    ensures Before(q, p) < |q|
  {
    if q[0] != p { BeforeInQueue(q[1..], p); }
  }

  lemma {:induction false} BeforeAppended(q: seq<int>, p: int, x: int)
    requires p in q
    ensures Before(q + [x], p) == Before(q, p)
  {
    if q[0] != p {
      assert (q + [x])[1..] == q[1..] + [x];
      BeforeAppended(q[1..], p, x);
    }
  }
}
