/** The circular buffer shared by the programs under apps/q2, q3 and q4. */
module Ring {

  const BUFFER_SIZE := 32

  /** The live items are the slots from `r` on, wrapping round, in order. */
  ghost predicate Holds(buffer: seq<int>, r: int, live: seq<int>) {
    && |buffer| == BUFFER_SIZE
    && 0 <= r < BUFFER_SIZE
    && |live| <= BUFFER_SIZE
    && forall i :: 0 <= i < |live| ==> buffer[(r + i) % BUFFER_SIZE] == live[i]
  }

  /** Going on from a slot by one is going on from the start by one more. */
  lemma NextSlot(r: int, i: int)
    requires 0 <= r < BUFFER_SIZE && 0 <= i <= BUFFER_SIZE
    ensures ((r + i) % BUFFER_SIZE + 1) % BUFFER_SIZE == (r + i + 1) % BUFFER_SIZE
    ensures ((r + 1) % BUFFER_SIZE + i) % BUFFER_SIZE == (r + i + 1) % BUFFER_SIZE
  {
    if r + i >= BUFFER_SIZE { assert (r + i) % BUFFER_SIZE == r + i - BUFFER_SIZE; }
    if r + 1 == BUFFER_SIZE { assert (r + i + 1) % BUFFER_SIZE == i % BUFFER_SIZE; }
  }

  lemma SlotsDiffer(r: int, i: int, j: int)
    requires 0 <= r < BUFFER_SIZE && 0 <= i < j < BUFFER_SIZE
    ensures (r + i) % BUFFER_SIZE != (r + j) % BUFFER_SIZE
  {
  }

  lemma Put(buffer: seq<int>, r: int, live: seq<int>, w: int, x: int)
    requires Holds(buffer, r, live) && |live| < BUFFER_SIZE
    requires w == (r + |live|) % BUFFER_SIZE
    ensures Holds(buffer[w := x], r, live + [x])
    ensures (w + 1) % BUFFER_SIZE == (r + |live + [x]|) % BUFFER_SIZE
  {
    var b := buffer[w := x];
    forall i | 0 <= i < |live| + 1
      ensures b[(r + i) % BUFFER_SIZE] == (live + [x])[i]
    {
      if i < |live| { SlotsDiffer(r, i, |live|); }
    }
    NextSlot(r, |live|);
  }

  lemma Take(buffer: seq<int>, r: int, live: seq<int>)
    requires Holds(buffer, r, live) && live != []
    ensures buffer[r] == live[0]
    ensures Holds(buffer, (r + 1) % BUFFER_SIZE, live[1..])
    ensures (r + |live|) % BUFFER_SIZE == ((r + 1) % BUFFER_SIZE + |live[1..]|) % BUFFER_SIZE
  {
    assert buffer[(r + 0) % BUFFER_SIZE] == live[0];
    forall i | 0 <= i < |live| - 1
      ensures buffer[((r + 1) % BUFFER_SIZE + i) % BUFFER_SIZE] == live[1..][i]
    {
      NextSlot(r, i);
      assert buffer[(r + (i + 1)) % BUFFER_SIZE] == live[i + 1];
    }
    NextSlot(r, |live| - 1);
  }

  /** The slots from `r` up to `w`. */
  function Slots(buffer: seq<int>, r: int, w: int): seq<int>
    requires |buffer| == BUFFER_SIZE
  {
    seq((w - r) % BUFFER_SIZE, i requires i >= 0 => buffer[(r + i) % BUFFER_SIZE])
  }

  /** In a ring that keeps one slot free, those are the live items. */
  lemma SlotsAreLive(buffer: seq<int>, r: int, live: seq<int>, w: int)
    requires Holds(buffer, r, live) && |live| < BUFFER_SIZE
    requires w == (r + |live|) % BUFFER_SIZE
    ensures Slots(buffer, r, w) == live
  {
    assert (w - r) % BUFFER_SIZE == |live|;
  }

  /** What is found between any two indices counts as live. */
  lemma SlotsHold(buffer: seq<int>, r: int, w: int)
    requires |buffer| == BUFFER_SIZE && 0 <= r < BUFFER_SIZE && 0 <= w < BUFFER_SIZE
    ensures Holds(buffer, r, Slots(buffer, r, w)) && |Slots(buffer, r, w)| < BUFFER_SIZE
    ensures w == (r + |Slots(buffer, r, w)|) % BUFFER_SIZE
  {
  }
}
