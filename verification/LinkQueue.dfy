/**
 The doubly linked queues of os/queue.c on the heap. A queue's contents is the sequence of its links
 from `first` to `last`; each routine is shown to make one edit of that sequence.
 */
module LinkQueue {

  class Link {
    var next: Link?
    var prev: Link?
    var queue: Queue?
    var obj: int

    constructor ()
      ensures next == null && prev == null && queue == null
    {
      next, prev, queue, obj := null, null, null, 0;
    }
  }

  class Queue {
    var first: Link?
    var last: Link?
    var nitems: int
    ghost var items: seq<Link>

    /** AQueueInit. */
    constructor ()
      ensures Valid() && items == []
    {
      first, last, nitems, items := null, null, 0, [];
    }

    /** The pointers, the count and the links' own queue fields describe `items`. */
    ghost predicate Valid()
      reads this, items
    {
      && nitems == |items|
      && (forall i, j :: 0 <= i < j < |items| ==> items[i] != items[j])
      && first == (if items == [] then null else items[0])
      && last == (if items == [] then null else items[|items| - 1])
      && (forall i :: 0 <= i < |items| ==> Placed(items, i, this))
    }
  }

  /** The link at position `i` of `s`, or null outside. */
  ghost function At(s: seq<Link>, i: int): Link? {
    if 0 <= i < |s| then s[i] else null
  }

  ghost predicate Placed(s: seq<Link>, i: int, q: Queue)
    requires 0 <= i < |s|
    reads s[i]
  {
    s[i].queue == q && s[i].prev == At(s, i - 1) && s[i].next == At(s, i + 1)
  }

  /** `s` with `x` behind position `i`. */
  function InsertedAt<T>(s: seq<T>, i: nat, x: T): seq<T>
    requires i <= |s|
  {
    s[..i] + [x] + s[i..]
  }

  function RemovedAt<T>(s: seq<T>, i: nat): seq<T>
    requires i < |s|
  {
    s[..i] + s[i + 1..]
  }

  lemma InsertedAtFacts<T>(s: seq<T>, k: nat, x: T)
    requires k <= |s|
    ensures var t := InsertedAt(s, k, x);
            && |t| == |s| + 1 && t[k] == x
            && (forall i :: 0 <= i < k ==> t[i] == s[i])
            && (forall i :: k < i < |t| ==> t[i] == s[i - 1])
  {
  }

  lemma RemovedAtFacts<T>(s: seq<T>, k: nat)
    requires k < |s|
    ensures var t := RemovedAt(s, k);
            && |t| == |s| - 1
            && (forall i :: 0 <= i < k ==> t[i] == s[i])
            && (forall i :: k <= i < |t| ==> t[i] == s[i + 1])
  {
  }

  /** What an edit of `q` that involves link `l` may change. */
  ghost function Touched(q: Queue?, l: Link?): set<object>
    reads q
  {
    (if q == null then {} else {q as object} + set x | x in q.items) + (if l == null then {} else {l as object})
  }

  lemma KnowTheirQueue(q: Queue)
    requires q.Valid()
    ensures forall x :: x in q.items ==> x.queue == q
  {
    forall x | x in q.items
      ensures x.queue == q
    {
      var i :| 0 <= i < |q.items| && q.items[i] == x;
      assert Placed(q.items, i, q);
    }
  }

  /** No link of a queue is on another queue: what is done to one leaves the others alone. */
  lemma QueuesDisjoint(q: Queue, r: Queue)
    requires q.Valid() && r.Valid() && q != r
    ensures forall x :: x in q.items ==> x !in r.items
  {
    KnowTheirQueue(q);
    KnowTheirQueue(r);
  }

  /** AQueueInsertAfter: `after`, at position `k`, must be on `q`, or be absent while `q` is empty. */
  method InsertAfter(q: Queue?, after: Link?, l: Link?, ghost k: nat) returns (ok: bool)
    requires q != null && l != null ==> q.Valid() && l !in q.items
    requires q != null && after != null && after.queue == q ==> k < |q.items| && q.items[k] == after
    modifies Touched(q, l)
    ensures ok == (q != null && l != null && if after == null then old(q.items) == [] else old(after.queue) == q)
    ensures ok ==> q.Valid() && q.items == InsertedAt(old(q.items), if after == null then 0 else k + 1, l)
    ensures !ok ==> unchanged(old(Touched(q, l)))
    ensures l != null ==> l.obj == old(l.obj)
    ensures q != null ==> forall x :: x in old(q.items) ==> x.obj == old(x.obj)
  {
    if l == null { return false; }
    if q == null { return false; }
    if after != null {
      if after.queue != q { return false; }
    } else {
      if q.first != null { return false; }
      if q.last != null { return false; }
      if q.nitems != 0 { return false; }
    }
    if after == null {
      StartQueue(q, l);
    } else {
      SpliceAfter(q, after, l, k);
    }
    return true;
  }

  /** The insertions' common case of an empty queue. */
  method StartQueue(q: Queue, l: Link)
    requires q.Valid() && q.items == []
    modifies q, l
    ensures q.Valid() && q.items == [l] && l.obj == old(l.obj)
  {
    l.queue := q;
    l.prev := null;
    l.next := null;
    q.first := l;
    q.last := l;
    q.nitems := 1;
    q.items := [l];
  }

  method SpliceAfter(q: Queue, after: Link, l: Link, ghost k: nat)
    requires q.Valid() && l !in q.items && k < |q.items| && q.items[k] == after
    modifies q, l, q.items
    ensures q.Valid() && q.items == InsertedAt(old(q.items), k + 1, l)
    ensures l.obj == old(l.obj) && forall x :: x in old(q.items) ==> x.obj == old(x.obj)
  {
    ghost var s := q.items;
    assert Placed(s, k, q) && after.next == At(s, k + 1);
    l.queue := q;
    l.prev := after;
    l.next := after.next;
    after.next := l;
    if l.next != null { l.next.prev := l; }
    if q.last == after { q.last := l; }
    q.nitems := q.nitems + 1;
    q.items := InsertedAt(s, k + 1, l);
    InsertedAtFacts(s, k + 1, l);
    forall i | 0 <= i < |q.items|
      ensures Placed(q.items, i, q)
    {
      if i <= k {
        assert old(Placed(s, i, q));
      } else if i > k + 1 {
        assert old(Placed(s, i - 1, q));
      }
    }
  }

  /** AQueueInsertBefore: `before`, at position `k`, must be on `q`, or be absent while `q` is empty. */
  method InsertBefore(q: Queue?, before: Link?, l: Link?, ghost k: nat) returns (ok: bool)
    requires q != null && l != null ==> q.Valid() && l !in q.items
    requires q != null && before != null && before.queue == q ==> k < |q.items| && q.items[k] == before
    modifies Touched(q, l)
    ensures ok == (q != null && l != null && if before == null then old(q.items) == [] else old(before.queue) == q)
    ensures ok ==> q.Valid() && q.items == InsertedAt(old(q.items), if before == null then 0 else k, l)
    ensures !ok ==> unchanged(old(Touched(q, l)))
    ensures l != null ==> l.obj == old(l.obj)
    ensures q != null ==> forall x :: x in old(q.items) ==> x.obj == old(x.obj)
  {
    if l == null { return false; }
    if q == null { return false; }
    if before != null {
      if before.queue != q { return false; }
    } else {
      if q.first != null { return false; }
      if q.last != null { return false; }
      if q.nitems != 0 { return false; }
    }
    if before == null {
      StartQueue(q, l);
    } else {
      SpliceBefore(q, before, l, k);
    }
    return true;
  }

  method SpliceBefore(q: Queue, before: Link, l: Link, ghost k: nat)
    requires q.Valid() && l !in q.items && k < |q.items| && q.items[k] == before
    modifies q, l, q.items
    ensures q.Valid() && q.items == InsertedAt(old(q.items), k, l)
    ensures l.obj == old(l.obj) && forall x :: x in old(q.items) ==> x.obj == old(x.obj)
  {
    ghost var s := q.items;
    assert Placed(s, k, q) && before.prev == At(s, k - 1);
    l.queue := q;
    l.next := before;
    l.prev := before.prev;
    before.prev := l;
    if l.prev != null { l.prev.next := l; }
    if q.first == before { q.first := l; }
    q.nitems := q.nitems + 1;
    q.items := InsertedAt(s, k, l);
    InsertedAtFacts(s, k, l);
    forall i | 0 <= i < |q.items|
      ensures Placed(q.items, i, q)
    {
      if i < k {
        assert old(Placed(s, i, q));
      } else if i > k {
        assert old(Placed(s, i - 1, q));
      }
    }
  }

  /** AQueueInsertFirst. */
  method InsertFirst(q: Queue?, l: Link?) returns (ok: bool)
    requires q != null && l != null ==> q.Valid() && l !in q.items
    modifies Touched(q, l)
    ensures ok == (q != null && l != null)
    ensures ok ==> q.Valid() && q.items == [l] + old(q.items)
    ensures !ok ==> unchanged(old(Touched(q, l)))
    ensures l != null ==> l.obj == old(l.obj)
    ensures q != null ==> forall x :: x in old(q.items) ==> x.obj == old(x.obj)
  {
    if l == null { return false; }
    if q == null { return false; }
    assert q.items != [] ==> Placed(q.items, 0, q);
    ok := InsertBefore(q, q.first, l, 0);
  }

  /** AQueueInsertLast. */
  method InsertLast(q: Queue?, l: Link?) returns (ok: bool)
    requires q != null && l != null ==> q.Valid() && l !in q.items
    modifies Touched(q, l)
    ensures ok == (q != null && l != null)
    ensures ok ==> q.Valid() && q.items == old(q.items) + [l]
    ensures !ok ==> unchanged(old(Touched(q, l)))
    ensures l != null ==> l.obj == old(l.obj)
    ensures q != null ==> forall x :: x in old(q.items) ==> x.obj == old(x.obj)
  {
    if l == null { return false; }
    if q == null { return false; }
    assert q.items != [] ==> Placed(q.items, |q.items| - 1, q);
    ok := InsertAfter(q, q.last, l, if q.items == [] then 0 else |q.items| - 1);
  }

  /** AQueueModuleInit: all links of the pool, whatever its size, become free, in their order. */
  method ModuleInit(linkpool: seq<Link>) returns (freeLinks: Queue)
    requires forall i, j :: 0 <= i < j < |linkpool| ==> linkpool[i] != linkpool[j]
    modifies set x | x in linkpool
    ensures fresh(freeLinks) && freeLinks.Valid() && freeLinks.items == linkpool
  {
    freeLinks := new Queue();
    for i := 0 to |linkpool|
      invariant fresh(freeLinks) && freeLinks.Valid() && freeLinks.items == linkpool[..i]
    {
      linkpool[i].next := null;
      linkpool[i].prev := null;
      linkpool[i].obj := 0;
      assert linkpool[i] !in linkpool[..i];
      var ok := InsertLast(freeLinks, linkpool[i]);
      if !ok { assert false; }
      assert linkpool[..i + 1] == linkpool[..i] + [linkpool[i]];
    }
  }

  /** AQueueAllocLink: the first free link, detached; null when there is none. */
  method AllocLink(freeLinks: Queue, obj: int) returns (l: Link?)
    requires freeLinks.Valid()
    modifies freeLinks, freeLinks.items
    ensures freeLinks.Valid()
    ensures l == null <==> old(freeLinks.items) == []
    ensures l == null ==> unchanged(freeLinks) && unchanged(old(freeLinks.items))
    ensures l != null ==>
              && l == old(freeLinks.items)[0] && freeLinks.items == old(freeLinks.items)[1..]
              && l !in freeLinks.items
              && l.next == null && l.prev == null && l.queue == null && l.obj == obj
    ensures forall x :: x in freeLinks.items ==> x.obj == old(x.obj)
  {
    if freeLinks.nitems == 0 { return null; }
    l := freeLinks.first;
    if l == null { return null; }
    ghost var s := freeLinks.items;
    assert Placed(s, 0, freeLinks);
    assert l.next == At(s, 1);
    if freeLinks.first == l { freeLinks.first := l.next; }
    if freeLinks.last == l { freeLinks.last := l.prev; }
    freeLinks.nitems := freeLinks.nitems - 1;
    if l.prev != null { assert false; }
    if l.next != null { l.next.prev := l.prev; }
    l.next := null;
    l.prev := null;
    l.queue := null;
    l.obj := obj;
    freeLinks.items := s[1..];
    forall i | 0 <= i < |freeLinks.items|
      ensures Placed(freeLinks.items, i, freeLinks)
    {
      assert old(Placed(s, i + 1, freeLinks));
    }
  }

  /** Take link `l`, at position `k`, out of the list of its queue. */
  method Unlink(q: Queue, l: Link, ghost k: nat)
    requires q.Valid() && k < |q.items| && q.items[k] == l
    modifies q, q.items
    ensures q.Valid() && q.items == RemovedAt(old(q.items), k) && l !in q.items
    ensures l.queue == q
    ensures forall x :: x in old(q.items) ==> x.obj == old(x.obj)
  {
    ghost var s := q.items;
    assert Placed(s, k, q);
    assert l.prev == At(s, k - 1) && l.next == At(s, k + 1);
    if q.first == l { q.first := l.next; }
    if q.last == l { q.last := l.prev; }
    if l.prev != null { l.prev.next := l.next; }
    if l.next != null { l.next.prev := l.prev; }
    q.nitems := q.nitems - 1;
    q.items := RemovedAt(s, k);
    RemovedAtFacts(s, k);
    forall i | 0 <= i < |q.items|
      ensures Placed(q.items, i, q)
    {
      assert old(Placed(s, i, q));
      assert old(Placed(s, i + 1, q));
    }
  }

  /**
   AQueueRemove: the link goes from its queue to the end of the free list; `pl` is what the caller's
   pointer becomes.
   */
  method Remove(freeLinks: Queue, l: Link?, ghost k: nat) returns (ok: bool, pl: Link?)
    requires freeLinks.Valid()
    requires l != null && l.queue != null ==> l.queue.Valid() && k < |l.queue.items| && l.queue.items[k] == l
    modifies freeLinks, freeLinks.items, if l == null then {} else Touched(l.queue, l)
    ensures ok == (l != null && old(l.queue) != null)
    ensures pl == if ok then null else l
    ensures freeLinks.Valid()
    ensures ok ==> var q := old(l.queue);
                   && q.Valid()
                   && q.items == (var rest := RemovedAt(old(l.queue.items), k);
                                  if q == freeLinks then rest + [l] else rest)
                   && (q != freeLinks ==> freeLinks.items == old(freeLinks.items) + [l])
    ensures !ok ==> unchanged(freeLinks) && unchanged(old(freeLinks.items))
    ensures forall x :: x in old(freeLinks.items) ==> x.obj == old(x.obj)
    ensures ok ==> l.obj == old(l.obj) && forall x :: x in old(l.queue.items) ==> x.obj == old(x.obj)
  {
    if l == null { return false, l; }
    if l.queue == null { return false, l; }
    var q := l.queue;
    assert l in q.items;
    if q != freeLinks { QueuesDisjoint(q, freeLinks); }
    UnlinkBeside(q, l, k, freeLinks);
    ok := InsertLast(freeLinks, l);
    pl := null;
  }

  /** Taking a link out of its queue leaves another queue well formed. */
  method UnlinkBeside(q: Queue, l: Link, ghost k: nat, ghost other: Queue)
    requires q.Valid() && k < |q.items| && q.items[k] == l
    requires other.Valid() && (q != other ==> forall x :: x in q.items ==> x !in other.items)
    modifies q, q.items
    ensures q.Valid() && q.items == RemovedAt(old(q.items), k) && l !in q.items
    ensures other.Valid() && l !in other.items && (q != other ==> other.items == old(other.items))
    ensures l.queue == q
    ensures forall x :: x in old(q.items) ==> x.obj == old(x.obj)
  {
    ghost var free := other.items;
    Unlink(q, l, k);
    if q != other {
      assert other.items == free;
      forall i | 0 <= i < |free|
        ensures Placed(free, i, other)
      {
        assert free[i] in free && old(Placed(free, i, other));
      }
    }
  }

  /** The sequence with the link at `i` moved behind the one at `j`. */
  function MovedBehind<T>(s: seq<T>, i: nat, j: nat): seq<T>
    requires i < |s| && j < |s| && i != j
  {
    InsertedAt(RemovedAt(s, i), if i < j then j else j + 1, s[i])
  }

  /** Moving the first link behind the last is the scheduler's rotation. */
  lemma MoveFirstBehindLast<T>(s: seq<T>)
    requires |s| > 1
    ensures MovedBehind(s, 0, |s| - 1) == s[1..] + [s[0]]
  {
  }

  /**
   AQueueMoveAfter: link `l` at `i` moves behind `after` at `j`. It refuses to move the last link,
   and without `after` it only accepts a queue of one link.
   */
  method MoveAfter(q: Queue?, after: Link?, l: Link?, ghost i: nat, ghost j: nat) returns (ok: bool)
    requires q != null ==> q.Valid()
    requires q != null && l != null && l.queue == q ==> i < |q.items| && q.items[i] == l
    requires q != null && after != null && after.queue == q ==> j < |q.items| && q.items[j] == after
    modifies if q == null then {} else Touched(q, null)
    ensures ok == (q != null && l != null && old(l.queue) == q &&
                   if after == null then |old(q.items)| == 1
                   else old(after.queue) == q && (after == l || i < |old(q.items)| - 1))
    ensures q != null ==> q.Valid()
    ensures q != null ==> q.items == if ok && after != null && after != l then MovedBehind(old(q.items), i, j)
                                     else old(q.items)
    ensures !ok && q != null ==> unchanged(q) && unchanged(old(q.items))
    ensures q != null ==> forall x :: x in old(q.items) ==> x.obj == old(x.obj)
  {
    if q == null { return false; }
    if l == null { return false; }
    if l.queue != q { return false; }
    if after == null {
      if q.nitems != 1 { return false; }
      if q.first != q.last { assert false; }
      return true;
    }
    if after.queue != q { return false; }
    if after == l { return true; }
    if q.last == l { return false; }
    MoveWithin(q, after, l, i, j);
    return true;
  }

  /** Where the link that ends up at `h` was before link `i` moved behind link `j`. */
  function Back(i: nat, j: nat, h: int): int {
    if i < j then if i <= h < j then h + 1 else if h == j then i else h
    else if h == j + 1 then i else if j + 1 < h <= i then h - 1 else h
  }

  lemma MovedFrom<T>(s: seq<T>, i: nat, j: nat)
    requires i < |s| && j < |s| && i != j
    ensures var t := MovedBehind(s, i, j);
            |t| == |s| && forall h :: 0 <= h < |s| ==> 0 <= Back(i, j, h) < |s| && t[h] == s[Back(i, j, h)]
  {
  }

  lemma MovedDistinct<T>(s: seq<T>, i: nat, j: nat)
    requires i < |s| && j < |s| && i != j && forall a, b :: 0 <= a < b < |s| ==> s[a] != s[b]
    ensures var t := MovedBehind(s, i, j); forall a, b :: 0 <= a < b < |t| ==> t[a] != t[b]
  {
    MovedFrom(s, i, j);
    var t := MovedBehind(s, i, j);
    forall a, b | 0 <= a < b < |t|
      ensures t[a] != t[b]
    {
      assert Back(i, j, a) != Back(i, j, b);
    }
  }

  lemma MovedEnds<T>(s: seq<T>, i: nat, j: nat)
    requires i < |s| && j < |s| && i != j
    ensures var t := MovedBehind(s, i, j);
            |t| == |s| && t[0] == s[Back(i, j, 0)] && t[|t| - 1] == s[Back(i, j, |s| - 1)]
  {
    MovedFrom(s, i, j);
  }

  /** The link that follows the one at old position `h` when link `i` has moved behind link `j`. */
  ghost function NextOf(s: seq<Link>, i: nat, j: nat, h: int): Link? {
    if h == j then At(s, i)
    else if h == i then At(s, if j + 1 == i then i + 1 else j + 1)
    else if h == i - 1 then At(s, i + 1)
    else At(s, h + 1)
  }

  ghost function PrevOf(s: seq<Link>, i: nat, j: nat, h: int): Link? {
    if h == i then At(s, j)
    else if h == j + 1 || (h == i + 1 && j == i - 1) then At(s, i)
    else if h == i + 1 then At(s, i - 1)
    else At(s, h - 1)
  }

  ghost predicate Rewired(s: seq<Link>, i: nat, j: nat, h: int, q: Queue)
    requires 0 <= h < |s|
    reads s[h]
  {
    s[h].queue == q && s[h].next == NextOf(s, i, j, h) && s[h].prev == PrevOf(s, i, j, h)
  }

  /** Seen from the new positions, the rewired links are in place. */
  lemma RewiredIsPlaced(s: seq<Link>, t: seq<Link>, i: nat, j: nat, h: nat, q: Queue)
    requires i + 1 < |s| && j < |s| && i != j && t == MovedBehind(s, i, j) && h < |t|
    requires forall g :: 0 <= g < |s| ==> Rewired(s, i, j, g, q)
    ensures Placed(t, h, q)
  {
    MovedFrom(s, i, j);
    assert Rewired(s, i, j, Back(i, j, h), q);
  }

  /** The neighbours of the link at `i` point past it; its own pointers are as before. */
  ghost predicate Skipped(s: seq<Link>, i: nat, h: int, q: Queue)
    requires 0 <= h < |s|
    reads s[h]
  {
    && s[h].queue == q
    && s[h].next == (if h == i - 1 then At(s, i + 1) else At(s, h + 1))
    && s[h].prev == (if h == i + 1 then At(s, i - 1) else At(s, h - 1))
  }

  /** The first half of the pointer writes of AQueueMoveAfter; `l` is not the last link. */
  method SkipLink(q: Queue, after: Link, l: Link, ghost i: nat, ghost j: nat)
    requires q.Valid() && i + 1 < |q.items| && j < |q.items| && i != j
    requires q.items[i] == l && q.items[j] == after
    modifies q`first, q`last, q.items
    ensures forall h :: 0 <= h < |q.items| ==> Skipped(q.items, i, h, q)
    ensures q.first == q.items[Back(i, j, 0)] && q.last == q.items[Back(i, j, |q.items| - 1)]
    ensures forall x :: x in q.items ==> x.obj == old(x.obj)
  {
    ghost var s := q.items;
    assert Placed(s, i, q) && Placed(s, j, q);
    if q.first == l { q.first := l.next; }
    if q.last == after { q.last := l; }
    if l.next != null { l.next.prev := l.prev; }
    if l.prev != null { l.prev.next := l.next; }
    forall h | 0 <= h < |s|
      ensures Skipped(s, i, h, q)
    {
      assert old(Placed(s, h, q));
    }
  }

  /** The second half: the link goes behind `after`, whose next pointer is read as the first half left it. */
  method SpliceIn(ghost s: seq<Link>, after: Link, l: Link, ghost i: nat, ghost j: nat, ghost q: Queue)
    requires i + 1 < |s| && j < |s| && i != j && s[i] == l && s[j] == after
    requires forall a, b :: 0 <= a < b < |s| ==> s[a] != s[b]
    requires forall h :: 0 <= h < |s| ==> Skipped(s, i, h, q)
    modifies s
    ensures forall h :: 0 <= h < |s| ==> Rewired(s, i, j, h, q)
    ensures forall x :: x in s ==> x.obj == old(x.obj)
  {
    assert Skipped(s, i, j, q);
    l.prev := after;
    l.next := after.next;
    after.next := l;
    if l.next != null { l.next.prev := l; }
    forall h | 0 <= h < |s|
      ensures Rewired(s, i, j, h, q)
    {
      assert old(Skipped(s, i, h, q));
    }
  }

  /** The links in their new order form a well-formed list. */
  lemma MovedInPlace(s: seq<Link>, i: nat, j: nat, q: Queue)
    requires i + 1 < |s| && j < |s| && i != j
    requires forall h :: 0 <= h < |s| ==> Rewired(s, i, j, h, q)
    ensures var t := MovedBehind(s, i, j); forall h :: 0 <= h < |t| ==> Placed(t, h, q)
  {
    var t := MovedBehind(s, i, j);
    forall h | 0 <= h < |t|
      ensures Placed(t, h, q)
    {
      RewiredIsPlaced(s, t, i, j, h, q);
    }
  }

  method MoveWithin(q: Queue, after: Link, l: Link, ghost i: nat, ghost j: nat)
    requires q.Valid() && i + 1 < |q.items| && j < |q.items| && i != j
    requires q.items[i] == l && q.items[j] == after
    modifies q, q.items
    ensures q.Valid() && q.items == MovedBehind(old(q.items), i, j)
    ensures forall x :: x in old(q.items) ==> x.obj == old(x.obj)
  {
    ghost var s := q.items;
    SkipLink(q, after, l, i, j);
    SpliceIn(s, after, l, i, j, q);
    MovedEnds(s, i, j);
    MovedDistinct(s, i, j);
    MovedInPlace(s, i, j, q);
    q.items := MovedBehind(s, i, j);
  }
}
