/**
 Who owns which page of memory while processes come and go: the page parts of ProcessFork and
 ProcessFreeResources in os/process.c over the allocator of os/memory.c. A process owns one page for
 its user space, recorded as a page table entry, and one for its system stack, recorded by address.
 */
module PageOwnership {
  import opened Common
  import opened Tally
  import opened PageAllocator

  // ---- Page table entries, as 32-bit words ----

  /** MemorySetupPte: the page's address with the valid bit set. */
  function MemorySetupPte(page: nat): nat {
    var address := page * MEMORY_PAGE_SIZE % 0x1_0000_0000;
    address + 1 - address % 2
  }

  /** MemoryPteToPage: the three status bits masked out. */
  function MemoryPteToPage(pte: nat): nat {
    pte - pte % 8
  }

  /** The page MemoryFreePte frees. */
  function PageOfPte(pte: nat): nat {
    MemoryPteToPage(pte) / MEMORY_PAGE_SIZE
  }

  lemma PteRoundTrip(page: nat)
    ensures PageOfPte(MemorySetupPte(page)) == page <==> page < 0x10000
    ensures page < 0x10000 ==> MemoryPteToPage(MemorySetupPte(page)) == page * MEMORY_PAGE_SIZE
  {
    PteOfWord(page % 0x10000);
    assert page * MEMORY_PAGE_SIZE % 0x1_0000_0000 == page % 0x10000 * MEMORY_PAGE_SIZE % 0x1_0000_0000;
  }

  lemma PteOfWord(page: nat)
    requires page < 0x10000
    ensures MemoryPteToPage(MemorySetupPte(page)) == page * MEMORY_PAGE_SIZE
    ensures PageOfPte(MemorySetupPte(page)) == page
  {
  }

  /** The three status bits of an entry. */
  predicate IsValid(pte: nat) { pte % 2 == 1 }
  predicate IsDirty(pte: nat) { pte / 2 % 2 == 1 }
  predicate IsReferenced(pte: nat) { pte / 4 % 2 == 1 }

  /** What the three bits are, when `b` is what the entry has behind a multiple of eight. */
  lemma StatusBits(a: nat, b: nat)
    requires b < 8
    ensures var pte := 8 * a + b;
            && (IsValid(pte) <==> b % 2 == 1) && (IsDirty(pte) <==> b / 2 % 2 == 1) && (IsReferenced(pte) <==> b >= 4)
            && MemoryPteToPage(pte) == 8 * a
  {
    var pte := 8 * a + b;
    assert pte / 2 == 4 * a + b / 2 && pte / 4 == 2 * a + b / 4 && pte % 8 == b;
  }

  /** Every entry set up is valid, neither dirty nor referenced, and otherwise the page's base address. */
  lemma PteIsValid(page: nat)
    ensures var pte := MemorySetupPte(page);
            && IsValid(pte) && !IsDirty(pte) && !IsReferenced(pte)
            && (pte == page * MEMORY_PAGE_SIZE + 1 <==> page < 0x10000)
  {
    var word := page % 0x10000;
    assert page == 0x10000 * (page / 0x10000) + word;
    assert page * MEMORY_PAGE_SIZE == 0x1_0000_0000 * (page / 0x10000) + word * MEMORY_PAGE_SIZE;
    assert page * MEMORY_PAGE_SIZE % 0x1_0000_0000 == word * MEMORY_PAGE_SIZE;
    assert MemorySetupPte(page) == 8 * (word * 0x2000) + 1;
    StatusBits(word * 0x2000, 1);
  }

  function Bits(valid: bool, dirty: bool, referenced: bool): nat {
    (if valid then 1 else 0) + (if dirty then 2 else 0) + if referenced then 4 else 0
  }

  /** Masking takes away the status bits and nothing else, whatever they are; `a` is what stands before them. */
  lemma PteMasked(a: nat, valid: bool, dirty: bool, referenced: bool)
    ensures var pte := 8 * a + Bits(valid, dirty, referenced);
            && IsValid(pte) == valid && IsDirty(pte) == dirty && IsReferenced(pte) == referenced
            && MemoryPteToPage(pte) == 8 * a
  {
    StatusBits(a, Bits(valid, dirty, referenced));
  }

  // ---- The ownership of pages ----

  /** What the PCB of a process records of its memory (npages is always one); `inUse` until its resources are freed. */
  datatype Pages = Pages(inUse: bool, pagetable: nat, sysStackArea: nat)

  function UserPage(h: Pages): int { PageOfPte(h.pagetable) }

  function StackPage(h: Pages): int { h.sysStackArea / MEMORY_PAGE_SIZE }

  predicate Owns(h: Pages, page: int) {
    h.inUse && (page == UserPage(h) || page == StackPage(h))
  }

  /** The PCB says where the two pages are: the entry of the one is valid, the other is given by its first address. */
  predicate WellRecorded(h: Pages) {
    && h.pagetable == UserPage(h) * MEMORY_PAGE_SIZE + 1 && IsValid(h.pagetable)
    && h.sysStackArea == StackPage(h) * MEMORY_PAGE_SIZE
  }

  /** The pages of a process are two, in range, well recorded, and not free. */
  ghost predicate Proper(free: set<int>, h: Pages, lo: int, hi: int) {
    h.inUse ==>
      && UserPage(h) != StackPage(h) && WellRecorded(h)
      && lo <= UserPage(h) < hi && UserPage(h) !in free
      && lo <= StackPage(h) < hi && StackPage(h) !in free
  }

  ghost predicate Disjoint(h: Pages, g: Pages) {
    h.inUse && g.inUse ==> !Owns(g, UserPage(h)) && !Owns(g, StackPage(h))
  }

  ghost predicate Owned(pcbs: seq<Pages>, page: int) {
    exists p :: 0 <= p < |pcbs| && Owns(pcbs[p], page)
  }

  ghost predicate Accounted(free: set<int>, pcbs: seq<Pages>, page: int) {
    page in free || Owned(pcbs, page)
  }

  /** Every page from `lo` to `hi` is either free or one of the two different pages of exactly one process. */
  ghost predicate Partition(free: set<int>, pcbs: seq<Pages>, lo: int, hi: int) {
    && (forall p :: 0 <= p < |pcbs| ==> Proper(free, pcbs[p], lo, hi))
    && (forall p, q :: 0 <= p < q < |pcbs| ==> Disjoint(pcbs[p], pcbs[q]))
    && (forall page :: lo <= page < hi ==> Accounted(free, pcbs, page))
  }

  lemma PagesTaken(free: set<int>, pcbs: seq<Pages>, lo: int, hi: int, p: nat, h: Pages)
    requires Partition(free, pcbs, lo, hi) && p < |pcbs| && !pcbs[p].inUse && h.inUse && WellRecorded(h)
    requires UserPage(h) in free && StackPage(h) in free && UserPage(h) != StackPage(h)
    requires lo <= UserPage(h) < hi && lo <= StackPage(h) < hi
    ensures Partition(free - {UserPage(h), StackPage(h)}, pcbs[p := h], lo, hi)
  {
    var after := pcbs[p := h];
    var left := free - {UserPage(h), StackPage(h)};
    forall q | 0 <= q < |after|
      ensures Proper(left, after[q], lo, hi)
    {
      assert Proper(free, pcbs[q], lo, hi);
    }
    forall q, r | 0 <= q < r < |after|
      ensures Disjoint(after[q], after[r])
    {
      assert Disjoint(pcbs[q], pcbs[r]) && Proper(free, pcbs[q], lo, hi) && Proper(free, pcbs[r], lo, hi);
    }
    forall page | lo <= page < hi
      ensures Accounted(left, after, page)
    {
      assert Accounted(free, pcbs, page);
      if page !in free {
        var q :| 0 <= q < |pcbs| && Owns(pcbs[q], page);
        assert Owns(after[q], page);
      } else if page !in left {
        assert Owns(after[p], page);
      }
    }
  }

  lemma PagesReturned(free: set<int>, pcbs: seq<Pages>, lo: int, hi: int, p: nat)
    requires Partition(free, pcbs, lo, hi) && p < |pcbs| && pcbs[p].inUse
    ensures Partition(free + {UserPage(pcbs[p]), StackPage(pcbs[p])}, pcbs[p := pcbs[p].(inUse := false)], lo, hi)
    ensures Proper(free, pcbs[p], lo, hi)
  {
    var h := pcbs[p];
    var after := pcbs[p := h.(inUse := false)];
    var more := free + {UserPage(h), StackPage(h)};
    forall q | 0 <= q < |after|
      ensures Proper(more, after[q], lo, hi)
    {
      assert Proper(free, pcbs[q], lo, hi);
      if q < p { assert Disjoint(pcbs[q], pcbs[p]); }
      if p < q { assert Disjoint(pcbs[p], pcbs[q]); }
    }
    forall q, r | 0 <= q < r < |after|
      ensures Disjoint(after[q], after[r])
    {
      assert Disjoint(pcbs[q], pcbs[r]);
    }
    forall page | lo <= page < hi
      ensures Accounted(more, after, page)
    {
      assert Accounted(free, pcbs, page);
      if page !in more {
        var q :| 0 <= q < |pcbs| && Owns(pcbs[q], page);
        assert q != p;
        assert Owns(after[q], page);
      }
    }
  }

  function InUse(pcbs: seq<Pages>): seq<int> {
    seq(|pcbs|, i requires 0 <= i < |pcbs| => if pcbs[i].inUse then 1 else 0)
  }

  lemma InUseUpdate(pcbs: seq<Pages>, p: nat, h: Pages)
    requires p < |pcbs|
    ensures Sum(InUse(pcbs[p := h])) == Sum(InUse(pcbs)) + (if h.inUse then 1 else 0) - if pcbs[p].inUse then 1 else 0
  {
    var v := if h.inUse then 1 else 0;
    SumUpdate(InUse(pcbs), p, v);
    assert InUse(pcbs[p := h]) == InUse(pcbs)[p := v];
  }

  lemma NobodyOwns(pcbs: seq<Pages>)
    requires forall p :: 0 <= p < |pcbs| ==> !pcbs[p].inUse
    ensures Sum(InUse(pcbs)) == 0
  {
    SumConst(|pcbs|, 0);
    assert InUse(pcbs) == seq(|pcbs|, _ => 0);
  }

  lemma TwoTaken(free: set<int>, a: int, b: int)
    ensures free - {a} - {b} == free - {a, b}
  {
  }

  lemma TwoReturned(free: set<int>, a: int, b: int)
    ensures free + {a} + {b} == free + {a, b}
  {
  }

  lemma TakenAndReturned(free: set<int>, a: int, b: int)
    requires a in free && b in free
    ensures free - {a, b} + {a, b} == free
  {
  }

  /** A process that has no pages yet leaves room for 31 others. */
  lemma OthersInUse(pcbs: seq<Pages>, p: nat)
    requires p < |pcbs| && !pcbs[p].inUse
    ensures Sum(InUse(pcbs)) <= |pcbs| - 1
  {
    SumUpdate(InUse(pcbs), p, 1);
    SumAtMost(InUse(pcbs)[p := 1], 1);
  }

  class ProcessMemory {
    const memory: Memory
    var pcbs: seq<Pages>
    var halted: bool

    /** Nothing is lost, shared or counted twice. */
    ghost predicate Valid()
      reads this, memory, memory.freepages
    {
      && memory.Valid() && memory.Counted() && |pcbs| == PROCESS_MAX_PROCS
      && memory.maxpage <= 0x8000
      && Partition(memory.free, pcbs, memory.pagestart, memory.maxpage)
      && (memory.pagestart <= memory.maxpage ==>
            memory.nfreepages + 2 * Sum(InUse(pcbs)) == memory.maxpage - memory.pagestart)
    }

    /** Memory after the start of the system: every page behind it is free and no process exists. */
    constructor (memsize: nat, lastosaddress: nat)
      requires memsize < 0x8000_0000 && lastosaddress >= 4
      ensures Valid() && !halted && forall p :: 0 <= p < |pcbs| ==> !pcbs[p].inUse
      ensures memory.pagestart == (lastosaddress + MEMORY_PAGE_SIZE - 4) / MEMORY_PAGE_SIZE
      ensures memory.maxpage == memsize / MEMORY_PAGE_SIZE
      ensures Interval(memory.free, memory.pagestart, memory.maxpage)
      ensures fresh(memory) && fresh(memory.freepages)
    {
      memory := new Memory();
      pcbs := seq(PROCESS_MAX_PROCS, _ => Pages(false, 0, 0));
      halted := false;
      new;
      memory.MemoryModuleInit(memsize, lastosaddress);
      NobodyOwns(pcbs);
    }

    /** Two pages for process `p`; the kernel halts when either cannot be had. */
    method AllocPages(p: nat)
      requires Valid() && !halted && p < |pcbs| && !pcbs[p].inUse
      modifies this, memory`mapnum, memory`nfreepages, memory`free, memory.freepages
      ensures halted <==> |old(memory.free)| < 2
      ensures old(memory.maxpage) - old(memory.pagestart) >= 2 * PROCESS_MAX_PROCS ==> !halted
      ensures halted ==> pcbs == old(pcbs)
      ensures !halted ==> Valid() && pcbs[p].inUse && pcbs == old(pcbs)[p := pcbs[p]]
      ensures !halted ==> WellRecorded(pcbs[p])
      ensures !halted ==> memory.nfreepages == old(memory.nfreepages) - 2
      ensures !halted ==> UserPage(pcbs[p]) in old(memory.free) && StackPage(pcbs[p]) in old(memory.free)
      ensures !halted ==> memory.free == old(memory.free) - {UserPage(pcbs[p]), StackPage(pcbs[p])}
    {
      ghost var free := memory.free;
      OthersInUse(pcbs, p);
      var newPage := memory.MemoryAllocPage();
      if newPage == 0 { halted := true; return; }
      var user := newPage;
      PteRoundTrip(user);
      PteIsValid(user);
      OneFewer(free, user);
      newPage := memory.MemoryAllocPage();
      if newPage == 0 { halted := true; return; }
      var h := Pages(true, MemorySetupPte(user), newPage * MEMORY_PAGE_SIZE);
      assert UserPage(h) == user && StackPage(h) == newPage;
      TwoTaken(free, user, newPage);
      OneFewer(free - {user}, newPage);
      PagesTaken(free, pcbs, memory.pagestart, memory.maxpage, p, h);
      InUseUpdate(pcbs, p, h);
      pcbs := pcbs[p := h];
    }

    /** ProcessFreeResources: the user pages by their page table entries, then the system stack. */
    method FreePages(p: nat)
      requires Valid() && p < |pcbs| && pcbs[p].inUse
      modifies this`pcbs, memory`nfreepages, memory`free, memory.freepages
      ensures Valid() && pcbs == old(pcbs)[p := old(pcbs)[p].(inUse := false)]
      ensures memory.free == old(memory.free) + {UserPage(old(pcbs)[p]), StackPage(old(pcbs)[p])}
      ensures memory.nfreepages == old(memory.nfreepages) + 2
    {
      var h := pcbs[p];
      TwoReturned(memory.free, UserPage(h), StackPage(h));
      PagesReturned(memory.free, pcbs, memory.pagestart, memory.maxpage, p);
      InUseUpdate(pcbs, p, h.(inUse := false));
      memory.MemoryFreePage(PageOfPte(h.pagetable));
      memory.MemoryFreePage(h.sysStackArea / MEMORY_PAGE_SIZE);
      pcbs := pcbs[p := h.(inUse := false)];
    }

    /** The pages of a fork: when the program cannot be loaded everything is as before. */
    method Fork(p: nat, loads: bool)
      requires Valid() && !halted && p < |pcbs| && !pcbs[p].inUse
      modifies this, memory`mapnum, memory`nfreepages, memory`free, memory.freepages
      ensures halted <==> |old(memory.free)| < 2
      ensures old(memory.maxpage) - old(memory.pagestart) >= 2 * PROCESS_MAX_PROCS ==> !halted
      ensures !halted ==> Valid() && pcbs[p].inUse == loads && (loads ==> WellRecorded(pcbs[p]))
      ensures !halted && !loads ==> memory.free == old(memory.free) && memory.nfreepages == old(memory.nfreepages)
      ensures !halted && loads ==> memory.nfreepages == old(memory.nfreepages) - 2
      ensures !halted && loads ==> UserPage(pcbs[p]) in old(memory.free) && StackPage(pcbs[p]) in old(memory.free)
      ensures !halted && loads ==> memory.free == old(memory.free) - {UserPage(pcbs[p]), StackPage(pcbs[p])}
      ensures forall q :: 0 <= q < |old(pcbs)| && q != p ==> q < |pcbs| && pcbs[q] == old(pcbs)[q]
    {
      ghost var free := memory.free;
      AllocPages(p);
      if halted || loads { return; }
      TakenAndReturned(free, UserPage(pcbs[p]), StackPage(pcbs[p]));
      FreePages(p);
    }
  }
}
