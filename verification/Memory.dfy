/** The page allocator of os/memory.c: a bitmap in 32-bit words, searched from the word last used. */
module PageAllocator {
  import opened WordBits

  const MEMORY_PAGE_SIZE := 0x10000
  const MEMORY_MAX_PAGES := 0x10000
  const WORDS := MEMORY_MAX_PAGES / 32

  /** Page `p` is marked free in the map. */
  predicate Marked(words: seq<bv32>, p: int) {
    0 <= p < 32 * |words| && Has(words[p / 32], p % 32)
  }

  function PagesOf(words: seq<bv32>): set<int> {
    set p | 0 <= p < 32 * |words| && Marked(words, p)
  }

  /** Storing one masked word changes one page's mark. */
  lemma MarkOne(words: seq<bv32>, p: nat, b: bool)
    requires p < 32 * |words|
    ensures PagesOf(words[p / 32 := Masked(words[p / 32], Bit(p % 32), b)])
         == if b then PagesOf(words) + {p} else PagesOf(words) - {p}
  {
    var after := words[p / 32 := Masked(words[p / 32], Bit(p % 32), b)];
    forall q | 0 <= q < 32 * |words|
      ensures Marked(after, q) <==> if p == q then b else Marked(words, q)
    {
      if q / 32 == p / 32 { MaskedHas(words[p / 32], p % 32, b, q % 32); }
    }
  }

  lemma NoPages(words: seq<bv32>)
    requires forall i :: 0 <= i < |words| ==> words[i] == 0
    ensures PagesOf(words) == {}
  {
    forall p | 0 <= p < 32 * |words|
      ensures !Marked(words, p)
    {
      assert words[p / 32] == 0;
    }
  }

  lemma NotInEmptyWord(words: seq<bv32>, q: int, i: nat)
    requires q in PagesOf(words) && i < |words| && words[i] == 0
    ensures q / 32 != i && 0 <= q / 32 < |words|
  {
  }

  lemma LowestInWord(words: seq<bv32>, i: nat, bitnum: nat)
    requires i < |words| && bitnum < 32 && Has(words[i], bitnum)
    requires forall j: nat :: j < bitnum ==> !Has(words[i], j)
    ensures 32 * i + bitnum in PagesOf(words)
    ensures forall q :: q in PagesOf(words) && q / 32 == i ==> 32 * i + bitnum <= q
  {
    var v := 32 * i + bitnum;
    assert v / 32 == i && v % 32 == bitnum;
    assert Marked(words, v);
    forall q | q in PagesOf(words) && q / 32 == i
      ensures v <= q
    {
      assert Marked(words, q) && q == 32 * i + q % 32;
    }
  }

  /** How many words the circular search from word `m` passes before it reaches word `w`. */
  function Ahead(m: int, w: int, words: int): int {
    if w >= m then w - m else w - m + words
  }

  /** Page `v` comes no later than page `q` in the circular order from word `m`. */
  predicate NoLater(m: int, v: int, q: int, words: int) {
    Ahead(m, v / 32, words) < Ahead(m, q / 32, words) || (v / 32 == q / 32 && v <= q)
  }

  lemma NextFit(words: seq<bv32>, m: int, i: int, v: int)
    requires 0 <= m <= |words| && v in PagesOf(words) && v / 32 == i
    requires forall q :: q in PagesOf(words) ==> Ahead(m, i, |words|) <= Ahead(m, q / 32, |words|)
    requires forall q :: q in PagesOf(words) && q / 32 == i ==> v <= q
    ensures forall q :: q in PagesOf(words) ==> NoLater(m, v, q, |words|)
  {
    forall q | q in PagesOf(words)
      ensures NoLater(m, v, q, |words|)
    {
      assert Marked(words, q) && Marked(words, v);
    }
  }

  ghost predicate Interval(pages: set<int>, lo: int, hi: int) {
    forall p :: p in pages <==> lo <= p < hi
  }

  lemma IntervalGrows(pages: set<int>, lo: int, hi: int)
    requires lo <= hi && Interval(pages, lo, hi)
    ensures hi !in pages && Interval(pages + {hi}, lo, hi + 1)
  {
  }

  lemma OneFewer(pages: set<int>, p: int)
    requires p in pages
    ensures |pages - {p}| == |pages| - 1
  {
  }

  lemma OneMore(pages: set<int>, p: int)
    ensures |pages + {p}| == |pages| + if p in pages then 0 else 1
  {
    if p in pages { assert pages + {p} == pages; }
  }

  class Memory {
    var pagestart: int
    var freemapmax: int
    var nfreepages: int
    var mapnum: int
    const freepages: array<bv32>
    ghost var maxpage: int
    ghost var free: set<int>

    /** The pages marked free are those in `free`. */
    ghost predicate Mapped()
      reads this`freemapmax, this`free, freepages
    {
      && 0 <= freemapmax <= freepages.Length == WORDS
      && free == PagesOf(freepages[..freemapmax])
    }

    ghost predicate Valid()
      reads this, freepages
    {
      && Mapped()
      && 0 < pagestart && maxpage <= 32 * freemapmax
      && 0 <= mapnum && (mapnum < freemapmax || mapnum == 0)
      && forall p :: p in free ==> pagestart <= p < maxpage
    }

    /** The counter agrees with the map. */
    ghost predicate Counted()
      reads this`nfreepages, this`free
    {
      nfreepages == |free|
    }

    constructor ()
      ensures fresh(freepages) && freepages.Length == WORDS
      ensures mapnum == 0
    {
      pagestart, freemapmax, nfreepages, mapnum, maxpage, free := 0, 0, 0, 0, 0, {};
      freepages := new bv32[WORDS];
    }

    method MemorySetFreemap(p: int, b: bool)
      requires Mapped() && 0 <= p < 32 * freemapmax
      modifies this`free, freepages
      ensures Mapped() && free == if b then old(free) + {p} else old(free) - {p}
      ensures forall i :: freemapmax <= i < freepages.Length ==> freepages[i] == old(freepages[i])
    {
      ghost var words := freepages[..freemapmax];
      MarkOne(words, p, b);
      var wd := p / 32;
      var bitnum := p % 32;
      var word := Masked(freepages[wd], Bit(bitnum), b);
      freepages[wd] := word;
      free := if b then free + {p} else free - {p};
      assert freepages[..freemapmax] == words[wd := word];
    }

    /** All pages count as used, so that no entry of the map is left unset. */
    method ClearMap()
      requires 0 <= freemapmax <= freepages.Length == WORDS
      modifies this`free, freepages
      ensures Mapped() && free == {}
    {
      for i := 0 to freemapmax
        invariant forall j :: 0 <= j < i ==> freepages[j] == 0
      {
        freepages[i] := 0;
      }
      NoPages(freepages[..freemapmax]);
      free := {};
    }

    /** Frees the pages from `pagestart` up to `top`. */
    method FillMap(top: int)
      requires Mapped() && top <= 32 * freemapmax
      requires free == {} && nfreepages == 0 && pagestart >= 0
      modifies this`nfreepages, this`free, freepages
      ensures Mapped() && Counted() && Interval(free, pagestart, top)
      ensures nfreepages == if pagestart <= top then top - pagestart else 0
    {
      var curpage := pagestart;
      while curpage < top
        invariant pagestart <= curpage && (curpage <= top || curpage == pagestart)
        invariant Mapped() && nfreepages == |free| == curpage - pagestart
        invariant Interval(free, pagestart, curpage)
      {
        OneMore(free, curpage);
        IntervalGrows(free, pagestart, curpage);
        nfreepages := nfreepages + 1;
        MemorySetFreemap(curpage, true);
        curpage := curpage + 1;
      }
    }

    /** Every page from the first behind the operating system to the end of memory becomes free. */
    method MemoryModuleInit(memsize: nat, lastosaddress: nat)
      requires freepages.Length == WORDS && mapnum == 0
      requires memsize < 0x8000_0000 && lastosaddress >= 4
      modifies this, freepages
      ensures Valid() && Counted()
      ensures pagestart == (lastosaddress + MEMORY_PAGE_SIZE - 4) / MEMORY_PAGE_SIZE
      ensures maxpage == memsize / MEMORY_PAGE_SIZE
      ensures Interval(free, pagestart, maxpage)
      ensures nfreepages == if pagestart <= maxpage then maxpage - pagestart else 0
    {
      var top := memsize / MEMORY_PAGE_SIZE;
      maxpage := top;
      pagestart := (lastosaddress + MEMORY_PAGE_SIZE - 4) / MEMORY_PAGE_SIZE;
      freemapmax := (top + 31) / 32;
      ClearMap();
      nfreepages := 0;
      FillMap(top);
    }

    /** The circular search for a word with a free page. */
    method FindWord()
      requires Valid() && free != {}
      modifies this`mapnum
      ensures 0 <= mapnum < freemapmax && freepages[mapnum] != 0
      ensures forall q :: q in free ==> Ahead(old(mapnum), mapnum, freemapmax) <= Ahead(old(mapnum), q / 32, freemapmax)
    {
      ghost var p :| p in free;
      ghost var m := mapnum;
      while freepages[mapnum] == 0
        invariant 0 <= mapnum < freemapmax
        invariant forall q :: q in free ==> Ahead(m, mapnum, freemapmax) <= Ahead(m, q / 32, freemapmax)
        decreases Ahead(m, p / 32, freemapmax) - Ahead(m, mapnum, freemapmax)
      {
        ghost var before := mapnum;
        forall q | q in free
          ensures 0 <= q / 32 < freemapmax && Ahead(m, before, freemapmax) < Ahead(m, q / 32, freemapmax)
        {
          NotInEmptyWord(freepages[..freemapmax], q, before);
        }
        mapnum := mapnum + 1;
        if mapnum >= freemapmax {
          mapnum := 0;
        }
        assert Ahead(m, mapnum, freemapmax) == Ahead(m, before, freemapmax) + 1;
      }
    }

    /** The first free page at or after the word last used. */
    method PickPage() returns (v: int)
      requires Valid() && free != {}
      modifies this`mapnum
      ensures 0 <= mapnum < freemapmax && mapnum == v / 32
      ensures v in free
      ensures forall q :: q in free ==> NoLater(old(mapnum), v, q, freemapmax)
    {
      FindWord();
      var bitnum := LowestBit(freepages[mapnum]);
      v := mapnum * 32 + bitnum;
      LowestInWord(freepages[..freemapmax], mapnum, bitnum);
      NextFit(freepages[..freemapmax], old(mapnum), mapnum, v);
    }

    /** Page `v`, in the word last found, is no longer free. */
    method TakeBit(v: nat)
      requires Mapped() && v / 32 == mapnum < freemapmax
      modifies this`free, freepages
      ensures Mapped() && free == old(free) - {v}
    {
      var bitnum := v % 32;
      ghost var words := freepages[..freemapmax];
      ClearIsMasked(words[mapnum], Bit(bitnum));
      MarkOne(words, v, false);
      var cleared := freepages[mapnum] & Invert(Bit(bitnum));
      freepages[mapnum] := cleared;
      free := free - {v};
      assert freepages[..freemapmax] == words[mapnum := cleared];
    }

    /**
     Zero when no page is free. Otherwise the first free page in circular order from the word last
     used, which is no longer free; no other page changes.
     */
    method MemoryAllocPage() returns (v: int)
      requires Valid() && Counted()
      modifies this`mapnum, this`nfreepages, this`free, freepages
      ensures Valid() && Counted()
      ensures v == 0 <==> old(free) == {}
      ensures v == 0 ==> freepages[..] == old(freepages[..])
      ensures v != 0 ==> v in old(free) && pagestart <= v < maxpage && free == old(free) - {v}
      ensures v != 0 ==> forall q :: q in old(free) ==> NoLater(old(mapnum), v, q, freemapmax)
    {
      if nfreepages == 0 {
        return 0;
      }
      v := PickPage();
      OneFewer(free, v);
      TakeBit(v);
      nfreepages := nfreepages - 1;
    }

    /**
     The page becomes free and the counter goes up by one, whether or not the page was free or even
     managed: the counter still agrees with the map exactly when the page was not free, and the map
     still describes managed pages only exactly when it was one.
     */
    method MemoryFreePage(page: int)
      requires Valid() && Counted() && 0 <= page < 32 * freemapmax
      modifies this`nfreepages, this`free, freepages
      ensures Mapped() && free == old(free) + {page} && nfreepages == old(nfreepages) + 1
      ensures Valid() <==> pagestart <= page < maxpage
      ensures Counted() <==> page !in old(free)
    {
      OneMore(free, page);
      MemorySetFreemap(page, true);
      nfreepages := nfreepages + 1;
      assert page in free;
    }
  }
}
