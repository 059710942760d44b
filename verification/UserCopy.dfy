/**
 Copying between a process's address space and the system's: MemoryTranslateUserToSystem and
 moveBetweenSpaces of os/memory.c, with bcopy of os/misc.c. Physical memory is an array of bytes.
 */
module UserCopy {
  import opened PageAllocator
  import opened PageOwnership

  newtype Byte = x: int | 0 <= x < 256

  const PAGETABLE := 16

  /** What a PCB says of the user's address space. */
  datatype Space = Space(npages: nat, pagetable: seq<nat>)

  /** The frame the page table holds for page `i`. */
  function Frame(pcb: Space, i: nat): nat
    requires i < |pcb.pagetable|
  {
    MemoryPteToPage(pcb.pagetable[i])
  }

  /** Frames begin at a page boundary and lie in a memory of `size` bytes, also the one just past the mapped pages. */
  ghost predicate Usable(pcb: Space, size: nat) {
    && pcb.npages < PAGETABLE == |pcb.pagetable|
    && forall i :: 0 <= i <= pcb.npages ==>
         Frame(pcb, i) % MEMORY_PAGE_SIZE == 0 && Frame(pcb, i) + MEMORY_PAGE_SIZE <= size
  }

  /** MemoryTranslateUserToSystem: zero stands for failure. */
  function Translate(pcb: Space, addr: nat): nat
    requires pcb.npages < |pcb.pagetable|
  {
    var page := addr / MEMORY_PAGE_SIZE;
    var offset := addr % MEMORY_PAGE_SIZE;
    if page > pcb.npages then 0 else Frame(pcb, page) + offset
  }

  /**
   Which addresses are refused: those behind the page after the mapped ones, and the first address
   of a page whose frame is zero. So when only the entry behind the mapped pages is empty, of that
   page itself only the first address is refused.
   */
  lemma RefusedExactly(pcb: Space, addr: nat)
    requires pcb.npages < |pcb.pagetable|
    ensures Translate(pcb, addr) == 0 <==>
              var page := addr / MEMORY_PAGE_SIZE;
              page > pcb.npages || (Frame(pcb, page) == 0 && addr % MEMORY_PAGE_SIZE == 0)
    ensures Frame(pcb, pcb.npages) == 0 && (forall i :: 0 <= i < pcb.npages ==> Frame(pcb, i) > 0) ==>
              (Translate(pcb, addr) == 0
               <==> addr / MEMORY_PAGE_SIZE > pcb.npages || addr == pcb.npages * MEMORY_PAGE_SIZE)
  {
  }

  /** Any other address leads to its place in the frame of its page. */
  lemma TranslatesTo(pcb: Space, page: nat, offset: nat)
    requires page <= pcb.npages < |pcb.pagetable| && offset < MEMORY_PAGE_SIZE
    ensures Translate(pcb, page * MEMORY_PAGE_SIZE + offset) == Frame(pcb, page) + offset
  {
    assert (page * MEMORY_PAGE_SIZE + offset) / MEMORY_PAGE_SIZE == page;
  }

  // ---- Copying one byte after the other ----

  /** Memory after the first `count` bytes of a bcopy. */
  function CopyBytes(mem: seq<Byte>, src: nat, dst: nat, count: nat): (r: seq<Byte>)
    requires src + count <= |mem| && dst + count <= |mem|
    ensures |r| == |mem|
  {
    if count == 0 then mem
    else
      var m := CopyBytes(mem, src, dst, count - 1);
      m[dst + count - 1 := m[src + count - 1]]
  }

  lemma {:induction false} CopyLeavesRest(mem: seq<Byte>, src: nat, dst: nat, count: nat, a: nat)
    requires src + count <= |mem| && dst + count <= |mem| && a < |mem| && !(dst <= a < dst + count)
    ensures CopyBytes(mem, src, dst, count)[a] == mem[a]
  {
    if count > 0 { CopyLeavesRest(mem, src, dst, count - 1, a); }
  }

  /** Byte `i` stays as it is when it has been written. */
  lemma {:induction false} CopyStays(mem: seq<Byte>, src: nat, dst: nat, k: nat, count: nat, i: nat)
    requires src + count <= |mem| && dst + count <= |mem| && i < k <= count
    ensures CopyBytes(mem, src, dst, count)[dst + i] == CopyBytes(mem, src, dst, k)[dst + i]
    decreases count
  {
    if k < count { CopyStays(mem, src, dst, k, count - 1, i); }
  }

  /** The place from which byte `i` of a range repeated every `d` bytes comes. */
  function Repeated(i: nat, d: nat): (r: nat)
    requires d > 0
    ensures r < d && r <= i && (i < d ==> r == i)
  {
    if i < d then i else Repeated(i - d, d)
  }

  /**
   What a bcopy leaves, whether or not the ranges overlap: a range copied downwards or apart arrives
   as it was; one copied upwards into itself is repeated from its first bytes on, up to the place
   where it is copied to.
   */
  lemma {:induction false} BcopyExactly(mem: seq<Byte>, src: nat, dst: nat, count: nat, i: nat)
    requires src + count <= |mem| && dst + count <= |mem| && i < count
    ensures CopyBytes(mem, src, dst, count)[dst + i]
         == mem[src + if dst <= src then i else Repeated(i, dst - src)]
    decreases i
  {
    CopyStays(mem, src, dst, i + 1, count, i);
    if src < dst && dst - src <= i {
      BcopyExactly(mem, src, dst, i, i - (dst - src));
    } else {
      CopyLeavesRest(mem, src, dst, i, src + i);
    }
  }

  method Bcopy(mem: array<Byte>, src: nat, dst: nat, count: int)
    requires count > 0 ==> src + count <= mem.Length && dst + count <= mem.Length
    modifies mem
    ensures count > 0 ==> mem[..] == CopyBytes(old(mem[..]), src, dst, count)
    ensures count <= 0 ==> mem[..] == old(mem[..])
  {
    var from, to, left := src, dst, count;
    ghost var k := 0;
    while left > 0
      invariant count > 0 ==> left == count - k && from == src + k && to == dst + k && 0 <= k <= count
      invariant count > 0 ==> mem[..] == CopyBytes(old(mem[..]), src, dst, k)
      invariant count <= 0 ==> left == count && mem[..] == old(mem[..])
    {
      ghost var before := mem[..];
      mem[to] := mem[from];
      assert mem[..] == before[to := before[from]];
      from, to, left, k := from + 1, to + 1, left - 1, k + 1;
    }
  }

  /** One byte from the system at `s` to address `at`, or, for a negative direction, the other way. */
  function Move(mem: seq<Byte>, s: nat, at: nat, dir: int): (r: seq<Byte>)
    requires s < |mem| && at < |mem|
    ensures |r| == |mem|
  {
    if dir >= 0 then mem[at := mem[s]] else mem[s := mem[at]]
  }

  /** Where byte `i` of the range from user address `u` on is, or zero. */
  function Place(pcb: Space, u: nat, i: nat): nat
    requires pcb.npages < |pcb.pagetable|
  {
    Translate(pcb, u + i)
  }

  /** Where the `n` bytes from user address `u` on are; zero where translation fails. */
  function Addresses(pcb: Space, u: nat, n: int): (ats: seq<int>)
    requires pcb.npages < |pcb.pagetable|
    ensures |ats| == if n > 0 then n else 0
    ensures forall i :: 0 <= i < |ats| ==> ats[i] == Place(pcb, u, i)
  {
    seq(if n > 0 then n else 0, i requires i >= 0 => Place(pcb, u, i))
  }

  /** Buffer and addresses lie in a memory of `size` bytes. */
  ghost predicate Within(size: nat, s: nat, ats: seq<int>) {
    s + |ats| <= size && forall i :: 0 <= i < |ats| ==> 0 <= ats[i] < size
  }

  /** The reference: memory after the first `k` bytes have been copied, every single byte by itself. */
  function Bytewise(mem: seq<Byte>, s: nat, ats: seq<int>, k: nat, dir: int): (r: seq<Byte>)
    requires Within(|mem|, s, ats) && k <= |ats|
    ensures |r| == |mem|
  {
    if k == 0 then mem else Move(Bytewise(mem, s, ats, k - 1, dir), s + k - 1, ats[k - 1], dir)
  }

  /** The first address from number `k` on that is refused, or the end of the range. */
  function Reach(ats: seq<int>, k: nat): (r: nat)
    requires k <= |ats|
    ensures k <= r <= |ats|
    decreases |ats| - k
  {
    if k == |ats| || ats[k] == 0 then k else Reach(ats, k + 1)
  }

  /** The range reaches exactly as far as no address is refused. */
  lemma {:induction false} ReachExactly(ats: seq<int>, k: nat)
    requires k <= |ats|
    ensures forall i :: k <= i < Reach(ats, k) ==> ats[i] != 0
    ensures Reach(ats, k) < |ats| ==> ats[Reach(ats, k)] == 0
    decreases |ats| - k
  {
    if k < |ats| && ats[k] != 0 { ReachExactly(ats, k + 1); }
  }

  // ---- Copying page by page ----

  /** The `k` addresses from number `c` on are adjacent. */
  ghost predicate Adjacent(ats: seq<int>, c: nat, k: nat) {
    c + k <= |ats| && forall j :: c <= j < c + k ==> ats[j] == ats[c] + (j - c)
  }

  lemma AdjacentLess(ats: seq<int>, c: nat, k: nat)
    requires k > 0 && Adjacent(ats, c, k)
    ensures Adjacent(ats, c, k - 1) && ats[c + k - 1] == ats[c] + (k - 1)
  {
  }

  /** What one bcopy of a piece does, whichever the direction. */
  function CopyPiece(mem: seq<Byte>, s: nat, at: nat, k: nat, dir: int): (r: seq<Byte>)
    requires s + k <= |mem| && at + k <= |mem|
  {
    if dir >= 0 then CopyBytes(mem, s, at, k) else CopyBytes(mem, at, s, k)
  }

  lemma OneMoreOfPiece(mem: seq<Byte>, s: nat, at: nat, k: nat, dir: int)
    requires k > 0 && s + k <= |mem| && at + k <= |mem|
    ensures CopyPiece(mem, s, at, k, dir) == Move(CopyPiece(mem, s, at, k - 1, dir), s + k - 1, at + k - 1, dir)
  {
  }

  /** A piece within one page is what copying its bytes singly does. */
  lemma {:induction false} Piece(mem: seq<Byte>, s: nat, ats: seq<int>, c: nat, k: nat, dir: int)
    requires Within(|mem|, s, ats) && c + k <= |ats| && c < |ats| && Adjacent(ats, c, k) && ats[c] + k <= |mem|
    ensures Bytewise(mem, s, ats, c + k, dir) == CopyPiece(Bytewise(mem, s, ats, c, dir), s + c, ats[c], k, dir)
    decreases k
  {
    if k > 0 {
      AdjacentLess(ats, c, k);
      Piece(mem, s, ats, c, k - 1, dir);
      OneMoreOfPiece(Bytewise(mem, s, ats, c, dir), s + c, ats[c], k, dir);
    }
  }

  lemma {:induction false} ReachBeyond(ats: seq<int>, c: nat, k: nat)
    requires c + k <= |ats| && forall j :: c <= j < c + k ==> ats[j] != 0
    ensures Reach(ats, c) == Reach(ats, c + k)
    decreases k
  {
    if k > 0 {
      ReachBeyond(ats, c, k - 1);
      assert ats[c + k - 1] != 0;
    }
  }

  /** The bytes of one page are adjacent in memory. */
  lemma PageIsAdjacent(pcb: Space, size: nat, u: nat, n: int, c: nat, k: nat)
    requires Usable(pcb, size) && 0 < k && c + k <= n && Translate(pcb, u + c) != 0
    requires Translate(pcb, u + c) % MEMORY_PAGE_SIZE + k <= MEMORY_PAGE_SIZE
    ensures Adjacent(Addresses(pcb, u, n), c, k) && Translate(pcb, u + c) + k <= size
  {
    var a := u + c;
    var page := a / MEMORY_PAGE_SIZE;
    assert Frame(pcb, page) % MEMORY_PAGE_SIZE == 0 && Frame(pcb, page) + MEMORY_PAGE_SIZE <= size;
    assert Translate(pcb, a) % MEMORY_PAGE_SIZE == a % MEMORY_PAGE_SIZE;
    var ats := Addresses(pcb, u, n);
    forall j | c <= j < c + k
      ensures ats[j] == ats[c] + (j - c)
    {
      assert (u + j) / MEMORY_PAGE_SIZE == page;
    }
  }

  /** As long as they stay on the page they start on, the addresses from number `c` on are adjacent and in memory. */
  ghost predicate PagedAt(size: nat, ats: seq<int>, c: nat, k: nat)
    requires c < |ats|
  {
    0 < k && c + k <= |ats| && ats[c] != 0 && ats[c] % MEMORY_PAGE_SIZE + k <= MEMORY_PAGE_SIZE ==>
      Adjacent(ats, c, k) && ats[c] + k <= size
  }

  ghost predicate Paged(size: nat, ats: seq<int>) {
    forall c: nat, k: nat :: c < |ats| ==> PagedAt(size, ats, c, k)
  }

  lemma AddressesPaged(size: nat, pcb: Space, u: nat, n: int)
    requires Usable(pcb, size)
    ensures Paged(size, Addresses(pcb, u, n))
  {
    var ats := Addresses(pcb, u, n);
    forall c: nat, k: nat | c < |ats|
      ensures PagedAt(size, ats, c, k)
    {
      if 0 < k && c + k <= |ats| && ats[c] != 0 && ats[c] % MEMORY_PAGE_SIZE + k <= MEMORY_PAGE_SIZE {
        PageIsAdjacent(pcb, size, u, n, c, k);
      }
    }
  }

  lemma AddressesWithin(size: nat, pcb: Space, s: nat, u: nat, n: int)
    requires Usable(pcb, size) && (n > 0 ==> s + n <= size) && s <= size
    ensures Within(size, s, Addresses(pcb, u, n))
  {
  }

  /** One round of the loop does what copying the bytes of one page singly does. */
  lemma PageStep(mem: seq<Byte>, s: nat, ats: seq<int>, c: nat, k: nat, dir: int)
    requires Within(|mem|, s, ats) && Paged(|mem|, ats) && 0 < k && c + k <= |ats|
    requires ats[c] != 0 && ats[c] % MEMORY_PAGE_SIZE + k <= MEMORY_PAGE_SIZE
    ensures ats[c] + k <= |mem|
    ensures Bytewise(mem, s, ats, c + k, dir) == CopyPiece(Bytewise(mem, s, ats, c, dir), s + c, ats[c], k, dir)
    ensures Reach(ats, c) == Reach(ats, c + k)
  {
    assert PagedAt(|mem|, ats, c, k);
    Piece(mem, s, ats, c, k, dir);
    ReachBeyond(ats, c, k);
  }

  lemma UpToRefusal(pcb: Space, u: nat, n: int, copied: nat)
    requires pcb.npages < |pcb.pagetable| && copied == Reach(Addresses(pcb, u, n), 0)
    ensures copied <= if n > 0 then n else 0
    ensures forall i :: 0 <= i < copied ==> Place(pcb, u, i) != 0
    ensures copied < n ==> Place(pcb, u, copied) == 0
  {
    ReachExactly(Addresses(pcb, u, n), 0);
  }

  /** The bytes on the page of address `curUser` that are still to be copied. */
  method BytesToCopy(curUser: nat, left: nat) returns (k: nat)
    requires left > 0
    ensures 0 < k <= left && curUser % MEMORY_PAGE_SIZE + k <= MEMORY_PAGE_SIZE
    ensures k < left ==> curUser % MEMORY_PAGE_SIZE + k == MEMORY_PAGE_SIZE
  {
    k := MEMORY_PAGE_SIZE - curUser % MEMORY_PAGE_SIZE;
    if k > left {
      k := left;
    }
  }

  /** One bcopy in the direction wanted. */
  method MovePiece(mem: array<Byte>, s: nat, at: nat, k: nat, dir: int)
    requires s + k <= mem.Length && at + k <= mem.Length
    modifies mem
    ensures mem[..] == CopyPiece(old(mem[..]), s, at, k, dir)
  {
    if dir >= 0 {
      Bcopy(mem, s, at, k);
    } else {
      Bcopy(mem, at, s, k);
    }
  }

  /** Memory is as copying the first `c` bytes singly leaves it, and no address before was refused. */
  ghost predicate CopiedUpTo(mem: seq<Byte>, start: seq<Byte>, s: nat, ats: seq<int>, c: nat, dir: int)
    requires Within(|start|, s, ats)
  {
    c <= |ats| && mem == Bytewise(start, s, ats, c, dir) && Reach(ats, 0) == Reach(ats, c)
  }

  /** One round of the loop: the bytes of the page of `curUser`, which is where byte `c` belongs. */
  method CopyPage(mem: array<Byte>, from: nat, curUser: nat, left: nat, dir: int,
                  ghost start: seq<Byte>, ghost s: nat, ghost ats: seq<int>, ghost c: nat) returns (k: nat)
    requires |start| == mem.Length && Within(mem.Length, s, ats) && Paged(mem.Length, ats)
    requires left > 0 && c + left == |ats| && from == s + c && curUser == ats[c] != 0
    requires CopiedUpTo(mem[..], start, s, ats, c, dir)
    modifies mem
    ensures 0 < k <= left && CopiedUpTo(mem[..], start, s, ats, c + k, dir)
  {
    k := BytesToCopy(curUser, left);
    PageStep(start, s, ats, c, k, dir);
    MovePiece(mem, from, curUser, k, dir);
  }

  /** The loop of moveBetweenSpaces over the addresses `ats` of the range. */
  method CopyPages(mem: array<Byte>, pcb: Space, s: nat, u: nat, n: int, dir: int, ghost ats: seq<int>)
    returns (bytesCopied: nat)
    requires pcb.npages < |pcb.pagetable| && ats == Addresses(pcb, u, n)
    requires Within(mem.Length, s, ats) && Paged(mem.Length, ats)
    modifies mem
    ensures bytesCopied == Reach(ats, 0) && mem[..] == Bytewise(old(mem[..]), s, ats, bytesCopied, dir)
  {
    ghost var start := mem[..];
    bytesCopied := 0;
    var from: nat, to: nat, left := s, u, n;
    while left > 0
      invariant bytesCopied <= |ats| && left == n - bytesCopied && (n > 0 ==> left == |ats| - bytesCopied)
      invariant from == s + bytesCopied && to == u + bytesCopied
      invariant CopiedUpTo(mem[..], start, s, ats, bytesCopied, dir)
    {
      var curUser := Translate(pcb, to);
      assert curUser == ats[bytesCopied];
      if curUser == 0 {
        break;
      }
      var bytesToCopy := CopyPage(mem, from, curUser, left, dir, start, s, ats, bytesCopied);
      left := left - bytesToCopy;
      bytesCopied := bytesCopied + bytesToCopy;
      from := from + bytesToCopy;
      to := to + bytesToCopy;
    }
  }

  /**
   moveBetweenSpaces: one piece per page, up to the first address that is refused, and returns how
   many bytes come before it. Memory is left as copying these bytes singly leaves it, for any ranges,
   overlapping or not, mapped or not.
   */
  method MoveBetweenSpaces(mem: array<Byte>, pcb: Space, s: nat, u: nat, n: int, dir: int) returns (bytesCopied: nat)
    requires Usable(pcb, mem.Length) && (n > 0 ==> s + n <= mem.Length) && s <= mem.Length
    modifies mem
    ensures bytesCopied <= if n > 0 then n else 0
    ensures forall i :: 0 <= i < bytesCopied ==> Place(pcb, u, i) != 0
    ensures bytesCopied < n ==> Place(pcb, u, bytesCopied) == 0
    ensures Within(mem.Length, s, Addresses(pcb, u, n))
    ensures mem[..] == Bytewise(old(mem[..]), s, Addresses(pcb, u, n), bytesCopied, dir)
  {
    AddressesWithin(mem.Length, pcb, s, u, n);
    AddressesPaged(mem.Length, pcb, u, n);
    bytesCopied := CopyPages(mem, pcb, s, u, n, dir, Addresses(pcb, u, n));
    UpToRefusal(pcb, u, n, bytesCopied);
  }

  // ---- What copying does to memory ----

  /** The first `k` of the range's bytes have frames of their own, apart from the system's buffer at `s`. */
  ghost predicate Mapped(pcb: Space, size: nat, s: nat, u: nat, k: nat) {
    && Usable(pcb, size) && s + k <= size && u + k <= pcb.npages * MEMORY_PAGE_SIZE
    && (forall i :: 0 <= i < pcb.npages ==> Frame(pcb, i) > 0)
    && (forall i, j :: 0 <= i < j < pcb.npages ==> Frame(pcb, i) != Frame(pcb, j))
    && (forall i :: 0 <= i < pcb.npages ==> s + k <= Frame(pcb, i) || Frame(pcb, i) + MEMORY_PAGE_SIZE <= s)
  }

  lemma FramesApart(pcb: Space, size: nat, s: nat, u: nat, k: nat, a: nat, b: nat)
    requires Mapped(pcb, size, s, u, k) && u <= a < u + k && u <= b < u + k
    ensures 0 < Translate(pcb, a) < size && !(s <= Translate(pcb, a) < s + k)
    ensures Translate(pcb, a) == Translate(pcb, b) ==> a == b
  {
    var i, j := a / MEMORY_PAGE_SIZE, b / MEMORY_PAGE_SIZE;
    assert i < pcb.npages && j < pcb.npages;
    assert Frame(pcb, i) % MEMORY_PAGE_SIZE == 0 && Frame(pcb, j) % MEMORY_PAGE_SIZE == 0;
  }

  /** The first `k` addresses are all different and lie outside the system's buffer. */
  ghost predicate Separate(size: nat, s: nat, ats: seq<int>, k: nat) {
    && k <= |ats| && Within(size, s, ats)
    && (forall i :: 0 <= i < k ==> ats[i] > 0 && !(s <= ats[i] < s + k))
    && (forall i, j :: 0 <= i < j < k ==> ats[i] != ats[j])
  }

  lemma MappedSeparate(pcb: Space, size: nat, s: nat, u: nat, k: nat, ats: seq<int>)
    requires Mapped(pcb, size, s, u, k) && k <= |ats| && Within(size, s, ats)
    requires forall i :: 0 <= i < k ==> ats[i] == Place(pcb, u, i)
    ensures Separate(size, s, ats, k)
  {
    forall i | 0 <= i < k
      ensures 0 < ats[i] < size && !(s <= ats[i] < s + k)
    {
      FramesApart(pcb, size, s, u, k, u + i, u + i);
    }
    forall i, j | 0 <= i < j < k
      ensures ats[i] != ats[j]
    {
      FramesApart(pcb, size, s, u, k, u + i, u + j);
    }
  }

  /** A byte that is none of those written keeps its value. */
  lemma {:induction false} Untouched(mem: seq<Byte>, s: nat, ats: seq<int>, k: nat, dir: int, a: nat)
    requires Within(|mem|, s, ats) && k <= |ats| && a < |mem|
    requires if dir >= 0 then forall i :: 0 <= i < k ==> ats[i] != a else !(s <= a < s + k)
    ensures Bytewise(mem, s, ats, k, dir)[a] == mem[a]
  {
    if k > 0 { Untouched(mem, s, ats, k - 1, dir, a); }
  }

  /** Once byte `i` has been copied it is where it should be, and stays there. */
  lemma {:induction false} Landed(mem: seq<Byte>, s: nat, ats: seq<int>, m: nat, k: nat, dir: int, i: nat)
    requires Separate(|mem|, s, ats, m) && i < k <= m
    ensures var after := Bytewise(mem, s, ats, k, dir);
            if dir >= 0 then after[ats[i]] == mem[s + i] else after[s + i] == mem[ats[i]]
  {
    if i < k - 1 {
      Landed(mem, s, ats, m, k - 1, dir, i);
    } else {
      Untouched(mem, s, ats, i, dir, if dir >= 0 then s + i else ats[i]);
    }
  }

  /** To user space: each of the bytes copied lands at its address, and nothing else changes. */
  lemma ToUser(mem: seq<Byte>, s: nat, ats: seq<int>, k: nat, dir: int)
    requires Separate(|mem|, s, ats, k) && dir >= 0
    ensures var after := Bytewise(mem, s, ats, k, dir);
            && (forall i :: 0 <= i < k ==> after[ats[i]] == mem[s + i])
            && (forall a :: 0 <= a < |mem| && a !in ats[..k] ==> after[a] == mem[a])
  {
    var after := Bytewise(mem, s, ats, k, dir);
    forall i | 0 <= i < k
      ensures after[ats[i]] == mem[s + i]
    {
      Landed(mem, s, ats, k, k, dir, i);
    }
    forall a | 0 <= a < |mem| && a !in ats[..k]
      ensures after[a] == mem[a]
    {
      forall i | 0 <= i < k
        ensures ats[i] != a
      {
        assert ats[i] == ats[..k][i];
      }
      Untouched(mem, s, ats, k, dir, a);
    }
  }

  /** From user space: the buffer holds the user's bytes, and nothing else changes. */
  lemma FromUser(mem: seq<Byte>, s: nat, ats: seq<int>, k: nat, dir: int)
    requires Separate(|mem|, s, ats, k) && dir < 0
    ensures var after := Bytewise(mem, s, ats, k, dir);
            && (forall i :: 0 <= i < k ==> after[s + i] == mem[ats[i]])
            && (forall a :: 0 <= a < |mem| && !(s <= a < s + k) ==> after[a] == mem[a])
  {
    var after := Bytewise(mem, s, ats, k, dir);
    forall i | 0 <= i < k
      ensures after[s + i] == mem[ats[i]]
    {
      Landed(mem, s, ats, k, k, dir, i);
    }
    forall a | 0 <= a < |mem| && !(s <= a < s + k)
      ensures after[a] == mem[a]
    {
      Untouched(mem, s, ats, k, dir, a);
    }
  }

  // ---- Ranges that are mapped in part ----

  /** How many bytes of a range that begins in the user's pages are copied. */
  function Part(pcb: Space, u: nat, n: int): int {
    var rest := pcb.npages * MEMORY_PAGE_SIZE - u;
    if n < rest then n else rest
  }

  /** The user's pages have frames, and the entry behind them is empty. */
  ghost predicate LastPageEmpty(pcb: Space) {
    && pcb.npages < |pcb.pagetable| && Frame(pcb, pcb.npages) == 0
    && forall i :: 0 <= i < pcb.npages ==> Frame(pcb, i) > 0
  }

  /** The first address refused is the first behind the user's pages. */
  lemma StopsBehindPages(pcb: Space, u: nat, n: int, copied: nat)
    requires LastPageEmpty(pcb) && n >= 0 && u <= pcb.npages * MEMORY_PAGE_SIZE && copied <= n
    requires forall i :: 0 <= i < copied ==> Place(pcb, u, i) != 0
    requires copied < n ==> Place(pcb, u, copied) == 0
    ensures copied == Part(pcb, u, n)
  {
    var rest := pcb.npages * MEMORY_PAGE_SIZE - u;
    assert u + rest == pcb.npages * MEMORY_PAGE_SIZE;
    if copied > rest {
      assert Place(pcb, u, rest) != 0;
      RefusedExactly(pcb, u + rest);
    } else if copied < n {
      RefusedExactly(pcb, u + copied);
    }
  }

  /** Where `a` is not among the first `k` addresses of the range. */
  ghost predicate Outside(pcb: Space, u: nat, k: nat, a: int)
    requires pcb.npages < |pcb.pagetable|
  {
    forall i :: 0 <= i < k ==> Place(pcb, u, i) != a
  }

  /**
   From the system's buffer to the user: as many bytes as the user's pages hold from `to` on, each to
   where its address leads, and nothing else changes.
   */
  method MemoryCopySystemToUser(mem: array<Byte>, pcb: Space, from: nat, to: nat, n: nat) returns (copied: nat)
    requires LastPageEmpty(pcb) && to <= pcb.npages * MEMORY_PAGE_SIZE && from + n <= mem.Length
    requires Mapped(pcb, mem.Length, from, to, Part(pcb, to, n))
    modifies mem
    ensures copied == Part(pcb, to, n)
    ensures forall i :: 0 <= i < copied ==> 0 < Place(pcb, to, i) < mem.Length
    ensures forall i :: 0 <= i < copied ==> mem[Place(pcb, to, i)] == old(mem[from + i])
    ensures forall a :: 0 <= a < mem.Length && Outside(pcb, to, copied, a) ==> mem[a] == old(mem[a])
  {
    ghost var was, ats := mem[..], Addresses(pcb, to, n);
    copied := MoveBetweenSpaces(mem, pcb, from, to, n, 1);
    StopsBehindPages(pcb, to, n, copied);
    MappedSeparate(pcb, mem.Length, from, to, copied, ats);
    ToUser(was, from, ats, copied, 1);
    forall i | 0 <= i < copied
      ensures 0 < Place(pcb, to, i) < mem.Length && mem[Place(pcb, to, i)] == was[from + i]
    {
      assert ats[i] == Place(pcb, to, i) && mem[..][ats[i]] == was[from + i];
    }
    forall a | 0 <= a < mem.Length && Outside(pcb, to, copied, a)
      ensures mem[a] == was[a]
    {
      assert a !in ats[..copied];
      assert mem[..][a] == was[a];
    }
  }

  /** From the user to the system's buffer: likewise in the other direction. */
  method MemoryCopyUserToSystem(mem: array<Byte>, pcb: Space, from: nat, to: nat, n: nat) returns (copied: nat)
    requires LastPageEmpty(pcb) && from <= pcb.npages * MEMORY_PAGE_SIZE && to + n <= mem.Length
    requires Mapped(pcb, mem.Length, to, from, Part(pcb, from, n))
    modifies mem
    ensures copied == Part(pcb, from, n)
    ensures forall i :: 0 <= i < copied ==> 0 < Place(pcb, from, i) < mem.Length
    ensures forall i :: 0 <= i < copied ==> mem[to + i] == old(mem[Place(pcb, from, i)])
    ensures forall a :: 0 <= a < mem.Length && !(to <= a < to + copied) ==> mem[a] == old(mem[a])
  {
    ghost var was, ats := mem[..], Addresses(pcb, from, n);
    copied := MoveBetweenSpaces(mem, pcb, to, from, n, -1);
    StopsBehindPages(pcb, from, n, copied);
    MappedSeparate(pcb, mem.Length, to, from, copied, ats);
    FromUser(was, to, ats, copied, -1);
    forall i | 0 <= i < copied
      ensures 0 < Place(pcb, from, i) < mem.Length && mem[to + i] == was[Place(pcb, from, i)]
    {
      assert ats[i] == Place(pcb, from, i) && mem[..][to + i] == was[ats[i]];
    }
    forall a | 0 <= a < mem.Length && !(to <= a < to + copied)
      ensures mem[a] == was[a]
    {
      assert mem[..][a] == was[a];
    }
  }

  // ---- There and back ----

  lemma ThereAndBackAt(mem: seq<Byte>, s: nat, t: nat, ats: seq<int>, k: nat, i: nat)
    requires Separate(|mem|, s, ats, k) && Separate(|mem|, t, ats, k) && i < k
    ensures Bytewise(Bytewise(mem, s, ats, k, 1), t, ats, k, -1)[t + i] == mem[s + i]
  {
    Landed(mem, s, ats, k, k, 1, i);
    Landed(Bytewise(mem, s, ats, k, 1), t, ats, k, k, -1, i);
  }

  lemma ThereAndBack(mem: seq<Byte>, s: nat, t: nat, ats: seq<int>, k: nat)
    requires Separate(|mem|, s, ats, k) && Separate(|mem|, t, ats, k)
    ensures Bytewise(Bytewise(mem, s, ats, k, 1), t, ats, k, -1)[t..t + k] == mem[s..s + k]
  {
    var back := Bytewise(Bytewise(mem, s, ats, k, 1), t, ats, k, -1);
    var got, given := back[t..t + k], mem[s..s + k];
    forall i | 0 <= i < k
      ensures got[i] == given[i]
    {
      ThereAndBackAt(mem, s, t, ats, k, i);
    }
  }

  /**
   Copying to user space and back into any buffer that is not a page of the user's returns as many
   bytes as the range has in the user's pages.
   */
  lemma RoundTrip(mem: seq<Byte>, pcb: Space, s: nat, u: nat, n: nat, t: nat, k: nat, ats: seq<int>)
    requires k <= n && Mapped(pcb, |mem|, s, u, k) && Mapped(pcb, |mem|, t, u, k) && ats == Addresses(pcb, u, n)
    requires s + n <= |mem| && t + n <= |mem|
    ensures Within(|mem|, s, ats) && Within(|mem|, t, ats)
    ensures Bytewise(Bytewise(mem, s, ats, k, 1), t, ats, k, -1)[t..t + k] == mem[s..s + k]
  {
    AddressesWithin(|mem|, pcb, s, u, n);
    AddressesWithin(|mem|, pcb, t, u, n);
    assert Separate(|mem|, s, ats, k) by { MappedSeparate(pcb, |mem|, s, u, k, ats); }
    assert Separate(|mem|, t, ats, k) by { MappedSeparate(pcb, |mem|, t, u, k, ats); }
    ThereAndBack(mem, s, t, ats, k);
  }
}
