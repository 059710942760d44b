/** Single bits of the 32-bit words in which os/memory.c keeps its map of free pages. */
module WordBits {

  /** The word 1 << i, by doubling. */
  function Bit(i: nat): bv32
    requires i < 32
  {
    if i == 0 then 1 else Bit(i - 1) + Bit(i - 1)
  }

  lemma ShiftOnce(i: nat)
    requires 0 < i < 32
    ensures 1 as bv32 << i == (1 as bv32 << (i - 1)) + (1 as bv32 << (i - 1))
  {
  }

  lemma {:induction false} BitIsShift(i: nat)
    requires i < 32
    ensures Bit(i) == 1 as bv32 << i
  {
    if i > 0 {
      BitIsShift(i - 1);
      ShiftOnce(i);
    }
  }

  predicate Has(w: bv32, i: nat)
    requires i < 32
  {
    w & Bit(i) != 0
  }

  function Invert(w: bv32): bv32 { w ^ 0xffffffff }

  lemma BitsDiffer(i: nat, j: nat)
    requires i < 32 && j < 32 && i != j
    ensures Bit(i) & Bit(j) == 0 && Bit(i) != 0
  {
    BitIsShift(i);
    BitIsShift(j);
  }

  /** What MemorySetFreemap stores for the bit of weight `x`: all others stay. */
  function Masked(w: bv32, x: bv32, b: bool): bv32
  {
    (w & Invert(x)) | (if b then x else 0)
  }

  lemma MaskedBit(w: bv32, x: bv32, b: bool)
    ensures Masked(w, x, b) & x == if b then x else 0
  {
  }

  lemma MaskedOther(w: bv32, x: bv32, y: bv32, b: bool)
    requires x & y == 0
    ensures Masked(w, x, b) & y == w & y
  {
  }

  lemma MaskedHere(w: bv32, i: nat, b: bool)
    requires i < 32
    ensures Has(Masked(w, Bit(i), b), i) == b
  {
    MaskedBit(w, Bit(i), b);
    BitIsShift(i);
  }

  lemma MaskedElsewhere(w: bv32, i: nat, b: bool, j: nat)
    requires i < 32 && j < 32 && i != j
    ensures Has(Masked(w, Bit(i), b), j) == Has(w, j)
  {
    BitsDiffer(i, j);
    MaskedOther(w, Bit(i), Bit(j), b);
  }

  lemma MaskedHas(w: bv32, i: nat, b: bool, j: nat)
    requires i < 32 && j < 32
    ensures Has(Masked(w, Bit(i), b), j) == if i == j then b else Has(w, j)
  {
    if i == j { MaskedHere(w, i, b); } else { MaskedElsewhere(w, i, b, j); }
  }

  /** The bits below `k`. */
  function Below(k: nat): bv32
    requires k <= 32
  {
    if k == 0 then 0 else Below(k - 1) | Bit(k - 1)
  }

  lemma {:induction false} OneBit(k: nat)
    requires k < 32
    ensures Bit(k) & (Bit(k) - 1) == 0
  {
    if k > 0 { OneBit(k - 1); }
  }

  lemma JoinBelow(x: bv32)
    requires x & (x - 1) == 0
    ensures (x - 1) | x == x + x - 1
  {
  }

  lemma {:induction false} BelowIs(k: nat)
    requires k < 32
    ensures Below(k) == Bit(k) - 1
  {
    if k > 0 {
      BelowIs(k - 1);
      OneBit(k - 1);
      JoinBelow(Bit(k - 1));
    }
  }

  lemma {:induction false} NothingBelow(w: bv32, k: nat)
    requires k <= 32
    requires forall i: nat :: i < k ==> !Has(w, i)
    ensures w & Below(k) == 0
  {
    if k > 0 {
      NothingBelow(w, k - 1);
      assert !Has(w, k - 1);
    }
  }

  lemma NonZeroHasBit(w: bv32)
    requires forall i: nat :: i < 32 ==> !Has(w, i)
    ensures w == 0
  {
    NothingBelow(w, 32);
    BelowIs(31);
    BitIsShift(31);
    assert Bit(31) == 0x80000000;
  }

  lemma ClearIsMasked(w: bv32, x: bv32)
    ensures w & Invert(x) == Masked(w, x, false)
  {
  }

  /** The search for the lowest set bit of a word. */
  method LowestBit(w: bv32) returns (bitnum: nat)
    requires w != 0
    ensures bitnum < 32 && Has(w, bitnum)
    ensures forall i: nat :: i < bitnum ==> !Has(w, i)
  {
    if forall i: nat :: i < 32 ==> !Has(w, i) { NonZeroHasBit(w); }
    ghost var k: nat :| k < 32 && Has(w, k);
    bitnum := 0;
    while !Has(w, bitnum)
      invariant 0 <= bitnum <= k
      invariant forall i: nat :: i < bitnum ==> !Has(w, i)
      decreases k - bitnum
    {
      bitnum := bitnum + 1;
    }
  }
}
