/** Index arithmetic: which block an element index lies in, and positions on a ring.

    The program computes these with masks, since block and index sizes are powers of two; the
    recursive forms below keep the proofs linear, and are tied to division and remainder. */
module Blocks {

  type BlockSize = n: nat | n > 1 witness 2

  /** The template parameter; every result holds for each value. */
  const BLOCK_SIZE: BlockSize

  /** Block number of index `i`. */
  function Blk(i: nat): nat { if i < BLOCK_SIZE then 0 else 1 + Blk(i - BLOCK_SIZE) }

  /** Slot of index `i` in its block, `i & (BLOCK_SIZE - 1)`. */
  function Off(i: nat): nat { if i < BLOCK_SIZE then i else Off(i - BLOCK_SIZE) }

  /** First index of block `n`. */
  function Start(n: nat): nat { if n == 0 then 0 else Start(n - 1) + BLOCK_SIZE }

  /** How many blocks hold the first `i` elements. */
  function CeilBlk(i: nat): nat { if i == 0 then 0 else Blk(i - 1) + 1 }

  /** `index & ~(BLOCK_SIZE - 1)` */
  function Base(i: nat): nat { Start(Blk(i)) }

  /** Signed division of a byte-free distance by the block size, truncating as C++ does. */
  function DivBlocks(d: int): int
    decreases if d < 0 then -d else d
  {
    if d >= BLOCK_SIZE then 1 + DivBlocks(d - BLOCK_SIZE)
    else if 0 <= -d - BLOCK_SIZE then DivBlocks(d + BLOCK_SIZE) - 1
    else 0
  }

  lemma {:induction false} BlkIsDivision(i: nat)
    ensures Blk(i) == i / BLOCK_SIZE && Off(i) == i % BLOCK_SIZE
    ensures Base(i) == i - i % BLOCK_SIZE
  {
    SplitIndex(i);
    if i >= BLOCK_SIZE {
      BlkIsDivision(i - BLOCK_SIZE);
      var q, r := (i - BLOCK_SIZE) / BLOCK_SIZE, (i - BLOCK_SIZE) % BLOCK_SIZE;
      assert i == (q + 1) * BLOCK_SIZE + r by { assert i - BLOCK_SIZE == q * BLOCK_SIZE + r; }
      DivUnique(i, q + 1, r, BLOCK_SIZE);
    } else {
      DivUnique(i, 0, i, BLOCK_SIZE);
    }
  }

  lemma MultipleIsFar(k: int, size: nat)
    requires k != 0
    ensures k * size >= size || k * size <= 0 - size
  {
    if k > 0 {
      assert (k - 1) * size >= 0;
    } else {
      assert (-k - 1) * size >= 0;
    }
  }

  lemma DivUnique(i: nat, q: int, r: nat, size: nat)
    requires i == q * size + r && r < size
    ensures i / size == q && i % size == r
  {
    var p, s := i / size, i % size;
    assert i == p * size + s;
    assert (p - q) * size == r - s;
    if p != q { MultipleIsFar(p - q, size); }
  }

  lemma {:induction false} SplitIndex(i: nat)
    ensures i == Start(Blk(i)) + Off(i) && Off(i) < BLOCK_SIZE
  {
    if i >= BLOCK_SIZE { SplitIndex(i - BLOCK_SIZE); }
  }

  lemma {:induction false} JoinIndex(n: nat, k: nat)
    requires k < BLOCK_SIZE
    ensures Blk(Start(n) + k) == n && Off(Start(n) + k) == k
  {
    if n > 0 { JoinIndex(n - 1, k); }
  }

  lemma {:induction false} BlkMonotone(i: nat, j: nat)
    requires i <= j
    ensures Blk(i) <= Blk(j)
  {
    if i >= BLOCK_SIZE { BlkMonotone(i - BLOCK_SIZE, j - BLOCK_SIZE); }
  }

  lemma {:induction false} StartMonotone(m: nat, n: nat)
    requires m < n
    ensures Start(m) + BLOCK_SIZE <= Start(n)
  {
    if m < n - 1 { StartMonotone(m, n - 1); }
  }

  lemma NextIndex(i: nat)
    ensures if Off(i) + 1 == BLOCK_SIZE then Blk(i + 1) == Blk(i) + 1 && Off(i + 1) == 0
            else Blk(i + 1) == Blk(i) && Off(i + 1) == Off(i) + 1
  {
    SplitIndex(i);
    if Off(i) + 1 == BLOCK_SIZE {
      JoinIndex(Blk(i) + 1, 0);
    } else {
      JoinIndex(Blk(i), Off(i) + 1);
    }
  }

  lemma CeilFacts(i: nat)
    ensures Off(i) == 0 ==> CeilBlk(i) == Blk(i) && CeilBlk(i + 1) == CeilBlk(i) + 1
    ensures Off(i) != 0 ==> CeilBlk(i) == Blk(i) + 1 && CeilBlk(i + 1) == CeilBlk(i)
    ensures CeilBlk(i + 1) == Blk(i) + 1
  {
    if i > 0 { NextIndex(i - 1); }
  }

  /** An index below `j` lies in one of the blocks that hold the first `j` elements. */
  lemma BelowCeil(i: nat, j: nat)
    requires i < j
    ensures Blk(i) < CeilBlk(j) && i < Start(CeilBlk(j))
  {
    BlkMonotone(i, j - 1);
    SplitIndex(i);
    StartMonotone(Blk(i), CeilBlk(j));
  }

  lemma CeilMonotone(i: nat, j: nat)
    requires i <= j
    ensures CeilBlk(i) <= CeilBlk(j)
  {
    if 0 < i { BlkMonotone(i - 1, j - 1); }
  }

  lemma {:induction false} DivBlocksOfStarts(b: nat, m: nat)
    requires b <= m
    ensures DivBlocks(Start(b) - Start(m)) == b - m
  {
    if b < m {
      StartMonotone(b, m);
      DivBlocksOfStarts(b, m - 1);
    }
  }

  /** How many blocks the operation has to set aside. */
  function Need(tail: nat, n: nat): nat { if CeilBlk(tail + n) >= CeilBlk(tail) then CeilBlk(tail + n) - CeilBlk(tail) else 0 }

  /** An operation that needs no new block starts in the middle of the tail block. */
  lemma NoNeed(tail: nat, n: nat)
    requires n > 0 && Need(tail, n) == 0
    ensures Off(tail) != 0 && CeilBlk(tail + n) == CeilBlk(tail) == Blk(tail) + 1
  {
    CeilMonotone(tail, tail + n);
    CeilMonotone(tail + 1, tail + n);
    CeilFacts(tail);
  }

  // ----- rings -----

  /** `x & (size - 1)` for a power of two. */
  function Wrap(x: nat, size: nat): nat
    requires size > 0
  {
    if x < size then x else Wrap(x - size, size)
  }

  function Succ(p: nat, size: nat): nat { if p + 1 == size then 0 else p + 1 }

  function Pred(p: nat, size: nat): int { if p == 0 then size - 1 else p - 1 }

  lemma {:induction false} WrapIsRemainder(x: nat, size: nat)
    requires size > 0
    ensures Wrap(x, size) == x % size
  {
    if x >= size {
      WrapIsRemainder(x - size, size);
      RemainderStep(x, size);
    }
  }

  lemma RemainderStep(x: nat, size: nat)
    requires x >= size > 0
    ensures x % size == (x - size) % size
  {
    var q, r := (x - size) / size, (x - size) % size;
    assert x - size == q * size + r;
    DivUnique(x, q + 1, r, size);
  }

  lemma {:induction false} WrapBelow(x: nat, size: nat)
    requires size > 0
    ensures Wrap(x, size) < size
    ensures Wrap(x + 1, size) == Succ(Wrap(x, size), size)
    ensures Wrap(x + size, size) == Wrap(x, size)
  {
    if x >= size { WrapBelow(x - size, size); }
  }

  /** Walking `d` steps from one position is adding `d`, wrapping at most once. */
  lemma {:induction false} WrapAdd(x: nat, d: nat, size: nat)
    requires size > 0 && d < size
    ensures Wrap(x, size) < size
    ensures Wrap(x + d, size) == if Wrap(x, size) + d < size then Wrap(x, size) + d else Wrap(x, size) + d - size
  {
    if x >= size {
      WrapAdd(x - size, d, size);
    }
  }

  /** Positions less than one turn apart are different. */
  lemma WrapInjective(x: nat, y: nat, size: nat)
    requires size > 0 && x < y < x + size
    ensures Wrap(x, size) != Wrap(y, size)
  {
    WrapAdd(x, y - x, size);
  }

  /** `x & (size - 1)` for a word that may have wrapped below zero. */
  function Mask(x: int, size: nat): nat
    requires size > 0
  {
    if x >= 0 then Wrap(x, size) else Wrap(Neg(x, size), size)
  }

  /** The least non-negative number reached from `x` by adding `size`. */
  function Neg(x: int, size: nat): nat
    requires size > 0
    decreases if x < 0 then -x else 0
  {
    if x >= 0 then x else if x + size >= 0 then x + size else Neg(x + size, size)
  }

  /** Moving back by at most one turn on the ring, whether or not the word wraps below zero. */
  lemma MaskBack(y: nat, d: nat, size: nat)
    requires 0 < size && d <= size && d <= y
    ensures Mask(Wrap(y, size) - d, size) == Wrap(y - d, size)
  {
    var z := y - d;
    WrapBelow(z, size);
    WrapAdd(0, Wrap(z, size), size);
    if d < size {
      WrapAdd(z, d, size);
    }
  }

  /** Going back any distance on the ring, whether or not the word wraps below zero. */
  lemma {:induction false} MaskFarBack(y: nat, d: nat, size: nat)
    requires 0 < size && d <= y
    ensures Mask(Wrap(y, size) - d, size) == Wrap(y - d, size)
  {
    if d <= size {
      MaskBack(y, d, size);
    } else {
      MaskFarBack(y - size, d - size, size);
      WrapBelow(y, size);
      assert Mask(Wrap(y, size) - d, size) == Mask(Wrap(y, size) - d + size, size);
    }
  }

  /** Going forward any distance on the ring. */
  lemma {:induction false} WrapForward(x: nat, d: nat, size: nat)
    requires 0 < size
    ensures Wrap(Wrap(x, size) + d, size) == Wrap(x + d, size)
  {
    if x >= size {
      WrapForward(x - size, d, size);
      WrapBelow(x + d - size, size);
    }
  }
}
