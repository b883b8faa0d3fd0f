/** Linear probing: the slots of a table in the order in which a probe visits them. */
module Probing {
  import opened Blocks

  /** The slot `d` steps after the one that a hash leads to, in a table of `size` slots. */
  function Slot(hash: nat, d: nat, size: nat): nat {
    if size > 0 then Wrap(hash + d, size) else 0
  }

  /** Every slot is some number of steps, less than one turn, after the one a hash leads to. */
  lemma StepsTo(hash: nat, j: nat, size: nat) returns (d: nat)
    requires j < size
    ensures d < size && Slot(hash, d, size) == j
  {
    var w := Wrap(hash, size);
    WrapBelow(hash, size);
    d := if w <= j then j - w else j + size - w;
    WrapAdd(hash, d, size);
  }

  lemma SlotBelow(hash: nat, d: nat, size: nat)
    requires size > 0
    ensures Slot(hash, d, size) < size
  {
    WrapBelow(hash + d, size);
  }

  lemma SlotsDiffer(hash: nat, d: nat, e: nat, size: nat)
    requires d < size && e < size && d != e
    ensures Slot(hash, d, size) != Slot(hash, e, size)
  {
    if d < e { WrapInjective(hash + d, hash + e, size); } else { WrapInjective(hash + e, hash + d, size); }
  }

  /** A probe goes to the next slot, or from the last to the first. */
  lemma NextSlot(hash: nat, d: nat, size: nat)
    requires size > 0
    ensures Slot(hash, d + 1, size) == (Slot(hash, d, size) + 1) % size
  {
    WrapBelow(hash + d, size);
    WrapIsRemainder(hash + d, size);
    WrapIsRemainder(hash + d + 1, size);
    var w := Slot(hash, d, size);
    if w + 1 < size {
      DivUnique(w + 1, 0, w + 1, size);
    } else {
      DivUnique(w + 1, 1, 0, size);
    }
  }

  lemma FirstSlot(hash: nat, size: nat)
    requires size > 0
    ensures Slot(hash, 0, size) == hash % size
  {
    WrapIsRemainder(hash, size);
  }
}
