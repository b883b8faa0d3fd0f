/** Machine words of 64 bits, as the tag decoder uses them: shifts, masks, the quarter turn of a
    code, and the distance between codes. */
module Words {

  /** Bit `i` of the word is element `i`. */
  type Word = w: seq<bool> | |w| == 64 witness seq(64, _ => false)

  function AllOnes(): Word { seq(64, (i: nat) => true) }

  function Shl(w: Word, k: nat): Word { seq(64, (i: nat) requires i < 64 => i >= k && w[i - k]) }

  function Shr(w: Word, k: nat): Word { seq(64, (i: nat) requires i < 64 => i + k < 64 && w[i + k]) }

  function Or(a: Word, b: Word): Word { seq(64, (i: nat) requires i < 64 => a[i] || b[i]) }

  /** The lowest `n` bits, `w & ((1 << n) - 1)`. */
  function Mask(w: Word, n: nat): Word { seq(64, (i: nat) requires i < 64 => w[i] && i < n) }

  /** `w ^ (1 << j)` */
  function Flip(w: Word, j: nat): Word
    requires j < 64
  {
    w[j := !w[j]]
  }

  /** The number that the first `n` bits stand for. */
  function Number(w: Word, n: nat): nat
    requires n <= 64
    decreases n
  {
    if n == 0 then 0 else 2 * Number(Shr(w, 1), n - 1) + if w[0] then 1 else 0
  }

  predicate Fits(w: Word, n: nat) { forall i :: 0 <= i < 64 && i >= n ==> !w[i] }

  // ----- the quarter turn -----

  /** `rotate90`, with the shifts of the program. */
  function Rotate90(w: Word, numBits: nat): Word
    requires numBits < 64
  {
    var p, l := if numBits % 4 == 1 then numBits - 1 else numBits, if numBits % 4 == 1 then 1 else 0;
    Mask(Or(Or(Shl(Shr(w, l), p / 4 + l), Shl(Shr(w, 3 * p / 4 + l), l)), Mask(w, l)), numBits)
  }

  function Quarter(numBits: nat): nat { numBits / 4 }

  /** Where bit `i` of the turned word comes from. */
  function Source(i: nat, numBits: nat): nat {
    var q, l := Quarter(numBits), numBits % 4;
    if i < l || i >= numBits then i
    else if i - l < q then i + 3 * q else i - q
  }

  lemma QuarterTurn(numBits: nat)
    requires numBits % 4 <= 1
    ensures var p := if numBits % 4 == 1 then numBits - 1 else numBits;
            p / 4 == Quarter(numBits) && 3 * p / 4 == 3 * Quarter(numBits) && p == 4 * Quarter(numBits)
  {
  }

  /** Bit by bit, the turn takes each bit from one place. */
  lemma RotateBit(w: Word, numBits: nat, i: nat)
    requires numBits < 64 && numBits % 4 <= 1 && Fits(w, numBits) && i < 64
    ensures Source(i, numBits) < 64 && Rotate90(w, numBits)[i] == w[Source(i, numBits)]
    ensures i < numBits ==> Source(i, numBits) < numBits
  {
    QuarterTurn(numBits);
    var q, l := Quarter(numBits), numBits % 4;
    if i >= l && i < numBits {
      var a, b := Shl(Shr(w, l), q + l), Shl(Shr(w, 3 * q + l), l);
      assert b[i] == (i + 3 * q < 64 && w[i + 3 * q]);
      assert a[i] == (i >= q + l && w[i - q]);
    }
  }

  lemma RotateFits(w: Word, numBits: nat)
    requires numBits < 64
    ensures Fits(Rotate90(w, numBits), numBits)
  {
  }

  /** `k` quarter turns. */
  function Turn(w: Word, numBits: nat, k: nat): Word
    requires numBits < 64
  {
    if k == 0 then w else Rotate90(Turn(w, numBits, k - 1), numBits)
  }

  lemma {:induction false} TurnFits(w: Word, numBits: nat, k: nat)
    requires numBits < 64 && Fits(w, numBits)
    ensures Fits(Turn(w, numBits, k), numBits)
  {
    if k > 0 {
      TurnFits(w, numBits, k - 1);
      RotateFits(Turn(w, numBits, k - 1), numBits);
    }
  }

  lemma SourceTurns(i: nat, numBits: nat)
    requires numBits % 4 <= 1
    ensures Source(Source(Source(Source(i, numBits), numBits), numBits), numBits) == i
  {
  }

  /** Four turns are none. */
  lemma TurnHasOrderFour(w: Word, numBits: nat)
    requires numBits < 64 && numBits % 4 <= 1 && Fits(w, numBits)
    ensures Turn(w, numBits, 4) == w
  {
    TurnFits(w, numBits, 1);
    TurnFits(w, numBits, 2);
    TurnFits(w, numBits, 3);
    hide Rotate90, Source, Fits;
    var w1, w2, w3 := Turn(w, numBits, 1), Turn(w, numBits, 2), Turn(w, numBits, 3);
    assert Turn(w, numBits, 0) == w;
    forall i: nat | i < 64 ensures Turn(w, numBits, 4)[i] == w[i] {
      RotateBit(w3, numBits, i);
      RotateBit(w2, numBits, Source(i, numBits));
      RotateBit(w1, numBits, Source(Source(i, numBits), numBits));
      RotateBit(w, numBits, Source(Source(Source(i, numBits), numBits), numBits));
      SourceTurns(i, numBits);
    }
  }

  // ----- distance -----

  /** In how many places two sequences of bits differ. */
  function Diff(a: seq<bool>, b: seq<bool>): nat
    requires |a| == |b|
  {
    if a == [] then 0 else (if a[0] != b[0] then 1 else 0) + Diff(a[1..], b[1..])
  }

  function Distance(a: Word, b: Word): nat { Diff(a, b) }

  lemma {:induction false} DiffAppend(a: seq<bool>, b: seq<bool>, c: seq<bool>, d: seq<bool>)
    requires |a| == |b| && |c| == |d|
    ensures Diff(a + c, b + d) == Diff(a, b) + Diff(c, d)
  {
    if a == [] {
      assert a + c == c && b + d == d;
    } else {
      assert (a + c)[1..] == a[1..] + c && (b + d)[1..] == b[1..] + d;
      DiffAppend(a[1..], b[1..], c, d);
    }
  }

  lemma {:induction false} DiffZero(a: seq<bool>, b: seq<bool>)
    requires |a| == |b|
    ensures Diff(a, b) == 0 <==> a == b
    ensures Diff(a, b) == Diff(b, a)
  {
    if a != [] {
      DiffZero(a[1..], b[1..]);
      assert a == [a[0]] + a[1..] && b == [b[0]] + b[1..];
    }
  }

  lemma {:induction false} DiffTriangle(a: seq<bool>, b: seq<bool>, c: seq<bool>)
    requires |a| == |b| == |c|
    ensures Diff(a, c) <= Diff(a, b) + Diff(b, c)
  {
    if a != [] { DiffTriangle(a[1..], b[1..], c[1..]); }
  }

  /** The pieces of a word in the order in which the turn puts them. */
  function Pieces(w: Word, numBits: nat): (p: seq<bool>)
    requires numBits < 64 && numBits % 4 <= 1
    ensures |p| == 64
  {
    var q, l := Quarter(numBits), numBits % 4;
    w[..l] + w[l + 3 * q..numBits] + w[l..l + 3 * q] + w[numBits..]
  }

  lemma PieceBit(w: Word, numBits: nat, i: nat)
    requires numBits < 64 && numBits % 4 <= 1 && i < 64
    ensures Source(i, numBits) < 64 && Pieces(w, numBits)[i] == w[Source(i, numBits)]
  {
  }

  /** A turned word, cut into the pieces that the turn moves. */
  lemma RotatePieces(w: Word, numBits: nat)
    requires numBits < 64 && numBits % 4 <= 1 && Fits(w, numBits)
    ensures Rotate90(w, numBits) == Pieces(w, numBits)
  {
    hide Rotate90, Source, Pieces;
    forall i: nat | i < 64 ensures Rotate90(w, numBits)[i] == Pieces(w, numBits)[i] {
      RotateBit(w, numBits, i);
      PieceBit(w, numBits, i);
    }
  }

  lemma WholeWord(w: Word, numBits: nat)
    requires numBits < 64 && numBits % 4 <= 1
    ensures var q, l := Quarter(numBits), numBits % 4;
            l + 4 * q == numBits && w == w[..l] + w[l..l + 3 * q] + w[l + 3 * q..numBits] + w[numBits..]
  {
  }

  /** Turning both words does not change how far they are apart. */
  lemma TurnKeepsDistance(a: Word, b: Word, numBits: nat)
    requires numBits < 64 && numBits % 4 <= 1 && Fits(a, numBits) && Fits(b, numBits)
    ensures Distance(Rotate90(a, numBits), Rotate90(b, numBits)) == Distance(a, b)
  {
    hide Rotate90, Diff;
    RotatePieces(a, numBits);
    RotatePieces(b, numBits);
    WholeWord(a, numBits);
    WholeWord(b, numBits);
    var q, l := Quarter(numBits), numBits % 4;
    var a0, a1, a2, a3 := a[..l], a[l..l + 3 * q], a[l + 3 * q..numBits], a[numBits..];
    var b0, b1, b2, b3 := b[..l], b[l..l + 3 * q], b[l + 3 * q..numBits], b[numBits..];
    DiffAppend(a0 + a1 + a2, b0 + b1 + b2, a3, b3);
    DiffAppend(a0 + a1, b0 + b1, a2, b2);
    DiffAppend(a0, b0, a1, b1);
    DiffAppend(a0 + a2 + a1, b0 + b2 + b1, a3, b3);
    DiffAppend(a0 + a2, b0 + b2, a1, b1);
    DiffAppend(a0, b0, a2, b2);
  }

  lemma {:induction false} TurnsKeepDistance(a: Word, b: Word, numBits: nat, k: nat)
    requires numBits < 64 && numBits % 4 <= 1 && Fits(a, numBits) && Fits(b, numBits)
    ensures Distance(Turn(a, numBits, k), Turn(b, numBits, k)) == Distance(a, b)
  {
    hide Diff, Rotate90;
    if k > 0 {
      TurnsKeepDistance(a, b, numBits, k - 1);
      TurnFits(a, numBits, k - 1);
      TurnFits(b, numBits, k - 1);
      TurnKeepsDistance(Turn(a, numBits, k - 1), Turn(b, numBits, k - 1), numBits);
    }
  }

  /** One bit set. */
  function Single(j: nat): Word { seq(64, (i: nat) => i == j) }

  function Pair(j: nat, k: nat): Word { seq(64, (i: nat) => i == j || i == k) }

  /** For other sizes the turn loses bits: two different codes become the same. */
  lemma OtherSizesLoseBits(numBits: nat)
    requires 2 <= numBits < 64 && numBits % 4 >= 2
    ensures var top := numBits - 1;
            && Single(top) != Pair(top, 0) && Fits(Single(top), numBits) && Fits(Pair(top, 0), numBits)
            && Rotate90(Single(top), numBits) == Rotate90(Pair(top, 0), numBits)
  {
    var top, q := numBits - 1, numBits / 4;
    assert 3 * numBits / 4 == top - q;
    assert Single(top)[0] != Pair(top, 0)[0];
    forall i: nat | i < 64 ensures Rotate90(Single(top), numBits)[i] == Rotate90(Pair(top, 0), numBits)[i] {
      LostBit(numBits, i);
    }
  }

  lemma LostBit(numBits: nat, i: nat)
    requires 2 <= numBits < 64 && numBits % 4 >= 2 && i < 64
    ensures Rotate90(Single(numBits - 1), numBits)[i] == Rotate90(Pair(numBits - 1, 0), numBits)[i]
  {
    var top, q := numBits - 1, numBits / 4;
    assert 3 * numBits / 4 == top - q;
    assert RotatedOther(Single(top), numBits, i) == RotatedOther(Pair(top, 0), numBits, i);
    RotateOther(Single(top), numBits, i);
    RotateOther(Pair(top, 0), numBits, i);
  }

  /** Bit `i` of a word turned at the other sizes. */
  function RotatedOther(w: Word, numBits: nat, i: nat): bool {
    var q, s := numBits / 4, 3 * numBits / 4;
    i < numBits && i < 64 && ((i >= q && w[i - q]) || (i + s < 64 && w[i + s]))
  }

  lemma RotateOther(w: Word, numBits: nat, i: nat)
    requires numBits < 64 && numBits % 4 != 1 && i < 64
    ensures Rotate90(w, numBits)[i] == RotatedOther(w, numBits, i)
  {
  }

  /** The turn can be undone exactly for codes of `4 k` or `4 k + 1` bits. */
  lemma TurnIsReversible(numBits: nat)
    requires numBits < 64
    ensures numBits % 4 <= 1 <==>
            forall a: Word, b: Word :: Fits(a, numBits) && Fits(b, numBits) && Rotate90(a, numBits) == Rotate90(b, numBits) ==> a == b
  {
    hide Rotate90, Fits;
    if numBits % 4 <= 1 {
      forall a: Word, b: Word | Fits(a, numBits) && Fits(b, numBits) && Rotate90(a, numBits) == Rotate90(b, numBits) ensures a == b {
        TurnKeepsDistance(a, b, numBits);
        DiffZero(a, b);
        DiffZero(Rotate90(a, numBits), Rotate90(b, numBits));
      }
    } else {
      OtherSizesLoseBits(numBits);
    }
  }
}
