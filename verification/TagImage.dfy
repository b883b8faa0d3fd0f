/** Drawing a tag and reading it back: the picture that a family and a code make, the bits that are
    read off a picture in the order of the family, and quarter turns of either. */
module TagImage {
  import opened Words
  import opened QuickDecode
  import opened ErrorCorrection

  /** Where the bits of a family lie, first drawn first, counted from the corner of the border. */
  datatype Layout = Layout(total: nat, border: nat, reversed: bool, bits: seq<(int, int)>)

  /** Rows of pixels, white or black. */
  type Picture = seq<seq<bool>>

  predicate Square(p: Picture, n: nat) { |p| == n && forall y :: 0 <= y < n ==> |p[y]| == n }

  function WhiteWidth(l: Layout): nat { l.border + if l.reversed then 0 else 2 }

  /** The borders fit the picture. */
  predicate Fitting(l: Layout) { WhiteWidth(l) <= l.total && |l.bits| < 64 }

  /** First row and column of the white border. */
  function Low(l: Layout): nat
    requires Fitting(l)
  {
    (l.total - WhiteWidth(l)) / 2
  }

  function High(l: Layout): int
    requires Fitting(l)
  {
    l.total - 1 - Low(l)
  }

  /** Where bit `i`, in drawing order, lies in the picture. */
  function Cell(l: Layout, i: nat): (int, int)
    requires Fitting(l) && i < |l.bits|
  {
    var start := (l.total - l.border) / 2;
    (l.bits[i].0 + start, l.bits[i].1 + start)
  }

  predicate Inside(c: (int, int), n: nat) { 0 <= c.0 < n && 0 <= c.1 < n }

  /** Every bit lies in the picture. */
  predicate LayoutOk(l: Layout) {
    Fitting(l) && forall i: nat :: i < |l.bits| ==> Inside(Cell(l, i), l.total)
  }

  /** The pixels that the border loop paints white in its first `n` rounds: one more on each side,
      around the square. */
  predicate OnBorder(l: Layout, x: int, y: int, n: int)
    requires Fitting(l)
  {
    || (y == Low(l) && Low(l) <= x < Low(l) + n)
    || (x == High(l) && Low(l) <= y < Low(l) + n)
    || (y == High(l) && Low(l) < x <= Low(l) + n)
    || (x == Low(l) && Low(l) < y <= Low(l) + n)
  }

  /** The bit drawn as number `i`; the highest comes first. */
  predicate BitAt(code: Word, nbits: nat, i: nat) { i < nbits <= 64 && code[nbits - 1 - i] }

  /** One of the first `n` bits is set and lies here. */
  predicate OnBit(l: Layout, code: Word, x: int, y: int, n: nat)
    requires Fitting(l) && n <= |l.bits|
  {
    exists i: nat :: i < n && Cell(l, i) == (x, y) && BitAt(code, |l.bits|, i)
  }

  predicate White(l: Layout, code: Word, x: int, y: int)
    requires Fitting(l)
  {
    OnBorder(l, x, y, WhiteWidth(l) - 1) || OnBit(l, code, x, y, |l.bits|)
  }

  /** The picture of a code. */
  function Draw(l: Layout, code: Word): (p: Picture)
    requires Fitting(l)
    ensures Square(p, l.total)
    ensures forall x, y :: 0 <= x < l.total && 0 <= y < l.total ==> p[y][x] == White(l, code, x, y)
  {
    seq(l.total, (y: nat) => seq(l.total, (x: nat) => White(l, code, x, y)))
  }

  /** The word whose bits are the colours of the cells. */
  function Read(l: Layout, p: Picture): (w: Word)
    requires LayoutOk(l) && Square(p, l.total)
    ensures Fits(w, |l.bits|)
  {
    seq(64, (i: nat) requires i < 64 => i < |l.bits| && p[Cell(l, |l.bits| - 1 - i).1][Cell(l, |l.bits| - 1 - i).0])
  }

  // ----- the program's loops -----

  /** `apriltag_to_image`: border first, then the bits. */
  method ToImage(f: Family, l: Layout, idx: nat) returns (im: array2<int>)
    requires FamilyOk(f) && idx < |f.codes| && LayoutOk(l) && |l.bits| == f.nbits
    ensures im.Length0 == im.Length1 == l.total
    ensures forall x, y :: 0 <= x < l.total && 0 <= y < l.total ==> im[y, x] == if Draw(l, f.codes[idx])[y][x] then 255 else 0
  {
    hide OnBorder, OnBit, Cell;
    im := new int[l.total, l.total]((y, x) => 0);
    PaintBorder(l, im);
    PaintBits(l, f.codes[idx], im);
  }

  method PaintBorder(l: Layout, im: array2<int>)
    requires Fitting(l) && im.Length0 == im.Length1 == l.total
    requires forall x, y :: 0 <= x < l.total && 0 <= y < l.total ==> im[y, x] == 0
    modifies im
    ensures forall x, y :: 0 <= x < l.total && 0 <= y < l.total ==> im[y, x] == if OnBorder(l, x, y, WhiteWidth(l) - 1) then 255 else 0
  {
    hide Cell, OnBit;
    var width := WhiteWidth(l);
    var low := (l.total - width) / 2;
    var i := 0;
    while i < width - 1
      invariant 0 <= i && i <= (if width == 0 then 0 else width - 1)
      invariant forall x, y :: 0 <= x < l.total && 0 <= y < l.total ==> im[y, x] == if OnBorder(l, x, y, i) then 255 else 0
    {
      im[low, low + i] := 255;
      im[low + i, l.total - 1 - low] := 255;
      im[l.total - 1 - low, low + i + 1] := 255;
      im[low + 1 + i, low] := 255;
      i := i + 1;
    }
  }

  method PaintBits(l: Layout, code: Word, im: array2<int>)
    requires LayoutOk(l) && im.Length0 == im.Length1 == l.total
    modifies im
    ensures forall x, y :: 0 <= x < l.total && 0 <= y < l.total ==>
              im[y, x] == if OnBit(l, code, x, y, |l.bits|) then 255 else old(im[y, x])
  {
    hide OnBit, OnBorder;
    var start := (l.total - l.border) / 2;
    assert forall x, y :: 0 <= x < l.total && 0 <= y < l.total ==> !OnBit(l, code, x, y, 0) by { NoBits(l, code); }
    for k := 0 to |l.bits|
      invariant forall x, y :: 0 <= x < l.total && 0 <= y < l.total ==> im[y, x] == if OnBit(l, code, x, y, k) then 255 else old(im[y, x])
    {
      assert Inside(Cell(l, k), l.total);
      OnBitStep(l, code, k);
      if code[|l.bits| - k - 1] {
        im[l.bits[k].1 + start, l.bits[k].0 + start] := 255;
      }
    }
  }

  lemma NoBits(l: Layout, code: Word)
    requires Fitting(l)
    ensures forall x, y :: !OnBit(l, code, x, y, 0)
  {
  }

  lemma OnBitStep(l: Layout, code: Word, k: nat)
    requires Fitting(l) && k < |l.bits|
    ensures forall x, y :: OnBit(l, code, x, y, k + 1) <==> OnBit(l, code, x, y, k) || (Cell(l, k) == (x, y) && BitAt(code, |l.bits|, k))
  {
    hide Cell, BitAt;
    forall x, y
      ensures OnBit(l, code, x, y, k + 1) <==> OnBit(l, code, x, y, k) || (Cell(l, k) == (x, y) && BitAt(code, |l.bits|, k))
    {
      if i: nat :| i < k + 1 && Cell(l, i) == (x, y) && BitAt(code, |l.bits|, i) {
        assert i < k || i == k;
      }
      if i: nat :| i < k && Cell(l, i) == (x, y) && BitAt(code, |l.bits|, i) {
        assert i < k + 1;
      }
    }
  }

  /** The bits are read in drawing order, each new one shifted in at the low end. */
  method ReadCode(l: Layout, p: Picture) returns (rcode: Word)
    requires LayoutOk(l) && Square(p, l.total)
    ensures rcode == Read(l, p)
  {
    rcode := Zero();
    for i := 0 to |l.bits|
      invariant forall j: nat :: j < 64 ==> rcode[j] == (j < i && CellWhite(l, p, i - 1 - j))
    {
      var c := Cell(l, i);
      assert Inside(c, l.total);
      var before := rcode;
      rcode := Shl(rcode, 1);
      if p[c.1][c.0] {
        rcode := Or(rcode, Single(0));
      }
      forall j: nat | j < 64 ensures rcode[j] == (j < i + 1 && CellWhite(l, p, i - j)) {
        assert j > 0 ==> rcode[j] == before[j - 1];
      }
    }
    var w := Read(l, p);
    assert forall j: nat :: j < 64 ==> rcode[j] == w[j];
  }

  function Zero(): Word { seq(64, _ => false) }

  predicate CellWhite(l: Layout, p: Picture, i: int) {
    LayoutOk(l) && Square(p, l.total) && 0 <= i < |l.bits| && p[Cell(l, i).1][Cell(l, i).0]
  }

  // ----- reading back what was drawn -----

  /** The bits lie in different places, off the border. */
  predicate BitsApart(l: Layout)
    requires Fitting(l)
  {
    && (forall i: nat, j: nat :: i < j < |l.bits| ==> Cell(l, i) != Cell(l, j))
    && (forall i: nat :: i < |l.bits| ==> !OnBorder(l, Cell(l, i).0, Cell(l, i).1, WhiteWidth(l) - 1))
  }

  lemma CellShowsBit(l: Layout, code: Word, i: nat)
    requires LayoutOk(l) && BitsApart(l) && i < |l.bits|
    ensures White(l, code, Cell(l, i).0, Cell(l, i).1) <==> BitAt(code, |l.bits|, i)
  {
    if k: nat :| k < |l.bits| && Cell(l, k) == (Cell(l, i).0, Cell(l, i).1) && BitAt(code, |l.bits|, k) {
      assert k == i;
    }
    if BitAt(code, |l.bits|, i) {
      assert OnBit(l, code, Cell(l, i).0, Cell(l, i).1, |l.bits|);
    }
  }

  lemma ReadsWhatIsDrawn(l: Layout, code: Word)
    requires LayoutOk(l) && BitsApart(l) && Fits(code, |l.bits|)
    ensures Read(l, Draw(l, code)) == code
  {
    var n, w := |l.bits|, Read(l, Draw(l, code));
    forall j: nat | j < 64 ensures w[j] == code[j] {
      if j < n {
        CellShowsBit(l, code, n - 1 - j);
        assert Inside(Cell(l, n - 1 - j), l.total);
      }
    }
  }

  /** Every code can be read back from its picture exactly when the bits lie apart. */
  lemma RoundTrip(l: Layout)
    requires LayoutOk(l)
    ensures BitsApart(l) <==> forall code: Word :: Fits(code, |l.bits|) ==> Read(l, Draw(l, code)) == code
  {
    var n := |l.bits|;
    if BitsApart(l) {
      forall code: Word | Fits(code, n) ensures Read(l, Draw(l, code)) == code {
        ReadsWhatIsDrawn(l, code);
      }
    } else if i: nat, j: nat :| i < j < n && Cell(l, i) == Cell(l, j) {
      var code := Single(n - 1 - i);
      assert BitAt(code, n, i) && Inside(Cell(l, j), l.total);
      assert OnBit(l, code, Cell(l, j).0, Cell(l, j).1, n);
      assert Read(l, Draw(l, code))[n - 1 - j] && !code[n - 1 - j];
      assert Fits(code, n);
    } else {
      var i: nat :| i < n && OnBorder(l, Cell(l, i).0, Cell(l, i).1, WhiteWidth(l) - 1);
      assert Inside(Cell(l, i), l.total);
      assert Read(l, Draw(l, Zero()))[n - 1 - i] && !Zero()[n - 1 - i];
      assert Fits(Zero(), n);
    }
  }

  // ----- quarter turns -----

  /** A quarter turn, clockwise, of a place in the picture. */
  function Clockwise(c: (int, int), n: nat): (int, int) { (n - 1 - c.1, c.0) }

  /** The picture turned to the left: each place shows what lay clockwise of it. */
  function TurnLeft(p: Picture, n: nat): (q: Picture)
    requires Square(p, n)
    ensures Square(q, n)
    ensures forall x, y :: 0 <= x < n && 0 <= y < n ==> q[y][x] == p[x][n - 1 - y]
  {
    seq(n, (y: nat) requires y < n => seq(n, (x: nat) requires x < n => p[x][n - 1 - y]))
  }

  function Spin(p: Picture, n: nat, k: nat): (q: Picture)
    requires Square(p, n)
    ensures Square(q, n)
  {
    if k == 0 then p else TurnLeft(Spin(p, n, k - 1), n)
  }

  /** The bit, in drawing order, that a turned word shows as number `i`. */
  function Shown(i: nat, nbits: nat): nat
    requires i < nbits && nbits % 4 <= 1
  {
    var s := Source(nbits - 1 - i, nbits);
    if s < nbits then nbits - 1 - s else 0
  }

  /** Drawn one quadrant at a time, the middle last if there is one, inside a border that closes. */
  predicate Symmetric(l: Layout) {
    && LayoutOk(l) && BitsApart(l) && |l.bits| % 4 <= 1
    && WhiteWidth(l) != 1 && (l.total - WhiteWidth(l)) % 2 == 0
    && forall i: nat :: i < |l.bits| ==> Shown(i, |l.bits|) < |l.bits| && Cell(l, Shown(i, |l.bits|)) == Clockwise(Cell(l, i), l.total)
  }

  /** Then the border is the outline of a square, which a quarter turn maps to itself; it lies one pixel
      outside the square that the bits are counted from, or on its rim in a reversed family. */
  lemma BorderTurns(l: Layout, x: int, y: int)
    requires Fitting(l) && WhiteWidth(l) != 1 && (l.total - WhiteWidth(l)) % 2 == 0
    ensures OnBorder(l, x, y, WhiteWidth(l) - 1)
            <==> Low(l) <= x <= High(l) && Low(l) <= y <= High(l) && (x == Low(l) || x == High(l) || y == Low(l) || y == High(l))
    ensures OnBorder(l, x, y, WhiteWidth(l) - 1) <==> OnBorder(l, l.total - 1 - y, x, WhiteWidth(l) - 1)
    ensures var start := (l.total - l.border) / 2;
            Low(l) == (if l.reversed then start else start - 1) && High(l) == l.total - 1 - Low(l)
  {
  }

  lemma BitTurns(code: Word, nbits: nat, i: nat)
    requires nbits < 64 && nbits % 4 <= 1 && i < nbits && Fits(code, nbits)
    ensures Shown(i, nbits) < nbits && (BitAt(Rotate90(code, nbits), nbits, i) <==> BitAt(code, nbits, Shown(i, nbits)))
  {
    RotateBit(code, nbits, nbits - 1 - i);
  }

  /** Every bit is shown by some bit of the turned word. */
  lemma ShownBy(j: nat, nbits: nat) returns (i: nat)
    requires j < nbits && nbits % 4 <= 1
    ensures i < nbits && Shown(i, nbits) == j
  {
    var a := nbits - 1 - j;
    i := nbits - 1 - Source(Source(Source(a, nbits), nbits), nbits);
    SourceTurns(a, nbits);
  }

  lemma WhiteTurns(l: Layout, code: Word, x: int, y: int)
    requires Symmetric(l) && Fits(code, |l.bits|)
    ensures White(l, Rotate90(code, |l.bits|), x, y) <==> White(l, code, l.total - 1 - y, x)
  {
    hide Rotate90, Source, Shown, OnBorder, BitAt;
    var n, turned := |l.bits|, Rotate90(code, |l.bits|);
    BorderTurns(l, x, y);
    if i: nat :| i < n && Cell(l, i) == (x, y) && BitAt(turned, n, i) {
      BitTurns(code, n, i);
      assert Cell(l, Shown(i, n)) == (l.total - 1 - y, x);
    }
    if j: nat :| j < n && Cell(l, j) == (l.total - 1 - y, x) && BitAt(code, n, j) {
      var i := ShownBy(j, n);
      BitTurns(code, n, i);
      assert Clockwise(Cell(l, i), l.total) == (l.total - 1 - y, x);
      assert Cell(l, i) == (x, y);
    }
  }

  /** Turning the code is turning the picture. */
  lemma TurnedCodeIsTurnedPicture(l: Layout, code: Word)
    requires Symmetric(l) && Fits(code, |l.bits|)
    ensures Draw(l, Rotate90(code, |l.bits|)) == TurnLeft(Draw(l, code), l.total)
  {
    hide Rotate90, White, BitsApart, Cell, Shown, Low;
    var p, q := Draw(l, Rotate90(code, |l.bits|)), TurnLeft(Draw(l, code), l.total);
    forall y: nat | y < l.total ensures p[y] == q[y] {
      forall x: nat | x < l.total ensures p[y][x] == q[y][x] {
        WhiteTurns(l, code, x, y);
      }
    }
  }

  lemma {:induction false} SpunPicture(l: Layout, code: Word, k: nat)
    requires Symmetric(l) && Fits(code, |l.bits|)
    ensures Fits(Turn(code, |l.bits|, k), |l.bits|)
    ensures Spin(Draw(l, code), l.total, k) == Draw(l, Turn(code, |l.bits|, k))
  {
    hide Rotate90, White, Fits;
    TurnFits(code, |l.bits|, k);
    if k > 0 {
      SpunPicture(l, code, k - 1);
      TurnedCodeIsTurnedPicture(l, Turn(code, |l.bits|, k - 1));
    }
  }

  /** A tag that is drawn, turned any number of times and read with at most `radius` cells wrong is
      decoded to its id, with the exact number of wrong cells and the rotation that undoes the
      turns. */
  lemma DrawnTagDecodes(f: Family, l: Layout, radius: int, id: nat, k: nat, seen: Picture)
    requires FamilyOk(f) && |l.bits| == f.nbits && Symmetric(l) && 0 <= radius <= 3 && Separated(f, radius)
    requires id < |f.codes| && k < 4 && Square(seen, l.total)
    requires Distance(Read(l, seen), Read(l, Spin(Draw(l, f.codes[id]), l.total, k))) <= radius
    ensures var wrong, e := Distance(Read(l, seen), Read(l, Spin(Draw(l, f.codes[id]), l.total, k))),
                            LinearDecode(Insertions(f, radius, |f.codes|), Read(l, seen), f.nbits);
            e.id == id && e.hamming == wrong && e.rotation == (4 - k) % 4
  {
    hide Diff, Rotate90, Insertions, LinearDecode, Read, Draw, Spin, Separated, White;
    var n, code, s, r := f.nbits, f.codes[id], (4 - k) % 4, Read(l, seen);
    assert Fits(code, n);
    SpunPicture(l, code, k);
    ReadsWhatIsDrawn(l, Turn(code, n, k));
    TurnAdds(code, n, k, s);
    TurnHasOrderFour(code, n);
    assert Turn(code, n, k + s) == code;
    TurnsKeepDistance(r, Turn(code, n, k), n, s);
    DecodesUniquely(f, radius, r, id, s);
  }
}
