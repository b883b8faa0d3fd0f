/** The family with sixteen bits: its layout, and an instance of decoding drawn tags with its first two
    codes. */
module SixteenBits {
  import opened Words
  import opened QuickDecode
  import opened ErrorCorrection
  import opened TagImage

  /** The layout of the family with sixteen bits. */
  function Tag16h5(): Layout {
    Layout(8, 6, false,
           [(1, 1), (2, 1), (3, 1), (2, 2), (4, 1), (4, 2), (4, 3), (3, 2),
            (4, 4), (3, 4), (2, 4), (3, 3), (1, 4), (1, 3), (1, 2), (2, 3)])
  }

  lemma Tag16h5Cell(i: nat)
    requires i < 16
    ensures Fitting(Tag16h5()) && Cell(Tag16h5(), i) == (Tag16h5().bits[i].0 + 1, Tag16h5().bits[i].1 + 1)
    ensures Inside(Cell(Tag16h5(), i), 8) && !OnBorder(Tag16h5(), Cell(Tag16h5(), i).0, Cell(Tag16h5(), i).1, 7)
    ensures Shown(i, 16) == (if i < 12 then i + 4 else i - 12)
    ensures Cell(Tag16h5(), Shown(i, 16)) == Clockwise(Cell(Tag16h5(), i), 8)
  {
  }

  lemma Tag16h5Apart(i: nat, j: nat)
    requires i < j < 16
    ensures Tag16h5().bits[i] != Tag16h5().bits[j]
  {
  }

  lemma Tag16h5Sizes()
    ensures var l := Tag16h5(); |l.bits| == 16 && l.total == 8 && WhiteWidth(l) == 8
  {
  }

  /** The quarters of its layout are turned copies of each other. */
  lemma Tag16h5IsSymmetric()
    ensures Symmetric(Tag16h5())
  {
    hide Tag16h5, Cell, Shown, OnBorder;
    var l := Tag16h5();
    Tag16h5Sizes();
    forall i: nat | i < 16
      ensures Inside(Cell(l, i), 8) && !OnBorder(l, Cell(l, i).0, Cell(l, i).1, 7)
      ensures Shown(i, 16) < 16 && Cell(l, Shown(i, 16)) == Clockwise(Cell(l, i), 8)
    {
      Tag16h5Cell(i);
    }
    forall i: nat, j: nat | i < j < 16 ensures Cell(l, i) != Cell(l, j) {
      Tag16h5Cell(i);
      Tag16h5Cell(j);
      Tag16h5Apart(i, j);
    }
  }

  /** Sixteen bits as a word. */
  function Sixteen(b: seq<bool>): (w: Word)
    requires |b| == 16
    ensures Fits(w, 16)
  {
    b + seq(48, _ => false)
  }

  /** A quarter turn of sixteen bits. */
  function Rolled(b: seq<bool>): (c: seq<bool>)
    requires |b| == 16
    ensures |c| == 16
  {
    b[12..] + b[..12]
  }

  lemma SixteenTurns(b: seq<bool>)
    requires |b| == 16
    ensures Rotate90(Sixteen(b), 16) == Sixteen(Rolled(b))
  {
    hide Rotate90;
    forall i: nat | i < 64 ensures Rotate90(Sixteen(b), 16)[i] == Sixteen(Rolled(b))[i] {
      RotateBit(Sixteen(b), 16, i);
    }
  }

  lemma {:induction false} DiffFrom(a: seq<bool>, b: seq<bool>, i: nat)
    requires i < |a| == |b| && a[i] != b[i]
    ensures Diff(a, b) >= 1 + Diff(a[i + 1..], b[i + 1..])
  {
    if i > 0 {
      DiffFrom(a[1..], b[1..], i - 1);
      assert a[1..][i..] == a[i + 1..] && b[1..][i..] == b[i + 1..];
    }
  }

  lemma FiveApart(a: seq<bool>, b: seq<bool>, i: nat, j: nat, k: nat, l: nat, m: nat)
    requires |a| == |b| == 16 && i < j < k < l < m < 16
    requires a[i] != b[i] && a[j] != b[j] && a[k] != b[k] && a[l] != b[l] && a[m] != b[m]
    ensures Distance(Sixteen(a), Sixteen(b)) >= 5
  {
    hide Diff;
    DiffAppend(a, b, seq(48, _ => false), seq(48, _ => false));
    Chop(a, b, 0, i);
    Chop(a, b, i + 1, j);
    Chop(a, b, j + 1, k);
    Chop(a, b, k + 1, l);
    Chop(a, b, l + 1, m);
    assert a[0..] == a && b[0..] == b;
  }

  lemma Chop(a: seq<bool>, b: seq<bool>, from: nat, i: nat)
    requires from <= i < |a| == |b| && a[i] != b[i]
    ensures Diff(a[from..], b[from..]) >= 1 + Diff(a[i + 1..], b[i + 1..])
  {
    hide Diff;
    DiffFrom(a[from..], b[from..], i - from);
    assert a[from..][i - from + 1..] == a[i + 1..] && b[from..][i - from + 1..] == b[i + 1..];
  }

  /** The first two codes of that family. */
  function Code(i: nat): (b: seq<bool>)
    ensures |b| == 16
  {
    if i == 0 then [false, false, false, true, false, false, true, true, true, true, true, false, false, true, false, false]
    else [false, true, true, false, true, true, false, true, true, false, false, false, true, true, false, false]
  }

  function RolledBy(b: seq<bool>, k: nat): (c: seq<bool>)
    requires |b| == 16
    ensures |c| == 16
  {
    if k == 0 then b else Rolled(RolledBy(b, k - 1))
  }

  lemma {:induction false} TurnIsRolled(b: seq<bool>, k: nat)
    requires |b| == 16
    ensures Turn(Sixteen(b), 16, k) == Sixteen(RolledBy(b, k))
  {
    hide Rotate90, Sixteen, Rolled;
    if k > 0 {
      TurnIsRolled(b, k - 1);
      SixteenTurns(RolledBy(b, k - 1));
    }
  }

  function Back(i: nat): (j: nat)
    requires i < 16
    ensures j < 16
  {
    if i >= 4 then i - 4 else i + 12
  }

  /** Where bit `i` was `k` turns before. */
  function Before(i: nat, k: nat): (j: nat)
    requires i < 16 && k < 4
    ensures j < 16
  {
    if k == 0 then i else if k == 1 then Back(i) else if k == 2 then Back(Back(i)) else Back(Back(Back(i)))
  }

  lemma RolledOnce(b: seq<bool>, k: nat, i: nat)
    requires |b| == 16 && i < 16
    ensures RolledBy(b, k + 1)[i] == RolledBy(b, k)[Back(i)]
  {
  }

  lemma RolledAt(b: seq<bool>, k: nat, i: nat)
    requires |b| == 16 && i < 16 && k < 4
    ensures RolledBy(b, k)[i] == b[Before(i, k)]
  {
    hide Rolled;
    assert RolledBy(b, 0) == b;
    if k >= 1 { RolledOnce(b, k - 1, i); }
    if k >= 2 { RolledOnce(b, k - 2, Back(i)); }
    if k >= 3 { RolledOnce(b, k - 3, Back(Back(i))); }
  }

  predicate Differ(a: nat, b: nat, k: nat, i: nat) { i < 16 && k < 4 && Code(a)[Before(i, k)] != Code(b)[i] }

  lemma TurnedApart(a: nat, b: nat, k: nat, i0: nat, i1: nat, i2: nat, i3: nat, i4: nat)
    requires k < 4 && i0 < i1 < i2 < i3 < i4 < 16
    requires Differ(a, b, k, i0) && Differ(a, b, k, i1) && Differ(a, b, k, i2) && Differ(a, b, k, i3) && Differ(a, b, k, i4)
    ensures Distance(Turn(Sixteen(Code(a)), 16, k), Sixteen(Code(b))) >= 5
  {
    hide Sixteen, Diff, Turn, RolledBy, Code, Before;
    TurnIsRolled(Code(a), k);
    RolledAt(Code(a), k, i0);
    RolledAt(Code(a), k, i1);
    RolledAt(Code(a), k, i2);
    RolledAt(Code(a), k, i3);
    RolledAt(Code(a), k, i4);
    FiveApart(RolledBy(Code(a), k), Code(b), i0, i1, i2, i3, i4);
  }

  lemma Apart001()
    ensures Distance(Turn(Sixteen(Code(0)), 16, 1), Sixteen(Code(0))) >= 5
  {
    hide Sixteen, Diff, Turn;
    TurnedApart(0, 0, 1, 1, 3, 6, 8, 9);
  }

  lemma Apart002()
    ensures Distance(Turn(Sixteen(Code(0)), 16, 2), Sixteen(Code(0))) >= 5
  {
    hide Sixteen, Diff, Turn;
    TurnedApart(0, 0, 2, 0, 1, 2, 3, 5);
  }

  lemma Apart003()
    ensures Distance(Turn(Sixteen(Code(0)), 16, 3), Sixteen(Code(0))) >= 5
  {
    hide Sixteen, Diff, Turn;
    TurnedApart(0, 0, 3, 2, 4, 5, 7, 8);
  }

  lemma Apart00(k: nat)
    requires 0 < k < 4
    ensures Distance(Turn(Sixteen(Code(0)), 16, k), Sixteen(Code(0))) >= 5
  {
    hide Sixteen, Diff, Turn, Code;
    if k == 1 { Apart001(); } else if k == 2 { Apart002(); } else { Apart003(); }
  }

  lemma Apart010()
    ensures Distance(Turn(Sixteen(Code(0)), 16, 0), Sixteen(Code(1))) >= 5
  {
    hide Sixteen, Diff, Turn;
    TurnedApart(0, 1, 0, 1, 2, 3, 4, 5);
  }

  lemma Apart011()
    ensures Distance(Turn(Sixteen(Code(0)), 16, 1), Sixteen(Code(1))) >= 5
  {
    hide Sixteen, Diff, Turn;
    TurnedApart(0, 1, 1, 2, 4, 5, 8, 10);
  }

  lemma Apart012()
    ensures Distance(Turn(Sixteen(Code(0)), 16, 2), Sixteen(Code(1))) >= 5
  {
    hide Sixteen, Diff, Turn;
    TurnedApart(0, 1, 2, 0, 4, 7, 8, 11);
  }

  lemma Apart013()
    ensures Distance(Turn(Sixteen(Code(0)), 16, 3), Sixteen(Code(1))) >= 5
  {
    hide Sixteen, Diff, Turn;
    TurnedApart(0, 1, 3, 1, 3, 6, 7, 8);
  }

  lemma Apart01(k: nat)
    requires k < 4
    ensures Distance(Turn(Sixteen(Code(0)), 16, k), Sixteen(Code(1))) >= 5
  {
    hide Sixteen, Diff, Turn, Code;
    if k == 0 { Apart010(); } else if k == 1 { Apart011(); } else if k == 2 { Apart012(); } else { Apart013(); }
  }

  lemma Apart100()
    ensures Distance(Turn(Sixteen(Code(1)), 16, 0), Sixteen(Code(0))) >= 5
  {
    hide Sixteen, Diff, Turn;
    TurnedApart(1, 0, 0, 1, 2, 3, 4, 5);
  }

  lemma Apart101()
    ensures Distance(Turn(Sixteen(Code(1)), 16, 1), Sixteen(Code(0))) >= 5
  {
    hide Sixteen, Diff, Turn;
    TurnedApart(1, 0, 1, 0, 1, 3, 5, 7);
  }

  lemma Apart102()
    ensures Distance(Turn(Sixteen(Code(1)), 16, 2), Sixteen(Code(0))) >= 5
  {
    hide Sixteen, Diff, Turn;
    TurnedApart(1, 0, 2, 0, 3, 4, 5, 6);
  }

  lemma Apart103()
    ensures Distance(Turn(Sixteen(Code(1)), 16, 3), Sixteen(Code(0))) >= 5
  {
    hide Sixteen, Diff, Turn;
    TurnedApart(1, 0, 3, 0, 1, 4, 6, 7);
  }

  lemma Apart10(k: nat)
    requires k < 4
    ensures Distance(Turn(Sixteen(Code(1)), 16, k), Sixteen(Code(0))) >= 5
  {
    hide Sixteen, Diff, Turn, Code;
    if k == 0 { Apart100(); } else if k == 1 { Apart101(); } else if k == 2 { Apart102(); } else { Apart103(); }
  }

  lemma Apart111()
    ensures Distance(Turn(Sixteen(Code(1)), 16, 1), Sixteen(Code(1))) >= 5
  {
    hide Sixteen, Diff, Turn;
    TurnedApart(1, 1, 1, 0, 2, 4, 6, 7);
  }

  lemma Apart112()
    ensures Distance(Turn(Sixteen(Code(1)), 16, 2), Sixteen(Code(1))) >= 5
  {
    hide Sixteen, Diff, Turn;
    TurnedApart(1, 1, 2, 0, 1, 2, 7, 8);
  }

  lemma Apart113()
    ensures Distance(Turn(Sixteen(Code(1)), 16, 3), Sixteen(Code(1))) >= 5
  {
    hide Sixteen, Diff, Turn;
    TurnedApart(1, 1, 3, 0, 2, 3, 5, 7);
  }

  lemma Apart11(k: nat)
    requires 0 < k < 4
    ensures Distance(Turn(Sixteen(Code(1)), 16, k), Sixteen(Code(1))) >= 5
  {
    hide Sixteen, Diff, Turn, Code;
    if k == 1 { Apart111(); } else if k == 2 { Apart112(); } else { Apart113(); }
  }
  function TwoTags(): Family { Family([Sixteen(Code(0)), Sixteen(Code(1))], 16) }

  /** They are five apart in all their rotations, so that two errors can be corrected. */
  lemma TwoTagsAreSeparated()
    ensures FamilyOk(TwoTags()) && Separated(TwoTags(), 2)
  {
    hide Sixteen, Diff, Turn, Code;
    forall a: nat, b: nat, k: nat | a < 2 && b < 2 && k < 4 && (a != b || k != 0)
      ensures Distance(Turn(Sixteen(Code(a)), 16, k), Sixteen(Code(b))) >= 5
    {
      if a == 0 { if b == 0 { Apart00(k); } else { Apart01(k); } } else { if b == 0 { Apart10(k); } else { Apart11(k); } }
    }
    assert TwoTags().codes[0] == Sixteen(Code(0)) && TwoTags().codes[1] == Sixteen(Code(1));
  }

  /** Either of the two, drawn, turned and read with at most two cells wrong, is recognised. */
  lemma TwoTagsDecode(id: nat, k: nat, seen: Picture)
    requires id < 2 && k < 4 && Square(seen, 8)
    requires LayoutOk(Tag16h5()) && Distance(Read(Tag16h5(), seen), Read(Tag16h5(), Spin(Draw(Tag16h5(), Sixteen(Code(id))), 8, k))) <= 2
    ensures var e := LinearDecode(Insertions(TwoTags(), 2, 2), Read(Tag16h5(), seen), 16);
            e.id == id && e.hamming <= 2 && e.rotation == (4 - k) % 4
  {
    hide Sixteen, Diff, Turn, Draw, Read, Spin, Insertions, LinearDecode, Symmetric, Separated, Distance;
    TwoTagsAreSeparated();
    Tag16h5IsSymmetric();
    Tag16h5Sizes();
    DrawnTagDecodes(TwoTags(), Tag16h5(), 2, id, k, seen);
  }
}
