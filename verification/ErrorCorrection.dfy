/** What the decode table is good for: if the codes of a family are far enough apart, a code read
    with few errors, in any rotation, is decoded to itself. */
module ErrorCorrection {
  import opened Words
  import opened QuickDecode

  // ----- flipping bits and distance -----

  lemma {:induction false} DiffUpdate(a: seq<bool>, b: seq<bool>, j: nat)
    requires |a| == |b| && j < |a|
    ensures Diff(a[j := !a[j]], b) == if a[j] == b[j] then Diff(a, b) + 1 else Diff(a, b) - 1
    ensures a[j] != b[j] ==> Diff(a, b) >= 1
  {
    if j == 0 {
      assert a[j := !a[j]][1..] == a[1..];
    } else {
      assert a[j := !a[j]][1..] == a[1..][j - 1 := !a[j]];
      DiffUpdate(a[1..], b[1..], j - 1);
    }
  }

  lemma FlipDistance(w: Word, c: Word, j: nat)
    requires j < 64
    ensures Distance(Flip(w, j), c) == if w[j] == c[j] then Distance(w, c) + 1 else Distance(w, c) - 1
    ensures w[j] != c[j] ==> Distance(w, c) >= 1
  {
    DiffUpdate(w, c, j);
  }

  /** The two words agree from bit `n` on. */
  predicate AgreeFrom(a: Word, b: Word, n: nat) { forall i :: n <= i < 64 ==> a[i] == b[i] }

  lemma SameFromZero(q: Word, c: Word)
    requires AgreeFrom(q, c, 0)
    ensures q == c
  {
  }

  /** Two different words have a highest place where they differ. */
  lemma {:induction false} HighestDiff(q: Word, c: Word, n: nat) returns (j: nat)
    requires AgreeFrom(q, c, n) && n <= 64 && Distance(q, c) > 0
    ensures j < n && q[j] != c[j] && AgreeFrom(q, c, j + 1)
    ensures Distance(q, Flip(c, j)) == Distance(q, c) - 1 && AgreeFrom(q, Flip(c, j), j)
    decreases n
  {
    hide Diff;
    DiffZero(q, c);
    if n == 0 {
      SameFromZero(q, c);
      assert false;
    } else if q[n - 1] != c[n - 1] {
      j := n - 1;
      FlipDistance(c, q, j);
      DiffZero(q, Flip(c, j));
    } else {
      j := HighestDiff(q, c, n - 1);
    }
  }

  // ----- everything within the radius is in the table, and nothing else -----

  lemma {:induction false} OnesAre(code: Word, id: nat, n: nat, i: nat)
    requires n <= 64 && i < |Ones(code, id, n)|
    ensures var e := Ones(code, id, n)[i]; e.id == id && e.hamming == 1 == Distance(e.rcode, code) && e.rotation == 0
  {
    hide Diff, Flip;
    if i < |Ones(code, id, n - 1)| {
      OnesAre(code, id, n - 1, i);
    } else {
      DiffZero(code, code);
      FlipDistance(code, code, n - 1);
    }
  }

  lemma TwoFlips(code: Word, j: nat, k: nat)
    requires k < j < 64
    ensures Distance(Flip(Flip(code, j), k), code) == 2
  {
    DiffZero(code, code);
    FlipDistance(code, code, j);
    FlipDistance(Flip(code, j), code, k);
    hide Diff;
  }

  lemma ThreeFlips(code: Word, j: nat, k: nat, m: nat)
    requires m < k < j < 64
    ensures Distance(Flip(Flip(Flip(code, j), k), m), code) == 3
  {
    TwoFlips(code, j, k);
    FlipDistance(Flip(Flip(code, j), k), code, m);
    hide Diff;
  }

  lemma {:induction false} TwosRowAre(code: Word, id: nat, j: nat, n: nat, i: nat)
    requires n <= j < 64 && i < |TwosRow(code, id, j, n)|
    ensures var e := TwosRow(code, id, j, n)[i]; e.id == id && e.hamming == 2 == Distance(e.rcode, code) && e.rotation == 0
  {
    hide Diff, Flip;
    if i < |TwosRow(code, id, j, n - 1)| {
      TwosRowAre(code, id, j, n - 1, i);
    } else {
      TwoFlips(code, j, n - 1);
    }
  }

  lemma {:induction false} TwosAre(code: Word, id: nat, n: nat, i: nat)
    requires n <= 64 && i < |Twos(code, id, n)|
    ensures var e := Twos(code, id, n)[i]; e.id == id && e.hamming == 2 == Distance(e.rcode, code) && e.rotation == 0
  {
    hide Diff, Flip;
    var before := |Twos(code, id, n - 1)|;
    if i < before {
      TwosAre(code, id, n - 1, i);
    } else {
      TwosRowAre(code, id, n - 1, n - 1, i - before);
    }
  }

  lemma {:induction false} ThreesCellAre(code: Word, id: nat, j: nat, k: nat, n: nat, i: nat)
    requires n <= k < j < 64 && i < |ThreesCell(code, id, j, k, n)|
    ensures var e := ThreesCell(code, id, j, k, n)[i]; e.id == id && e.hamming == 3 == Distance(e.rcode, code) && e.rotation == 0
  {
    hide Diff, Flip;
    if i < |ThreesCell(code, id, j, k, n - 1)| {
      ThreesCellAre(code, id, j, k, n - 1, i);
    } else {
      ThreeFlips(code, j, k, n - 1);
    }
  }

  lemma {:induction false} ThreesRowAre(code: Word, id: nat, j: nat, n: nat, i: nat)
    requires n <= j < 64 && i < |ThreesRow(code, id, j, n)|
    ensures var e := ThreesRow(code, id, j, n)[i]; e.id == id && e.hamming == 3 == Distance(e.rcode, code) && e.rotation == 0
  {
    hide Diff, Flip;
    var before := |ThreesRow(code, id, j, n - 1)|;
    if i < before {
      ThreesRowAre(code, id, j, n - 1, i);
    } else {
      ThreesCellAre(code, id, j, n - 1, n - 1, i - before);
    }
  }

  lemma {:induction false} ThreesAre(code: Word, id: nat, n: nat, i: nat)
    requires n <= 64 && i < |Threes(code, id, n)|
    ensures var e := Threes(code, id, n)[i]; e.id == id && e.hamming == 3 == Distance(e.rcode, code) && e.rotation == 0
  {
    hide Diff, Flip;
    var before := |Threes(code, id, n - 1)|;
    if i < before {
      ThreesAre(code, id, n - 1, i);
    } else {
      ThreesRowAre(code, id, n - 1, n - 1, i - before);
    }
  }

  /** An entry tells which code it is for and how far it is from it. */
  predicate TellsTruth(e: Entry, code: Word, id: nat, radius: int) {
    e.id == id && e.hamming == Distance(e.rcode, code) && e.rotation == 0 && (e.hamming == 0 || e.hamming <= radius) && e.hamming <= 3
  }

  lemma PatternsAre(code: Word, id: nat, nbits: nat, radius: int, i: nat)
    requires nbits <= 64 && i < |Patterns(code, id, nbits, radius)|
    ensures TellsTruth(Patterns(code, id, nbits, radius)[i], code, id, radius)
  {
    hide Diff, Ones, Twos, Threes;
    DiffZero(code, code);
    var a := 1;
    var b := a + if radius >= 1 then |Ones(code, id, nbits)| else 0;
    var c := b + if radius >= 2 then |Twos(code, id, nbits)| else 0;
    if a <= i < b { OnesAre(code, id, nbits, i - a); }
    if b <= i < c { TwosAre(code, id, nbits, i - b); }
    if c <= i { ThreesAre(code, id, nbits, i - c); }
  }

  lemma {:induction false} InsertionsAre(f: Family, radius: int, n: nat, i: nat)
    requires n <= |f.codes| && f.nbits <= 64 && i < |Insertions(f, radius, n)|
    ensures var e := Insertions(f, radius, n)[i]; e.id < n && TellsTruth(e, f.codes[e.id], e.id, radius)
  {
    hide Patterns, TellsTruth;
    var before := |Insertions(f, radius, n - 1)|;
    if i < before {
      InsertionsAre(f, radius, n - 1, i);
    } else {
      PatternsAre(f.codes[n - 1], n - 1, f.nbits, radius, i - before);
      TruthHasId(Insertions(f, radius, n)[i], f.codes[n - 1], n - 1, radius);
    }
  }

  lemma TruthHasId(e: Entry, code: Word, id: nat, radius: int)
    requires TellsTruth(e, code, id, radius)
    ensures e.id == id
  {
  }

  lemma {:induction false} OnesHave(code: Word, id: nat, n: nat, j: nat)
    requires j < n <= 64
    ensures Entry(Flip(code, j), id, 1, 0) in Ones(code, id, n)
  {
    if j < n - 1 { OnesHave(code, id, n - 1, j); }
  }

  lemma {:induction false} TwosRowHas(code: Word, id: nat, j: nat, n: nat, k: nat)
    requires k < n <= j < 64
    ensures Entry(Flip(Flip(code, j), k), id, 2, 0) in TwosRow(code, id, j, n)
  {
    if k < n - 1 { TwosRowHas(code, id, j, n - 1, k); }
  }

  lemma {:induction false} TwosHave(code: Word, id: nat, n: nat, j: nat, k: nat)
    requires k < j < n <= 64
    ensures Entry(Flip(Flip(code, j), k), id, 2, 0) in Twos(code, id, n)
  {
    if j < n - 1 { TwosHave(code, id, n - 1, j, k); } else { TwosRowHas(code, id, j, j, k); }
  }

  lemma {:induction false} ThreesCellHas(code: Word, id: nat, j: nat, k: nat, n: nat, m: nat)
    requires m < n <= k < j < 64
    ensures Entry(Flip(Flip(Flip(code, j), k), m), id, 3, 0) in ThreesCell(code, id, j, k, n)
  {
    if m < n - 1 { ThreesCellHas(code, id, j, k, n - 1, m); }
  }

  lemma {:induction false} ThreesRowHas(code: Word, id: nat, j: nat, n: nat, k: nat, m: nat)
    requires m < k < n <= j < 64
    ensures Entry(Flip(Flip(Flip(code, j), k), m), id, 3, 0) in ThreesRow(code, id, j, n)
  {
    if k < n - 1 { ThreesRowHas(code, id, j, n - 1, k, m); } else { ThreesCellHas(code, id, j, k, k, m); }
  }

  lemma {:induction false} ThreesHave(code: Word, id: nat, n: nat, j: nat, k: nat, m: nat)
    requires m < k < j < n <= 64
    ensures Entry(Flip(Flip(Flip(code, j), k), m), id, 3, 0) in Threes(code, id, n)
  {
    if j < n - 1 { ThreesHave(code, id, n - 1, j, k, m); } else { ThreesRowHas(code, id, j, j, k, m); }
  }

  lemma SameWord(q: Word, c: Word)
    requires Distance(q, c) == 0
    ensures q == c
  {
    DiffZero(q, c);
  }

  /** Every word within the radius is among the patterns of the code. */
  lemma PatternsHave(code: Word, id: nat, nbits: nat, radius: int, q: Word)
    requires nbits <= 64 && AgreeFrom(q, code, nbits) && Distance(q, code) <= 3 && (Distance(q, code) == 0 || Distance(q, code) <= radius)
    ensures Entry(q, id, Distance(q, code), 0) in Patterns(code, id, nbits, radius)
  {
    hide Diff, Flip, Ones, Twos, Threes, AgreeFrom;
    var h := Distance(q, code);
    if h == 0 {
      SameWord(q, code);
    } else {
      var j := HighestDiff(q, code, nbits);
      var c1 := Flip(code, j);
      if h == 1 {
        SameWord(q, c1);
        OnesHave(code, id, nbits, j);
      } else {
        var k := HighestDiff(q, c1, j);
        var c2 := Flip(c1, k);
        if h == 2 {
          SameWord(q, c2);
          TwosHave(code, id, nbits, j, k);
        } else {
          var m := HighestDiff(q, c2, k);
          SameWord(q, Flip(c2, m));
          ThreesHave(code, id, nbits, j, k, m);
        }
      }
    }
  }

  lemma {:induction false} InsertionsHave(f: Family, radius: int, n: nat, id: nat, q: Word)
    requires FamilyOk(f) && id < n <= |f.codes| && Fits(q, f.nbits)
    requires Distance(q, f.codes[id]) <= 3 && (Distance(q, f.codes[id]) == 0 || Distance(q, f.codes[id]) <= radius)
    ensures Entry(q, id, Distance(q, f.codes[id]), 0) in Insertions(f, radius, n)
  {
    hide Diff, Patterns;
    if id < n - 1 {
      InsertionsHave(f, radius, n - 1, id, q);
    } else {
      assert Fits(f.codes[id], f.nbits);
      PatternsHave(f.codes[id], id, f.nbits, radius, q);
    }
  }

  /** A word is in the table exactly when it is within the radius of some code. */
  lemma TableIsTheBalls(f: Family, radius: int, q: Word)
    requires FamilyOk(f) && 0 <= radius <= 3 && Fits(q, f.nbits)
    ensures FirstIndex(Insertions(f, radius, |f.codes|), q) < |Insertions(f, radius, |f.codes|)|
            <==> exists id :: 0 <= id < |f.codes| && Distance(q, f.codes[id]) <= radius
  {
    hide Diff, Insertions, Fits;
    var all := Insertions(f, radius, |f.codes|);
    FirstIndexIs(all, q);
    var i := FirstIndex(all, q);
    if i < |all| {
      InsertionsAre(f, radius, |f.codes|, i);
      assert Distance(q, f.codes[all[i].id]) <= radius;
    }
    if id :| 0 <= id < |f.codes| && Distance(q, f.codes[id]) <= radius {
      InsertionsHave(f, radius, |f.codes|, id, q);
    }
  }

  // ----- decoding -----

  /** No code is near a rotation of another one, nor near a real rotation of itself. */
  ghost predicate Separated(f: Family, radius: int)
    requires FamilyOk(f)
  {
    forall a: nat, b: nat, k: nat :: a < |f.codes| && b < |f.codes| && k < 4 && (a != b || k != 0) ==>
      Distance(Turn(f.codes[a], f.nbits, k), f.codes[b]) >= 2 * radius + 1
  }

  lemma {:induction false} TurnAdds(w: Word, nbits: nat, k: nat, m: nat)
    requires nbits < 64
    ensures Turn(Turn(w, nbits, k), nbits, m) == Turn(w, nbits, k + m)
  {
    hide Rotate90;
    if m > 0 { TurnAdds(w, nbits, k, m - 1); }
  }

  lemma Triangle(a: Word, b: Word, c: Word)
    ensures Distance(a, c) <= Distance(a, b) + Distance(b, c)
    ensures Distance(a, b) == Distance(b, a)
  {
    DiffTriangle(a, b, c);
    DiffZero(a, b);
  }

  lemma FarApart(f: Family, radius: int, a: nat, b: nat, k: nat)
    requires FamilyOk(f) && Separated(f, radius) && a < |f.codes| && b < |f.codes| && k < 4 && (a != b || k != 0)
    ensures Distance(Turn(f.codes[a], f.nbits, k), f.codes[b]) >= 2 * radius + 1
    ensures Turn(f.codes[a], f.nbits, 0) == f.codes[a]
  {
  }

  /** No rotation before the undoing one is near any code. */
  lemma NoEarlierMatch(f: Family, radius: int, r: Word, id: nat, s: nat, k: nat)
    requires FamilyOk(f) && f.nbits % 4 <= 1 && 0 <= radius <= 3 && Separated(f, radius) && Fits(r, f.nbits)
    requires id < |f.codes| && k < s < 4 && Distance(Turn(r, f.nbits, s), f.codes[id]) <= radius
    ensures FirstIndex(Insertions(f, radius, |f.codes|), Turn(r, f.nbits, k)) == |Insertions(f, radius, |f.codes|)|
  {
    hide Diff, Rotate90, Insertions, Fits, Turn;
    var all, q := Insertions(f, radius, |f.codes|), Turn(r, f.nbits, k);
    TurnFits(r, f.nbits, k);
    FirstIndexIs(all, q);
    TableIsTheBalls(f, radius, q);
    if FirstIndex(all, q) < |all| {
      var b :| 0 <= b < |f.codes| && Distance(q, f.codes[b]) <= radius;
      FamilyFits(f, b);
      FarApart(f, radius, b, id, s - k);
      TurnAdds(r, f.nbits, k, s - k);
      TurnsKeepDistance(f.codes[b], q, f.nbits, s - k);
      Triangle(q, f.codes[b], q);
      Triangle(Turn(f.codes[b], f.nbits, s - k), Turn(r, f.nbits, s), f.codes[id]);
      assert false;
    }
  }

  lemma FamilyFits(f: Family, b: nat)
    requires FamilyOk(f) && b < |f.codes|
    ensures Fits(f.codes[b], f.nbits)
  {
  }

  /** At the undoing rotation the first match is the right code, with the right error count. */
  lemma RightMatch(f: Family, radius: int, q: Word, id: nat)
    requires FamilyOk(f) && 0 <= radius <= 3 && Separated(f, radius) && Fits(q, f.nbits)
    requires id < |f.codes| && Distance(q, f.codes[id]) <= radius
    ensures var all := Insertions(f, radius, |f.codes|);
            FirstIndex(all, q) < |all| && all[FirstIndex(all, q)] == Entry(q, id, Distance(q, f.codes[id]), 0)
  {
    hide Diff, Rotate90, Insertions, Fits;
    var all := Insertions(f, radius, |f.codes|);
    FirstIndexIs(all, q);
    TableIsTheBalls(f, radius, q);
    var i := FirstIndex(all, q);
    InsertionsAre(f, radius, |f.codes|, i);
    var b := all[i].id;
    if b != id {
      FarApart(f, radius, b, id, 0);
      Triangle(f.codes[b], q, f.codes[id]);
      assert false;
    }
  }

  lemma {:induction false} SearchFrom(f: Family, radius: int, r: Word, id: nat, s: nat, k: nat)
    requires FamilyOk(f) && f.nbits % 4 <= 1 && 0 <= radius <= 3 && Separated(f, radius) && Fits(r, f.nbits)
    requires id < |f.codes| && k <= s < 4 && Distance(Turn(r, f.nbits, s), f.codes[id]) <= radius
    ensures LinearFrom(Insertions(f, radius, |f.codes|), Turn(r, f.nbits, k), f.nbits, k)
            == Entry(Turn(r, f.nbits, s), id, Distance(Turn(r, f.nbits, s), f.codes[id]), s)
    decreases s - k
  {
    hide Diff, Rotate90, Insertions, Fits, FirstIndex;
    if k == s {
      TurnFits(r, f.nbits, s);
      RightMatch(f, radius, Turn(r, f.nbits, s), id);
    } else {
      NoEarlierMatch(f, radius, r, id, s, k);
      SearchFrom(f, radius, r, id, s, k + 1);
    }
  }

  /** A code that was read with at most `radius` errors and in any rotation is decoded to that
      code, with its exact number of errors and the rotation that undoes the one it was read in. */
  lemma DecodesUniquely(f: Family, radius: int, r: Word, id: nat, s: nat)
    requires FamilyOk(f) && f.nbits % 4 <= 1 && 0 <= radius <= 3 && Separated(f, radius) && Fits(r, f.nbits)
    requires id < |f.codes| && s < 4 && Distance(Turn(r, f.nbits, s), f.codes[id]) <= radius
    ensures LinearDecode(Insertions(f, radius, |f.codes|), r, f.nbits)
            == Entry(Turn(r, f.nbits, s), id, Distance(Turn(r, f.nbits, s), f.codes[id]), s)
  {
    hide Diff, Rotate90, Insertions, Fits, LinearFrom;
    SearchFrom(f, radius, r, id, s, 0);
    assert Turn(r, f.nbits, 0) == r;
  }

  /** Some code is within the radius of the word. */
  predicate NearSome(f: Family, radius: int, q: Word) {
    exists id :: 0 <= id < |f.codes| && Distance(q, f.codes[id]) <= radius
  }

  /** What a search that has come to the word `w`, after `k` turns, comes back with. */
  predicate FindsFrom(f: Family, radius: int, w: Word, k: nat, e: Entry)
    requires f.nbits < 64
  {
    if e == NotFound() then forall m: nat :: k + m < 4 ==> !NearSome(f, radius, Turn(w, f.nbits, m))
    else
      && k <= e.rotation < 4 && e.rcode == Turn(w, f.nbits, e.rotation - k)
      && e.id < |f.codes| && e.hamming == Distance(e.rcode, f.codes[e.id]) <= radius
      && forall m: nat :: k + m < e.rotation ==> !NearSome(f, radius, Turn(w, f.nbits, m))
  }

  lemma FoundHere(f: Family, radius: int, w: Word, k: nat)
    requires FamilyOk(f) && 0 <= radius <= 3 && Fits(w, f.nbits) && k < 4 && NearSome(f, radius, w)
    ensures FindsFrom(f, radius, w, k, LinearFrom(Insertions(f, radius, |f.codes|), w, f.nbits, k))
  {
    hide Diff, Insertions, Fits, Rotate90;
    var all := Insertions(f, radius, |f.codes|);
    FirstIndexIs(all, w);
    TableIsTheBalls(f, radius, w);
    InsertionsAre(f, radius, |f.codes|, FirstIndex(all, w));
    assert Turn(w, f.nbits, 0) == w;
  }

  lemma {:induction false} SearchFinds(f: Family, radius: int, w: Word, k: nat)
    requires FamilyOk(f) && 0 <= radius <= 3 && Fits(w, f.nbits) && k <= 4
    ensures FindsFrom(f, radius, w, k, LinearFrom(Insertions(f, radius, |f.codes|), w, f.nbits, k))
    decreases 4 - k
  {
    hide Diff, Insertions, Fits, Rotate90, NearSome, FirstIndex;
    if k < 4 && NearSome(f, radius, w) {
      FoundHere(f, radius, w, k);
    } else if k < 4 {
      var all, next := Insertions(f, radius, |f.codes|), Rotate90(w, f.nbits);
      assert FirstIndex(all, w) == |all| by { NotNear(f, radius, w); }
      RotateFits(w, f.nbits);
      SearchFinds(f, radius, next, k + 1);
      assert Turn(w, f.nbits, 0) == w;
      forall m: nat ensures Turn(next, f.nbits, m) == Turn(w, f.nbits, m + 1) {
        assert Turn(w, f.nbits, 1) == Rotate90(Turn(w, f.nbits, 0), f.nbits);
        TurnAdds(w, f.nbits, 1, m);
      }
      var e := LinearFrom(all, w, f.nbits, k);
      assert e == LinearFrom(all, next, f.nbits, k + 1);
      forall m: nat | k + m < (if e == NotFound() then 4 else e.rotation) ensures !NearSome(f, radius, Turn(w, f.nbits, m)) {
        if m > 0 {
          var m' := m - 1;
          assert Turn(next, f.nbits, m') == Turn(w, f.nbits, m' + 1);
        }
      }
    }
  }

  lemma NotNear(f: Family, radius: int, w: Word)
    requires FamilyOk(f) && 0 <= radius <= 3 && Fits(w, f.nbits) && !NearSome(f, radius, w)
    ensures FirstIndex(Insertions(f, radius, |f.codes|), w) == |Insertions(f, radius, |f.codes|)|
  {
    hide Diff, Insertions, Fits;
    TableIsTheBalls(f, radius, w);
    FirstIndexIs(Insertions(f, radius, |f.codes|), w);
  }

  /** Decoding fails exactly when no rotation of the word is within the radius of any code.
      Otherwise it stops at the first rotation that is, with a code within the radius of it and
      their exact distance; the codes of the family may be as close together as they like. */
  lemma FailsExactlyWhenFar(f: Family, radius: int, r: Word)
    requires FamilyOk(f) && 0 <= radius <= 3 && Fits(r, f.nbits)
    ensures var e := LinearDecode(Insertions(f, radius, |f.codes|), r, f.nbits);
            && (e.hamming == 255 <==> forall k: nat :: k < 4 ==> !NearSome(f, radius, Turn(r, f.nbits, k)))
            && (e.hamming != 255 ==>
                  && e.rotation < 4 && e.rcode == Turn(r, f.nbits, e.rotation)
                  && e.id < |f.codes| && e.hamming == Distance(e.rcode, f.codes[e.id]) <= radius
                  && forall k: nat :: k < e.rotation ==> !NearSome(f, radius, Turn(r, f.nbits, k)))
  {
    hide Diff, Insertions, Fits, Rotate90, LinearFrom, Turn;
    SearchFinds(f, radius, r, 0);
    var e := LinearDecode(Insertions(f, radius, |f.codes|), r, f.nbits);
    if e == NotFound() {
      forall k: nat | k < 4 ensures !NearSome(f, radius, Turn(r, f.nbits, k)) {
        assert 0 + k < 4;
      }
    } else {
      assert NearSome(f, radius, Turn(r, f.nbits, e.rotation));
    }
  }
}
