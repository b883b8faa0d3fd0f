/** Left-looking LU factorisation with row exchanges, over exact reals. */
module Plu {
  import opened Matrices
  import opened Permutations

  /** Pivots below this size mark the matrix as singular. */
  const EPS: real := 0.00000001

  /** The part of a product of lower and upper triangle that comes from the first `n` columns. */
  function Dot(m: Mat, i: nat, j: nat, n: nat): real {
    if n == 0 then 0.0 else Dot(m, i, j, n - 1) + At(m, i, n - 1) * At(m, n - 1, j)
  }

  function Min(a: nat, b: nat): nat { if a < b then a else b }

  /** Entry `(i, j)` of L times U, where both are stored in `m` and the diagonal of L is one. */
  function Factored(m: Mat, i: nat, j: nat): real {
    if i <= j then Dot(m, i, j, i) + At(m, i, j) else Dot(m, i, j, j + 1)
  }

  /** What column `j` is worth before its pivot divides the entries below the diagonal. */
  function Pending(m: Mat, i: nat, j: nat): real { Dot(m, i, j, Min(i, j)) + At(m, i, j) }

  lemma {:induction false} DotSame(m: Mat, m': Mat, i: nat, j: nat, i': nat, n: nat)
    requires forall k: nat :: k < n ==> At(m, i, k) == At(m', i', k) && At(m, k, j) == At(m', k, j)
    ensures Dot(m, i, j, n) == Dot(m', i', j, n)
  {
    if n > 0 { DotSame(m, m', i, j, i', n - 1); }
  }

  // ----- one column at a time -----

  /** Columns before `j` are factored; the others are as in the matrix, with rows exchanged. */
  ghost predicate FactoredUpTo(a: Mat, m: Mat, piv: seq<nat>, j: nat) {
    && Dim(m, |m|, |m|) && Dim(a, |m|, |m|) && |piv| == |m| && IsPerm(piv) && j <= |m|
    && (forall i: nat, c: nat :: i < |m| && c < j ==> Factored(m, i, c) == a[piv[i]][c])
    && (forall i: nat, c: nat :: i < |m| && j <= c < |m| ==> m[i][c] == a[piv[i]][c])
  }

  /** Column `j` is reduced by the earlier ones but not yet divided by its pivot. */
  ghost predicate Reduced(a: Mat, m: Mat, piv: seq<nat>, j: nat) {
    && Dim(m, |m|, |m|) && Dim(a, |m|, |m|) && |piv| == |m| && IsPerm(piv) && j < |m|
    && (forall i: nat, c: nat :: i < |m| && c < j ==> Factored(m, i, c) == a[piv[i]][c])
    && (forall i: nat :: i < |m| ==> Pending(m, i, j) == a[piv[i]][j])
    && (forall i: nat, c: nat :: i < |m| && j < c < |m| ==> m[i][c] == a[piv[i]][c])
  }

  /** Nothing below the diagonal is bigger than one in the first `j` columns. */
  ghost predicate LowerIsSmall(m: Mat, j: nat) {
    forall i: nat, c: nat :: c < i < |m| && c < j ==> Abs(At(m, i, c)) <= 1.0
  }

  /** The flag tells whether one of the first `j` pivots is too small. */
  ghost predicate FlagOk(m: Mat, j: nat, singular: bool) {
    singular <==> exists c: nat :: c < j && Abs(At(m, c, c)) < EPS
  }

  /** Where two matrices agree, but for column `j`. */
  ghost predicate AgreeBut(m: Mat, m': Mat, j: nat) {
    && |m'| == |m| && Dim(m, |m|, |m|) && Dim(m', |m|, |m|)
    && forall i: nat, c: nat :: i < |m| && c < |m| && c != j ==> m'[i][c] == m[i][c]
  }

  lemma FactoredSame(m: Mat, m': Mat, i: nat, i': nat, c: nat)
    requires (i <= c <==> i' <= c) && (i <= c ==> i == i')
    requires forall k: nat :: k <= c ==> At(m, i, k) == At(m', i', k)
    requires forall k: nat :: k <= c && k < i ==> At(m, k, c) == At(m', k, c)
    ensures Factored(m, i, c) == Factored(m', i', c)
  {
    DotSame(m, m', i, c, i', if i <= c then i else c + 1);
  }

  lemma ReducedAfter(a: Mat, m: Mat, m': Mat, piv: seq<nat>, j: nat)
    requires FactoredUpTo(a, m, piv, j) && j < |m| && AgreeBut(m, m', j)
    requires forall i: nat :: i < |m| ==> Pending(m', i, j) == m[i][j]
    ensures Reduced(a, m', piv, j)
  {
    forall i: nat, c: nat | i < |m| && c < j ensures Factored(m', i, c) == a[piv[i]][c] {
      FactoredSame(m, m', i, i, c);
    }
  }

  lemma ReducedSwapped(a: Mat, m: Mat, piv: seq<nat>, j: nat, p: nat)
    requires Reduced(a, m, piv, j) && j <= p < |m|
    ensures Reduced(a, Swap(m, j, p), Swap(piv, j, p), j)
  {
    hide Dot, Factored;
    var m', piv' := Swap(m, j, p), Swap(piv, j, p);
    SwapKeepsPerm(piv, j, p);
    hide IsPerm;
    forall i: nat | i < |m| ensures Pending(m', i, j) == a[piv'[i]][j] {
      var i0 := if i == j then p else if i == p then j else i;
      DotSame(m, m', i0, j, i, Min(i, j));
      assert Pending(m, i0, j) == a[piv[i0]][j];
    }
    forall i: nat, c: nat | i < |m| && c < j ensures Factored(m', i, c) == a[piv'[i]][c] {
      var i0 := if i == j then p else if i == p then j else i;
      FactoredSame(m, m', i0, i, c);
      assert Factored(m, i0, c) == a[piv[i0]][c];
    }
    forall i: nat, c: nat | i < |m| && j < c < |m| ensures m'[i][c] == a[piv'[i]][c] {
      var i0 := if i == j then p else if i == p then j else i;
      assert m[i0][c] == a[piv[i0]][c];
    }
  }

  /** Dividing the entries below the diagonal by the pivot completes the column; if the pivot is
      zero they all are, being no bigger. */
  lemma FactoredAfter(a: Mat, m: Mat, m': Mat, piv: seq<nat>, j: nat)
    requires Reduced(a, m, piv, j) && AgreeBut(m, m', j)
    requires forall i: nat :: i <= j ==> m'[i][j] == m[i][j]
    requires forall i: nat :: j < i < |m| ==> Divided(m'[i][j], m[i][j], m[j][j])
    ensures FactoredUpTo(a, m', piv, j + 1)
  {
    forall i: nat, c: nat | i < |m| && c < j + 1 ensures Factored(m', i, c) == a[piv[i]][c] {
      if c < j {
        FactoredSame(m, m', i, i, c);
      } else {
        DotSame(m, m', i, j, i, Min(i, j));
        assert Pending(m, i, j) == a[piv[i]][j];
      }
    }
  }

  // ----- the steps on the array -----

  lemma DotStays(m: Mat, m': Mat, r: nat, j: nat, i: nat)
    requires AgreeBut(m, m', j) && r <= i < |m| && j < |m|
    requires forall k: nat :: k < |m| && k != i ==> m'[k][j] == m[k][j]
    ensures Dot(m', r, j, Min(r, j)) == Dot(m, r, j, Min(r, j))
  {
    DotSame(m, m', r, j, r, Min(r, j));
  }

  /** The product of row `i` and column `j`, up to element `kmax`. */
  method Accumulate(lu: array2<real>, i: nat, j: nat, kmax: nat) returns (acc: real)
    requires i < lu.Length0 == lu.Length1 && j < lu.Length0 && kmax <= lu.Length0
    ensures acc == Dot(Val(lu), i, j, kmax)
  {
    acc := 0.0;
    for k := 0 to kmax
      invariant acc == Dot(Val(lu), i, j, k)
    {
      acc := acc + lu[i, k] * lu[k, j];
    }
  }

  /** After row `i` is reduced its entry is pending, and those above still are. */
  lemma RowReduced(m: Mat, before: Mat, after: Mat, i: nat, j: nat)
    requires AgreeBut(before, after, j) && i < |m| == |before| && j < |m| && Dim(m, |m|, |m|)
    requires forall k: nat :: k < |m| && k != i ==> after[k][j] == before[k][j]
    requires before[i][j] == m[i][j] && after[i][j] == before[i][j] - Dot(before, i, j, Min(i, j))
    requires forall r: nat :: r < i ==> Pending(before, r, j) == m[r][j]
    ensures forall r: nat :: r <= i ==> Pending(after, r, j) == m[r][j]
  {
    hide Dot;
    forall r: nat | r <= i ensures Pending(after, r, j) == m[r][j] {
      DotStays(before, after, r, j, i);
      assert r < i ==> Pending(before, r, j) == m[r][j];
    }
  }

  /** Subtracts from every entry of column `j` what the earlier columns account for, top down. */
  method ReduceColumn(lu: array2<real>, j: nat)
    requires lu.Length0 == lu.Length1 && j < lu.Length0
    modifies lu
    ensures AgreeBut(old(Val(lu)), Val(lu), j)
    ensures forall i: nat :: i < lu.Length0 ==> Pending(Val(lu), i, j) == old(Val(lu))[i][j]
  {
    hide Dot, Pending;
    var n := lu.Length0;
    ghost var m := Val(lu);
    for i := 0 to n
      invariant AgreeBut(m, Val(lu), j)
      invariant forall r: nat :: i <= r < n ==> Val(lu)[r][j] == m[r][j]
      invariant forall r: nat :: r < i ==> Pending(Val(lu), r, j) == m[r][j]
    {
      var kmax := if i < j then i else j;
      var acc := Accumulate(lu, i, j, kmax);
      ghost var before := Val(lu);
      lu[i, j] := lu[i, j] - acc;
      RowReduced(m, before, Val(lu), i, j);
    }
  }

  /** The first row, from the diagonal down, with the biggest entry in column `j`. */
  method FindPivot(lu: array2<real>, j: nat) returns (p: nat)
    requires lu.Length0 == lu.Length1 && j < lu.Length0
    ensures j <= p < lu.Length0
    ensures forall i: nat :: j <= i < lu.Length0 ==> Abs(lu[i, j]) <= Abs(lu[p, j])
    ensures forall i: nat :: j <= i < p ==> Abs(lu[i, j]) < Abs(lu[p, j])
  {
    p := j;
    for i := j + 1 to lu.Length0
      invariant j <= p < i
      invariant forall r: nat :: j <= r < i ==> Abs(lu[r, j]) <= Abs(lu[p, j])
      invariant forall r: nat :: j <= r < p ==> Abs(lu[r, j]) < Abs(lu[p, j])
    {
      if Abs(lu[i, j]) > Abs(lu[p, j]) {
        p := i;
      }
    }
  }

  /** Exchanges two rows, entry by entry. */
  method SwapRows(lu: array2<real>, j: nat, p: nat)
    requires lu.Length0 == lu.Length1 && j < lu.Length0 && p < lu.Length0
    modifies lu
    ensures Val(lu) == Swap(old(Val(lu)), j, p)
  {
    ghost var m := Val(lu);
    for c := 0 to lu.Length1
      invariant forall i: nat, k: nat :: i < lu.Length0 && k < lu.Length1 ==>
        Val(lu)[i][k] == if k < c then Swap(m, j, p)[i][k] else m[i][k]
    {
      lu[p, c], lu[j, c] := lu[j, c], lu[p, c];
    }
    SameMat(Val(lu), Swap(m, j, p), lu.Length0, lu.Length1);
  }

  lemma BiggerProduct(y: real, p: real)
    requires p != 0.0 && Abs(y) > 1.0
    ensures Abs(y * p) > Abs(p)
  {
    var a, b := Abs(y), Abs(p);
    assert (a - 1.0) * b > 0.0;
    assert a * b == y * p || a * b == -(y * p);
  }

  /** What dividing by the pivot makes of an entry that is no bigger; a zero pivot leaves it alone. */
  ghost predicate Divided(y: real, x: real, pivot: real) { y * pivot == x && Abs(y) <= 1.0 && (pivot == 0.0 ==> y == x) }

  lemma DividedEntry(x: real, pivot: real, inverse: real, y: real)
    requires pivot != 0.0 && Abs(x) <= Abs(pivot) && inverse * pivot == 1.0 && y == x * inverse
    ensures Divided(y, x, pivot)
  {
    assert y * pivot == x * (inverse * pivot) by { ThreeFactors(x, inverse, pivot); }
    if Abs(y) > 1.0 {
      BiggerProduct(y, pivot);
    }
  }

  lemma InverseTimes(pivot: real, inverse: real)
    requires pivot != 0.0 && inverse == 1.0 / pivot
    ensures inverse * pivot == 1.0
  {
  }

  lemma ZeroDivided()
    ensures Divided(0.0, 0.0, 0.0)
  {
  }

  /** Divides the entries below the diagonal of column `j` by the pivot, if it is not zero. */
  method ScaleColumn(lu: array2<real>, j: nat)
    requires lu.Length0 == lu.Length1 && j < lu.Length0
    requires forall i: nat :: j <= i < lu.Length0 ==> Abs(lu[i, j]) <= Abs(lu[j, j])
    modifies lu
    ensures AgreeBut(old(Val(lu)), Val(lu), j)
    ensures forall i: nat :: i <= j ==> Val(lu)[i][j] == old(Val(lu))[i][j]
    ensures forall i: nat :: j < i < lu.Length0 ==> Divided(Val(lu)[i][j], old(Val(lu))[i][j], Val(lu)[j][j])
  {
    hide Divided;
    ghost var m := Val(lu);
    var pivot := lu[j, j];
    if pivot != 0.0 {
      var inverse := 1.0 / pivot;
      InverseTimes(pivot, inverse);
      for i := j + 1 to lu.Length0
        invariant AgreeBut(m, Val(lu), j)
        invariant forall r: nat :: r < lu.Length0 && (r <= j || i <= r) ==> Val(lu)[r][j] == m[r][j]
        invariant forall r: nat :: j < r < i ==> Divided(Val(lu)[r][j], m[r][j], pivot)
      {
        ghost var x := lu[i, j];
        lu[i, j] := lu[i, j] * inverse;
        DividedEntry(x, pivot, inverse, lu[i, j]);
      }
    } else {
      ZeroDivided();
    }
  }

  // ----- the factorisation -----

  datatype Fact = Fact(m: Mat, piv: seq<nat>, pivsign: int, singular: bool)

  /** The first row, from the diagonal down, with the biggest entry in column `j`. */
  ghost predicate FirstBiggest(m: Mat, j: nat, p: nat) {
    && j <= p < |m|
    && (forall i: nat :: j <= i < |m| ==> Abs(At(m, i, j)) <= Abs(At(m, p, j)))
    && (forall i: nat :: j <= i < p ==> Abs(At(m, i, j)) < Abs(At(m, p, j)))
  }

  /** Column `j` of `m` is what was left of that of `before`, whatever the other columns are. */
  ghost predicate ColumnReduced(before: Mat, m: Mat, j: nat) {
    AgreeBut(before, m, j) && forall i: nat :: i < |m| ==> Pending(m, i, j) == At(before, i, j)
  }

  ghost predicate ColumnDivided(before: Mat, m: Mat, j: nat) {
    && AgreeBut(before, m, j)
    && forall i: nat :: i < |m| ==> if i <= j then At(m, i, j) == At(before, i, j) else Divided(At(m, i, j), At(before, i, j), At(before, j, j))
  }

  /** One round of the loop, with the column it reduced and the pivot row it chose. */
  ghost predicate RoundBy(x: Fact, y: Fact, j: nat, reduced: Mat, p: nat) {
    && j < |x.m| == |x.piv| && ColumnReduced(x.m, reduced, j) && FirstBiggest(reduced, j, p)
    && ColumnDivided(Swap(reduced, j, p), y.m, j)
    && y.piv == Swap(x.piv, j, p)
    && y.pivsign == (if p == j then x.pivsign else -x.pivsign)
    && y.singular == (x.singular || Abs(At(y.m, j, j)) < EPS)
  }

  ghost predicate Round(x: Fact, y: Fact, j: nat) {
    exists reduced: Mat, p: nat :: RoundBy(x, y, j, reduced, p)
  }

  /** What the first `n` rounds make of a matrix. */
  ghost predicate Rounds(a: Mat, f: Fact, n: nat)
    decreases n
  {
    if n == 0 then f == Fact(a, Range(|a|), 1, false)
    else var k: nat := n - 1; exists before: Fact :: Rounds(a, before, k) && Round(before, f, k)
  }

  lemma {:induction false} ReducedUnique(before: Mat, m: Mat, m': Mat, j: nat, n: nat)
    requires ColumnReduced(before, m, j) && ColumnReduced(before, m', j) && j < |before| && n <= |before|
    ensures forall i: nat :: i < n ==> m[i][j] == m'[i][j]
  {
    if n > 0 {
      ReducedUnique(before, m, m', j, n - 1);
      var i := n - 1;
      DotSame(m, m', i, j, i, Min(i, j));
      assert Pending(m, i, j) == Pending(m', i, j);
    }
  }

  lemma DividedUnique(y: real, y': real, x: real, pivot: real)
    requires Divided(y, x, pivot) && Divided(y', x, pivot)
    ensures y == y'
  {
    if pivot != 0.0 {
      assert (y - y') * pivot == 0.0;
    }
  }

  lemma PivotUnique(m: Mat, j: nat, p: nat, p': nat)
    requires FirstBiggest(m, j, p) && FirstBiggest(m, j, p')
    ensures p == p'
  {
    hide Abs, At;
    assert p < p' ==> Abs(At(m, p, j)) < Abs(At(m, p', j)) && Abs(At(m, p', j)) <= Abs(At(m, p, j));
    assert p' < p ==> Abs(At(m, p', j)) < Abs(At(m, p, j)) && Abs(At(m, p, j)) <= Abs(At(m, p', j));
  }

  /** A round is determined by what it starts from. */
  lemma RoundUnique(x: Fact, y: Fact, y': Fact, j: nat)
    requires Round(x, y, j) && Round(x, y', j)
    ensures y == y'
  {
    hide Divided, Pending;
    var reduced: Mat, p: nat :| RoundBy(x, y, j, reduced, p);
    var reduced': Mat, p': nat :| RoundBy(x, y', j, reduced', p');
    ReducedUnique(x.m, reduced, reduced', j, |x.m|);
    SameMat(reduced, reduced', |x.m|, |x.m|);
    PivotUnique(reduced, j, p, p');
    DividedSame(Swap(reduced, j, p), y.m, y'.m, j);
  }

  lemma DividedSame(before: Mat, m: Mat, m': Mat, j: nat)
    requires ColumnDivided(before, m, j) && ColumnDivided(before, m', j) && j < |before|
    ensures m == m'
  {
    hide Divided;
    forall i: nat | i < |m| ensures m[i][j] == m'[i][j] {
      assert At(m, i, j) == m[i][j] && At(m', i, j) == m'[i][j];
      if i > j { DividedUnique(m[i][j], m'[i][j], At(before, i, j), At(before, j, j)); }
    }
    SameMat(m, m', |before|, |before|);
  }

  lemma {:induction false} RoundsUnique(a: Mat, f: Fact, f': Fact, n: nat)
    requires Rounds(a, f, n) && Rounds(a, f', n)
    ensures f == f'
    decreases n
  {
    hide Round;
    if n > 0 {
      var k: nat := n - 1;
      var x: Fact :| Rounds(a, x, k) && Round(x, f, k);
      var x': Fact :| Rounds(a, x', k) && Round(x', f', k);
      RoundsUnique(a, x, x', k);
      RoundUnique(x, f, f', k);
    }
  }

  /** What the factorisation promises: it is the outcome of the rounds, with the first of the biggest
      entries as pivot in each; the stored triangles multiply to the matrix with its rows in the
      order of `piv`, whose sign is `pivsign`; no multiplier is bigger than one; and the flag tells
      whether some pivot is too small. */
  ghost predicate Factorises(a: Mat, m: Mat, piv: seq<nat>, pivsign: int, singular: bool) {
    && Rounds(a, Fact(m, piv, pivsign, singular), |a|)
    && FactoredUpTo(a, m, piv, |m|) && |m| == |a|
    && LowerIsSmall(m, |m|) && FlagOk(m, |m|, singular)
    && pivsign == Sign(piv)
  }

  /** A matrix has one factorisation, ties between pivots included. */
  lemma FactorisationIsUnique(a: Mat, m: Mat, piv: seq<nat>, sign: int, singular: bool, m': Mat, piv': seq<nat>, sign': int, singular': bool)
    requires Factorises(a, m, piv, sign, singular) && Factorises(a, m', piv', sign', singular')
    ensures m == m' && piv == piv' && sign == sign' && singular == singular'
  {
    hide FactoredUpTo, LowerIsSmall, FlagOk, Sign, Rounds;
    RoundsUnique(a, Fact(m, piv, sign, singular), Fact(m', piv', sign', singular'), |a|);
  }

  /** What one round of the loop keeps, beside the factored columns. */
  ghost predicate SidesOk(m: Mat, piv: seq<nat>, pivsign: int, singular: bool, j: nat) {
    LowerIsSmall(m, j) && FlagOk(m, j, singular) && pivsign == Sign(piv)
  }

  lemma SidesSwapped(m: Mat, piv: seq<nat>, pivsign: int, singular: bool, j: nat, p: nat)
    requires SidesOk(m, piv, pivsign, singular, j) && j < p < |m| == |piv| && Dim(m, |m|, |m|) && IsPerm(piv)
    ensures SidesOk(Swap(m, j, p), Swap(piv, j, p), -pivsign, singular, j)
  {
    SwapFlips(piv, j, p);
    hide Sign;
    var m' := Swap(m, j, p);
    forall i: nat, c: nat | c < i < |m'| && c < j ensures Abs(At(m', i, c)) <= 1.0 {
      assert Abs(At(m, if i == j then p else if i == p then j else i, c)) <= 1.0;
    }
    forall c: nat | c < j ensures At(m', c, c) == At(m, c, c) {
    }
  }

  lemma SidesReduced(m: Mat, m': Mat, piv: seq<nat>, pivsign: int, singular: bool, j: nat)
    requires SidesOk(m, piv, pivsign, singular, j) && AgreeBut(m, m', j) && j < |m|
    ensures SidesOk(m', piv, pivsign, singular, j)
  {
    hide Sign;
    forall i: nat, c: nat | c < i < |m'| && c < j ensures Abs(At(m', i, c)) <= 1.0 {
      assert Abs(At(m, i, c)) <= 1.0;
    }
    forall c: nat | c < j ensures At(m', c, c) == At(m, c, c) {
    }
  }

  lemma SidesScaled(m: Mat, m': Mat, piv: seq<nat>, pivsign: int, singular: bool, j: nat)
    requires SidesOk(m, piv, pivsign, singular, j) && AgreeBut(m, m', j) && j < |m| && m'[j][j] == m[j][j]
    requires forall i: nat :: j < i < |m| ==> Divided(m'[i][j], m[i][j], m[j][j])
    ensures SidesOk(m', piv, pivsign, singular || Abs(m[j][j]) < EPS, j + 1)
  {
    hide Sign;
    SidesReduced(m, m', piv, pivsign, singular, j);
    forall i: nat, c: nat | c < i < |m'| && c < j + 1 ensures Abs(At(m', i, c)) <= 1.0 {
      if c == j { assert Divided(m'[i][j], m[i][j], m[j][j]); }
    }
    var flag := singular || Abs(m[j][j]) < EPS;
    if flag {
      var c: nat :| c < j + 1 && Abs(At(m', c, c)) < EPS;
    }
  }

  method Copy(a: array2<real>) returns (c: array2<real>)
    ensures fresh(c) && c.Length0 == a.Length0 && c.Length1 == a.Length1 && Val(c) == Val(a)
  {
    c := new real[a.Length0, a.Length1];
    for i := 0 to a.Length0
      invariant forall r: nat, k: nat :: r < i && k < a.Length1 ==> c[r, k] == a[r, k]
    {
      for j := 0 to a.Length1
        invariant forall r: nat, k: nat :: r < i && k < a.Length1 ==> c[r, k] == a[r, k]
        invariant forall k: nat :: k < j ==> c[i, k] == a[i, k]
      {
        c[i, j] := a[i, j];
      }
    }
    SameMat(Val(c), Val(a), a.Length0, a.Length1);
  }

  lemma Start(a: Mat, piv: seq<nat>)
    requires Dim(a, |a|, |a|) && piv == Range(|a|)
    ensures FactoredUpTo(a, a, piv, 0) && SidesOk(a, piv, 1, false, 0)
  {
    SortedIsEven(piv);
  }

  lemma ReducedIsSquare(a: Mat, m: Mat, piv: seq<nat>, j: nat)
    requires Reduced(a, m, piv, j)
    ensures Dim(m, |m|, |m|) && |piv| == |m| && IsPerm(piv)
  {
  }

  method SwapEntries(piv: array<nat>, j: nat, p: nat)
    requires j < piv.Length && p < piv.Length
    modifies piv
    ensures piv[..] == Swap(old(piv[..]), j, p)
  {
    var k := piv[p];
    piv[p] := piv[j];
    piv[j] := k;
  }

  /** One round: reduces column `j`, brings its biggest entry to the diagonal and divides. */
  method FactorColumn(ghost a: Mat, lu: array2<real>, piv: array<nat>, j: nat, sign: int, flag: bool)
    returns (pivsign: int, singular: bool)
    requires lu.Length0 == lu.Length1 == piv.Length && j < piv.Length
    requires FactoredUpTo(a, Val(lu), piv[..], j) && SidesOk(Val(lu), piv[..], sign, flag, j)
    modifies lu, piv
    ensures FactoredUpTo(a, Val(lu), piv[..], j + 1) && SidesOk(Val(lu), piv[..], pivsign, singular, j + 1)
    ensures Round(Fact(old(Val(lu)), old(piv[..]), sign, flag), Fact(Val(lu), piv[..], pivsign, singular), j)
  {
    hide FactoredUpTo, Reduced, SidesOk, AgreeBut, Divided, IsPerm, Pending, Swap, Val, FirstBiggest, ColumnReduced, ColumnDivided, RoundBy, Round;
    pivsign := sign;
    ghost var m0, piv0 := Val(lu), piv[..];
    ReduceColumn(lu, j);
    ghost var m1 := Val(lu);
    ReducedAfter(a, m0, m1, piv[..], j);
    SidesReduced(m0, m1, piv[..], sign, flag, j);
    ReducedIs(m0, m1, j);
    var p := FindPivot(lu, j);
    PivotIs(lu, j, p);
    if p != j {
      SwapRows(lu, j, p);
      SwapEntries(piv, j, p);
      ReducedSwapped(a, m1, piv0, j, p);
      ReducedIsSquare(a, m1, piv0, j);
      SidesSwapped(m1, piv0, sign, flag, j, p);
      SwapMoves(m1, j, p);
      pivsign := -pivsign;
    } else {
      SwapNothing(m1, j);
      SwapNothing(piv0, j);
    }
    ghost var m2 := Val(lu);
    singular := flag || Abs(lu[j, j]) < EPS;
    ScaleColumn(lu, j);
    FactoredAfter(a, m2, Val(lu), piv[..], j);
    SidesScaled(m2, Val(lu), piv[..], pivsign, flag, j);
    DividedIs(m2, Val(lu), j);
    RoundMade(Fact(m0, piv0, sign, flag), Fact(Val(lu), piv[..], pivsign, singular), j, m1, p);
  }

  lemma ReducedIs(m0: Mat, m1: Mat, j: nat)
    requires AgreeBut(m0, m1, j) && j < |m0|
    requires forall i: nat :: i < |m1| ==> Pending(m1, i, j) == m0[i][j]
    ensures ColumnReduced(m0, m1, j)
  {
    hide Pending;
  }

  lemma PivotIs(lu: array2<real>, j: nat, p: nat)
    requires j < lu.Length0 == lu.Length1 && j <= p < lu.Length0
    requires forall i: nat :: j <= i < lu.Length0 ==> Abs(lu[i, j]) <= Abs(lu[p, j])
    requires forall i: nat :: j <= i < p ==> Abs(lu[i, j]) < Abs(lu[p, j])
    ensures FirstBiggest(Val(lu), j, p)
  {
  }

  lemma SwapNothing<T>(s: seq<T>, i: nat)
    requires i < |s|
    ensures Swap(s, i, i) == s
  {
  }

  lemma DividedIs(m: Mat, m': Mat, j: nat)
    requires AgreeBut(m, m', j) && j < |m| && m'[j][j] == m[j][j]
    requires forall i: nat :: i <= j ==> m'[i][j] == m[i][j]
    requires forall i: nat :: j < i < |m| ==> Divided(m'[i][j], m[i][j], m[j][j])
    ensures ColumnDivided(m, m', j)
  {
    hide Divided;
  }

  lemma RoundMade(x: Fact, y: Fact, j: nat, reduced: Mat, p: nat)
    requires j < |x.m| == |x.piv| && ColumnReduced(x.m, reduced, j) && FirstBiggest(reduced, j, p)
    requires ColumnDivided(Swap(reduced, j, p), y.m, j) && y.piv == Swap(x.piv, j, p)
    requires y.pivsign == (if p == j then x.pivsign else -x.pivsign) && y.singular == (x.singular || Abs(At(y.m, j, j)) < EPS)
    ensures Round(x, y, j)
  {
    hide ColumnReduced, FirstBiggest, ColumnDivided;
    assert RoundBy(x, y, j, reduced, p);
  }

  lemma SwapMoves<T>(s: seq<T>, i: nat, j: nat)
    requires i < |s| && j < |s|
    ensures |Swap(s, i, j)| == |s|
    ensures forall k :: 0 <= k < |s| ==> Swap(s, i, j)[k] == if k == j then s[i] else if k == i then s[j] else s[k]
  {
  }

  /** Factorises a square matrix, singular ones included. */
  method Factor(a: array2<real>) returns (lu: array2<real>, piv: array<nat>, pivsign: int, singular: bool)
    requires a.Length0 == a.Length1
    ensures lu.Length0 == lu.Length1 == piv.Length == a.Length0
    ensures Factorises(Val(a), Val(lu), piv[..], pivsign, singular)
  {
    hide FactoredUpTo, SidesOk, Val, Rounds, Round;
    var n := a.Length0;
    piv := new nat[n];
    pivsign := 1;
    singular := false;
    lu := Copy(a);
    for i := 0 to n
      invariant forall k: nat :: k < i ==> piv[k] == k
      invariant Val(lu) == Val(a)
    {
      piv[i] := i;
    }
    assert piv[..] == Range(n);
    Start(Val(a), piv[..]);
    NoRounds(Val(a));
    for j := 0 to n
      invariant FactoredUpTo(Val(a), Val(lu), piv[..], j)
      invariant SidesOk(Val(lu), piv[..], pivsign, singular, j)
      invariant Rounds(Val(a), Fact(Val(lu), piv[..], pivsign, singular), j)
    {
      ghost var before := Fact(Val(lu), piv[..], pivsign, singular);
      pivsign, singular := FactorColumn(Val(a), lu, piv, j, pivsign, singular);
      OneMoreRound(Val(a), before, Fact(Val(lu), piv[..], pivsign, singular), j);
    }
    SidesAre(Val(lu), piv[..], pivsign, singular, n);
  }

  lemma NoRounds(a: Mat)
    ensures Rounds(a, Fact(a, Range(|a|), 1, false), 0)
  {
  }

  lemma OneMoreRound(a: Mat, x: Fact, y: Fact, j: nat)
    requires Rounds(a, x, j) && Round(x, y, j)
    ensures Rounds(a, y, j + 1)
  {
    hide Round;
  }

  lemma SidesAre(m: Mat, piv: seq<nat>, pivsign: int, singular: bool, j: nat)
    requires SidesOk(m, piv, pivsign, singular, j)
    ensures LowerIsSmall(m, j) && FlagOk(m, j, singular) && pivsign == Sign(piv)
  {
  }

  // ----- the three factors -----

  /** The lower triangle, with ones on the diagonal. */
  function LowerOf(m: Mat): (l: Mat)
    ensures Dim(l, |m|, |m|)
    ensures forall i: nat, j: nat :: i < |m| && j < |m| ==> l[i][j] == if j < i then At(m, i, j) else if i == j then 1.0 else 0.0
  {
    seq(|m|, (i: nat) => seq(|m|, (j: nat) => if j < i then At(m, i, j) else if i == j then 1.0 else 0.0))
  }

  /** The upper triangle. */
  function UpperOf(m: Mat): (u: Mat)
    ensures Dim(u, |m|, |m|)
    ensures forall i: nat, j: nat :: i < |m| && j < |m| ==> u[i][j] == if i <= j then At(m, i, j) else 0.0
  {
    seq(|m|, (i: nat) => seq(|m|, (j: nat) => if i <= j then At(m, i, j) else 0.0))
  }

  /** The permutation matrix: column `i` has its one in row `piv[i]`. */
  function PermOf(piv: seq<nat>): (p: Mat)
    ensures Dim(p, |piv|, |piv|)
    ensures forall r: nat, i: nat :: r < |piv| && i < |piv| ==> p[r][i] == if piv[i] == r then 1.0 else 0.0
  {
    seq(|piv|, (r: nat) => seq(|piv|, (i: nat) requires i < |piv| => if piv[i] == r then 1.0 else 0.0))
  }

  method Zeros(rows: nat, cols: nat) returns (m: array2<real>)
    ensures fresh(m) && m.Length0 == rows && m.Length1 == cols
    ensures forall i: nat, j: nat :: i < rows && j < cols ==> m[i, j] == 0.0
  {
    m := new real[rows, cols]((_, _) => 0.0);
  }

  method Permutation(lu: array2<real>, piv: array<nat>) returns (p: array2<real>)
    requires lu.Length0 == lu.Length1 == piv.Length && IsPerm(piv[..])
    ensures p.Length0 == p.Length1 == piv.Length && Val(p) == PermOf(piv[..])
  {
    var n := lu.Length0;
    p := Zeros(n, n);
    for i := 0 to n
      invariant forall r: nat, c: nat :: r < n && c < n ==> p[r, c] == if c < i && piv[c] == r then 1.0 else 0.0
    {
      assert piv[i] == piv[..][i];
      p[piv[i], i] := 1.0;
    }
    SameMat(Val(p), PermOf(piv[..]), n, n);
  }

  method Lower(lu: array2<real>) returns (l: array2<real>)
    requires lu.Length0 == lu.Length1
    ensures l.Length0 == l.Length1 == lu.Length0 && Val(l) == LowerOf(Val(lu))
  {
    var n := lu.Length0;
    l := Zeros(n, n);
    for i := 0 to n
      invariant forall r: nat, c: nat :: r < n && c < n ==>
        l[r, c] == if r < i then (if c < r then lu[r, c] else if r == c then 1.0 else 0.0) else 0.0
    {
      l[i, i] := 1.0;
      for j := 0 to i
        invariant forall r: nat, c: nat :: r < n && c < n ==>
          l[r, c] == if r < i || (r == i && (c < j || c == i)) then (if c < r then lu[r, c] else if r == c then 1.0 else 0.0) else 0.0
      {
        l[i, j] := lu[i, j];
      }
    }
    SameMat(Val(l), LowerOf(Val(lu)), n, n);
  }

  method Upper(lu: array2<real>) returns (u: array2<real>)
    requires lu.Length0 == lu.Length1
    ensures u.Length0 == u.Length1 == lu.Length0 && Val(u) == UpperOf(Val(lu))
  {
    var n := lu.Length1;
    u := Zeros(n, n);
    for i := 0 to n
      invariant forall r: nat, c: nat :: r < n && c < n ==> u[r, c] == if r < i && r <= c then lu[r, c] else 0.0
    {
      for j := 0 to n
        invariant forall r: nat, c: nat :: r < n && c < n ==>
          u[r, c] == if (r < i || (r == i && c < j)) && r <= c then lu[r, c] else 0.0
      {
        if i <= j {
          u[i, j] := lu[i, j];
        }
      }
    }
    SameMat(Val(u), UpperOf(Val(lu)), n, n);
  }

  /** The first `n` terms of an entry of L times U. */
  lemma {:induction false} TrianglesUpTo(m: Mat, i: nat, j: nat, n: nat)
    requires Dim(m, |m|, |m|) && i < |m| && j < |m| && n <= |m|
    ensures Sum(Terms(LowerOf(m), UpperOf(m), i, j), n) ==
            if i <= j && i < n then Dot(m, i, j, i) + At(m, i, j) else Dot(m, i, j, Min(n, Min(i, j + 1)))
  {
    hide LowerOf, UpperOf;
    if n > 0 {
      TrianglesUpTo(m, i, j, n - 1);
    }
  }

  /** What the array holds is the product of its two triangles. */
  lemma TrianglesMultiply(m: Mat, i: nat, j: nat)
    requires Dim(m, |m|, |m|) && i < |m| && j < |m|
    ensures At(Mul(LowerOf(m), UpperOf(m), |m|, |m|, |m|), i, j) == Factored(m, i, j)
  {
    hide LowerOf, UpperOf, Mul;
    TrianglesUpTo(m, i, j, |m|);
  }

  /** The rows of the matrix in the order of `piv`. */
  function Rows(a: Mat, piv: seq<nat>): Mat { seq(|piv|, (i: nat) requires i < |piv| => if piv[i] < |a| then a[piv[i]] else []) }

  lemma LowerTimesUpper(a: Mat, m: Mat, piv: seq<nat>)
    requires FactoredUpTo(a, m, piv, |m|)
    ensures Mul(LowerOf(m), UpperOf(m), |m|, |m|, |m|) == Rows(a, piv)
  {
    hide LowerOf, UpperOf, Mul, Factored;
    var lu := Mul(LowerOf(m), UpperOf(m), |m|, |m|, |m|);
    forall i: nat, j: nat | i < |m| && j < |m| ensures lu[i][j] == Rows(a, piv)[i][j] {
      TrianglesMultiply(m, i, j);
      assert Factored(m, i, j) == a[piv[i]][j];
    }
    SameMat(lu, Rows(a, piv), |m|, |m|);
  }

  /** Multiplying by the permutation matrix puts row `i` in place `piv[i]`. */
  lemma PermTimes(piv: seq<nat>, b: Mat, cols: nat, i: nat, j: nat)
    requires IsPerm(piv) && Dim(b, |piv|, cols) && i < |piv| && j < cols
    ensures At(Mul(PermOf(piv), b, |piv|, |piv|, cols), piv[i], j) == b[i][j]
  {
    hide Mul;
    var f := Terms(PermOf(piv), b, piv[i], j);
    forall k: nat | k < |piv| && k != i ensures f(k) == 0.0 {
    }
    SumSingle(f, |piv|, i);
  }

  /** A = P L U, for every square matrix, singular or not. */
  lemma FactorsMultiply(a: Mat, m: Mat, piv: seq<nat>, pivsign: int, singular: bool)
    requires Factorises(a, m, piv, pivsign, singular)
    ensures var n := |a|; Mul(Mul(PermOf(piv), LowerOf(m), n, n, n), UpperOf(m), n, n, n) == a
  {
    hide LowerOf, UpperOf, Mul, PermOf, Sign, LowerIsSmall, FlagOk, Factored;
    var n := |a|;
    MulAssoc(PermOf(piv), LowerOf(m), UpperOf(m), n, n, n, n);
    LowerTimesUpper(a, m, piv);
    var b := Rows(a, piv);
    var plu := Mul(PermOf(piv), b, n, n, n);
    forall r: nat, j: nat | r < n && j < n ensures plu[r][j] == a[r][j] {
      var i := Reaches(piv, r);
      PermTimes(piv, b, n, i, j);
    }
    SameMat(plu, a, n, n);
  }
}
