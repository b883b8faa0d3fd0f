/** Which matrices have an inverse, and the inverse that the program computes, over exact reals. */
module Inverses {
  import opened Wrappers
  import opened Matrices
  import opened Permutations
  import opened Plu
  import opened PluSolve

  /** The matrix is not singular. */
  ghost predicate HasInverse(a: Mat) {
    exists x: Mat :: Dim(x, |a|, |a|) && Mul(a, x, |a|, |a|, |a|) == Identity(|a|)
  }

  // ----- no zero pivot: there is an inverse -----

  function Zero(rows: nat, cols: nat): (m: Mat)
    ensures Dim(m, rows, cols)
    ensures forall i: nat, j: nat :: i < rows && j < cols ==> m[i][j] == 0.0
  {
    seq(rows, (i: nat) => seq(cols, (j: nat) => 0.0))
  }

  lemma LowerSolvable(m: Mat, b: Mat, n: nat, cols: nat) returns (y: Mat)
    requires Dim(m, n, n) && Dim(b, n, cols)
    ensures Dim(y, n, cols) && Mul(LowerOf(m), y, n, n, cols) == b
  {
    hide Mul, LowerOf, PluSolve.Below;
    y := Zero(n, cols);
    for k := 0 to n
      invariant Dim(y, n, cols)
      invariant forall r: nat :: r < k ==> Forward(m, y, b, r, r, cols)
    {
      var row := seq(cols, (t: nat) => At(b, k, t) - PluSolve.Below(m, y, k, t, k));
      var next := y[k := row];
      forall r: nat | r <= k ensures Forward(m, next, b, r, r, cols) {
        if r < k {
          ForwardSame(m, y, next, b, r, r, k, n, cols);
        } else {
          forall t: nat | t < cols ensures At(next, k, t) + PluSolve.Below(m, next, k, t, Min(k, k)) == At(b, k, t) {
            BelowSame(m, y, next, k, t, k);
          }
        }
      }
      y := next;
    }
    LowerSolved(m, y, b, n, cols);
  }

  lemma Quotient(x: real, pivot: real)
    requires pivot != 0.0
    ensures pivot * (x / pivot) == x
  {
  }

  lemma UpperSolvable(m: Mat, y: Mat, n: nat, cols: nat) returns (x: Mat)
    requires Dim(m, n, n) && Dim(y, n, cols) && forall k: nat :: k < n ==> At(m, k, k) != 0.0
    ensures Dim(x, n, cols) && Mul(UpperOf(m), x, n, n, cols) == y
  {
    hide Mul, UpperOf;
    x := Zero(n, cols);
    var k := n;
    while k > 0
      invariant k <= n && Dim(x, n, cols)
      invariant forall r: nat :: k <= r < n ==> Backward(m, x, y, r, 0, n, cols)
    {
      k := k - 1;
      var row := seq(cols, (t: nat) => (At(y, k, t) - Above(m, x, k, t, k + 1, n)) / At(m, k, k));
      var next := x[k := row];
      forall r: nat | k <= r < n ensures Backward(m, next, y, r, 0, n, cols) {
        forall t: nat | t < cols ensures Above(m, next, r, t, r, n) == At(y, r, t) {
          if r > k {
            assert Backward(m, x, y, r, 0, n, cols);
            AboveSame(m, x, next, r, t, r, n);
          } else {
            AboveSame(m, x, next, k, t, k + 1, n);
            Quotient(At(y, k, t) - Above(m, x, k, t, k + 1, n), At(m, k, k));
          }
        }
      }
      x := next;
    }
    UpperSolved(m, x, y, n, cols);
  }

  lemma NoZeroPivotInverts(a: Mat, m: Mat, piv: seq<nat>)
    requires FactoredUpTo(a, m, piv, |m|) && |m| == |a| && forall k: nat :: k < |m| ==> At(m, k, k) != 0.0
    ensures HasInverse(a)
  {
    hide Mul, LowerOf, UpperOf, Identity;
    var n := |a|;
    var y := LowerSolvable(m, Rows(Identity(n), piv), n, n);
    var x := UpperSolvable(m, y, n, n);
    SolutionIsRight(a, m, piv, Identity(n), y, x, n, n);
  }

  // ----- a zero pivot: there is none -----

  lemma {:induction false} SumChange(f: nat -> real, g: nat -> real, n: nat, j: nat)
    requires forall k: nat :: k < n && k != j ==> g(k) == f(k)
    ensures Sum(g, n) == Sum(f, n) + if j < n then g(j) - f(j) else 0.0
  {
    if n > 0 { SumChange(f, g, n - 1, j); }
  }

  /** Changing entry `j` of a row changes its product with column `c` by that entry's share. */
  lemma RowChange(y: Mat, b: Mat, n: nat, j: nat, d: real, c: nat)
    requires Dim(y, 1, n) && j < n && y[0][j] == 0.0
    ensures Sum(Terms([y[0][j := d]], b, 0, c), n) == Sum(Terms(y, b, 0, c), n) + d * At(b, j, c)
  {
    SumChange(Terms(y, b, 0, c), Terms([y[0][j := d]], b, 0, c), n, j);
  }

  /** A row, not zero, whose product with U is: one at the last zero pivot, and solved for after it. */
  lemma LeftKernel(m: Mat, n: nat, k: nat) returns (y: Mat)
    requires Dim(m, n, n) && k < n && At(m, k, k) == 0.0 && forall j: nat :: k < j < n ==> At(m, j, j) != 0.0
    ensures Dim(y, 1, n) && y[0][k] == 1.0 && forall c: nat :: c < n ==> Sum(Terms(y, UpperOf(m), 0, c), n) == 0.0
  {
    hide Sum;
    var u := UpperOf(m);
    y := [seq(n, (i: nat) => if i == k then 1.0 else 0.0)];
    forall c: nat | c <= k ensures Sum(Terms(y, u, 0, c), n) == 0.0 {
      SumZero(Terms(y, u, 0, c), n);
    }
    for j := k + 1 to n
      invariant Dim(y, 1, n) && y[0][k] == 1.0
      invariant forall i: nat :: j <= i < n ==> y[0][i] == 0.0
      invariant forall c: nat :: c < j ==> Sum(Terms(y, u, 0, c), n) == 0.0
    {
      var s := Sum(Terms(y, u, 0, j), n);
      var d := -s / At(m, j, j);
      Quotient(-s, At(m, j, j));
      var next := [y[0][j := d]];
      forall c: nat | c <= j ensures Sum(Terms(next, u, 0, c), n) == 0.0 {
        RowChange(y, u, n, j, d, c);
        assert At(u, j, c) == if c == j then At(m, j, j) else 0.0;
      }
      y := next;
    }
  }

  /** A row whose product with L is a given one. */
  lemma LeftLower(m: Mat, y: Mat, n: nat) returns (z: Mat)
    requires Dim(m, n, n) && Dim(y, 1, n)
    ensures Dim(z, 1, n) && forall c: nat :: c < n ==> Sum(Terms(z, LowerOf(m), 0, c), n) == y[0][c]
  {
    hide Sum;
    var l := LowerOf(m);
    z := Zero(1, n);
    var j := n;
    while j > 0
      invariant j <= n && Dim(z, 1, n)
      invariant forall i: nat :: i < j ==> z[0][i] == 0.0
      invariant forall c: nat :: j <= c < n ==> Sum(Terms(z, l, 0, c), n) == y[0][c]
    {
      j := j - 1;
      var d := y[0][j] - Sum(Terms(z, l, 0, j), n);
      var next := [z[0][j := d]];
      forall c: nat | j <= c < n ensures Sum(Terms(next, l, 0, c), n) == y[0][c] {
        RowChange(z, l, n, j, d, c);
        assert At(l, j, c) == if c == j then 1.0 else 0.0;
      }
      z := next;
    }
  }

  lemma ZeroTimes(y: Mat, x: Mat, n: nat, cols: nat)
    requires Dim(y, 1, n) && forall c: nat :: c < n ==> y[0][c] == 0.0
    ensures forall t: nat :: t < cols ==> Mul(y, x, 1, n, cols)[0][t] == 0.0
  {
    forall t: nat | t < cols ensures Mul(y, x, 1, n, cols)[0][t] == 0.0 {
      SumZero(Terms(y, x, 0, t), n);
    }
  }

  /** A row whose product with the permuted identity is zero is zero. */
  lemma PermutedIdentity(z: Mat, piv: seq<nat>, n: nat)
    requires Dim(z, 1, n) && IsPerm(piv) && |piv| == n
    requires forall t: nat :: t < n ==> Mul(z, Rows(Identity(n), piv), 1, n, n)[0][t] == 0.0
    ensures forall i: nat :: i < n ==> z[0][i] == 0.0
  {
    forall i: nat | i < n ensures z[0][i] == 0.0 {
      var b := Rows(Identity(n), piv);
      SumSingle(Terms(z, b, 0, piv[i]), n, i);
      assert Mul(z, b, 1, n, n)[0][piv[i]] == Sum(Terms(z, b, 0, piv[i]), n);
    }
  }

  lemma LastZero(m: Mat, n: nat, k: nat) returns (last: nat)
    requires k < n && At(m, k, k) == 0.0
    ensures last < n && At(m, last, last) == 0.0 && forall j: nat :: last < j < n ==> At(m, j, j) != 0.0
  {
    last := n - 1;
    while At(m, last, last) != 0.0
      invariant k <= last < n && forall j: nat :: last < j < n ==> At(m, j, j) != 0.0
      decreases last
    {
      last := last - 1;
    }
  }

  lemma ZeroPivotHasNoInverse(a: Mat, m: Mat, piv: seq<nat>, k: nat)
    requires FactoredUpTo(a, m, piv, |m|) && |m| == |a| && k < |m| && At(m, k, k) == 0.0
    ensures !HasInverse(a)
  {
    hide Mul, LowerOf, UpperOf, Identity, Rows, IsPerm, Sum;
    var n := |a|;
    if HasInverse(a) {
      var x: Mat :| Dim(x, n, n) && Mul(a, x, n, n, n) == Identity(n);
      SquareFactors(a, m, piv);
      var last := LastZero(m, n, k);
      var y := LeftKernel(m, n, last);
      var z := LeftLower(m, y, n);
      var l, u := LowerOf(m), UpperOf(m);
      SameRow(Mul(z, l, 1, n, n), y, n);
      MulAssoc(z, l, u, 1, n, n, n);
      LowerTimesUpper(a, m, piv);
      ZeroTimes(Mul(y, u, 1, n, n), x, n, n);
      MulAssoc(z, Rows(a, piv), x, 1, n, n, n);
      RowsOfProduct(a, x, piv, n, n);
      PermutedIdentity(z, piv, n);
      ZeroTimes(z, l, n, n);
      assert false;
    }
  }

  lemma SameRow(a: Mat, b: Mat, n: nat)
    requires Dim(a, 1, n) && Dim(b, 1, n) && forall c: nat :: c < n ==> a[0][c] == b[0][c]
    ensures a == b
  {
    SameMat(a, b, 1, n);
  }

  lemma SquareFactors(a: Mat, m: Mat, piv: seq<nat>)
    requires FactoredUpTo(a, m, piv, |m|)
    ensures Dim(m, |m|, |m|) && Dim(a, |m|, |m|) && IsPerm(piv) && |piv| == |m|
  {
  }

  // ----- what the program refuses -----

  ghost predicate NoZeroPivot(m: Mat) { forall k: nat :: k < |m| ==> At(m, k, k) != 0.0 }

  ghost predicate SmallPivot(m: Mat) { exists k: nat :: k < |m| && Abs(At(m, k, k)) < EPS }

  /** The pivots are all there but one of them is small. */
  ghost predicate OnlySmall(a: Mat) {
    exists m: Mat, piv: seq<nat>, sign: int, singular: bool :: Factorises(a, m, piv, sign, singular) && NoZeroPivot(m) && SmallPivot(m)
  }

  /** A matrix has an inverse exactly when no pivot is zero. */
  lemma InvertibleExactly(a: Mat, m: Mat, piv: seq<nat>, sign: int, singular: bool)
    requires Factorises(a, m, piv, sign, singular)
    ensures HasInverse(a) <==> NoZeroPivot(m)
  {
    hide HasInverse, FactoredUpTo, LowerIsSmall, FlagOk, Sign, Rounds;
    if NoZeroPivot(m) {
      NoZeroPivotInverts(a, m, piv);
    } else {
      var k: nat :| k < |m| && At(m, k, k) == 0.0;
      ZeroPivotHasNoInverse(a, m, piv, k);
    }
  }

  /** The comment on the function says that it refuses a matrix if and only if it is exactly singular.
      The flag agrees with that unless a matrix without a zero pivot has a small one; and the
      factorisation being unique, a matrix has one set of pivots. */
  lemma CommentHoldsExactly(a: Mat, m: Mat, piv: seq<nat>, sign: int, singular: bool)
    requires Factorises(a, m, piv, sign, singular)
    ensures (singular <==> !HasInverse(a)) <==> !OnlySmall(a)
    ensures OnlySmall(a) <==> NoZeroPivot(m) && SmallPivot(m)
    ensures OnlySmall(a) ==> singular && HasInverse(a)
    ensures !HasInverse(a) ==> singular
  {
    hide HasInverse, FactoredUpTo, LowerIsSmall, Sign, Rounds;
    InvertibleExactly(a, m, piv, sign, singular);
    assert singular <==> SmallPivot(m);
    if OnlySmall(a) {
      var m': Mat, piv': seq<nat>, sign': int, singular': bool :| Factorises(a, m', piv', sign', singular') && NoZeroPivot(m') && SmallPivot(m');
      FactorisationIsUnique(a, m, piv, sign, singular, m', piv', sign', singular');
    }
    if !NoZeroPivot(m) {
      var k: nat :| k < |m| && At(m, k, k) == 0.0;
      assert Abs(At(m, k, k)) < EPS;
    }
  }

  // ----- the program -----

  method IdentityMatrix(n: nat) returns (m: array2<real>)
    ensures fresh(m) && m.Length0 == m.Length1 == n && Val(m) == Identity(n)
  {
    m := Zeros(n, n);
    for i := 0 to n
      invariant forall r: nat, c: nat :: r < n && c < n ==> m[r, c] == if r == c && r < i then 1.0 else 0.0
    {
      m[i, i] := 1.0;
    }
    SameMat(Val(m), Identity(n), n, n);
  }

  /** The inverse of a one by one matrix that the program stores as a scalar. */
  method InverseScalar(x: real) returns (r: Option<real>)
    ensures r.Some? <==> x != 0.0
    ensures r.Some? ==> x * r.value == 1.0
  {
    if x == 0.0 {
      return None;
    }
    r := Some(1.0 / x);
  }

  function Det2(a: Mat): real { At(a, 0, 0) * At(a, 1, 1) - At(a, 0, 1) * At(a, 1, 0) }

  method Inverse1(a: array2<real>) returns (r: Option<array2<real>>)
    requires a.Length0 == a.Length1 == 1
    ensures r.Some? <==> a[0, 0] != 0.0
    ensures r.Some? ==> r.value.Length0 == r.value.Length1 == 1 && Mul(Val(a), Val(r.value), 1, 1, 1) == Identity(1)
  {
    var x := InverseScalar(a[0, 0]);
    if x.None? {
      return None;
    }
    var m := Zeros(1, 1);
    m[0, 0] := x.value;
    OneByOne(Val(a), Val(m));
    r := Some(m);
  }

  lemma OneByOne(a: Mat, x: Mat)
    requires Dim(a, 1, 1) && Dim(x, 1, 1) && a[0][0] * x[0][0] == 1.0
    ensures Mul(a, x, 1, 1, 1) == Identity(1)
  {
    assert Sum(Terms(a, x, 0, 0), 1) == 1.0;
    SameMat(Mul(a, x, 1, 1, 1), Identity(1), 1, 1);
  }

  method Determinant2(a: array2<real>) returns (det: real)
    requires a.Length0 == a.Length1 == 2
    ensures det == Det2(Val(a))
  {
    det := a[0, 0] * a[1, 1] - a[0, 1] * a[1, 0];
  }

  /** `x` is the adjugate of `a` times `inverse`. */
  ghost predicate AdjugateOf(a: Mat, x: Mat, inverse: real) {
    && Dim(a, 2, 2) && Dim(x, 2, 2)
    && x[0][0] == a[1][1] * inverse && x[0][1] == -a[0][1] * inverse
    && x[1][0] == -a[1][0] * inverse && x[1][1] == a[0][0] * inverse
  }

  method Entries2(w: real, x: real, y: real, z: real) returns (m: array2<real>)
    ensures m.Length0 == m.Length1 == 2 && Val(m) == [[w, x], [y, z]]
  {
    m := Zeros(2, 2);
    m[0, 0] := w;
    m[0, 1] := x;
    m[1, 0] := y;
    m[1, 1] := z;
    SameMat(Val(m), [[w, x], [y, z]], 2, 2);
  }

  method Inverse2(a: array2<real>) returns (r: Option<array2<real>>)
    requires a.Length0 == a.Length1 == 2
    ensures r.Some? <==> Det2(Val(a)) != 0.0
    ensures r.Some? ==> r.value.Length0 == r.value.Length1 == 2 && Mul(Val(a), Val(r.value), 2, 2, 2) == Identity(2)
  {
    hide Det2, Mul, Val;
    var det := Determinant2(a);
    if det == 0.0 {
      return None;
    }
    var invdet := 1.0 / det;
    InverseTimes(det, invdet);
    var m := Entries2(a[1, 1] * invdet, -a[0, 1] * invdet, -a[1, 0] * invdet, a[0, 0] * invdet);
    TwoByTwo(Val(a), Val(m), invdet);
    r := Some(m);
  }

  lemma TwoByTwo(a: Mat, x: Mat, inverse: real)
    requires AdjugateOf(a, x, inverse) && inverse * Det2(a) == 1.0
    ensures Mul(a, x, 2, 2, 2) == Identity(2)
  {
    Adjugate(a[0][0], a[0][1], a[1][0], a[1][1], inverse);
    forall i: nat, j: nat | i < 2 && j < 2 ensures Mul(a, x, 2, 2, 2)[i][j] == Identity(2)[i][j] {
      TwoTerms(Terms(a, x, i, j));
    }
    SameMat(Mul(a, x, 2, 2, 2), Identity(2), 2, 2);
  }

  lemma TwoTerms(f: nat -> real)
    ensures Sum(f, 2) == f(0) + f(1)
  {
    assert Sum(f, 1) == Sum(f, 0) + f(0);
  }

  lemma Adjugate(p: real, q: real, r: real, s: real, inverse: real)
    requires inverse * (p * s - q * r) == 1.0
    ensures p * (s * inverse) + q * (-r * inverse) == 1.0
    ensures p * (-q * inverse) + q * (p * inverse) == 0.0
    ensures r * (s * inverse) + s * (-r * inverse) == 0.0
    ensures r * (-q * inverse) + s * (p * inverse) == 1.0
  {
  }

  lemma DiagonalIsNotZero(m: Mat, singular: bool)
    requires FlagOk(m, |m|, singular) && !singular
    ensures forall c: nat :: c < |m| ==> At(m, c, c) != 0.0
  {
    forall c: nat | c < |m| ensures At(m, c, c) != 0.0 {
      assert !(Abs(At(m, c, c)) < EPS);
    }
  }

  /** The inverse by factorisation, for matrices of at least three rows: whatever is returned times
      the matrix is the identity, a matrix without an inverse is refused, and one with an inverse is
      refused exactly when one of its pivots is small. */
  method InverseByFactors(a: array2<real>) returns (r: Option<array2<real>>)
    requires a.Length0 == a.Length1
    ensures r.Some? ==> r.value.Length0 == r.value.Length1 == a.Length0
                        && Mul(Val(a), Val(r.value), a.Length0, a.Length0, a.Length0) == Identity(a.Length0)
    ensures r.None? <==> !HasInverse(Val(a)) || OnlySmall(Val(a))
  {
    hide FactoredUpTo, LowerIsSmall, Sign, Mul, Val, FlagOk, Rounds, HasInverse, OnlySmall;
    var lu, piv, sign, singular := Factor(a);
    CommentHoldsExactly(Val(a), Val(lu), piv[..], sign, singular);
    r := None;
    if !singular {
      var ident := IdentityMatrix(a.Length0);
      ghost var m := Val(lu);
      DiagonalIsNotZero(m, singular);
      forall k: nat | k < lu.Length0 ensures lu[k, k] != 0.0 {
        AtVal(lu, k, k);
      }
      var x := Solve(Val(a), lu, piv, ident);
      r := Some(x);
    }
  }

  lemma Has1(a: Mat)
    requires Dim(a, 1, 1)
    ensures HasInverse(a) <==> a[0][0] != 0.0
  {
    if a[0][0] != 0.0 {
      var x := [[1.0 / a[0][0]]];
      OneByOne(a, x);
    }
    if HasInverse(a) {
      var x: Mat :| Dim(x, 1, 1) && Mul(a, x, 1, 1, 1) == Identity(1);
      assert Sum(Terms(a, x, 0, 0), 1) == Sum(Terms(a, x, 0, 0), 0) + a[0][0] * x[0][0];
      assert Mul(a, x, 1, 1, 1)[0][0] == 1.0;
    }
  }

  lemma DetProduct(p: real, q: real, r: real, s: real, a: real, b: real, c: real, d: real)
    requires p * a + q * c == 1.0 && p * b + q * d == 0.0 && r * a + s * c == 0.0 && r * b + s * d == 1.0
    ensures p * s - q * r != 0.0
  {
    var x, y := p * a + q * c, r * b + s * d;
    assert x * y - (p * b + q * d) * (r * a + s * c) == (p * s - q * r) * (a * d - b * c);
  }

  lemma Entry2(a: Mat, x: Mat, i: nat, j: nat)
    requires Dim(a, 2, 2) && Dim(x, 2, 2) && i < 2 && j < 2 && Mul(a, x, 2, 2, 2) == Identity(2)
    ensures a[i][0] * x[0][j] + a[i][1] * x[1][j] == if i == j then 1.0 else 0.0
  {
    hide Sum;
    TwoTerms(Terms(a, x, i, j));
    assert Mul(a, x, 2, 2, 2)[i][j] == Identity(2)[i][j];
  }

  lemma Inverse2HasDet(a: Mat, x: Mat)
    requires Dim(a, 2, 2) && Dim(x, 2, 2) && Mul(a, x, 2, 2, 2) == Identity(2)
    ensures Det2(a) != 0.0
  {
    hide Mul, Sum;
    Entry2(a, x, 0, 0);
    Entry2(a, x, 0, 1);
    Entry2(a, x, 1, 0);
    Entry2(a, x, 1, 1);
    DetProduct(a[0][0], a[0][1], a[1][0], a[1][1], x[0][0], x[0][1], x[1][0], x[1][1]);
  }

  lemma Has2(a: Mat)
    requires Dim(a, 2, 2)
    ensures HasInverse(a) <==> Det2(a) != 0.0
  {
    hide Mul;
    if Det2(a) != 0.0 {
      hide Det2;
      var i := 1.0 / Det2(a);
      InverseTimes(Det2(a), i);
      var x := [[a[1][1] * i, -a[0][1] * i], [-a[1][0] * i, a[0][0] * i]];
      TwoByTwo(a, x, i);
    }
    if HasInverse(a) {
      hide Det2;
      var x: Mat :| Dim(x, 2, 2) && Mul(a, x, 2, 2, 2) == Identity(2);
      Inverse2HasDet(a, x);
    }
  }

  /** The inverse of a square matrix, by size.  Up to two rows it is refused exactly when there is none;
      from three rows on also when there is one but a pivot is small. */
  method Inverse(a: array2<real>) returns (r: Option<array2<real>>)
    requires a.Length0 == a.Length1 >= 1
    ensures r.Some? ==> r.value.Length0 == r.value.Length1 == a.Length0
                        && Mul(Val(a), Val(r.value), a.Length0, a.Length0, a.Length0) == Identity(a.Length0)
    ensures r.None? <==> !HasInverse(Val(a)) || (a.Length0 >= 3 && OnlySmall(Val(a)))
  {
    hide HasInverse, OnlySmall, Mul;
    if a.Length0 == 1 {
      Has1(Val(a));
      r := Inverse1(a);
    } else if a.Length0 == 2 {
      Has2(Val(a));
      r := Inverse2(a);
    } else {
      r := InverseByFactors(a);
    }
  }

  /** Matrices with a small first column are refused: their first pivot is small. */
  lemma SmallColumnIsRefused(a: Mat, m: Mat, piv: seq<nat>, sign: int, singular: bool)
    requires Factorises(a, m, piv, sign, singular) && |a| > 0
    requires forall i: nat :: i < |a| ==> Abs(At(a, i, 0)) < EPS
    ensures singular
  {
    assert Factored(m, 0, 0) == a[piv[0]][0];
    assert At(m, 0, 0) == At(a, piv[0], 0);
    assert Abs(At(m, 0, 0)) < EPS;
  }

  function Diagonal(n: nat, x: real): (m: Mat)
    ensures Dim(m, n, n)
    ensures forall i: nat, j: nat :: i < n && j < n ==> m[i][j] == if i == j then x else 0.0
  {
    seq(n, (i: nat) => seq(n, (j: nat) => if i == j then x else 0.0))
  }

  /** A multiple of the identity with a small factor is refused and has an inverse. */
  lemma RefusedThoughInvertible(n: nat, m: Mat, piv: seq<nat>, sign: int, singular: bool)
    requires n >= 3 && Factorises(Diagonal(n, 0.000000001), m, piv, sign, singular)
    ensures singular
    ensures Mul(Diagonal(n, 0.000000001), Diagonal(n, 1000000000.0), n, n, n) == Identity(n)
  {
    hide Mul, Factorises, Diagonal;
    var a, x := Diagonal(n, 0.000000001), Diagonal(n, 1000000000.0);
    SmallColumnIsRefused(a, m, piv, sign, singular);
    forall i: nat, j: nat | i < n && j < n ensures Mul(a, x, n, n, n)[i][j] == Identity(n)[i][j] {
      SumSingle(Terms(a, x, i, j), n, i);
    }
    SameMat(Mul(a, x, n, n, n), Identity(n), n, n);
  }
}
