/** Solving with a factorised matrix, over exact reals. */
module PluSolve {
  import opened Matrices
  import opened Permutations
  import opened Plu

  // ----- what the two substitutions keep -----

  /** The part of a row of L times x that comes from the first `n` rows of x. */
  function Below(m: Mat, x: Mat, i: nat, t: nat, n: nat): real {
    if n == 0 then 0.0 else Below(m, x, i, t, n - 1) + At(m, i, n - 1) * At(x, n - 1, t)
  }

  /** The part of a row of U times x that comes from the rows of x from `lo` to `n - 1`. */
  function Above(m: Mat, x: Mat, i: nat, t: nat, lo: nat, n: nat): real
    decreases n - lo
  {
    if lo >= n then 0.0 else At(m, i, lo) * At(x, lo, t) + Above(m, x, i, t, lo + 1, n)
  }

  /** Row `r` when the rows before `k` have been substituted. */
  ghost predicate Forward(m: Mat, x: Mat, pb: Mat, r: nat, k: nat, cols: nat) {
    forall t: nat :: t < cols ==> At(x, r, t) + Below(m, x, r, t, Min(r, k)) == At(pb, r, t)
  }

  /** Row `r` when the rows from `k` on have been solved. */
  ghost predicate Backward(m: Mat, x: Mat, y: Mat, r: nat, k: nat, n: nat, cols: nat) {
    forall t: nat :: t < cols ==>
      (if r < k then At(x, r, t) + Above(m, x, r, t, k, n) else Above(m, x, r, t, r, n)) == At(y, r, t)
  }

  /** Only row `i` differs. */
  ghost predicate RowsAgreeBut(x: Mat, x': Mat, i: nat, n: nat, cols: nat) {
    && Dim(x, n, cols) && Dim(x', n, cols)
    && forall r: nat :: r < n && r != i ==> x'[r] == x[r]
  }

  lemma {:induction false} BelowSame(m: Mat, x: Mat, x': Mat, i: nat, t: nat, n: nat)
    requires forall k: nat :: k < n ==> At(x', k, t) == At(x, k, t)
    ensures Below(m, x', i, t, n) == Below(m, x, i, t, n)
  {
    if n > 0 { BelowSame(m, x, x', i, t, n - 1); }
  }

  lemma {:induction false} AboveSame(m: Mat, x: Mat, x': Mat, i: nat, t: nat, lo: nat, n: nat)
    requires forall k: nat :: lo <= k < n ==> At(x', k, t) == At(x, k, t)
    ensures Above(m, x', i, t, lo, n) == Above(m, x, i, t, lo, n)
    decreases n - lo
  {
    if lo < n { AboveSame(m, x, x', i, t, lo + 1, n); }
  }

  lemma ForwardSame(m: Mat, x: Mat, x': Mat, pb: Mat, r: nat, k: nat, i: nat, n: nat, cols: nat)
    requires Forward(m, x, pb, r, k, cols) && RowsAgreeBut(x, x', i, n, cols) && r < n && r != i && Min(r, k) <= i
    ensures Forward(m, x', pb, r, k, cols)
  {
    forall t: nat | t < cols ensures At(x', r, t) + Below(m, x', r, t, Min(r, k)) == At(pb, r, t) {
      BelowSame(m, x, x', r, t, Min(r, k));
    }
  }

  /** Row `i` gains a multiple of row `k`. */
  ghost predicate Gains(x: Mat, x': Mat, i: nat, k: nat, factor: real, cols: nat) {
    forall t: nat :: t < cols ==> At(x', i, t) == At(x, i, t) + At(x, k, t) * factor
  }

  lemma ForwardGains(m: Mat, x: Mat, x': Mat, pb: Mat, i: nat, k: nat, n: nat, cols: nat)
    requires Forward(m, x, pb, i, k, cols) && RowsAgreeBut(x, x', i, n, cols) && k < i < n
    requires Gains(x, x', i, k, -At(m, i, k), cols)
    ensures Forward(m, x', pb, i, k + 1, cols)
  {
    forall t: nat | t < cols ensures At(x', i, t) + Below(m, x', i, t, k + 1) == At(pb, i, t) {
      BelowSame(m, x, x', i, t, k + 1);
    }
  }

  lemma BackwardSame(m: Mat, x: Mat, x': Mat, y: Mat, r: nat, k: nat, i: nat, n: nat, cols: nat)
    requires Backward(m, x, y, r, k, n, cols) && RowsAgreeBut(x, x', i, n, cols) && r < n && r != i && i < k && (r >= k ==> i < r)
    ensures Backward(m, x', y, r, k, n, cols)
  {
    forall t: nat | t < cols
      ensures (if r < k then At(x', r, t) + Above(m, x', r, t, k, n) else Above(m, x', r, t, r, n)) == At(y, r, t)
    {
      AboveSame(m, x, x', r, t, if r < k then k else r, n);
    }
  }

  lemma BackwardGains(m: Mat, x: Mat, x': Mat, y: Mat, i: nat, k: nat, n: nat, cols: nat)
    requires Backward(m, x, y, i, k + 1, n, cols) && RowsAgreeBut(x, x', i, n, cols) && i < k < n
    requires Gains(x, x', i, k, -At(m, i, k), cols)
    ensures Backward(m, x', y, i, k, n, cols)
  {
    forall t: nat | t < cols ensures At(x', i, t) + Above(m, x', i, t, k, n) == At(y, i, t) {
      AboveSame(m, x, x', i, t, k, n);
    }
  }

  /** Row `k` is divided by its pivot. */
  ghost predicate Scaled(x: Mat, x': Mat, k: nat, pivot: real, cols: nat) {
    forall t: nat :: t < cols ==> pivot * At(x', k, t) == At(x, k, t)
  }

  lemma BackwardScaled(m: Mat, x: Mat, x': Mat, y: Mat, k: nat, n: nat, cols: nat)
    requires Backward(m, x, y, k, k + 1, n, cols) && RowsAgreeBut(x, x', k, n, cols) && k < n
    requires Scaled(x, x', k, At(m, k, k), cols)
    ensures Backward(m, x', y, k, k, n, cols)
  {
    forall t: nat | t < cols ensures Above(m, x', k, t, k, n) == At(y, k, t) {
      AboveSame(m, x, x', k, t, k + 1, n);
    }
  }

  lemma BackwardOther(m: Mat, x: Mat, x': Mat, y: Mat, r: nat, k: nat, n: nat, cols: nat)
    requires Backward(m, x, y, r, k + 1, n, cols) && RowsAgreeBut(x, x', k, n, cols) && k < n && r < n && r != k
    ensures Backward(m, x', y, r, k + 1, n, cols)
  {
    BackwardSame(m, x, x', y, r, k + 1, k, n, cols);
  }

  // ----- the steps on the array -----

  /** `x[i] += x[k] * factor`, row-wise. */
  method AddRow(x: array2<real>, i: nat, k: nat, factor: real)
    requires i < x.Length0 && k < x.Length0 && i != k
    modifies x
    ensures RowsAgreeBut(old(Val(x)), Val(x), i, x.Length0, x.Length1)
    ensures Gains(old(Val(x)), Val(x), i, k, factor, x.Length1)
  {
    ghost var before := Val(x);
    for t := 0 to x.Length1
      invariant forall r: nat, c: nat :: r < x.Length0 && c < x.Length1 && (r != i || t <= c) ==> x[r, c] == before[r][c]
      invariant forall c: nat :: c < t ==> x[i, c] == before[i][c] + before[k][c] * factor
    {
      x[i, t] := x[i, t] + x[k, t] * factor;
    }
  }

  method ScaleRow(x: array2<real>, k: nat, pivot: real)
    requires k < x.Length0 && pivot != 0.0
    modifies x
    ensures RowsAgreeBut(old(Val(x)), Val(x), k, x.Length0, x.Length1)
    ensures Scaled(old(Val(x)), Val(x), k, pivot, x.Length1)
  {
    hide Scaled;
    ghost var before := Val(x);
    var inverse := 1.0 / pivot;
    InverseTimes(pivot, inverse);
    for t := 0 to x.Length1
      invariant forall r: nat, c: nat :: r < x.Length0 && c < x.Length1 && (r != k || t <= c) ==> x[r, c] == before[r][c]
      invariant forall c: nat :: c < t ==> x[k, c] == before[k][c] * inverse
    {
      x[k, t] := x[k, t] * inverse;
    }
    ScaledBy(before, Val(x), k, pivot, inverse, x.Length1);
  }

  lemma ScaledBy(x: Mat, x': Mat, k: nat, pivot: real, inverse: real, cols: nat)
    requires inverse * pivot == 1.0 && forall c: nat :: c < cols ==> At(x', k, c) == At(x, k, c) * inverse
    ensures Scaled(x, x', k, pivot, cols)
  {
    forall t: nat | t < cols ensures pivot * At(x', k, t) == At(x, k, t) {
      ThreeFactors(At(x, k, t), inverse, pivot);
    }
  }

  /** The rows of the right hand side in the order of `piv`. */
  method Permute(b: array2<real>, piv: array<nat>, x: array2<real>)
    requires piv.Length == b.Length0 == x.Length0 && x.Length1 == b.Length1 && IsPerm(piv[..]) && x != b
    modifies x
    ensures Val(x) == Rows(Val(b), piv[..])
  {
    var n, cols := piv.Length, b.Length1;
    for i := 0 to n
      invariant forall r: nat, c: nat :: r < i && c < cols ==> x[r, c] == b[piv[..][r], c]
    {
      assert piv[i] == piv[..][i];
      for t := 0 to cols
        invariant forall r: nat, c: nat :: r < i && c < cols ==> x[r, c] == b[piv[..][r], c]
        invariant forall c: nat :: c < t ==> x[i, c] == b[piv[..][i], c]
      {
        x[i, t] := b[piv[i], t];
      }
    }
    SameMat(Val(x), Rows(Val(b), piv[..]), n, cols);
  }

  /** How many columns of L row `r` has been through when column `k` has come down to row `i`. */
  function Stage(r: nat, k: nat, i: nat): nat { Min(r, if k < r < i then k + 1 else k) }

  ghost predicate ForwardAll(m: Mat, x: Mat, pb: Mat, k: nat, i: nat, n: nat, cols: nat) {
    forall r: nat :: r < n ==> Forward(m, x, pb, r, Stage(r, k, i), cols)
  }

  /** Solves L y = b in place, column by column of L. */
  method SubstituteForward(lu: array2<real>, x: array2<real>)
    requires lu.Length0 == lu.Length1 == x.Length0 && lu != x
    modifies x
    ensures forall r: nat :: r < x.Length0 ==> Forward(Val(lu), Val(x), old(Val(x)), r, r, x.Length1)
  {
    hide ForwardAll, Forward, Gains, RowsAgreeBut, Val;
    var n, cols := lu.Length0, x.Length1;
    ghost var m, pb := Val(lu), Val(x);
    ForwardStart(m, pb, n, cols);
    for k := 0 to n
      invariant ForwardAll(m, Val(x), pb, k, k + 1, n, cols)
    {
      for i := k + 1 to n
        invariant ForwardAll(m, Val(x), pb, k, i, n, cols)
      {
        ghost var before := Val(x);
        AtVal(lu, i, k);
        AddRow(x, i, k, -lu[i, k]);
        ForwardRound(m, before, Val(x), pb, i, k, n, cols);
      }
      ForwardNext(m, Val(x), pb, k, n, cols);
    }
    ForwardEnd(m, Val(x), pb, n, cols);
  }

  lemma AtVal(a: array2<real>, i: nat, j: nat)
    requires i < a.Length0 && j < a.Length1
    ensures At(Val(a), i, j) == a[i, j]
  {
  }

  lemma ForwardStart(m: Mat, pb: Mat, n: nat, cols: nat)
    ensures ForwardAll(m, pb, pb, 0, 1, n, cols)
  {
  }

  lemma ForwardNext(m: Mat, x: Mat, pb: Mat, k: nat, n: nat, cols: nat)
    requires ForwardAll(m, x, pb, k, n, n, cols)
    ensures ForwardAll(m, x, pb, k + 1, k + 2, n, cols)
  {
    hide Forward;
    var k1, k2 := k + 1, k + 2;
    forall r: nat | r < n ensures Forward(m, x, pb, r, Stage(r, k1, k2), cols) {
      assert Stage(r, k1, k2) == Stage(r, k, n);
    }
  }

  lemma ForwardEnd(m: Mat, x: Mat, pb: Mat, n: nat, cols: nat)
    requires ForwardAll(m, x, pb, n, n + 1, n, cols)
    ensures forall r: nat :: r < n ==> Forward(m, x, pb, r, r, cols)
  {
    hide Forward;
    forall r: nat | r < n ensures Forward(m, x, pb, r, r, cols) {
      assert Stage(r, n, n + 1) == r;
    }
  }

  lemma ForwardRound(m: Mat, x: Mat, x': Mat, pb: Mat, i: nat, k: nat, n: nat, cols: nat)
    requires k < i < n && RowsAgreeBut(x, x', i, n, cols) && Gains(x, x', i, k, -At(m, i, k), cols)
    requires ForwardAll(m, x, pb, k, i, n, cols)
    ensures ForwardAll(m, x', pb, k, i + 1, n, cols)
  {
    hide Forward, Gains, RowsAgreeBut;
    var i' := i + 1;
    forall r: nat | r < n ensures Forward(m, x', pb, r, Stage(r, k, i'), cols) {
      assert Forward(m, x, pb, r, Stage(r, k, i), cols);
      if r == i {
        ForwardGains(m, x, x', pb, i, k, n, cols);
      } else {
        ForwardSame(m, x, x', pb, r, Stage(r, k, i), i, n, cols);
      }
    }
  }

  /** From which column of U on row `r` has been through, when column `k` has come down to row `i`. */
  function BackStage(r: nat, k: nat, i: nat): nat { if i <= r < k then k + 1 else k }

  ghost predicate BackwardAll(m: Mat, x: Mat, y: Mat, k: nat, i: nat, n: nat, cols: nat) {
    forall r: nat :: r < n ==> Backward(m, x, y, r, BackStage(r, k, i), n, cols)
  }

  /** Solves U x = y in place, column by column of U, last row first. */
  method SubstituteBackward(lu: array2<real>, x: array2<real>)
    requires lu.Length0 == lu.Length1 == x.Length0 && lu != x
    requires forall k: nat :: k < lu.Length0 ==> lu[k, k] != 0.0
    modifies x
    ensures forall r: nat :: r < x.Length0 ==> Backward(Val(lu), Val(x), old(Val(x)), r, 0, x.Length0, x.Length1)
  {
    hide Backward, BackwardAll, Gains, Scaled, RowsAgreeBut, Val;
    var n, cols := lu.Length0, x.Length1;
    ghost var m, y := Val(lu), Val(x);
    BackwardStart(m, y, n, cols);
    for k := n downto 0
      invariant BackwardAll(m, Val(x), y, k, k, n, cols)
    {
      ghost var x0 := Val(x);
      AtVal(lu, k, k);
      ScaleRow(x, k, lu[k, k]);
      ScaleRound(m, x0, Val(x), y, k, n, cols);
      for i := 0 to k
        invariant BackwardAll(m, Val(x), y, k, i, n, cols)
      {
        ghost var before := Val(x);
        AtVal(lu, i, k);
        AddRow(x, i, k, -lu[i, k]);
        BackwardRound(m, before, Val(x), y, i, k, n, cols);
      }
    }
    BackwardEnd(m, Val(x), y, n, cols);
  }

  lemma BackwardStart(m: Mat, y: Mat, n: nat, cols: nat)
    ensures BackwardAll(m, y, y, n, n, n, cols)
  {
  }

  lemma BackwardEnd(m: Mat, x: Mat, y: Mat, n: nat, cols: nat)
    requires BackwardAll(m, x, y, 0, 0, n, cols)
    ensures forall r: nat :: r < n ==> Backward(m, x, y, r, 0, n, cols)
  {
    hide Backward;
    forall r: nat | r < n ensures Backward(m, x, y, r, 0, n, cols) {
      assert BackStage(r, 0, 0) == 0;
    }
  }

  lemma ScaleRound(m: Mat, x: Mat, x': Mat, y: Mat, k: nat, n: nat, cols: nat)
    requires k < n && RowsAgreeBut(x, x', k, n, cols) && Scaled(x, x', k, At(m, k, k), cols)
    requires BackwardAll(m, x, y, k + 1, k + 1, n, cols)
    ensures BackwardAll(m, x', y, k, 0, n, cols)
  {
    hide Backward, Scaled, RowsAgreeBut;
    forall r: nat | r < n ensures Backward(m, x', y, r, BackStage(r, k, 0), n, cols) {
      assert Backward(m, x, y, r, BackStage(r, k + 1, k + 1), n, cols);
      if r == k {
        BackwardScaled(m, x, x', y, k, n, cols);
      } else {
        BackwardOther(m, x, x', y, r, k, n, cols);
        if r > k { SolvedStays(m, x', y, r, k, n, cols); }
      }
    }
  }

  lemma SolvedStays(m: Mat, x: Mat, y: Mat, r: nat, k: nat, n: nat, cols: nat)
    requires Backward(m, x, y, r, k + 1, n, cols) && r > k
    ensures Backward(m, x, y, r, k, n, cols)
  {
  }

  lemma BackwardRound(m: Mat, x: Mat, x': Mat, y: Mat, i: nat, k: nat, n: nat, cols: nat)
    requires i < k < n && RowsAgreeBut(x, x', i, n, cols) && Gains(x, x', i, k, -At(m, i, k), cols)
    requires BackwardAll(m, x, y, k, i, n, cols)
    ensures BackwardAll(m, x', y, k, i + 1, n, cols)
  {
    hide Backward, Gains, RowsAgreeBut;
    var i' := i + 1;
    forall r: nat | r < n ensures Backward(m, x', y, r, BackStage(r, k, i'), n, cols) {
      assert Backward(m, x, y, r, BackStage(r, k, i), n, cols);
      if r == i {
        BackwardGains(m, x, x', y, i, k, n, cols);
      } else {
        BackwardSame(m, x, x', y, r, BackStage(r, k, i), i, n, cols);
      }
    }
  }

  // ----- the solution -----

  lemma {:induction false} LowerRow(m: Mat, x: Mat, i: nat, t: nat, n: nat)
    requires Dim(m, |m|, |m|) && i < |m| && n <= |m|
    ensures Sum(Terms(LowerOf(m), x, i, t), n) == if i < n then At(x, i, t) + Below(m, x, i, t, i) else Below(m, x, i, t, n)
  {
    hide LowerOf;
    if n > 0 { LowerRow(m, x, i, t, n - 1); }
  }

  /** The rows before `i` contribute nothing to row `i` of U times x. */
  lemma {:induction false} UpperRow(m: Mat, x: Mat, i: nat, t: nat, n: nat)
    requires Dim(m, |m|, |m|) && i < |m| && n <= |m|
    ensures Sum(Terms(UpperOf(m), x, i, t), n) == Above(m, x, i, t, i, n)
  {
    hide UpperOf;
    if n > 0 {
      UpperRow(m, x, i, t, n - 1);
      AboveLast(m, x, i, t, i, n);
    }
  }

  lemma {:induction false} AboveLast(m: Mat, x: Mat, i: nat, t: nat, lo: nat, n: nat)
    requires n > 0
    ensures Above(m, x, i, t, lo, n) == Above(m, x, i, t, lo, n - 1) + if lo < n then At(m, i, n - 1) * At(x, n - 1, t) else 0.0
    decreases n - lo
  {
    if lo < n - 1 { AboveLast(m, x, i, t, lo + 1, n); }
  }

  lemma LowerSolved(m: Mat, y: Mat, pb: Mat, n: nat, cols: nat)
    requires Dim(m, n, n) && Dim(y, n, cols) && Dim(pb, n, cols)
    requires forall r: nat :: r < n ==> Forward(m, y, pb, r, r, cols)
    ensures Mul(LowerOf(m), y, n, n, cols) == pb
  {
    hide Mul, LowerOf, Below;
    forall i: nat, t: nat | i < n && t < cols ensures Mul(LowerOf(m), y, n, n, cols)[i][t] == pb[i][t] {
      LowerRow(m, y, i, t, n);
      assert Forward(m, y, pb, i, i, cols);
      assert At(y, i, t) + Below(m, y, i, t, Min(i, i)) == At(pb, i, t);
    }
    SameMat(Mul(LowerOf(m), y, n, n, cols), pb, n, cols);
  }

  lemma UpperSolved(m: Mat, x: Mat, y: Mat, n: nat, cols: nat)
    requires Dim(m, n, n) && Dim(x, n, cols) && Dim(y, n, cols)
    requires forall r: nat :: r < n ==> Backward(m, x, y, r, 0, n, cols)
    ensures Mul(UpperOf(m), x, n, n, cols) == y
  {
    hide Mul, UpperOf, Above;
    forall i: nat, t: nat | i < n && t < cols ensures Mul(UpperOf(m), x, n, n, cols)[i][t] == y[i][t] {
      UpperRow(m, x, i, t, n);
      assert Backward(m, x, y, i, 0, n, cols);
    }
    SameMat(Mul(UpperOf(m), x, n, n, cols), y, n, cols);
  }

  /** A product has the rows of its left factor. */
  lemma RowsOfProduct(a: Mat, x: Mat, piv: seq<nat>, n: nat, cols: nat)
    requires IsPerm(piv) && |piv| == n && Dim(a, n, n)
    ensures Mul(Rows(a, piv), x, n, n, cols) == Rows(Mul(a, x, n, n, cols), piv)
  {
    hide Mul;
    var left, right := Mul(Rows(a, piv), x, n, n, cols), Rows(Mul(a, x, n, n, cols), piv);
    forall i: nat, t: nat | i < n && t < cols ensures left[i][t] == right[i][t] {
      SumSame(Terms(Rows(a, piv), x, i, t), Terms(a, x, piv[i], t), n);
    }
    SameMat(left, right, n, cols);
  }

  /** Matrices whose permuted rows are the same are the same. */
  lemma RowsInjective(a: Mat, b: Mat, piv: seq<nat>, n: nat, cols: nat)
    requires IsPerm(piv) && |piv| == n && Dim(a, n, cols) && Dim(b, n, cols) && Rows(a, piv) == Rows(b, piv)
    ensures a == b
  {
    forall r: nat | r < n ensures a[r] == b[r] {
      var i := Reaches(piv, r);
      assert Rows(a, piv)[i] == Rows(b, piv)[i];
    }
  }

  lemma SolutionIsRight(a: Mat, m: Mat, piv: seq<nat>, b: Mat, y: Mat, x: Mat, n: nat, cols: nat)
    requires FactoredUpTo(a, m, piv, |m|) && |m| == n && Dim(b, n, cols) && Dim(x, n, cols)
    requires Mul(LowerOf(m), y, n, n, cols) == Rows(b, piv) && Mul(UpperOf(m), x, n, n, cols) == y
    ensures Mul(a, x, n, n, cols) == b
  {
    hide Mul, LowerOf, UpperOf, Rows, Factored;
    MulAssoc(LowerOf(m), UpperOf(m), x, n, n, n, cols);
    LowerTimesUpper(a, m, piv);
    RowsOfProduct(a, x, piv, n, cols);
    RowsInjective(Mul(a, x, n, n, cols), b, piv, n, cols);
  }

  /** What a caller knows about a factorisation: the arrays factorise some matrix `a`. */
  ghost predicate FactorsOf(a: Mat, lu: array2<real>, piv: array<nat>)
    reads lu, piv
  {
    && lu.Length0 == lu.Length1 == piv.Length == |a|
    && FactoredUpTo(a, Val(lu), piv[..], |a|)
  }

  /** Solves A x = b for every right hand side, given a factorisation of A without a zero pivot. */
  method Solve(ghost a: Mat, lu: array2<real>, piv: array<nat>, b: array2<real>) returns (x: array2<real>)
    requires FactorsOf(a, lu, piv) && b.Length0 == piv.Length
    requires forall k: nat :: k < lu.Length0 ==> lu[k, k] != 0.0
    ensures x.Length0 == b.Length0 && x.Length1 == b.Length1
    ensures Mul(a, Val(x), b.Length0, b.Length0, b.Length1) == Val(b)
  {
    hide FactoredUpTo, Val, Mul, Rows, Forward, Backward, LowerOf, UpperOf, IsPerm;
    x := Copy(b);
    PermFromFactors(a, Val(lu), piv[..]);
    Permute(b, piv, x);
    ghost var pb := Val(x);
    SubstituteForward(lu, x);
    ghost var y := Val(x);
    LowerSolved(Val(lu), y, pb, b.Length0, b.Length1);
    SubstituteBackward(lu, x);
    UpperSolved(Val(lu), Val(x), y, b.Length0, b.Length1);
    SolutionIsRight(a, Val(lu), piv[..], Val(b), y, Val(x), b.Length0, b.Length1);
  }

  lemma PermFromFactors(a: Mat, m: Mat, piv: seq<nat>)
    requires FactoredUpTo(a, m, piv, |a|)
    ensures IsPerm(piv) && |m| == |a|
  {
  }
}
