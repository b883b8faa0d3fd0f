/** Matrices of real numbers: products, identity, and the arrays that hold them. */
module Matrices {

  type Mat = seq<seq<real>>

  predicate Dim(m: Mat, rows: nat, cols: nat) {
    |m| == rows && forall i :: 0 <= i < rows ==> |m[i]| == cols
  }

  /** What an array holds. */
  function Val(a: array2<real>): (m: Mat)
    reads a
    ensures Dim(m, a.Length0, a.Length1)
    ensures forall i, j :: 0 <= i < a.Length0 && 0 <= j < a.Length1 ==> m[i][j] == a[i, j]
  {
    seq(a.Length0, (i: nat) requires i < a.Length0 reads a =>
      seq(a.Length1, (j: nat) requires j < a.Length1 reads a => a[i, j]))
  }

  function Abs(x: real): real { if x < 0.0 then -x else x }

  /** The sum of `f` over the first `n` naturals. */
  function Sum(f: nat -> real, n: nat): real {
    if n == 0 then 0.0 else Sum(f, n - 1) + f(n - 1)
  }

  lemma {:induction false} SumSame(f: nat -> real, g: nat -> real, n: nat)
    requires forall k: nat :: k < n ==> f(k) == g(k)
    ensures Sum(f, n) == Sum(g, n)
  {
    if n > 0 { SumSame(f, g, n - 1); }
  }

  lemma {:induction false} SumZero(f: nat -> real, n: nat)
    requires forall k: nat :: k < n ==> f(k) == 0.0
    ensures Sum(f, n) == 0.0
  {
    if n > 0 { SumZero(f, n - 1); }
  }

  /** A sum with one term that is not zero. */
  lemma {:induction false} SumSingle(f: nat -> real, n: nat, i: nat)
    requires i < n && forall k: nat :: k < n && k != i ==> f(k) == 0.0
    ensures Sum(f, n) == f(i)
  {
    if i == n - 1 { SumZero(f, n - 1); } else { SumSingle(f, n - 1, i); }
  }

  lemma {:induction false} SumScale(f: nat -> real, g: nat -> real, x: real, n: nat)
    requires forall k: nat :: k < n ==> g(k) == x * f(k)
    ensures Sum(g, n) == x * Sum(f, n)
  {
    if n > 0 { SumScale(f, g, x, n - 1); }
  }

  lemma {:induction false} SumPlus(f: nat -> real, g: nat -> real, h: nat -> real, n: nat)
    requires forall k: nat :: k < n ==> h(k) == f(k) + g(k)
    ensures Sum(h, n) == Sum(f, n) + Sum(g, n)
  {
    if n > 0 { SumPlus(f, g, h, n - 1); }
  }

  function Across(f: (nat, nat) -> real, i: nat): nat -> real { (j: nat) => f(i, j) }

  function Down(f: (nat, nat) -> real, j: nat): nat -> real { (i: nat) => f(i, j) }

  function Row(f: (nat, nat) -> real, n: nat): nat -> real { (i: nat) => Sum(Across(f, i), n) }

  function Column(f: (nat, nat) -> real, n: nat): nat -> real { (j: nat) => Sum(Down(f, j), n) }

  /** Summing by rows or by columns. */
  lemma {:induction false} SumSwap(f: (nat, nat) -> real, m: nat, n: nat)
    ensures Sum(Row(f, n), m) == Sum(Column(f, m), n)
  {
    if m == 0 {
      SumZero(Column(f, 0), n);
    } else {
      SumSwap(f, m - 1, n);
      SumPlus(Column(f, m - 1), Across(f, m - 1), Column(f, m), n);
    }
  }

  // ----- products -----

  function At(m: Mat, i: nat, j: nat): real { if i < |m| && j < |m[i]| then m[i][j] else 0.0 }

  function Terms(a: Mat, b: Mat, i: nat, j: nat): nat -> real { (k: nat) => At(a, i, k) * At(b, k, j) }

  /** The product of a matrix with `n` columns and one with `n` rows, `rows` by `cols`. */
  function Mul(a: Mat, b: Mat, rows: nat, n: nat, cols: nat): (m: Mat)
    ensures Dim(m, rows, cols)
    ensures forall i: nat, j: nat :: i < rows && j < cols ==> m[i][j] == Sum(Terms(a, b, i, j), n)
  {
    seq(rows, (i: nat) => seq(cols, (j: nat) => Sum(Terms(a, b, i, j), n)))
  }

  function Identity(n: nat): (m: Mat)
    ensures Dim(m, n, n)
    ensures forall i: nat, j: nat :: i < n && j < n ==> m[i][j] == if i == j then 1.0 else 0.0
  {
    seq(n, (i: nat) => seq(n, (j: nat) => if i == j then 1.0 else 0.0))
  }

  lemma SameMat(a: Mat, b: Mat, rows: nat, cols: nat)
    requires Dim(a, rows, cols) && Dim(b, rows, cols)
    requires forall i: nat, j: nat :: i < rows && j < cols ==> a[i][j] == b[i][j]
    ensures a == b
  {
    forall i | 0 <= i < rows ensures a[i] == b[i] {
    }
  }

  function Triple(a: Mat, b: Mat, c: Mat, i: nat, j: nat): (nat, nat) -> real {
    (k: nat, l: nat) => At(a, i, k) * At(b, k, l) * At(c, l, j)
  }

  lemma ProductEntry(a: Mat, b: Mat, rows: nat, n: nat, cols: nat, i: nat, j: nat)
    requires i < rows && j < cols
    ensures At(Mul(a, b, rows, n, cols), i, j) == Sum(Terms(a, b, i, j), n)
  {
  }

  lemma ThreeFactors(x: real, y: real, z: real)
    ensures x * y * z == z * (x * y) == x * (y * z)
  {
  }

  lemma Commute(x: real, y: real)
    ensures x * y == y * x
  {
  }

  lemma AssocLeft(a: Mat, b: Mat, c: Mat, rows: nat, m: nat, n: nat, cols: nat, i: nat, j: nat, l: nat)
    requires i < rows && j < cols && l < n
    ensures Terms(Mul(a, b, rows, m, n), c, i, j)(l) == Column(Triple(a, b, c, i, j), m)(l)
  {
    hide Mul, At, Sum;
    ProductEntry(a, b, rows, m, n, i, l);
    var z := At(c, l, j);
    forall k: nat | k < m ensures Down(Triple(a, b, c, i, j), l)(k) == z * Terms(a, b, i, l)(k) {
      ThreeFactors(At(a, i, k), At(b, k, l), z);
    }
    SumScale(Terms(a, b, i, l), Down(Triple(a, b, c, i, j), l), z, m);
    Commute(Sum(Terms(a, b, i, l), m), z);
  }

  lemma AssocRight(a: Mat, b: Mat, c: Mat, rows: nat, m: nat, n: nat, cols: nat, i: nat, j: nat, k: nat)
    requires i < rows && j < cols && k < m
    ensures Terms(a, Mul(b, c, m, n, cols), i, j)(k) == Row(Triple(a, b, c, i, j), n)(k)
  {
    hide Mul, At, Sum;
    ProductEntry(b, c, m, n, cols, k, j);
    var x := At(a, i, k);
    forall l: nat | l < n ensures Across(Triple(a, b, c, i, j), k)(l) == x * Terms(b, c, k, j)(l) {
      ThreeFactors(x, At(b, k, l), At(c, l, j));
    }
    SumScale(Terms(b, c, k, j), Across(Triple(a, b, c, i, j), k), x, n);
  }

  /** Matrix multiplication is associative. */
  lemma MulAssoc(a: Mat, b: Mat, c: Mat, rows: nat, m: nat, n: nat, cols: nat)
    ensures Mul(Mul(a, b, rows, m, n), c, rows, n, cols) == Mul(a, Mul(b, c, m, n, cols), rows, m, cols)
  {
    hide Mul, At;
    var left, right := Mul(Mul(a, b, rows, m, n), c, rows, n, cols), Mul(a, Mul(b, c, m, n, cols), rows, m, cols);
    forall i: nat, j: nat | i < rows && j < cols ensures left[i][j] == right[i][j] {
      forall l: nat | l < n
        ensures Terms(Mul(a, b, rows, m, n), c, i, j)(l) == Column(Triple(a, b, c, i, j), m)(l)
      {
        AssocLeft(a, b, c, rows, m, n, cols, i, j, l);
      }
      forall k: nat | k < m
        ensures Terms(a, Mul(b, c, m, n, cols), i, j)(k) == Row(Triple(a, b, c, i, j), n)(k)
      {
        AssocRight(a, b, c, rows, m, n, cols, i, j, k);
      }
      SumSame(Terms(Mul(a, b, rows, m, n), c, i, j), Column(Triple(a, b, c, i, j), m), n);
      SumSame(Terms(a, Mul(b, c, m, n, cols), i, j), Row(Triple(a, b, c, i, j), n), m);
      SumSwap(Triple(a, b, c, i, j), m, n);
    }
    SameMat(left, right, rows, cols);
  }
}
