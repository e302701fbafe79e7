/** Finite sums of reals and the little vector algebra shared by the recurrence models. */
module Sums {

  type Vec = seq<real>

  /** A product under a name, so that equal factors are seen to give equal products. */
  function Times(x: real, y: real): real { x * y }

  lemma TimesZero(x: real)
    ensures Times(0.0, x) == 0.0
  {}

  /** f(0) + ... + f(n-1) */
  function Sum(n: nat, f: int -> real): real {
    if n == 0 then 0.0 else Sum(n - 1, f) + f(n - 1)
  }

  lemma {:induction false} SumExt(n: nat, f: int -> real, g: int -> real)
    requires forall i | 0 <= i < n :: f(i) == g(i)
    ensures Sum(n, f) == Sum(n, g)
  {
    if n > 0 {
      SumExt(n - 1, f, g);
    }
  }

  /** Sums are linear: h = f + c * g termwise. */
  lemma {:induction false} SumLinear(n: nat, f: int -> real, c: real, g: int -> real, h: int -> real)
    requires forall i | 0 <= i < n :: h(i) == f(i) + Times(c, g(i))
    ensures Sum(n, h) == Sum(n, f) + Times(c, Sum(n, g))
  {
    if n > 0 {
      SumLinear(n - 1, f, c, g, h);
    }
  }

  function Scaled(c: real, g: int -> real): int -> real { i => Times(c, g(i)) }

  lemma {:induction false} SumScale(n: nat, c: real, g: int -> real, h: int -> real)
    requires forall i | 0 <= i < n :: h(i) == Times(c, g(i))
    ensures Sum(n, h) == Times(c, Sum(n, g))
  {
    SumZero(n, _ => 0.0);
    SumLinear(n, _ => 0.0, c, g, h);
  }

  lemma {:induction false} SumZero(n: nat, f: int -> real)
    requires forall i | 0 <= i < n :: f(i) == 0.0
    ensures Sum(n, f) == 0.0
  {
    if n > 0 {
      SumZero(n - 1, f);
    }
  }

  /** Terms past k that vanish can be dropped. */
  lemma {:induction false} SumTruncate(n: nat, k: nat, f: int -> real)
    requires k <= n
    requires forall i | k <= i < n :: f(i) == 0.0
    ensures Sum(n, f) == Sum(k, f)
  {
    if k < n {
      SumTruncate(n - 1, k, f);
    }
  }

  /** A sum with one non-zero term. */
  lemma {:induction false} SumSingle(n: nat, k: nat, f: int -> real)
    requires k < n
    requires forall i | 0 <= i < n && i != k :: f(i) == 0.0
    ensures Sum(n, f) == f(k)
  {
    SumTruncate(n, k + 1, f);
    SumZero(k, f);
  }

  function RowOf(f: (int, int) -> real, i: int): int -> real { j => f(i, j) }

  function ColOf(f: (int, int) -> real, j: int): int -> real { i => f(i, j) }

  /** Exchange of two finite sums: row(i) sums row i of f, col(j) sums column j. */
  lemma {:induction false} SumSwap(n: nat, m: nat, f: (int, int) -> real, row: int -> real, col: int -> real)
    requires forall i | 0 <= i < n :: row(i) == Sum(m, RowOf(f, i))
    requires forall j | 0 <= j < m :: col(j) == Sum(n, ColOf(f, j))
    ensures Sum(n, row) == Sum(m, col)
  {
    if n == 0 {
      SumZero(m, col);
    } else {
      var prev := j => Sum(n - 1, ColOf(f, j));
      SumSwap(n - 1, m, f, row, prev);
      SumLinear(m, prev, 1.0, RowOf(f, n - 1), col);
    }
  }

  /** Entry i of a vector, 0 past its end. */
  function At(a: Vec, i: int): real {
    if 0 <= i < |a| then a[i] else 0.0
  }

  function Coords(a: Vec): int -> real { i => At(a, i) }

  function DotTerms(a: Vec, b: Vec): int -> real { i => Times(At(a, i), At(b, i)) }

  function Dot(a: Vec, b: Vec): real {
    Sum(|a|, DotTerms(a, b))
  }

  /** a + c * b, in a's length */
  function AddScaled(a: Vec, c: real, b: Vec): Vec {
    seq(|a|, i requires 0 <= i < |a| => a[i] + Times(c, At(b, i)))
  }

  lemma DotSymmetric(a: Vec, b: Vec)
    requires |a| == |b|
    ensures Dot(a, b) == Dot(b, a)
  {
    SumExt(|a|, DotTerms(a, b), DotTerms(b, a));
  }

  lemma DotAddScaled(a: Vec, c: real, b: Vec, q: Vec)
    requires |a| == |b| == |q|
    ensures Dot(AddScaled(a, c, b), q) == Dot(a, q) + Times(c, Dot(b, q))
  {
    var s := AddScaled(a, c, b);
    forall i | 0 <= i < |a|
      ensures DotTerms(s, q)(i) == DotTerms(a, q)(i) + Times(c, DotTerms(b, q)(i))
    {
      Distribute(a[i], c, b[i], q[i]);
    }
    SumLinear(|a|, DotTerms(a, q), c, DotTerms(b, q), DotTerms(s, q));
  }

  lemma Distribute(a: real, c: real, b: real, q: real)
    ensures Times(a + Times(c, b), q) == Times(a, q) + Times(c, Times(b, q))
  {}

  // -------------------------------------------------------------------- matrices

  type Mat = seq<Vec>

  ghost predicate Shape(m: Mat, rows: nat, cols: nat) {
    |m| == rows && forall i | 0 <= i < rows :: |m[i]| == cols
  }

  ghost predicate AllZero(m: Mat, rows: nat, cols: nat) {
    Shape(m, rows, cols) && forall i, j | 0 <= i < rows && 0 <= j < cols :: m[i][j] == 0.0
  }

  function Entry(m: Mat, i: int, j: int): real {
    if 0 <= i < |m| then At(m[i], j) else 0.0
  }

  lemma SameEntries(a: Mat, b: Mat, rows: nat, cols: nat)
    requires Shape(a, rows, cols) && Shape(b, rows, cols)
    requires forall i, j | 0 <= i < rows && 0 <= j < cols :: Entry(a, i, j) == Entry(b, i, j)
    ensures a == b
  {
    forall i | 0 <= i < rows
      ensures a[i] == b[i]
    {
      assert forall j | 0 <= j < cols :: a[i][j] == Entry(a, i, j) == Entry(b, i, j) == b[i][j];
    }
  }
}
