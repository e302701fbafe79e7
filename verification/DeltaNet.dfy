/** DeltaNet for one batch and head over exact reals: the chunkwise WY form against the
    token-by-token delta rule.

    A recurrent state has one row per value channel, each a vector over the key channels,
    so state[j] is column j of the source's DK x DV tensor. */
module DeltaNet {
  import opened Sums
  import opened Wrappers
  import opened Blocks

  function Zeros(rows: nat, cols: nat): (m: Mat)
    ensures AllZero(m, rows, cols)
  {
    seq(rows, _ => seq(cols, _ => 0.0))
  }

  // ---------------------------------------------------------------- one token

  function Corrected(beta: real, v: real, read: real): real { beta * (v - read) }

  /** The corrected value beta * (v - S^T k) that one delta-rule step writes. */
  function Delta(k: Vec, v: Vec, beta: real, state: Mat): (d: Vec)
    ensures |d| == |state|
  {
    seq(|state|, j requires 0 <= j < |state| => Corrected(beta, At(v, j), Dot(state[j], k)))
  }

  function RankOneUpdate(k: Vec, d: Vec, state: Mat): Mat {
    seq(|state|, j requires 0 <= j < |state| => AddScaled(state[j], At(d, j), k))
  }

  /** One decode step: the output for q and the new state. */
  function DecodeStep(q: Vec, k: Vec, v: Vec, beta: real, state: Mat): (Vec, Mat) {
    var vNew := Delta(k, v, beta, state);
    var qk := Dot(q, k);
    (seq(|state|, j requires 0 <= j < |state| => Dot(state[j], q) + Times(qk, At(vNew, j))),
     RankOneUpdate(k, vNew, state))
  }

  // ------------------------------------------------------------ whole sequences

  /** The tensors of one sequence: q and k have dk channels, v has dv. */
  datatype Tokens = Tokens(q: Mat, k: Mat, v: Mat, beta: Vec) {
    ghost predicate Valid(n: nat, dk: nat, dv: nat) {
      Shape(q, n, dk) && Shape(k, n, dk) && Shape(v, n, dv) && |beta| == n
    }

    function Slice(lo: nat, hi: nat): Tokens
      requires lo <= hi <= |q| && |q| == |k| == |v| == |beta|
    {
      Tokens(q[lo..hi], k[lo..hi], v[lo..hi], beta[lo..hi])
    }
  }

  /** Outputs and final state of the first n tokens, one decode step at a time. */
  function TokenScan(t: Tokens, state: Mat, n: nat): (r: (Mat, Mat))
    requires n <= |t.q| && |t.q| == |t.k| == |t.v| == |t.beta|
    ensures |r.0| == n && |r.1| == |state|
  {
    if n == 0 then ([], state)
    else
      var (outs, s) := TokenScan(t, state, n - 1);
      var (o, s') := DecodeStep(t.q[n-1], t.k[n-1], t.v[n-1], t.beta[n-1], s);
      (outs + [o], s')
  }

  lemma {:induction false} TokenScanShape(t: Tokens, state: Mat, n: nat, len: nat, dk: nat, dv: nat)
    requires t.Valid(len, dk, dv) && Shape(state, dv, dk) && n <= len
    ensures Shape(TokenScan(t, state, n).1, dv, dk)
  {
    if n > 0 {
      TokenScanShape(t, state, n - 1, len, dk, dv);
    }
  }

  /** Scanning lo + n tokens is scanning lo and then n more from the state reached. */
  lemma {:induction false} TokenScanSplit(t: Tokens, state: Mat, lo: nat, hi: nat, n: nat)
    requires lo + n <= hi <= |t.q| && |t.q| == |t.k| == |t.v| == |t.beta|
    ensures var (outs, s) := TokenScan(t, state, lo);
            var (outs', s') := TokenScan(t.Slice(lo, hi), s, n);
            TokenScan(t, state, lo + n) == (outs + outs', s')
  {
    var (outs, s) := TokenScan(t, state, lo);
    if n == 0 {
      assert outs + [] == outs;
    } else {
      TokenScanSplit(t, state, lo, hi, n - 1);
      var (outs', s') := TokenScan(t.Slice(lo, hi), s, n - 1);
      var c := t.Slice(lo, hi);
      var o := DecodeStep(c.q[n-1], c.k[n-1], c.v[n-1], c.beta[n-1], s').0;
      assert (outs + outs') + [o] == outs + (outs' + [o]);
    }
  }

  // ------------------------------------------------------- the chunkwise kernel

  function ChunkValues(w: Mat, u: Mat, h: Mat): Mat {
    seq(|w|, n requires 0 <= n < |w| =>
      seq(|h|, j requires 0 <= j < |h| => Entry(u, n, j) - Dot(w[n], h[j])))
  }

  function ChunkOutput(q: Mat, k: Mat, vNew: Mat, h: Mat): Mat {
    seq(|q|, n requires 0 <= n < |q| =>
      seq(|h|, j requires 0 <= j < |h| =>
        Dot(q[n], h[j])
        + Sum(|k|, CausalWeights(q[n], k, vNew, n, j))))
  }

  /** Masked attention of query n over the chunk's keys, against column j of the values. */
  function CausalWeights(q: Vec, k: Mat, vNew: Mat, n: int, j: int): int -> real {
    m => Times(if 0 <= m <= n && m < |k| then Dot(q, k[m]) else 0.0, Entry(vNew, m, j))
  }

  function ChunkState(k: Mat, vNew: Mat, h: Mat): Mat {
    seq(|h|, j requires 0 <= j < |h| =>
      seq(|h[j]|, i requires 0 <= i < |h[j]| =>
        h[j][i] + Sum(|k|, StateTerms(k, vNew, i, j))))
  }

  function StateTerms(k: Mat, vNew: Mat, i: int, j: int): int -> real {
    m => Times(Entry(k, m, i), Entry(vNew, m, j))
  }

  /** The first c chunks of size bc: their outputs and the state after them. */
  function ChunkScan(q: Mat, k: Mat, w: Mat, u: Mat, h: Mat, bc: nat, c: nat): (r: (Mat, Mat))
    requires c * bc <= |q| && |q| == |k| == |w| == |u|
    ensures |r.1| == |h| && |r.0| == c * bc
  {
    if c == 0 then ([], h)
    else
      var i0, i1 := (c - 1) * bc, c * bc;
      assert i0 <= i1 && i1 - i0 == bc;
      var (outs, s) := ChunkScan(q, k, w, u, h, bc, c - 1);
      var vNew := ChunkValues(w[i0..i1], u[i0..i1], s);
      (outs + ChunkOutput(q[i0..i1], k[i0..i1], vNew, s), ChunkState(k[i0..i1], vNew, s))
  }

  method Kernel2(q: Mat, k: Mat, w: Mat, u: Mat, s0: Mat, bc: nat) returns (h: Mat, o: Mat)
    requires bc > 0 && |q| == |k| == |w| == |u|
    ensures |q| / bc * bc <= |q|
    ensures var (outs, s) := ChunkScan(q, k, w, u, s0, bc, |q| / bc);
            h == s && o == outs + Zeros(|q| - |q| / bc * bc, |s0|)
  {
    h := s0;
    o := Zeros(|q|, |s0|);
    var numChunks := |q| / bc;
    assert numChunks * bc <= |q|;
    for c := 0 to numChunks
      invariant |o| == |q| && c * bc <= |q|
      invariant var r := ChunkScan(q, k, w, u, s0, bc, c); h == r.1 && o[..c * bc] == r.0
      invariant o[c * bc..] == Zeros(|q| - c * bc, |s0|)
    {
      ChunkBounds(c, numChunks, bc);
      var i0, i1 := c * bc, (c + 1) * bc;
      var vNew := ChunkValues(w[i0..i1], u[i0..i1], h);
      var oc := ChunkOutput(q[i0..i1], k[i0..i1], vNew, h);
      ghost var before := o;
      o := o[..i0] + oc + o[i1..];
      h := ChunkState(k[i0..i1], vNew, h);
      assert o[..i1] == before[..i0] + oc;
      assert o[i1..] == before[i0..][bc..];
    }
  }

  lemma ChunkBounds(c: nat, n: nat, bc: nat)
    requires c < n
    ensures c * bc + bc == (c + 1) * bc <= n * bc
  {}

  // ------------------------------------------------ the WY representation

  /** I + tril(diag(beta) K K^T, -1): unit lower triangular. */
  function WyMatrix(k: Mat, beta: Vec): (a: Mat)
    ensures Shape(a, |k|, |k|)
  {
    seq(|k|, n requires 0 <= n < |k| =>
      seq(|k|, m requires 0 <= m < |k| =>
        if m == n then 1.0 else if m < n then Times(At(beta, n), Dot(k[n], k[m])) else 0.0))
  }

  ghost predicate UnitLower(a: Mat) {
    Shape(a, |a|, |a|)
    && forall n, m | 0 <= n < |a| && n <= m < |a| :: a[n][m] == if n == m then 1.0 else 0.0
  }

  function Identity(n: int, l: int): real { if n == l then 1.0 else 0.0 }

  /** Entry n of the product of a with the column x. */
  function RowDot(a: Mat, n: int, x: int -> real): real {
    Sum(|a|, Terms(a, n, x))
  }

  function Terms(a: Mat, n: int, x: int -> real): int -> real {
    m => Times(Entry(a, n, m), x(m))
  }

  function Column(x: Mat, l: int): int -> real {
    m => Entry(x, m, l)
  }

  /** x is a right inverse of a. */
  ghost predicate IsInverse(a: Mat, x: Mat) {
    Shape(x, |a|, |a|)
    && forall n, l | 0 <= n < |a| && 0 <= l < |a| ::
         RowDot(a, n, Column(x, l)) == Identity(n, l)
  }

  /** The first n rows of the inverse of a unit lower triangular matrix, by forward substitution. */
  function InverseRows(a: Mat, n: nat): (x: Mat)
    requires n <= |a|
    ensures Shape(x, n, |a|)
  {
    if n == 0 then []
    else
      var x := InverseRows(a, n - 1);
      x + [seq(|a|, l => Identity(n - 1, l) - Sum(n - 1, Terms(a, n - 1, Column(x, l))))]
  }

  function UnitLowerInverse(a: Mat): (x: Mat)
    ensures Shape(x, |a|, |a|)
  {
    InverseRows(a, |a|)
  }

  lemma {:induction false} InverseRowsPrefix(a: Mat, i: nat, n: nat)
    requires i <= n <= |a|
    ensures InverseRows(a, i) == InverseRows(a, n)[..i]
  {
    if i < n {
      InverseRowsPrefix(a, i, n - 1);
    }
  }

  /** Row n of a product with a unit lower triangular matrix only reads entries 0..n. */
  lemma {:induction false} RowDotLower(a: Mat, n: nat, x: int -> real)
    requires UnitLower(a) && n < |a|
    ensures RowDot(a, n, x) == Sum(n, Terms(a, n, x)) + x(n)
  {
    var f := Terms(a, n, x);
    forall m | n < m < |a|
      ensures f(m) == 0.0
    {
      assert a[n][m] == 0.0 == Entry(a, n, m);
      TimesZero(x(m));
    }
    assert a[n][n] == 1.0;
    SumTruncate(|a|, n + 1, f);
  }

  lemma InverseEntry(a: Mat, n: nat, l: nat)
    requires UnitLower(a) && n < |a| && l < |a|
    ensures RowDot(a, n, Column(UnitLowerInverse(a), l)) == Identity(n, l)
  {
    var x := UnitLowerInverse(a);
    var prev := InverseRows(a, n);
    InverseRowsPrefix(a, n, |a|);
    InverseRowsPrefix(a, n + 1, |a|);
    RowDotLower(a, n, Column(x, l));
    assert x[n] == InverseRows(a, n + 1)[n];
    forall m | 0 <= m < n
      ensures Terms(a, n, Column(x, l))(m) == Terms(a, n, Column(prev, l))(m)
    {
      assert x[m] == prev[m];
    }
    SumExt(n, Terms(a, n, Column(x, l)), Terms(a, n, Column(prev, l)));
  }

  /** Forward substitution does invert. */
  lemma UnitLowerInverseInverts(a: Mat)
    requires UnitLower(a)
    ensures IsInverse(a, UnitLowerInverse(a))
  {
    forall n, l | 0 <= n < |a| && 0 <= l < |a|
      ensures RowDot(a, n, Column(UnitLowerInverse(a), l)) == Identity(n, l)
    {
      InverseEntry(a, n, l);
    }
  }

  /** A unit lower triangular system has at most one solution. */
  lemma {:induction false} SolutionUnique(a: Mat, x: int -> real, y: int -> real, n: nat)
    requires UnitLower(a) && n <= |a|
    requires forall i | 0 <= i < |a| :: RowDot(a, i, x) == RowDot(a, i, y)
    ensures forall i | 0 <= i < n :: x(i) == y(i)
  {
    if n > 0 {
      var i := n - 1;
      SolutionUnique(a, x, y, i);
      RowDotLower(a, i, x);
      RowDotLower(a, i, y);
      SumExt(i, Terms(a, i, x), Terms(a, i, y));
    }
  }

  /** Whatever inverse a solver returns, it is the one forward substitution computes. */
  lemma InverseUnique(a: Mat, x: Mat)
    requires UnitLower(a) && IsInverse(a, x)
    ensures x == UnitLowerInverse(a)
  {
    var y := UnitLowerInverse(a);
    UnitLowerInverseInverts(a);
    forall n, l | 0 <= n < |a| && 0 <= l < |a|
      ensures x[n][l] == y[n][l]
    {
      SolutionUnique(a, Column(x, l), Column(y, l), |a|);
      assert Column(x, l)(n) == Column(y, l)(n);
    }
    assert forall n | 0 <= n < |a| :: x[n] == y[n];
  }

  function Triple(a: Mat, x: Mat, r: int -> real, n: int): (int, int) -> real {
    (m, l) => Times(Entry(a, n, m), Times(Entry(x, m, l), r(l)))
  }

  lemma {:induction false} TripleRow(a: Mat, x: Mat, r: int -> real, n: int, m: int)
    requires |x| == |a|
    ensures Sum(|a|, RowOf(Triple(a, x, r, n), m)) == Times(Entry(a, n, m), RowDot(x, m, r))
  {
    SumScale(|a|, Entry(a, n, m), Terms(x, m, r), RowOf(Triple(a, x, r, n), m));
  }

  lemma {:induction false} TripleColumn(a: Mat, x: Mat, r: int -> real, n: int, l: int)
    ensures Sum(|a|, ColOf(Triple(a, x, r, n), l)) == Times(r(l), RowDot(a, n, Column(x, l)))
  {
    var f, col := ColOf(Triple(a, x, r, n), l), Terms(a, n, Column(x, l));
    forall m
      ensures f(m) == Times(r(l), col(m))
    {
      Regroup(Entry(a, n, m), Entry(x, m, l), r(l));
    }
    SumScale(|a|, r(l), col, f);
  }

  lemma Regroup(x: real, y: real, z: real)
    ensures Times(x, Times(y, z)) == Times(z, Times(x, y))
  {}

  /** a * (x * r) = r when x inverts a. */
  lemma InverseApplies(a: Mat, x: Mat, r: int -> real, n: nat)
    requires IsInverse(a, x) && n < |a|
    ensures RowDot(a, n, m => RowDot(x, m, r)) == r(n)
  {
    var row := Terms(a, n, m => RowDot(x, m, r));
    var col := l => Sum(|a|, ColOf(Triple(a, x, r, n), l));
    forall m
      ensures row(m) == Sum(|a|, RowOf(Triple(a, x, r, n), m))
    {
      TripleRow(a, x, r, n, m);
    }
    SumSwap(|a|, |a|, Triple(a, x, r, n), row, col);
    forall l | 0 <= l < |a|
      ensures col(l) == Times(r(l), Identity(n, l))
    {
      TripleColumn(a, x, r, n, l);
    }
    SumSingle(|a|, n, col);
  }

  /** diag(beta) y */
  function ScaledRows(y: Mat, beta: Vec): Mat {
    seq(|y|, n requires 0 <= n < |y| => ScaledRow(y[n], At(beta, n)))
  }

  function ScaledRow(y: Vec, b: real): Vec {
    seq(|y|, d requires 0 <= d < |y| => Times(y[d], b))
  }

  /** Block diagonal product: rows of block c of a combine the rows of block c of y. */
  function BlockMul(a: Mat, y: Mat, bc: nat): Mat
    requires bc > 0
  {
    seq(|y|, s requires 0 <= s < |y| =>
      seq(|y[s]|, d requires 0 <= d < |y[s]| => Sum(bc, BlockTerms(a, y, s, d, s / bc * bc))))
  }

  function BlockTerms(a: Mat, y: Mat, s: int, d: int, base: int): int -> real {
    m => Times(Entry(a, s, m), Entry(y, base + m, d))
  }

  function ComputeWU(aw: Mat, au: Mat, k: Mat, v: Mat, beta: Vec, bc: nat): (Mat, Mat)
    requires bc > 0
  {
    (BlockMul(aw, ScaledRows(k, beta), bc), BlockMul(au, ScaledRows(v, beta), bc))
  }

  /** w comes from the first inverse and the keys, u from the second and the values. */
  lemma WUApart(aw: Mat, au: Mat, k: Mat, v: Mat, beta: Vec, bc: nat, aw': Mat, au': Mat, k': Mat, v': Mat)
    requires bc > 0
    ensures ComputeWU(aw, au, k, v, beta, bc).0 == ComputeWU(aw, au', k, v', beta, bc).0
    ensures ComputeWU(aw, au, k, v, beta, bc).1 == ComputeWU(aw', au, k', v, beta, bc).1
  {}

  /** The inverses of the first c chunks' WY matrices, stacked. */
  function WyBlocks(k: Mat, beta: Vec, bc: nat, c: nat): (a: Mat)
    requires c * bc <= |k| == |beta|
    ensures |a| == c * bc
  {
    if c == 0 then []
    else
      var i0, i1 := (c - 1) * bc, c * bc;
      assert i0 <= i1 && i1 - i0 == bc;
      WyBlocks(k, beta, bc, c - 1) + UnitLowerInverse(WyMatrix(k[i0..i1], beta[i0..i1]))
  }

  /** None when the length is not a whole number of chunks. */
  method PrepareWy(k: Mat, beta: Vec, bc: nat) returns (r: Option<(Mat, Mat)>)
    requires bc > 0 && |k| == |beta|
    ensures r.Some? <==> |k| % bc == 0
    ensures r.Some? ==> |k| / bc * bc == |k| && r.value == (WyBlocks(k, beta, bc, |k| / bc), WyBlocks(k, beta, bc, |k| / bc))
  {
    if |k| % bc != 0 {
      return None;
    }
    var aw, au := Zeros(|k|, bc), Zeros(|k|, bc);
    var numChunks := |k| / bc;
    assert numChunks * bc == |k|;
    for c := 0 to numChunks
      invariant |aw| == |k| && c * bc <= |k| && au == aw
      invariant aw[..c * bc] == WyBlocks(k, beta, bc, c)
    {
      ChunkBounds(c, numChunks, bc);
      var i0, i1 := c * bc, (c + 1) * bc;
      var inv := UnitLowerInverse(WyMatrix(k[i0..i1], beta[i0..i1]));
      au := au[..i0] + inv + au[i1..];
      aw := aw[..i0] + inv + aw[i1..];
      assert aw[..i1] == aw[..i0] + inv;
    }
    assert aw[..numChunks * bc] == aw;
    r := Some((aw, au));
  }

  // ------------------------------------- one chunk computes what its tokens do

  /** One value channel of a token-by-token run: s[m] is the state row before token m and d[m]
      the corrected value token m writes. */
  datatype Channel = Channel(k: Mat, v: Vec, beta: Vec, s: Mat, d: Vec) {
    ghost predicate Dims(n: nat, dk: nat) {
      Shape(k, n, dk) && |v| == |beta| == |d| == n && Shape(s, n + 1, dk)
    }

    ghost predicate Valid(n: nat, dk: nat) {
      && Dims(n, dk)
      && (forall m | 0 <= m < n :: d[m] == Corrected(beta[m], v[m], Dot(s[m], k[m])))
      && (forall m | 0 <= m < n :: s[m + 1] == AddScaled(s[m], d[m], k[m]))
    }

    function KeyDots(x: Vec): int -> real {
      m => Times(At(d, m), if 0 <= m < |k| then Dot(k[m], x) else 0.0)
    }

    function KeyEntries(i: int): int -> real {
      m => Times(Entry(k, m, i), At(d, m))
    }

    /** What the corrected values would be if no token saw another. */
    function Rhs(): int -> real {
      m => if 0 <= m < |k| && |s| > 0 then Corrected(At(beta, m), At(v, m), Dot(s[0], k[m])) else 0.0
    }
  }

  /** The state row before token n, read against x. */
  lemma {:induction false} StateDot(c: Channel, len: nat, n: nat, x: Vec)
    requires c.Valid(len, |x|) && n <= len
    ensures Dot(c.s[n], x) == Dot(c.s[0], x) + Sum(n, c.KeyDots(x))
  {
    if n > 0 {
      StateDot(c, len, n - 1, x);
      assert c.s[n] == AddScaled(c.s[n - 1], c.d[n - 1], c.k[n - 1]);
      DotAddScaled(c.s[n - 1], c.d[n - 1], c.k[n - 1], x);
    }
  }

  lemma {:induction false} StateEntry(c: Channel, len: nat, dk: nat, n: nat, i: nat)
    requires c.Valid(len, dk) && n <= len && i < dk
    ensures c.s[n][i] == c.s[0][i] + Sum(n, c.KeyEntries(i))
  {
    if n > 0 {
      StateEntry(c, len, dk, n - 1, i);
      assert c.s[n] == AddScaled(c.s[n - 1], c.d[n - 1], c.k[n - 1]);
    }
  }

  lemma WyTerm(c: Channel, len: nat, dk: nat, n: nat, m: nat)
    requires c.Dims(len, dk) && m < n < len
    ensures Terms(WyMatrix(c.k, c.beta), n, Coords(c.d))(m) == Times(c.beta[n], c.KeyDots(c.k[n])(m))
  {
    var a := WyMatrix(c.k, c.beta);
    assert Entry(a, n, m) == Times(c.beta[n], Dot(c.k[n], c.k[m]));
    DotSymmetric(c.k[n], c.k[m]);
    Regroup3(c.beta[n], Dot(c.k[n], c.k[m]), c.d[m]);
  }

  lemma WyUnitLower(k: Mat, beta: Vec)
    ensures UnitLower(WyMatrix(k, beta))
  {}

  lemma Regroup3(x: real, y: real, z: real)
    ensures Times(Times(x, y), z) == Times(x, Times(z, y))
  {}

  /** A correction b * (v - (d0 + sum g)) cancels the scaled terms f = b * g. */
  lemma {:induction false} Cancel(n: nat, f: int -> real, g: int -> real, b: real, v: real, d0: real, dn: real)
    requires forall m | 0 <= m < n :: f(m) == Times(b, g(m))
    requires dn == Corrected(b, v, d0 + Sum(n, g))
    ensures Sum(n, f) + dn == Corrected(b, v, d0)
  {
    SumScale(n, b, g, f);
    Expand(b, v, d0, Sum(n, g));
  }

  lemma Expand(b: real, v: real, d: real, s: real)
    ensures b * s + b * (v - (d + s)) == b * (v - d)
  {}

  lemma {:induction false} WyRow(c: Channel, len: nat, dk: nat, n: nat, dots: real)
    requires c.Dims(len, dk) && n < len
    requires dots == Dot(c.s[0], c.k[n]) + Sum(n, c.KeyDots(c.k[n]))
    requires c.d[n] == Corrected(c.beta[n], c.v[n], dots)
    ensures Sum(n, Terms(WyMatrix(c.k, c.beta), n, Coords(c.d))) + c.d[n] == c.Rhs()(n)
  {
    var f, g, b := Terms(WyMatrix(c.k, c.beta), n, Coords(c.d)), c.KeyDots(c.k[n]), c.beta[n];
    forall m | 0 <= m < n
      ensures f(m) == Times(b, g(m))
    {
      WyTerm(c, len, dk, n, m);
    }
    Cancel(n, f, g, b, c.v[n], Dot(c.s[0], c.k[n]), c.d[n]);
  }

  /** The token-by-token values solve the WY system. */
  lemma TokensSolveWy(c: Channel, len: nat, dk: nat, n: nat)
    requires c.Valid(len, dk) && n < len
    ensures RowDot(WyMatrix(c.k, c.beta), n, Coords(c.d)) == c.Rhs()(n)
  {
    StateDot(c, len, n, c.k[n]);
    WyRow(c, len, dk, n, Dot(c.s[n], c.k[n]));
    WyUnitLower(c.k, c.beta);
    RowDotLower(WyMatrix(c.k, c.beta), n, Coords(c.d));
  }

  lemma ScaledRowTerm(y: Mat, beta: Vec, l: nat, z: Vec, i: nat)
    requires l < |y| == |beta| && i < |y[l]| == |z|
    ensures DotTerms(ScaledRows(y, beta)[l], z)(i) == Times(beta[l], DotTerms(y[l], z)(i))
  {
    assert ScaledRows(y, beta)[l][i] == Times(y[l][i], At(beta, l));
    Commute(y[l][i], beta[l], z[i]);
  }

  lemma Commute(y: real, b: real, z: real)
    ensures Times(Times(y, b), z) == Times(b, Times(y, z))
  {}

  lemma ScaledRowDot(y: Mat, beta: Vec, l: nat, z: Vec)
    requires l < |y| == |beta| && |y[l]| == |z|
    ensures Dot(ScaledRows(y, beta)[l], z) == Times(beta[l], Dot(y[l], z))
  {
    hide Times;
    var r := ScaledRows(y, beta)[l];
    forall i | 0 <= i < |z|
      ensures DotTerms(r, z)(i) == Times(beta[l], DotTerms(y[l], z)(i))
    {
      ScaledRowTerm(y, beta, l, z, i);
    }
    SumScale(|z|, beta[l], DotTerms(y[l], z), DotTerms(r, z));
  }

  function MixDots(x: Mat, n: int, y: Mat, z: Vec): int -> real {
    l => if 0 <= l < |y| then Times(Entry(x, n, l), Dot(y[l], z)) else 0.0
  }

  function MixTriple(x: Mat, n: int, y: Mat, z: Vec): (int, int) -> real {
    (i, l) => Times(At(z, i), Times(Entry(x, n, l), Entry(y, l, i)))
  }

  /** Row n of x y. */
  function MixRow(x: Mat, n: int, y: Mat, dim: nat): Vec {
    seq(dim, i => Sum(|y|, BlockTerms(x, y, n, i, 0)))
  }

  lemma MixTerm(x: Mat, n: int, y: Mat, z: Vec, i: nat, l: int)
    requires i < |z|
    ensures RowOf(MixTriple(x, n, y, z), i)(l) == Times(z[i], BlockTerms(x, y, n, i, 0)(l))
  {
    assert At(z, i) == z[i];
  }

  lemma {:induction false} MixEntry(x: Mat, n: int, y: Mat, z: Vec, i: nat)
    requires i < |z|
    ensures Times(At(MixRow(x, n, y, |z|), i), z[i]) == Sum(|y|, RowOf(MixTriple(x, n, y, z), i))
  {
    forall l | 0 <= l < |y|
      ensures RowOf(MixTriple(x, n, y, z), i)(l) == Times(z[i], BlockTerms(x, y, n, i, 0)(l))
    {
      MixTerm(x, n, y, z, i, l);
    }
    SumScale(|y|, z[i], BlockTerms(x, y, n, i, 0), RowOf(MixTriple(x, n, y, z), i));
    assert MixRow(x, n, y, |z|)[i] == Sum(|y|, BlockTerms(x, y, n, i, 0));
  }

  lemma {:induction false} MixColumn(x: Mat, n: int, y: Mat, z: Vec, l: nat)
    requires l < |y| && |y[l]| == |z|
    ensures MixDots(x, n, y, z)(l) == Sum(|z|, ColOf(MixTriple(x, n, y, z), l))
  {
    var g := DotTerms(y[l], z);
    forall i | 0 <= i < |z|
      ensures ColOf(MixTriple(x, n, y, z), l)(i) == Times(Entry(x, n, l), g(i))
    {
      Regroup(z[i], Entry(x, n, l), y[l][i]);
      Associate(y[l][i], z[i], Entry(x, n, l));
    }
    SumScale(|z|, Entry(x, n, l), g, ColOf(MixTriple(x, n, y, z), l));
  }

  lemma Associate(y: real, z: real, x: real)
    ensures Times(y, Times(z, x)) == Times(x, Times(y, z))
  {}

  /** Reading a combination of rows against z combines the rows' readings. */
  lemma {:induction false} MixDot(x: Mat, n: int, y: Mat, z: Vec)
    requires Shape(y, |y|, |z|)
    ensures Dot(MixRow(x, n, y, |z|), z) == Sum(|y|, MixDots(x, n, y, z))
  {
    var w, f := MixRow(x, n, y, |z|), MixTriple(x, n, y, z);
    var row := DotTerms(w, z);
    forall i | 0 <= i < |z|
      ensures row(i) == Sum(|y|, RowOf(f, i))
    {
      MixEntry(x, n, y, z, i);
    }
    forall l | 0 <= l < |y|
      ensures MixDots(x, n, y, z)(l) == Sum(|z|, ColOf(f, l))
    {
      MixColumn(x, n, y, z, l);
    }
    SumSwap(|z|, |y|, f, row, MixDots(x, n, y, z));
  }

  /** Row n of the inverse times the scaled values of one channel. */
  function ValueTerms(c: Channel, x: Mat, n: int): int -> real {
    l => Times(Entry(x, n, l), Times(At(c.v, l), At(c.beta, l)))
  }

  lemma ChunkTerm(c: Channel, len: nat, dk: nat, x: Mat, n: nat, l: nat)
    requires c.Dims(len, dk) && l < len
    ensures Terms(x, n, c.Rhs())(l)
         == ValueTerms(c, x, n)(l) + Times(-1.0, MixDots(x, n, ScaledRows(c.k, c.beta), c.s[0])(l))
  {
    hide Times, Corrected, Dot;
    ScaledRowDot(c.k, c.beta, l, c.s[0]);
    DotSymmetric(c.s[0], c.k[l]);
    Difference(Entry(x, n, l), c.v[l], c.beta[l], Dot(c.s[0], c.k[l]));
  }

  /** The chunk kernel's corrected value, u - w.s: the inverse applied to the right-hand sides.
      u and w are row n of the inverse times the scaled values and the scaled keys. */
  lemma {:induction false} ChunkValue(c: Channel, len: nat, dk: nat, x: Mat, n: nat)
    requires c.Dims(len, dk) && n < len == |x|
    ensures Sum(len, ValueTerms(c, x, n)) - Dot(MixRow(x, n, ScaledRows(c.k, c.beta), dk), c.s[0])
         == RowDot(x, n, c.Rhs())
  {
    var kb, h := ScaledRows(c.k, c.beta), c.s[0];
    MixDot(x, n, kb, h);
    forall l | 0 <= l < len
      ensures Terms(x, n, c.Rhs())(l) == ValueTerms(c, x, n)(l) + Times(-1.0, MixDots(x, n, kb, h)(l))
    {
      ChunkTerm(c, len, dk, x, n, l);
    }
    SumLinear(len, ValueTerms(c, x, n), -1.0, MixDots(x, n, kb, h), Terms(x, n, c.Rhs()));
  }

  lemma Difference(x: real, v: real, b: real, d: real)
    ensures Times(x, Corrected(b, v, d)) == Times(x, Times(v, b)) + Times(-1.0, Times(x, Times(b, d)))
  {}

  /** With the WY inverse, the chunk kernel's corrected values are the token-by-token ones. */
  lemma ChunkValuesAreTokenValues(c: Channel, len: nat, dk: nat, y: Vec)
    requires c.Valid(len, dk) && |y| == len
    requires forall n | 0 <= n < len :: y[n] == RowDot(UnitLowerInverse(WyMatrix(c.k, c.beta)), n, c.Rhs())
    ensures y == c.d
  {
    var a := WyMatrix(c.k, c.beta);
    var x := UnitLowerInverse(a);
    WyUnitLower(c.k, c.beta);
    UnitLowerInverseInverts(a);
    forall n | 0 <= n < len
      ensures RowDot(a, n, Coords(y)) == RowDot(a, n, Coords(c.d))
    {
      InverseApplies(a, x, c.Rhs(), n);
      SumExt(len, Terms(a, n, Coords(y)), Terms(a, n, m => RowDot(x, m, c.Rhs())));
      TokensSolveWy(c, len, dk, n);
    }
    SolutionUnique(a, Coords(y), Coords(c.d), len);
    assert forall n | 0 <= n < len :: y[n] == Coords(y)(n) == Coords(c.d)(n) == c.d[n];
  }

  /** Value channel j of a token-by-token run from state h. */
  function TraceChannel(t: Tokens, h: Mat, j: nat): Channel
    requires |t.q| == |t.k| == |t.v| == |t.beta| && j < |h|
  {
    var n := |t.q|;
    Channel(t.k, seq(n, m requires 0 <= m < n => Entry(t.v, m, j)), t.beta,
            seq(n + 1, m requires 0 <= m <= n => TokenScan(t, h, m).1[j]),
            seq(n, m requires 0 <= m < n => At(Delta(t.k[m], t.v[m], t.beta[m], TokenScan(t, h, m).1), j)))
  }

  lemma RowUpdate(k: Vec, v: Vec, beta: real, s: Mat, j: nat)
    requires j < |s|
    ensures var d := Delta(k, v, beta, s);
            && d[j] == Corrected(beta, At(v, j), Dot(s[j], k))
            && RankOneUpdate(k, d, s)[j] == AddScaled(s[j], d[j], k)
  {}

  lemma TraceStep(t: Tokens, h: Mat, j: nat, m: nat)
    requires m < |t.q| && |t.q| == |t.k| == |t.v| == |t.beta| && j < |h|
    ensures var c := TraceChannel(t, h, j);
            && c.s[m + 1] == AddScaled(c.s[m], c.d[m], c.k[m])
            && c.d[m] == Corrected(c.beta[m], c.v[m], Dot(c.s[m], c.k[m]))
  {
    hide Times, Corrected, RankOneUpdate, Delta, Dot, AddScaled;
    RowUpdate(t.k[m], t.v[m], t.beta[m], TokenScan(t, h, m).1, j);
  }

  lemma TraceChannelValid(t: Tokens, h: Mat, j: nat, len: nat, dk: nat, dv: nat)
    requires t.Valid(len, dk, dv) && Shape(h, dv, dk) && j < dv
    ensures TraceChannel(t, h, j).Valid(len, dk) && TraceChannel(t, h, j).s[0] == h[j]
  {
    var c := TraceChannel(t, h, j);
    forall m | 0 <= m <= len
      ensures |c.s[m]| == dk
    {
      TokenScanShape(t, h, m, len, dk, dv);
    }
    forall m | 0 <= m < len
      ensures c.s[m + 1] == AddScaled(c.s[m], c.d[m], c.k[m])
      ensures c.d[m] == Corrected(c.beta[m], c.v[m], Dot(c.s[m], c.k[m]))
    {
      TraceStep(t, h, j, m);
    }
  }

  /** The inverse, w and u that the WY preparation gives a single chunk. */
  function ChunkWU(t: Tokens): (Mat, Mat)
    requires |t.k| > 0
  {
    var x := UnitLowerInverse(WyMatrix(t.k, t.beta));
    ComputeWU(x, x, t.k, t.v, t.beta, |t.k|)
  }

  lemma {:induction false} ChunkURow(x: Mat, v: Mat, beta: Vec, n: nat, j: nat, c: Channel)
    requires n < |v| == |beta| == |c.v| && c.beta == beta && j < |v[n]|
    requires forall m | 0 <= m < |v| :: c.v[m] == Entry(v, m, j) && j < |v[m]|
    ensures Entry(BlockMul(x, ScaledRows(v, beta), |v|), n, j) == Sum(|v|, ValueTerms(c, x, n))
  {
    var y := ScaledRows(v, beta);
    assert n / |v| == 0;
    forall l | 0 <= l < |v|
      ensures Entry(y, l, j) == Times(At(c.v, l), At(c.beta, l))
    {
      assert y[l][j] == Times(v[l][j], At(beta, l));
    }
    assert BlockMul(x, y, |v|)[n][j] == Sum(|v|, BlockTerms(x, y, n, j, 0));
    SumExt(|v|, BlockTerms(x, y, n, j, 0), ValueTerms(c, x, n));
  }

  lemma ChunkWRow(x: Mat, k: Mat, beta: Vec, n: nat, dk: nat)
    requires n < |k| && Shape(k, |k|, dk)
    ensures BlockMul(x, ScaledRows(k, beta), |k|)[n] == MixRow(x, n, ScaledRows(k, beta), dk)
  {
    assert n / |k| == 0;
  }

  lemma ChunkValuesAt(w: Mat, u: Mat, h: Mat, n: nat, j: nat)
    requires n < |w| && j < |h|
    ensures Entry(ChunkValues(w, u, h), n, j) == Entry(u, n, j) - Dot(w[n], h[j])
  {
    assert ChunkValues(w, u, h)[n][j] == Entry(u, n, j) - Dot(w[n], h[j]);
  }

  lemma ChunkEntry(t: Tokens, h: Mat, n: nat, j: nat, len: nat, dk: nat, dv: nat)
    requires t.Valid(len, dk, dv) && Shape(h, dv, dk) && n < len && j < dv
    ensures var (w, u) := ChunkWU(t);
            Entry(ChunkValues(w, u, h), n, j)
            == RowDot(UnitLowerInverse(WyMatrix(t.k, t.beta)), n, TraceChannel(t, h, j).Rhs())
  {
    hide Times, Corrected, ChunkValues, TokenScan, WyMatrix, InverseRows;
    var x, c := UnitLowerInverse(WyMatrix(t.k, t.beta)), TraceChannel(t, h, j);
    var (w, u) := ChunkWU(t);
    ChunkValuesAt(w, u, h, n, j);
    assert Entry(u, n, j) == Sum(len, ValueTerms(c, x, n)) by {
      ChunkURow(x, t.v, t.beta, n, j, c);
    }
    assert w[n] == MixRow(x, n, ScaledRows(t.k, t.beta), dk) by {
      ChunkWRow(x, t.k, t.beta, n, dk);
    }
    assert c.Dims(len, dk) && c.s[0] == h[j] by {
      TraceChannelValid(t, h, j, len, dk, dv);
    }
    ChunkValue(c, len, dk, x, n);
  }

  /** Column j of the chunk kernel's corrected values is what the tokens write on channel j. */
  lemma ChunkColumn(t: Tokens, h: Mat, j: nat, len: nat, dk: nat, dv: nat)
    requires t.Valid(len, dk, dv) && Shape(h, dv, dk) && 0 < len && j < dv
    ensures var (w, u) := ChunkWU(t);
            forall n | 0 <= n < len :: Entry(ChunkValues(w, u, h), n, j) == TraceChannel(t, h, j).d[n]
  {
    hide ChunkWU, ChunkValues, TokenScan, UnitLowerInverse, WyMatrix, RowDot, Delta;
    var c := TraceChannel(t, h, j);
    var (w, u) := ChunkWU(t);
    var y := seq(len, n => Entry(ChunkValues(w, u, h), n, j));
    forall n | 0 <= n < len
      ensures y[n] == RowDot(UnitLowerInverse(WyMatrix(t.k, t.beta)), n, c.Rhs())
    {
      ChunkEntry(t, h, n, j, len, dk, dv);
    }
    TraceChannelValid(t, h, j, len, dk, dv);
    ChunkValuesAreTokenValues(c, len, dk, y);
    assert forall n | 0 <= n < len :: Entry(ChunkValues(w, u, h), n, j) == y[n];
  }

  lemma CausalTerm(c: Channel, len: nat, q: Vec, vNew: Mat, n: nat, j: nat, m: nat)
    requires c.Dims(len, |q|) && n < len && m < len
    requires Entry(vNew, m, j) == c.d[m]
    ensures CausalWeights(q, c.k, vNew, n, j)(m) == if m <= n then c.KeyDots(q)(m) else 0.0
  {
    DotSymmetric(q, c.k[m]);
  }

  lemma {:induction false} CausalTerms(c: Channel, len: nat, q: Vec, vNew: Mat, n: nat, j: nat)
    requires c.Dims(len, |q|) && n < len
    requires forall m | 0 <= m < len :: Entry(vNew, m, j) == c.d[m]
    ensures Sum(len, CausalWeights(q, c.k, vNew, n, j)) == Sum(n + 1, c.KeyDots(q))
  {
    var f := CausalWeights(q, c.k, vNew, n, j);
    forall m | 0 <= m < len
      ensures f(m) == if m <= n then c.KeyDots(q)(m) else 0.0
    {
      CausalTerm(c, len, q, vNew, n, j, m);
    }
    SumTruncate(len, n + 1, f);
    SumExt(n + 1, f, c.KeyDots(q));
  }

  lemma {:induction false} TokenOutput(t: Tokens, h: Mat, m: nat, n: nat)
    requires m < n <= |t.q| && |t.q| == |t.k| == |t.v| == |t.beta|
    ensures TokenScan(t, h, n).0[m] == DecodeStep(t.q[m], t.k[m], t.v[m], t.beta[m], TokenScan(t, h, m).1).0
  {
    if m < n - 1 {
      TokenOutput(t, h, m, n - 1);
    }
  }

  /** What a token outputs on channel j, over the keys up to and including its own. */
  lemma {:induction false} TokenOutputEntry(t: Tokens, h: Mat, n: nat, j: nat, len: nat, dk: nat, dv: nat)
    requires t.Valid(len, dk, dv) && Shape(h, dv, dk) && n < len && j < dv
    ensures Entry(TokenScan(t, h, len).0, n, j)
         == Dot(h[j], t.q[n]) + Sum(n + 1, TraceChannel(t, h, j).KeyDots(t.q[n]))
  {
    var c, s := TraceChannel(t, h, j), TokenScan(t, h, n).1;
    var d := At(Delta(t.k[n], t.v[n], t.beta[n], s), j);
    assert Dot(s[j], t.q[n]) == Dot(h[j], t.q[n]) + Sum(n, c.KeyDots(t.q[n])) by {
      TraceChannelValid(t, h, j, len, dk, dv);
      StateDot(c, len, n, t.q[n]);
    }
    assert Entry(TokenScan(t, h, len).0, n, j) == Dot(s[j], t.q[n]) + Times(Dot(t.q[n], t.k[n]), d) by {
      TokenOutput(t, h, n, len);
      DecodeOutput(t.q[n], t.k[n], t.v[n], t.beta[n], s, j);
    }
    assert c.KeyDots(t.q[n])(n) == Times(d, Dot(t.q[n], t.k[n])) by {
      DotSymmetric(t.q[n], t.k[n]);
      assert At(c.d, n) == d;
    }
  }

  lemma DecodeOutput(q: Vec, k: Vec, v: Vec, beta: real, s: Mat, j: nat)
    requires j < |s|
    ensures |DecodeStep(q, k, v, beta, s).0| == |s|
    ensures DecodeStep(q, k, v, beta, s).0[j] == Dot(s[j], q) + Times(Dot(q, k), At(Delta(k, v, beta, s), j))
  {}

  lemma {:induction false} ChunkOutputAt(q: Mat, k: Mat, vNew: Mat, h: Mat, n: nat, j: nat)
    requires n < |q| && j < |h|
    ensures Entry(ChunkOutput(q, k, vNew, h), n, j) == Dot(q[n], h[j]) + Sum(|k|, CausalWeights(q[n], k, vNew, n, j))
  {
    assert ChunkOutput(q, k, vNew, h)[n][j] == Dot(q[n], h[j]) + Sum(|k|, CausalWeights(q[n], k, vNew, n, j));
  }

  /** One chunk computes the outputs its tokens compute one by one. */
  lemma {:induction false} ChunkOutputEntry(t: Tokens, h: Mat, n: nat, j: nat, len: nat, dk: nat, dv: nat)
    requires t.Valid(len, dk, dv) && Shape(h, dv, dk) && n < len && j < dv
    ensures var (w, u) := ChunkWU(t);
            Entry(ChunkOutput(t.q, t.k, ChunkValues(w, u, h), h), n, j) == Entry(TokenScan(t, h, len).0, n, j)
  {
    var (w, u) := ChunkWU(t);
    var vNew := ChunkValues(w, u, h);
    ChunkOutputAt(t.q, t.k, vNew, h, n, j);
    DotSymmetric(t.q[n], h[j]);
    assert TraceChannel(t, h, j).Dims(len, dk) by {
      TraceChannelValid(t, h, j, len, dk, dv);
    }
    ChunkColumn(t, h, j, len, dk, dv);
    CausalTerms(TraceChannel(t, h, j), len, t.q[n], vNew, n, j);
    TokenOutputEntry(t, h, n, j, len, dk, dv);
  }

  /** ... and the state they leave behind. */
  lemma {:induction false} ChunkStateEntry(t: Tokens, h: Mat, j: nat, i: nat, len: nat, dk: nat, dv: nat)
    requires t.Valid(len, dk, dv) && Shape(h, dv, dk) && 0 < len && j < dv && i < dk
    ensures var (w, u) := ChunkWU(t);
            Entry(ChunkState(t.k, ChunkValues(w, u, h), h), j, i) == Entry(TokenScan(t, h, len).1, j, i)
  {
    hide ChunkWU, ChunkValues, ChunkState, TokenScan, TraceChannel, Sum;
    ChunkStateSum(t, h, j, i, len, dk, dv);
    TokenStateSum(t, h, j, i, len, dk, dv);
  }

  lemma {:induction false} ChunkStateSum(t: Tokens, h: Mat, j: nat, i: nat, len: nat, dk: nat, dv: nat)
    requires t.Valid(len, dk, dv) && Shape(h, dv, dk) && 0 < len && j < dv && i < dk
    ensures var (w, u) := ChunkWU(t);
            Entry(ChunkState(t.k, ChunkValues(w, u, h), h), j, i) == h[j][i] + Sum(len, TraceChannel(t, h, j).KeyEntries(i))
  {
    hide ChunkWU, ChunkValues, ChunkState, Sum, Delta, TokenScan;
    var c := TraceChannel(t, h, j);
    var (w, u) := ChunkWU(t);
    var vNew := ChunkValues(w, u, h);
    ChunkStateAt(t.k, vNew, h, j, i);
    ChunkColumn(t, h, j, len, dk, dv);
    SumExt(len, StateTerms(t.k, vNew, i, j), c.KeyEntries(i));
  }

  lemma {:induction false} TokenStateSum(t: Tokens, h: Mat, j: nat, i: nat, len: nat, dk: nat, dv: nat)
    requires t.Valid(len, dk, dv) && Shape(h, dv, dk) && j < dv && i < dk
    ensures Entry(TokenScan(t, h, len).1, j, i) == h[j][i] + Sum(len, TraceChannel(t, h, j).KeyEntries(i))
  {
    hide Sum, TokenScan;
    var c := TraceChannel(t, h, j);
    TraceChannelValid(t, h, j, len, dk, dv);
    StateEntry(c, len, dk, len, i);
    assert c.s[len] == TokenScan(t, h, len).1[j];
  }

  lemma {:induction false} ChunkStateAt(k: Mat, vNew: Mat, h: Mat, j: nat, i: nat)
    requires j < |h| && i < |h[j]|
    ensures Entry(ChunkState(k, vNew, h), j, i) == h[j][i] + Sum(|k|, StateTerms(k, vNew, i, j))
  {
    assert ChunkState(k, vNew, h)[j][i] == h[j][i] + Sum(|k|, StateTerms(k, vNew, i, j));
  }

  lemma {:induction false} TokenOutputShape(t: Tokens, h: Mat, n: nat)
    requires n <= |t.q| && |t.q| == |t.k| == |t.v| == |t.beta|
    ensures Shape(TokenScan(t, h, n).0, n, |h|)
  {
    forall m | 0 <= m < n
      ensures |TokenScan(t, h, n).0[m]| == |h|
    {
      TokenOutput(t, h, m, n);
    }
  }

  /** One chunk of the kernel, prepared by the WY representation, is its tokens in turn. */
  lemma {:induction false} ChunkIsTokens(t: Tokens, h: Mat, len: nat, dk: nat, dv: nat)
    requires t.Valid(len, dk, dv) && Shape(h, dv, dk) && 0 < len
    ensures var (w, u) := ChunkWU(t);
            var vNew := ChunkValues(w, u, h);
            (ChunkOutput(t.q, t.k, vNew, h), ChunkState(t.k, vNew, h)) == TokenScan(t, h, len)
  {
    var (w, u) := ChunkWU(t);
    var vNew := ChunkValues(w, u, h);
    var (outs, s) := TokenScan(t, h, len);
    TokenOutputShape(t, h, len);
    TokenScanShape(t, h, len, len, dk, dv);
    forall n, j | 0 <= n < len && 0 <= j < dv
      ensures Entry(ChunkOutput(t.q, t.k, vNew, h), n, j) == Entry(outs, n, j)
    {
      ChunkOutputEntry(t, h, n, j, len, dk, dv);
    }
    SameEntries(ChunkOutput(t.q, t.k, vNew, h), outs, len, dv);
    forall j, i | 0 <= j < dv && 0 <= i < dk
      ensures Entry(ChunkState(t.k, vNew, h), j, i) == Entry(s, j, i)
    {
      ChunkStateEntry(t, h, j, i, len, dk, dv);
    }
    SameEntries(ChunkState(t.k, vNew, h), s, dv, dk);
  }

  // --------------------------------------------------- all chunks of a sequence

  lemma BlockMulSlice(a: Mat, y: Mat, bc: nat, c: nat, lo: nat)
    requires bc > 0 && lo == c * bc && lo + bc <= |y| == |a|
    ensures BlockMul(a, y, bc)[lo..lo + bc] == BlockMul(a[lo..lo + bc], y[lo..lo + bc], bc)
  {
    var a', y' := a[lo..lo + bc], y[lo..lo + bc];
    forall n | 0 <= n < bc
      ensures BlockMul(a, y, bc)[lo + n] == BlockMul(a', y', bc)[n]
    {
      BlockMulRow(a, y, bc, c, lo, n);
    }
  }

  lemma BlockMulRow(a: Mat, y: Mat, bc: nat, c: nat, lo: nat, n: nat)
    requires n < bc && lo == c * bc && lo + bc <= |y| == |a|
    ensures BlockMul(a, y, bc)[lo + n] == BlockMul(a[lo..lo + bc], y[lo..lo + bc], bc)[n]
  {
    var a', y' := a[lo..lo + bc], y[lo..lo + bc];
    QuotientIs(lo + n, c, n, bc);
    QuotientIs(n, 0, n, bc);
    forall d | 0 <= d < |y'[n]|
      ensures BlockMul(a, y, bc)[lo + n][d] == BlockMul(a', y', bc)[n][d]
    {
      SumExt(bc, BlockTerms(a, y, lo + n, d, lo), BlockTerms(a', y', n, d, 0));
    }
  }

  lemma {:induction false} WyBlock(k: Mat, beta: Vec, bc: nat, c: nat, num: nat, lo: nat)
    requires c < num && num * bc <= |k| == |beta| && lo == c * bc
    ensures lo + bc <= num * bc
    ensures WyBlocks(k, beta, bc, num)[lo..lo + bc]
         == UnitLowerInverse(WyMatrix(k[lo..lo + bc], beta[lo..lo + bc]))
  {
    hide WyBlocks, UnitLowerInverse, WyMatrix;
    NextBlock(c, num, bc);
    WyBlocksStep(k, beta, bc, num);
    if c < num - 1 {
      NextBlock(c, num - 1, bc);
      WyBlock(k, beta, bc, c, num - 1, lo);
      assert WyBlocks(k, beta, bc, num)[lo..lo + bc] == WyBlocks(k, beta, bc, num - 1)[lo..lo + bc];
    }
  }

  lemma {:induction false} WyBlocksStep(k: Mat, beta: Vec, bc: nat, num: nat)
    requires 0 < num && num * bc <= |k| == |beta|
    ensures num * bc == (num - 1) * bc + bc
    ensures var lo := (num - 1) * bc;
            WyBlocks(k, beta, bc, num)
            == WyBlocks(k, beta, bc, num - 1) + UnitLowerInverse(WyMatrix(k[lo..lo + bc], beta[lo..lo + bc]))
  {
    hide UnitLowerInverse, WyMatrix;
    Successor(num - 1, bc);
  }

  /** The w and u of the first num chunks. */
  function PreparedWU(t: Tokens, bc: nat, num: nat): (Mat, Mat)
    requires bc > 0 && num * bc <= |t.k| == |t.beta|
  {
    var a := WyBlocks(t.k, t.beta, bc, num);
    ComputeWU(a, a, t.k, t.v, t.beta, bc)
  }

  lemma ScaledRowsSlice(y: Mat, beta: Vec, lo: nat, hi: nat)
    requires lo <= hi <= |y| == |beta|
    ensures ScaledRows(y, beta)[lo..hi] == ScaledRows(y[lo..hi], beta[lo..hi])
  {
    assert forall n | lo <= n < hi :: At(beta, n) == At(beta[lo..hi], n - lo);
  }

  /** The whole sequence's w and u, cut at chunk c, are what chunk c alone prepares. */
  lemma ComputeWUSlice(t: Tokens, bc: nat, c: nat, num: nat, lo: nat, dk: nat, dv: nat)
    requires t.Valid(num * bc, dk, dv) && bc > 0 && c < num && lo == c * bc
    ensures lo + bc <= num * bc
    ensures var (w, u) := PreparedWU(t, bc, num);
            (w[lo..lo + bc], u[lo..lo + bc]) == ChunkWU(t.Slice(lo, lo + bc))
  {
    var a := WyBlocks(t.k, t.beta, bc, num);
    WyBlock(t.k, t.beta, bc, c, num, lo);
    BlockMulSlice(a, ScaledRows(t.k, t.beta), bc, c, lo);
    BlockMulSlice(a, ScaledRows(t.v, t.beta), bc, c, lo);
    ScaledRowsSlice(t.k, t.beta, lo, lo + bc);
    ScaledRowsSlice(t.v, t.beta, lo, lo + bc);
  }

  /** Folding c chunks of any size is scanning their tokens one by one, outputs and state. */
  lemma {:induction false} ChunkScanIsTokenScan(t: Tokens, h: Mat, bc: nat, c: nat, num: nat, dk: nat, dv: nat)
    requires t.Valid(num * bc, dk, dv) && Shape(h, dv, dk) && bc > 0 && c <= num
    ensures c * bc <= num * bc
    ensures var (w, u) := PreparedWU(t, bc, num);
            ChunkScan(t.q, t.k, w, u, h, bc, c) == TokenScan(t, h, c * bc)
  {
    hide ChunkValues, ChunkOutput, ChunkState, PreparedWU, WyBlocks, DecodeStep;
    ScaleMonotone(c, num, bc);
    if c > 0 {
      var lo := (c - 1) * bc;
      assert lo + bc == c * bc;
      ChunkScanIsTokenScan(t, h, bc, c - 1, num, dk, dv);
      ChunkStep(t, h, bc, c, num, lo, dk, dv);
      TokenScanSplit(t, h, lo, lo + bc, bc);
    }
  }

  lemma {:induction false} ChunkStep(t: Tokens, h: Mat, bc: nat, c: nat, num: nat, lo: nat, dk: nat, dv: nat)
    requires t.Valid(num * bc, dk, dv) && Shape(h, dv, dk) && bc > 0 && 0 < c <= num
    requires lo == (c - 1) * bc && lo + bc == c * bc <= num * bc
    ensures var (w, u) := PreparedWU(t, bc, num);
            var (q, k) := (t.q[lo..lo + bc], t.k[lo..lo + bc]);
            var s := TokenScan(t, h, lo).1;
            var vNew := ChunkValues(w[lo..lo + bc], u[lo..lo + bc], s);
            (ChunkOutput(q, k, vNew, s), ChunkState(k, vNew, s)) == TokenScan(t.Slice(lo, lo + bc), s, bc)
  {
    ComputeWUSlice(t, bc, c - 1, num, lo, dk, dv);
    TokenScanShape(t, h, lo, num * bc, dk, dv);
    ChunkIsTokens(t.Slice(lo, lo + bc), TokenScan(t, h, lo).1, bc, dk, dv);
  }

  /** The chunkwise outputs and final state do not depend on how the sequence is cut. */
  lemma {:induction false} ChunkSizeIrrelevant(t: Tokens, h: Mat, bc: nat, num: nat, bc': nat, num': nat, dk: nat, dv: nat)
    requires t.Valid(num * bc, dk, dv) && Shape(h, dv, dk) && bc > 0 && bc' > 0 && num * bc == num' * bc'
    ensures var (w, u) := PreparedWU(t, bc, num);
            var (w', u') := PreparedWU(t, bc', num');
            ChunkScan(t.q, t.k, w, u, h, bc, num) == ChunkScan(t.q, t.k, w', u', h, bc', num')
  {
    ChunkScanIsTokenScan(t, h, bc, num, num, dk, dv);
    ChunkScanIsTokenScan(t, h, bc', num', num', dk, dv);
  }

  // ----------------------------------------------------------- reference program

  /** The chunkwise reference run from a zero state. None when the length is not a whole number
      of chunks; otherwise its outputs are those of the token-by-token recurrence, so the chunk
      size does not show in them. */
  method ReferenceProgram(t: Tokens, bc: nat, dk: nat, dv: nat) returns (r: Option<Mat>)
    requires t.Valid(|t.q|, dk, dv) && bc > 0
    ensures r.Some? <==> |t.q| % bc == 0
    ensures r.Some? ==> r.value == TokenScan(t, Zeros(dv, dk), |t.q|).0
  {
    var wy := PrepareWy(t.k, t.beta, bc);
    if wy.None? {
      return None;
    }
    var (aw, au) := wy.value;
    var (w, u) := ComputeWU(aw, au, t.k, t.v, t.beta, bc);
    var h, o := Kernel2(t.q, t.k, w, u, Zeros(dv, dk), bc);
    ChunkScanIsTokenScan(t, Zeros(dv, dk), bc, |t.q| / bc, |t.q| / bc, dk, dv);
    r := Some(o);
  }

  // ---------------------------------------------------------- gated recurrence

  /** One gated step: the state decays before the correction, and the output reads the new state. */
  function GatedStep(exp: real -> real, scale: real, q: Vec, k: Vec, v: Vec, g: real, beta: real, state: Mat): (Vec, Mat) {
    var qt := seq(|q|, i requires 0 <= i < |q| => q[i] * scale);
    var decay := exp(g);
    var value := seq(|state|, j requires 0 <= j < |state| =>
      Corrected(beta, At(v, j), Times(decay, Dot(state[j], k))));
    var state' := seq(|state|, j requires 0 <= j < |state| => DecayedRow(decay, state[j], k, value[j]));
    (seq(|state|, j requires 0 <= j < |state| => Dot(qt, state'[j])), state')
  }

  function DecayedRow(decay: real, row: Vec, k: Vec, value: real): Vec {
    seq(|row|, i requires 0 <= i < |row| => decay * row[i] + At(k, i) * value)
  }

  function GatedScan(exp: real -> real, scale: real, t: Tokens, g: Vec, state: Mat, n: nat): (r: (Mat, Mat))
    requires n <= |t.q| == |t.k| == |t.v| == |t.beta| == |g|
    ensures |r.0| == n && |r.1| == |state|
  {
    if n == 0 then ([], state)
    else
      var (outs, s) := GatedScan(exp, scale, t, g, state, n - 1);
      var (o, s') := GatedStep(exp, scale, t.q[n-1], t.k[n-1], t.v[n-1], g[n-1], t.beta[n-1], s);
      (outs + [o], s')
  }

  /** The gated reference program: one loop over tokens from a zero square state. */
  method GatedReferenceProgram(exp: real -> real, scale: real, t: Tokens, g: Vec, dim: nat) returns (outputs: Mat, state: Mat)
    requires |t.q| == |t.k| == |t.v| == |t.beta| == |g|
    ensures (outputs, state) == GatedScan(exp, scale, t, g, Zeros(dim, dim), |g|)
  {
    state := Zeros(dim, dim);
    outputs := [];
    for token := 0 to |g|
      invariant (outputs, state) == GatedScan(exp, scale, t, g, Zeros(dim, dim), token)
    {
      var (o, s) := GatedStep(exp, scale, t.q[token], t.k[token], t.v[token], g[token], t.beta[token], state);
      state := s;
      outputs := outputs + [o];
    }
  }

  lemma UngatedRow(row: Vec, k: Vec, value: real)
    ensures DecayedRow(1.0, row, k, value) == AddScaled(row, value, k)
  {}

  lemma UngatedOutput(q: Vec, qt: Vec, row: Vec, d: real, k: Vec)
    requires |q| == |row| == |k| && qt == q
    ensures Dot(qt, AddScaled(row, d, k)) == Dot(row, q) + Times(Dot(q, k), d)
  {
    DotAddScaled(row, d, k, q);
    DotSymmetric(q, AddScaled(row, d, k));
    DotSymmetric(q, k);
  }

  /** Every entry of the state multiplied by the decay. */
  function Decayed(decay: real, state: Mat): (m: Mat)
    ensures |m| == |state| && forall j | 0 <= j < |m| :: |m[j]| == |state[j]|
  {
    seq(|state|, j requires 0 <= j < |state| => seq(|state[j]|, i requires 0 <= i < |state[j]| => Times(state[j][i], decay)))
  }

  lemma DotDecayed(decay: real, row: Vec, dRow: Vec, k: Vec)
    requires |row| == |dRow| == |k| && forall i | 0 <= i < |row| :: dRow[i] == Times(row[i], decay)
    ensures Dot(dRow, k) == Times(decay, Dot(row, k))
  {
    forall i | 0 <= i < |row|
      ensures DotTerms(dRow, k)(i) == Times(decay, DotTerms(row, k)(i))
    {
      Reorder(row[i], decay, k[i]);
    }
    SumScale(|row|, decay, DotTerms(row, k), DotTerms(dRow, k));
  }

  lemma Reorder(a: real, c: real, b: real)
    ensures Times(Times(a, c), b) == Times(c, Times(a, b))
  {}

  lemma DotScaled(scale: real, q: Vec, qt: Vec, row: Vec)
    requires |q| == |qt| == |row| && forall i | 0 <= i < |q| :: qt[i] == q[i] * scale
    ensures Dot(qt, row) == Times(scale, Dot(row, q))
  {
    forall i | 0 <= i < |q|
      ensures DotTerms(qt, row)(i) == Times(scale, DotTerms(row, q)(i))
    {
      Reorder(row[i], scale, q[i]);
      Swap(q[i], scale, row[i]);
    }
    SumScale(|q|, scale, DotTerms(row, q), DotTerms(qt, row));
  }

  lemma Swap(q: real, scale: real, r: real)
    ensures Times(q * scale, r) == Times(scale, Times(r, q))
  {}

  lemma DecayedRowIs(decay: real, row: Vec, dRow: Vec, k: Vec, value: real)
    requires |row| == |dRow| && forall i | 0 <= i < |row| :: dRow[i] == Times(row[i], decay)
    ensures DecayedRow(decay, row, k, value) == AddScaled(dRow, value, k)
  {}

  /** One gated step is one delta-rule step from the decayed state: the same new state, and the outputs
      scaled, for every gate, scale and beta. */
  lemma GatedStepIsDecayedDecode(exp: real -> real, scale: real, q: Vec, k: Vec, v: Vec, g: real, beta: real, s: Mat, dv: nat)
    requires |q| == |k| && Shape(s, dv, |k|)
    ensures var (o, s') := GatedStep(exp, scale, q, k, v, g, beta, s);
            var (p, r) := DecodeStep(q, k, v, beta, Decayed(exp(g), s));
            s' == r && |o| == |p| == dv && forall j | 0 <= j < dv :: o[j] == Times(scale, p[j])
  {
    var (o, s') := GatedStep(exp, scale, q, k, v, g, beta, s);
    var d := Decayed(exp(g), s);
    var (p, r) := DecodeStep(q, k, v, beta, d);
    var qt := seq(|q|, i requires 0 <= i < |q| => q[i] * scale);
    forall j | 0 <= j < dv
      ensures s'[j] == r[j] && o[j] == Times(scale, p[j])
    {
      DotDecayed(exp(g), s[j], d[j], k);
      var value := Delta(k, v, beta, d)[j];
      DecayedRowIs(exp(g), s[j], d[j], k, value);
      DotScaled(scale, q, qt, r[j]);
      DotAddScaled(d[j], value, k, q);
      DotSymmetric(q, k);
      SwapFactors(value, Dot(k, q));
    }
    assert s' == r;
  }

  lemma SwapFactors(a: real, b: real)
    ensures Times(a, b) == Times(b, a)
  {}

  lemma GatedStepUngated(exp: real -> real, q: Vec, k: Vec, v: Vec, beta: real, s: Mat, dv: nat)
    requires exp(0.0) == 1.0 && |q| == |k| && Shape(s, dv, |k|)
    ensures GatedStep(exp, 1.0, q, k, v, 0.0, beta, s) == DecodeStep(q, k, v, beta, s)
  {
    var (o, s') := GatedStep(exp, 1.0, q, k, v, 0.0, beta, s);
    var (p, r) := DecodeStep(q, k, v, beta, s);
    var qt := seq(|q|, i requires 0 <= i < |q| => q[i] * 1.0);
    assert qt == q;
    forall j | 0 <= j < dv
      ensures s'[j] == r[j] && o[j] == p[j]
    {
      var d := Delta(k, v, beta, s)[j];
      UngatedRow(s[j], k, d);
      UngatedOutput(q, qt, s[j], d, k);
    }
    assert o == p && s' == r;
  }

  /** With no decay and unit scale the gated recurrence is the delta rule. */
  lemma {:induction false} GatedScanUngated(exp: real -> real, t: Tokens, g: Vec, h: Mat, n: nat, len: nat, dk: nat, dv: nat)
    requires exp(0.0) == 1.0
    requires t.Valid(len, dk, dv) && Shape(h, dv, dk) && |g| == len && n <= len
    requires forall i | 0 <= i < len :: g[i] == 0.0
    ensures GatedScan(exp, 1.0, t, g, h, n) == TokenScan(t, h, n)
  {
    if n > 0 {
      GatedScanUngated(exp, t, g, h, n - 1, len, dk, dv);
      TokenScanShape(t, h, n - 1, len, dk, dv);
      GatedStepUngated(exp, t.q[n-1], t.k[n-1], t.v[n-1], t.beta[n-1], TokenScan(t, h, n - 1).1, dv);
    }
  }
}
