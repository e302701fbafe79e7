/** Mamba-2 for one batch and head over exact reals: the chunked state-space pass, its
    separately defined stages, and the stepwise recurrence.

    A state has one row per head channel p, each a vector over the state dimension n.
    exp is any function that turns sums into products. */
module Mamba2 {
  import opened Sums
  import opened Wrappers

  ghost predicate Splits(exp: real -> real, a: real, b: real) {
    exp(a + b) == Times(exp(a), exp(b))
  }

  ghost predicate ExpLike(exp: real -> real) {
    exp(0.0) == 1.0 && forall a, b :: Splits(exp, a, b)
  }

  // ------------------------------------------------------------- one decode step

  /** a * row + (c * b) */
  function Blend(a: real, row: Vec, c: real, b: Vec): Vec {
    seq(|row|, n requires 0 <= n < |row| => Times(a, row[n]) + Times(c, At(b, n)))
  }

  /** The state after one token of the decode recurrence; a and dt are given per entry and per
      channel, as the decode interface takes them. */
  function DecodeState(exp: real -> real, a: Mat, dt: Vec, x: Vec, b: Vec, state: Mat): Mat {
    seq(|state|, p requires 0 <= p < |state| =>
      seq(|state[p]|, n requires 0 <= n < |state[p]| =>
        Times(exp(Times(At(dt, p), Entry(a, p, n))), state[p][n]) + Times(Times(At(dt, p), At(x, p)), At(b, n))))
  }

  function ReadOut(state: Mat, c: Vec): Vec {
    seq(|state|, p requires 0 <= p < |state| => Dot(state[p], c))
  }

  /** The decode reference: overwrites the state, then reads the new state out. */
  method Decode(exp: real -> real, a: Mat, dt: Vec, x: Vec, b: Vec, c: Vec, state: array<Vec>) returns (y: Vec)
    modifies state
    ensures state[..] == DecodeState(exp, a, dt, x, b, old(state[..]))
    ensures y == ReadOut(state[..], c)
  {
    var newState := DecodeState(exp, a, dt, x, b, state[..]);
    for p := 0 to state.Length
      invariant state[..p] == newState[..p] && state[p..] == old(state[..])[p..]
    {
      state[p] := newState[p];
    }
    y := ReadOut(state[..], c);
  }

  /** A model's scalar a and per-head dt, repeated over the head as the decode interface expects. */
  function Repeat(p: nat, n: nat, a: real): Mat { seq(p, _ => seq(n, _ => a)) }

  /** One token with scalar a and dt: each row decays by exp(dt a) and gains dt x b. */
  function Step(exp: real -> real, a: real, dt: real, x: Vec, b: Vec, state: Mat): (s: Mat)
    ensures |s| == |state|
  {
    seq(|state|, p requires 0 <= p < |state| => Blend(exp(Times(dt, a)), state[p], Times(dt, At(x, p)), b))
  }

  lemma StepIsDecode(exp: real -> real, a: real, dt: real, x: Vec, b: Vec, state: Mat, n: nat)
    requires Shape(state, |state|, n)
    ensures Step(exp, a, dt, x, b, state)
         == DecodeState(exp, Repeat(|state|, n, a), seq(|state|, _ => dt), x, b, state)
  {
    hide Times;
    var s := Step(exp, a, dt, x, b, state);
    var dts := seq(|state|, _ => dt);
    var d := DecodeState(exp, Repeat(|state|, n, a), dts, x, b, state);
    forall p | 0 <= p < |state|
      ensures s[p] == d[p]
    {
      forall i | 0 <= i < n
        ensures s[p][i] == d[p][i]
      {
        assert Entry(Repeat(|state|, n, a), p, i) == a && At(dts, p) == dt;
      }
    }
  }

  /** Entry (p, n) of the decode update is one scalar step of the recurrence with that entry's own decay rate and
      that channel's own step size. */
  lemma DecodeEntry(exp: real -> real, a: Mat, dt: Vec, x: Vec, b: Vec, state: Mat, p: nat, n: nat)
    requires p < |a| && n < |a[p]| && p < |dt| && p < |x| && n < |b| && p < |state| && n < |state[p]|
    ensures |DecodeState(exp, a, dt, x, b, state)| == |state|
    ensures |DecodeState(exp, a, dt, x, b, state)[p]| == |state[p]|
    ensures DecodeState(exp, a, dt, x, b, state)[p][n] == Step(exp, a[p][n], dt[p], [x[p]], [b[n]], [[state[p][n]]])[0][0]
  {
    hide Times;
    var one := Step(exp, a[p][n], dt[p], [x[p]], [b[n]], [[state[p][n]]]);
    assert one[0][0] == Times(exp(Times(dt[p], a[p][n])), state[p][n]) + Times(Times(dt[p], x[p]), b[n]);
    assert At(dt, p) == dt[p] && At(x, p) == x[p] && At(b, n) == b[n] && Entry(a, p, n) == a[p][n];
    assert DecodeState(exp, a, dt, x, b, state)[p][n] == one[0][0];
  }

  // ------------------------------------------------------------- whole sequences

  datatype Tokens = Tokens(x: Mat, dt: Vec, b: Mat, c: Mat) {
    ghost predicate Valid(len: nat, p: nat, n: nat) {
      Shape(x, len, p) && |dt| == len && Shape(b, len, n) && Shape(c, len, n)
    }

    function Slice(lo: nat, hi: nat): Tokens
      requires lo <= hi <= |x| && |x| == |dt| == |b| == |c|
    {
      Tokens(x[lo..hi], dt[lo..hi], b[lo..hi], c[lo..hi])
    }

    /** Increment of token i. */
    function DA(a: real): int -> real { i => Times(At(dt, i), a) }
  }

  /** Outputs and state of the first n tokens, one decode step at a time. */
  function TokenScan(exp: real -> real, a: real, t: Tokens, state: Mat, n: nat): (r: (Mat, Mat))
    requires n <= |t.x| && |t.x| == |t.dt| == |t.b| == |t.c|
    ensures |r.0| == n && |r.1| == |state|
  {
    if n == 0 then ([], state)
    else
      var (outs, s) := TokenScan(exp, a, t, state, n - 1);
      var s' := Step(exp, a, t.dt[n-1], t.x[n-1], t.b[n-1], s);
      (outs + [ReadOut(s', t.c[n-1])], s')
  }

  lemma {:induction false} TokenScanShape(exp: real -> real, a: real, t: Tokens, state: Mat, k: nat, len: nat, p: nat, n: nat)
    requires t.Valid(len, p, n) && Shape(state, p, n) && k <= len
    ensures Shape(TokenScan(exp, a, t, state, k).0, k, p) && Shape(TokenScan(exp, a, t, state, k).1, p, n)
  {
    if k > 0 {
      TokenScanShape(exp, a, t, state, k - 1, len, p, n);
    }
  }

  lemma {:induction false} TokenScanSplit(exp: real -> real, a: real, t: Tokens, state: Mat, lo: nat, hi: nat, k: nat)
    requires lo + k <= hi <= |t.x| && |t.x| == |t.dt| == |t.b| == |t.c|
    ensures var (outs, s) := TokenScan(exp, a, t, state, lo);
            var (outs', s') := TokenScan(exp, a, t.Slice(lo, hi), s, k);
            TokenScan(exp, a, t, state, lo + k) == (outs + outs', s')
  {
    hide Step, ReadOut;
    var (outs, s) := TokenScan(exp, a, t, state, lo);
    if k == 0 {
      assert outs + [] == outs;
    } else {
      TokenScanSplit(exp, a, t, state, lo, hi, k - 1);
      var c := t.Slice(lo, hi);
      var (outs', s') := TokenScan(exp, a, c, s, k - 1);
      var s'' := Step(exp, a, c.dt[k-1], c.x[k-1], c.b[k-1], s');
      assert (outs + outs') + [ReadOut(s'', c.c[k-1])] == outs + (outs' + [ReadOut(s'', c.c[k-1])]);
    }
  }

  // -------------------------------------------------- the monolithic chunked pass

  /** Inclusive prefix sum of dt * a inside a chunk. */
  function Cum(t: Tokens, a: real, l: int): real { Prefix(t.DA(a), l + 1) }

  /** Sum of the first l terms. */
  function Prefix(f: int -> real, l: int): real { if l <= 0 then 0.0 else Sum(l, f) }

  /** Causally masked c . b coupling of tokens l and s. */
  function Coupling(t: Tokens, l: int, s: int): real {
    if 0 <= s <= l < |t.c| && s < |t.b| then Dot(t.c[l], t.b[s]) else 0.0
  }

  function DecayToEnd(exp: real -> real, t: Tokens, a: real, l: int): real {
    exp(Cum(t, a, |t.x| - 1) - Cum(t, a, l))
  }

  function StateTerms(exp: real -> real, t: Tokens, a: real, p: int, n: int): int -> real {
    q => Times(Times(Entry(t.x, q, p), Times(DecayToEnd(exp, t, a, q), At(t.dt, q))), Entry(t.b, q, n))
  }

  /** What the chunk adds to a state that entered it empty. */
  function ChunkState(exp: real -> real, t: Tokens, a: real, p: nat, n: nat): Mat {
    seq(p, i => seq(n, j => Sum(|t.x|, StateTerms(exp, t, a, i, j))))
  }

  /** scale * s + u */
  function Carry(scale: real, s: Mat, u: Mat): (r: Mat)
    ensures |r| == |s|
  {
    seq(|s|, p requires 0 <= p < |s| =>
      seq(|s[p]|, n requires 0 <= n < |s[p]| => Times(scale, s[p][n]) + Entry(u, p, n)))
  }

  /** Causally masked decay from token s to token l. */
  function Decay(exp: real -> real, t: Tokens, a: real, l: int, s: int): real {
    if s <= l then exp(Cum(t, a, l) - Cum(t, a, s)) else 0.0
  }

  /** Coupling and decay are both causal: nothing reaches back from a later token. */
  lemma CausalMasks(exp: real -> real, t: Tokens, a: real, l: int, s: int)
    requires l < s
    ensures Decay(exp, t, a, l, s) == 0.0 && Coupling(t, l, s) == 0.0
  {}

  function IntraTerms(exp: real -> real, t: Tokens, a: real, l: int, p: int): int -> real {
    s => Times(Times(Times(Coupling(t, l, s), Decay(exp, t, a, l, s)), At(t.dt, s)), Entry(t.x, s, p))
  }

  /** Outputs of a chunk entered with state prev: decayed history plus the masked intra-chunk sum. */
  function ChunkScan(exp: real -> real, t: Tokens, a: real, prev: Mat): Mat
    requires |t.x| == |t.c|
  {
    seq(|t.x|, l requires 0 <= l < |t.x| =>
      seq(|prev|, p requires 0 <= p < |prev| =>
        Times(Dot(t.c[l], prev[p]), exp(Cum(t, a, l))) + Sum(|t.x|, IntraTerms(exp, t, a, l, p))))
  }

  // ------------------------------------------ one chunk computes what its tokens do

  /** One head channel of a stepwise run: s[m] is its state row before token m, g[m] the log
      decay of token m and u[m] * b[m] what token m adds. */
  datatype Channel = Channel(g: Vec, u: Vec, b: Mat, s: Mat) {
    ghost predicate Dims(len: nat, n: nat) {
      |g| == |u| == len && Shape(b, len, n) && Shape(s, len + 1, n)
    }

    ghost predicate Valid(exp: real -> real, len: nat, n: nat) {
      && Dims(len, n)
      && forall m | 0 <= m < len :: s[m + 1] == Blend(exp(g[m]), s[m], u[m], b[m])
    }

    function Log(l: int): real { Prefix(Coords(g), l) }

    /** What token i contributes to the state before token l, read against z. */
    function History(exp: real -> real, l: int, z: Vec): int -> real {
      i => Times(exp(Log(l) - Log(i + 1)), Times(At(u, i), if 0 <= i < |b| then Dot(b[i], z) else 0.0))
    }
  }

  lemma ExpAdd(exp: real -> real, a: real, b: real)
    requires ExpLike(exp)
    ensures exp(a + b) == Times(exp(a), exp(b))
  {
    assert Splits(exp, a, b);
  }

  lemma BlendTerm(a: real, s: real, c: real, b: real, z: real)
    ensures Times(Times(a, s) + Times(c, b), z) == Times(a, Times(s, z)) + Times(c, Times(b, z))
  {}

  lemma DotBlend(a: real, s: Vec, c: real, b: Vec, z: Vec)
    requires |s| == |b| == |z|
    ensures Dot(Blend(a, s, c, b), z) == Times(a, Dot(s, z)) + Times(c, Dot(b, z))
  {
    var f := Scaled(a, DotTerms(s, z));
    forall i | 0 <= i < |z|
      ensures DotTerms(Blend(a, s, c, b), z)(i) == f(i) + Times(c, DotTerms(b, z)(i))
    {
      assert Blend(a, s, c, b)[i] == Times(a, s[i]) + Times(c, b[i]);
      BlendTerm(a, s[i], c, b[i], z[i]);
      assert DotTerms(Blend(a, s, c, b), z)(i) == Times(Times(a, s[i]) + Times(c, b[i]), z[i]);
    }
    SumScale(|z|, a, DotTerms(s, z), f);
    SumLinear(|z|, f, c, DotTerms(b, z), DotTerms(Blend(a, s, c, b), z));
  }

  /** One more token multiplies every earlier contribution by its decay. */
  lemma HistoryStep(exp: real -> real, c: Channel, len: nat, l: nat, z: Vec, i: nat)
    requires ExpLike(exp) && c.Dims(len, |z|) && i < l < len
    ensures c.History(exp, l + 1, z)(i) == Times(exp(c.g[l]), c.History(exp, l, z)(i))
  {
    assert c.Log(l + 1) - c.Log(i + 1) == c.g[l] + (c.Log(l) - c.Log(i + 1));
    ExpAdd(exp, c.g[l], c.Log(l) - c.Log(i + 1));
    Reassociate(exp(c.g[l]), exp(c.Log(l) - c.Log(i + 1)), Times(At(c.u, i), Dot(c.b[i], z)));
  }

  lemma Reassociate(x: real, y: real, z: real)
    ensures Times(Times(x, y), z) == Times(x, Times(y, z))
  {}

  lemma HistoryLast(exp: real -> real, c: Channel, len: nat, l: nat, z: Vec)
    requires ExpLike(exp) && c.Dims(len, |z|) && l < len
    ensures c.History(exp, l + 1, z)(l) == Times(c.u[l], Dot(c.b[l], z))
  {
    assert c.Log(l + 1) - c.Log(l + 1) == 0.0;
  }

  lemma {:induction false} HistorySum(exp: real -> real, c: Channel, len: nat, l: nat, z: Vec)
    requires ExpLike(exp) && c.Dims(len, |z|) && l < len
    ensures Sum(l + 1, c.History(exp, l + 1, z))
         == Times(exp(c.g[l]), Sum(l, c.History(exp, l, z))) + Times(c.u[l], Dot(c.b[l], z))
  {
    forall i | 0 <= i < l
      ensures c.History(exp, l + 1, z)(i) == Times(exp(c.g[l]), c.History(exp, l, z)(i))
    {
      HistoryStep(exp, c, len, l, z, i);
    }
    SumScale(l, exp(c.g[l]), c.History(exp, l, z), c.History(exp, l + 1, z));
    HistoryLast(exp, c, len, l, z);
  }

  lemma {:induction false} StateDotStep(exp: real -> real, c: Channel, len: nat, m: nat, z: Vec)
    requires ExpLike(exp) && c.Dims(len, |z|) && m < len
    requires c.s[m + 1] == Blend(exp(c.g[m]), c.s[m], c.u[m], c.b[m])
    requires Dot(c.s[m], z) == Times(exp(c.Log(m)), Dot(c.s[0], z)) + Sum(m, c.History(exp, m, z))
    ensures Dot(c.s[m + 1], z) == Times(exp(c.Log(m + 1)), Dot(c.s[0], z)) + Sum(m + 1, c.History(exp, m + 1, z))
  {
    hide Times, Blend, Dot;
    DotBlend(exp(c.g[m]), c.s[m], c.u[m], c.b[m], z);
    HistorySum(exp, c, len, m, z);
    assert c.Log(m + 1) == c.g[m] + c.Log(m);
    ExpAdd(exp, c.g[m], c.Log(m));
    Regroup(exp(c.g[m]), exp(c.Log(m)), Dot(c.s[0], z), Sum(m, c.History(exp, m, z)));
  }

  /** The state row before token l, read against z: the decayed initial row plus every
      earlier token's decayed contribution. */
  lemma {:induction false} StateDot(exp: real -> real, c: Channel, len: nat, l: nat, z: Vec)
    requires ExpLike(exp) && c.Valid(exp, len, |z|) && l <= len
    ensures Dot(c.s[l], z) == Times(exp(c.Log(l)), Dot(c.s[0], z)) + Sum(l, c.History(exp, l, z))
  {
    hide Times, Dot, Sum;
    if l == 0 {
      StateDotStart(exp, c, len, z);
    } else {
      StateDot(exp, c, len, l - 1, z);
      StateDotStep(exp, c, len, l - 1, z);
    }
  }

  lemma {:induction false} StateDotStart(exp: real -> real, c: Channel, len: nat, z: Vec)
    requires ExpLike(exp) && c.Valid(exp, len, |z|)
    ensures Dot(c.s[0], z) == Times(exp(c.Log(0)), Dot(c.s[0], z)) + Sum(0, c.History(exp, 0, z))
  {
    hide Dot;
    assert c.Log(0) == 0.0;
  }

  lemma Regroup(a: real, e: real, s: real, h: real)
    ensures Times(a, Times(e, s) + h) == Times(Times(a, e), s) + Times(a, h)
  {}

  /** Head channel p of a stepwise run from the given state. */
  function TraceChannel(exp: real -> real, a: real, t: Tokens, state: Mat, p: nat): Channel
    requires |t.x| == |t.dt| == |t.b| == |t.c| && p < |state|
  {
    var len := |t.x|;
    Channel(seq(len, m requires 0 <= m < len => Times(t.dt[m], a)),
            seq(len, m requires 0 <= m < len => Times(t.dt[m], Entry(t.x, m, p))),
            t.b,
            seq(len + 1, m requires 0 <= m <= len => TokenScan(exp, a, t, state, m).1[p]))
  }

  lemma TraceChannelValid(exp: real -> real, a: real, t: Tokens, state: Mat, p: nat, len: nat, ps: nat, n: nat)
    requires t.Valid(len, ps, n) && Shape(state, ps, n) && p < ps
    ensures TraceChannel(exp, a, t, state, p).Valid(exp, len, n)
    ensures TraceChannel(exp, a, t, state, p).s[0] == state[p]
  {
    var c := TraceChannel(exp, a, t, state, p);
    forall m | 0 <= m <= len
      ensures |c.s[m]| == n
    {
      TokenScanShape(exp, a, t, state, m, len, ps, n);
    }
    forall m | 0 <= m < len
      ensures c.s[m + 1] == Blend(exp(c.g[m]), c.s[m], c.u[m], c.b[m])
    {
      assert TokenScan(exp, a, t, state, m + 1).1
          == Step(exp, a, t.dt[m], t.x[m], t.b[m], TokenScan(exp, a, t, state, m).1);
    }
  }

  /** The chunk's prefix sums are the channel's log decays. */
  lemma CumIsLog(exp: real -> real, a: real, t: Tokens, state: Mat, p: nat, l: int)
    requires |t.x| == |t.dt| == |t.b| == |t.c| && p < |state| && -1 <= l < |t.x|
    ensures Cum(t, a, l) == TraceChannel(exp, a, t, state, p).Log(l + 1)
  {
    SumExt(l + 1, t.DA(a), Coords(TraceChannel(exp, a, t, state, p).g));
  }

  lemma {:induction false} TokenOutput(exp: real -> real, a: real, t: Tokens, state: Mat, m: nat, n: nat)
    requires m < n <= |t.x| && |t.x| == |t.dt| == |t.b| == |t.c|
    ensures TokenScan(exp, a, t, state, n).0[m] == ReadOut(TokenScan(exp, a, t, state, m + 1).1, t.c[m])
  {
    if m < n - 1 {
      TokenOutput(exp, a, t, state, m, n - 1);
    }
  }

  lemma ReadOutAt(state: Mat, c: Vec, p: nat)
    requires p < |state|
    ensures At(ReadOut(state, c), p) == Dot(state[p], c)
  {}

  lemma {:induction false} TraceState(exp: real -> real, a: real, t: Tokens, state: Mat, l: nat, p: nat, len: nat, ps: nat, n: nat, z: Vec)
    requires ExpLike(exp) && t.Valid(len, ps, n) && Shape(state, ps, n) && l <= len && p < ps && |z| == n
    ensures var c := TraceChannel(exp, a, t, state, p);
            Dot(TokenScan(exp, a, t, state, l).1[p], z)
            == Times(exp(c.Log(l)), Dot(state[p], z)) + Sum(l, c.History(exp, l, z))
  {
    var c := TraceChannel(exp, a, t, state, p);
    TraceChannelValid(exp, a, t, state, p, len, ps, n);
    StateDot(exp, c, len, l, z);
    assert c.s[l] == TokenScan(exp, a, t, state, l).1[p];
  }

  /** What token l outputs on channel p: its new state row read against c. */
  lemma {:induction false} TokenOutputEntry(exp: real -> real, a: real, t: Tokens, state: Mat, l: nat, p: nat, len: nat)
    requires l < len <= |t.x| && |t.x| == |t.dt| == |t.b| == |t.c| && p < |state|
    ensures Entry(TokenScan(exp, a, t, state, len).0, l, p) == Dot(TokenScan(exp, a, t, state, l + 1).1[p], t.c[l])
  {
    TokenOutput(exp, a, t, state, l, len);
    ReadOutAt(TokenScan(exp, a, t, state, l + 1).1, t.c[l], p);
  }

  lemma IntraTerm(exp: real -> real, a: real, t: Tokens, state: Mat, l: nat, p: nat, s: nat, len: nat, ps: nat, n: nat)
    requires t.Valid(len, ps, n) && Shape(state, ps, n) && l < len && p < ps && s < len
    ensures var c := TraceChannel(exp, a, t, state, p);
            IntraTerms(exp, t, a, l, p)(s) == if s <= l then c.History(exp, l + 1, t.c[l])(s) else 0.0
  {
    var c := TraceChannel(exp, a, t, state, p);
    if s <= l {
      CumIsLog(exp, a, t, state, p, l);
      CumIsLog(exp, a, t, state, p, s);
      DotSymmetric(t.c[l], t.b[s]);
      assert c.u[s] == Times(t.dt[s], Entry(t.x, s, p));
      Reorder(Coupling(t, l, s), exp(c.Log(l + 1) - c.Log(s + 1)), t.dt[s], Entry(t.x, s, p));
    }
  }

  lemma Reorder(k: real, e: real, d: real, x: real)
    ensures Times(Times(Times(k, e), d), x) == Times(e, Times(Times(d, x), k))
  {}

  lemma {:induction false} IntraSum(exp: real -> real, a: real, t: Tokens, state: Mat, l: nat, p: nat, len: nat, ps: nat, n: nat)
    requires t.Valid(len, ps, n) && Shape(state, ps, n) && l < len && p < ps
    ensures Sum(len, IntraTerms(exp, t, a, l, p))
         == Sum(l + 1, TraceChannel(exp, a, t, state, p).History(exp, l + 1, t.c[l]))
  {
    hide Times, TokenScan, TraceChannel, Dot, IntraTerms, Channel.History;
    var f, g := IntraTerms(exp, t, a, l, p), TraceChannel(exp, a, t, state, p).History(exp, l + 1, t.c[l]);
    forall s | 0 <= s < len
      ensures f(s) == if s <= l then g(s) else 0.0
    {
      IntraTerm(exp, a, t, state, l, p, s, len, ps, n);
    }
    SumTruncate(len, l + 1, f);
    SumExt(l + 1, f, g);
  }

  lemma {:induction false} ChunkScanAt(exp: real -> real, t: Tokens, a: real, prev: Mat, l: nat, p: nat)
    requires |t.x| == |t.c| && l < |t.x| && p < |prev|
    ensures Entry(ChunkScan(exp, t, a, prev), l, p)
         == Times(exp(Cum(t, a, l)), Dot(prev[p], t.c[l])) + Sum(|t.x|, IntraTerms(exp, t, a, l, p))
    requires |t.c[l]| == |prev[p]|
  {
    assert ChunkScan(exp, t, a, prev)[l][p]
        == Times(Dot(t.c[l], prev[p]), exp(Cum(t, a, l))) + Sum(|t.x|, IntraTerms(exp, t, a, l, p));
    DotSymmetric(t.c[l], prev[p]);
  }

  /** A chunk entered with the right state outputs what its tokens output one by one. */
  lemma {:induction false} ChunkOutputEntry(exp: real -> real, a: real, t: Tokens, state: Mat, l: nat, p: nat, len: nat, ps: nat, n: nat)
    requires ExpLike(exp) && t.Valid(len, ps, n) && Shape(state, ps, n) && l < len && p < ps
    ensures Entry(ChunkScan(exp, t, a, state), l, p) == Entry(TokenScan(exp, a, t, state, len).0, l, p)
  {
    hide Times, TokenScan, ChunkScan, IntraTerms, Dot, Sum, At;
    ChunkScanAt(exp, t, a, state, l, p);
    IntraSum(exp, a, t, state, l, p, len, ps, n);
    CumIsLog(exp, a, t, state, p, l);
    TraceState(exp, a, t, state, l + 1, p, len, ps, n, t.c[l]);
    TokenOutputEntry(exp, a, t, state, l, p, len);
  }

  function Unit(n: nat, i: int): Vec { seq(n, j => if i == j then 1.0 else 0.0) }

  lemma DotUnit(v: Vec, i: nat)
    requires i < |v|
    ensures Dot(v, Unit(|v|, i)) == v[i]
  {
    SumSingle(|v|, i, DotTerms(v, Unit(|v|, i)));
  }

  lemma StateTerm(exp: real -> real, a: real, t: Tokens, state: Mat, p: nat, i: nat, q: nat, len: nat, ps: nat, n: nat)
    requires t.Valid(len, ps, n) && Shape(state, ps, n) && p < ps && i < n && q < len
    ensures StateTerms(exp, t, a, p, i)(q) == TraceChannel(exp, a, t, state, p).History(exp, len, Unit(n, i))(q)
  {
    var c := TraceChannel(exp, a, t, state, p);
    CumIsLog(exp, a, t, state, p, len - 1);
    CumIsLog(exp, a, t, state, p, q);
    DotUnit(t.b[q], i);
    assert c.u[q] == Times(t.dt[q], Entry(t.x, q, p));
    Rotate(Entry(t.x, q, p), DecayToEnd(exp, t, a, q), t.dt[q], t.b[q][i]);
  }

  lemma Rotate(x: real, e: real, d: real, b: real)
    ensures Times(Times(x, Times(e, d)), b) == Times(e, Times(Times(d, x), b))
  {}

  /** Decaying the entering state and adding the chunk's own state gives the state after its tokens. */
  lemma {:induction false} ChunkStateEntry(exp: real -> real, a: real, t: Tokens, state: Mat, p: nat, i: nat, len: nat, ps: nat, n: nat)
    requires ExpLike(exp) && t.Valid(len, ps, n) && Shape(state, ps, n) && p < ps && i < n
    ensures Entry(Carry(exp(Cum(t, a, len - 1)), state, ChunkState(exp, t, a, ps, n)), p, i)
         == Entry(TokenScan(exp, a, t, state, len).1, p, i)
  {
    var c, e := TraceChannel(exp, a, t, state, p), Unit(n, i);
    forall q | 0 <= q < len
      ensures StateTerms(exp, t, a, p, i)(q) == c.History(exp, len, e)(q)
    {
      StateTerm(exp, a, t, state, p, i, q, len, ps, n);
    }
    SumExt(len, StateTerms(exp, t, a, p, i), c.History(exp, len, e));
    CumIsLog(exp, a, t, state, p, len - 1);
    DotUnit(state[p], i);
    assert Carry(exp(Cum(t, a, len - 1)), state, ChunkState(exp, t, a, ps, n))[p][i]
        == Times(exp(c.Log(len)), state[p][i]) + Sum(len, c.History(exp, len, e));
    assert TokenScan(exp, a, t, state, len).1[p][i] == Times(exp(c.Log(len)), state[p][i]) + Sum(len, c.History(exp, len, e)) by {
      TraceChannelValid(exp, a, t, state, p, len, ps, n);
      StateDot(exp, c, len, len, e);
      DotUnit(c.s[len], i);
    }
  }

  /** One chunk entered with the right state is its tokens in turn: outputs and carried state. */
  lemma {:induction false} ChunkIsTokens(exp: real -> real, a: real, t: Tokens, state: Mat, len: nat, ps: nat, n: nat)
    requires ExpLike(exp) && t.Valid(len, ps, n) && Shape(state, ps, n)
    ensures ChunkScan(exp, t, a, state) == TokenScan(exp, a, t, state, len).0
    ensures Carry(exp(Cum(t, a, len - 1)), state, ChunkState(exp, t, a, ps, n)) == TokenScan(exp, a, t, state, len).1
  {
    var (outs, s) := TokenScan(exp, a, t, state, len);
    var s' := Carry(exp(Cum(t, a, len - 1)), state, ChunkState(exp, t, a, ps, n));
    TokenScanShape(exp, a, t, state, len, len, ps, n);
    assert Shape(s', ps, n) && Shape(ChunkScan(exp, t, a, state), len, ps);
    hide Times, Dot, Sum, TokenScan, ChunkScan, Carry, ChunkState;
    forall l, p | 0 <= l < len && 0 <= p < ps
      ensures Entry(ChunkScan(exp, t, a, state), l, p) == Entry(outs, l, p)
    {
      ChunkOutputEntry(exp, a, t, state, l, p, len, ps, n);
    }
    SameEntries(ChunkScan(exp, t, a, state), outs, len, ps);
    forall p, i | 0 <= p < ps && 0 <= i < n
      ensures Entry(s', p, i) == Entry(s, p, i)
    {
      ChunkStateEntry(exp, a, t, state, p, i, len, ps, n);
    }
    SameEntries(s', s, ps, n);
  }

  // --------------------------------------------------- all chunks of a sequence

  /** The state entering the chunk of size q that starts at token lo. */
  function StateAt(exp: real -> real, t: Tokens, a: real, q: nat, s0: Mat, n: nat, lo: nat): Mat
    requires q > 0 && lo <= |t.x| && |t.x| == |t.dt| == |t.b| == |t.c|
    decreases lo
  {
    if lo < q then s0
    else
      var chunk := t.Slice(lo - q, lo);
      Carry(exp(Cum(chunk, a, q - 1)), StateAt(exp, t, a, q, s0, n, lo - q), ChunkState(exp, chunk, a, |s0|, n))
  }

  /** The states entering the chunks before token lo. */
  function PrevStates(exp: real -> real, t: Tokens, a: real, q: nat, s0: Mat, n: nat, lo: nat): seq<Mat>
    requires q > 0 && lo <= |t.x| && |t.x| == |t.dt| == |t.b| == |t.c|
    decreases lo
  {
    if lo < q then []
    else PrevStates(exp, t, a, q, s0, n, lo - q) + [StateAt(exp, t, a, q, s0, n, lo - q)]
  }

  /** Outputs of the chunks before token lo, given the states entering them. */
  function Outputs(exp: real -> real, t: Tokens, a: real, q: nat, prevs: seq<Mat>, lo: nat): (y: Mat)
    requires q > 0 && lo <= |t.x| && |t.x| == |t.dt| == |t.b| == |t.c|
    decreases lo
  {
    if lo < q || prevs == [] then []
    else
      Outputs(exp, t, a, q, prevs[..|prevs| - 1], lo - q)
      + ChunkScan(exp, t.Slice(lo - q, lo), a, prevs[|prevs| - 1])
  }

  /** q more tokens, as one chunk. */
  lemma {:induction false} TokenScanChunk(exp: real -> real, t: Tokens, a: real, s0: Mat, lo: nat, q: nat, len: nat, ps: nat, n: nat)
    requires ExpLike(exp) && t.Valid(len, ps, n) && Shape(s0, ps, n) && lo + q <= len
    ensures var chunk := t.Slice(lo, lo + q);
            var (outs, s) := TokenScan(exp, a, t, s0, lo);
            TokenScan(exp, a, t, s0, lo + q)
            == (outs + ChunkScan(exp, chunk, a, s), Carry(exp(Cum(chunk, a, q - 1)), s, ChunkState(exp, chunk, a, ps, n)))
  {
    hide Times, Dot, Sum, Carry, ChunkState, ChunkScan, Cum;
    TokenScanShape(exp, a, t, s0, lo, len, ps, n);
    TokenScanSplit(exp, a, t, s0, lo, lo + q, q);
    ChunkIsTokens(exp, a, t.Slice(lo, lo + q), TokenScan(exp, a, t, s0, lo).1, q, ps, n);
  }

  lemma {:induction false} OutputsEmpty(exp: real -> real, t: Tokens, a: real, q: nat, s0: Mat, n: nat)
    requires q > 0 && |t.x| == |t.dt| == |t.b| == |t.c|
    ensures (Outputs(exp, t, a, q, PrevStates(exp, t, a, q, s0, n, 0), 0), StateAt(exp, t, a, q, s0, n, 0))
         == TokenScan(exp, a, t, s0, 0)
  {}

  lemma {:induction false} StateAtStep(exp: real -> real, t: Tokens, a: real, q: nat, s0: Mat, lo: nat, len: nat, ps: nat, n: nat)
    requires ExpLike(exp) && t.Valid(len, ps, n) && Shape(s0, ps, n) && q > 0 && lo + q <= len
    requires StateAt(exp, t, a, q, s0, n, lo) == TokenScan(exp, a, t, s0, lo).1
    ensures StateAt(exp, t, a, q, s0, n, lo + q) == TokenScan(exp, a, t, s0, lo + q).1
  {
    hide Times, Dot, Sum, Carry, ChunkState, ChunkScan, Cum, TokenScan, ExpLike;
    TokenScanChunk(exp, t, a, s0, lo, q, len, ps, n);
  }

  /** The state entering a chunk is the stepwise state after the tokens before it. */
  lemma {:induction false} StateAtIsTokenState(exp: real -> real, t: Tokens, a: real, q: nat, s0: Mat, c: nat, lo: nat, len: nat, ps: nat, n: nat)
    requires ExpLike(exp) && t.Valid(len, ps, n) && Shape(s0, ps, n) && q > 0 && lo == c * q <= len
    ensures StateAt(exp, t, a, q, s0, n, lo) == TokenScan(exp, a, t, s0, lo).1
  {
    hide Times, Dot, Sum, Cum, Carry, ChunkState, ChunkScan, StateAt, Outputs, PrevStates, TokenScan, ExpLike;
    OutputsEmpty(exp, t, a, q, s0, n);
    if c > 0 {
      assert lo - q == (c - 1) * q;
      StateAtIsTokenState(exp, t, a, q, s0, c - 1, lo - q, len, ps, n);
      StateAtStep(exp, t, a, q, s0, lo - q, len, ps, n);
    }
  }

  lemma {:induction false} OutputsUnfold(exp: real -> real, t: Tokens, a: real, q: nat, s0: Mat, n: nat, lo: nat)
    requires 0 < q && lo + q <= |t.x| && |t.x| == |t.dt| == |t.b| == |t.c|
    ensures Outputs(exp, t, a, q, PrevStates(exp, t, a, q, s0, n, lo + q), lo + q)
         == Outputs(exp, t, a, q, PrevStates(exp, t, a, q, s0, n, lo), lo)
            + ChunkScan(exp, t.Slice(lo, lo + q), a, StateAt(exp, t, a, q, s0, n, lo))
  {
    hide ChunkScan, StateAt;
    var prevs := PrevStates(exp, t, a, q, s0, n, lo + q);
    assert prevs[..|prevs| - 1] == PrevStates(exp, t, a, q, s0, n, lo);
  }

  lemma {:induction false} OutputsStep(exp: real -> real, t: Tokens, a: real, q: nat, s0: Mat, lo: nat, len: nat, ps: nat, n: nat)
    requires ExpLike(exp) && t.Valid(len, ps, n) && Shape(s0, ps, n) && q > 0 && lo + q <= len
    requires StateAt(exp, t, a, q, s0, n, lo) == TokenScan(exp, a, t, s0, lo).1
    requires Outputs(exp, t, a, q, PrevStates(exp, t, a, q, s0, n, lo), lo) == TokenScan(exp, a, t, s0, lo).0
    ensures Outputs(exp, t, a, q, PrevStates(exp, t, a, q, s0, n, lo + q), lo + q) == TokenScan(exp, a, t, s0, lo + q).0
  {
    hide Times, Dot, Sum, Cum, Carry, ChunkState, ChunkScan, StateAt, Outputs, PrevStates, TokenScan, ExpLike;
    TokenScanChunk(exp, t, a, s0, lo, q, len, ps, n);
    OutputsUnfold(exp, t, a, q, s0, n, lo);
  }

  /** The chunked pass outputs what the stepwise recurrence outputs, for any chunk size. */
  lemma {:induction false} OutputsAreTokenOutputs(exp: real -> real, t: Tokens, a: real, q: nat, s0: Mat, c: nat, lo: nat, len: nat, ps: nat, n: nat)
    requires ExpLike(exp) && t.Valid(len, ps, n) && Shape(s0, ps, n) && q > 0 && lo == c * q <= len
    ensures Outputs(exp, t, a, q, PrevStates(exp, t, a, q, s0, n, lo), lo) == TokenScan(exp, a, t, s0, lo).0
  {
    hide Times, Dot, Sum, Cum, Carry, ChunkState, ChunkScan, StateAt, Outputs, PrevStates, TokenScan, ExpLike;
    OutputsEmpty(exp, t, a, q, s0, n);
    if c > 0 {
      assert lo - q == (c - 1) * q;
      OutputsAreTokenOutputs(exp, t, a, q, s0, c - 1, lo - q, len, ps, n);
      StateAtIsTokenState(exp, t, a, q, s0, c - 1, lo - q, len, ps, n);
      OutputsStep(exp, t, a, q, s0, lo - q, len, ps, n);
    }
  }

  /** dt after the optional bias, the optional softplus and the clamp at zero. */
  function StepSize(softplus: real -> real, dt: real, bias: Option<real>, useSoftplus: bool): real {
    var biased := if bias.Some? then dt + bias.value else dt;
    var v := if useSoftplus then softplus(biased) else biased;
    if v < 0.0 then 0.0 else v
  }

  function StepSizes(softplus: real -> real, dt: Vec, bias: Option<real>, useSoftplus: bool): (r: Vec)
    ensures |r| == |dt|
  {
    seq(|dt|, i requires 0 <= i < |dt| => StepSize(softplus, dt[i], bias, useSoftplus))
  }

  function InitialState(initial: Option<Mat>, p: nat, n: nat): (s: Mat)
    ensures initial.Some? ==> s == initial.value
    ensures initial.None? ==> AllZero(s, p, n)
  {
    if initial.Some? then initial.value else seq(p, _ => seq(n, _ => 0.0))
  }

  lemma ZeroUnique(a: Mat, b: Mat, p: nat, n: nat)
    requires AllZero(a, p, n) && AllZero(b, p, n)
    ensures a == b
  {
    SameEntries(a, b, p, n);
  }

  /** The state a run starts from: the one given, or all zeros when none is. */
  ghost predicate StartsFrom(initial: Option<Mat>, p: nat, n: nat, s: Mat) {
    if initial.Some? then s == initial.value else AllZero(s, p, n)
  }

  lemma StartIs(initial: Option<Mat>, p: nat, n: nat, s: Mat)
    requires StartsFrom(initial, p, n, s)
    ensures s == InitialState(initial, p, n)
  {
    if initial.None? {
      ZeroUnique(s, InitialState(initial, p, n), p, n);
    }
  }

  /** The monolithic chunked pass. None when there is no chunk to stack or the length is not a
      whole number of chunks; otherwise its outputs are those of the stepwise recurrence. */
  method Forward(exp: real -> real, softplus: real -> real, x: Mat, dt: Vec, a: real, b: Mat, c: Mat,
                 bias: Option<real>, q: nat, useSoftplus: bool, initial: Option<Mat>, p: nat, n: nat)
    returns (y: Option<Mat>)
    requires ExpLike(exp) && q > 0
    requires Tokens(x, dt, b, c).Valid(|x|, p, n) && (initial.Some? ==> Shape(initial.value, p, n))
    ensures y.Some? <==> |x| % q == 0 && |x| > 0
    ensures y.Some? ==> forall s | StartsFrom(initial, p, n, s) ::
      y.value == TokenScan(exp, a, Tokens(x, StepSizes(softplus, dt, bias, useSoftplus), b, c), s, |x|).0
  {
    hide Times, Dot, Sum, Cum, ChunkState, Outputs, TokenScan, ExpLike, StateAt, PrevStates, StepSizes;
    if |x| % q != 0 || |x| == 0 {
      return None;
    }
    var t := Tokens(x, StepSizes(softplus, dt, bias, useSoftplus), b, c);
    var numChunks := |x| / q;
    var s := InitialState(initial, p, n);
    ghost var s0 := s;
    var prevStates := [];
    ghost var lo := 0;
    CarryStart(exp, t, a, q, s0, n);
    for ci := 0 to numChunks
      invariant lo == ci * q <= |x|
      invariant |s| == p
      invariant s == StateAt(exp, t, a, q, s0, n, lo)
      invariant prevStates == PrevStates(exp, t, a, q, s0, n, lo)
    {
      ChunkFits(ci, numChunks, q);
      CarryStep(exp, t, a, q, s0, n, lo);
      var chunk := t.Slice(ci * q, (ci + 1) * q);
      prevStates := prevStates + [s];
      s := Carry(exp(Cum(chunk, a, q - 1)), s, ChunkState(exp, chunk, a, p, n));
      lo := lo + q;
    }
    y := Some(Outputs(exp, t, a, q, prevStates, |x|));
    OutputsAreTokenOutputs(exp, t, a, q, s0, numChunks, |x|, |x|, p, n);
    forall s | StartsFrom(initial, p, n, s)
      ensures s == s0
    {
      StartIs(initial, p, n, s);
    }
  }

  lemma {:induction false} CarryStart(exp: real -> real, t: Tokens, a: real, q: nat, s0: Mat, n: nat)
    requires q > 0 && |t.x| == |t.dt| == |t.b| == |t.c|
    ensures StateAt(exp, t, a, q, s0, n, 0) == s0 && PrevStates(exp, t, a, q, s0, n, 0) == []
  {}

  lemma {:induction false} CarryStep(exp: real -> real, t: Tokens, a: real, q: nat, s0: Mat, n: nat, lo: nat)
    requires q > 0 && lo + q <= |t.x| && |t.x| == |t.dt| == |t.b| == |t.c|
    ensures PrevStates(exp, t, a, q, s0, n, lo + q)
         == PrevStates(exp, t, a, q, s0, n, lo) + [StateAt(exp, t, a, q, s0, n, lo)]
    ensures var chunk := t.Slice(lo, lo + q);
            StateAt(exp, t, a, q, s0, n, lo + q)
            == Carry(exp(Cum(chunk, a, q - 1)), StateAt(exp, t, a, q, s0, n, lo), ChunkState(exp, chunk, a, |s0|, n))
  {
    hide Carry, Cum, ChunkState;
  }

  lemma ChunkFits(c: nat, num: nat, q: nat)
    requires c < num
    ensures c * q + q == (c + 1) * q <= num * q
  {}
}
