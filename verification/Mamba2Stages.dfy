/** The separately defined Mamba-2 stages, and their composition into the monolithic pass. */
module Mamba2Stages {
  import opened Sums
  import opened Blocks
  import opened Wrappers
  import opened Mamba2

  // -------------------------------------------------------------------- stages

  function Clamp(v: real, lo: real, hi: Option<real>): real {
    var raised := if v < lo then lo else v;
    if hi.Some? && raised > hi.value then hi.value else raised
  }

  /** A clamped value is the point of [lo, hi] nearest to the unclamped one, lying between it and any other point of
      the range; should the bounds cross, it is the upper one. */
  lemma ClampIsNearest(v: real, lo: real, hi: Option<real>, w: real)
    ensures hi.Some? && lo > hi.value ==> Clamp(v, lo, hi) == hi.value
    ensures !(hi.Some? && lo > hi.value) ==> lo <= Clamp(v, lo, hi) && (hi.Some? ==> Clamp(v, lo, hi) <= hi.value)
    ensures lo <= w && (hi.Some? ==> w <= hi.value) ==> v <= Clamp(v, lo, hi) <= w || w <= Clamp(v, lo, hi) <= v
  {}

  /** The step size stage: bias, softplus, clamp to [lo, hi]; no upper bound when hi is absent. */
  function StageStepSizes(softplus: real -> real, dt: Vec, bias: Option<real>, useSoftplus: bool,
                          lo: real, hi: Option<real>): Vec {
    seq(|dt|, i requires 0 <= i < |dt| =>
      var biased := if bias.Some? then dt[i] + bias.value else dt[i];
      Clamp(if useSoftplus then softplus(biased) else biased, lo, hi))
  }

  /** The clamp makes every step size non-negative, whatever comes in, exactly when both its bounds are. */
  lemma StepsNonNegativeIff(lo: real, hi: Option<real>)
    ensures (forall v :: Clamp(v, lo, hi) >= 0.0) <==> lo >= 0.0 && (hi.Some? ==> hi.value >= 0.0)
  {
    if forall v :: Clamp(v, lo, hi) >= 0.0 {
      assert Clamp(lo, lo, hi) >= 0.0;
    }
  }

  lemma StepSizesNonNegative(softplus: real -> real, dt: Vec, bias: Option<real>, useSoftplus: bool,
                             lo: real, hi: Option<real>)
    requires lo >= 0.0 && (hi.Some? ==> hi.value >= 0.0)
    ensures var steps := StageStepSizes(softplus, dt, bias, useSoftplus, lo, hi);
            |steps| == |dt| && forall i | 0 <= i < |dt| :: steps[i] >= 0.0
  {
    StepsNonNegativeIff(lo, hi);
  }

  /** A chunk's inclusive prefix sums of dt * a. */
  function StageCumsum(dt: Vec, a: real): Vec {
    seq(|dt|, l => Prefix(Increments(dt, a), l + 1))
  }

  function Increments(dt: Vec, a: real): int -> real { i => Times(At(dt, i), a) }

  /** The causally masked coupling matrix of a chunk. */
  function StageCoupling(c: Mat, b: Mat): Mat
    requires |c| == |b|
  {
    seq(|c|, l requires 0 <= l < |c| =>
      seq(|b|, s requires 0 <= s < |b| => if s <= l then Dot(c[l], b[s]) else 0.0))
  }

  function AtMostZero(v: real): real { if v > 0.0 then 0.0 else v }

  /** Without sequence ids every token counts; with them, those of the last token's sequence, if it has one. */
  predicate Kept(seqIdx: Option<seq<int>>, q: int) {
    seqIdx.Some? ==>
      var ids := seqIdx.value;
      0 <= q < |ids| && ids[|ids| - 1] >= 0 && ids[q] == ids[|ids| - 1]
  }

  function StageWeight(exp: real -> real, dt: Vec, cum: Vec, seqIdx: Option<seq<int>>, q: int): real {
    if Kept(seqIdx, q) then Times(exp(AtMostZero(At(cum, |cum| - 1) - At(cum, q))), At(dt, q)) else 0.0
  }

  /** A kept token's weight is its step times its decay to the chunk's end, where a decay that would grow is held
      at exp(0). */
  lemma WeightClamped(exp: real -> real, dt: Vec, cum: Vec, seqIdx: Option<seq<int>>, q: int)
    ensures var d := At(cum, |cum| - 1) - At(cum, q);
            && (Kept(seqIdx, q) && d <= 0.0 ==> StageWeight(exp, dt, cum, seqIdx, q) == Times(exp(d), At(dt, q)))
            && (Kept(seqIdx, q) && d >= 0.0 ==> StageWeight(exp, dt, cum, seqIdx, q) == Times(exp(0.0), At(dt, q)))
            && (!Kept(seqIdx, q) ==> StageWeight(exp, dt, cum, seqIdx, q) == 0.0)
  {}

  function StageStateTerms(exp: real -> real, x: Mat, b: Mat, dt: Vec, cum: Vec, seqIdx: Option<seq<int>>, p: int, n: int)
    : int -> real
  {
    q => Times(Times(StageWeight(exp, dt, cum, seqIdx, q), Entry(b, q, n)), Entry(x, q, p))
  }

  /** What a chunk adds to the state, with the decay's exponent clamped at zero. */
  function StageChunkState(exp: real -> real, x: Mat, b: Mat, dt: Vec, cum: Vec, seqIdx: Option<seq<int>>, ps: nat, n: nat): Mat {
    seq(ps, i => seq(n, j => Sum(|x|, StageStateTerms(exp, x, b, dt, cum, seqIdx, i, j))))
  }

  /** The states before each chunk, as the scan defines them: the recurrence s_c+1 = exp(d_c) s_c + u_c. */
  function Carried(exp: real -> real, states: seq<Mat>, d: Vec, s0: Mat, c: nat): Mat
    requires c <= |states| == |d|
  {
    if c == 0 then s0 else Carry(exp(d[c - 1]), Carried(exp, states, d, s0, c - 1), states[c - 1])
  }

  /** The state passing stage: emits the state before every chunk and returns the final state.
      With no chunk at all it still emits the initial state. */
  method StatePassing(exp: real -> real, states: seq<Mat>, d: Vec, initial: Option<Mat>, p: nat, n: nat)
    returns (out: seq<Mat>, s: Mat)
    requires |states| == |d|
    ensures |out| == if |states| == 0 then 1 else |states|
    ensures forall c | 0 <= c < |out| :: out[c] == Carried(exp, states, d, InitialState(initial, p, n), c)
    ensures s == Carried(exp, states, d, InitialState(initial, p, n), |states|)
    ensures StartsFrom(initial, p, n, out[0])
  {
    hide Carry, Carried;
    s := InitialState(initial, p, n);
    ghost var s0 := s;
    out := [s];
    CarriedNext(exp, states, d, s0, 0);
    for ci := 0 to |states|
      invariant s == Carried(exp, states, d, s0, ci)
      invariant |out| == if ci < |states| then ci + 1 else if ci == 0 then 1 else ci
      invariant forall c | 0 <= c < |out| :: out[c] == Carried(exp, states, d, s0, c)
    {
      CarriedNext(exp, states, d, s0, ci);
      s := Carry(exp(d[ci]), s, states[ci]);
      if ci < |states| - 1 {
        out := out + [s];
      }
    }
  }

  lemma {:induction false} CarriedNext(exp: real -> real, states: seq<Mat>, d: Vec, s0: Mat, c: nat)
    requires c <= |states| == |d|
    ensures Carried(exp, states, d, s0, 0) == s0
    ensures c < |states| ==>
      Carried(exp, states, d, s0, c + 1) == Carry(exp(d[c]), Carried(exp, states, d, s0, c), states[c])
  {
    hide Carry;
  }

  function StageScanTerms(exp: real -> real, x: Mat, cb: Mat, cum: Vec, dt: Vec, l: int, p: int): int -> real {
    s => Times(Times(Times(Entry(cb, l, s), if s <= l then exp(At(cum, l) - At(cum, s)) else 0.0), At(dt, s)),
               Entry(x, s, p))
  }

  /** The scan is causal whatever coupling it is fed: a later token adds nothing to an earlier output. */
  lemma ScanIsCausal(exp: real -> real, x: Mat, cb: Mat, cum: Vec, dt: Vec, l: int, s: int, p: int)
    requires l < s
    ensures StageScanTerms(exp, x, cb, cum, dt, l, p)(s) == 0.0
  {
    hide At, Entry;
    ZeroFactor(Entry(cb, l, s));
    TimesZero(At(dt, s));
    TimesZero(Entry(x, s, p));
  }

  lemma ZeroFactor(x: real)
    ensures Times(x, 0.0) == 0.0
  {}

  /** The chunk scan stage: history path plus masked intra-chunk path. */
  function StageChunkScan(exp: real -> real, x: Mat, cb: Mat, cum: Vec, c: Mat, prev: Mat, dt: Vec): Mat
    requires |x| == |c|
  {
    seq(|x|, l requires 0 <= l < |x| =>
      seq(|prev|, p requires 0 <= p < |prev| =>
        Times(Dot(c[l], prev[p]), exp(At(cum, l))) + Sum(|x|, StageScanTerms(exp, x, cb, cum, dt, l, p))))
  }

  // ----------------------------------------------- each stage against the whole

  lemma StageCumsumIsCum(t: Tokens, a: real, l: int)
    requires 0 <= l < |t.dt|
    ensures At(StageCumsum(t.dt, a), l) == Cum(t, a, l)
  {
    SumExt(l + 1, Increments(t.dt, a), t.DA(a));
  }

  lemma PrefixStep(f: int -> real, n: nat)
    requires n > 0
    ensures Prefix(f, n) == Prefix(f, n - 1) + f(n - 1)
  {
    assert Sum(n, f) == Sum(n - 1, f) + f(n - 1);
  }

  /** Prefix sums of non-positive terms do not increase. */
  lemma {:induction false} PrefixDecreases(f: int -> real, m: nat, n: nat)
    requires m <= n && forall i | m <= i < n :: f(i) <= 0.0
    ensures Prefix(f, n) <= Prefix(f, m)
  {
    if m < n {
      PrefixDecreases(f, m, n - 1);
      PrefixStep(f, n);
    }
  }

  lemma {:induction false} PrefixIncreases(f: int -> real, m: nat, k: nat, n: nat)
    requires m <= k < n && f(k) > 0.0 && forall i | m <= i < n :: f(i) >= 0.0
    ensures Prefix(f, n) > Prefix(f, m)
  {
    PrefixStep(f, n);
    if k == n - 1 {
      PrefixGrows(f, m, k);
    } else {
      PrefixIncreases(f, m, k, n - 1);
    }
  }

  lemma {:induction false} PrefixGrows(f: int -> real, m: nat, n: nat)
    requires m <= n && forall i | m <= i < n :: f(i) >= 0.0
    ensures Prefix(f, n) >= Prefix(f, m)
  {
    if m < n {
      PrefixGrows(f, m, n - 1);
      PrefixStep(f, n);
    }
  }

  lemma SignOfProduct(d: real, a: real)
    requires d >= 0.0
    ensures a <= 0.0 || d == 0.0 ==> Times(d, a) <= 0.0
    ensures a > 0.0 ==> Times(d, a) >= 0.0
    ensures a > 0.0 && d > 0.0 ==> Times(d, a) > 0.0
  {}

  /** With non-negative step sizes the clamp of the decay exponent changes nothing exactly when
      a <= 0 or no token after the first has a positive step. */
  lemma ClampIdleIff(dt: Vec, a: real)
    requires forall i | 0 <= i < |dt| :: dt[i] >= 0.0
    ensures (forall q | 0 <= q < |dt| :: At(StageCumsum(dt, a), |dt| - 1) - At(StageCumsum(dt, a), q) <= 0.0)
       <==> (a <= 0.0 || forall i | 1 <= i < |dt| :: dt[i] == 0.0)
  {
    var f, cum := Increments(dt, a), StageCumsum(dt, a);
    forall i | 0 <= i < |dt|
      ensures a <= 0.0 || dt[i] == 0.0 ==> f(i) <= 0.0
      ensures a > 0.0 ==> f(i) >= 0.0
      ensures a > 0.0 && dt[i] > 0.0 ==> f(i) > 0.0
    {
      SignOfProduct(dt[i], a);
    }
    if a <= 0.0 || forall i | 1 <= i < |dt| :: dt[i] == 0.0 {
      forall q | 0 <= q < |dt|
        ensures At(cum, |dt| - 1) - At(cum, q) <= 0.0
      {
        PrefixDecreases(f, q + 1, |dt|);
      }
    } else {
      var k :| 1 <= k < |dt| && dt[k] != 0.0;
      PrefixIncreases(f, 1, k, |dt|);
      assert At(cum, |dt| - 1) - At(cum, 0) > 0.0;
    }
  }

  lemma StageStateTerm(exp: real -> real, t: Tokens, a: real, q: nat, i: int, j: int)
    requires |t.x| == |t.dt| == |t.b| && q < |t.x|
    requires At(StageCumsum(t.dt, a), |t.x| - 1) - At(StageCumsum(t.dt, a), q) <= 0.0
    ensures StageStateTerms(exp, t.x, t.b, t.dt, StageCumsum(t.dt, a), None, i, j)(q) == StateTerms(exp, t, a, i, j)(q)
  {
    StageCumsumIsCum(t, a, |t.x| - 1);
    StageCumsumIsCum(t, a, q);
    Permute(DecayToEnd(exp, t, a, q), t.dt[q], Entry(t.b, q, j), Entry(t.x, q, i));
  }

  lemma Permute(e: real, d: real, b: real, x: real)
    ensures Times(Times(Times(e, d), b), x) == Times(Times(x, Times(e, d)), b)
  {}

  /** For step sizes >= 0 and a <= 0 the clamped chunk state is the unclamped one. */
  lemma StageChunkStateAgrees(exp: real -> real, t: Tokens, a: real, ps: nat, n: nat)
    requires |t.x| == |t.dt| == |t.b| && a <= 0.0 && forall i | 0 <= i < |t.dt| :: t.dt[i] >= 0.0
    ensures StageChunkState(exp, t.x, t.b, t.dt, StageCumsum(t.dt, a), None, ps, n) == ChunkState(exp, t, a, ps, n)
  {
    hide Times, Dot, Sum, Prefix, StageStateTerms, StateTerms;
    ClampIdleIff(t.dt, a);
    var cum := StageCumsum(t.dt, a);
    forall i, j | 0 <= i < ps && 0 <= j < n
      ensures Sum(|t.x|, StageStateTerms(exp, t.x, t.b, t.dt, cum, None, i, j)) == Sum(|t.x|, StateTerms(exp, t, a, i, j))
    {
      forall q | 0 <= q < |t.x|
        ensures StageStateTerms(exp, t.x, t.b, t.dt, cum, None, i, j)(q) == StateTerms(exp, t, a, i, j)(q)
      {
        StageStateTerm(exp, t, a, q, i, j);
      }
      SumExt(|t.x|, StageStateTerms(exp, t.x, t.b, t.dt, cum, None, i, j), StateTerms(exp, t, a, i, j));
    }
    var r, s := StageChunkState(exp, t.x, t.b, t.dt, cum, None, ps, n), ChunkState(exp, t, a, ps, n);
    forall i | 0 <= i < ps
      ensures r[i] == s[i]
    {
      assert forall j | 0 <= j < n :: r[i][j] == s[i][j];
    }
  }

  // ------------------------------------------------------ packed sequences in a chunk

  lemma {:induction false} SumShift(m: nat, n: nat, f: int -> real, g: int -> real)
    requires forall i | 0 <= i < m :: f(i) == 0.0
    requires forall i | 0 <= i < n :: f(m + i) == g(i)
    ensures Sum(m + n, f) == Sum(n, g)
  {
    if n == 0 {
      SumZero(m, f);
    } else {
      SumShift(m, n - 1, f, g);
    }
  }

  /** Prefix sums of a suffix lag behind by what came before it. */
  lemma {:induction false} CumOfSuffix(t: Tokens, a: real, m: nat, i: nat)
    requires m + i < |t.x| && |t.x| == |t.dt| == |t.b| == |t.c|
    ensures Cum(t, a, m + i) == Prefix(t.DA(a), m) + Cum(t.Slice(m, |t.x|), a, i)
  {
    hide Times;
    var s := t.Slice(m, |t.x|);
    PrefixStep(t.DA(a), m + i + 1);
    PrefixStep(s.DA(a), i + 1);
    assert t.DA(a)(m + i) == s.DA(a)(i);
    if i > 0 {
      CumOfSuffix(t, a, m, i - 1);
    }
  }

  /** ids runs of one sequence from m to the end of the chunk, and nowhere before. */
  ghost predicate LastRun(ids: seq<int>, m: nat) {
    m < |ids| && ids[|ids| - 1] >= 0 && forall q | 0 <= q < |ids| :: ids[q] == ids[|ids| - 1] <==> m <= q
  }

  lemma KeptTerm(exp: real -> real, t: Tokens, a: real, ids: seq<int>, m: nat, q: nat, i: int, j: int)
    requires Stepping(t, a) && LastRun(ids, m) && |ids| == |t.x| && m + q < |t.x|
    ensures var s := t.Slice(m, |t.x|);
            StageStateTerms(exp, t.x, t.b, t.dt, StageCumsum(t.dt, a), Some(ids), i, j)(m + q) == StateTerms(exp, s, a, i, j)(q)
  {
    hide Times, Prefix, Cum;
    var s, last := t.Slice(m, |t.x|), |t.x| - 1;
    ClampIdleIff(t.dt, a);
    StageCumsumIsCum(t, a, last);
    StageCumsumIsCum(t, a, m + q);
    CumOfSuffix(t, a, m, q);
    CumOfSuffix(t, a, m, last - m);
    Permute(DecayToEnd(exp, s, a, q), s.dt[q], Entry(s.b, q, j), Entry(s.x, q, i));
  }

  lemma DroppedTerm(exp: real -> real, t: Tokens, a: real, ids: seq<int>, m: nat, q: nat, i: int, j: int)
    requires LastRun(ids, m) && q < m
    ensures StageStateTerms(exp, t.x, t.b, t.dt, StageCumsum(t.dt, a), Some(ids), i, j)(q) == 0.0
  {
    TimesZero(Entry(t.b, q, j));
    TimesZero(Entry(t.x, q, i));
  }

  /** With packed sequences, a chunk passes on the state of its last sequence alone: what that sequence's tokens
      leave behind when run one by one from a zero state. */
  lemma {:induction false} MaskedStateIsLastSequence(exp: real -> real, t: Tokens, a: real, ids: seq<int>, m: nat, ps: nat, n: nat)
    requires ExpLike(exp) && Stepping(t, a) && t.Valid(|t.x|, ps, n) && |ids| == |t.x| && LastRun(ids, m)
    ensures StageChunkState(exp, t.x, t.b, t.dt, StageCumsum(t.dt, a), Some(ids), ps, n)
         == TokenScan(exp, a, t.Slice(m, |t.x|), InitialState(None, ps, n), |t.x| - m).1
  {
    hide Times, Dot, Sum, Prefix, Cum, StageStateTerms, StateTerms, TokenScan, StageCumsum, LastRun;
    LastRunInside(ids, m);
    var s, len, cum := t.Slice(m, |t.x|), |t.x| - m, StageCumsum(t.dt, a);
    forall i, j | 0 <= i < ps && 0 <= j < n
      ensures Sum(|t.x|, StageStateTerms(exp, t.x, t.b, t.dt, cum, Some(ids), i, j)) == Sum(len, StateTerms(exp, s, a, i, j))
    {
      MaskedEntry(exp, t, a, ids, m, i, j);
    }
    var r, w := StageChunkState(exp, t.x, t.b, t.dt, cum, Some(ids), ps, n), ChunkState(exp, s, a, ps, n);
    forall i | 0 <= i < ps
      ensures r[i] == w[i]
    {
      assert forall j | 0 <= j < n :: r[i][j] == w[i][j];
    }
    SuffixValid(t, m, ps, n);
    ChunkIsTokens(exp, a, s, InitialState(None, ps, n), len, ps, n);
    CarryZero(exp(Cum(s, a, len - 1)), w, ps, n);
  }

  lemma LastRunInside(ids: seq<int>, m: nat)
    requires LastRun(ids, m)
    ensures m < |ids|
  {}

  lemma {:induction false} MaskedEntry(exp: real -> real, t: Tokens, a: real, ids: seq<int>, m: nat, i: int, j: int)
    requires Stepping(t, a) && |ids| == |t.x| && LastRun(ids, m)
    ensures Sum(|t.x|, StageStateTerms(exp, t.x, t.b, t.dt, StageCumsum(t.dt, a), Some(ids), i, j))
         == Sum(|t.x| - m, StateTerms(exp, t.Slice(m, |t.x|), a, i, j))
  {
    hide Sum, StageStateTerms, StateTerms, StageCumsum;
    var f, g := StageStateTerms(exp, t.x, t.b, t.dt, StageCumsum(t.dt, a), Some(ids), i, j),
                StateTerms(exp, t.Slice(m, |t.x|), a, i, j);
    forall q | 0 <= q < m
      ensures f(q) == 0.0
    {
      DroppedTerm(exp, t, a, ids, m, q, i, j);
    }
    forall q | 0 <= q < |t.x| - m
      ensures f(m + q) == g(q)
    {
      KeptTerm(exp, t, a, ids, m, q, i, j);
    }
    SumShift(m, |t.x| - m, f, g);
  }

  lemma SuffixValid(t: Tokens, m: nat, ps: nat, n: nat)
    requires m <= |t.x| && t.Valid(|t.x|, ps, n)
    ensures t.Slice(m, |t.x|).Valid(|t.x| - m, ps, n) && Shape(InitialState(None, ps, n), ps, n)
  {}

  lemma CarryZero(scale: real, u: Mat, ps: nat, n: nat)
    requires Shape(u, ps, n)
    ensures Carry(scale, InitialState(None, ps, n), u) == u
  {
    TimesZero(scale);
    SameEntries(Carry(scale, InitialState(None, ps, n), u), u, ps, n);
  }

  /** A chunk that ends outside every sequence passes on nothing. */
  lemma NoSequenceNoState(exp: real -> real, t: Tokens, a: real, ids: seq<int>, ps: nat, n: nat)
    requires ids != [] && ids[|ids| - 1] < 0
    ensures StageChunkState(exp, t.x, t.b, t.dt, StageCumsum(t.dt, a), Some(ids), ps, n) == InitialState(None, ps, n)
  {
    hide Sum, StageStateTerms, StageCumsum;
    var r := StageChunkState(exp, t.x, t.b, t.dt, StageCumsum(t.dt, a), Some(ids), ps, n);
    forall i, j | 0 <= i < ps && 0 <= j < n
      ensures r[i][j] == 0.0
    {
      var f := StageStateTerms(exp, t.x, t.b, t.dt, StageCumsum(t.dt, a), Some(ids), i, j);
      forall q | 0 <= q < |t.x|
        ensures f(q) == 0.0
      {
        NoTerm(exp, t, a, ids, q, i, j);
      }
      SumZero(|t.x|, f);
    }
    assert forall i | 0 <= i < ps :: r[i] == InitialState(None, ps, n)[i];
  }

  lemma NoTerm(exp: real -> real, t: Tokens, a: real, ids: seq<int>, q: nat, i: int, j: int)
    requires ids != [] && ids[|ids| - 1] < 0
    ensures StageStateTerms(exp, t.x, t.b, t.dt, StageCumsum(t.dt, a), Some(ids), i, j)(q) == 0.0
  {
    TimesZero(Entry(t.b, q, j));
    TimesZero(Entry(t.x, q, i));
  }

  lemma StageScanTerm(exp: real -> real, t: Tokens, a: real, l: nat, s: nat, p: int)
    requires |t.x| == |t.dt| == |t.b| == |t.c| && l < |t.x| && s < |t.x|
    ensures StageScanTerms(exp, t.x, StageCoupling(t.c, t.b), StageCumsum(t.dt, a), t.dt, l, p)(s)
         == IntraTerms(exp, t, a, l, p)(s)
  {
    StageCumsumIsCum(t, a, l);
    StageCumsumIsCum(t, a, s);
    assert Entry(StageCoupling(t.c, t.b), l, s) == Coupling(t, l, s);
  }

  lemma {:induction false} StageChunkScanAgrees(exp: real -> real, t: Tokens, a: real, prev: Mat)
    requires |t.x| == |t.dt| == |t.b| == |t.c|
    ensures StageChunkScan(exp, t.x, StageCoupling(t.c, t.b), StageCumsum(t.dt, a), t.c, prev, t.dt)
         == ChunkScan(exp, t, a, prev)
  {
    hide Times, Dot, Sum, Prefix, StageScanTerms, IntraTerms, StageCumsum, StageCoupling, Cum;
    var cb, cum := StageCoupling(t.c, t.b), StageCumsum(t.dt, a);
    var r, s := StageChunkScan(exp, t.x, cb, cum, t.c, prev, t.dt), ChunkScan(exp, t, a, prev);
    forall l, p | 0 <= l < |t.x| && 0 <= p < |prev|
      ensures r[l][p] == s[l][p]
    {
      forall i | 0 <= i < |t.x|
        ensures StageScanTerms(exp, t.x, cb, cum, t.dt, l, p)(i) == IntraTerms(exp, t, a, l, p)(i)
      {
        StageScanTerm(exp, t, a, l, i, p);
      }
      SumExt(|t.x|, StageScanTerms(exp, t.x, cb, cum, t.dt, l, p), IntraTerms(exp, t, a, l, p));
      StageCumsumIsCum(t, a, l);
    }
    assert forall l | 0 <= l < |t.x| :: r[l] == s[l];
  }

  // ------------------------------------------------------ the composed pipeline

  /** Each chunk's own state, for the chunks before token lo. */
  function ChunkStates(exp: real -> real, t: Tokens, a: real, q: nat, ps: nat, n: nat, lo: nat): seq<Mat>
    requires q > 0 && lo <= |t.x| && |t.x| == |t.dt| == |t.b| == |t.c|
    decreases lo
  {
    if lo < q then []
    else
      var c := t.Slice(lo - q, lo);
      ChunkStates(exp, t, a, q, ps, n, lo - q) + [StageChunkState(exp, c.x, c.b, c.dt, StageCumsum(c.dt, a), None, ps, n)]
  }

  /** Each chunk's last prefix sum, for the chunks before token lo. */
  function ChunkLogs(t: Tokens, a: real, q: nat, lo: nat): Vec
    requires q > 0 && lo <= |t.x| && |t.x| == |t.dt| == |t.b| == |t.c|
    decreases lo
  {
    if lo < q then []
    else ChunkLogs(t, a, q, lo - q) + [At(StageCumsum(t.Slice(lo - q, lo).dt, a), q - 1)]
  }

  /** The chunk scans of the chunks before token lo, laid end to end. */
  function StagedOutputs(exp: real -> real, t: Tokens, a: real, q: nat, prevs: seq<Mat>, lo: nat): Mat
    requires q > 0 && lo <= |t.x| && |t.x| == |t.dt| == |t.b| == |t.c|
    decreases lo
  {
    if lo < q || prevs == [] then []
    else
      var c := t.Slice(lo - q, lo);
      StagedOutputs(exp, t, a, q, prevs[..|prevs| - 1], lo - q)
      + StageChunkScan(exp, c.x, StageCoupling(c.c, c.b), StageCumsum(c.dt, a), c.c, prevs[|prevs| - 1], c.dt)
  }

  lemma {:induction false} CarriedPrefix(exp: real -> real, states: seq<Mat>, d: Vec, s: Mat, e: real, s0: Mat, c: nat)
    requires c <= |states| == |d|
    ensures Carried(exp, states + [s], d + [e], s0, c) == Carried(exp, states, d, s0, c)
  {
    hide Carry;
    if c > 0 {
      CarriedPrefix(exp, states, d, s, e, s0, c - 1);
    }
  }

  ghost predicate Stepping(t: Tokens, a: real) {
    |t.x| == |t.dt| == |t.b| == |t.c| && a <= 0.0 && forall i | 0 <= i < |t.dt| :: t.dt[i] >= 0.0
  }

  lemma {:induction false} CarriedStep(exp: real -> real, t: Tokens, a: real, q: nat, s0: Mat, n: nat, lo: nat)
    requires Stepping(t, a) && q > 0 && lo + q <= |t.x|
    requires |ChunkStates(exp, t, a, q, |s0|, n, lo)| == |ChunkLogs(t, a, q, lo)|
    requires Carried(exp, ChunkStates(exp, t, a, q, |s0|, n, lo), ChunkLogs(t, a, q, lo), s0, |ChunkLogs(t, a, q, lo)|)
          == StateAt(exp, t, a, q, s0, n, lo)
    ensures |ChunkStates(exp, t, a, q, |s0|, n, lo + q)| == |ChunkLogs(t, a, q, lo + q)| == |ChunkLogs(t, a, q, lo)| + 1
    ensures Carried(exp, ChunkStates(exp, t, a, q, |s0|, n, lo + q), ChunkLogs(t, a, q, lo + q), s0, |ChunkLogs(t, a, q, lo + q)|)
         == StateAt(exp, t, a, q, s0, n, lo + q)
  {
    hide Times, Carry, StageChunkState, ChunkState, StageCumsum, Cum, Sum;
    var c, states, d := t.Slice(lo, lo + q), ChunkStates(exp, t, a, q, |s0|, n, lo), ChunkLogs(t, a, q, lo);
    StageChunkStateAgrees(exp, c, a, |s0|, n);
    StageCumsumIsCum(c, a, q - 1);
    CarriedPrefix(exp, states, d, ChunkState(exp, c, a, |s0|, n), Cum(c, a, q - 1), s0, |d|);
  }

  /** The carried chunk states are the states the monolithic pass enters its chunks with. */
  lemma {:induction false} CarriedIsStateAt(exp: real -> real, t: Tokens, a: real, q: nat, s0: Mat, n: nat, c: nat, lo: nat)
    requires Stepping(t, a) && q > 0 && lo == c * q <= |t.x|
    ensures |ChunkStates(exp, t, a, q, |s0|, n, lo)| == |ChunkLogs(t, a, q, lo)| == c
    ensures Carried(exp, ChunkStates(exp, t, a, q, |s0|, n, lo), ChunkLogs(t, a, q, lo), s0, c) == StateAt(exp, t, a, q, s0, n, lo)
  {
    hide ChunkStates, ChunkLogs, Carried, StateAt;
    if c == 0 {
      NothingCarried(exp, t, a, q, s0, n);
    } else {
      Successor(c - 1, q);
      CarriedIsStateAt(exp, t, a, q, s0, n, c - 1, lo - q);
      CarriedStep(exp, t, a, q, s0, n, lo - q);
    }
  }

  lemma {:induction false} NothingCarried(exp: real -> real, t: Tokens, a: real, q: nat, s0: Mat, n: nat)
    requires q > 0 && |t.x| == |t.dt| == |t.b| == |t.c|
    ensures |ChunkStates(exp, t, a, q, |s0|, n, 0)| == |ChunkLogs(t, a, q, 0)| == 0
    ensures Carried(exp, ChunkStates(exp, t, a, q, |s0|, n, 0), ChunkLogs(t, a, q, 0), s0, 0) == StateAt(exp, t, a, q, s0, n, 0)
  {}

  /** Given the monolithic pass's entering states, the staged scans output what it outputs. */
  lemma {:induction false} StagedOutputsAgree(exp: real -> real, t: Tokens, a: real, q: nat, prevs: seq<Mat>, lo: nat)
    requires q > 0 && lo <= |t.x| && |t.x| == |t.dt| == |t.b| == |t.c|
    ensures StagedOutputs(exp, t, a, q, prevs, lo) == Outputs(exp, t, a, q, prevs, lo)
    decreases lo
  {
    hide ChunkScan, StageChunkScan, StageCumsum, StageCoupling;
    if lo >= q && prevs != [] {
      StagedOutputsAgree(exp, t, a, q, prevs[..|prevs| - 1], lo - q);
      StageChunkScanAgrees(exp, t.Slice(lo - q, lo), a, prevs[|prevs| - 1]);
    }
  }

  lemma {:induction false} PrevStatesAt(exp: real -> real, t: Tokens, a: real, q: nat, s0: Mat, n: nat, c: nat, lo: nat, i: nat)
    requires q > 0 && lo == c * q <= |t.x| && |t.x| == |t.dt| == |t.b| == |t.c|
    ensures |PrevStates(exp, t, a, q, s0, n, lo)| == c
    ensures i < c ==> i * q <= lo && PrevStates(exp, t, a, q, s0, n, lo)[i] == StateAt(exp, t, a, q, s0, n, i * q)
  {
    hide StateAt;
    if c > 0 {
      assert lo - q == (c - 1) * q;
      PrevStatesAt(exp, t, a, q, s0, n, c - 1, lo - q, i);
    }
  }

  lemma {:induction false} ListsGrow(exp: real -> real, t: Tokens, a: real, q: nat, ps: nat, n: nat, lo: nat)
    requires 0 < q <= lo <= |t.x| && |t.x| == |t.dt| == |t.b| == |t.c|
    ensures ChunkStates(exp, t, a, q, ps, n, lo - q) <= ChunkStates(exp, t, a, q, ps, n, lo)
    ensures ChunkLogs(t, a, q, lo - q) <= ChunkLogs(t, a, q, lo)
  {
    hide StageChunkState, StageCumsum;
  }

  lemma {:induction false} ChunkListsPrefix(exp: real -> real, t: Tokens, a: real, q: nat, s0: Mat, n: nat, c: nat, lo: nat, i: nat)
    requires Stepping(t, a) && q > 0 && lo == c * q <= |t.x| && i <= c
    ensures i * q <= lo
    ensures |ChunkStates(exp, t, a, q, |s0|, n, lo)| == |ChunkLogs(t, a, q, lo)| == c
    ensures ChunkStates(exp, t, a, q, |s0|, n, lo)[..i] == ChunkStates(exp, t, a, q, |s0|, n, i * q)
    ensures ChunkLogs(t, a, q, lo)[..i] == ChunkLogs(t, a, q, i * q)
  {
    hide ChunkStates, ChunkLogs, Carried, StateAt;
    CarriedIsStateAt(exp, t, a, q, s0, n, c, lo);
    if i < c {
      assert lo - q == (c - 1) * q;
      ChunkListsPrefix(exp, t, a, q, s0, n, c - 1, lo - q, i);
      ListsGrow(exp, t, a, q, |s0|, n, lo);
    }
  }

  lemma {:induction false} CarriedTake(exp: real -> real, states: seq<Mat>, d: Vec, s0: Mat, c: nat, m: nat)
    requires c <= m <= |states| == |d|
    ensures Carried(exp, states[..m], d[..m], s0, c) == Carried(exp, states, d, s0, c)
  {
    hide Carry;
    if c > 0 {
      CarriedTake(exp, states, d, s0, c - 1, m);
    }
  }

  /** Cumsum, coupling, chunk state, state passing and chunk scan, composed over given step sizes: what the
      state passing stage emits are the states entering each chunk, and the chunk scans built on them output
      what the stepwise recurrence outputs. */
  method StagedChunks(exp: real -> real, t: Tokens, a: real, q: nat, initial: Option<Mat>, p: nat, n: nat)
    returns (y: Mat, final: Mat)
    requires ExpLike(exp) && Stepping(t, a) && t.Valid(|t.x|, p, n) && (initial.Some? ==> Shape(initial.value, p, n))
    requires q > 0 && |t.x| % q == 0
    ensures (y, final) == TokenScan(exp, a, t, InitialState(initial, p, n), |t.x|)
  {
    hide Times, Sum, Dot, Carry, StageChunkState, ChunkState, ChunkScan, StageChunkScan, StageCumsum, Cum, TokenScan,
         StateAt, StagedOutputs, Outputs, PrevStates, ChunkStates, ChunkLogs, Carried;
    var num, len := |t.x| / q, |t.x|;
    ghost var s0 := InitialState(initial, p, n);
    var states, d := ChunkStates(exp, t, a, q, p, n, len), ChunkLogs(t, a, q, len);
    CarriedIsStateAt(exp, t, a, q, s0, n, num, len);
    var prevs;
    prevs, final := StatePassing(exp, states, d, initial, p, n);
    StateAtIsTokenState(exp, t, a, q, s0, num, len, len, p, n);
    PrevsAgree(exp, t, a, q, s0, n, num, len, states, d, prevs);
    y := StagedOutputs(exp, t, a, q, prevs[..num], len);
    StagedOutputsAgree(exp, t, a, q, prevs[..num], len);
    OutputsAreTokenOutputs(exp, t, a, q, s0, num, len, len, p, n);
  }

  /** From 0 and without an upper bound, the step size stage computes the monolithic pass's step sizes. */
  lemma StepSizesAgree(softplus: real -> real, dt: Vec, bias: Option<real>, useSoftplus: bool)
    ensures StageStepSizes(softplus, dt, bias, useSoftplus, 0.0, None) == StepSizes(softplus, dt, bias, useSoftplus)
  {}

  /** All stages from raw step sizes to outputs: bias, softplus and clamp, then the chunked stages. The result
      is the stepwise recurrence over the clamped steps, and with the default bounds it is what the
      monolithic pass computes. None when the chunks do not make up the sequence. */
  method StagedForward(exp: real -> real, softplus: real -> real, x: Mat, dt: Vec, a: real, b: Mat, c: Mat,
                       bias: Option<real>, useSoftplus: bool, lo: real, hi: Option<real>, num: nat, q: nat,
                       initial: Option<Mat>, p: nat, n: nat)
    returns (r: Option<(Mat, Mat)>)
    requires ExpLike(exp) && q > 0 && a <= 0.0 && lo >= 0.0 && (hi.Some? ==> hi.value >= 0.0)
    requires Tokens(x, dt, b, c).Valid(|x|, p, n) && (initial.Some? ==> Shape(initial.value, p, n))
    ensures r.Some? <==> |x| == num * q
    ensures r.Some? ==> forall s | StartsFrom(initial, p, n, s) ::
      r.value == TokenScan(exp, a, Tokens(x, StageStepSizes(softplus, dt, bias, useSoftplus, lo, hi), b, c), s, |x|)
    ensures r.Some? && lo == 0.0 && hi.None? ==> forall s | StartsFrom(initial, p, n, s) ::
      r.value == TokenScan(exp, a, Tokens(x, StepSizes(softplus, dt, bias, useSoftplus), b, c), s, |x|)
  {
    hide TokenScan, ExpLike, StageStepSizes, StepSizes;
    if |x| != num * q {
      return None;
    }
    MultipleOf(num, q);
    var steps := StageStepSizes(softplus, dt, bias, useSoftplus, lo, hi);
    StepSizesNonNegative(softplus, dt, bias, useSoftplus, lo, hi);
    StepSizesAgree(softplus, dt, bias, useSoftplus);
    var y, final := StagedChunks(exp, Tokens(x, steps, b, c), a, q, initial, p, n);
    r := Some((y, final));
    forall s | StartsFrom(initial, p, n, s)
      ensures s == InitialState(initial, p, n)
    {
      StartIs(initial, p, n, s);
    }
  }

  lemma {:induction false} PrevsAgree(exp: real -> real, t: Tokens, a: real, q: nat, s0: Mat, n: nat, num: nat, len: nat,
                                      states: seq<Mat>, d: Vec, prevs: seq<Mat>)
    requires Stepping(t, a) && q > 0 && len == |t.x| == num * q
    requires states == ChunkStates(exp, t, a, q, |s0|, n, len) && d == ChunkLogs(t, a, q, len) && |states| == |d| == num
    requires |prevs| == if num == 0 then 1 else num
    requires forall c | 0 <= c < |prevs| :: prevs[c] == Carried(exp, states, d, s0, c)
    ensures prevs[..num] == PrevStates(exp, t, a, q, s0, n, len)
  {
    hide Carry, StageChunkState, ChunkState, StageCumsum, Cum, Sum, StateAt, PrevStates, ChunkStates, ChunkLogs, Carried;
    PrevStatesAt(exp, t, a, q, s0, n, num, len, num);
    forall c | 0 <= c < num
      ensures prevs[c] == PrevStates(exp, t, a, q, s0, n, len)[c]
    {
      PrevStatesAt(exp, t, a, q, s0, n, num, len, c);
      ChunkListsPrefix(exp, t, a, q, s0, n, num, len, c);
      CarriedIsStateAt(exp, t, a, q, s0, n, c, c * q);
      CarriedTake(exp, states, d, s0, c, c);
    }
  }
}
