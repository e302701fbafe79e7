/** What a mixture-of-experts layer computes: the staged pipeline (permute, experts on tight segments,
    unpermute) and the expert-by-expert loop both give the dense mixture. */
module MoePipeline {
  import opened Wrappers
  import opened Sums
  import opened Segments
  import opened Blocks
  import opened MoeRouting
  import MoeLayouts
  import MoeLayoutWriter

  /** Tokens, and for each of a token's K picks an expert and a weight, flat in token order. */
  datatype Layer = Layer(hidden: seq<Row>, picks: seq<int>, weights: seq<real>, K: nat, E: nat, H: nat,
                         expert: (nat, Row) -> Row)
  {
    ghost predicate Shaped() { |picks| == |weights| == |hidden| * K }
  }

  function PickAt(picks: seq<int>, i: int): int { if 0 <= i < |picks| then picks[i] else -1 }

  // ---------------------------------------------------------------- dense mixture

  /** Coordinate c of what pick k adds to token t: its weight times its expert's output. A pick that
      names no expert adds nothing. */
  function MixTerm(l: Layer, t: nat, c: int, k: int): real
    requires t < |l.hidden|
  {
    var e := PickAt(l.picks, t * l.K + k);
    if 0 <= e < l.E then Times(At(l.weights, t * l.K + k), At(l.expert(e, l.hidden[t]), c)) else 0.0
  }

  function MixTerms(l: Layer, t: nat, c: int): int -> real
    requires t < |l.hidden|
  {
    k => MixTerm(l, t, c, k)
  }

  /** The weighted sum of a token's picks. */
  function Mixture(l: Layer, t: nat): (r: Row)
    requires t < |l.hidden|
    ensures |r| == l.H
  {
    seq(l.H, c requires 0 <= c < l.H => Sum(l.K, MixTerms(l, t, c)))
  }

  lemma FlatIndex(t: nat, k: nat, T: nat, K: nat)
    requires t < T && k < K
    ensures t * K + k < T * K && (t * K + k) / K == t
  {
    NextBlock(t, T, K);
    QuotientIs(t * K + k, t, k, K);
  }

  // -------------------------------------------------------------------- unpermute

  function GatherTerms(rows: seq<Row>, fwdIdx: seq<nat>, weights: seq<real>, base: int, c: int): int -> real {
    k => Times(At(weights, base + k), At(RowAt(rows, fwdIdx, base + k), c))
  }

  function RowAt(rows: seq<Row>, fwdIdx: seq<nat>, i: int): Row {
    if 0 <= i < |fwdIdx| && fwdIdx[i] < |rows| then rows[fwdIdx[i]] else []
  }

  /** The first n rows gathered for a token, weighted and added up. */
  function Gathered(rows: seq<Row>, fwdIdx: seq<nat>, weights: seq<real>, base: int, n: nat, H: nat): (r: Row)
    ensures |r| == H
  {
    seq(H, c requires 0 <= c < H => Sum(n, GatherTerms(rows, fwdIdx, weights, base, c)))
  }

  lemma GatheredStep(rows: seq<Row>, fwdIdx: seq<nat>, weights: seq<real>, base: int, n: nat, H: nat)
    ensures Gathered(rows, fwdIdx, weights, base, n + 1, H)
         == AddScaled(Gathered(rows, fwdIdx, weights, base, n, H), At(weights, base + n), RowAt(rows, fwdIdx, base + n))
    ensures Gathered(rows, fwdIdx, weights, base, 0, H) == seq(H, _ => 0.0)
  {}

  /** Brings each pair's row back to its token, scaled by its weight. */
  method Unpermute(rows: seq<Row>, fwdIdx: seq<nat>, weights: seq<real>, T: nat, K: nat, H: nat)
    returns (output: seq<Row>)
    requires |fwdIdx| == |weights| == T * K && forall i | 0 <= i < |fwdIdx| :: fwdIdx[i] < |rows|
    ensures |output| == T
    ensures forall t | 0 <= t < T :: output[t] == Gathered(rows, fwdIdx, weights, t * K, K, H)
  {
    hide Gathered;
    var out := new Row[T](_ => seq(H, _ => 0.0));
    for t := 0 to T
      invariant forall i | 0 <= i < t :: out[i] == Gathered(rows, fwdIdx, weights, i * K, K, H)
      invariant forall i | t <= i < T :: out[i] == seq(H, _ => 0.0)
    {
      GatheredStep(rows, fwdIdx, weights, t * K, 0, H);
      for k := 0 to K
        invariant forall i | 0 <= i < t :: out[i] == Gathered(rows, fwdIdx, weights, i * K, K, H)
        invariant out[t] == Gathered(rows, fwdIdx, weights, t * K, k, H)
        invariant forall i | t < i < T :: out[i] == seq(H, _ => 0.0)
      {
        FlatIndex(t, k, T, K);
        GatheredStep(rows, fwdIdx, weights, t * K, k, H);
        var flat := t * K + k;
        out[t] := AddScaled(out[t], weights[flat], rows[fwdIdx[flat]]);
      }
    }
    output := out[..];
  }

  // -------------------------------------------------------------- staged pipeline

  /** On tight segments given by their running ends, pair i's slot holds its expert's output for its token. */
  lemma {:induction false} StagedRow(p: Permuted, l: Layer, owners: seq<nat>, computed: seq<Row>, ends: seq<int>, i: nat)
    requires Owned(owners, l.E) && |owners| == |l.hidden| * l.K && IsTight(p, l.hidden, owners, l.K, l.E)
    requires ends == p.offsets[1..] && |computed| == |p.rows| && i < |owners|
    requires forall s | 0 <= s < |p.rows| ::
      computed[s] == MoeLayouts.RowResult(MoeLayouts.PsumOwner(ends, false, 1, |p.rows|, l.E, s), l.expert, p.rows[s], [])
    ensures l.K > 0 && i / l.K < |l.hidden| && p.fwdIdx[i] < |computed|
    ensures computed[p.fwdIdx[i]] == l.expert(owners[i], l.hidden[i / l.K])
  {
    hide Slot, Counts, Running, Fits, Owned, Owns, MoeLayouts.PsumOwner;
    CountsFit(owners, l.E);
    var s := p.fwdIdx[i];
    SlotInSegment(p.sizes, owners, i);
    MoeLayoutWriter.PsumReadsTight(ends, p.sizes, s);
    OwnerUnique(p.sizes, owners[i], MoeLayouts.PsumOwner(ends, false, 1, |p.rows|, l.E, s).value, s);
  }

  lemma GatheredIsMixture(p: Permuted, l: Layer, owners: seq<nat>, computed: seq<Row>, t: nat)
    requires l.Shaped() && Owned(owners, l.E) && l.picks == owners && t < |l.hidden|
    requires |p.fwdIdx| == |owners|
    requires owners != [] ==> l.K > 0
    requires forall i | 0 <= i < |owners| :: i / l.K < |l.hidden| && p.fwdIdx[i] < |computed|
    requires forall i | 0 <= i < |owners| :: computed[p.fwdIdx[i]] == l.expert(owners[i], l.hidden[i / l.K])
    ensures Gathered(computed, p.fwdIdx, l.weights, t * l.K, l.K, l.H) == Mixture(l, t)
  {
    forall c | 0 <= c < l.H
      ensures Gathered(computed, p.fwdIdx, l.weights, t * l.K, l.K, l.H)[c] == Mixture(l, t)[c]
    {
      var a, b := GatherTerms(computed, p.fwdIdx, l.weights, t * l.K, c), MixTerms(l, t, c);
      forall k | 0 <= k < l.K
        ensures a(k) == b(k)
      {
        FlatIndex(t, k, |l.hidden|, l.K);
      }
      SumExt(l.K, a, b);
    }
  }

  /** The layer with every pick resolved as a list index. */
  function Resolved(l: Layer): (r: Layer)
    ensures |r.picks| == |l.picks| && r.hidden == l.hidden && r.H == l.H
  {
    l.(picks := Owners(l.picks, l.E))
  }

  /** Permute, experts on the tight segments, unpermute: every token gets its dense mixture. */
  method Staged(l: Layer) returns (r: Option<seq<Row>>)
    requires l.Shaped()
    ensures r.Some? <==> InRange(l.picks, l.E)
    ensures r.Some? ==> |r.value| == |l.hidden|
    ensures r.Some? ==> forall t | 0 <= t < |l.hidden| :: r.value[t] == Mixture(Resolved(l), t)
  {
    hide Mixture, IsTight, Owned, Owners, InRange, Gathered, MoeLayouts.PsumOwner;
    var permuted := PermuteTight(l.hidden, l.picks, l.K, l.E);
    if permuted.None? {
      return None;
    }
    var p := permuted.value;
    ghost var owners := Owners(l.picks, l.E);
    TightShape(p, l.hidden, owners, l.K, l.E);
    var ends := p.offsets[1..];
    var computed := MoeLayouts.ReadRows(p.rows, ends, MoeLayouts.TightPsum, l.E, 1, 0, l.expert, []);
    forall i: nat | i < |owners|
      ensures l.K > 0 && i / l.K < |l.hidden| && p.fwdIdx[i] < |computed.value|
      ensures computed.value[p.fwdIdx[i]] == l.expert(owners[i], l.hidden[i / l.K])
    {
      StagedRow(p, l, owners, computed.value, ends, i);
    }
    var output := Unpermute(computed.value, p.fwdIdx, l.weights, |l.hidden|, l.K, l.H);
    forall t: nat | t < |l.hidden|
      ensures output[t] == Mixture(Resolved(l), t)
    {
      GatheredIsMixture(p, Resolved(l), owners, computed.value, t);
    }
    r := Some(output);
  }

  lemma TightShape(p: Permuted, hidden: seq<Row>, owners: seq<nat>, K: nat, E: nat)
    requires Owned(owners, E) && |owners| == |hidden| * K && IsTight(p, hidden, owners, K, E)
    ensures |p.offsets| == E + 1 && |p.rows| == |p.fwdIdx| == |owners|
  {}

  // ------------------------------------------------------------ expert-by-expert

  /** What pick k adds to coordinate c of token t when it is expert e's turn. */
  function HitTerm(l: Layer, t: nat, c: int, e: int, k: int): real
    requires t < |l.hidden|
  {
    if 0 <= e && PickAt(l.picks, t * l.K + k) == e
    then Times(At(l.weights, t * l.K + k), At(l.expert(e, l.hidden[t]), c))
    else 0.0
  }

  function HitTable(l: Layer, t: nat, c: int): (int, int) -> real
    requires t < |l.hidden|
  {
    (e, k) => HitTerm(l, t, c, e, k)
  }

  function HitSum(l: Layer, t: nat, c: int, e: int, n: nat): real
    requires t < |l.hidden|
  {
    Sum(n, Sums.RowOf(HitTable(l, t, c), e))
  }

  function HitSums(l: Layer, t: nat, c: int): int -> real
    requires t < |l.hidden|
  {
    e => HitSum(l, t, c, e, l.K)
  }

  /** What a token has after the first e experts and n picks of expert e. */
  function Accumulated(l: Layer, t: nat, e: nat, n: nat): (r: Row)
    requires t < |l.hidden|
    ensures |r| == l.H
  {
    seq(l.H, c requires 0 <= c < l.H => Sum(e, HitSums(l, t, c)) + HitSum(l, t, c, e, n))
  }

  lemma AccumulatedStep(l: Layer, t: nat, e: nat, n: nat)
    requires t < |l.hidden|
    ensures Accumulated(l, t, e, n + 1)
         == if PickAt(l.picks, t * l.K + n) == e
            then AddScaled(Accumulated(l, t, e, n), At(l.weights, t * l.K + n), l.expert(e, l.hidden[t]))
            else Accumulated(l, t, e, n)
  {}

  lemma AccumulatedNext(l: Layer, t: nat, e: nat)
    requires t < |l.hidden|
    ensures Accumulated(l, t, e, l.K) == Accumulated(l, t, e + 1, 0)
    ensures Accumulated(l, t, 0, 0) == seq(l.H, _ => 0.0)
  {}

  /** Summing over experts first or over picks first gives the same. */
  lemma LoopIsMixture(l: Layer, t: nat)
    requires t < |l.hidden|
    ensures Accumulated(l, t, l.E, 0) == Mixture(l, t)
  {
    forall c | 0 <= c < l.H
      ensures Accumulated(l, t, l.E, 0)[c] == Mixture(l, t)[c]
    {
      forall k | 0 <= k < l.K
        ensures MixTerms(l, t, c)(k) == Sum(l.E, Sums.ColOf(HitTable(l, t, c), k))
      {
        OneExpert(l, t, c, k);
      }
      SumSwap(l.E, l.K, HitTable(l, t, c), HitSums(l, t, c), MixTerms(l, t, c));
    }
  }

  /** A pick is hit in exactly one expert's turn, or in none. */
  lemma {:induction false} OneExpert(l: Layer, t: nat, c: int, k: int)
    requires t < |l.hidden|
    ensures MixTerm(l, t, c, k) == Sum(l.E, Sums.ColOf(HitTable(l, t, c), k))
  {
    var pick, column := PickAt(l.picks, t * l.K + k), Sums.ColOf(HitTable(l, t, c), k);
    if 0 <= pick < l.E {
      SumSingle(l.E, pick, column);
    } else {
      SumZero(l.E, column);
    }
  }

  /** Clears the buffer and adds each expert's output to the tokens that picked it, one expert at a time;
      a token that picked an expert twice gets it twice, and a pick outside [0, E) is never anyone's turn. */
  method ExpertLoop(l: Layer, buffer: array<Row>) returns (output: seq<Row>)
    requires l.Shaped() && buffer.Length == |l.hidden|
    modifies buffer
    ensures output == buffer[..]
    ensures forall t | 0 <= t < |l.hidden| :: output[t] == Mixture(l, t)
  {
    hide Accumulated, Mixture;
    var T := |l.hidden|;
    for t := 0 to T
      invariant forall i | 0 <= i < t :: buffer[i] == seq(l.H, _ => 0.0)
    {
      buffer[t] := seq(l.H, _ => 0.0);
    }
    forall t: nat | t < T
      ensures Accumulated(l, t, 0, 0) == seq(l.H, _ => 0.0)
    {
      AccumulatedNext(l, t, 0);
    }
    for e := 0 to l.E
      invariant forall i | 0 <= i < T :: buffer[i] == Accumulated(l, i, e, 0)
    {
      for t := 0 to T
        invariant forall i | 0 <= i < T :: buffer[i] == if i < t then Accumulated(l, i, e + 1, 0) else Accumulated(l, i, e, 0)
      {
        AddPicks(buffer, l, t, e);
        AccumulatedNext(l, t, e);
      }
    }
    forall t: nat | t < T
      ensures Accumulated(l, t, l.E, 0) == Mixture(l, t)
    {
      LoopIsMixture(l, t);
    }
    output := buffer[..];
  }

  /** Expert e's turn for token t. */
  method AddPicks(buffer: array<Row>, l: Layer, t: nat, e: nat)
    requires l.Shaped() && t < |l.hidden| == buffer.Length && buffer[t] == Accumulated(l, t, e, 0)
    modifies buffer
    ensures buffer[t] == Accumulated(l, t, e, l.K)
    ensures forall i | 0 <= i < buffer.Length && i != t :: buffer[i] == old(buffer[i])
  {
    hide Accumulated;
    for k := 0 to l.K
      invariant buffer[t] == Accumulated(l, t, e, k)
      invariant forall i | 0 <= i < buffer.Length && i != t :: buffer[i] == old(buffer[i])
    {
      FlatIndex(t, k, |l.hidden|, l.K);
      AccumulatedStep(l, t, e, k);
      if l.picks[t * l.K + k] == e {
        buffer[t] := AddScaled(buffer[t], l.weights[t * l.K + k], l.expert(e, l.hidden[t]));
      }
    }
  }

  lemma PicksResolve(l: Layer)
    requires forall i | 0 <= i < |l.picks| :: 0 <= l.picks[i] < l.E
    ensures InRange(l.picks, l.E) && Resolved(l) == l
  {
    assert Owners(l.picks, l.E) == l.picks;
  }

  /** With every pick naming an expert, the staged pipeline and the loop compute the same rows. */
  method StagedAndLoop(l: Layer) returns (staged: Option<seq<Row>>, looped: seq<Row>)
    requires l.Shaped() && forall i | 0 <= i < |l.picks| :: 0 <= l.picks[i] < l.E
    ensures staged == Some(looped)
  {
    hide Mixture, InRange, Resolved;
    PicksResolve(l);
    staged := Staged(l);
    var buffer := new Row[|l.hidden|](_ => []);
    looped := ExpertLoop(l, buffer);
    assert staged.value == looped;
  }

  // ------------------------------------------------ when the two programs agree

  /** A layer of the given size whose picks are these. */
  ghost predicate Runs(l: Layer, picks: seq<int>, T: nat, K: nat, E: nat, H: nat) {
    l.Shaped() && l.picks == picks && |l.hidden| == T && l.K == K && l.E == E && l.H == H
  }

  /** All the weight on pair i, and experts that always answer one. */
  function Probe(picks: seq<int>, T: nat, K: nat, E: nat, H: nat, i: nat): Layer {
    Layer(seq(T, _ => []), picks, seq(|picks|, j => if j == i then 1.0 else 0.0), K, E, H, (_, _) => seq(H, _ => 1.0))
  }

  lemma ProbeTerm(picks: seq<int>, T: nat, K: nat, E: nat, H: nat, i: nat, t: nat, k: nat)
    requires |picks| == T * K && t < T && k < K && H > 0
    ensures t * K + k < |picks|
    ensures MixTerm(Probe(picks, T, K, E, H, i), t, 0, k)
         == if t * K + k == i && 0 <= picks[t * K + k] < E then 1.0 else 0.0
  {
    FlatIndex(t, k, T, K);
    TimesZero(1.0);
  }

  lemma ProbeMixture(picks: seq<int>, T: nat, K: nat, E: nat, H: nat, i: nat)
    requires |picks| == T * K && i < |picks| && H > 0
    ensures K > 0 && i / K < T
    ensures Mixture(Probe(picks, T, K, E, H, i), i / K)[0] == if 0 <= picks[i] < E then 1.0 else 0.0
  {
    hide Probe, MixTerm;
    BlockOf(i, T, K);
    Division(i, K);
    var l, t := Probe(picks, T, K, E, H, i), i / K;
    ProbeShape(picks, T, K, E, H, i);
    forall k: nat | k < K
      ensures MixTerms(l, t, 0)(k) == if k == i % K && 0 <= picks[i] < E then 1.0 else 0.0
    {
      ProbeTerm(picks, T, K, E, H, i, t, k);
    }
    SumSingle(K, i % K, MixTerms(l, t, 0));
  }

  lemma ProbeShape(picks: seq<int>, T: nat, K: nat, E: nat, H: nat, i: nat)
    requires |picks| == T * K
    ensures Runs(Probe(picks, T, K, E, H, i), picks, T, K, E, H)
    ensures Resolved(Probe(picks, T, K, E, H, i)) == Probe(Owners(picks, E), T, K, E, H, i)
  {
    hide Owners;
    assert seq(|picks|, j => if j == i then 1.0 else 0.0)
        == seq(|Owners(picks, E)|, j => if j == i then 1.0 else 0.0);
  }

  /** For ids that index the experts, the staged pipeline (which mixes resolved picks) and the loop (which
      mixes the picks as they are) give the same rows on all hidden states, weights and experts exactly when
      no id is negative, or rows have no coordinates to differ in. */
  lemma ProgramsAgreeIff(picks: seq<int>, T: nat, K: nat, E: nat, H: nat)
    requires |picks| == T * K && InRange(picks, E)
    ensures (H == 0 || forall i | 0 <= i < |picks| :: picks[i] >= 0)
       <==> forall l: Layer, t: nat | Runs(l, picks, T, K, E, H) && t < T :: Mixture(Resolved(l), t) == Mixture(l, t)
  {
    hide Mixture, Resolved, Probe;
    if H == 0 || forall i | 0 <= i < |picks| :: picks[i] >= 0 {
      forall l: Layer, t: nat | Runs(l, picks, T, K, E, H) && t < T
        ensures Mixture(Resolved(l), t) == Mixture(l, t)
      {
        RunsAgree(l, picks, T, K, E, H, t);
      }
    } else {
      var i :| 0 <= i < |picks| && picks[i] < 0;
      NegativePickDiffers(picks, T, K, E, H, i);
    }
  }

  /** A negative id separates them: the pipeline counts it from the end, the loop never reaches it. */
  lemma NegativePickDiffers(picks: seq<int>, T: nat, K: nat, E: nat, H: nat, i: nat)
    requires |picks| == T * K && InRange(picks, E) && i < |picks| && picks[i] < 0 && H > 0
    ensures K > 0 && i / K < T && Runs(Probe(picks, T, K, E, H, i), picks, T, K, E, H)
    ensures var l := Probe(picks, T, K, E, H, i); Mixture(Resolved(l), i / K) != Mixture(l, i / K)
  {
    hide Mixture, Resolved, Probe, InRange;
    BlockOf(i, T, K);
    InRangeOwned(picks, E);
    ProbeShape(picks, T, K, E, H, i);
    ProbeMixture(picks, T, K, E, H, i);
    ProbeMixture(Owners(picks, E), T, K, E, H, i);
  }

  lemma RunsAgree(l: Layer, picks: seq<int>, T: nat, K: nat, E: nat, H: nat, t: nat)
    requires Runs(l, picks, T, K, E, H) && InRange(picks, E) && t < T
    requires H == 0 || forall i | 0 <= i < |picks| :: picks[i] >= 0
    ensures Mixture(Resolved(l), t) == Mixture(l, t)
  {
    hide Mixture;
    if H == 0 {
      assert Mixture(Resolved(l), t) == [] == Mixture(l, t);
    } else {
      forall i: nat | i < |l.picks|
        ensures 0 <= l.picks[i] < l.E
      {
        assert IsIndex(picks[i], E);
      }
      PicksResolve(l);
    }
  }
}
