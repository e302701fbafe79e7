/** Expert layouts: the writer that lays rows out per expert and the reader that finds each row's
    expert again from the layout's metadata. */
module MoeLayouts {
  import opened Wrappers
  import opened Segments
  import opened Blocks

  type Row = seq<real>

  datatype Layout = Masked | TightPsum | AlignedPsum | PerRow | OtherLayout

  datatype Distribution = Uniform | Skewed | OtherDistribution

  datatype Activation = SiluAndMul | GeluAndMul | OtherActivation

  datatype Error =
    | UnknownDistribution
    | NoExperts
    | BadMaskedRows
    | UnknownLayout
    | BadAlignment
    | TooFewTiles
    | UnknownActivation

  function Max(a: int, b: int): int { if a < b then b else a }

  // ---------------------------------------------------------------- expert sizes

  /** Sum of the first n sizes, any of which may be negative. */
  function Total(sizes: seq<int>, n: nat): int
    requires n <= |sizes|
  {
    if n == 0 then 0 else Total(sizes, n - 1) + sizes[n - 1]
  }

  /** An even share; the last expert takes what is left. */
  function UniformShare(numel: nat, E: nat, base: int, e: nat): int {
    if e == E - 1 then numel - base * (E - 1) else base
  }

  /** One row each, and the extra rows spread over the top experts, the remainder to the first. */
  function SkewedShare(extra: int, top: nat, perTop: int, e: nat): int {
    1 + (if e < top then perTop else 0) + (if e == 0 then extra - perTop * top else 0)
  }

  function Base(numel: nat, E: nat): int
    requires E > 0
  {
    Max(1, numel / E)
  }

  function Top(E: nat): nat { Max(1, E / 5) }

  function PerTop(numel: nat, E: nat): int { (numel - E) / Top(E) }

  /** Expert e's share of numel rows among E experts. */
  function Share(numel: nat, E: nat, d: Distribution, e: nat): int
    requires e < E
  {
    if d == Uniform then UniformShare(numel, E, Base(numel, E), e)
    else SkewedShare(numel - E, Top(E), PerTop(numel, E), e)
  }

  function Shares(numel: nat, E: nat, d: Distribution): (r: seq<int>)
    ensures |r| == E
  {
    seq(E, e requires 0 <= e < E => Share(numel, E, d, e))
  }

  function Least(a: int, b: int): int { if a < b then a else b }

  lemma {:induction false} StepTotal(sizes: seq<int>, first: int, low: int, top: nat, high: int, n: nat)
    requires n <= |sizes| && (n > 0 ==> top > 0)
    requires forall e | 0 <= e < n :: sizes[e] == (if e == 0 then first else 0) + if e < top then low else high
    ensures Total(sizes, n) == (if n > 0 then first else 0) + low * Least(n, top) + high * (n - Least(n, top))
  {
    if n > 0 {
      StepTotal(sizes, first, low, top, high, n - 1);
      var m := Least(n, top);
      if n <= top {
        assert low * n == low * (n - 1) + low;
      } else {
        assert high * (n - top) == high * (n - 1 - top) + high;
      }
    }
  }

  lemma {:induction false} UniformTotal(sizes: seq<int>, numel: nat, E: nat, base: int)
    requires |sizes| == E > 0 && forall e: nat | e < E :: sizes[e] == UniformShare(numel, E, base, e)
    ensures Total(sizes, E) == numel
  {
    StepTotal(sizes, 0, base, E, 0, E - 1);
  }

  lemma {:induction false} SkewedTotal(sizes: seq<int>, numel: nat, E: nat, top: nat, perTop: int)
    requires |sizes| == E > 0 && 0 < top <= E
    requires forall e: nat | e < E :: sizes[e] == SkewedShare(numel - E, top, perTop, e)
    ensures Total(sizes, E) == numel
  {
    StepTotal(sizes, numel - E - perTop * top, 1 + perTop, top, 1, E);
    Distribute(1, perTop, top);
  }

  /** The shares add up to the rows asked for, whatever the distribution and however few the rows. */
  lemma {:induction false} SharesTotal(numel: nat, E: nat, d: Distribution)
    requires E > 0
    ensures Total(Shares(numel, E, d), E) == numel
  {
    hide UniformShare, SkewedShare, Base, PerTop;
    if d == Uniform {
      UniformTotal(Shares(numel, E, d), numel, E, Base(numel, E));
    } else {
      SkewedTotal(Shares(numel, E, d), numel, E, Top(E), PerTop(numel, E));
    }
  }

  /** Every expert gets a row exactly when there is one for each. */
  lemma SharesPositiveIff(numel: nat, E: nat, d: Distribution)
    requires E > 0
    ensures (forall e | 0 <= e < E :: Shares(numel, E, d)[e] >= 1) <==> numel >= E
  {
    var sizes := Shares(numel, E, d);
    SharesTotal(numel, E, d);
    if numel >= E {
      forall e | 0 <= e < E
        ensures sizes[e] >= 1
      {
        SharePositive(numel, E, d, e);
      }
    }
    if forall e | 0 <= e < E :: sizes[e] >= 1 {
      TotalAtLeast(sizes, E);
    }
  }

  /** A fifth of the experts, at least one, are the top ones. */
  lemma TopIsFifth(E: nat)
    ensures Top(E) >= 1 && (E >= 5 ==> 5 * Top(E) <= E < 5 * Top(E) + 5) && (E < 5 ==> Top(E) == 1)
  {}

  /** Skewed: experts past the top fifth get one row each; the top ones get the same, except that the first also
      takes what does not divide, less than one row for each of them. */
  lemma SkewedShape(numel: nat, E: nat, e: nat)
    requires 0 < e < E
    ensures var s := Shares(numel, E, Skewed);
            && (e >= Top(E) ==> s[e] == 1)
            && (e < Top(E) ==> 0 <= s[0] - s[e] < Top(E))
            && (e < Top(E) ==> forall d | 0 < d < Top(E) && d < E :: s[d] == s[e])
  {
    Division(numel - E, Top(E));
  }

  /** Uniform: all but the last expert get the same; with a row for each, the last gets that and less than one
      row per expert more. */
  lemma UniformShape(numel: nat, E: nat, e: nat)
    requires 0 <= e < E - 1
    ensures var s := Shares(numel, E, Uniform);
            s[e] == s[0] >= 1 && (numel >= E ==> s[0] <= s[E - 1] < s[0] + E)
  {
    if numel >= E {
      Division(numel, E);
      CancelFactor(0, numel / E, E);
      Distribute(E, -1, numel / E);
    }
  }

  lemma SharePositive(numel: nat, E: nat, d: Distribution, e: nat)
    requires e < E <= numel
    ensures Share(numel, E, d, e) >= 1
  {
    if d == Uniform {
      Division(numel, E);
      CancelFactor(0, numel / E, E);
      Distribute(E, -1, numel / E);
    } else {
      Division(numel - E, Top(E));
      DivMonotone(0, numel - E, Top(E));
    }
  }

  lemma {:induction false} TotalAtLeast(sizes: seq<int>, n: nat)
    requires n <= |sizes| && forall e | 0 <= e < n :: sizes[e] >= 1
    ensures Total(sizes, n) >= n
  {
    if n > 0 {
      TotalAtLeast(sizes, n - 1);
    }
  }

  method UniformSizes(numel: nat, E: nat) returns (sizes: seq<int>)
    requires E > 0
    ensures sizes == Shares(numel, E, Uniform)
  {
    var base := Base(numel, E);
    sizes := seq(E, _ => base);
    sizes := sizes[E - 1 := numel - base * (E - 1)];
    SizesAre(sizes, numel, E, Uniform);
  }

  method SkewedSizes(numel: nat, E: nat) returns (sizes: seq<int>)
    requires E > 0
    ensures sizes == Shares(numel, E, Skewed)
  {
    hide PerTop, Shares;
    sizes := seq(E, _ => 1);
    var extra, top := numel - E, Top(E);
    var perTop := PerTop(numel, E);
    for e := 0 to top
      invariant |sizes| == E
      invariant forall i | 0 <= i < E :: sizes[i] == if i < e then 1 + perTop else 1
    {
      sizes := sizes[e := sizes[e] + perTop];
    }
    sizes := sizes[0 := sizes[0] + (extra - perTop * top)];
    SizesAre(sizes, numel, E, Skewed);
  }

  lemma SizesAre(sizes: seq<int>, numel: nat, E: nat, d: Distribution)
    requires |sizes| == E && forall e: nat | e < E :: sizes[e] == Share(numel, E, d, e)
    ensures sizes == Shares(numel, E, d)
  {
    hide Share;
  }

  /** Sizes and their starting offsets. */
  method MakeExpertSizes(numel: nat, E: nat, d: Distribution) returns (r: Result<(seq<int>, seq<int>), Error>)
    ensures r.Err? <==> d == OtherDistribution || E == 0
    ensures r.Err? ==> r.error == if d == OtherDistribution then UnknownDistribution else NoExperts
    ensures r.Ok? ==> r.value.0 == Shares(numel, E, d) && Total(r.value.0, E) == numel
    ensures r.Ok? ==> |r.value.1| == E && forall e | 0 <= e < E :: r.value.1[e] == Total(r.value.0, e)
  {
    hide Shares, Total;
    if d == OtherDistribution {
      return Err(UnknownDistribution);
    }
    if E == 0 {
      return Err(NoExperts);
    }
    var sizes;
    if d == Uniform {
      sizes := UniformSizes(numel, E);
    } else {
      sizes := SkewedSizes(numel, E);
    }
    SharesTotal(numel, E, d);
    TotalStep(sizes, 0);
    var offsets := [0];
    for e := 1 to E
      invariant |offsets| == e && forall i | 0 <= i < e :: offsets[i] == Total(sizes, i)
    {
      TotalStep(sizes, e - 1);
      offsets := offsets + [offsets[e - 1] + sizes[e - 1]];
    }
    r := Ok((sizes, offsets));
  }

  lemma {:induction false} TotalStep(sizes: seq<int>, n: nat)
    requires n < |sizes|
    ensures Total(sizes, 0) == 0 && Total(sizes, n + 1) == Total(sizes, n) + sizes[n]
  {}

  // ---------------------------------------------------------------------- reader

  /** A slice bound: negative counts from the end, and both ends are clipped. */
  function Clip(i: int, n: nat): (r: nat)
    ensures r <= n
  {
    if i < 0 then (if i + n < 0 then 0 else i + n) else if i > n then n else i
  }

  /** A bound between -n and -1 is that far from the end, one further back is the start, one past the end the end. */
  lemma ClipFromEnd(i: int, n: nat)
    ensures -1 >= i && i + n >= 0 ==> n - Clip(i, n) == -i
    ensures i + n < 0 ==> Clip(i, n) == 0
    ensures 0 <= i <= n ==> Clip(i, n) == i
    ensures i > n ==> Clip(i, n) == n
  {}

  /** x rounded up to a whole multiple, by floor division of its negation. */
  function RoundUp(x: int, alignment: nat): int
    requires alignment > 0
  {
    -((-x) / alignment) * alignment
  }

  /** Where the reader starts expert g: the end before it, rounded up in an aligned layout. */
  function ReadStart(ends: seq<int>, aligned: bool, alignment: nat, g: nat): int
    requires g < |ends| && alignment > 0
  {
    var previous := if g == 0 then 0 else ends[g - 1];
    if aligned then RoundUp(previous, alignment) else previous
  }

  predicate Reads(ends: seq<int>, aligned: bool, alignment: nat, n: nat, g: nat, r: int)
    requires g < |ends| && alignment > 0
  {
    Clip(ReadStart(ends, aligned, alignment, g), n) <= r < Clip(ends[g], n)
  }

  /** The last of the first g experts whose slice holds row r: it wrote the row last. */
  function PsumOwner(ends: seq<int>, aligned: bool, alignment: nat, n: nat, g: nat, r: int): Option<nat>
    requires g <= |ends| && alignment > 0
  {
    if g == 0 then None
    else if Reads(ends, aligned, alignment, n, g - 1, r) then Some(g - 1)
    else PsumOwner(ends, aligned, alignment, n, g - 1, r)
  }

  /** The expert the metadata gives row r of n to. */
  function RowOwner(layout: Layout, metadata: seq<int>, E: nat, alignment: nat, maxM: nat, n: nat, r: nat): Option<nat>
    requires r < n && Readable(layout, metadata, E, alignment, maxM, n)
  {
    match layout
    case Masked =>
      BlockOf(r, E, maxM);
      if r % maxM < Clip(metadata[r / maxM], maxM) then Some(r / maxM) else None
    case TightPsum => PsumOwner(metadata, false, alignment, n, E, r)
    case AlignedPsum => PsumOwner(metadata, true, alignment, n, E, r)
    case PerRow => if 0 <= metadata[r] < E then Some(metadata[r]) else None
    case OtherLayout => None
  }

  /** One metadata entry per expert, or per row; masked rows come in slabs of maxM. */
  predicate Readable(layout: Layout, metadata: seq<int>, E: nat, alignment: nat, maxM: nat, n: nat) {
    && alignment > 0
    && |metadata| == (if layout == PerRow then n else E)
    && (layout == Masked ==> n == E * maxM)
  }

  /** A row as the reader leaves it: what its expert computes of it, or zero. */
  function RowResult(owner: Option<nat>, f: (nat, Row) -> Row, row: Row, zero: Row): Row {
    if owner.Some? then f(owner.value, row) else zero
  }

  /** Applies each expert to its rows, one expert at a time. */
  method ReadRows(a: seq<Row>, metadata: seq<int>, layout: Layout, E: nat, alignment: nat, maxM: nat,
                  f: (nat, Row) -> Row, zero: Row)
    returns (r: Result<seq<Row>, Error>)
    requires Readable(layout, metadata, E, alignment, maxM, |a|)
    ensures r.Err? <==> layout == OtherLayout
    ensures r.Err? ==> r.error == UnknownLayout
    ensures r.Ok? ==> |r.value| == |a|
    ensures r.Ok? ==> forall i | 0 <= i < |a| ::
      r.value[i] == RowResult(RowOwner(layout, metadata, E, alignment, maxM, |a|, i), f, a[i], zero)
  {
    match layout {
      case Masked =>
        var out := ReadMasked(a, metadata, E, maxM, f, zero);
        r := Ok(out);
      case TightPsum =>
        var out := ReadPsum(a, metadata, false, alignment, f, zero);
        r := Ok(out);
      case AlignedPsum =>
        var out := ReadPsum(a, metadata, true, alignment, f, zero);
        r := Ok(out);
      case PerRow =>
        var out := ReadPerRow(a, metadata, E, f, zero);
        r := Ok(out);
      case OtherLayout =>
        r := Err(UnknownLayout);
    }
  }

  /** act(gate) * up, over a row of gate columns and then up columns. */
  function Gated(act: real -> real, row: Row): (r: Row)
    ensures |r| == |row| / 2
  {
    seq(|row| / 2, i requires 0 <= i < |row| / 2 => act(row[i]) * row[|row| / 2 + i])
  }

  /** On gate columns followed by up columns, each output column is its own gate's activation times its own up. */
  lemma GatedHalves(act: real -> real, gate: Row, up: Row)
    requires |gate| == |up|
    ensures |Gated(act, gate + up)| == |gate|
    ensures forall i | 0 <= i < |gate| :: Gated(act, gate + up)[i] == act(gate[i]) * up[i]
  {}

  /** Scaling the up half scales the row, whatever the activation is. */
  lemma GatedScales(act: real -> real, gate: Row, up: Row, scaled: Row, c: real)
    requires |gate| == |up| == |scaled| && forall i | 0 <= i < |up| :: scaled[i] == c * up[i]
    ensures forall i | 0 <= i < |gate| :: Gated(act, gate + scaled)[i] == c * Gated(act, gate + up)[i]
  {
    GatedHalves(act, gate, up);
    GatedHalves(act, gate, scaled);
    forall i | 0 <= i < |gate|
      ensures act(gate[i]) * scaled[i] == c * (act(gate[i]) * up[i])
    {
      ScaleProduct(act(gate[i]), c, up[i]);
    }
  }

  lemma ScaleProduct(a: real, c: real, u: real)
    ensures a * (c * u) == c * (a * u)
  {}

  function Activated(activation: Option<Activation>, silu: real -> real, gelu: real -> real, row: Row): Row {
    match activation
    case None => row
    case Some(SiluAndMul) => Gated(silu, row)
    case Some(GeluAndMul) => Gated(gelu, row)
    case Some(OtherActivation) => row
  }

  /** Rows nobody computes stay zero through the activation, whatever it does to zero. */
  lemma ActivatedZero(activation: Option<Activation>, silu: real -> real, gelu: real -> real, n: nat)
    ensures var row := Activated(activation, silu, gelu, seq(n, _ => 0.0));
            |row| == (if activation.Some? && activation != Some(OtherActivation) then n / 2 else n)
            && forall i | 0 <= i < |row| :: row[i] == 0.0
  {}

  /** The grouped GEMM with its fused epilogue: every row's expert, or zero, and then the gated activation if
      there is one. */
  method GroupedGemm(a: seq<Row>, metadata: seq<int>, layout: Layout, E: nat, alignment: nat, maxM: nat,
                     f: (nat, Row) -> Row, zero: Row, activation: Option<Activation>, silu: real -> real,
                     gelu: real -> real)
    returns (r: Result<seq<Row>, Error>)
    requires Readable(layout, metadata, E, alignment, maxM, |a|)
    requires activation.Some? ==> |zero| % 2 == 0 && forall g, row :: |f(g, row)| == |zero|
    ensures r.Err? <==> layout == OtherLayout || activation == Some(OtherActivation)
    ensures r.Err? ==> r.error == if layout == OtherLayout then UnknownLayout else UnknownActivation
    ensures r.Ok? ==> |r.value| == |a|
    ensures r.Ok? ==> forall i | 0 <= i < |a| ::
      r.value[i] == Activated(activation, silu, gelu,
                              RowResult(RowOwner(layout, metadata, E, alignment, maxM, |a|, i), f, a[i], zero))
  {
    hide RowOwner, Gated;
    r := ReadRows(a, metadata, layout, E, alignment, maxM, f, zero);
    if r.Err? {
      return;
    }
    var out := r.value;
    match activation {
      case None =>
      case Some(SiluAndMul) =>
        out := seq(|out|, i requires 0 <= i < |out| => Gated(silu, out[i]));
      case Some(GeluAndMul) =>
        out := seq(|out|, i requires 0 <= i < |out| => Gated(gelu, out[i]));
      case Some(OtherActivation) =>
        return Err(UnknownActivation);
    }
    r := Ok(out);
  }

  /** Writes expert g's results into out[from..to]. */
  method ApplyExpert(out: array<Row>, a: seq<Row>, from: nat, to: nat, g: nat, f: (nat, Row) -> Row)
    requires to <= out.Length == |a|
    modifies out
    ensures forall r | 0 <= r < |a| :: out[r] == if from <= r < to then f(g, a[r]) else old(out[r])
  {
    var row := from;
    while row < to
      invariant from <= row && (from <= to ==> row <= to)
      invariant forall r | 0 <= r < |a| :: out[r] == if from <= r < row && r < to then f(g, a[r]) else old(out[r])
    {
      out[row] := f(g, a[row]);
      row := row + 1;
    }
  }

  method ReadPsum(a: seq<Row>, ends: seq<int>, aligned: bool, alignment: nat, f: (nat, Row) -> Row, zero: Row)
    returns (rows: seq<Row>)
    requires alignment > 0
    ensures |rows| == |a|
    ensures forall r | 0 <= r < |a| ::
      rows[r] == RowResult(PsumOwner(ends, aligned, alignment, |a|, |ends|, r), f, a[r], zero)
  {
    var out := new Row[|a|](_ => zero);
    var start := 0;
    for g := 0 to |ends|
      invariant start == if g == 0 then 0 else ends[g - 1]
      invariant forall r | 0 <= r < |a| ::
        out[r] == RowResult(PsumOwner(ends, aligned, alignment, |a|, g, r), f, a[r], zero)
    {
      var end := ends[g];
      if aligned {
        start := RoundUp(start, alignment);
      }
      ApplyExpert(out, a, Clip(start, |a|), Clip(end, |a|), g, f);
      start := end;
    }
    rows := out[..];
  }

  method ReadPerRow(a: seq<Row>, ids: seq<int>, E: nat, f: (nat, Row) -> Row, zero: Row) returns (rows: seq<Row>)
    requires |ids| == |a|
    ensures |rows| == |a|
    ensures forall r | 0 <= r < |a| :: rows[r] == if 0 <= ids[r] < E then f(ids[r], a[r]) else zero
  {
    var out := new Row[|a|](_ => zero);
    for g := 0 to E
      invariant forall r | 0 <= r < |a| :: out[r] == if 0 <= ids[r] < g then f(ids[r], a[r]) else zero
    {
      for row := 0 to |a|
        invariant forall r | 0 <= r < |a| ::
          out[r] == if 0 <= ids[r] < g || (ids[r] == g && r < row) then f(ids[r], a[r]) else zero
      {
        if ids[row] == g {
          out[row] := f(g, a[row]);
        }
      }
    }
    rows := out[..];
  }

  ghost predicate MaskedTo(out: seq<Row>, a: seq<Row>, counts: seq<int>, maxM: nat, done: nat,
                           f: (nat, Row) -> Row, zero: Row)
    requires maxM > 0 && |out| == |a| == |counts| * maxM
  {
    forall r: nat | r < |a| ::
      r / maxM < |counts|
      && out[r] == if r < done && r % maxM < Clip(counts[r / maxM], maxM) then f(r / maxM, a[r]) else zero
  }

  lemma MaskedStep(before: seq<Row>, after: seq<Row>, a: seq<Row>, counts: seq<int>, maxM: nat, g: nat,
                   slab: nat, f: (nat, Row) -> Row, zero: Row)
    requires maxM > 0 && |before| == |after| == |a| == |counts| * maxM && g < |counts| && slab == g * maxM
    requires MaskedTo(before, a, counts, maxM, slab, f, zero)
    requires forall r | 0 <= r < |a| ::
      after[r] == if slab <= r < slab + Clip(counts[g], maxM) then f(g, a[r]) else before[r]
    ensures MaskedTo(after, a, counts, maxM, slab + maxM, f, zero)
  {
    forall r: nat | r < |a| && slab <= r < slab + maxM
      ensures r / maxM == g && r % maxM == r - slab
    {
      QuotientIs(r, g, r - slab, maxM);
    }
  }

  method ReadMasked(a: seq<Row>, counts: seq<int>, E: nat, maxM: nat, f: (nat, Row) -> Row, zero: Row)
    returns (rows: seq<Row>)
    requires |counts| == E && |a| == E * maxM
    ensures |rows| == |a|
    ensures maxM > 0 ==> MaskedTo(rows, a, counts, maxM, |a|, f, zero)
  {
    hide MaskedTo;
    var out := new Row[|a|](_ => zero);
    var slab := 0;
    if maxM > 0 {
      MaskedStart(out[..], a, counts, maxM, f, zero);
    }
    for g := 0 to E
      invariant slab == g * maxM <= |a|
      invariant maxM > 0 ==> MaskedTo(out[..], a, counts, maxM, slab, f, zero)
    {
      NextBlock(g, E, maxM);
      ghost var before := out[..];
      ApplyExpert(out, a, slab, slab + Clip(counts[g], maxM), g, f);
      if maxM > 0 {
        MaskedStep(before, out[..], a, counts, maxM, g, slab, f, zero);
      }
      slab := slab + maxM;
    }
    rows := out[..];
  }

  lemma MaskedStart(out: seq<Row>, a: seq<Row>, counts: seq<int>, maxM: nat, f: (nat, Row) -> Row, zero: Row)
    requires maxM > 0 && |out| == |a| == |counts| * maxM && forall r | 0 <= r < |out| :: out[r] == zero
    ensures MaskedTo(out, a, counts, maxM, 0, f, zero)
  {
    forall r: nat | r < |a|
      ensures r / maxM < |counts|
    {
      BlockOf(r, |counts|, maxM);
    }
  }
}
