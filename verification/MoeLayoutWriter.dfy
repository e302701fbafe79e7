/** The layout writer, and what each reader makes of the metadata it writes. */
module MoeLayoutWriter {
  import opened Wrappers
  import opened Segments
  import opened Blocks
  import opened MoeLayouts

  // ------------------------------------------------------------- aligned segments

  /** Rows of each expert's segment, in whole tiles. */
  function RowsOf(tiles: seq<nat>, alignment: nat): (r: seq<nat>)
    ensures |r| == |tiles|
  {
    seq(|tiles|, g requires 0 <= g < |tiles| => tiles[g] * alignment)
  }

  lemma {:induction false} TilesTotal(tiles: seq<nat>, alignment: nat, n: nat)
    requires n <= |tiles|
    ensures Running(RowsOf(tiles, alignment), n) == Total(tiles, n) * alignment
  {
    if n > 0 {
      TilesTotal(tiles, alignment, n - 1);
      Distribute(Total(tiles, n - 1), tiles[n - 1], alignment);
    }
  }

  /** Segments start and end on tile boundaries. */
  lemma {:induction false} SegmentsAligned(tiles: seq<nat>, alignment: nat, g: nat)
    requires alignment > 0 && g <= |tiles|
    ensures Running(RowsOf(tiles, alignment), g) % alignment == 0
  {
    TilesTotal(tiles, alignment, g);
    MultipleOf(Total(tiles, g), alignment);
  }

  /** The end of expert g's true rows, half a tile before its segment ends. */
  function TrueEnd(tiles: seq<nat>, alignment: nat, g: nat): int
    requires g < |tiles|
  {
    Running(RowsOf(tiles, alignment), g + 1) - alignment / 2
  }

  /** A populated expert has a true row, and its segment a padding row. */
  lemma {:induction false} TrueEndInside(tiles: seq<nat>, alignment: nat, g: nat)
    requires alignment > 1 && g < |tiles| && tiles[g] >= 1
    ensures Running(RowsOf(tiles, alignment), g) < TrueEnd(tiles, alignment, g) < Running(RowsOf(tiles, alignment), g + 1)
  {
    assert tiles[g] * alignment >= alignment;
  }

  /** The rows of the first n segments carry their expert, padding included; the rest the sentinel. */
  ghost predicate IdsWritten(tiles: seq<nat>, alignment: nat, n: nat, ids: seq<int>)
    requires n <= |tiles|
  {
    var sizes := RowsOf(tiles, alignment);
    && (forall r, g | 0 <= r < |ids| && 0 <= g < n && Owns(sizes, g, r) :: ids[r] == g)
    && (forall r | Running(sizes, n) <= r < |ids| :: ids[r] == |tiles|)
  }

  /** In the first n segments the true rows are valid, and nothing else is. */
  ghost predicate ValidWritten(tiles: seq<nat>, alignment: nat, n: nat, valid: seq<bool>)
    requires n <= |tiles|
  {
    var sizes := RowsOf(tiles, alignment);
    && (forall r, g | 0 <= r < |valid| && 0 <= g < n && Owns(sizes, g, r) ::
          valid[r] <==> r < TrueEnd(tiles, alignment, g))
    && (forall r | Running(sizes, n) <= r < |valid| :: !valid[r])
  }

  ghost predicate Written(tiles: seq<nat>, alignment: nat, n: nat, ids: seq<int>, valid: seq<bool>)
    requires n <= |tiles|
  {
    IdsWritten(tiles, alignment, n, ids) && ValidWritten(tiles, alignment, n, valid)
  }

  lemma WrittenStart(tiles: seq<nat>, alignment: nat, ids: seq<int>, valid: seq<bool>)
    requires |ids| == |valid|
    requires forall r | 0 <= r < |ids| :: ids[r] == |tiles| && !valid[r]
    ensures Written(tiles, alignment, 0, ids, valid)
  {}

  lemma {:induction false} WrittenStep(tiles: seq<nat>, alignment: nat, g: nat, ids: seq<int>, valid: seq<bool>,
                                       ids': seq<int>, valid': seq<bool>)
    requires g < |tiles| && |ids| == |valid| == |ids'| == |valid'|
    requires Written(tiles, alignment, g, ids, valid)
    requires var start, end := Running(RowsOf(tiles, alignment), g), Running(RowsOf(tiles, alignment), g + 1);
             forall r | 0 <= r < |ids| ::
               && ids'[r] == (if start <= r < end then g else ids[r])
               && valid'[r] == (if start <= r < TrueEnd(tiles, alignment, g) then true else valid[r])
    requires TrueEnd(tiles, alignment, g) <= Running(RowsOf(tiles, alignment), g + 1)
    ensures Written(tiles, alignment, g + 1, ids', valid')
  {
    hide Running, RowsOf, TrueEnd;
    var sizes := RowsOf(tiles, alignment);
    RunningMonotone(sizes, g, g + 1);
    forall r, d | 0 <= r < |ids| && 0 <= d < g && Owns(sizes, d, r)
      ensures r < Running(sizes, g)
    {
      RunningMonotone(sizes, d + 1, g);
    }
  }

  method Fill<T>(a: array<T>, from: nat, to: nat, x: T)
    requires from <= to <= a.Length
    modifies a
    ensures forall r | 0 <= r < a.Length :: a[r] == if from <= r < to then x else old(a[r])
  {
    for row := from to to
      invariant forall r | 0 <= r < a.Length :: a[r] == if from <= r < row then x else old(a[r])
    {
      a[row] := x;
    }
  }

  /** Lays the experts' tiles out one after the other; the last tile is left to nobody. */
  method LayTiles(tiles: seq<nat>, alignment: nat, rows: nat) returns (ends: seq<int>, ids: seq<int>, valid: seq<bool>)
    requires alignment > 1 && Running(RowsOf(tiles, alignment), |tiles|) <= rows
    requires forall g | 0 <= g < |tiles| :: tiles[g] >= 1
    ensures EndsAre(ends, tiles, alignment)
    ensures |ids| == |valid| == rows && IdsWritten(tiles, alignment, |tiles|, ids) && ValidWritten(tiles, alignment, |tiles|, valid)
  {
    hide Running, RowsOf, TrueEnd, IdsWritten, ValidWritten;
    var isValid := new bool[rows](_ => false);
    var owner := new int[rows](_ => |tiles|);
    ends := [];
    var row := 0;
    RunningStep(RowsOf(tiles, alignment), 0);
    WrittenStart(tiles, alignment, owner[..], isValid[..]);
    for g := 0 to |tiles|
      invariant row == Running(RowsOf(tiles, alignment), g)
      invariant |ends| == g && forall d | 0 <= d < g :: ends[d] == TrueEnd(tiles, alignment, d)
      invariant Written(tiles, alignment, g, owner[..], isValid[..])
    {
      SegmentStep(tiles, alignment, g);
      TrueEndInside(tiles, alignment, g);
      RunningMonotone(RowsOf(tiles, alignment), g + 1, |tiles|);
      ghost var ids0, valid0 := owner[..], isValid[..];
      var trueRows := tiles[g] * alignment - alignment / 2;
      Fill(isValid, row, row + trueRows, true);
      Fill(owner, row, row + tiles[g] * alignment, g);
      WrittenStep(tiles, alignment, g, ids0, valid0, owner[..], isValid[..]);
      ends := ends + [row + trueRows];
      row := row + tiles[g] * alignment;
    }
    ids, valid := owner[..], isValid[..];
  }

  lemma {:induction false} SegmentStep(tiles: seq<nat>, alignment: nat, g: nat)
    requires g < |tiles|
    ensures Running(RowsOf(tiles, alignment), g + 1) == Running(RowsOf(tiles, alignment), g) + tiles[g] * alignment
    ensures TrueEnd(tiles, alignment, g) == Running(RowsOf(tiles, alignment), g) + tiles[g] * alignment - alignment / 2
  {}

  // ---------------------------------------------------------------------- writer

  function MaskedCount(E: nat, maxM: nat, d: Distribution, e: nat): nat {
    if d == Uniform || e < Top(E) then maxM else maxM / 4
  }

  /** Why a layout is refused, in the order the conditions are looked at. */
  function Refusal(layout: Layout, rows: nat, E: nat, d: Distribution, alignment: int, maxM: Option<nat>): Option<Error> {
    if layout == Masked then
      if maxM.None? || rows != E * maxM.value then Some(BadMaskedRows) else None
    else if layout == TightPsum then SizesRefusal(E, d)
    else if layout == OtherLayout then Some(UnknownLayout)
    else if alignment <= 1 || rows % alignment != 0 then Some(BadAlignment)
    else if rows / alignment <= E then Some(TooFewTiles)
    else SizesRefusal(E, d)
  }

  function SizesRefusal(E: nat, d: Distribution): Option<Error> {
    if d == OtherDistribution then Some(UnknownDistribution) else if E == 0 then Some(NoExperts) else None
  }

  /** The tiles given to the experts of an aligned layout: all but one. */
  function TileCounts(rows: nat, E: nat, d: Distribution, alignment: nat): (r: seq<int>)
    requires alignment > 0 && rows / alignment > 0
  {
    Shares(rows / alignment - 1, E, d)
  }

  lemma {:induction false} TileCountsFill(rows: nat, E: nat, d: Distribution, alignment: nat)
    requires alignment > 1 && rows % alignment == 0 && rows / alignment > E > 0
    ensures forall g | 0 <= g < E :: TileCounts(rows, E, d, alignment)[g] >= 1
    ensures Running(RowsOf(TileCounts(rows, E, d, alignment), alignment), E) == rows - alignment
  {
    hide Shares;
    SharesPositiveIff(rows / alignment - 1, E, d);
    SharesTotal(rows / alignment - 1, E, d);
    TilesTotal(TileCounts(rows, E, d, alignment), alignment, E);
    Distribute(rows / alignment, -1, alignment);
  }

  ghost predicate MaskedIs(counts: seq<int>, valid: seq<bool>, E: nat, maxM: nat, d: Distribution) {
    && |counts| == E && (forall e | 0 <= e < E :: counts[e] == MaskedCount(E, maxM, d, e))
    && |valid| == E * maxM
    && forall r | 0 <= r < |valid| :: maxM > 0 && r / maxM < E && (valid[r] <==> r % maxM < counts[r / maxM])
  }

  ghost predicate EndsAre(ends: seq<int>, tiles: seq<nat>, alignment: nat) {
    |ends| == |tiles| && forall g | 0 <= g < |tiles| :: ends[g] == TrueEnd(tiles, alignment, g)
  }

  ghost predicate TightIs(ends: seq<int>, valid: seq<bool>, rows: nat, E: nat, d: Distribution) {
    && (forall r | 0 <= r < |valid| :: valid[r])
    && |ends| == E && forall g | 0 <= g < E :: ends[g] == Total(Shares(rows, E, d), g + 1)
  }

  /** The metadata and valid rows a layout stands for. */
  ghost predicate LayoutIs(layout: Layout, metadata: seq<int>, valid: seq<bool>, rows: nat, E: nat, d: Distribution,
                           alignment: int, maxM: Option<nat>)
    requires Refusal(layout, rows, E, d, alignment, maxM).None?
  {
    |valid| == rows
    && match layout
       case Masked => MaskedIs(metadata, valid, E, maxM.value, d)
       case TightPsum => TightIs(metadata, valid, rows, E, d)
       case AlignedPsum =>
         TileCountsFill(rows, E, d, alignment);
         var tiles: seq<nat> := TileCounts(rows, E, d, alignment);
         EndsAre(metadata, tiles, alignment) && ValidWritten(tiles, alignment, E, valid)
       case PerRow =>
         TileCountsFill(rows, E, d, alignment);
         var tiles: seq<nat> := TileCounts(rows, E, d, alignment);
         |metadata| == rows && IdsWritten(tiles, alignment, E, metadata) && ValidWritten(tiles, alignment, E, valid)
  }

  /** Lays out rows for a preset: its metadata and which rows are valid. */
  method MakeLayout(layout: Layout, rows: nat, E: nat, d: Distribution, alignment: int, maxM: Option<nat>)
    returns (r: Result<(seq<int>, seq<bool>), Error>)
    ensures Refusal(layout, rows, E, d, alignment, maxM) == if r.Err? then Some(r.error) else None
    ensures r.Ok? ==> LayoutIs(layout, r.value.0, r.value.1, rows, E, d, alignment, maxM)
  {
    hide MaskedIs, TightIs, EndsAre, IdsWritten, ValidWritten, Shares, Total;
    if layout == Masked {
      if maxM.None? || rows != E * maxM.value {
        return Err(BadMaskedRows);
      }
      var counts, valid := MaskSlabs(E, maxM.value, d);
      return Ok((counts, valid));
    }
    if layout == TightPsum {
      var sizes := MakeExpertSizes(rows, E, d);
      if sizes.Err? {
        return Err(sizes.error);
      }
      var ends := RunningEnds(sizes.value.0);
      var valid := seq(rows, _ => true);
      AllValid(ends, valid, rows, E, d);
      return Ok((ends, valid));
    }
    if layout == OtherLayout {
      return Err(UnknownLayout);
    }
    if alignment <= 1 || rows % alignment != 0 {
      return Err(BadAlignment);
    }
    r := MakeAligned(layout == PerRow, rows, E, d, alignment);
  }

  /** Tile counts for all but one tile, laid out; the metadata is per row or per expert. */
  method MakeAligned(perRow: bool, rows: nat, E: nat, d: Distribution, alignment: nat)
    returns (r: Result<(seq<int>, seq<bool>), Error>)
    requires alignment > 1 && rows % alignment == 0
    ensures var layout := if perRow then PerRow else AlignedPsum;
            && Refusal(layout, rows, E, d, alignment, None) == (if r.Err? then Some(r.error) else None)
            && (r.Ok? ==> LayoutIs(layout, r.value.0, r.value.1, rows, E, d, alignment, None))
  {
    hide EndsAre, IdsWritten, ValidWritten, Shares, Total, Running, RowsOf;
    var tiles := rows / alignment;
    if tiles <= E {
      return Err(TooFewTiles);
    }
    var counts := MakeExpertSizes(tiles - 1, E, d);
    if counts.Err? {
      return Err(counts.error);
    }
    TileCountsFill(rows, E, d, alignment);
    var ends, ids, valid := LayTiles(counts.value.0, alignment, rows);
    r := if perRow then Ok((ids, valid)) else Ok((ends, valid));
  }

  lemma {:induction false} AllValid(ends: seq<int>, valid: seq<bool>, rows: nat, E: nat, d: Distribution)
    requires forall r | 0 <= r < |valid| :: valid[r]
    requires |ends| == E && forall g | 0 <= g < E :: ends[g] == Total(Shares(rows, E, d), g + 1)
    ensures TightIs(ends, valid, rows, E, d)
  {}

  method RunningEnds(sizes: seq<int>) returns (ends: seq<int>)
    ensures |ends| == |sizes| && forall g | 0 <= g < |sizes| :: ends[g] == Total(sizes, g + 1)
  {
    ends := [];
    var running := 0;
    for g := 0 to |sizes|
      invariant running == Total(sizes, g)
      invariant |ends| == g && forall d | 0 <= d < g :: ends[d] == Total(sizes, d + 1)
    {
      running := running + sizes[g];
      ends := ends + [running];
    }
  }

  /** A fifth of the experts fill their slab and the rest a quarter of it; all fill it when uniform. */
  method MaskCounts(E: nat, maxM: nat, d: Distribution) returns (counts: seq<int>)
    ensures |counts| == E && forall e | 0 <= e < E :: counts[e] == MaskedCount(E, maxM, d, e)
  {
    counts := seq(E, _ => maxM / 4);
    for e := 0 to if E < Top(E) then E else Top(E)
      invariant |counts| == E
      invariant forall i | 0 <= i < E :: counts[i] == if i < e then maxM else maxM / 4
    {
      counts := counts[e := maxM];
    }
    if d == Uniform {
      counts := seq(E, _ => maxM);
    }
  }

  predicate InMask(counts: seq<int>, maxM: nat, r: nat) {
    maxM > 0 && r / maxM < |counts| && r % maxM < counts[r / maxM]
  }

  method MaskSlabs(E: nat, maxM: nat, d: Distribution) returns (counts: seq<int>, valid: seq<bool>)
    ensures |valid| == E * maxM && MaskedIs(counts, valid, E, maxM, d)
  {
    hide MaskedCount, InMask;
    counts := MaskCounts(E, maxM, d);
    valid := seq(E * maxM, r requires 0 <= r < E * maxM => InMask(counts, maxM, r));
    MaskIsMasked(counts, valid, E, maxM, d);
  }

  lemma MaskIsMasked(counts: seq<int>, valid: seq<bool>, E: nat, maxM: nat, d: Distribution)
    requires |counts| == E && forall e | 0 <= e < E :: counts[e] == MaskedCount(E, maxM, d, e)
    requires |valid| == E * maxM && forall r | 0 <= r < |valid| :: valid[r] == InMask(counts, maxM, r)
    ensures MaskedIs(counts, valid, E, maxM, d)
  {
    hide MaskedCount;
    forall r: nat | r < |valid|
      ensures maxM > 0 && r / maxM < E && (valid[r] <==> r % maxM < counts[r / maxM])
    {
      BlockOf(r, E, maxM);
    }
  }

  // ------------------------------------------------------- what the readers recover

  lemma RoundUpIs(x: int, y: int, alignment: nat)
    requires alignment > 0 && x % alignment == 0 && 0 <= x - y < alignment
    ensures RoundUp(y, alignment) == x
  {
    var k := x / alignment;
    assert x == k * alignment;
    QuotientIs(-y, -k, x - y, alignment);
  }

  /** Rounding a stored end up to the alignment recovers where the next segment starts. */
  lemma {:induction false} RoundingRecoversStart(ends: seq<int>, tiles: seq<nat>, alignment: nat, g: nat)
    requires alignment > 1 && g < |tiles| && EndsAre(ends, tiles, alignment)
    ensures ReadStart(ends, true, alignment, g) == Running(RowsOf(tiles, alignment), g)
  {
    hide RoundUp, RowsOf;
    SegmentsAligned(tiles, alignment, g);
    var start := Running(RowsOf(tiles, alignment), g);
    RoundUpIs(start, if g == 0 then 0 else ends[g - 1], alignment);
  }

  /** No later expert's slice holds a row before that expert's start. */
  lemma {:induction false} PsumOwnerIs(ends: seq<int>, aligned: bool, alignment: nat, n: nat, g: nat, owner: nat, r: int)
    requires alignment > 0 && owner < g <= |ends| && Reads(ends, aligned, alignment, n, owner, r)
    requires forall d | owner < d < g :: !Reads(ends, aligned, alignment, n, d, r)
    ensures PsumOwner(ends, aligned, alignment, n, g, r) == Some(owner)
  {
    if owner < g - 1 {
      PsumOwnerIs(ends, aligned, alignment, n, g - 1, owner, r);
    }
  }

  lemma {:induction false} PsumOwnerNone(ends: seq<int>, aligned: bool, alignment: nat, n: nat, g: nat, r: int)
    requires alignment > 0 && g <= |ends|
    requires forall d | 0 <= d < g :: !Reads(ends, aligned, alignment, n, d, r)
    ensures PsumOwner(ends, aligned, alignment, n, g, r) == None
  {
    if g > 0 {
      PsumOwnerNone(ends, aligned, alignment, n, g - 1, r);
    }
  }

  lemma {:induction false} ReadsSegment(ends: seq<int>, valid: seq<bool>, tiles: seq<nat>, alignment: nat, g: nat, r: nat)
    requires alignment > 1 && g < |tiles| && EndsAre(ends, tiles, alignment) && r < |valid|
    requires ValidWritten(tiles, alignment, |tiles|, valid)
    requires tiles[g] >= 1 && Running(RowsOf(tiles, alignment), g + 1) <= |valid|
    ensures Reads(ends, true, alignment, |valid|, g, r) <==> Owns(RowsOf(tiles, alignment), g, r) && valid[r]
  {
    hide RowsOf, Running, ReadStart;
    RoundingRecoversStart(ends, tiles, alignment, g);
    TrueEndInside(tiles, alignment, g);
    var sizes := RowsOf(tiles, alignment);
    if Owns(sizes, g, r) {
      assert valid[r] <==> r < TrueEnd(tiles, alignment, g);
    }
  }

  ghost predicate Populated(tiles: seq<nat>, alignment: nat, rows: nat) {
    && alignment > 1 && Running(RowsOf(tiles, alignment), |tiles|) <= rows
    && forall g | 0 <= g < |tiles| :: tiles[g] >= 1
  }

  /** The stored ends give back exactly the valid rows, each to the expert whose segment it is in. */
  lemma {:induction false} PsumReadsValid(ends: seq<int>, valid: seq<bool>, tiles: seq<nat>, alignment: nat, r: nat)
    requires Populated(tiles, alignment, |valid|) && EndsAre(ends, tiles, alignment) && r < |valid|
    requires ValidWritten(tiles, alignment, |tiles|, valid)
    ensures var owner := PsumOwner(ends, true, alignment, |valid|, |tiles|, r);
            && (owner.Some? <==> valid[r])
            && (owner.Some? ==> Owns(RowsOf(tiles, alignment), owner.value, r))
  {
    hide RowsOf, Running, Owns, Reads, ReadStart;
    assert |ends| == |tiles|;
    var sizes := RowsOf(tiles, alignment);
    forall d: nat | d < |tiles|
      ensures Reads(ends, true, alignment, |valid|, d, r) <==> Owns(sizes, d, r) && valid[r]
    {
      RunningMonotone(sizes, d + 1, |tiles|);
      ReadsSegment(ends, valid, tiles, alignment, d, r);
    }
    if r < Running(sizes, |tiles|) {
      var g := OwnerExists(sizes, |tiles|, r);
      forall d: nat | d < |tiles| && Owns(sizes, d, r)
        ensures d == g
      {
        OwnerUnique(sizes, d, g, r);
      }
      if valid[r] {
        PsumOwnerIs(ends, true, alignment, |valid|, |tiles|, g, r);
      } else {
        PsumOwnerNone(ends, true, alignment, |valid|, |tiles|, r);
      }
    } else {
      PsumOwnerNone(ends, true, alignment, |valid|, |tiles|, r);
    }
  }

  /** The per-row ids name the segment a row is in, padding included, and nobody in the trailing tile. */
  lemma {:induction false} IdsReadSegments(ids: seq<int>, tiles: seq<nat>, alignment: nat, r: nat)
    requires r < |ids| && IdsWritten(tiles, alignment, |tiles|, ids)
    ensures r < Running(RowsOf(tiles, alignment), |tiles|) ==>
      0 <= ids[r] < |tiles| && Owns(RowsOf(tiles, alignment), ids[r], r)
    ensures r >= Running(RowsOf(tiles, alignment), |tiles|) ==> ids[r] == |tiles|
  {
    hide RowsOf, Running, Owns;
    if r < Running(RowsOf(tiles, alignment), |tiles|) {
      var g := OwnerExists(RowsOf(tiles, alignment), |tiles|, r);
    }
  }

  lemma ValidDetermined(tiles: seq<nat>, alignment: nat, valid: seq<bool>, valid': seq<bool>)
    requires |valid| == |valid'|
    requires ValidWritten(tiles, alignment, |tiles|, valid) && ValidWritten(tiles, alignment, |tiles|, valid')
    ensures valid == valid'
  {
    hide RowsOf, Running, Owns, TrueEnd;
    forall r: nat | r < |valid|
      ensures valid[r] == valid'[r]
    {
      if r < Running(RowsOf(tiles, alignment), |tiles|) {
        var g := OwnerExists(RowsOf(tiles, alignment), |tiles|, r);
      }
    }
  }

  lemma {:induction false} AlignedPopulated(rows: nat, E: nat, d: Distribution, alignment: int, valid: seq<bool>)
    requires Refusal(PerRow, rows, E, d, alignment, None).None? && |valid| == rows
    ensures forall g | 0 <= g < E :: TileCounts(rows, E, d, alignment)[g] >= 1
    ensures Populated(TileCounts(rows, E, d, alignment), alignment, rows)
    ensures Running(RowsOf(TileCounts(rows, E, d, alignment), alignment), E) == rows - alignment
  {
    TileCountsFill(rows, E, d, alignment);
  }

  /** The two aligned presets mark the same rows valid, and their readers give a row to the same expert
      exactly when it is valid or in the trailing tile: the padding of a partial tile is computed by
      the per-row reader and left zero by the other. */
  lemma AlignedLayoutsAgreeIff(rows: nat, E: nat, d: Distribution, alignment: int, ends: seq<int>,
                               ids: seq<int>, valid: seq<bool>, valid': seq<bool>, r: nat)
    requires Refusal(AlignedPsum, rows, E, d, alignment, None).None? && r < rows
    requires LayoutIs(AlignedPsum, ends, valid, rows, E, d, alignment, None)
    requires LayoutIs(PerRow, ids, valid', rows, E, d, alignment, None)
    ensures valid == valid'
    ensures Readable(AlignedPsum, ends, E, alignment, 0, rows) && Readable(PerRow, ids, E, alignment, 0, rows)
    ensures RowOwner(AlignedPsum, ends, E, alignment, 0, rows, r) == RowOwner(PerRow, ids, E, alignment, 0, rows, r)
       <==> valid[r] || r >= rows - alignment
    ensures RowOwner(AlignedPsum, ends, E, alignment, 0, rows, r).Some? <==> valid[r]
    ensures RowOwner(PerRow, ids, E, alignment, 0, rows, r).Some? <==> r < rows - alignment
  {
    hide ValidWritten, IdsWritten, Shares, Owns, Running, RowsOf, PsumOwner, Populated;
    AlignedPopulated(rows, E, d, alignment, valid);
    var tiles: seq<nat> := TileCounts(rows, E, d, alignment);
    ValidDetermined(tiles, alignment, valid, valid');
    PsumReadsValid(ends, valid, tiles, alignment, r);
    IdsReadSegments(ids, tiles, alignment, r);
    TrailingInvalid(tiles, alignment, valid, r);
    var owner := PsumOwner(ends, true, alignment, rows, E, r);
    if valid[r] {
      OwnerUnique(RowsOf(tiles, alignment), owner.value, ids[r], r);
    }
  }

  lemma {:induction false} TrailingInvalid(tiles: seq<nat>, alignment: nat, valid: seq<bool>, r: nat)
    requires ValidWritten(tiles, alignment, |tiles|, valid) && r < |valid|
    ensures valid[r] ==> r < Running(RowsOf(tiles, alignment), |tiles|)
  {}

  /** The masked reader computes exactly the valid rows, each slab by its own expert. */
  lemma MaskedReadsValid(counts: seq<int>, valid: seq<bool>, E: nat, maxM: nat, d: Distribution, r: nat)
    requires MaskedIs(counts, valid, E, maxM, d) && r < |valid|
    ensures Readable(Masked, counts, E, 1, maxM, |valid|) && maxM > 0
    ensures RowOwner(Masked, counts, E, 1, maxM, |valid|, r) == if valid[r] then Some(r / maxM) else None
  {}

  lemma {:induction false} SharesAsSegments(sizes: seq<nat>, n: nat)
    requires n <= |sizes|
    ensures Total(sizes, n) == Running(sizes, n)
  {
    if n > 0 {
      SharesAsSegments(sizes, n - 1);
    }
  }

  /** The last of the first n running ends at or below r. */
  lemma {:induction false} LastStart(sizes: seq<int>, n: nat, r: nat) returns (g: nat)
    requires n <= |sizes| && r < Total(sizes, n)
    ensures g < n && Total(sizes, g) <= r < Total(sizes, g + 1)
    ensures forall d: nat | g < d < n :: Total(sizes, d) > r
  {
    if Total(sizes, n - 1) <= r {
      g := n - 1;
    } else {
      g := LastStart(sizes, n - 1, r);
    }
  }

  /** However few the rows, the running ends never step from below zero past a row. */
  lemma {:induction false} StartNotNegative(rows: nat, E: nat, d: Distribution, g: nat, r: nat)
    requires g < E && Total(Shares(rows, E, d), g + 1) > r
    ensures Total(Shares(rows, E, d), g) >= 0
  {
    hide Total, Shares;
    var sizes := Shares(rows, E, d);
    TotalStep(sizes, g);
    if g > 0 {
      if rows >= E {
        SharesPositiveIff(rows, E, d);
        TotalAtLeast(sizes, g);
      } else if d == Uniform {
        EvenShares(rows, E, g);
        TotalAtLeast(sizes, g);
      } else {
        SmallShare(rows, E, d, g);
      }
    }
  }

  lemma EvenShares(rows: nat, E: nat, g: nat)
    requires g < E
    ensures forall e | 0 <= e < g :: Shares(rows, E, Uniform)[e] >= 1
  {}

  /** With fewer rows than experts only the first expert's skewed share can exceed one row. */
  lemma SmallShare(rows: nat, E: nat, d: Distribution, g: nat)
    requires d != Uniform && 0 < g < E && rows < E
    ensures Shares(rows, E, d)[g] <= 1
  {
    Division(rows - E, Top(E));
    CancelFactor(PerTop(rows, E), 0, Top(E));
  }

  /** The tight reader gives every row to an expert whose running share it lies in, however few the rows and
      although shares may then be zero or negative; with a row for every expert that is the one expert whose
      segment it is in. */
  lemma {:induction false} TightReadsAll(ends: seq<int>, valid: seq<bool>, rows: nat, E: nat, d: Distribution, r: nat)
    requires 0 < E && rows == |valid| && TightIs(ends, valid, rows, E, d) && r < rows
    ensures var owner := RowOwner(TightPsum, ends, E, 1, 0, rows, r);
            && owner.Some? && owner.value < E && valid[r]
            && Total(Shares(rows, E, d), owner.value) <= r < Total(Shares(rows, E, d), owner.value + 1)
    ensures rows >= E ==> forall e | 0 <= e < E :: Shares(rows, E, d)[e] >= 1
    ensures rows >= E ==> Owns(Shares(rows, E, d), RowOwner(TightPsum, ends, E, 1, 0, rows, r).value, r)
  {
    hide Shares, Total, Running;
    var sizes := Shares(rows, E, d);
    SharesTotal(rows, E, d);
    TotalStep(sizes, 0);
    var g := LastStart(sizes, E, r);
    StartNotNegative(rows, E, d, g, r);
    PsumOwnerIs(ends, false, 1, rows, E, g, r);
    if rows >= E {
      SharesPositiveIff(rows, E, d);
      SharesAsSegments(sizes, g);
      SharesAsSegments(sizes, g + 1);
    }
  }

  /** Running ends of consecutive segments give each position to its owner. */
  lemma {:induction false} PsumReadsTight(ends: seq<int>, sizes: seq<nat>, r: nat)
    requires |ends| == |sizes| && forall g | 0 <= g < |sizes| :: ends[g] == Running(sizes, g + 1)
    requires r < Running(sizes, |sizes|)
    ensures var owner := PsumOwner(ends, false, 1, Running(sizes, |sizes|), |sizes|, r);
            owner.Some? && Owns(sizes, owner.value, r)
  {
    hide Running;
    RunningStep(sizes, 0);
    var n := Running(sizes, |sizes|);
    var g := OwnerExists(sizes, |sizes|, r);
    forall d: nat | d < |sizes|
      ensures Reads(ends, false, 1, n, d, r) <==> Owns(sizes, d, r)
    {
      RunningMonotone(sizes, d, |sizes|);
      RunningMonotone(sizes, d + 1, |sizes|);
    }
    forall d: nat | d < |sizes| && Owns(sizes, d, r)
      ensures d == g
    {
      OwnerUnique(sizes, d, g, r);
    }
    PsumOwnerIs(ends, false, 1, n, |sizes|, g, r);
  }
}
