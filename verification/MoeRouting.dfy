/** Grouping token-expert pairs by expert: the tight permutation and the block-aligned one. */
module MoeRouting {
  import opened Wrappers
  import opened Segments
  import opened Blocks

  type Row = seq<real>

  // --------------------------------------------------------------- who picks whom

  /** List indexing accepts -E..E-1, negative from the end. */
  predicate IsIndex(id: int, E: int) { -E <= id < E }

  predicate InRange(ids: seq<int>, E: nat) {
    forall i | 0 <= i < |ids| :: IsIndex(ids[i], E)
  }

  function OwnerOf(id: int, E: nat): nat {
    if 0 <= id < E then id else if id < 0 && IsIndex(id, E) then id + E else 0
  }

  /** The expert of each pair, in flat order. */
  function Owners(ids: seq<int>, E: nat): (r: seq<nat>)
    ensures |r| == |ids|
  {
    seq(|ids|, i requires 0 <= i < |ids| => OwnerOf(ids[i], E))
  }

  /** An id is a list index from 0 to E - 1, or from -E to -1 counted from the end; its owner is the expert it
      indexes. */
  lemma OwnersIndex(ids: seq<int>, E: nat)
    ensures InRange(ids, E) <==> forall i | 0 <= i < |ids| :: 0 <= ids[i] + E < E + E
    ensures InRange(ids, E) ==> forall i | 0 <= i < |ids| ::
      0 <= Owners(ids, E)[i] < E && Owners(ids, E)[i] == if ids[i] < 0 then ids[i] + E else ids[i]
  {}

  ghost predicate Owned(owners: seq<nat>, E: nat) {
    forall i | 0 <= i < |owners| :: owners[i] < E
  }

  lemma InRangeOwned(ids: seq<int>, E: nat)
    requires InRange(ids, E)
    ensures Owned(Owners(ids, E), E)
  {}

  /** How many of the first n pairs go to expert e. */
  function Count(owners: seq<nat>, e: nat, n: nat): nat
    requires n <= |owners|
  {
    if n == 0 then 0 else Count(owners, e, n - 1) + if owners[n - 1] == e then 1 else 0
  }

  function CountsAt(owners: seq<nat>, E: nat, n: nat): (r: seq<nat>)
    requires n <= |owners|
    ensures |r| == E
  {
    seq(E, e requires 0 <= e < E => Count(owners, e, n))
  }

  function Counts(owners: seq<nat>, E: nat): (r: seq<nat>)
    ensures |r| == E
  {
    CountsAt(owners, E, |owners|)
  }

  lemma {:induction false} CountMonotone(owners: seq<nat>, e: nat, i: nat, j: nat)
    requires i <= j <= |owners|
    ensures Count(owners, e, i) <= Count(owners, e, j)
  {
    if i < j {
      CountMonotone(owners, e, i, j - 1);
    }
  }

  lemma {:induction false} CountStrict(owners: seq<nat>, i: nat, j: nat)
    requires i < j <= |owners|
    ensures Count(owners, owners[i], i) < Count(owners, owners[i], j)
  {
    CountMonotone(owners, owners[i], i + 1, j);
  }

  /** The counts add up to the pairs. */
  lemma {:induction false} CountsTotal(owners: seq<nat>, E: nat, n: nat)
    requires n <= |owners| && Owned(owners, E)
    ensures Running(CountsAt(owners, E, n), E) == n
  {
    if n == 0 {
      RunningZero(CountsAt(owners, E, 0), E);
    } else {
      CountsTotal(owners, E, n - 1);
      var a, b, k := CountsAt(owners, E, n - 1), CountsAt(owners, E, n), owners[n - 1];
      assert b == a[k := a[k] + 1];
      RunningBump(a, b, k, E);
    }
  }

  /** The p-th pair of expert e. */
  lemma {:induction false} NthPair(owners: seq<nat>, e: nat, n: nat, p: nat) returns (i: nat)
    requires n <= |owners| && p < Count(owners, e, n)
    ensures i < n && owners[i] == e && Count(owners, e, i) == p
  {
    if owners[n - 1] == e && Count(owners, e, n - 1) == p {
      i := n - 1;
    } else {
      i := NthPair(owners, e, n - 1, p);
    }
  }

  // ------------------------------------------------------------------------ slots

  /** Every segment has room for its expert's pairs. */
  ghost predicate Fits(sizes: seq<nat>, owners: seq<nat>) {
    && Owned(owners, |sizes|)
    && forall e | 0 <= e < |sizes| :: Count(owners, e, |owners|) <= sizes[e]
  }

  /** Where pair i goes: after the earlier pairs of the same expert, in that expert's segment. */
  function Slot(sizes: seq<nat>, owners: seq<nat>, i: nat): nat
    requires i < |owners| && owners[i] < |sizes|
  {
    Running(sizes, owners[i]) + Count(owners, owners[i], i)
  }

  /** A pair's slot lies among the filled slots of its expert's segment. */
  lemma {:induction false} SlotInSegment(sizes: seq<nat>, owners: seq<nat>, i: nat)
    requires Fits(sizes, owners) && i < |owners|
    ensures Running(sizes, owners[i]) <= Slot(sizes, owners, i)
    ensures Slot(sizes, owners, i) < Running(sizes, owners[i]) + Count(owners, owners[i], |owners|)
    ensures Owns(sizes, owners[i], Slot(sizes, owners, i)) && Slot(sizes, owners, i) < Running(sizes, |sizes|)
  {
    hide Count;
    CountStrict(owners, i, |owners|);
    RunningMonotone(sizes, owners[i] + 1, |sizes|);
  }

  /** Inside an expert, slots follow flat order. */
  lemma SlotsStable(sizes: seq<nat>, owners: seq<nat>, i: nat, j: nat)
    requires Fits(sizes, owners) && i < j < |owners| && owners[i] == owners[j]
    ensures Slot(sizes, owners, i) < Slot(sizes, owners, j)
  {
    CountStrict(owners, i, j);
  }

  /** No two pairs share a slot. */
  lemma SlotsDistinct(sizes: seq<nat>, owners: seq<nat>, i: nat, j: nat)
    requires Fits(sizes, owners) && i < |owners| && j < |owners| && i != j
    ensures Slot(sizes, owners, i) != Slot(sizes, owners, j)
  {
    hide Slot, Owns, Running, Count;
    SlotInSegment(sizes, owners, i);
    SlotInSegment(sizes, owners, j);
    if Slot(sizes, owners, i) == Slot(sizes, owners, j) {
      OwnerUnique(sizes, owners[i], owners[j], Slot(sizes, owners, i));
      SlotsStable(sizes, owners, if i < j then i else j, if i < j then j else i);
    }
  }

  /** Expert e's filled slots are all taken. */
  lemma {:induction false} SegmentFilled(sizes: seq<nat>, owners: seq<nat>, e: nat, p: nat) returns (i: nat)
    requires Fits(sizes, owners) && e < |sizes| && p < Count(owners, e, |owners|)
    ensures i < |owners| && owners[i] == e && Slot(sizes, owners, i) == Running(sizes, e) + p
  {
    i := NthPair(owners, e, |owners|, p);
  }

  lemma {:induction false} CountsFit(owners: seq<nat>, E: nat)
    requires Owned(owners, E)
    ensures Fits(Counts(owners, E), owners) && Running(Counts(owners, E), E) == |owners|
  {
    CountsTotal(owners, E, |owners|);
  }

  /** The tight slots are a bijection onto [0, T*K): with SlotsDistinct, every slot is taken once,
      by a pair of the expert whose segment it lies in. */
  lemma TightSlotsOnto(owners: seq<nat>, E: nat, s: nat) returns (i: nat)
    requires Owned(owners, E) && s < |owners|
    ensures i < |owners| && Slot(Counts(owners, E), owners, i) == s
    ensures Owns(Counts(owners, E), owners[i], s)
  {
    var sizes := Counts(owners, E);
    CountsFit(owners, E);
    var e := OwnerExists(sizes, E, s);
    i := SegmentFilled(sizes, owners, e, s - Running(sizes, e));
  }

  // -------------------------------------------------------------- shared counting

  method CountPicks(ids: seq<int>, E: nat) returns (r: Option<array<nat>>)
    ensures r.Some? <==> InRange(ids, E)
    ensures r.Some? ==> fresh(r.value) && r.value[..] == Counts(Owners(ids, E), E)
  {
    var counts := new nat[E](_ => 0);
    ghost var owners := Owners(ids, E);
    for i := 0 to |ids|
      invariant InRange(ids[..i], E)
      invariant forall e | 0 <= e < E :: counts[e] == Count(owners, e, i)
    {
      if !IsIndex(ids[i], E) {
        return None;
      }
      var e := OwnerOf(ids[i], E);
      counts[e] := counts[e] + 1;
    }
    assert ids[..|ids|] == ids;
    r := Some(counts);
  }

  /** Running starts, one more entry than there are segments. */
  ghost predicate StartsOf(starts: seq<nat>, sizes: seq<nat>) {
    |starts| == |sizes| + 1 && forall e | 0 <= e <= |sizes| :: starts[e] == Running(sizes, e)
  }

  method Starts(sizes: seq<nat>) returns (starts: seq<nat>)
    ensures StartsOf(starts, sizes)
  {
    hide Running;
    RunningStep(sizes, 0);
    var running := new nat[|sizes| + 1](_ => 0);
    for e := 0 to |sizes|
      invariant forall d | 0 <= d <= e :: running[d] == Running(sizes, d)
    {
      RunningStep(sizes, e);
      running[e + 1] := running[e] + sizes[e];
    }
    starts := running[..];
  }

  // ------------------------------------------------------------- tight permutation

  /** The write pointers after i pairs. */
  ghost predicate PointersAt(writePtr: seq<nat>, sizes: seq<nat>, owners: seq<nat>, i: nat)
    requires i <= |owners|
  {
    |writePtr| == |sizes| && forall e | 0 <= e < |sizes| :: writePtr[e] == Running(sizes, e) + Count(owners, e, i)
  }

  lemma PointersStart(starts: seq<nat>, sizes: seq<nat>, owners: seq<nat>)
    requires StartsOf(starts, sizes)
    ensures PointersAt(starts[..|sizes|], sizes, owners, 0)
  {}

  lemma PointersStep(before: seq<nat>, sizes: seq<nat>, owners: seq<nat>, i: nat)
    requires i < |owners| && owners[i] < |sizes| && PointersAt(before, sizes, owners, i)
    ensures before[owners[i]] == Slot(sizes, owners, i)
    ensures PointersAt(before[owners[i] := before[owners[i]] + 1], sizes, owners, i + 1)
  {}

  /** Pair j's slot holds `entry` of it, for the first n pairs. */
  ghost predicate Holds(slots: seq<nat>, sizes: seq<nat>, owners: seq<nat>, n: nat, entry: nat -> nat)
    requires n <= |owners| && Owned(owners, |sizes|)
  {
    forall j: nat | j < n :: Slot(sizes, owners, j) < |slots| && slots[Slot(sizes, owners, j)] == entry(j)
  }

  lemma {:induction false} HoldsStep(slots: seq<nat>, sizes: seq<nat>, owners: seq<nat>, i: nat, entry: nat -> nat)
    requires Fits(sizes, owners) && i < |owners| && Holds(slots, sizes, owners, i, entry)
    requires |slots| == Running(sizes, |sizes|)
    ensures Slot(sizes, owners, i) < |slots|
    ensures Holds(slots[Slot(sizes, owners, i) := entry(i)], sizes, owners, i + 1, entry)
  {
    hide Slot, Owns, Running;
    SlotInSegment(sizes, owners, i);
    forall j: nat | j < i
      ensures Slot(sizes, owners, j) != Slot(sizes, owners, i)
    {
      SlotsDistinct(sizes, owners, i, j);
    }
  }

  lemma OwnersAt(ids: seq<int>, E: nat)
    ensures forall i | 0 <= i < |ids| :: OwnerOf(ids[i], E) == Owners(ids, E)[i]
  {}

  /** Deals the pairs out to their slots in flat order. */
  method PlaceTight(ids: seq<int>, K: nat, starts: seq<nat>, ghost sizes: seq<nat>, ghost owners: seq<nat>)
    returns (fwdIdx: array<nat>, slotToRow: array<nat>)
    requires StartsOf(starts, sizes) && owners == Owners(ids, |sizes|) && Owned(owners, |sizes|)
    requires Fits(sizes, owners) && Running(sizes, |sizes|) == |ids| && (ids != [] ==> K > 0)
    ensures fresh(fwdIdx) && fresh(slotToRow) && fwdIdx.Length == slotToRow.Length == |ids|
    ensures forall i | 0 <= i < |ids| :: fwdIdx[i] == Slot(sizes, owners, i)
    ensures Holds(slotToRow[..], sizes, owners, |ids|, RowOf(K))
  {
    hide Count, Running, Slot, Fits, PointersAt, Holds, Owners, OwnerOf;
    var writePtr := new nat[|starts| - 1](e requires 0 <= e < |starts| - 1 => starts[e]);
    slotToRow := new nat[|ids|](_ => 0);
    fwdIdx := new nat[|ids|](_ => 0);
    assert writePtr[..] == starts[..|sizes|];
    OwnersAt(ids, |sizes|);
    PointersStart(starts, sizes, owners);
    HoldsNothing(slotToRow[..], sizes, owners, RowOf(K));
    for i := 0 to |ids|
      invariant PointersAt(writePtr[..], sizes, owners, i)
      invariant forall j | 0 <= j < i :: fwdIdx[j] == Slot(sizes, owners, j)
      invariant Holds(slotToRow[..], sizes, owners, i, RowOf(K))
    {
      var e := OwnerOf(ids[i], writePtr.Length);
      ghost var pointers, rows := writePtr[..], slotToRow[..];
      PointersStep(pointers, sizes, owners, i);
      HoldsStep(rows, sizes, owners, i, RowOf(K));
      var slot := writePtr[e];
      slotToRow[slot] := i / K;
      fwdIdx[i] := slot;
      writePtr[e] := writePtr[e] + 1;
      assert slotToRow[..] == rows[slot := RowOf(K)(i)];
      assert writePtr[..] == pointers[e := pointers[e] + 1];
    }
  }

  /** The row pair i is a copy of. */
  function RowOf(K: nat): nat -> nat { i => if K > 0 then i / K else 0 }

  lemma HoldsNothing(slots: seq<nat>, sizes: seq<nat>, owners: seq<nat>, entry: nat -> nat)
    requires Owned(owners, |sizes|)
    ensures Holds(slots, sizes, owners, 0, entry)
  {}

  datatype Permuted = Permuted(rows: seq<Row>, sizes: seq<nat>, offsets: seq<nat>, fwdIdx: seq<nat>)

  /** Expert counts, their running starts, every pair's slot, and in that slot its token's row. */
  ghost predicate IsTight(p: Permuted, hidden: seq<Row>, owners: seq<nat>, K: nat, E: nat)
    requires Owned(owners, E) && |owners| == |hidden| * K
  {
    && p.sizes == Counts(owners, E) && StartsOf(p.offsets, p.sizes)
    && |p.fwdIdx| == |p.rows| == |owners|
    && (forall i | 0 <= i < |owners| :: p.fwdIdx[i] == Slot(p.sizes, owners, i))
    && (forall i | 0 <= i < |owners| :: p.fwdIdx[i] < |p.rows| && IsRow(p.rows[p.fwdIdx[i]], hidden, i, K))
  }

  ghost predicate IsRow(row: Row, hidden: seq<Row>, i: nat, K: nat) {
    K > 0 && i / K < |hidden| && row == hidden[i / K]
  }

  lemma PairRows(i: nat, T: nat, K: nat)
    requires i < T * K
    ensures K > 0 && RowOf(K)(i) == i / K < T
  {
    BlockOf(i, T, K);
  }

  /** In tight segments every slot names a token. */
  lemma SlotsNameTokens(slots: seq<nat>, owners: seq<nat>, E: nat, T: nat, K: nat)
    requires Owned(owners, E) && |owners| == |slots| == T * K
    requires Holds(slots, Counts(owners, E), owners, |owners|, RowOf(K))
    ensures forall s | 0 <= s < |slots| :: slots[s] < T
  {
    forall s: nat | s < |slots|
      ensures slots[s] < T
    {
      var i := TightSlotsOnto(owners, E, s);
      PairRows(i, T, K);
    }
  }

  method GatherRows(hidden: seq<Row>, slotToRow: seq<nat>) returns (rows: seq<Row>)
    requires forall s | 0 <= s < |slotToRow| :: slotToRow[s] < |hidden|
    ensures |rows| == |slotToRow| && forall s | 0 <= s < |rows| :: rows[s] == hidden[slotToRow[s]]
  {
    var permuted := new Row[|slotToRow|](_ => []);
    for slot := 0 to |slotToRow|
      invariant forall s | 0 <= s < slot :: permuted[s] == hidden[slotToRow[s]]
    {
      permuted[slot] := hidden[slotToRow[slot]];
    }
    rows := permuted[..];
  }

  lemma GatheredIsTight(p: Permuted, hidden: seq<Row>, slotToRow: seq<nat>, owners: seq<nat>, K: nat, E: nat)
    requires Owned(owners, E) && |owners| == |hidden| * K == |slotToRow| == |p.rows| == |p.fwdIdx|
    requires p.sizes == Counts(owners, E) && StartsOf(p.offsets, p.sizes)
    requires forall i | 0 <= i < |owners| :: p.fwdIdx[i] == Slot(p.sizes, owners, i)
    requires Holds(slotToRow, p.sizes, owners, |owners|, RowOf(K))
    requires forall s | 0 <= s < |slotToRow| :: slotToRow[s] < |hidden| && p.rows[s] == hidden[slotToRow[s]]
    ensures IsTight(p, hidden, owners, K, E)
  {
    hide Slot, Counts, StartsOf;
    forall i: nat | i < |owners|
      ensures p.fwdIdx[i] < |p.rows| && IsRow(p.rows[p.fwdIdx[i]], hidden, i, K)
    {
      PairRows(i, |hidden|, K);
    }
  }

  /** Sorts the pairs by expert, stably and without padding; None is the index error of an id that
      names no expert. */
  method PermuteTight(hidden: seq<Row>, ids: seq<int>, K: nat, E: nat) returns (r: Option<Permuted>)
    requires |ids| == |hidden| * K
    ensures r.Some? <==> InRange(ids, E)
    ensures r.Some? <==> forall i | 0 <= i < |ids| :: 0 <= ids[i] + E < E + E
    ensures r.Some? ==> Owned(Owners(ids, E), E) && IsTight(r.value, hidden, Owners(ids, E), K, E)
  {
    hide Count, Counts, Running, Slot, Fits, InRange, Holds, IsTight;
    OwnersIndex(ids, E);
    var counted := CountPicks(ids, E);
    if counted.None? {
      return None;
    }
    var counts := counted.value[..];
    ghost var owners := Owners(ids, E);
    InRangeOwned(ids, E);
    CountsFit(owners, E);
    var offsets := Starts(counts);
    NoBlocks(|hidden|, K);
    var fwdIdx, slotToRow := PlaceTight(ids, K, offsets, counts, owners);
    SlotsNameTokens(slotToRow[..], owners, E, |hidden|, K);
    var rows := GatherRows(hidden, slotToRow[..]);
    r := Some(Permuted(rows, counts, offsets, fwdIdx[..]));
    GatheredIsTight(r.value, hidden, slotToRow[..], owners, K, E);
  }

  /** fwdIdx sends different pairs to different slots, and pairs of one expert to slots in flat order. */
  lemma FwdIdxStable(p: Permuted, hidden: seq<Row>, owners: seq<nat>, K: nat, E: nat, i: nat, j: nat)
    requires Owned(owners, E) && |owners| == |hidden| * K && IsTight(p, hidden, owners, K, E)
    requires i < j < |owners|
    ensures p.fwdIdx[i] != p.fwdIdx[j]
    ensures owners[i] == owners[j] ==> p.fwdIdx[i] < p.fwdIdx[j]
  {
    hide Slot, Counts, Running, Fits;
    CountsFit(owners, E);
    SlotsDistinct(p.sizes, owners, i, j);
    if owners[i] == owners[j] {
      SlotsStable(p.sizes, owners, i, j);
    }
  }

  /** fwdIdx reaches every slot. */
  lemma FwdIdxOnto(p: Permuted, hidden: seq<Row>, owners: seq<nat>, K: nat, E: nat, s: nat)
    returns (i: nat)
    requires Owned(owners, E) && |owners| == |hidden| * K && IsTight(p, hidden, owners, K, E)
    requires s < |owners|
    ensures i < |owners| && p.fwdIdx[i] == s && p.rows[s] == hidden[i / K]
  {
    hide Slot, Counts, Running, Fits;
    i := TightSlotsOnto(owners, E, s);
  }

  /** The pairs of expert e are exactly those in [offsets[e], offsets[e + 1]). */
  lemma FwdIdxSegment(p: Permuted, hidden: seq<Row>, owners: seq<nat>, K: nat, E: nat, i: nat, e: nat)
    requires Owned(owners, E) && |owners| == |hidden| * K && IsTight(p, hidden, owners, K, E)
    requires i < |owners| && e < E
    ensures owners[i] == e <==> p.offsets[e] <= p.fwdIdx[i] < p.offsets[e + 1]
  {
    hide Slot, Counts, Running, Fits;
    CountsFit(owners, E);
    SlotInSegment(p.sizes, owners, i);
    if p.offsets[e] <= p.fwdIdx[i] < p.offsets[e + 1] {
      OwnerUnique(p.sizes, owners[i], e, p.fwdIdx[i]);
    }
  }

  // ----------------------------------------------------- block-aligned permutation

  /** Every expert's share rounded up to whole blocks. */
  function Padded(counts: seq<nat>, block: nat): (r: seq<nat>)
    requires block > 0
    ensures |r| == |counts|
  {
    seq(|counts|, e requires 0 <= e < |counts| => CeilTo(counts[e], block))
  }

  /** Padded segments start and end on block boundaries. */
  lemma {:induction false} SegmentsAligned(counts: seq<nat>, block: nat, e: nat)
    requires block > 0 && e <= |counts|
    ensures Running(Padded(counts, block), e) % block == 0
  {
    if e > 0 {
      SegmentsAligned(counts, block, e - 1);
      AddWholeBlocks(Running(Padded(counts, block), e - 1), Padded(counts, block)[e - 1], block);
    }
  }

  lemma PaddedFits(owners: seq<nat>, E: nat, block: nat)
    requires block > 0 && Owned(owners, E)
    ensures Fits(Padded(Counts(owners, E), block), owners)
  {}

  datatype Aligned = Aligned(sortedTokenIds: seq<nat>, expertIds: seq<nat>, totalPadded: nat)

  function Itself(): nat -> nat { i => i }

  /** A slot that holds anything but the sentinel holds one of the first n pairs, whose slot it is. */
  ghost predicate OnlyHolds(slots: seq<nat>, sizes: seq<nat>, owners: seq<nat>, n: nat)
    requires n <= |owners| && Owned(owners, |sizes|)
  {
    forall s | 0 <= s < |slots| :: slots[s] == |owners| || (slots[s] < n && Slot(sizes, owners, slots[s]) == s)
  }

  lemma OnlyHoldsStep(slots: seq<nat>, sizes: seq<nat>, owners: seq<nat>, i: nat)
    requires Owned(owners, |sizes|) && i < |owners| && OnlyHolds(slots, sizes, owners, i)
    requires Slot(sizes, owners, i) < |slots|
    ensures OnlyHolds(slots[Slot(sizes, owners, i) := i], sizes, owners, i + 1)
  {
    hide Slot;
  }

  /** Each pair's index appears exactly once, in the pair's slot; every other slot holds the sentinel. */
  ghost predicate ExactlyOnce(slots: seq<nat>, sizes: seq<nat>, owners: seq<nat>)
    requires Owned(owners, |sizes|)
  {
    && |slots| == Running(sizes, |sizes|)
    && Holds(slots, sizes, owners, |owners|, Itself())
    && OnlyHolds(slots, sizes, owners, |owners|)
  }

  lemma AllBlank(slots: seq<nat>, sizes: seq<nat>, owners: seq<nat>)
    requires Owned(owners, |sizes|) && forall s | 0 <= s < |slots| :: slots[s] == |owners|
    ensures Holds(slots, sizes, owners, 0, Itself()) && OnlyHolds(slots, sizes, owners, 0)
  {}

  /** Deals the pairs' indices out to their slots, leaving the sentinel elsewhere. */
  method PlaceAligned(ids: seq<int>, starts: seq<nat>, ghost sizes: seq<nat>, ghost owners: seq<nat>)
    returns (sorted: array<nat>)
    requires StartsOf(starts, sizes) && owners == Owners(ids, |sizes|) && Owned(owners, |sizes|)
    requires Fits(sizes, owners)
    ensures fresh(sorted) && ExactlyOnce(sorted[..], sizes, owners)
  {
    hide Count, Running, Slot, Fits, PointersAt, Holds, OnlyHolds, Owners, OwnerOf, Itself;
    sorted := new nat[starts[|starts| - 1]](_ => |ids|);
    var slot := new nat[|starts| - 1](e requires 0 <= e < |starts| - 1 => starts[e]);
    assert slot[..] == starts[..|sizes|];
    OwnersAt(ids, |sizes|);
    PointersStart(starts, sizes, owners);
    AllBlank(sorted[..], sizes, owners);
    for i := 0 to |ids|
      invariant PointersAt(slot[..], sizes, owners, i)
      invariant Holds(sorted[..], sizes, owners, i, Itself()) && OnlyHolds(sorted[..], sizes, owners, i)
    {
      var e := OwnerOf(ids[i], slot.Length);
      ghost var pointers, placed := slot[..], sorted[..];
      PointersStep(pointers, sizes, owners, i);
      HoldsStep(placed, sizes, owners, i, Itself());
      OnlyHoldsStep(placed, sizes, owners, i);
      ItselfIs(i);
      sorted[slot[e]] := i;
      slot[e] := slot[e] + 1;
      assert sorted[..] == placed[pointers[e] := i];
      assert slot[..] == pointers[e := pointers[e] + 1];
    }
  }

  lemma ItselfIs(i: nat)
    ensures Itself()(i) == i
  {}

  /** Binary search for the segment holding x. Empty segments share their start with the next one;
      the search still ends on the one segment that holds x, and its default answer is never used. */
  method FindOwner(starts: seq<nat>, ghost sizes: seq<nat>, x: nat) returns (e: nat)
    requires StartsOf(starts, sizes) && x < Running(sizes, |sizes|)
    ensures Owns(sizes, e, x)
  {
    hide Running;
    ghost var owner := OwnerExists(sizes, |sizes|, x);
    var lo, hi := 0, |starts| - 2;
    while lo <= hi
      invariant 0 <= lo <= owner <= hi < |sizes|
    {
      var mid := (lo + hi) / 2;
      if starts[mid] <= x < starts[mid + 1] {
        return mid;
      } else if x < starts[mid] {
        if mid <= owner {
          RunningMonotone(sizes, mid, owner);
        }
        hi := mid - 1;
      } else {
        if owner <= mid {
          RunningMonotone(sizes, owner + 1, mid + 1);
        }
        lo := mid + 1;
      }
    }
    assert false;
  }

  ghost predicate IsAligned(p: Aligned, owners: seq<nat>, block: nat, E: nat)
    requires block > 0 && Owned(owners, E)
  {
    var sizes := Padded(Counts(owners, E), block);
    && ExactlyOnce(p.sortedTokenIds, sizes, owners) && p.totalPadded == |p.sortedTokenIds|
    && |p.expertIds| == p.totalPadded / block
    && forall b | 0 <= b < |p.expertIds| :: Owns(sizes, p.expertIds[b], b * block)
  }

  method OwnBlocks(starts: seq<nat>, ghost sizes: seq<nat>, block: nat) returns (expertIds: seq<nat>)
    requires StartsOf(starts, sizes) && block > 0
    ensures |expertIds| == Running(sizes, |sizes|) / block
    ensures forall b | 0 <= b < |expertIds| :: Owns(sizes, expertIds[b], b * block)
  {
    hide Owns, Running;
    var total := starts[|starts| - 1];
    expertIds := [];
    for b := 0 to total / block
      invariant |expertIds| == b && forall c | 0 <= c < b :: Owns(sizes, expertIds[c], c * block)
    {
      BlockBegins(b, block, total);
      var e := FindOwner(starts, sizes, b * block);
      expertIds := expertIds + [e];
    }
  }

  /** Groups pair indices by expert into segments of whole blocks, and names each block's expert. */
  method PermuteAlign(ids: seq<int>, block: nat, E: nat) returns (r: Option<Aligned>)
    requires block > 0
    ensures r.Some? <==> InRange(ids, E)
    ensures r.Some? <==> forall i | 0 <= i < |ids| :: 0 <= ids[i] + E < E + E
    ensures r.Some? ==> Owned(Owners(ids, E), E) && IsAligned(r.value, Owners(ids, E), block, E)
  {
    hide Count, Counts, Running, Fits, InRange, ExactlyOnce, Owns;
    OwnersIndex(ids, E);
    var counted := CountPicks(ids, E);
    if counted.None? {
      return None;
    }
    ghost var owners := Owners(ids, E);
    InRangeOwned(ids, E);
    PaddedFits(owners, E, block);
    var sizes := Padded(counted.value[..], block);
    var starts := Starts(sizes);
    var sorted := PlaceAligned(ids, starts, sizes, owners);
    var expertIds := OwnBlocks(starts, sizes, block);
    SortedLength(sorted[..], sizes, owners);
    r := Some(Aligned(sorted[..], expertIds, starts[E]));
  }

  lemma {:induction false} SortedLength(slots: seq<nat>, sizes: seq<nat>, owners: seq<nat>)
    requires Owned(owners, |sizes|) && ExactlyOnce(slots, sizes, owners)
    ensures |slots| == Running(sizes, |sizes|)
  {}

  /** Slot s holds a pair, and the pair goes to the expert named for the slot's block. */
  ghost predicate RoutedToBlock(p: Aligned, owners: seq<nat>, block: nat, s: nat)
    requires block > 0 && s < |p.sortedTokenIds|
  {
    && p.sortedTokenIds[s] < |owners| && s / block < |p.expertIds|
    && owners[p.sortedTokenIds[s]] == p.expertIds[s / block]
  }

  /** A whole block belongs to its expert: every pair in block b was routed to expertIds[b]. */
  lemma BlockRouted(p: Aligned, owners: seq<nat>, block: nat, E: nat, s: nat)
    requires block > 0 && Owned(owners, E) && IsAligned(p, owners, block, E)
    requires s < |p.sortedTokenIds| && p.sortedTokenIds[s] != |owners|
    ensures RoutedToBlock(p, owners, block, s)
  {
    hide Count, Counts, Running, Slot, Padded, Holds;
    var sizes, i := Padded(Counts(owners, E), block), p.sortedTokenIds[s];
    PaddedFits(owners, E, block);
    SlotInSegment(sizes, owners, i);
    SegmentsAligned(Counts(owners, E), block, owners[i]);
    SegmentsAligned(Counts(owners, E), block, E);
    BlockAfterBoundary(Running(sizes, owners[i]), s, block);
    LastBlock(s, p.totalPadded, block);
    OwnerUnique(sizes, owners[i], p.expertIds[s / block], s / block * block);
  }
}
