/** Key windows of queries in packed sequences, and their slicing across context-parallel ranks. */
module CausalWindows {
  import opened Wrappers
  import opened Segments
  import opened Blocks

  // ---------------------------------------------------- which sequence a row is in

  /** The starts that mark a new sequence: all but the first. */
  function Later(qs: seq<nat>): seq<nat> { if |qs| > 1 then qs[1..] else [] }

  /** How many rows below n are marked; a row marked twice counts once. */
  function Marks(later: seq<nat>, n: nat): nat {
    if n == 0 then 0 else Marks(later, n - 1) + if n - 1 in later then 1 else 0
  }

  lemma {:induction false} MarksOneMore(later: seq<nat>, x: nat, n: nat)
    ensures Marks(later + [x], n) <= Marks(later, n) + if x < n then 1 else 0
  {
    if n > 0 {
      MarksOneMore(later, x, n - 1);
    }
  }

  lemma {:induction false} MarksBound(later: seq<nat>, n: nat)
    ensures Marks(later, n) <= |later|
  {
    if later == [] {
      NoMarks(n);
    } else {
      var k := |later| - 1;
      MarksBound(later[..k], n);
      MarksOneMore(later[..k], later[k], n);
      assert later == later[..k] + [later[k]];
    }
  }

  lemma {:induction false} NoMarks(n: nat)
    ensures Marks([], n) == 0
  {
    if n > 0 {
      NoMarks(n - 1);
    }
  }

  /** Ids that count the marks up to each row; None is the index error of a mark at or past the end. */
  function Ids(later: seq<nat>, seqLen: nat): (r: Option<seq<nat>>)
    ensures r.Some? <==> forall j | 0 <= j < |later| :: later[j] < seqLen
    ensures r.Some? ==> |r.value| == seqLen && forall p | 0 <= p < seqLen :: r.value[p] == Marks(later, p + 1)
  {
    if forall j | 0 <= j < |later| :: later[j] < seqLen
    then Some(seq(seqLen, p requires 0 <= p < seqLen => Marks(later, p + 1)))
    else None
  }

  /** Sequence ids by scattering ones at the later starts and summing. */
  method SeqIdx(qs: seq<nat>, seqLen: nat) returns (r: Option<seq<nat>>)
    ensures r == Ids(Later(qs), seqLen)
  {
    var later := Later(qs);
    var flags := new nat[seqLen](_ => 0);
    for j := 0 to |later|
      invariant forall i | 0 <= i < j :: later[i] < seqLen
      invariant forall p: nat | p < seqLen :: flags[p] == if p in later[..j] then 1 else 0
    {
      if later[j] >= seqLen {
        return None;
      }
      assert later[..j + 1] == later[..j] + [later[j]];
      flags[later[j]] := 1;
    }
    assert later[..|later|] == later;
    var sums := new nat[seqLen](_ => 0);
    var running := 0;
    for p := 0 to seqLen
      invariant forall i: nat | i < seqLen :: flags[i] == if i in later then 1 else 0
      invariant running == Marks(later, p)
      invariant forall i | 0 <= i < p :: sums[i] == Marks(later, i + 1)
    {
      running := running + flags[p];
      sums[p] := running;
    }
    assert sums[..] == Ids(later, seqLen).value;
    r := Some(sums[..]);
  }

  function StartsFrom(lens: seq<nat>): (r: seq<nat>)
    ensures |r| == |lens|
  {
    seq(|lens|, i requires 0 <= i < |lens| => Running(lens, i))
  }

  /** Empty sequences among the first e, the very first not counted. */
  function Empties(lens: seq<nat>, e: nat): (r: nat)
    requires e <= |lens|
    ensures r <= e
  {
    if e <= 1 then 0 else Empties(lens, e - 1) + if lens[e - 1] == 0 then 1 else 0
  }

  lemma {:induction false} EmptyStretch(lens: seq<nat>, d: nat, e: nat)
    requires 1 <= d <= e <= |lens| && Running(lens, d) == Running(lens, e)
    ensures Empties(lens, e) == Empties(lens, d) + (e - d)
  {
    if d < e {
      RunningMonotone(lens, d, e - 1);
      EmptyStretch(lens, d, e - 1);
    }
  }

  lemma {:induction false} MarkedIffStart(lens: seq<nat>, p: nat)
    ensures p in Later(StartsFrom(lens)) <==> exists j: nat :: 1 <= j < |lens| && Running(lens, j) == p
  {
    hide Running;
    var later := Later(StartsFrom(lens));
    if p in later {
      var i: nat :| i < |later| && later[i] == p;
      var j: nat := i + 1;
      assert 1 <= j < |lens| && Running(lens, j) == p;
    }
    forall j: nat | 1 <= j < |lens| && Running(lens, j) == p
      ensures p in later
    {
      assert later[j - 1] == p;
    }
  }

  /** The id a row gets falls short of its sequence by exactly the empty sequences before it, the very
      first aside. */
  lemma {:induction false} IdOfRow(lens: seq<nat>, e: nat, p: nat)
    requires Owns(lens, e, p)
    ensures Marks(Later(StartsFrom(lens)), p + 1) == e - Empties(lens, e)
    decreases p
  {
    hide Later, StartsFrom;
    var later := Later(StartsFrom(lens));
    MarkedIffStart(lens, p);
    if Running(lens, e) < p {
      RowNotStart(lens, e, p);
      IdOfRow(lens, e, p - 1);
    } else if p > 0 {
      var d := OwnerExists(lens, e, p - 1);
      IdOfRow(lens, d, p - 1);
      RunningMonotone(lens, d + 1, e);
      EmptyStretch(lens, d + 1, e);
      NotEmptyHere(lens, d);
    } else {
      FirstRow(lens, e);
    }
  }

  lemma {:induction false} RowNotStart(lens: seq<nat>, e: nat, p: nat)
    requires Owns(lens, e, p) && Running(lens, e) < p
    ensures forall j | 0 <= j < |lens| :: Running(lens, j) != p
  {
    forall j: nat | j < |lens|
      ensures Running(lens, j) != p
    {
      if j <= e {
        RunningMonotone(lens, j, e);
      } else {
        RunningMonotone(lens, e + 1, j);
      }
    }
  }

  lemma {:induction false} NotEmptyHere(lens: seq<nat>, d: nat)
    requires d < |lens| && lens[d] > 0
    ensures Empties(lens, d + 1) == Empties(lens, d)
  {}

  lemma {:induction false} FirstRow(lens: seq<nat>, e: nat)
    requires Owns(lens, e, 0)
    ensures Marks(Later(StartsFrom(lens)), 1) == e - Empties(lens, e)
  {
    MarkedIffStart(lens, 0);
    if e > 0 {
      RunningMonotone(lens, 1, e);
      EmptyStretch(lens, 1, e);
    } else {
      forall j: nat | 1 <= j < |lens|
        ensures Running(lens, j) > 0
      {
        RunningMonotone(lens, 1, j);
      }
    }
  }

  lemma {:induction false} EmptiesIff(lens: seq<nat>, e: nat)
    requires e <= |lens|
    ensures Empties(lens, e) == 0 <==> forall j | 1 <= j < e :: lens[j] > 0
  {
    if e > 1 {
      EmptiesIff(lens, e - 1);
    }
  }

  function IdsFor(lens: seq<nat>): Option<seq<nat>> { Ids(Later(StartsFrom(lens)), Running(lens, |lens|)) }

  /** Every row has an id, and it is the sequence that contains the row. */
  ghost predicate IdsRight(lens: seq<nat>) {
    IdsFor(lens).Some? && forall e, p | 0 <= p < |IdsFor(lens).value| && Owns(lens, e, p) :: IdsFor(lens).value[p] == e
  }

  /** The scatter and prefix sum name every row's sequence exactly when no sequence but the first is
      empty: an empty one merges two marks, and an empty last one starts past the end. */
  lemma IdsRightIff(lens: seq<nat>)
    ensures IdsRight(lens) <==> forall j | 1 <= j < |lens| :: lens[j] > 0
  {
    if forall j | 1 <= j < |lens| :: lens[j] > 0 {
      PositiveIdsRight(lens);
    } else {
      var j :| 1 <= j < |lens| && lens[j] == 0;
      EmptyIdsWrong(lens, j);
    }
  }

  lemma PositiveIdsRight(lens: seq<nat>)
    requires forall j | 1 <= j < |lens| :: lens[j] > 0
    ensures IdsRight(lens)
  {
    hide Marks, Owns, Running;
    var later, total := Later(StartsFrom(lens)), Running(lens, |lens|);
    forall j | 0 <= j < |later|
      ensures later[j] < total
    {
      RunningStep(lens, j + 1);
      RunningMonotone(lens, j + 2, |lens|);
    }
    forall e: nat, p: nat | p < total && Owns(lens, e, p)
      ensures IdsFor(lens).value[p] == e
    {
      OwnersInRange(lens, e, p);
      IdOfRow(lens, e, p);
      EmptiesIff(lens, e);
    }
  }

  lemma OwnersInRange(lens: seq<nat>, e: nat, p: int)
    requires Owns(lens, e, p)
    ensures e < |lens|
  {}

  lemma EmptyIdsWrong(lens: seq<nat>, j: nat)
    requires 1 <= j < |lens| && lens[j] == 0
    ensures !IdsRight(lens)
  {
    hide Running, Owns, IdAt, IdsFor;
    IdsForIff(lens);
    if IdsFor(lens).Some? {
      var e, p := MisplacedRow(lens, j);
      IdOfOwner(lens, e, p);
      OwnersInRange(lens, e, p);
    }
  }

  /** A row at or after an empty sequence belongs to a later one. */
  lemma {:induction false} LaterOwner(lens: seq<nat>, j: nat, e: nat, p: nat)
    requires j < |lens| && lens[j] == 0 && Owns(lens, e, p) && Running(lens, j) <= p
    ensures j < e
  {
    if e < j {
      RunningMonotone(lens, e + 1, j);
    }
  }

  // ----------------------------------------------------------------------- windows

  /** Keys of each sequence, one for every `stride` of its tokens. */
  function KeyLens(lens: seq<nat>, stride: nat): (r: seq<nat>)
    requires stride > 0
    ensures |r| == |lens|
  {
    seq(|lens|, i requires 0 <= i < |lens| => lens[i] / stride)
  }

  /** First key of sequence e. */
  function KeyStart(lens: seq<nat>, stride: nat, e: nat): nat
    requires stride > 0 && e <= |lens|
  {
    Running(KeyLens(lens, stride), e)
  }

  /** One past the last key that a query at row p of sequence e may see, when the sequence's queries are
      numbered from `first`. */
  function CausalEnd(lens: seq<nat>, stride: nat, first: int, e: nat, p: int): int
    requires stride > 0 && e < |lens|
  {
    (first + (p - Running(lens, e)) + 1) / stride + KeyStart(lens, stride, e)
  }

  /** With queries numbered from zero the causal end never passes the end of the sequence's keys, for any
      stride, so taking the minimum of the two changes nothing. */
  lemma CausalWithinSequence(lens: seq<nat>, stride: nat, e: nat, p: nat)
    requires stride > 0 && Owns(lens, e, p)
    ensures KeyStart(lens, stride, e) <= CausalEnd(lens, stride, 0, e, p) <= KeyStart(lens, stride, e + 1)
  {
    var n := p - Running(lens, e) + 1;
    DivMonotone(0, n, stride);
    DivMonotone(n, lens[e], stride);
  }

  /** The last row of a non-empty sequence sees all of its keys, one for every whole stride of its tokens. */
  lemma {:induction false} LastRowSeesAll(lens: seq<nat>, stride: nat, e: nat)
    requires stride > 0 && e < |lens| && lens[e] > 0
    ensures Owns(lens, e, Running(lens, e + 1) - 1)
    ensures CausalEnd(lens, stride, 0, e, Running(lens, e + 1) - 1) == KeyStart(lens, stride, e + 1)
    ensures KeyStart(lens, stride, e + 1) - KeyStart(lens, stride, e) == lens[e] / stride
  {}

  /** Inside a sequence windows start together and grow with the row. */
  lemma WindowsNest(lens: seq<nat>, stride: nat, first: int, e: nat, p: nat, q: nat)
    requires stride > 0 && Owns(lens, e, p) && Owns(lens, e, q) && p <= q
    ensures CausalEnd(lens, stride, first, e, p) <= CausalEnd(lens, stride, first, e, q)
  {
    DivMonotone(first + (p - Running(lens, e)) + 1, first + (q - Running(lens, e)) + 1, stride);
  }

  /** Windows of different sequences share no key. */
  lemma WindowsDisjoint(lens: seq<nat>, stride: nat, d: nat, e: nat, p: nat)
    requires stride > 0 && d < e < |lens| && Owns(lens, d, p)
    ensures CausalEnd(lens, stride, 0, d, p) <= KeyStart(lens, stride, e)
  {
    CausalWithinSequence(lens, stride, d, p);
    RunningMonotone(KeyLens(lens, stride), d + 1, e);
  }

  /** A query sees exactly those keys of its sequence all of whose tokens are at or before it. */
  lemma {:induction false} WindowIsCausal(lens: seq<nat>, stride: nat, e: nat, p: nat, key: nat)
    requires stride > 0 && Owns(lens, e, p) && key >= KeyStart(lens, stride, e)
    ensures key < CausalEnd(lens, stride, 0, e, p)
       <==> Running(lens, e) + (key - KeyStart(lens, stride, e) + 1) * stride - 1 <= p
  {
    hide Running, KeyStart;
    BelowQuotient(key - KeyStart(lens, stride, e), p - Running(lens, e) + 1, stride);
  }

  const INT_MAX: int := 0x7FFF_FFFF

  /** Looks each row's id up in a table. */
  method Gather(table: seq<int>, ids: seq<nat>) returns (r: seq<int>)
    requires forall p | 0 <= p < |ids| :: ids[p] < |table|
    ensures |r| == |ids| && forall p | 0 <= p < |r| :: r[p] == table[ids[p]]
  {
    r := seq(|ids|, p requires 0 <= p < |ids| => table[ids[p]]);
  }

  lemma IdsInTable(qs: seq<nat>, seqLen: nat)
    requires Ids(Later(qs), seqLen).Some?
    ensures forall p | 0 <= p < seqLen :: Ids(Later(qs), seqLen).value[p] <= |qs|
  {
    forall p: nat | p < seqLen
      ensures Ids(Later(qs), seqLen).value[p] <= |qs|
    {
      MarksBound(Later(qs), p + 1);
    }
  }

  /** First key of every row's sequence, by its id. */
  method KeyStarts(qs: seq<nat>, ks: seq<int>, seqLen: nat) returns (r: Option<seq<int>>)
    requires |ks| == |qs|
    ensures var ids := Ids(Later(qs), seqLen);
            && (r.Some? <==> ids.Some?)
            && (r.Some? ==> |r.value| == seqLen)
            && (r.Some? ==> forall p | 0 <= p < seqLen ::
                  ids.value[p] <= |ks| && r.value[p] == (ks + [INT_MAX])[ids.value[p]])
  {
    hide Marks;
    var ids := SeqIdx(qs, seqLen);
    if ids.None? {
      return None;
    }
    IdsInTable(qs, seqLen);
    var starts := Gather(ks + [INT_MAX], ids.value);
    r := Some(starts);
  }

  /** Sequences laid end to end: where each starts and ends. */
  ghost predicate Packed(qs: seq<nat>, qe: seq<nat>, lens: seq<nat>) {
    && qs == StartsFrom(lens) && |qe| == |lens|
    && forall i | 0 <= i < |lens| :: qe[i] == Running(lens, i + 1)
  }

  function Min(a: int, b: int): int { if a < b then a else b }

  /** A row's causal end: the rows of its sequence up to it, counted in strides, past the first key. */
  function CausalAt(first: int, start: int, key: int, stride: nat, p: int): int
    requires stride > 0
  {
    (first + (p - start) + 1) / stride + key
  }

  /** The causal ends of the first n sequences are in place. */
  ghost predicate EndsWritten(ends: seq<int>, qs: seq<nat>, ks: seq<int>, firsts: seq<int>, stride: nat, lens: seq<nat>, n: nat)
    requires stride > 0 && n <= |qs| == |ks| == |firsts| == |lens|
  {
    forall e: nat, p | e < n && 0 <= p < |ends| && Owns(lens, e, p) ::
      ends[p] == CausalAt(firsts[e], qs[e], ks[e], stride, p)
  }

  lemma EndsWrittenStep(before: seq<int>, after: seq<int>, qs: seq<nat>, ks: seq<int>, firsts: seq<int>,
                        stride: nat, lens: seq<nat>, n: nat)
    requires stride > 0 && n < |qs| == |ks| == |firsts| == |lens| && |before| == |after|
    requires EndsWritten(before, qs, ks, firsts, stride, lens, n)
    requires forall p | 0 <= p < |after| ::
      after[p] == if Owns(lens, n, p) then CausalAt(firsts[n], qs[n], ks[n], stride, p) else before[p]
    ensures EndsWritten(after, qs, ks, firsts, stride, lens, n + 1)
  {
    hide CausalAt, Owns;
    forall e: nat, p | e < n && 0 <= p < |after| && Owns(lens, e, p)
      ensures !Owns(lens, n, p)
    {
      if Owns(lens, n, p) {
        OwnerUnique(lens, e, n, p);
      }
    }
  }

  method WriteEnds(causal: array<int>, from: nat, to: nat, first: int, key: int, stride: nat)
    requires stride > 0 && from <= to <= causal.Length
    modifies causal
    ensures forall p | 0 <= p < causal.Length ::
      causal[p] == if from <= p < to then CausalAt(first, from, key, stride, p) else old(causal[p])
  {
    hide CausalAt;
    for row := from to to
      invariant forall p | 0 <= p < causal.Length ::
        causal[p] == if from <= p < row then CausalAt(first, from, key, stride, p) else old(causal[p])
    {
      CausalAtIs(first, from, key, stride, row);
      causal[row] := (first + (row - from) + 1) / stride + key;
    }
  }

  lemma CausalAtIs(first: int, start: int, key: int, stride: nat, p: int)
    requires stride > 0
    ensures CausalAt(first, start, key, stride, p) == (first + (p - start) + 1) / stride + key
  {}

  /** Causal ends, written sequence by sequence. */
  method CausalEnds(qs: seq<nat>, qe: seq<nat>, ks: seq<int>, firsts: seq<int>, seqLen: nat, stride: nat,
                    ghost lens: seq<nat>)
    returns (ends: seq<int>)
    requires stride > 0 && Packed(qs, qe, lens) && |qs| == |ks| == |firsts| && seqLen == Running(lens, |lens|)
    ensures |ends| == seqLen && EndsWritten(ends, qs, ks, firsts, stride, lens, |lens|)
  {
    hide Running, CausalAt, EndsWritten;
    var causal := new int[seqLen](_ => 0);
    NothingWritten(causal[..], qs, ks, firsts, stride, lens);
    for i := 0 to |qs|
      invariant EndsWritten(causal[..], qs, ks, firsts, stride, lens, i)
    {
      RunningMonotone(lens, i, i + 1);
      RunningMonotone(lens, i + 1, |lens|);
      ghost var before := causal[..];
      WriteEnds(causal, qs[i], qe[i], firsts[i], ks[i], stride);
      EndsWrittenStep(before, causal[..], qs, ks, firsts, stride, lens, i);
    }
    ends := causal[..];
  }

  lemma NothingWritten(ends: seq<int>, qs: seq<nat>, ks: seq<int>, firsts: seq<int>, stride: nat,
                       lens: seq<nat>)
    requires stride > 0 && |qs| == |ks| == |firsts| == |lens|
    ensures EndsWritten(ends, qs, ks, firsts, stride, lens, 0)
  {}

  /** The end of every row's window: its causal end, but at most the end its id looks up. */
  method KeyEnds(qs: seq<nat>, qe: seq<nat>, ks: seq<int>, ke: seq<int>, firsts: seq<int>, seqLen: nat, stride: nat,
                 ghost lens: seq<nat>)
    returns (r: Option<seq<int>>)
    requires stride > 0 && Packed(qs, qe, lens) && seqLen == Running(lens, |lens|)
    requires |qs| == |ks| == |ke| == |firsts|
    ensures r.Some? <==> IdsFor(lens).Some?
    ensures r.Some? ==> |r.value| == seqLen && forall p | 0 <= p < seqLen :: IdsFor(lens).value[p] <= |ke|
    ensures r.Some? ==> forall e: nat, p | 0 <= p < seqLen && Owns(lens, e, p) ::
      r.value[p] == Min(CausalAt(firsts[e], qs[e], ks[e], stride, p), (ke + [0])[IdsFor(lens).value[p]])
  {
    hide Marks, Running, CausalAt;
    var ids := SeqIdx(qs, seqLen);
    if ids.None? {
      return None;
    }
    IdsInTable(qs, seqLen);
    var ends := Gather(ke + [0], ids.value);
    var causal := CausalEnds(qs, qe, ks, firsts, seqLen, stride, lens);
    r := Some(seq(seqLen, p requires 0 <= p < seqLen => Min(causal[p], ends[p])));
  }

  method Cumulative(lens: seq<nat>) returns (starts: seq<nat>, ends: seq<nat>)
    ensures Packed(starts, ends, lens)
  {
    hide Running;
    starts, ends := [], [];
    var running := 0;
    RunningStep(lens, 0);
    for i := 0 to |lens|
      invariant running == Running(lens, i) && |starts| == |ends| == i
      invariant forall j | 0 <= j < i :: starts[j] == Running(lens, j)
      invariant forall j | 0 <= j < i :: ends[j] == Running(lens, j + 1)
    {
      RunningStep(lens, i);
      starts := starts + [running];
      running := running + lens[i];
      ends := ends + [running];
    }
    assert starts == StartsFrom(lens);
  }

  lemma {:induction false} TotalIsLastEnd(qs: seq<nat>, qe: seq<nat>, lens: seq<nat>)
    requires Packed(qs, qe, lens)
    ensures Running(lens, |lens|) == if qe == [] then 0 else qe[|qe| - 1]
  {}

  /** Every row's window starts at its own sequence's first key and ends at its causal end. */
  ghost predicate WindowsRight(lens: seq<nat>, stride: nat, ks: seq<int>, ke: seq<int>)
    requires stride > 0
  {
    && |ks| == |ke| == Running(lens, |lens|)
    && forall e: nat, p | 0 <= p < |ks| && Owns(lens, e, p) ::
      ks[p] == KeyStart(lens, stride, e) && ke[p] == CausalEnd(lens, stride, 0, e, p)
  }

  /** The id the rows of sequence e are given. */
  function IdAt(lens: seq<nat>, e: nat): nat
    requires e <= |lens|
  {
    e - Empties(lens, e)
  }

  /** What the windows are whether or not the ids are right: a row with its own sequence's id gets its causal
      window, and a row with an earlier sequence's id gets all of that sequence's keys. An empty last sequence
      is an index error. */
  ghost predicate WindowsAre(lens: seq<nat>, stride: nat, r: Option<(seq<int>, seq<int>)>)
    requires stride > 0
  {
    && (r.Some? <==> |lens| <= 1 || lens[|lens| - 1] > 0)
    && (r.Some? ==> |r.value.0| == |r.value.1| == Running(lens, |lens|))
    && (r.Some? ==> forall e: nat, p | 0 <= p < |r.value.0| && Owns(lens, e, p) ::
          RowWindow(lens, stride, e, p, r.value.0[p], r.value.1[p]))
  }

  ghost predicate RowWindow(lens: seq<nat>, stride: nat, e: nat, p: int, from: int, to: int)
    requires stride > 0 && e < |lens|
  {
    && from == KeyStart(lens, stride, IdAt(lens, e))
    && to == if IdAt(lens, e) == e then CausalEnd(lens, stride, 0, e, p) else KeyStart(lens, stride, IdAt(lens, e) + 1)
  }

  /** A causal end cut off at the end of the keys its id names. */
  lemma CutOff(lens: seq<nat>, stride: nat, e: nat, p: nat)
    requires stride > 0 && Owns(lens, e, p)
    ensures Min(CausalEnd(lens, stride, 0, e, p), KeyStart(lens, stride, IdAt(lens, e) + 1))
         == if IdAt(lens, e) == e then CausalEnd(lens, stride, 0, e, p) else KeyStart(lens, stride, IdAt(lens, e) + 1)
  {
    hide Running, Empties, KeyLens, CausalEnd;
    CausalWithinSequence(lens, stride, e, p);
    if IdAt(lens, e) < e {
      RunningMonotone(KeyLens(lens, stride), IdAt(lens, e) + 1, e);
    }
  }

  lemma IdsForIff(lens: seq<nat>)
    ensures IdsFor(lens).Some? <==> |lens| <= 1 || lens[|lens| - 1] > 0
  {
    hide Running, Marks;
    var later, n := Later(StartsFrom(lens)), |lens|;
    if n > 1 {
      RunningStep(lens, n - 1);
      assert later[n - 2] == Running(lens, n - 1);
      forall j | 0 <= j < |later|
        ensures later[j] <= Running(lens, n - 1)
      {
        RunningMonotone(lens, j + 1, n - 1);
      }
    }
  }

  lemma {:induction false} IdOfOwner(lens: seq<nat>, e: nat, p: nat)
    requires IdsFor(lens).Some? && Owns(lens, e, p)
    ensures p < Running(lens, |lens|) == |IdsFor(lens).value| && IdsFor(lens).value[p] == IdAt(lens, e)
  {
    hide Marks;
    RunningMonotone(lens, e + 1, |lens|);
    IdOfRow(lens, e, p);
  }

  /** Windows of packed sequences whose queries are numbered from zero. */
  method Windows(lens: seq<nat>, stride: nat) returns (r: Option<(seq<int>, seq<int>)>)
    requires stride > 0
    ensures WindowsAre(lens, stride, r)
  {
    hide Running, KeyLens, IdsFor, IdAt;
    var qs, qe := Cumulative(lens);
    var ks, ke := Cumulative(KeyLens(lens, stride));
    var total := if qe == [] then 0 else qe[|qe| - 1];
    TotalIsLastEnd(qs, qe, lens);
    IdsForIs(lens);
    IdsForIff(lens);
    var starts := KeyStarts(qs, ks, total);
    if starts.None? {
      return None;
    }
    var ends := KeyEnds(qs, qe, ks, ke, seq(|qs|, _ => 0), total, stride, lens);
    r := Some((starts.value, ends.value));
    forall e: nat, p: nat | p < total && Owns(lens, e, p)
      ensures RowWindow(lens, stride, e, p, starts.value[p], ends.value[p])
    {
      OwnersInRange(lens, e, p);
      IdOfOwner(lens, e, p);
      IdAtSmall(lens, e);
      CutOff(lens, stride, e, p);
    }
  }

  lemma IdAtSmall(lens: seq<nat>, e: nat)
    requires e <= |lens|
    ensures IdAt(lens, e) <= e
  {}

  /** Windows are right exactly when every row either has its own sequence's id or reaches no key at all,
      with no keys between the sequence it is taken for and its own. */
  lemma WindowsRightIff(lens: seq<nat>, stride: nat, r: Option<(seq<int>, seq<int>)>)
    requires stride > 0 && WindowsAre(lens, stride, r) && r.Some?
    ensures WindowsRight(lens, stride, r.value.0, r.value.1)
       <==> forall e: nat, p | 0 <= p < |r.value.0| && Owns(lens, e, p) ::
              || IdAt(lens, e) == e
              || KeyStart(lens, stride, IdAt(lens, e)) == KeyStart(lens, stride, e) == CausalEnd(lens, stride, 0, e, p)
  {
    hide Owns, KeyStart, CausalEnd, IdAt;
    forall e: nat, p | 0 <= p < |r.value.0| && Owns(lens, e, p)
      ensures e < |lens| && IdAt(lens, e) <= e
      ensures (r.value.0[p] == KeyStart(lens, stride, e) && r.value.1[p] == CausalEnd(lens, stride, 0, e, p))
         <==> (|| IdAt(lens, e) == e
               || KeyStart(lens, stride, IdAt(lens, e)) == KeyStart(lens, stride, e) == CausalEnd(lens, stride, 0, e, p))
    {
      OwnersInRange(lens, e, p);
      RowRightIff(lens, stride, e, p, r.value.0[p], r.value.1[p]);
    }
  }

  lemma RowRightIff(lens: seq<nat>, stride: nat, e: nat, p: nat, from: int, to: int)
    requires stride > 0 && Owns(lens, e, p) && RowWindow(lens, stride, e, p, from, to)
    ensures IdAt(lens, e) <= e
    ensures (from == KeyStart(lens, stride, e) && to == CausalEnd(lens, stride, 0, e, p))
       <==> (|| IdAt(lens, e) == e
             || KeyStart(lens, stride, IdAt(lens, e)) == KeyStart(lens, stride, e) == CausalEnd(lens, stride, 0, e, p))
  {
    hide Running, KeyLens, CausalEnd, Empties;
    CausalWithinSequence(lens, stride, e, p);
    var d := IdAt(lens, e);
    if d < e {
      RunningMonotone(KeyLens(lens, stride), d, d + 1);
      RunningMonotone(KeyLens(lens, stride), d + 1, e);
    }
  }

  /** At stride one every row reaches a key, so windows are returned and right exactly when no sequence but the
      first is empty. */
  lemma StrideOneRightIff(lens: seq<nat>, r: Option<(seq<int>, seq<int>)>)
    requires WindowsAre(lens, 1, r)
    ensures r.Some? && WindowsRight(lens, 1, r.value.0, r.value.1) <==> forall j | 1 <= j < |lens| :: lens[j] > 0
  {
    hide Owns, Running, KeyStart, CausalEnd, IdAt, RowWindow, WindowsRight;
    if r.Some? {
      WindowsRightIff(lens, 1, r);
      if forall j | 1 <= j < |lens| :: lens[j] > 0 {
        forall e: nat, p | 0 <= p < |r.value.0| && Owns(lens, e, p)
          ensures e <= |lens| && IdAt(lens, e) == e
        {
          OwnersInRange(lens, e, p);
          NoneEmpty(lens, e);
        }
      } else {
        var j :| 1 <= j < |lens| && lens[j] == 0;
        var e, p := MisplacedRow(lens, j);
        ReachesKey(lens, e, p);
      }
    }
  }

  lemma NoneEmpty(lens: seq<nat>, e: nat)
    requires e <= |lens| && forall j | 1 <= j < e :: lens[j] > 0
    ensures IdAt(lens, e) == e
  {
    EmptiesIff(lens, e);
  }

  lemma ReachesKey(lens: seq<nat>, e: nat, p: nat)
    requires Owns(lens, e, p)
    ensures CausalEnd(lens, 1, 0, e, p) > KeyStart(lens, 1, e)
  {}

  /** With an empty sequence after the first but not last, some row is given another sequence's id. */
  lemma {:induction false} MisplacedRow(lens: seq<nat>, j: nat) returns (e: nat, p: nat)
    requires 1 <= j < |lens| && lens[j] == 0 && lens[|lens| - 1] > 0
    ensures p < Running(lens, |lens|) && Owns(lens, e, p) && e <= |lens| && IdAt(lens, e) != e
  {
    hide Running;
    var n := |lens|;
    RunningStep(lens, n - 1);
    RunningMonotone(lens, j, n - 1);
    p := Running(lens, n - 1);
    e := OwnerExists(lens, n, p);
    LaterOwner(lens, j, e, p);
    EmptiesIff(lens, e);
  }

  lemma {:induction false} IdsForIs(lens: seq<nat>)
    ensures IdsFor(lens) == Ids(Later(StartsFrom(lens)), Running(lens, |lens|))
  {}
}
