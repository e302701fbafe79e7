/** Dealing query rows out to context-parallel ranks: each rank takes one slice from the front and the
    mirrored one from the back. */
module ContextParallel {
  import opened Wrappers
  import opened Segments
  import opened CausalWindows
  import opened Blocks

  datatype Half = Short | Long

  /** Rows a slice starts at; each slice holds half of seqLen. */
  function SliceFrom(seqLen: nat, cp: nat, rank: nat, half: Half): int {
    var chunk := seqLen / 2;
    if half == Short then rank * chunk else seqLen * cp - (rank + 1) * chunk
  }

  predicate InSlice(seqLen: nat, cp: nat, rank: nat, half: Half, p: int) {
    SliceFrom(seqLen, cp, rank, half) <= p < SliceFrom(seqLen, cp, rank, half) + seqLen / 2
  }

  lemma SliceIsChunk(seqLen: nat, cp: nat, rank: nat, half: Half)
    requires seqLen % 2 == 0 && rank < cp
    ensures var c := if half == Short then rank else 2 * cp - 1 - rank;
            SliceFrom(seqLen, cp, rank, half) == c * (seqLen / 2)
    ensures 0 <= SliceFrom(seqLen, cp, rank, half) && SliceFrom(seqLen, cp, rank, half) + seqLen / 2 <= seqLen * cp
  {
    var chunk := seqLen / 2;
    var c := if half == Short then rank else 2 * cp - 1 - rank;
    HalfChunks(seqLen, cp);
    Distribute(2 * cp, -(rank + 1), chunk);
    Successor(c, chunk);
    ScaleMonotone(c + 1, 2 * cp, chunk);
    ScaleMonotone(0, c, chunk);
  }

  lemma HalfChunks(seqLen: nat, cp: nat)
    requires seqLen % 2 == 0
    ensures seqLen * cp == 2 * cp * (seqLen / 2)
  {
    assert seqLen == 2 * (seqLen / 2);
  }

  /** Who holds row p. */
  function Holder(seqLen: nat, cp: nat, p: nat): (nat, Half)
    requires seqLen / 2 > 0 && p < seqLen * cp && seqLen % 2 == 0
  {
    var c := p / (seqLen / 2);
    HalfChunks(seqLen, cp);
    BlockOf(p, 2 * cp, seqLen / 2);
    if c < cp then (c, Short) else (2 * cp - 1 - c, Long)
  }

  /** The ranks' slices partition the rows: each row lies in its holder's slice and in no other. */
  lemma SlicesPartition(seqLen: nat, cp: nat, rank: nat, half: Half, p: nat)
    requires seqLen / 2 > 0 && seqLen % 2 == 0 && rank < cp && p < seqLen * cp
    ensures Holder(seqLen, cp, p).0 < cp
    ensures InSlice(seqLen, cp, rank, half, p) <==> (rank, half) == Holder(seqLen, cp, p)
  {
    SliceIsChunk(seqLen, cp, rank, half);
    InChunk(if half == Short then rank else 2 * cp - 1 - rank, seqLen / 2, p);
  }

  lemma InChunk(c: nat, chunk: nat, p: nat)
    requires chunk > 0
    ensures c * chunk <= p < c * chunk + chunk <==> p / chunk == c
  {
    Division(p, chunk);
    if c * chunk <= p < c * chunk + chunk {
      QuotientIs(p, c, p - c * chunk, chunk);
    } else if p / chunk == c {
      Successor(c, chunk);
    }
  }

  datatype Error = OddLength | NoRows | NoKeyReached

  function Slice(s: seq<int>, from: int, n: nat): (r: seq<int>)
    requires 0 <= from && from + n <= |s|
    ensures |r| == n
  {
    s[from..from + n]
  }

  function RankRows(s: seq<int>, seqLen: nat, cp: nat, rank: nat): (r: seq<int>)
    requires seqLen % 2 == 0 && rank < cp && |s| == seqLen * cp
    ensures |r| == seqLen
  {
    SliceIsChunk(seqLen, cp, rank, Short);
    SliceIsChunk(seqLen, cp, rank, Long);
    Slice(s, SliceFrom(seqLen, cp, rank, Short), seqLen / 2) + Slice(s, SliceFrom(seqLen, cp, rank, Long), seqLen / 2)
  }

  /** A rank's rows come in increasing row order: the slice from the front before the one from the back. */
  lemma RankRowsIncrease(s: seq<int>, seqLen: nat, cp: nat, rank: nat)
    requires seqLen % 2 == 0 && rank < cp && |s| == seqLen * cp
    requires forall i, j | 0 <= i < j < |s| :: s[i] < s[j]
    ensures forall i, j | 0 <= i < j < seqLen :: RankRows(s, seqLen, cp, rank)[i] < RankRows(s, seqLen, cp, rank)[j]
  {
    var chunk, a, b := seqLen / 2, SliceFrom(seqLen, cp, rank, Short), SliceFrom(seqLen, cp, rank, Long);
    SliceIsChunk(seqLen, cp, rank, Short);
    SliceIsChunk(seqLen, cp, rank, Long);
    ScaleMonotone(rank + 1, 2 * cp - 1 - rank, chunk);
    Successor(rank, chunk);
    var r := RankRows(s, seqLen, cp, rank);
    forall i | 0 <= i < seqLen
      ensures r[i] == s[if i < chunk then a + i else b + (i - chunk)]
    {
    }
  }

  /** A rank's share of the windows; refused when none of its rows reaches a key. */
  method RankWindows(ks: seq<int>, ke: seq<int>, seqLen: nat, cp: nat, rank: nat, seqLenKv: int)
    returns (r: Result<(seq<int>, seq<int>), Error>)
    requires rank < cp && |ks| == |ke| == seqLen * cp
    ensures r == Err(OddLength) <==> seqLen % 2 != 0
    ensures r == Err(NoRows) <==> seqLen == 0
    ensures r == Err(NoKeyReached) <==>
      seqLen > 0 && seqLen % 2 == 0 && forall i | 0 <= i < seqLen :: RankRows(ks, seqLen, cp, rank)[i] >= seqLenKv
    ensures r.Ok? ==> seqLen % 2 == 0
    ensures r.Ok? ==> r.value == (RankRows(ks, seqLen, cp, rank), RankRows(ke, seqLen, cp, rank))
  {
    hide RankRows;
    if seqLen % 2 != 0 {
      return Err(OddLength);
    }
    var starts, ends := RankRows(ks, seqLen, cp, rank), RankRows(ke, seqLen, cp, rank);
    if seqLen == 0 {
      return Err(NoRows);
    }
    var least := starts[0];
    for i := 1 to seqLen
      invariant forall j | 0 <= j < i :: least <= starts[j]
      invariant exists j :: 0 <= j < i && starts[j] == least
    {
      if starts[i] < least {
        least := starts[i];
      }
    }
    if least >= seqLenKv {
      return Err(NoKeyReached);
    }
    r := Ok((starts, ends));
  }

  // ----------------------------------------------------------------- equal work

  /** Keys visible to a list of rows, all added up. */
  function WindowTotal(ks: seq<int>, ke: seq<int>): int
    requires |ks| == |ke|
  {
    if ks == [] then 0
    else WindowTotal(ks[..|ks| - 1], ke[..|ke| - 1]) + (ke[|ke| - 1] - ks[|ks| - 1])
  }

  lemma {:induction false} WindowTotalConcat(a: seq<int>, a': seq<int>, b: seq<int>, b': seq<int>)
    requires |a| == |a'| && |b| == |b'|
    ensures WindowTotal(a + b, a' + b') == WindowTotal(a, a') + WindowTotal(b, b')
  {
    if b == [] {
      assert a + b == a && a' + b' == a';
    } else {
      WindowTotalConcat(a, a', b[..|b| - 1], b'[..|b'| - 1]);
      assert (a + b)[..|a + b| - 1] == a + b[..|b| - 1];
      assert (a' + b')[..|a' + b'| - 1] == a' + b'[..|b'| - 1];
    }
  }

  /** Consecutive causal rows form an arithmetic series. */
  lemma {:induction false} SliceTotal(ks: seq<int>, ke: seq<int>, from: nat, n: nat)
    requires from + n <= |ks| == |ke| && forall p | 0 <= p < |ks| :: ke[p] - ks[p] == p + 1
    ensures 2 * WindowTotal(Slice(ks, from, n), Slice(ke, from, n)) == n * (2 * from + n + 1)
  {
    if n > 0 {
      SliceTotal(ks, ke, from, n - 1);
      assert Slice(ks, from, n)[..n - 1] == Slice(ks, from, n - 1);
      assert Slice(ke, from, n)[..n - 1] == Slice(ke, from, n - 1);
      SeriesStep(from, n);
    }
  }

  lemma SeriesStep(from: nat, n: nat)
    requires n > 0
    ensures n * (2 * from + n + 1) == (n - 1) * (2 * from + n) + 2 * (from + n)
  {}

  lemma MirroredPair(a: int, chunk: int, total: int)
    ensures chunk * (2 * a + chunk + 1) + chunk * (2 * (total - a - chunk) + chunk + 1) == 2 * (chunk * (total + 1))
  {
    assert chunk * (2 * a + chunk + 1) + chunk * (2 * (total - a - chunk) + chunk + 1)
        == chunk * ((2 * a + chunk + 1) + (2 * (total - a - chunk) + chunk + 1));
  }

  lemma OneSequence(total: nat, ks: seq<int>, ke: seq<int>)
    requires WindowsRight([total], 1, ks, ke)
    ensures |ks| == |ke| == total && forall p | 0 <= p < total :: ke[p] - ks[p] == p + 1
  {
    assert Running([total], 1) == Running([total], 0) + total;
    forall p: nat | p < total
      ensures ke[p] - ks[p] == p + 1
    {
      assert Owns([total], 0, p);
    }
  }

  /** For one sequence at stride one, every rank gets the same total window length. */
  lemma {:induction false} RanksWorkEqually(seqLen: nat, cp: nat, rank: nat, ks: seq<int>, ke: seq<int>)
    requires seqLen % 2 == 0 && rank < cp && WindowsRight([seqLen * cp], 1, ks, ke)
    ensures |ks| == |ke| == seqLen * cp
    ensures WindowTotal(RankRows(ks, seqLen, cp, rank), RankRows(ke, seqLen, cp, rank))
         == seqLen / 2 * (seqLen * cp + 1)
  {
    hide WindowTotal, WindowsRight, Slice;
    var total, chunk := seqLen * cp, seqLen / 2;
    OneSequence(total, ks, ke);
    SliceIsChunk(seqLen, cp, rank, Short);
    SliceIsChunk(seqLen, cp, rank, Long);
    var a, b := SliceFrom(seqLen, cp, rank, Short), SliceFrom(seqLen, cp, rank, Long);
    assert b == total - a - chunk;
    SliceTotal(ks, ke, a, chunk);
    SliceTotal(ks, ke, b, chunk);
    MirroredPair(a, chunk, total);
    WindowTotalConcat(Slice(ks, a, chunk), Slice(ke, a, chunk), Slice(ks, b, chunk), Slice(ke, b, chunk));
  }
}
