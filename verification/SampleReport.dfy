/** What a report publishes for a run: medians, the gap between them and the spread. */
module SampleReport {
  import opened Wrappers
  import opened Blocks
  import Sorting

  /** One iteration's reading. The kernel count is absent when the timer cannot see kernels. */
  datatype Sample = Sample(deviceBusyMs: real, latencyMs: real, nKernels: Option<nat>, uncountedCopyMs: real)

  predicate AtMost(a: real, b: real) { a <= b }

  function Ordered(s: seq<real>): (r: seq<real>)
    ensures |r| == |s|
  {
    Sorting.Sort(AtMost, s)
  }

  /** The middle value of an odd count, the mean of the two middle values of an even one. */
  function Median(s: seq<real>): real
    requires s != []
  {
    var o := Ordered(s);
    if |s| % 2 == 1 then o[|s| / 2] else (o[|s| / 2 - 1] + o[|s| / 2]) / 2.0
  }

  function Negated(s: seq<real>): (r: seq<real>)
    ensures |r| == |s|
  {
    seq(|s|, i requires 0 <= i < |s| => -s[i])
  }

  function Reversed(s: seq<real>): (r: seq<real>)
    ensures |r| == |s|
  {
    seq(|s|, i requires 0 <= i < |s| => s[|s| - 1 - i])
  }

  lemma {:induction false} NegatedElements(a: seq<real>, x: real)
    ensures multiset(Negated(a))[x] == multiset(a)[-x]
  {
    if a != [] {
      var m := |a| - 1;
      NegatedElements(a[..m], x);
      assert Negated(a) == Negated(a[..m]) + [-a[m]] && a == a[..m] + [a[m]];
    }
  }

  lemma {:induction false} ReversedElements(a: seq<real>)
    ensures multiset(Reversed(a)) == multiset(a)
  {
    if a != [] {
      var m := |a| - 1;
      ReversedElements(a[..m]);
      assert Reversed(a) == [a[m]] + Reversed(a[..m]) && a == a[..m] + [a[m]];
    }
  }

  /** Negating the samples reverses their order and negates them. */
  lemma OrderedNegated(s: seq<real>)
    ensures Ordered(Negated(s)) == Reversed(Negated(Ordered(s)))
  {
    hide Ordered;
    var a, b := Ordered(Negated(s)), Reversed(Negated(Ordered(s)));
    OrderedIs(s);
    OrderedIs(Negated(s));
    ReversedElements(Negated(Ordered(s)));
    forall x
      ensures multiset(a)[x] == multiset(b)[x]
    {
      NegatedElements(s, x);
      NegatedElements(Ordered(s), x);
    }
    forall i, j | 0 <= i < j < |b|
      ensures AtMost(b[i], b[j])
    {
      assert AtMost(Ordered(s)[|s| - 1 - j], Ordered(s)[|s| - 1 - i]);
    }
    AtMostIsTotal();
    Sorting.SortedUnique(AtMost, a, b);
  }

  lemma OrderedIs(s: seq<real>)
    ensures multiset(Ordered(s)) == multiset(s) && Sorting.Sorted(AtMost, Ordered(s))
  {
    AtMostIsTotal();
    Sorting.SortSorts(AtMost, s);
  }

  /** The median does not prefer either side: it is the middle of the negated samples, negated. */
  lemma MedianNegated(s: seq<real>)
    requires s != []
    ensures Median(Negated(s)) == -Median(s)
  {
    hide Ordered;
    OrderedNegated(s);
  }

  /** num / den rounded to the nearest integer, ties to even. */
  function RoundHalfEven(num: nat, den: nat): nat
    requires den > 0
  {
    var q, r := num / den, num % den;
    if 2 * r < den then q else if 2 * r > den then q + 1 else if q % 2 == 0 then q else q + 1
  }

  function LowRank(last: nat): nat { RoundHalfEven(last, 10) }

  function HighRank(last: nat): nat { RoundHalfEven(9 * last, 10) }

  /** Rounding gives a nearest integer, and of two equally near ones the even one. */
  lemma RoundsToNearest(num: nat, den: nat)
    requires den > 0
    ensures var n := RoundHalfEven(num, den);
            && 2 * (n * den - num) <= den && 2 * (num - n * den) <= den
            && (2 * (n * den - num) == den || 2 * (num - n * den) == den ==> n % 2 == 0)
  {
    Division(num, den);
    Successor(num / den, den);
  }

  /** The ranks are the tenth and nine tenths of the last index, to the nearest whole rank. */
  lemma RanksAreTenths(last: nat)
    ensures -5 <= 10 * LowRank(last) - last <= 5 && -5 <= 10 * HighRank(last) - 9 * last <= 5
  {}

  lemma RanksBracketMiddle(last: nat)
    requires last >= 1
    ensures LowRank(last) <= last / 2 && (last + 1) / 2 <= HighRank(last) <= last
  {}

  /** 10th and 90th percentile at the nearest ranks; None for fewer than two samples. */
  function SampleSpread(samples: seq<real>): (r: Option<(real, real)>)
    ensures r.Some? <==> |samples| >= 2
  {
    if |samples| < 2 then None
    else
      var ordered := Ordered(samples);
      var last := |ordered| - 1;
      RanksBracketMiddle(last);
      Some((ordered[LowRank(last)], ordered[HighRank(last)]))
  }

  lemma AtMostIsTotal()
    ensures Sorting.TotalOrder(AtMost) && Sorting.Antisymmetric(AtMost)
  {}

  /** The spread brackets the median. */
  lemma SpreadBracketsMedian(samples: seq<real>)
    requires |samples| >= 2
    ensures SampleSpread(samples).value.0 <= Median(samples) <= SampleSpread(samples).value.1
  {
    AtMostIsTotal();
    Sorting.SortSorts(AtMost, samples);
    var o, last := Ordered(samples), |samples| - 1;
    RanksBracketMiddle(last);
    forall i, j | 0 <= i <= j <= last
      ensures o[i] <= o[j]
    {
      assert i < j ==> AtMost(o[i], o[j]);
    }
    assert |samples| % 2 == 1 ==> |samples| / 2 == last / 2 == (last + 1) / 2;
    assert |samples| % 2 == 0 ==> |samples| / 2 - 1 == last / 2 && |samples| / 2 == (last + 1) / 2;
  }

  /** A bound that holds sample by sample holds between the medians, odd or even, although the two
      medians may come from different samples. */
  lemma MedianMonotone(a: seq<real>, b: seq<real>)
    requires a != [] && Sorting.Below(AtMost, a, b)
    ensures Median(a) <= Median(b)
  {
    AtMostIsTotal();
    Sorting.SortBelow(AtMost, a, b);
    var oa, ob, m := Ordered(a), Ordered(b), |a| / 2;
    assert AtMost(oa[m], ob[m]);
    if |a| % 2 == 0 {
      assert AtMost(oa[m - 1], ob[m - 1]);
    }
  }

  // ------------------------------------------------------------- the report row

  function Busy(samples: seq<Sample>): (r: seq<real>)
    ensures |r| == |samples|
  {
    seq(|samples|, i requires 0 <= i < |samples| => samples[i].deviceBusyMs)
  }

  function Latency(samples: seq<Sample>): (r: seq<real>)
    ensures |r| == |samples|
  {
    seq(|samples|, i requires 0 <= i < |samples| => samples[i].latencyMs)
  }

  function Copies(samples: seq<Sample>): (r: seq<real>)
    ensures |r| == |samples|
  {
    seq(|samples|, i requires 0 <= i < |samples| => samples[i].uncountedCopyMs)
  }

  /** A report's busy figure looks at busy times alone, its latency figure at latencies alone, and its copy figure at
      copy times alone. */
  lemma FiguresApart(samples: seq<Sample>, i: nat)
    requires i < |samples|
    ensures Busy(samples)[i] == samples[i].deviceBusyMs && Latency(samples)[i] == samples[i].latencyMs
    ensures Copies(samples)[i] == samples[i].uncountedCopyMs
  {}

  predicate AllCounted(samples: seq<Sample>) {
    forall i | 0 <= i < |samples| :: samples[i].nKernels.Some?
  }

  /** The largest count observed. */
  function MaxKernels(samples: seq<Sample>): (m: nat)
    requires samples != [] && AllCounted(samples)
    ensures forall i | 0 <= i < |samples| :: samples[i].nKernels.value <= m
    ensures exists i :: 0 <= i < |samples| && samples[i].nKernels.value == m
  {
    var last := samples[|samples| - 1].nKernels.value;
    if |samples| == 1 then last
    else
      var m := MaxKernels(samples[..|samples| - 1]);
      assert forall i | 0 <= i < |samples| - 1 :: samples[..|samples| - 1][i] == samples[i];
      if last > m then last else m
  }

  datatype Refusal = NoSamples | NonPositiveBusy

  datatype Key =
    | DeviceBusyMs | LatencyMs | GapMs | NSamples | UncountedCopyMs | NKernels | DeviceBusyP10Ms | DeviceBusyP90Ms
    | Flops | Tflops | Bytes | BandwidthTbs | ComputeRoof
    | Note(name: string)

  datatype Cell = Number(n: real) | Text(s: string)

  type Row = map<Key, Cell>

  predicate IsNote(k: Key) { k.Note? }

  predicate IsMeasured(k: Key) {
    !k.Flops? && !k.Tflops? && !k.Bytes? && !k.BandwidthTbs? && !k.ComputeRoof? && !k.Note?
  }

  /** The measured part of a row, key by key. */
  method MeasuredRow(samples: seq<Sample>, busy: real) returns (row: Row)
    requires samples != [] && busy == Median(Busy(samples))
    ensures RowIs(row, samples)
  {
    hide Median, SampleSpread, MaxKernels, AllCounted, Busy, Latency, Copies;
    var latency := Median(Latency(samples));
    row := map[DeviceBusyMs := Number(busy), LatencyMs := Number(latency), GapMs := Number(latency - busy),
               NSamples := Number(|samples| as real)];
    var copyMs := Median(Copies(samples));
    if copyMs > 0.0 {
      row := row[UncountedCopyMs := Number(copyMs)];
    }
    if AllCounted(samples) {
      row := row[NKernels := Number(MaxKernels(samples) as real)];
    }
    var spread := SampleSpread(Busy(samples));
    if spread.Some? {
      row := row[DeviceBusyP10Ms := Number(spread.value.0)][DeviceBusyP90Ms := Number(spread.value.1)];
    }
  }

  /** Which keys the measured part carries and what they hold. */
  ghost predicate RowIs(row: Row, samples: seq<Sample>)
    requires samples != []
  {
    && {DeviceBusyMs, LatencyMs, GapMs, NSamples} <= row.Keys
    && (forall k | k in row :: IsMeasured(k) && row[k].Number?)
    && row[DeviceBusyMs].n == Median(Busy(samples))
    && row[LatencyMs].n == Median(Latency(samples))
    && row[GapMs].n == row[LatencyMs].n - row[DeviceBusyMs].n
    && row[NSamples].n == |samples| as real
    && (UncountedCopyMs in row <==> Median(Copies(samples)) > 0.0)
    && (UncountedCopyMs in row ==> row[UncountedCopyMs].n == Median(Copies(samples)))
    && (NKernels in row <==> AllCounted(samples))
    && (NKernels in row ==> row[NKernels].n == MaxKernels(samples) as real)
    && (DeviceBusyP10Ms in row <==> |samples| >= 2) && (DeviceBusyP90Ms in row <==> |samples| >= 2)
    && (|samples| >= 2 ==> SampleSpread(Busy(samples)) == Some((row[DeviceBusyP10Ms].n, row[DeviceBusyP90Ms].n)))
  }

  /** What the case knows about its work. */
  datatype Roofline = Roofline(flops: Option<real>, bytes: Option<real>, roof: Option<string>)

  /** An amount of work and its rate while the device was executing: the denominator is busy time, so gaps do
      not dilute it. */
  function RateCells(total: Key, rate: Key, work: Option<real>, busy: real): Row
    requires busy > 0.0
  {
    if work.Some? then map[total := Number(work.value), rate := Number(work.value / busy * 0.000000001)] else map[]
  }

  function RoofCells(roof: Option<string>): Row {
    if roof.Some? then map[ComputeRoof := Text(roof.value)] else map[]
  }

  /** The measured part, how it was measured, and throughput, later keys replacing earlier ones. */
  function PublishedRow(timed: Row, notes: Row, roofline: Roofline, busy: real): Row
    requires busy > 0.0
  {
    timed + notes + RateCells(Flops, Tflops, roofline.flops, busy) + RateCells(Bytes, BandwidthTbs, roofline.bytes, busy)
    + RoofCells(roofline.roof)
  }

  ghost predicate Published(row: Row, timed: Row, samples: seq<Sample>, notes: Row, roofline: Roofline)
    requires samples != [] && Median(Busy(samples)) > 0.0
  {
    RowIs(timed, samples) && row == PublishedRow(timed, notes, roofline, Median(Busy(samples)))
  }

  method AddRate(row: Row, total: Key, rate: Key, work: Option<real>, busy: real) returns (r: Row)
    requires busy > 0.0 && total != rate
    ensures r == row + RateCells(total, rate, work, busy)
  {
    r := row;
    if work.Some? {
      r := r[total := Number(work.value)];
      r := r[rate := Number(work.value / busy * 0.000000001)];
    }
  }

  /** Builds a report row key by key. Refused without samples or with a non-positive median. */
  method BuildResult(samples: seq<Sample>, notes: Row, roofline: Roofline)
    returns (r: Result<Row, Refusal>, ghost timed: Row)
    ensures r == Err(NoSamples) <==> samples == []
    ensures samples != [] ==> (r == Err(NonPositiveBusy) <==> Median(Busy(samples)) <= 0.0)
    ensures r.Ok? ==> samples != [] && Median(Busy(samples)) > 0.0 && Published(r.value, timed, samples, notes, roofline)
  {
    hide Median, Busy, RowIs, RateCells;
    timed := map[];
    if samples == [] {
      return Err(NoSamples), timed;
    }
    var busy := Median(Busy(samples));
    if busy <= 0.0 {
      return Err(NonPositiveBusy), timed;
    }
    var row := MeasuredRow(samples, busy);
    timed := row;
    row := row + notes;
    row := AddRate(row, Flops, Tflops, roofline.flops, busy);
    row := AddRate(row, Bytes, BandwidthTbs, roofline.bytes, busy);
    if roofline.roof.Some? {
      row := row[ComputeRoof := Text(roofline.roof.value)];
    }
    r := Ok(row);
  }

  lemma MeasuredKept(timed: Row, notes: Row, roofline: Roofline, busy: real, k: Key)
    requires busy > 0.0 && k in timed && IsMeasured(k) && forall j | j in notes :: IsNote(j)
    ensures k in PublishedRow(timed, notes, roofline, busy) && PublishedRow(timed, notes, roofline, busy)[k] == timed[k]
  {}

  lemma RateKept(timed: Row, notes: Row, roofline: Roofline, busy: real)
    requires busy > 0.0 && roofline.flops.Some?
    ensures var row := PublishedRow(timed, notes, roofline, busy);
            Tflops in row && row[Tflops] == Number(roofline.flops.value / busy * 0.000000001)
  {}

  lemma MeasuredIsConsistent(timed: Row, samples: seq<Sample>)
    requires samples != [] && RowIs(timed, samples)
    requires forall i | 0 <= i < |samples| :: samples[i].deviceBusyMs <= samples[i].latencyMs
    ensures timed[GapMs].n >= 0.0
    ensures |samples| >= 2 ==> timed[DeviceBusyP10Ms].n <= timed[DeviceBusyMs].n <= timed[DeviceBusyP90Ms].n
  {
    hide Median, SampleSpread;
    assert Sorting.Below(AtMost, Busy(samples), Latency(samples));
    MedianMonotone(Busy(samples), Latency(samples));
    if |samples| >= 2 {
      SpreadBracketsMedian(Busy(samples));
    }
  }

  /** When no sample is busy longer than its latency and the notes name no measurement, the published gap is
      never negative, the published percentiles bracket the published median, and throughput times busy time
      gives back the work. */
  lemma PublishedRowIsConsistent(row: Row, timed: Row, samples: seq<Sample>, notes: Row, roofline: Roofline)
    requires samples != [] && Median(Busy(samples)) > 0.0 && Published(row, timed, samples, notes, roofline)
    requires forall i | 0 <= i < |samples| :: samples[i].deviceBusyMs <= samples[i].latencyMs
    requires forall k | k in notes :: IsNote(k)
    ensures {GapMs, DeviceBusyMs} <= row.Keys && row[GapMs].Number? && row[DeviceBusyMs].Number?
    ensures row[GapMs].n >= 0.0
    ensures |samples| >= 2 ==> {DeviceBusyP10Ms, DeviceBusyP90Ms} <= row.Keys
    ensures |samples| >= 2 ==> row[DeviceBusyP10Ms].Number? && row[DeviceBusyP90Ms].Number?
    ensures |samples| >= 2 ==> row[DeviceBusyP10Ms].n <= row[DeviceBusyMs].n <= row[DeviceBusyP90Ms].n
    ensures roofline.flops.Some? ==> Tflops in row && row[Tflops].Number?
    ensures roofline.flops.Some? ==> row[Tflops].n * row[DeviceBusyMs].n == roofline.flops.value * 0.000000001
  {
    hide Median, SampleSpread, PublishedRow, Busy, Latency, Copies, AllCounted, MaxKernels;
    var busy := Median(Busy(samples));
    MeasuredKept(timed, notes, roofline, busy, GapMs);
    MeasuredKept(timed, notes, roofline, busy, DeviceBusyMs);
    MeasuredIsConsistent(timed, samples);
    if |samples| >= 2 {
      MeasuredKept(timed, notes, roofline, busy, DeviceBusyP10Ms);
      MeasuredKept(timed, notes, roofline, busy, DeviceBusyP90Ms);
    }
    if roofline.flops.Some? {
      RateKept(timed, notes, roofline, busy);
      Throughput(roofline.flops.value, busy);
    }
  }

  lemma Throughput(work: real, busy: real)
    requires busy > 0.0
    ensures work / busy * 0.000000001 * busy == work * 0.000000001
  {
    assert work / busy * busy == work;
  }
}
