/** Device busy time: the sweep over sorted kernel intervals measures the union of the intervals,
    each covering the nanoseconds from its start up to its end. */
module BusyTime {
  import Sorting
  import opened Collections

  datatype Interval = Interval(start: int, end: int)

  ghost predicate Ordered(s: seq<Interval>) {
    forall k | k in s :: k.start <= k.end
  }

  // ------------------------------------------------------- what is being measured

  function Instants(k: Interval): (r: set<int>)
    ensures forall t :: t in r <==> k.start <= t < k.end
    ensures k.start <= k.end ==> |r| == k.end - k.start
    decreases k.end - k.start
  {
    if k.end <= k.start then {}
    else
      var shorter := Instants(Interval(k.start, k.end - 1));
      assert k.end - 1 !in shorter;
      shorter + {k.end - 1}
  }

  /** The instants some interval covers. */
  function Cover(s: seq<Interval>): set<int> {
    if s == [] then {} else Cover(s[..|s| - 1]) + Instants(s[|s| - 1])
  }

  lemma {:induction false} CoverIff(s: seq<Interval>, t: int)
    ensures t in Cover(s) <==> exists k :: k in s && k.start <= t < k.end
  {
    if s != [] {
      CoverIff(s[..|s| - 1], t);
      assert s == s[..|s| - 1] + [s[|s| - 1]];
    }
  }

  lemma {:induction false} CoverSame(a: seq<Interval>, b: seq<Interval>)
    requires forall k :: k in a <==> k in b
    ensures Cover(a) == Cover(b)
  {
    forall t
      ensures t in Cover(a) <==> t in Cover(b)
    {
      CoverIff(a, t);
      CoverIff(b, t);
    }
  }

  /** Lexicographic order of (start, end). */
  predicate Before(a: Interval, b: Interval) {
    a.start < b.start || (a.start == b.start && a.end <= b.end)
  }

  // ------------------------------------------------------------------- sweep

  function ByStart(kernels: seq<Interval>): (r: seq<Interval>)
    ensures |r| == |kernels|
  {
    Sorting.Sort(Before, kernels)
  }

  lemma {:induction false} ByStartFacts(kernels: seq<Interval>)
    ensures Cover(ByStart(kernels)) == Cover(kernels)
    ensures forall k | k in ByStart(kernels) :: k in kernels
    ensures forall i, j | 0 <= i < j < |kernels| :: ByStart(kernels)[i].start <= ByStart(kernels)[j].start
  {
    Sorting.SortSorts(Before, kernels);
    Sorting.SameElements(ByStart(kernels), kernels);
    CoverSame(ByStart(kernels), kernels);
    forall i, j | 0 <= i < j < |kernels|
      ensures ByStart(kernels)[i].start <= ByStart(kernels)[j].start
    {
      assert Before(ByStart(kernels)[i], ByStart(kernels)[j]);
    }
  }

  lemma {:induction false} CoverStep(s: seq<Interval>, i: nat)
    requires i < |s|
    ensures Cover(s[..i + 1]) == Cover(s[..i]) + Instants(s[i])
  {
    assert s[..i + 1][..i] == s[..i];
  }

  /** A later start past the current end closes the current stretch. */
  lemma {:induction false} CloseStretch(done: set<int>, current: Interval, next: Interval)
    requires current.start <= current.end < next.start && forall t | t in done :: t < current.start
    ensures |done + Instants(current)| == |done| + current.end - current.start
    ensures forall t | t in done + Instants(current) :: t < next.start
  {
    assert done * Instants(current) == {};
  }

  /** A start within the current stretch extends it. */
  lemma {:induction false} ExtendStretch(current: Interval, next: Interval)
    requires current.start <= next.start <= current.end
    ensures Instants(Interval(current.start, if current.end >= next.end then current.end else next.end))
         == Instants(current) + Instants(next)
  {}

  /** Nanoseconds the kernels keep the device busy, overlaps counted once: the size of the union
      of their intervals, whatever the order of the records. */
  method BusyNs(kernels: seq<Interval>) returns (busy: int)
    requires Ordered(kernels)
    ensures busy == |Cover(kernels)|
  {
    hide Cover, Instants, ByStart;
    if kernels == [] {
      CoverSame([], kernels);
      EmptyCover();
      return 0;
    }
    var intervals := ByStart(kernels);
    ByStartFacts(kernels);
    var total := 0;
    var current := intervals[0];
    ghost var done: set<int> := {};
    EmptyCover();
    CoverStep(intervals, 0);
    for i := 1 to |intervals|
      invariant current.start <= current.end
      invariant forall j | i <= j < |intervals| :: current.start <= intervals[j].start
      invariant Cover(intervals[..i]) == done + Instants(current)
      invariant |done| == total && forall t | t in done :: t < current.start
    {
      var next := intervals[i];
      CoverStep(intervals, i);
      assert next in kernels;
      if next.start > current.end {
        CloseStretch(done, current, next);
        total := total + (current.end - current.start);
        done := done + Instants(current);
        current := next;
      } else {
        ExtendStretch(current, next);
        current := Interval(current.start, if current.end >= next.end then current.end else next.end);
      }
    }
    assert intervals[..|intervals|] == intervals;
    CloseStretch(done, current, Interval(current.end + 1, current.end + 1));
    busy := total + current.end - current.start;
  }

  lemma {:induction false} EmptyCover()
    ensures Cover([]) == {}
  {}

  /** Microseconds, as the timing layer reports them. */
  method BusyUs(kernels: seq<Interval>) returns (busy: real)
    requires Ordered(kernels)
    ensures busy == |Cover(kernels)| as real / 1000.0
  {
    var ns := BusyNs(kernels);
    busy := ns as real / 1000.0;
  }

  // -------------------------------------------------------------------- span

  function MinStart(s: seq<Interval>): (m: int)
    requires s != []
    ensures forall k | k in s :: m <= k.start
    ensures exists k :: k in s && m == k.start
  {
    var last := s[|s| - 1];
    assert s == s[..|s| - 1] + [last];
    if |s| == 1 then last.start
    else
      var m := MinStart(s[..|s| - 1]);
      if last.start < m then last.start else m
  }

  function MaxEnd(s: seq<Interval>): (m: int)
    requires s != []
    ensures forall k | k in s :: k.end <= m
    ensures exists k :: k in s && m == k.end
  {
    var last := s[|s| - 1];
    assert s == s[..|s| - 1] + [last];
    if |s| == 1 then last.end
    else
      var m := MaxEnd(s[..|s| - 1]);
      if last.end > m then last.end else m
  }

  /** Earliest start to latest end. */
  function SpanNs(s: seq<Interval>): int {
    if s == [] then 0 else MaxEnd(s) - MinStart(s)
  }

  ghost predicate Within(s: seq<Interval>, a: int, b: int) {
    forall k | k in s :: a <= k.start && k.end <= b
  }

  /** The span is the length of the shortest interval that holds every kernel; nothing spans nothing. */
  lemma {:induction false} SpanIsShortest(s: seq<Interval>)
    ensures s == [] ==> SpanNs(s) == 0
    ensures s != [] ==> exists a, b :: Within(s, a, b) && SpanNs(s) == b - a
    ensures s != [] ==> forall a, b | Within(s, a, b) :: SpanNs(s) <= b - a
  {
    if s != [] {
      assert Within(s, MinStart(s), MaxEnd(s));
    }
  }

  function SpanUs(s: seq<Interval>): real { SpanNs(s) as real / 1000.0 }

  function TotalNs(s: seq<Interval>): int {
    if s == [] then 0 else TotalNs(s[..|s| - 1]) + (s[|s| - 1].end - s[|s| - 1].start)
  }

  // -------------------------------------------------------- what follows for busy

  /** Record order does not matter. */
  lemma {:induction false} BusyOrderIrrelevant(a: seq<Interval>, b: seq<Interval>)
    requires multiset(a) == multiset(b)
    ensures |Cover(a)| == |Cover(b)|
  {
    Sorting.SameElements(a, b);
    CoverSame(a, b);
  }

  /** Busy time never exceeds the span. */
  lemma {:induction false} BusyWithinSpan(s: seq<Interval>)
    requires Ordered(s)
    ensures |Cover(s)| <= SpanNs(s)
  {
    if s != [] {
      var all := Interval(MinStart(s), MaxEnd(s));
      forall t | t in Cover(s)
        ensures t in Instants(all)
      {
        CoverIff(s, t);
      }
      assert s[0] in s;
      SubsetSize(Cover(s), Instants(all));
    }
  }

  lemma UnionSize(a: set<int>, b: set<int>)
    ensures |a + b| <= |a| + |b|
  {
    assert a + b == a + (b - a);
    SubsetSize(b - a, b);
  }

  /** Busy time never exceeds the sum of the durations. */
  lemma {:induction false} BusyWithinTotal(s: seq<Interval>)
    requires Ordered(s)
    ensures |Cover(s)| <= TotalNs(s)
  {
    if s != [] {
      var last := s[|s| - 1];
      assert last in s;
      BusyWithinTotal(s[..|s| - 1]);
      UnionSize(Cover(s[..|s| - 1]), Instants(last));
    }
  }

  /** Kernels that do not overlap are busy for exactly the sum of their durations. */
  lemma {:induction false} BusyIsTotal(s: seq<Interval>)
    requires Ordered(s) && forall i, j | 0 <= i < j < |s| :: Instants(s[i]) !! Instants(s[j])
    ensures |Cover(s)| == TotalNs(s)
  {
    if s != [] {
      var m := |s| - 1;
      BusyIsTotal(s[..m]);
      assert s[m] in s;
      CoverApart(s[..m], s[m]);
    }
  }

  lemma {:induction false} CoverApart(s: seq<Interval>, k: Interval)
    requires forall i | 0 <= i < |s| :: Instants(s[i]) !! Instants(k)
    ensures Cover(s) !! Instants(k)
  {
    if s != [] {
      CoverApart(s[..|s| - 1], k);
    }
  }

  /** Kernels and copies together are busy at least as long as either and at most their sum. */
  lemma {:induction false} BusyOfBoth(a: seq<Interval>, b: seq<Interval>)
    ensures |Cover(a)| <= |Cover(a + b)| && |Cover(b)| <= |Cover(a + b)|
    ensures |Cover(a + b)| <= |Cover(a)| + |Cover(b)|
  {
    forall t
      ensures t in Cover(a + b) <==> t in Cover(a) || t in Cover(b)
    {
      CoverIff(a, t);
      CoverIff(b, t);
      CoverIff(a + b, t);
    }
    assert Cover(a + b) == Cover(a) + Cover(b);
    SubsetSize(Cover(a), Cover(a + b));
    SubsetSize(Cover(b), Cover(a + b));
    UnionSize(Cover(a), Cover(b));
  }
}
