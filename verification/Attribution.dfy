/** Attributing kernels to iterations: the labelled-launch protocol, asynchronous delivery of its
    records, and the per-iteration samples built from them. */
module Attribution {
  import opened Wrappers
  import opened BusyTime
  import opened SampleReport

  /** Labels the work between iterations; out of range of any iteration index. */
  const PREPARE_ID: int := 0x1_0000_0000

  datatype Kernel = Kernel(span: Interval, correlationId: int, isCopy: bool)

  /** What the collector is handed: executed work, or which external id a launch ran under. */
  datatype Record =
    | Executed(kernel: Kernel)
    | ExternalCorrelation(correlationId: int, externalId: int)
    | LaunchApi

  type Labels = map<int, int>

  // ------------------------------------------------------------ reading records

  function KernelsOf(records: seq<Record>): seq<Kernel> {
    if records == [] then []
    else
      var init := KernelsOf(records[..|records| - 1]);
      match records[|records| - 1]
      case Executed(k) => init + [k]
      case _ => init
  }

  function LabelsOf(records: seq<Record>): Labels {
    if records == [] then map[]
    else
      var init := LabelsOf(records[..|records| - 1]);
      match records[|records| - 1]
      case ExternalCorrelation(c, e) => init[c := e]
      case _ => init
  }

  lemma {:induction false} ReadConcat(a: seq<Record>, b: seq<Record>)
    ensures KernelsOf(a + b) == KernelsOf(a) + KernelsOf(b)
    ensures LabelsOf(a + b) == LabelsOf(a) + LabelsOf(b)
  {
    if b == [] {
      assert a + b == a;
    } else {
      ReadConcat(a, b[..|b| - 1]);
      assert (a + b)[..|a + b| - 1] == a + b[..|b| - 1];
    }
  }

  // ---------------------------------------------------------- the timed callables

  datatype Work = Work(span: Interval, isCopy: bool)

  /** One launch of a callable: the work it puts on the device, and whether the calling thread
      issued it or handed it to another. */
  datatype Launch = Launch(onThread: bool, work: seq<Work>)

  datatype Iteration = Iteration(prepare: seq<Launch>, run: seq<Launch>)

  function WorkRecords(work: seq<Work>, id: int): seq<Record> {
    seq(|work|, i requires 0 <= i < |work| => Executed(Kernel(work[i].span, id, work[i].isCopy)))
  }

  /** The records of one launch with correlation id `id` under the given label: an off-thread
      launch has no external correlation, since the id stack belongs to the calling thread. */
  function LaunchRecords(l: Launch, id: int, labels: seq<int>): seq<Record> {
    [LaunchApi] + WorkRecords(l.work, id)
    + if l.onThread && labels != [] then [ExternalCorrelation(id, labels[|labels| - 1])] else []
  }

  /** The records of consecutive launches, the first with correlation id `id`. */
  function Emit(launches: seq<Launch>, id: int, labels: seq<int>): seq<Record> {
    if launches == [] then []
    else
      var n := |launches| - 1;
      Emit(launches[..n], id, labels) + LaunchRecords(launches[n], id + n, labels)
  }

  /** The first correlation id of iteration n. */
  function FirstId(script: seq<Iteration>, n: nat): int
    requires n <= |script|
  {
    if n == 0 then 0 else FirstId(script, n - 1) + |script[n - 1].prepare| + |script[n - 1].run|
  }

  /** All records of the first n labelled iterations. */
  function PhaseRecords(script: seq<Iteration>, n: nat): seq<Record>
    requires n <= |script|
  {
    if n == 0 then []
    else
      var it, id := script[n - 1], FirstId(script, n - 1);
      PhaseRecords(script, n - 1) + Emit(it.prepare, id, [PREPARE_ID]) + Emit(it.run, id + |it.prepare|, [n - 1])
  }

  lemma {:induction false} PhaseStep(script: seq<Iteration>, i: nat)
    ensures PhaseRecords(script, 0) == [] && FirstId(script, 0) == 0
    ensures i < |script| ==>
      var it, id := script[i], FirstId(script, i);
      && PhaseRecords(script, i + 1)
         == PhaseRecords(script, i) + Emit(it.prepare, id, [PREPARE_ID]) + Emit(it.run, id + |it.prepare|, [i])
      && FirstId(script, i + 1) == id + |it.prepare| + |it.run|
  {
    hide Emit;
  }

  // ---------------------------------------------------------------- the collector

  /** The collecting session: the calling thread's id stack, the records the device has produced
      and not yet handed back, and what has been handed back so far. */
  class Collector {
    var idStack: seq<int>
    var nextCorrelation: int
    var outstanding: seq<Record>
    var kernels: seq<Kernel>
    var iterationOf: Labels

    constructor ()
      ensures idStack == [] && nextCorrelation == 0 && outstanding == [] && kernels == [] && iterationOf == map[]
    {
      idStack, nextCorrelation, outstanding, kernels, iterationOf := [], 0, [], [], map[];
    }

    method Push(id: int)
      modifies this`idStack
      ensures idStack == old(idStack) + [id]
    {
      idStack := idStack + [id];
    }

    method Pop()
      requires idStack != []
      modifies this`idStack
      ensures idStack == old(idStack)[..|old(idStack)| - 1]
    {
      idStack := idStack[..|idStack| - 1];
    }

    /** Runs a callable under the current id stack. */
    method Run(launches: seq<Launch>)
      modifies this`nextCorrelation, this`outstanding
      ensures nextCorrelation == old(nextCorrelation) + |launches|
      ensures outstanding == old(outstanding) + Emit(launches, old(nextCorrelation), idStack)
    {
      for i := 0 to |launches|
        invariant nextCorrelation == old(nextCorrelation) + i
        invariant outstanding == old(outstanding) + Emit(launches[..i], old(nextCorrelation), idStack)
      {
        assert launches[..i + 1][..i] == launches[..i];
        outstanding := outstanding + LaunchRecords(launches[i], nextCorrelation, idStack);
        nextCorrelation := nextCorrelation + 1;
      }
      assert launches[..|launches|] == launches;
    }

    /** Takes a batch of records: kernels and copies are kept, correlations remembered. */
    method BufferCompleted(records: seq<Record>)
      modifies this`kernels, this`iterationOf
      ensures kernels == old(kernels) + KernelsOf(records)
      ensures iterationOf == old(iterationOf) + LabelsOf(records)
    {
      for i := 0 to |records|
        invariant kernels == old(kernels) + KernelsOf(records[..i])
        invariant iterationOf == old(iterationOf) + LabelsOf(records[..i])
      {
        assert records[..i + 1][..i] == records[..i];
        match records[i] {
          case Executed(k) => kernels := kernels + [k];
          case ExternalCorrelation(c, e) => iterationOf := iterationOf[c := e];
          case LaunchApi =>
        }
      }
      assert records[..|records|] == records;
    }

    /** Runs every iteration under its own label, each preceded by preparation under another. */
    method CollectRepeats(script: seq<Iteration>)
      requires idStack == [] && nextCorrelation == 0 && outstanding == []
      modifies this`idStack, this`nextCorrelation, this`outstanding
      ensures idStack == [] && outstanding == PhaseRecords(script, |script|)
    {
      hide Emit, PhaseRecords, FirstId;
      PhaseStep(script, 0);
      for i := 0 to |script|
        invariant idStack == [] && nextCorrelation == FirstId(script, i)
        invariant outstanding == PhaseRecords(script, i)
      {
        PhaseStep(script, i);
        Push(PREPARE_ID);
        Run(script[i].prepare);
        Pop();
        Push(i);
        Run(script[i].run);
        Pop();
      }
    }
  }

  // ------------------------------------------------------------------ attribution

  datatype Verdict = Preparation | Orphan | Claimed(iteration: int)

  /** Whose the work under a correlation id is, by the external id it was recorded under. */
  function OwnerOf(labels: Labels, n: nat, correlationId: int): Verdict {
    if correlationId !in labels then Orphan
    else if labels[correlationId] == PREPARE_ID then Preparation
    else if 0 <= labels[correlationId] < n then Claimed(labels[correlationId])
    else Orphan
  }

  function Classify(labels: Labels, n: nat, k: Kernel): Verdict { OwnerOf(labels, n, k.correlationId) }

  function Select(kernels: seq<Kernel>, labels: Labels, n: nat, v: Verdict): seq<Kernel> {
    if kernels == [] then []
    else
      var last := kernels[|kernels| - 1];
      Select(kernels[..|kernels| - 1], labels, n, v) + if Classify(labels, n, last) == v then [last] else []
  }

  /** The kernels that are copies, or those that are not. */
  function Copying(kernels: seq<Kernel>, copies: bool): (r: seq<Kernel>)
    ensures forall k | k in r :: k in kernels
  {
    if kernels == [] then []
    else
      var last := kernels[|kernels| - 1];
      Copying(kernels[..|kernels| - 1], copies) + if last.isCopy == copies then [last] else []
  }

  /** What a sample of these claimed kernels times. */
  function Timed(claimed: seq<Kernel>, countCopies: bool): seq<Kernel> {
    if countCopies then claimed else Copying(claimed, false)
  }

  function Uncounted(claimed: seq<Kernel>, countCopies: bool): seq<Kernel> {
    if countCopies then [] else Copying(claimed, true)
  }

  function Spans(kernels: seq<Kernel>): (r: seq<Interval>)
    ensures |r| == |kernels|
  {
    seq(|kernels|, i requires 0 <= i < |kernels| => kernels[i].span)
  }

  ghost predicate Executable(kernels: seq<Kernel>) {
    forall k | k in kernels :: k.span.start <= k.span.end
  }

  function BusyMs(kernels: seq<Kernel>): real { |Cover(Spans(kernels))| as real / 1000.0 * 0.001 }

  /** The reading of one iteration's claimed kernels. */
  function SampleOf(claimed: seq<Kernel>, countCopies: bool): Sample {
    var timed := Timed(claimed, countCopies);
    Sample(BusyMs(timed), SpanUs(Spans(timed)) * 0.001, Some(|timed|), BusyMs(Uncounted(claimed, countCopies)))
  }

  datatype Failure = RecordsLost | Unproven | OffThreadLaunch | NothingLaunched

  /** Kernels belong to nobody, or an iteration has none of its own to time. */
  ghost predicate Short(kernels: seq<Kernel>, labels: Labels, n: nat, countCopies: bool) {
    || Select(kernels, labels, n, Orphan) != []
    || exists i :: 0 <= i < n && Timed(Select(kernels, labels, n, Claimed(i)), countCopies) == []
  }

  /** Why a short phase failed; the dropped count is consulted only here. */
  function FailureOf(orphans: seq<Kernel>, dropped: Option<nat>): Failure {
    if dropped.Some? && dropped.value > 0 then RecordsLost
    else if dropped.None? then Unproven
    else if orphans != [] then OffThreadLaunch
    else NothingLaunched
  }

  method BusyMsOf(kernels: seq<Kernel>) returns (busy: real)
    requires Executable(kernels)
    ensures busy == BusyMs(kernels)
  {
    var us := BusyUs(Spans(kernels));
    busy := us * 0.001;
  }

  lemma {:induction false} SelectStep(kernels: seq<Kernel>, labels: Labels, n: nat, v: Verdict, k: nat)
    requires k < |kernels|
    ensures Select(kernels[..k + 1], labels, n, v)
         == Select(kernels[..k], labels, n, v) + if Classify(labels, n, kernels[k]) == v then [kernels[k]] else []
  {
    assert kernels[..k + 1][..k] == kernels[..k];
  }

  lemma {:induction false} SelectMembers(kernels: seq<Kernel>, labels: Labels, n: nat, v: Verdict)
    ensures forall k | k in Select(kernels, labels, n, v) :: k in kernels
  {
    if kernels != [] {
      SelectMembers(kernels[..|kernels| - 1], labels, n, v);
    }
  }

  /** Sorts kernels by owner: the orphans, and per iteration the kernels it claims, in record order. */
  method ClaimKernels(kernels: seq<Kernel>, labels: Labels, n: nat)
    returns (claimed: map<int, seq<Kernel>>, orphans: seq<Kernel>)
    ensures orphans == Select(kernels, labels, n, Orphan)
    ensures forall i :: i in claimed <==> 0 <= i < n && Select(kernels, labels, n, Claimed(i)) != []
    ensures forall i | i in claimed :: claimed[i] == Select(kernels, labels, n, Claimed(i))
  {
    hide Select;
    claimed, orphans := map[], [];
    SelectNothing(labels, n);
    for j := 0 to |kernels|
      invariant orphans == Select(kernels[..j], labels, n, Orphan)
      invariant forall i :: i in claimed <==> 0 <= i < n && Select(kernels[..j], labels, n, Claimed(i)) != []
      invariant forall i | i in claimed :: claimed[i] == Select(kernels[..j], labels, n, Claimed(i))
    {
      var kernel := kernels[j];
      forall v
        ensures Select(kernels[..j + 1], labels, n, v)
             == Select(kernels[..j], labels, n, v) + if Classify(labels, n, kernel) == v then [kernel] else []
      {
        SelectStep(kernels, labels, n, v, j);
      }
      if kernel.correlationId !in labels {
        orphans := orphans + [kernel];
      } else {
        var iteration := labels[kernel.correlationId];
        if iteration == PREPARE_ID {
        } else if !(0 <= iteration < n) {
          orphans := orphans + [kernel];
        } else {
          claimed := claimed[iteration := (if iteration in claimed then claimed[iteration] else []) + [kernel]];
        }
      }
    }
    assert kernels[..|kernels|] == kernels;
  }

  lemma {:induction false} SelectNothing(labels: Labels, n: nat)
    ensures forall v :: Select([], labels, n, v) == []
  {}

  function OwnKernels(kernels: seq<Kernel>, labels: Labels, n: nat, i: int): seq<Kernel> {
    Select(kernels, labels, n, Claimed(i))
  }

  /** Takes the copies out of every group that has some, and measures them; a group of copies only
      disappears. */
  method SetCopiesAside(n: nat, groups: map<int, seq<Kernel>>)
    returns (claimed: map<int, seq<Kernel>>, uncounted: map<int, real>)
    requires forall i | i in groups :: 0 <= i < n && groups[i] != [] && Executable(groups[i])
    ensures forall i :: i in claimed <==> i in groups && Copying(groups[i], false) != []
    ensures forall i | i in claimed :: claimed[i] == Copying(groups[i], false)
    ensures forall i | i in groups ::
      (if i in uncounted then uncounted[i] else 0.0) == BusyMs(Copying(groups[i], true))
  {
    hide Copying, BusyMs;
    CopyingNothing();
    NothingBusy();
    claimed, uncounted := groups, map[];
    for i := 0 to n
      invariant forall j :: j in claimed <==> j in groups && (j < i ==> Copying(groups[j], false) != [])
      invariant forall j | j in claimed :: claimed[j] == if j < i then Copying(groups[j], false) else groups[j]
      invariant forall j | j in uncounted :: 0 <= j < i
      invariant forall j | j in groups && j < i ::
        (if j in uncounted then uncounted[j] else 0.0) == BusyMs(Copying(groups[j], true))
    {
      if i in claimed {
        var group := claimed[i];
        var copies := Copying(group, true);
        if copies != [] {
          var ms := BusyMsOf(copies);
          uncounted := uncounted[i := ms];
          var kept := Copying(group, false);
          claimed := if kept != [] then claimed[i := kept] else claimed - {i};
        } else {
          NoCopiesKeepsAll(group);
        }
      }
    }
  }

  /** One sample per iteration, or why there is none. */
  method AttributedSamples(kernels: seq<Kernel>, labels: Labels, n: nat, dropped: Option<nat>, countCopies: bool)
    returns (r: Result<seq<Sample>, Failure>)
    requires Executable(kernels)
    ensures r.Err? <==> Short(kernels, labels, n, countCopies)
    ensures r.Err? ==> r.error == FailureOf(Select(kernels, labels, n, Orphan), dropped)
    ensures r.Err? ==> (r.error == RecordsLost <==> dropped.Some? && dropped.value != 0)
    ensures r.Err? ==> (r.error == Unproven <==> dropped.None?)
    ensures r.Err? ==> (r.error == OffThreadLaunch <==> dropped == Some(0) && Select(kernels, labels, n, Orphan) != [])
    ensures r.Ok? ==> |r.value| == n
    ensures r.Ok? ==> forall i | 0 <= i < n :: r.value[i] == SampleOf(OwnKernels(kernels, labels, n, i), countCopies)
  {
    hide Select, Copying, BusyMs, SpanNs, Executable;
    var claimed, orphans := ClaimKernels(kernels, labels, n);
    SelectExecutable(kernels, labels, n);
    var uncounted: map<int, real> := map[];
    CopyingNothing();
    NothingBusy();
    if !countCopies {
      claimed, uncounted := SetCopiesAside(n, claimed);
    }
    assert forall i :: i in claimed <==> 0 <= i < n && Timed(OwnKernels(kernels, labels, n, i), countCopies) != [];
    if orphans != [] || exists i :: 0 <= i < n && i !in claimed {
      return Err(FailureOf(orphans, dropped));
    }
    var samples := [];
    for i := 0 to n
      invariant |samples| == i
      invariant forall j | 0 <= j < i :: samples[j] == SampleOf(OwnKernels(kernels, labels, n, j), countCopies)
    {
      TimedExecutable(kernels, labels, n, i, countCopies);
      var busy := BusyMsOf(claimed[i]);
      var latency := SpanUs(Spans(claimed[i])) * 0.001;
      samples := samples + [Sample(busy, latency, Some(|claimed[i]|), if i in uncounted then uncounted[i] else 0.0)];
    }
    r := Ok(samples);
  }

  lemma {:induction false} SelectExecutable(kernels: seq<Kernel>, labels: Labels, n: nat)
    requires Executable(kernels)
    ensures forall v :: Executable(Select(kernels, labels, n, v))
  {
    forall v
      ensures Executable(Select(kernels, labels, n, v))
    {
      SelectMembers(kernels, labels, n, v);
    }
  }

  lemma TimedExecutable(kernels: seq<Kernel>, labels: Labels, n: nat, i: int, countCopies: bool)
    requires Executable(kernels)
    ensures Executable(Timed(OwnKernels(kernels, labels, n, i), countCopies))
  {
    SelectMembers(kernels, labels, n, Claimed(i));
  }

  lemma {:induction false} CopyingNothing()
    ensures Copying([], true) == Copying([], false) == []
  {}

  lemma NothingBusy()
    ensures BusyMs([]) == 0.0
  {}

  lemma {:induction false} NoCopiesKeepsAll(kernels: seq<Kernel>)
    requires Copying(kernels, true) == []
    ensures Copying(kernels, false) == kernels
  {
    if kernels != [] {
      NoCopiesKeepsAll(kernels[..|kernels| - 1]);
      assert kernels == kernels[..|kernels| - 1] + [kernels[|kernels| - 1]];
    }
  }

  // ---------------------------------------------------------------------- retries

  const BUFFER_BYTES: nat := 256 * 1024
  const ATTRIBUTION_ATTEMPTS: nat := 3

  /** What one phase returns: kernels, labels, and how many records were discarded if that is known. */
  datatype Trace = Trace(kernels: seq<Kernel>, labels: Labels, dropped: Option<nat>)

  function BufferAt(attempt: nat): nat {
    if attempt == 0 then BUFFER_BYTES else 4 * BufferAt(attempt - 1)
  }

  /** 256 KB at first, then 1 MB and 4 MB. */
  lemma BufferSizes()
    ensures BufferAt(0) == 262144 && BufferAt(1) == 1048576 && BufferAt(2) == 4194304
  {}

  ghost predicate Lost(t: Trace, n: nat, countCopies: bool) {
    Short(t.kernels, t.labels, n, countCopies) && FailureOf(Select(t.kernels, t.labels, n, Orphan), t.dropped) == RecordsLost
  }

  /** Runs phases until one is not short for lost records, at most three, each with four times the
      buffer of the one before; the last one run decides. */
  method CollectAttributed(phase: nat -> Trace, n: nat, countCopies: bool)
    returns (r: Result<seq<Sample>, Failure>, runs: nat, retries: nat)
    requires forall b :: Executable(phase(b).kernels)
    ensures 1 <= runs <= 3
    ensures forall a: nat | a < runs - 1 :: Lost(phase(BufferAt(a)), n, countCopies)
    ensures runs < 3 ==> !Lost(phase(BufferAt(runs - 1)), n, countCopies)
    ensures retries == if Lost(phase(BufferAt(runs - 1)), n, countCopies) then runs else runs - 1
    ensures var t := phase(BufferAt(runs - 1));
            && (r.Err? <==> Short(t.kernels, t.labels, n, countCopies))
            && (r.Err? ==> r.error == FailureOf(Select(t.kernels, t.labels, n, Orphan), t.dropped))
            && (r.Ok? ==> |r.value| == n)
            && (r.Ok? ==> forall i | 0 <= i < n :: r.value[i] == SampleOf(OwnKernels(t.kernels, t.labels, n, i), countCopies))
  {
    hide Short, Select, SampleOf, Executable;
    var bufferBytes := BUFFER_BYTES;
    retries := 0;
    for attempt := 0 to ATTRIBUTION_ATTEMPTS
      invariant attempt < ATTRIBUTION_ATTEMPTS && bufferBytes == BufferAt(attempt) && retries == attempt
      invariant forall a: nat | a < attempt :: Lost(phase(BufferAt(a)), n, countCopies)
    {
      runs := attempt + 1;
      var t := phase(bufferBytes);
      r := AttributedSamples(t.kernels, t.labels, n, t.dropped, countCopies);
      if r.Ok? || r.error != RecordsLost {
        return;
      }
      retries := attempt + 1;
      if attempt == ATTRIBUTION_ATTEMPTS - 1 {
        return;
      }
      bufferBytes := bufferBytes * 4;
    }
    assert false;
  }
}
