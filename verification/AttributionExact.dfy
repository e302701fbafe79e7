/** Attribution is exact: whatever order the device hands its records back in, as long as none is
    lost, every sample reads exactly the work its own iteration put on the device. */
module AttributionExact {
  import opened Wrappers
  import opened BusyTime
  import opened SampleReport
  import opened Attribution
  import Sorting

  // -------------------------------------------------- whose work it is, by the script

  function WorkKernels(work: seq<Work>, id: int): (r: seq<Kernel>)
    ensures |r| == |work|
  {
    seq(|work|, i requires 0 <= i < |work| => Kernel(work[i].span, id, work[i].isCopy))
  }

  /** The work of those launches that were (or were not) issued by the calling thread. */
  function Issued(launches: seq<Launch>, id: int, onThread: bool): seq<Kernel> {
    if launches == [] then []
    else
      var n := |launches| - 1;
      Issued(launches[..n], id, onThread)
      + if launches[n].onThread == onThread then WorkKernels(launches[n].work, id + n) else []
  }

  /** What of a callable's work falls to verdict v, when its own work falls to `own`. */
  function Share(launches: seq<Launch>, id: int, own: Verdict, v: Verdict): seq<Kernel> {
    if v == own then Issued(launches, id, true)
    else if v == Orphan then Issued(launches, id, false)
    else []
  }

  /** The work of the first n iterations that is v's, in issue order. */
  function WorkOf(script: seq<Iteration>, n: nat, v: Verdict): seq<Kernel>
    requires n <= |script|
  {
    if n == 0 then []
    else
      var it, id := script[n - 1], FirstId(script, n - 1);
      WorkOf(script, n - 1, v) + Share(it.prepare, id, Preparation, v)
      + Share(it.run, id + |it.prepare|, Claimed(n - 1), v)
  }

  /** What iteration i's timed call issued itself. */
  function OwnWork(script: seq<Iteration>, i: nat): seq<Kernel>
    requires i < |script|
  {
    Issued(script[i].run, FirstId(script, i) + |script[i].prepare|, true)
  }

  lemma {:induction false} WorkOfIteration(script: seq<Iteration>, n: nat, i: nat)
    requires n <= |script|
    ensures WorkOf(script, n, Claimed(i)) == if i < n then OwnWork(script, i) else []
  {
    hide WorkOf, OwnWork;
    WorkOfStep(script, 0, i);
    if n > 0 {
      WorkOfIteration(script, n - 1, i);
      WorkOfStep(script, n - 1, i);
    }
  }

  lemma {:induction false} WorkOfStep(script: seq<Iteration>, n: nat, i: nat)
    requires n <= |script|
    ensures WorkOf(script, 0, Claimed(i)) == []
    ensures n < |script| ==>
      WorkOf(script, n + 1, Claimed(i)) == WorkOf(script, n, Claimed(i)) + if i == n then OwnWork(script, i) else []
  {}

  // ------------------------------------------------------------ who labelled what

  function LaunchLabel(launches: seq<Launch>, j: int, tag: int): Option<int> {
    if 0 <= j < |launches| && launches[j].onThread then Some(tag) else None
  }

  /** The label correlation id c was issued under. */
  function LabelAt(script: seq<Iteration>, n: nat, c: int): Option<int>
    requires n <= |script|
  {
    if n == 0 then None
    else
      var it, id := script[n - 1], FirstId(script, n - 1);
      if c < id then LabelAt(script, n - 1, c)
      else if c < id + |it.prepare| then LaunchLabel(it.prepare, c - id, PREPARE_ID)
      else LaunchLabel(it.run, c - id - |it.prepare|, n - 1)
  }

  lemma {:induction false} FirstIdMonotone(script: seq<Iteration>, m: nat, n: nat)
    requires m <= n <= |script|
    ensures 0 <= FirstId(script, m) <= FirstId(script, n)
  {
    if m < n {
      FirstIdMonotone(script, m, n - 1);
    } else if n > 0 {
      FirstIdMonotone(script, n - 1, n - 1);
    }
  }

  lemma {:induction false} LabelStable(script: seq<Iteration>, m: nat, n: nat, c: int)
    requires m <= n <= |script| && c < FirstId(script, m)
    ensures LabelAt(script, n, c) == LabelAt(script, m, c)
  {
    if m < n {
      FirstIdMonotone(script, m, n - 1);
      LabelStable(script, m, n - 1, c);
    }
  }

  lemma {:induction false} LabelInRange(script: seq<Iteration>, n: nat, c: int)
    requires n <= |script| && LabelAt(script, n, c).Some?
    ensures 0 <= c < FirstId(script, n)
  {
    if n > 0 {
      FirstIdMonotone(script, n - 1, n);
      if c < FirstId(script, n - 1) {
        LabelInRange(script, n - 1, c);
      }
    }
  }

  lemma LaunchCorrelation(l: Launch, id: int, tag: int, c: int, e: int)
    ensures ExternalCorrelation(c, e) in LaunchRecords(l, id, [tag]) <==> l.onThread && c == id && e == tag
  {
    assert l.onThread ==> LaunchRecords(l, id, [tag])[|LaunchRecords(l, id, [tag])| - 1]
                          == ExternalCorrelation(id, tag);
  }

  lemma {:induction false} EmitCorrelation(launches: seq<Launch>, id: int, tag: int, c: int, e: int)
    ensures ExternalCorrelation(c, e) in Emit(launches, id, [tag])
       <==> LaunchLabel(launches, c - id, tag) == Some(e)
  {
    hide LaunchRecords;
    if launches != [] {
      var n := |launches| - 1;
      EmitCorrelation(launches[..n], id, tag, c, e);
      LaunchCorrelation(launches[n], id + n, tag, c, e);
    }
  }

  lemma {:induction false} PhaseCorrelation(script: seq<Iteration>, n: nat, c: int, e: int)
    requires n <= |script|
    ensures ExternalCorrelation(c, e) in PhaseRecords(script, n) <==> LabelAt(script, n, c) == Some(e)
  {
    hide Emit;
    if n > 0 {
      var it, id := script[n - 1], FirstId(script, n - 1);
      PhaseCorrelation(script, n - 1, c, e);
      EmitCorrelation(it.prepare, id, PREPARE_ID, c, e);
      EmitCorrelation(it.run, id + |it.prepare|, n - 1, c, e);
      if LabelAt(script, n - 1, c) == Some(e) {
        LabelInRange(script, n - 1, c);
      }
    }
  }

  /** `labels` is the label map of the script, complete and with nothing else in it. */
  ghost predicate LabelsAre(labels: Labels, script: seq<Iteration>) {
    forall c :: LabelAt(script, |script|, c) == if c in labels then Some(labels[c]) else None
  }

  lemma {:induction false} LabelsRead(records: seq<Record>, c: int)
    ensures c in LabelsOf(records) ==> ExternalCorrelation(c, LabelsOf(records)[c]) in records
    ensures c !in LabelsOf(records) ==> forall e :: ExternalCorrelation(c, e) !in records
  {
    if records != [] {
      LabelsRead(records[..|records| - 1], c);
      assert records == records[..|records| - 1] + [records[|records| - 1]];
    }
  }

  /** However the records are delivered, each correlation id ends up with the label it was issued
      under: no launch is labelled twice, so a later record never overwrites an earlier one. */
  lemma {:induction false} DeliveredLabels(script: seq<Iteration>, records: seq<Record>)
    requires multiset(records) == multiset(PhaseRecords(script, |script|))
    ensures LabelsAre(LabelsOf(records), script)
  {
    hide PhaseRecords, LabelAt, LabelsOf;
    Sorting.SameElements(records, PhaseRecords(script, |script|));
    var labels := LabelsOf(records);
    forall c
      ensures LabelAt(script, |script|, c) == if c in labels then Some(labels[c]) else None
    {
      LabelsRead(records, c);
      var issued := LabelAt(script, |script|, c);
      if c in labels {
        PhaseCorrelation(script, |script|, c, labels[c]);
      } else if issued.Some? {
        PhaseCorrelation(script, |script|, c, issued.value);
      }
    }
  }

  // -------------------------------------------------------- selecting in issue order

  lemma {:induction false} SelectConcat(a: seq<Kernel>, b: seq<Kernel>, labels: Labels, n: nat, v: Verdict)
    ensures Select(a + b, labels, n, v) == Select(a, labels, n, v) + Select(b, labels, n, v)
  {
    hide Select, OwnerOf;
    SelectNothing(labels, n);
    if b == [] {
      assert a + b == a;
    } else {
      var m := |b| - 1;
      SelectConcat(a, b[..m], labels, n, v);
      SelectStep(a + b, labels, n, v, |a| + m);
      SelectStep(b, labels, n, v, m);
      assert (a + b)[..|a| + m] == a + b[..m] && (a + b)[..|a + b|] == a + b && b[..|b|] == b;
    }
  }

  lemma {:induction false} SelectWork(work: seq<Work>, id: int, labels: Labels, n: nat, own: Verdict, v: Verdict)
    requires OwnerOf(labels, n, id) == own
    ensures Select(WorkKernels(work, id), labels, n, v) == if v == own then WorkKernels(work, id) else []
  {
    var ks := WorkKernels(work, id);
    if work != [] {
      SelectWork(work[..|work| - 1], id, labels, n, own, v);
      assert ks[..|ks| - 1] == WorkKernels(work[..|work| - 1], id);
    }
  }

  lemma {:induction false} ExecutedKernels(work: seq<Work>, id: int)
    ensures KernelsOf(WorkRecords(work, id)) == WorkKernels(work, id)
  {
    if work != [] {
      ExecutedKernels(work[..|work| - 1], id);
      var r := WorkRecords(work, id);
      assert r[..|r| - 1] == WorkRecords(work[..|work| - 1], id);
    }
  }

  lemma {:induction false} OtherRecords(r: Record)
    requires !r.Executed?
    ensures KernelsOf([r]) == []
  {}

  lemma {:induction false} LaunchKernels(l: Launch, id: int, labels: seq<int>)
    ensures KernelsOf(LaunchRecords(l, id, labels)) == WorkKernels(l.work, id)
  {
    hide KernelsOf, WorkRecords;
    ReadConcat([LaunchApi], WorkRecords(l.work, id));
    ExecutedKernels(l.work, id);
    OtherRecords(LaunchApi);
    if l.onThread && labels != [] {
      var last := ExternalCorrelation(id, labels[|labels| - 1]);
      OtherRecords(last);
      ReadConcat([LaunchApi] + WorkRecords(l.work, id), [last]);
    } else {
      assert LaunchRecords(l, id, labels) == [LaunchApi] + WorkRecords(l.work, id);
    }
  }

  /** Every launch of a callable is classified as its thread says. */
  ghost predicate Settled(launches: seq<Launch>, id: int, labels: Labels, n: nat, own: Verdict) {
    own != Orphan
    && forall j | 0 <= j < |launches| :: OwnerOf(labels, n, id + j) == if launches[j].onThread then own else Orphan
  }

  lemma {:induction false} SelectEmitted(launches: seq<Launch>, id: int, stack: seq<int>, labels: Labels, n: nat,
                                         own: Verdict, v: Verdict)
    requires Settled(launches, id, labels, n, own)
    ensures Select(KernelsOf(Emit(launches, id, stack)), labels, n, v) == Share(launches, id, own, v)
  {
    hide Emit, KernelsOf, Select, Share;
    if launches == [] {
      NothingEmitted(id, stack, labels, n, own, v);
    } else {
      var m := |launches| - 1;
      SelectEmitted(launches[..m], id, stack, labels, n, own, v);
      SelectEmittedStep(launches, id, stack, labels, n, own, v);
    }
  }

  lemma {:induction false} NothingEmitted(id: int, stack: seq<int>, labels: Labels, n: nat, own: Verdict, v: Verdict)
    ensures Select(KernelsOf(Emit([], id, stack)), labels, n, v) == Share([], id, own, v)
  {}

  lemma {:induction false} SelectEmittedStep(launches: seq<Launch>, id: int, stack: seq<int>, labels: Labels, n: nat,
                                             own: Verdict, v: Verdict)
    requires launches != [] && Settled(launches, id, labels, n, own)
    requires Select(KernelsOf(Emit(launches[..|launches| - 1], id, stack)), labels, n, v)
          == Share(launches[..|launches| - 1], id, own, v)
    ensures Select(KernelsOf(Emit(launches, id, stack)), labels, n, v) == Share(launches, id, own, v)
  {
    hide LaunchRecords, OwnerOf, WorkKernels, KernelsOf, Select;
    var m := |launches| - 1;
    SelectLaunch(launches[m], id + m, stack, labels, n, if launches[m].onThread then own else Orphan, v);
    var a, b := Emit(launches[..m], id, stack), LaunchRecords(launches[m], id + m, stack);
    ReadConcat(a, b);
    SelectConcat(KernelsOf(a), KernelsOf(b), labels, n, v);
  }

  lemma {:induction false} SelectLaunch(l: Launch, id: int, stack: seq<int>, labels: Labels, n: nat, own: Verdict, v: Verdict)
    requires OwnerOf(labels, n, id) == own
    ensures Select(KernelsOf(LaunchRecords(l, id, stack)), labels, n, v)
         == if v == own then WorkKernels(l.work, id) else []
  {
    LaunchKernels(l, id, stack);
    SelectWork(l.work, id, labels, n, own, v);
  }

  lemma {:induction false} PrepareSettled(script: seq<Iteration>, labels: Labels, i: nat)
    requires i < |script| && LabelsAre(labels, script)
    ensures Settled(script[i].prepare, FirstId(script, i), labels, |script|, Preparation)
  {
    var it, id := script[i], FirstId(script, i);
    forall j | 0 <= j < |it.prepare|
      ensures OwnerOf(labels, |script|, id + j) == if it.prepare[j].onThread then Preparation else Orphan
    {
      LabelStable(script, i + 1, |script|, id + j);
      assert LabelAt(script, i + 1, id + j) == LaunchLabel(it.prepare, j, PREPARE_ID);
    }
  }

  lemma {:induction false} RunSettled(script: seq<Iteration>, labels: Labels, i: nat)
    requires i < |script| <= PREPARE_ID && LabelsAre(labels, script)
    ensures Settled(script[i].run, FirstId(script, i) + |script[i].prepare|, labels, |script|, Claimed(i))
  {
    var it, id := script[i], FirstId(script, i) + |script[i].prepare|;
    forall j | 0 <= j < |it.run|
      ensures OwnerOf(labels, |script|, id + j) == if it.run[j].onThread then Claimed(i) else Orphan
    {
      LabelStable(script, i + 1, |script|, id + j);
      assert LabelAt(script, i + 1, id + j) == LaunchLabel(it.run, j, i);
    }
  }

  lemma {:induction false} SelectPhase(script: seq<Iteration>, n: nat, labels: Labels, v: Verdict)
    requires n <= |script| <= PREPARE_ID && LabelsAre(labels, script)
    ensures Select(KernelsOf(PhaseRecords(script, n)), labels, |script|, v) == WorkOf(script, n, v)
  {
    hide PhaseRecords, KernelsOf, Select, WorkOf, LabelsAre;
    if n > 0 {
      SelectPhase(script, n - 1, labels, v);
      SelectPhaseStep(script, n - 1, labels, v);
    } else {
      SelectPhaseStart(script, labels, v);
    }
  }

  lemma {:induction false} SelectPhaseStart(script: seq<Iteration>, labels: Labels, v: Verdict)
    ensures Select(KernelsOf(PhaseRecords(script, 0)), labels, |script|, v) == WorkOf(script, 0, v)
  {
  }

  lemma {:induction false} SelectPhaseStep(script: seq<Iteration>, i: nat, labels: Labels, v: Verdict)
    requires i < |script| <= PREPARE_ID && LabelsAre(labels, script)
    requires Select(KernelsOf(PhaseRecords(script, i)), labels, |script|, v) == WorkOf(script, i, v)
    ensures Select(KernelsOf(PhaseRecords(script, i + 1)), labels, |script|, v) == WorkOf(script, i + 1, v)
  {
    hide Select, KernelsOf, Emit, Share, LabelsAre;
    SelectIteration(script, i, labels, v);
    var it, id := script[i], FirstId(script, i);
    var past := PhaseRecords(script, i);
    var one := Emit(it.prepare, id, [PREPARE_ID]) + Emit(it.run, id + |it.prepare|, [i]);
    assert PhaseRecords(script, i + 1) == past + one;
    ReadConcat(past, one);
    SelectConcat(KernelsOf(past), KernelsOf(one), labels, |script|, v);
  }

  lemma {:induction false} SelectIteration(script: seq<Iteration>, i: nat, labels: Labels, v: Verdict)
    requires i < |script| <= PREPARE_ID && LabelsAre(labels, script)
    ensures var it, id := script[i], FirstId(script, i);
            Select(KernelsOf(Emit(it.prepare, id, [PREPARE_ID]) + Emit(it.run, id + |it.prepare|, [i])),
                   labels, |script|, v)
            == Share(it.prepare, id, Preparation, v) + Share(it.run, id + |it.prepare|, Claimed(i), v)
  {
    hide Select, KernelsOf, Emit, Share, Settled, LabelsAre;
    var it, id := script[i], FirstId(script, i);
    var a, b := Emit(it.prepare, id, [PREPARE_ID]), Emit(it.run, id + |it.prepare|, [i]);
    PrepareSettled(script, labels, i);
    RunSettled(script, labels, i);
    SelectEmitted(it.prepare, id, [PREPARE_ID], labels, |script|, Preparation, v);
    SelectEmitted(it.run, id + |it.prepare|, [i], labels, |script|, Claimed(i), v);
    ReadConcat(a, b);
    SelectConcat(KernelsOf(a), KernelsOf(b), labels, |script|, v);
  }

  // ----------------------------------------------------------- in any delivery order

  lemma {:induction false} SelectCounts(kernels: seq<Kernel>, labels: Labels, n: nat, v: Verdict, k: Kernel)
    ensures multiset(Select(kernels, labels, n, v))[k]
         == if Classify(labels, n, k) == v then multiset(kernels)[k] else 0
  {
    hide Select, OwnerOf;
    SelectNothing(labels, n);
    if kernels != [] {
      SelectCounts(kernels[..|kernels| - 1], labels, n, v, k);
      SelectStep(kernels, labels, n, v, |kernels| - 1);
      assert kernels[..|kernels|] == kernels == kernels[..|kernels| - 1] + [kernels[|kernels| - 1]];
    }
  }

  lemma {:induction false} KernelCounts(records: seq<Record>, k: Kernel)
    ensures multiset(KernelsOf(records))[k] == multiset(records)[Executed(k)]
  {
    if records != [] {
      KernelCounts(records[..|records| - 1], k);
      assert records == records[..|records| - 1] + [records[|records| - 1]];
    }
  }

  lemma {:induction false} SameSelection(a: seq<Record>, b: seq<Record>, labels: Labels, n: nat, v: Verdict)
    requires multiset(a) == multiset(b)
    ensures multiset(Select(KernelsOf(a), labels, n, v)) == multiset(Select(KernelsOf(b), labels, n, v))
  {
    forall k
      ensures multiset(Select(KernelsOf(a), labels, n, v))[k] == multiset(Select(KernelsOf(b), labels, n, v))[k]
    {
      SelectCounts(KernelsOf(a), labels, n, v, k);
      SelectCounts(KernelsOf(b), labels, n, v, k);
      KernelCounts(a, k);
      KernelCounts(b, k);
    }
  }

  /** With every record delivered, in any order, each verdict is given to exactly its own work:
      iterations to what their timed call issued, preparation to nobody, and what another thread
      launched is an orphan. */
  lemma {:induction false} AttributionIsExact(script: seq<Iteration>, records: seq<Record>, v: Verdict)
    requires |script| <= PREPARE_ID && multiset(records) == multiset(PhaseRecords(script, |script|))
    ensures multiset(Select(KernelsOf(records), LabelsOf(records), |script|, v))
         == multiset(WorkOf(script, |script|, v))
  {
    DeliveredLabels(script, records);
    SelectPhase(script, |script|, LabelsOf(records), v);
    SameSelection(records, PhaseRecords(script, |script|), LabelsOf(records), |script|, v);
  }

  // ------------------------------------------------------------------ under any loss

  /** Whatever part of the labels is delivered, none is wrong. */
  lemma {:induction false} PartialLabels(script: seq<Iteration>, records: seq<Record>, c: int)
    requires multiset(records) <= multiset(PhaseRecords(script, |script|))
    ensures c in LabelsOf(records) ==> LabelAt(script, |script|, c) == Some(LabelsOf(records)[c])
  {
    hide PhaseRecords, LabelAt, LabelsOf;
    LabelsRead(records, c);
    if c in LabelsOf(records) {
      var e := LabelsOf(records)[c];
      assert multiset(records)[ExternalCorrelation(c, e)] > 0;
      assert ExternalCorrelation(c, e) in PhaseRecords(script, |script|);
      PhaseCorrelation(script, |script|, c, e);
    }
  }

  /** A kernel that is claimed although records were lost would have been claimed for the same iteration
      with all of them delivered. */
  lemma {:induction false} PartialOwner(script: seq<Iteration>, records: seq<Record>, c: int)
    requires multiset(records) <= multiset(PhaseRecords(script, |script|))
    ensures var n, all := |script|, PhaseRecords(script, |script|);
            OwnerOf(LabelsOf(records), n, c) == Orphan || OwnerOf(LabelsOf(records), n, c) == OwnerOf(LabelsOf(all), n, c)
  {
    hide PhaseRecords, LabelAt, LabelsOf;
    PartialLabels(script, records, c);
    DeliveredLabels(script, PhaseRecords(script, |script|));
  }

  /** Safety under any loss, of kernels or of correlations, in any order: no iteration is ever given work that
      is not its own, and nothing but preparation is set aside as preparation. */
  lemma {:induction false} LossNeverMixes(script: seq<Iteration>, records: seq<Record>, v: Verdict)
    requires |script| <= PREPARE_ID && v != Orphan
    requires multiset(records) <= multiset(PhaseRecords(script, |script|))
    ensures multiset(Select(KernelsOf(records), LabelsOf(records), |script|, v))
         <= multiset(WorkOf(script, |script|, v))
  {
    hide Select, KernelsOf, LabelsOf, PhaseRecords, WorkOf, OwnerOf;
    var all := PhaseRecords(script, |script|);
    AttributionIsExact(script, all, v);
    forall k
      ensures multiset(Select(KernelsOf(records), LabelsOf(records), |script|, v))[k]
           <= multiset(Select(KernelsOf(all), LabelsOf(all), |script|, v))[k]
    {
      SelectCounts(KernelsOf(records), LabelsOf(records), |script|, v, k);
      SelectCounts(KernelsOf(all), LabelsOf(all), |script|, v, k);
      KernelCounts(records, k);
      KernelCounts(all, k);
      PartialOwner(script, records, k.correlationId);
    }
  }

  // ------------------------------------------------------------------- the readings

  lemma {:induction false} CopyingCounts(kernels: seq<Kernel>, copies: bool, k: Kernel)
    ensures multiset(Copying(kernels, copies))[k] == if k.isCopy == copies then multiset(kernels)[k] else 0
  {
    if kernels != [] {
      CopyingCounts(kernels[..|kernels| - 1], copies, k);
      assert kernels == kernels[..|kernels| - 1] + [kernels[|kernels| - 1]];
    }
  }

  lemma {:induction false} CopyingSame(a: seq<Kernel>, b: seq<Kernel>, copies: bool)
    requires multiset(a) == multiset(b)
    ensures multiset(Copying(a, copies)) == multiset(Copying(b, copies))
  {
    forall k
      ensures multiset(Copying(a, copies))[k] == multiset(Copying(b, copies))[k]
    {
      CopyingCounts(a, copies, k);
      CopyingCounts(b, copies, k);
    }
  }

  lemma SpanMembers(a: seq<Kernel>, b: seq<Kernel>, k: Interval)
    requires multiset(a) == multiset(b) && k in Spans(a)
    ensures k in Spans(b)
  {
    Sorting.SameElements(a, b);
    var i :| 0 <= i < |a| && Spans(a)[i] == k;
    assert a[i] in b;
    var j :| 0 <= j < |b| && b[j] == a[i];
    assert Spans(b)[j] == k;
  }

  /** Busy time and span read the same from the same kernels in any order. */
  lemma ReadingsSame(a: seq<Kernel>, b: seq<Kernel>)
    requires multiset(a) == multiset(b)
    ensures BusyMs(a) == BusyMs(b) && SpanUs(Spans(a)) == SpanUs(Spans(b)) && |a| == |b|
  {
    assert |multiset(a)| == |a| && |multiset(b)| == |b|;
    forall k
      ensures k in Spans(a) <==> k in Spans(b)
    {
      if k in Spans(a) {
        SpanMembers(a, b, k);
      }
      if k in Spans(b) {
        SpanMembers(b, a, k);
      }
    }
    CoverSame(Spans(a), Spans(b));
  }

  lemma TimedSame(a: seq<Kernel>, b: seq<Kernel>, countCopies: bool)
    requires multiset(a) == multiset(b)
    ensures multiset(Timed(a, countCopies)) == multiset(Timed(b, countCopies))
    ensures multiset(Uncounted(a, countCopies)) == multiset(Uncounted(b, countCopies))
    ensures Timed(a, countCopies) == [] <==> Timed(b, countCopies) == []
  {
    hide Copying;
    CopyingSame(a, b, true);
    CopyingSame(a, b, false);
    var ta, tb := Timed(a, countCopies), Timed(b, countCopies);
    assert |multiset(ta)| == |ta| && |multiset(tb)| == |tb|;
  }

  lemma SampleSame(a: seq<Kernel>, b: seq<Kernel>, countCopies: bool)
    requires multiset(a) == multiset(b)
    ensures SampleOf(a, countCopies) == SampleOf(b, countCopies)
  {
    hide Timed, Uncounted, BusyMs, SpanUs;
    TimedSame(a, b, countCopies);
    ReadingsSame(Timed(a, countCopies), Timed(b, countCopies));
    ReadingsSame(Uncounted(a, countCopies), Uncounted(b, countCopies));
  }

  /** No sample is busy longer than its latency, so the report's gap is never negative. */
  lemma BusyWithinLatency(claimed: seq<Kernel>, countCopies: bool)
    requires Executable(claimed)
    ensures SampleOf(claimed, countCopies).deviceBusyMs <= SampleOf(claimed, countCopies).latencyMs
  {
    var timed := Timed(claimed, countCopies);
    forall s | s in Spans(timed)
      ensures s.start <= s.end
    {
      var i :| 0 <= i < |timed| && s == timed[i].span;
      assert timed[i] in timed;
    }
    BusyWithinSpan(Spans(timed));
  }

  /** A sample in nanoseconds: the latency is the length of the shortest interval that holds all the timed
      kernels, the busy time the size of the union of their intervals. */
  lemma {:induction false} SampleMeasures(claimed: seq<Kernel>, countCopies: bool)
    requires Timed(claimed, countCopies) != []
    ensures var spans, sample := Spans(Timed(claimed, countCopies)), SampleOf(claimed, countCopies);
            && sample.deviceBusyMs * 1000000.0 == |Cover(spans)| as real
            && sample.nKernels == Some(|spans|)
            && (exists a, b :: Within(spans, a, b) && sample.latencyMs * 1000000.0 == (b - a) as real)
            && (forall a, b | Within(spans, a, b) :: sample.latencyMs * 1000000.0 <= (b - a) as real)
  {
    hide Timed, Cover, SpanNs;
    var spans := Spans(Timed(claimed, countCopies));
    SpanIsShortest(spans);
    assert SampleOf(claimed, countCopies).latencyMs * 1000000.0 == SpanNs(spans) as real;
    var a, b :| Within(spans, a, b) && SpanNs(spans) == b - a;
    assert Within(spans, a, b) && SampleOf(claimed, countCopies).latencyMs * 1000000.0 == (b - a) as real;
  }

  /** What is left out of a sample is exactly the copies, unless the case counts them; then nothing is. */
  lemma {:induction false} SampleLeavesOut(claimed: seq<Kernel>, countCopies: bool, k: Kernel)
    ensures multiset(Timed(claimed, countCopies))[k] == if countCopies || !k.isCopy then multiset(claimed)[k] else 0
    ensures multiset(Uncounted(claimed, countCopies))[k] == if countCopies || !k.isCopy then 0 else multiset(claimed)[k]
    ensures SampleOf(claimed, countCopies).uncountedCopyMs * 1000000.0
         == |Cover(Spans(Uncounted(claimed, countCopies)))| as real
  {
    hide Copying, Cover;
    CopyingCounts(claimed, true, k);
    CopyingCounts(claimed, false, k);
  }

  /** A report row published from attributed samples has a gap that is not negative, and percentiles on
      both sides of its median. */
  lemma AttributedRowIsConsistent(kernels: seq<Kernel>, labels: Labels, n: nat, countCopies: bool,
                                  samples: seq<Sample>, row: Row, timed: Row, notes: Row,
                                  roofline: Roofline)
    requires Executable(kernels) && |samples| == n > 0 && Median(Busy(samples)) > 0.0
    requires Published(row, timed, samples, notes, roofline) && forall k | k in notes :: IsNote(k)
    requires forall i | 0 <= i < n :: samples[i] == SampleOf(OwnKernels(kernels, labels, n, i), countCopies)
    ensures {GapMs, DeviceBusyMs} <= row.Keys && row[GapMs].Number? && row[DeviceBusyMs].Number?
    ensures row[GapMs].n >= 0.0
    ensures n >= 2 ==> {DeviceBusyP10Ms, DeviceBusyP90Ms} <= row.Keys
    ensures n >= 2 ==> row[DeviceBusyP10Ms].Number? && row[DeviceBusyP90Ms].Number?
    ensures n >= 2 ==> row[DeviceBusyP10Ms].n <= row[DeviceBusyMs].n <= row[DeviceBusyP90Ms].n
  {
    hide SampleOf, Published, Executable, Select, Median;
    SelectExecutable(kernels, labels, n);
    forall i | 0 <= i < n
      ensures samples[i].deviceBusyMs <= samples[i].latencyMs
    {
      BusyWithinLatency(OwnKernels(kernels, labels, n, i), countCopies);
    }
    PublishedRowIsConsistent(row, timed, samples, notes, roofline);
  }

  /** Some launch made on another thread put work on the device. */
  ghost predicate WorksElsewhere(script: seq<Iteration>) { WorkOf(script, |script|, Orphan) != [] }

  /** The phase comes up short exactly when a launch left the thread with work to do, or an iteration
      issued nothing to time. */
  ghost predicate Unmeasurable(script: seq<Iteration>, countCopies: bool) {
    || WorksElsewhere(script)
    || exists i :: 0 <= i < |script| && Timed(OwnWork(script, i), countCopies) == []
  }

  lemma {:induction false} IterationIsExact(script: seq<Iteration>, records: seq<Record>, i: nat, countCopies: bool)
    requires i < |script| <= PREPARE_ID && multiset(records) == multiset(PhaseRecords(script, |script|))
    ensures var own := OwnKernels(KernelsOf(records), LabelsOf(records), |script|, i);
            && SampleOf(own, countCopies) == SampleOf(OwnWork(script, i), countCopies)
            && (Timed(own, countCopies) == [] <==> Timed(OwnWork(script, i), countCopies) == [])
  {
    hide Select, KernelsOf, LabelsOf, PhaseRecords, WorkOf, OwnWork, SampleOf, Timed;
    var own := OwnKernels(KernelsOf(records), LabelsOf(records), |script|, i);
    AttributionIsExact(script, records, Claimed(i));
    WorkOfIteration(script, |script|, i);
    SampleSame(own, OwnWork(script, i), countCopies);
    TimedSame(own, OwnWork(script, i), countCopies);
  }

  lemma {:induction false} ShortIsUnmeasurable(script: seq<Iteration>, records: seq<Record>, countCopies: bool)
    requires |script| <= PREPARE_ID && multiset(records) == multiset(PhaseRecords(script, |script|))
    ensures Short(KernelsOf(records), LabelsOf(records), |script|, countCopies) <==> Unmeasurable(script, countCopies)
    ensures Select(KernelsOf(records), LabelsOf(records), |script|, Orphan) == []
       <==> WorkOf(script, |script|, Orphan) == []
  {
    hide Select, KernelsOf, LabelsOf, PhaseRecords, WorkOf, OwnWork, Timed;
    AttributionIsExact(script, records, Orphan);
    var a, b := Select(KernelsOf(records), LabelsOf(records), |script|, Orphan), WorkOf(script, |script|, Orphan);
    assert |multiset(a)| == |a| && |multiset(b)| == |b|;
    if Unmeasurable(script, countCopies) && b == [] {
      var i :| 0 <= i < |script| && Timed(OwnWork(script, i), countCopies) == [];
      IterationIsExact(script, records, i, countCopies);
    }
    if Short(KernelsOf(records), LabelsOf(records), |script|, countCopies) && a == [] {
      var i :| 0 <= i < |script|
        && Timed(Select(KernelsOf(records), LabelsOf(records), |script|, Claimed(i)), countCopies) == [];
      IterationIsExact(script, records, i, countCopies);
    }
  }

  // ---------------------------------------------------------------- one whole phase

  function Flatten(batches: seq<seq<Record>>): seq<Record> {
    if batches == [] then [] else Flatten(batches[..|batches| - 1]) + batches[|batches| - 1]
  }

  ghost predicate WellTimed(records: seq<Record>) {
    forall k :: Executed(k) in records ==> k.span.start <= k.span.end
  }

  lemma {:induction false} WellTimedKernels(a: seq<Record>, b: seq<Record>)
    requires multiset(a) <= multiset(b) && WellTimed(b)
    ensures Executable(KernelsOf(a))
  {
    forall k | k in KernelsOf(a)
      ensures k.span.start <= k.span.end
    {
      KernelCounts(a, k);
      assert multiset(KernelsOf(a))[k] > 0;
      assert Executed(k) in multiset(b);
    }
  }

  /** The batches hold every record of the phase and no other, in any order; iteration indices stay
      below the preparation id. */
  ghost predicate Lossless(script: seq<Iteration>, batches: seq<seq<Record>>) {
    && |script| <= PREPARE_ID && WellTimed(PhaseRecords(script, |script|))
    && multiset(Flatten(batches)) == multiset(PhaseRecords(script, |script|))
  }

  /** The batches hold nothing but records of the phase, each at most as often as it was produced. */
  ghost predicate Delivered(script: seq<Iteration>, batches: seq<seq<Record>>) {
    && |script| <= PREPARE_ID && WellTimed(PhaseRecords(script, |script|))
    && multiset(Flatten(batches)) <= multiset(PhaseRecords(script, |script|))
  }

  /** The sample reads part of iteration i's own work and nothing else. */
  ghost predicate ReadsOwn(script: seq<Iteration>, i: nat, sample: Sample, countCopies: bool)
    requires i < |script|
  {
    exists part: seq<Kernel> :: multiset(part) <= multiset(OwnWork(script, i)) && SampleOf(part, countCopies) == sample
  }

  lemma {:induction false} SampleReadsOwn(script: seq<Iteration>, records: seq<Record>, i: nat, countCopies: bool)
    requires i < |script| <= PREPARE_ID && multiset(records) <= multiset(PhaseRecords(script, |script|))
    ensures ReadsOwn(script, i, SampleOf(OwnKernels(KernelsOf(records), LabelsOf(records), |script|, i), countCopies),
                     countCopies)
  {
    hide Select, KernelsOf, LabelsOf, PhaseRecords, WorkOf, OwnWork, SampleOf;
    LossNeverMixes(script, records, Claimed(i));
    WorkOfIteration(script, |script|, i);
    var part := OwnKernels(KernelsOf(records), LabelsOf(records), |script|, i);
    assert multiset(part) <= multiset(OwnWork(script, i));
  }

  /** One phase end to end: run the labelled iterations, take the records in whatever batches the
      device completes, and attribute them. Whatever is lost, a returned sample reads its own iteration's
      work only. Lossless delivery gives exactly one reading per iteration, of all of that iteration's own
      work, or a refusal that the script itself explains. */
  method MeasurePhase(script: seq<Iteration>, batches: seq<seq<Record>>, dropped: Option<nat>, countCopies: bool)
    returns (r: Result<seq<Sample>, Failure>)
    requires Delivered(script, batches)
    ensures r.Ok? ==> |r.value| == |script|
    ensures r.Ok? ==> forall i | 0 <= i < |script| :: ReadsOwn(script, i, r.value[i], countCopies)
    ensures Lossless(script, batches) ==> (r.Err? <==> Unmeasurable(script, countCopies))
    ensures Lossless(script, batches) && r.Err? && dropped == Some(0) ==>
      r.error == if WorksElsewhere(script) then OffThreadLaunch else NothingLaunched
    ensures Lossless(script, batches) && r.Ok? ==>
      forall i | 0 <= i < |script| :: r.value[i] == SampleOf(OwnWork(script, i), countCopies)
  {
    hide Select, KernelsOf, LabelsOf, PhaseRecords, WorkOf, OwnWork, SampleOf, Short, Unmeasurable,
         Executable, WellTimed, ReadsOwn;
    var collector := new Collector();
    collector.CollectRepeats(script);
    assert collector.outstanding == PhaseRecords(script, |script|);
    NothingRead();
    for i := 0 to |batches|
      invariant collector.kernels == KernelsOf(Flatten(batches[..i]))
      invariant collector.iterationOf == LabelsOf(Flatten(batches[..i]))
    {
      collector.BufferCompleted(batches[i]);
      assert batches[..i + 1][..i] == batches[..i];
      ReadConcat(Flatten(batches[..i]), batches[i]);
    }
    assert batches[..|batches|] == batches;
    var records := Flatten(batches);
    WellTimedKernels(records, PhaseRecords(script, |script|));
    r := AttributedSamples(collector.kernels, collector.iterationOf, |script|, dropped, countCopies);
    forall i | 0 <= i < |script|
      ensures ReadsOwn(script, i, SampleOf(OwnKernels(KernelsOf(records), LabelsOf(records), |script|, i), countCopies),
                       countCopies)
    {
      SampleReadsOwn(script, records, i, countCopies);
    }
    if Lossless(script, batches) {
      ShortIsUnmeasurable(script, records, countCopies);
      forall i | 0 <= i < |script|
        ensures SampleOf(OwnKernels(collector.kernels, collector.iterationOf, |script|, i), countCopies)
             == SampleOf(OwnWork(script, i), countCopies)
      {
        IterationIsExact(script, records, i, countCopies);
      }
    }
  }

  lemma {:induction false} NothingRead()
    ensures KernelsOf([]) == [] && LabelsOf([]) == map[]
  {}

  // -------------------------------------------------------------------- conservation

  /** The groups of the first m iterations, one after the other. */
  function Groups(kernels: seq<Kernel>, labels: Labels, n: nat, m: nat): seq<Kernel> {
    if m == 0 then []
    else Groups(kernels, labels, n, m - 1) + Select(kernels, labels, n, Claimed(m - 1))
  }

  lemma {:induction false} GroupCounts(kernels: seq<Kernel>, labels: Labels, n: nat, m: nat, k: Kernel)
    ensures multiset(Groups(kernels, labels, n, m))[k]
         == (var v := Classify(labels, n, k); if v.Claimed? && 0 <= v.iteration < m then multiset(kernels)[k] else 0)
  {
    if m > 0 {
      GroupCounts(kernels, labels, n, m - 1, k);
      SelectCounts(kernels, labels, n, Claimed(m - 1), k);
    }
  }

  /** For any kernels and labels, nothing is lost or counted twice: orphans, preparation and the
      iterations' groups are together all the kernels. */
  lemma {:induction false} KernelsConserved(kernels: seq<Kernel>, labels: Labels, n: nat)
    ensures multiset(kernels)
         == multiset(Select(kernels, labels, n, Orphan)) + multiset(Select(kernels, labels, n, Preparation))
            + multiset(Groups(kernels, labels, n, n))
  {
    hide Select, Groups;
    forall k
      ensures multiset(kernels)[k]
           == multiset(Select(kernels, labels, n, Orphan))[k] + multiset(Select(kernels, labels, n, Preparation))[k]
              + multiset(Groups(kernels, labels, n, n))[k]
    {
      SelectCounts(kernels, labels, n, Orphan, k);
      SelectCounts(kernels, labels, n, Preparation, k);
      GroupCounts(kernels, labels, n, n, k);
    }
  }

  function Counted(samples: seq<Sample>): int {
    if samples == [] then 0
    else
      var n := samples[|samples| - 1].nKernels;
      Counted(samples[..|samples| - 1]) + if n.Some? then n.value else 0
  }

  /** Copies left out of the first m readings. */
  function Excluded(kernels: seq<Kernel>, labels: Labels, n: nat, m: nat, countCopies: bool): int {
    if m == 0 then 0
    else
      Excluded(kernels, labels, n, m - 1, countCopies)
      + |Uncounted(Select(kernels, labels, n, Claimed(m - 1)), countCopies)|
  }

  lemma {:induction false} CopyingSplits(kernels: seq<Kernel>)
    ensures |Copying(kernels, true)| + |Copying(kernels, false)| == |kernels|
  {
    if kernels != [] {
      CopyingSplits(kernels[..|kernels| - 1]);
    }
  }

  lemma {:induction false} CountedGroups(kernels: seq<Kernel>, labels: Labels, n: nat, samples: seq<Sample>, countCopies: bool)
    requires forall i | 0 <= i < |samples| :: samples[i] == SampleOf(OwnKernels(kernels, labels, n, i), countCopies)
    ensures Counted(samples) + Excluded(kernels, labels, n, |samples|, countCopies)
         == |Groups(kernels, labels, n, |samples|)|
  {
    hide Select, Copying, BusyMs, SpanUs;
    if samples != [] {
      var m := |samples| - 1;
      CountedGroups(kernels, labels, n, samples[..m], countCopies);
      CopyingSplits(Select(kernels, labels, n, Claimed(m)));
    }
  }

  /** Whenever samples are returned, their kernel counts, the copies left out of them and the
      preparation kernels add up to every kernel recorded. */
  lemma {:induction false} CountsConserved(kernels: seq<Kernel>, labels: Labels, n: nat, samples: seq<Sample>,
                                           countCopies: bool)
    requires !Short(kernels, labels, n, countCopies) && |samples| == n
    requires forall i | 0 <= i < n :: samples[i] == SampleOf(OwnKernels(kernels, labels, n, i), countCopies)
    ensures Counted(samples) + Excluded(kernels, labels, n, n, countCopies)
            + |Select(kernels, labels, n, Preparation)| == |kernels|
  {
    hide Select, Groups, Excluded, Counted, SampleOf;
    CountedGroups(kernels, labels, n, samples, countCopies);
    KernelsConserved(kernels, labels, n);
    var a, b, c := Select(kernels, labels, n, Orphan), Select(kernels, labels, n, Preparation), Groups(kernels, labels, n, n);
    assert |multiset(kernels)| == |kernels| && |multiset(a)| == |a| && |multiset(b)| == |b| && |multiset(c)| == |c|;
  }
}
