/** When resolution succeeds, in terms of the reference graph, and when the diagnosis can name why not. */
module DtypeGraph {
  import opened Collections
  import opened DtypeResolution
  import DtypeDiagnosis

  /** t's expression refers to ref. */
  ghost predicate RefersTo(sig: Signature, t: string, ref: string) {
    t in sig && exists i :: 0 <= i < |sig[t]| && Refers(sig[t][i], ref)
  }

  ghost predicate NamesKnown(sig: Signature) {
    forall t, i | t in sig && 0 <= i < |sig[t]| :: sig[t][i].Name? ==> sig[t][i].name in TORCH_DTYPES
  }

  ghost predicate NothingDangles(sig: Signature) {
    forall t, ref | RefersTo(sig, t, ref) :: ref in sig
  }

  /** Each tensor of the walk refers to the next one. */
  ghost predicate Walk(sig: Signature, p: seq<string>) {
    forall i | 0 <= i < |p| - 1 :: RefersTo(sig, p[i], p[i + 1])
  }

  /** A walk of different tensors that comes back to its start. */
  ghost predicate RefCycle(sig: Signature, p: seq<string>) {
    && p != [] && Distinct(p) && Walk(sig, p)
    && RefersTo(sig, p[|p| - 1], p[0])
  }

  // ------------------------------------------------------- ranks forbid cycles

  lemma RefersDown(sig: Signature, rank: map<string, nat>, t: string, ref: string)
    requires Ranked(sig, rank) && RefersTo(sig, t, ref)
    ensures ref in rank && t in rank && rank[ref] < rank[t]
  {
    var i :| 0 <= i < |sig[t]| && Refers(sig[t][i], ref);
    assert TokenRanked(sig[t][i], rank, rank[t]);
  }

  lemma {:induction false} WalkDown(sig: Signature, rank: map<string, nat>, p: seq<string>, n: nat)
    requires Ranked(sig, rank) && Walk(sig, p) && 0 < n < |p|
    ensures p[0] in rank && p[n] in rank && rank[p[n]] < rank[p[0]]
  {
    assert RefersTo(sig, p[n - 1], p[n - 1 + 1]);
    RefersDown(sig, rank, p[n - 1], p[n]);
    if n > 1 {
      WalkDown(sig, rank, p, n - 1);
    }
  }

  lemma RankedHasNoCycle(sig: Signature, rank: map<string, nat>, p: seq<string>)
    requires Ranked(sig, rank)
    ensures !RefCycle(sig, p)
  {
    if RefCycle(sig, p) {
      RefersDown(sig, rank, p[|p| - 1], p[0]);
      if |p| > 1 {
        WalkDown(sig, rank, p, |p| - 1);
      }
    }
  }

  // ------------------------------------------- without cycles everything is ranked

  /** Some of the tensors are ranked, below the number ranked, consistently. */
  ghost predicate SomeRanked(sig: Signature, rank: map<string, nat>) {
    && rank.Keys <= sig.Keys
    && (forall t | t in rank :: rank[t] < |rank|)
    && forall t, i | t in rank && 0 <= i < |sig[t]| :: TokenRanked(sig[t][i], rank, rank[t])
  }

  /** Every unranked tensor refers to an unranked one. */
  ghost predicate Closed(sig: Signature, rank: map<string, nat>) {
    forall t | t in sig && t !in rank :: exists ref :: RefersTo(sig, t, ref) && ref !in rank
  }

  lemma RankNext(sig: Signature, rank: map<string, nat>, t: string)
    requires SomeRanked(sig, rank) && NamesKnown(sig) && t in sig && t !in rank
    requires forall ref | RefersTo(sig, t, ref) :: ref in rank
    ensures SomeRanked(sig, rank[t := |rank|]) && |rank[t := |rank|]| == |rank| + 1
  {
    var more := rank[t := |rank|];
    assert more.Keys == rank.Keys + {t};
    assert |more.Keys| == |rank.Keys| + 1;
    forall u, i | u in more && 0 <= i < |sig[u]|
      ensures TokenRanked(sig[u][i], more, more[u])
    {
      var tok := sig[u][i];
      if u in rank {
        assert TokenRanked(tok, rank, rank[u]);
      } else if !tok.Name? {
        assert Refers(tok, tok.ref);
        assert RefersTo(sig, t, tok.ref);
      }
    }
  }

  /** Ranks tensor after tensor as long as one refers only to ranked ones. */
  lemma {:induction false} RankAll(sig: Signature, rank: map<string, nat>) returns (all: map<string, nat>)
    requires SomeRanked(sig, rank) && NamesKnown(sig)
    ensures SomeRanked(sig, all) && Closed(sig, all)
    decreases |sig.Keys - rank.Keys|
  {
    hide SomeRanked, NamesKnown, RefersTo;
    if Closed(sig, rank) {
      all := rank;
    } else {
      var t :| t in sig && t !in rank && forall ref | RefersTo(sig, t, ref) :: ref in rank;
      RankNext(sig, rank, t);
      var more := rank[t := |rank|];
      assert sig.Keys - more.Keys == (sig.Keys - rank.Keys) - {t};
      all := RankAll(sig, more);
    }
  }

  lemma NextUnranked(sig: Signature, rank: map<string, nat>, t: string) returns (ref: string)
    requires Closed(sig, rank) && NothingDangles(sig) && t in sig && t !in rank
    ensures RefersTo(sig, t, ref) && ref !in rank && ref in sig
  {
    hide RefersTo;
    ref :| RefersTo(sig, t, ref) && ref !in rank;
  }

  /** Following references among the unranked tensors must come round. */
  lemma {:induction false} FindCycle(sig: Signature, rank: map<string, nat>, path: seq<string>) returns (cycle: seq<string>)
    requires Closed(sig, rank) && NothingDangles(sig) && path != [] && Distinct(path) && Walk(sig, path)
    requires forall t | t in path :: t in sig && t !in rank
    ensures RefCycle(sig, cycle)
    decreases |sig| - |path|
  {
    hide RefersTo, Distinct, Walk, RefCycle, Closed, NothingDangles;
    var next := NextUnranked(sig, rank, path[|path| - 1]);
    if next in path {
      var k :| 0 <= k < |path| && path[k] == next;
      CloseWalk(sig, path, k);
      cycle := path[k..];
    } else {
      WalkOn(sig, path, next);
      PathSize(sig, path + [next]);
      cycle := FindCycle(sig, rank, path + [next]);
    }
  }

  lemma CloseWalk(sig: Signature, path: seq<string>, k: nat)
    requires Distinct(path) && Walk(sig, path) && k < |path| && RefersTo(sig, path[|path| - 1], path[k])
    ensures RefCycle(sig, path[k..])
  {
    hide RefersTo;
    var cycle := path[k..];
    forall i | 0 <= i < |cycle| - 1
      ensures RefersTo(sig, cycle[i], cycle[i + 1])
    {
      assert RefersTo(sig, path[k + i], path[k + i + 1]);
    }
  }

  lemma WalkOn(sig: Signature, path: seq<string>, next: string)
    requires path != [] && Distinct(path) && Walk(sig, path)
    requires RefersTo(sig, path[|path| - 1], next) && next !in path
    ensures Distinct(path + [next]) && Walk(sig, path + [next])
  {
    var p := path + [next];
    forall i | 0 <= i < |p| - 1
      ensures RefersTo(sig, p[i], p[i + 1])
    {
      assert i < |path| - 1 ==> RefersTo(sig, path[i], path[i + 1]);
    }
  }

  lemma PathSize(sig: Signature, path: seq<string>)
    requires Distinct(path) && forall t | t in path :: t in sig
    ensures |path| <= |sig|
  {
    DistinctSize(path);
    SubsetSize(Elements(path), sig.Keys);
  }

  /** Resolution can succeed exactly when every name is a dtype, every reference goes to a declared tensor
      and no references go round in a circle. */
  lemma ResolvableIff(sig: Signature)
    ensures Resolvable(sig) <==> NamesKnown(sig) && NothingDangles(sig) && forall p :: !RefCycle(sig, p)
  {
    hide NamesKnown, NothingDangles, RefCycle, Ranked;
    if Resolvable(sig) {
      var rank :| Ranked(sig, rank);
      RankedIsSound(sig, rank);
    } else if NamesKnown(sig) && NothingDangles(sig) {
      var cycle := UnresolvableCycle(sig);
    }
  }

  lemma UnresolvableCycle(sig: Signature) returns (cycle: seq<string>)
    requires NamesKnown(sig) && NothingDangles(sig) && !Resolvable(sig)
    ensures RefCycle(sig, cycle)
  {
    hide NamesKnown, NothingDangles, RefCycle, Closed, SomeRanked, Resolvable;
    NothingRanked(sig);
    var all := RankAll(sig, map[]);
    EverythingRanked(sig, all);
    var t :| t in sig && t !in all;
    PathSize(sig, [t]);
    cycle := FindCycle(sig, all, [t]);
  }

  lemma EverythingRanked(sig: Signature, all: map<string, nat>)
    requires SomeRanked(sig, all)
    ensures Resolvable(sig) || exists t :: t in sig && t !in all
  {
    if forall t | t in sig :: t in all {
      assert all.Keys == sig.Keys;
      assert Ranked(sig, all);
    }
  }

  lemma NothingRanked(sig: Signature)
    ensures SomeRanked(sig, map[])
  {}

  lemma RankedIsSound(sig: Signature, rank: map<string, nat>)
    requires Ranked(sig, rank)
    ensures NamesKnown(sig) && NothingDangles(sig) && forall p :: !RefCycle(sig, p)
  {
    forall t, i | t in sig && 0 <= i < |sig[t]|
      ensures sig[t][i].Name? ==> sig[t][i].name in TORCH_DTYPES
    {
      assert TokenRanked(sig[t][i], rank, rank[t]);
    }
    forall t, ref | RefersTo(sig, t, ref)
      ensures ref in sig
    {
      RefersDown(sig, rank, t, ref);
    }
    forall p
      ensures !RefCycle(sig, p)
    {
      RankedHasNoCycle(sig, rank, p);
    }
  }

  // ------------------------------------------------- what the diagnosis looks at

  /** The edges of the diagnosis: expressions that are one bare same_as. */
  function EdgesOf(sig: Signature): DtypeDiagnosis.Edges {
    map t | t in sig && |sig[t]| == 1 && sig[t][0].SameAs? :: sig[t][0].ref
  }

  /** References occur only as bare same_as. */
  ghost predicate BareOnly(sig: Signature) {
    forall t, ref | RefersTo(sig, t, ref) :: t in EdgesOf(sig)
  }

  lemma EdgeRefers(sig: Signature, t: string, ref: string)
    requires t in EdgesOf(sig)
    ensures RefersTo(sig, t, ref) <==> EdgesOf(sig)[t] == ref
  {
    assert Refers(sig[t][0], ref) <==> EdgesOf(sig)[t] == ref;
  }

  lemma CyclesAgree(sig: Signature, p: seq<string>)
    requires BareOnly(sig)
    ensures RefCycle(sig, p) <==> DtypeDiagnosis.CyclePath(EdgesOf(sig), p)
  {
    hide RefersTo, EdgesOf, Distinct;
    EdgesAreReferences(sig);
    var edges := EdgesOf(sig);
    if Walk(sig, p) {
      forall i | 0 <= i < |p| - 1
        ensures p[i] in edges && edges[p[i]] == p[i + 1]
      {
        assert RefersTo(sig, p[i], p[i + 1]);
      }
    }
    if DtypeDiagnosis.Chain(edges, p) {
      forall i | 0 <= i < |p| - 1
        ensures RefersTo(sig, p[i], p[i + 1])
      {
        assert p[i] in edges && edges[p[i]] == p[i + 1];
      }
    }
    if p != [] {
      assert RefersTo(sig, p[|p| - 1], p[0]) <==> p[|p| - 1] in edges && edges[p[|p| - 1]] == p[0];
    }
  }

  /** Over known names and bare references, resolution fails exactly when the diagnosis has a dangling
      reference or a cycle to report, so it never falls back on its generic message. */
  lemma DiagnosisExplains(sig: Signature)
    requires NamesKnown(sig) && BareOnly(sig)
    ensures var edges := EdgesOf(sig);
            Resolvable(sig) <==> (forall t | t in edges :: edges[t] in sig) && forall c :: !DtypeDiagnosis.IsCycle(edges, c)
  {
    hide Resolvable, RefersTo, RefCycle, NamesKnown, EdgesOf, DtypeDiagnosis.CyclePath, Elements;
    ResolvableIff(sig);
    var edges := EdgesOf(sig);
    EdgesAreReferences(sig);
    forall p
      ensures RefCycle(sig, p) <==> DtypeDiagnosis.CyclePath(edges, p)
      ensures DtypeDiagnosis.CyclePath(edges, p) ==> DtypeDiagnosis.IsCycle(edges, Elements(p))
    {
      CyclesAgree(sig, p);
    }
  }

  lemma EdgesAreReferences(sig: Signature)
    requires BareOnly(sig)
    ensures forall t, ref | RefersTo(sig, t, ref) :: t in EdgesOf(sig) && EdgesOf(sig)[t] == ref
    ensures forall t | t in EdgesOf(sig) :: RefersTo(sig, t, EdgesOf(sig)[t])
  {
    forall t, ref | RefersTo(sig, t, ref)
      ensures t in EdgesOf(sig) && EdgesOf(sig)[t] == ref
    {
      EdgeRefers(sig, t, ref);
    }
    forall t | t in EdgesOf(sig)
      ensures RefersTo(sig, t, EdgesOf(sig)[t])
    {
      EdgeRefers(sig, t, EdgesOf(sig)[t]);
    }
  }
}
