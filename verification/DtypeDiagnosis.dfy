/** Explaining an unresolvable signature: dangling references and cycles of the pure same_as
    edges, each cycle once, and a generic error when neither explains the failure. */
module DtypeDiagnosis {
  import opened Wrappers
  import opened Collections

  type Edges = map<string, string>

  datatype Error =
    | Dangling(tensor: string, ref: string)
    | Cycle(tensors: set<string>)
    | Generic

  /** Consecutive tensors follow their edges. */
  ghost predicate Chain(edges: Edges, p: seq<string>) {
    forall i | 0 <= i < |p| - 1 :: p[i] in edges && edges[p[i]] == p[i + 1]
  }

  ghost predicate CyclePath(edges: Edges, p: seq<string>) {
    p != [] && Distinct(p) && Chain(edges, p) && p[|p| - 1] in edges && edges[p[|p| - 1]] == p[0]
  }

  /** c is the set of tensors of a cycle of references. */
  ghost predicate IsCycle(edges: Edges, c: set<string>) {
    exists p :: CyclePath(edges, p) && c == Elements(p)
  }

  // ------------------------------------------------ cycles of a functional graph

  lemma CycleClosed(edges: Edges, c: seq<string>, x: string)
    requires CyclePath(edges, c) && x in c
    ensures x in edges && edges[x] in c
  {
    var i :| 0 <= i < |c| && c[i] == x;
    if i < |c| - 1 {
      assert edges[c[i]] == c[i + 1];
    }
  }

  /** A chain that enters a cycle stays in it. */
  lemma {:induction false} ChainStays(edges: Edges, p: seq<string>, c: seq<string>, i: nat, j: nat)
    requires Chain(edges, p) && CyclePath(edges, c) && i <= j < |p| && p[i] in c
    ensures p[j] in c
  {
    if i < j {
      ChainStays(edges, p, c, i, j - 1);
      CycleClosed(edges, c, p[j - 1]);
    }
  }

  lemma CycleWithin(edges: Edges, c: seq<string>, d: seq<string>, x: string)
    requires CyclePath(edges, c) && CyclePath(edges, d) && x in c && x in d
    ensures Elements(c) <= Elements(d)
  {
    var i :| 0 <= i < |c| && c[i] == x;
    ChainStays(edges, c, d, i, |c| - 1);
    CycleClosed(edges, d, c[|c| - 1]);
    forall y | y in c
      ensures y in d
    {
      var j :| 0 <= j < |c| && c[j] == y;
      ChainStays(edges, c, d, 0, j);
    }
  }

  /** Two cycles that share a tensor are the same cycle. */
  lemma CyclesDisjoint(edges: Edges, c: seq<string>, d: seq<string>, x: string)
    requires CyclePath(edges, c) && CyclePath(edges, d) && x in c && x in d
    ensures Elements(c) == Elements(d)
  {
    CycleWithin(edges, c, d, x);
    CycleWithin(edges, d, c, x);
  }

  // ---------------------------------------------------------------- one walk

  /** Where a walk along the edges ended. */
  datatype Stop =
    | AtVisited(node: string)
    | AtPath(index: nat)
    | AtDeadEnd(node: string)

  /** Why a walk stopped is what its last edge leads to. */
  ghost predicate StopFits(edges: Edges, dangling: set<string>, visited: set<string>, path: seq<string>, stop: Stop) {
    match stop
    case AtVisited(node) => node in visited && (path != [] ==> Leads(edges, path, node))
    case AtPath(index) => index < |path| && Leads(edges, path, path[index])
    case AtDeadEnd(node) => path != [] && Leads(edges, path, node) && (node in dangling || node !in edges)
  }

  ghost predicate Leads(edges: Edges, path: seq<string>, node: string)
    requires path != []
  {
    path[|path| - 1] in edges && edges[path[|path| - 1]] == node
  }

  lemma PathIsBounded(edges: Edges, path: seq<string>)
    requires Distinct(path) && forall x | x in path :: x in edges
    ensures |path| <= |edges|
  {
    DistinctSize(path);
    SubsetSize(Elements(path), edges.Keys);
  }

  lemma ExtendChain(edges: Edges, path: seq<string>, node: string)
    requires Chain(edges, path) && Distinct(path) && node !in path && (path != [] ==> Leads(edges, path, node))
    ensures Chain(edges, path + [node]) && Distinct(path + [node])
  {
    var p := path + [node];
    forall i | 0 <= i < |p| - 1
      ensures p[i] in edges && edges[p[i]] == p[i + 1]
    {
      if i < |path| - 1 {
        assert path[i] in edges && edges[path[i]] == path[i + 1];
      }
    }
  }

  /** Follows edges from start until a visited tensor, a tensor already on the path or a dead end. */
  method Walk(edges: Edges, dangling: set<string>, visited: set<string>, start: string)
    returns (path: seq<string>, stop: Stop)
    requires start in edges
    ensures Chain(edges, path) && Distinct(path) && forall x | x in path :: x in edges
    ensures StopFits(edges, dangling, visited, path, stop)
    ensures start in visited || start in path
  {
    path := [];
    var seenInPath: map<string, nat> := map[];
    var node := start;
    while node !in visited
      invariant Chain(edges, path) && Distinct(path) && forall x | x in path :: x in edges
      invariant node in edges && (path != [] ==> Leads(edges, path, node))
      invariant forall x :: x in seenInPath <==> x in path
      invariant forall x | x in seenInPath :: seenInPath[x] < |path| && path[seenInPath[x]] == x
      invariant if path == [] then node == start else start in path
      decreases |edges| - |path|
    {
      PathIsBounded(edges, path);
      if node in seenInPath {
        stop := AtPath(seenInPath[node]);
        return;
      }
      ExtendChain(edges, path, node);
      PathIsBounded(edges, path + [node]);
      seenInPath := seenInPath[node := |path|];
      path := path + [node];
      var next := edges[node];
      if next in dangling || next !in edges {
        stop := AtDeadEnd(next);
        return;
      }
      node := next;
    }
    stop := AtVisited(node);
  }

  /** Every cycle that touches a visited tensor has been reported. */
  ghost predicate Complete(edges: Edges, visited: set<string>, reported: set<set<string>>) {
    forall c, x | CyclePath(edges, c) && x in c && x in visited :: Elements(c) in reported
  }

  lemma SuffixIsCycle(edges: Edges, path: seq<string>, index: nat)
    requires Chain(edges, path) && Distinct(path) && index < |path| && Leads(edges, path, path[index])
    ensures CyclePath(edges, path[index..])
  {
    var c := path[index..];
    forall i | 0 <= i < |c| - 1
      ensures c[i] in edges && edges[c[i]] == c[i + 1]
    {
      assert path[index + i] in edges && edges[path[index + i]] == path[index + i + 1];
    }
  }

  ghost predicate DanglingFits(edges: Edges, declared: set<string>, dangling: set<string>) {
    forall t :: t in dangling <==> t in edges && edges[t] !in declared
  }

  /** A cycle that touches a walk's path has been reported once the walk's own cycle is. */
  lemma WalkCovers(edges: Edges, declared: set<string>, dangling: set<string>, visited: set<string>,
                   reported: set<set<string>>, path: seq<string>, stop: Stop, c: seq<string>, x: string)
    requires edges.Keys <= declared && DanglingFits(edges, declared, dangling)
    requires Complete(edges, visited, reported)
    requires Chain(edges, path) && Distinct(path) && StopFits(edges, dangling, visited, path, stop)
    requires stop.AtPath? ==> Elements(path[stop.index..]) in reported
    requires CyclePath(edges, c) && x in c && x in path
    ensures Elements(c) in reported
  {
    var i :| 0 <= i < |path| && path[i] == x;
    var last := |path| - 1;
    ChainStays(edges, path, c, i, last);
    CycleClosed(edges, c, path[last]);
    var node := edges[path[last]];
    match stop {
      case AtVisited(_) =>
      case AtPath(index) =>
        SuffixIsCycle(edges, path, index);
        assert path[index..][0] == node;
        CyclesDisjoint(edges, c, path[index..], node);
      case AtDeadEnd(_) =>
        CycleClosed(edges, c, node);
        CycleClosed(edges, c, edges[node]);
    }
  }

  /** Covering a walk's path keeps every touched cycle reported. */
  lemma CompleteGrows(edges: Edges, declared: set<string>, dangling: set<string>, visited: set<string>,
                      before: set<set<string>>, reported: set<set<string>>, path: seq<string>, stop: Stop)
    requires edges.Keys <= declared && DanglingFits(edges, declared, dangling)
    requires Complete(edges, visited, before) && before <= reported
    requires Chain(edges, path) && Distinct(path) && StopFits(edges, dangling, visited, path, stop)
    requires stop.AtPath? ==> Elements(path[stop.index..]) in reported
    ensures Complete(edges, visited + Elements(path), reported)
  {
    forall c, x | CyclePath(edges, c) && x in c && x in visited + Elements(path)
      ensures Elements(c) in reported
    {
      if x in path {
        WalkCovers(edges, declared, dangling, visited, reported, path, stop, c, x);
      }
    }
  }

  ghost predicate NoDuplicates(errors: seq<Error>) {
    forall i, j | 0 <= i < j < |errors| :: errors[i] != errors[j]
  }

  lemma AppendNew(errors: seq<Error>, e: Error)
    requires NoDuplicates(errors) && e !in errors
    ensures NoDuplicates(errors + [e])
  {
    forall i, j | 0 <= i < j < |errors| + 1
      ensures (errors + [e])[i] != (errors + [e])[j]
    {
      assert (errors + [e])[i] == errors[i];
    }
  }

  ghost predicate Justified(edges: Edges, dangling: set<string>, reported: set<set<string>>, e: Error) {
    match e
    case Dangling(t, ref) => t in dangling && t in edges && edges[t] == ref
    case Cycle(c) => c in reported
    case Generic => false
  }

  /** The errors for references to tensors nobody declares. */
  method FindDangling(order: seq<string>, edges: Edges, declared: set<string>)
    returns (errors: seq<Error>, dangling: set<string>)
    requires Distinct(order) && forall t :: t in order <==> t in edges
    ensures DanglingFits(edges, declared, dangling) && NoDuplicates(errors)
    ensures forall e :: e in errors <==> Justified(edges, dangling, {}, e)
  {
    errors, dangling := [], {};
    for i := 0 to |order|
      invariant forall t :: t in dangling <==> t in order[..i] && edges[t] !in declared
      invariant forall e :: e in errors <==> Justified(edges, dangling, {}, e)
      invariant NoDuplicates(errors)
    {
      var t := order[i];
      if edges[t] !in declared {
        assert t !in dangling;
        assert !Justified(edges, dangling, {}, Dangling(t, edges[t]));
        AppendNew(errors, Dangling(t, edges[t]));
        errors := errors + [Dangling(t, edges[t])];
        dangling := dangling + {t};
      }
    }
    assert order[..|order|] == order;
  }

  /** The diagnosis: exactly the dangling references, exactly the cycles, nothing twice, and the
      generic error exactly when there is neither. */
  method Diagnose(order: seq<string>, edges: Edges, declared: set<string>) returns (errors: seq<Error>)
    requires edges.Keys <= declared && Distinct(order) && forall t :: t in order <==> t in edges
    ensures forall t, ref :: Dangling(t, ref) in errors <==> t in edges && edges[t] == ref && ref !in declared
    ensures forall c :: Cycle(c) in errors <==> IsCycle(edges, c)
    ensures NoDuplicates(errors) && errors != []
    ensures Generic in errors <==> (forall t | t in edges :: edges[t] in declared) && (forall c :: !IsCycle(edges, c))
  {
    hide IsCycle, Complete, Chain, StopFits, Elements;
    var dangling;
    errors, dangling := FindDangling(order, edges, declared);
    var reported: set<set<string>> := {};
    var visited: set<string> := {};
    NothingVisited(edges);
    for i := 0 to |order|
      invariant forall e :: e in errors <==> Justified(edges, dangling, reported, e)
      invariant NoDuplicates(errors)
      invariant forall c | c in reported :: IsCycle(edges, c)
      invariant Complete(edges, visited, reported)
      invariant forall j | 0 <= j < i :: order[j] in visited || order[j] in dangling
    {
      var start := order[i];
      if start !in visited && start !in dangling {
        var path, stop := Walk(edges, dangling, visited, start);
        ghost var before := reported;
        if stop.AtPath? {
          PathCycle(edges, dangling, visited, path, stop);
          var cycleNodes := path[stop.index..];
          var key := Elements(cycleNodes);
          if key !in reported {
            assert !Justified(edges, dangling, reported, Cycle(key));
            AppendNew(errors, Cycle(key));
            reported := reported + {key};
            errors := errors + [Cycle(key)];
          }
        }
        CompleteGrows(edges, declared, dangling, visited, before, reported, path, stop);
        InElements(path, start);
        visited := visited + Elements(path);
      }
    }
    forall c | IsCycle(edges, c)
      ensures c in reported
    {
      AllCyclesReported(order, edges, declared, dangling, visited, reported, c);
    }
    Conclusion(edges, declared, dangling, reported, errors);
    if errors == [] {
      errors := [Generic];
    }
  }

  lemma NothingVisited(edges: Edges)
    ensures Complete(edges, {}, {})
  {}

  lemma InElements(path: seq<string>, x: string)
    ensures x in Elements(path) <==> x in path
  {}

  lemma PathCycle(edges: Edges, dangling: set<string>, visited: set<string>, path: seq<string>, stop: Stop)
    requires Chain(edges, path) && Distinct(path) && StopFits(edges, dangling, visited, path, stop) && stop.AtPath?
    ensures stop.index < |path| && IsCycle(edges, Elements(path[stop.index..]))
  {
    SuffixIsCycle(edges, path, stop.index);
  }

  /** What the collected errors say about the graph. */
  lemma Conclusion(edges: Edges, declared: set<string>, dangling: set<string>, reported: set<set<string>>, errors: seq<Error>)
    requires DanglingFits(edges, declared, dangling)
    requires forall c :: c in reported <==> IsCycle(edges, c)
    requires forall e :: e in errors <==> Justified(edges, dangling, reported, e)
    ensures Generic !in errors
    ensures forall t, ref :: Dangling(t, ref) in errors <==> t in edges && edges[t] == ref && ref !in declared
    ensures forall c :: Cycle(c) in errors <==> IsCycle(edges, c)
    ensures errors == [] <==> (forall t | t in edges :: edges[t] in declared) && (forall c :: !IsCycle(edges, c))
  {
    hide IsCycle;
    if errors == [] {
      forall t | t in edges
        ensures edges[t] in declared
      {
        assert !Justified(edges, dangling, reported, Dangling(t, edges[t]));
      }
      forall c
        ensures !IsCycle(edges, c)
      {
        assert !Justified(edges, dangling, reported, Cycle(c));
      }
    } else {
      assert Justified(edges, dangling, reported, errors[0]);
    }
  }

  lemma AllCyclesReported(order: seq<string>, edges: Edges, declared: set<string>, dangling: set<string>,
                          visited: set<string>, reported: set<set<string>>, c: set<string>)
    requires edges.Keys <= declared && DanglingFits(edges, declared, dangling)
    requires forall t :: t in order <==> t in edges
    requires forall j | 0 <= j < |order| :: order[j] in visited || order[j] in dangling
    requires Complete(edges, visited, reported) && IsCycle(edges, c)
    ensures c in reported
  {
    var p :| CyclePath(edges, p) && c == Elements(p);
    CycleClosed(edges, p, p[0]);
    CycleClosed(edges, p, edges[p[0]]);
    assert p[0] in order;
  }
}
