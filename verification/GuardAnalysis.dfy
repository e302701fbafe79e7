/** The static guard analysis of shape rules: no optional input may be used before an
    "X is None" disjunct, and what that guarantees about evaluating the rule. */
module GuardAnalysis {
  import opened Wrappers

  datatype CmpOp = Is | IsNot | OtherOp

  /** A parsed rule. Other is any node that is neither a name, a constant, a comparison nor "or". */
  datatype Expr =
    | Name(id: string)
    | Constant(isNone: bool)
    | Compare(left: Expr, ops: seq<CmpOp>, comparators: seq<Expr>)
    | Or(values: seq<Expr>)
    | Other(children: seq<Expr>)

  function Children(e: Expr): (c: seq<Expr>)
    ensures forall i | 0 <= i < |c| :: c[i] < e
  {
    match e
    case Name(_) => []
    case Constant(_) => []
    case Compare(left, _, comparators) => [left] + comparators
    case Or(values) => values
    case Other(children) => children
  }

  /** A node is told apart from an equal one by where it sits: the child indices from the root. */
  type Path = seq<nat>

  // -------------------------------------------------------------- the analysis

  /** A bare "X is None" or "X is not None", whatever X is. */
  predicate IsNoneTest(e: Expr) {
    && e.Compare? && |e.ops| == 1 && e.ops[0] != OtherOp
    && |e.comparators| == 1 && e.comparators[0] == Constant(true)
    && e.left.Name?
  }

  /** The optional name a bare presence test is about; with wantIsNone only "X is None" qualifies. */
  function PresenceTestName(e: Expr, optional: set<string>, wantIsNone: bool): Option<string> {
    if IsNoneTest(e) && e.left.id in optional && (wantIsNone ==> e.ops[0] == Is)
    then Some(e.left.id) else None
  }

  /** All nodes of the tree at path, with where they sit. */
  function Nodes(e: Expr, path: Path): seq<(Path, Expr)>
    decreases e, 2
  {
    [(path, e)] + ChildNodes(e, path, |Children(e)|)
  }

  /** The nodes under the first n children. */
  function ChildNodes(e: Expr, path: Path, n: nat): seq<(Path, Expr)>
    requires n <= |Children(e)|
    decreases e, 1, n
  {
    if n == 0 then [] else ChildNodes(e, path, n - 1) + Nodes(Children(e)[n - 1], path + [n - 1])
  }

  /** First pass: where the subjects of presence tests sit. */
  method TestedNodes(nodes: seq<(Path, Expr)>, optional: set<string>) returns (presenceNodes: set<Path>)
    ensures forall p :: p in presenceNodes <==> Tested(nodes, optional, p)
  {
    hide PresenceTestName;
    presenceNodes := {};
    for k := 0 to |nodes|
      invariant forall p :: p in presenceNodes <==> exists j :: 0 <= j < k && Tests(nodes[j], optional, p)
    {
      var (path, node) := nodes[k];
      if PresenceTestName(node, optional, false).Some? {
        presenceNodes := presenceNodes + {path + [0]};
      }
    }
  }

  /** Node k is the name x, and not the subject of a presence test. */
  ghost predicate UsedAt(nodes: seq<(Path, Expr)>, presenceNodes: set<Path>, x: string, k: nat)
    requires k < |nodes|
  {
    nodes[k].1 == Name(x) && nodes[k].0 !in presenceNodes
  }

  /** Second pass: the optional names met anywhere else and not guarded. */
  method UsesElsewhere(nodes: seq<(Path, Expr)>, optional: set<string>, guarded: set<string>, presenceNodes: set<Path>)
    returns (bad: set<string>)
    ensures forall x :: x in bad <==>
      x in optional && x !in guarded && exists k: nat :: k < |nodes| && UsedAt(nodes, presenceNodes, x, k)
  {
    bad := {};
    for k := 0 to |nodes|
      invariant forall x :: x in bad <==>
        x in optional && x !in guarded && exists j: nat :: j < k && UsedAt(nodes, presenceNodes, x, j)
    {
      var (path, node) := nodes[k];
      if node.Name? && node.id in optional && path !in presenceNodes && node.id !in guarded {
        assert UsedAt(nodes, presenceNodes, node.id, k);
        bad := bad + {node.id};
      }
    }
  }

  lemma UsedIsUntested(nodes: seq<(Path, Expr)>, optional: set<string>, presenceNodes: set<Path>, x: string)
    requires x in optional && forall p :: p in presenceNodes <==> Tested(nodes, optional, p)
    ensures HasUntestedUse(nodes, optional, x) <==> exists k: nat :: k < |nodes| && UsedAt(nodes, presenceNodes, x, k)
  {
    hide Tested;
    if k: nat :| k < |nodes| && UsedAt(nodes, presenceNodes, x, k) {
      assert UntestedUse(nodes, optional, x, k);
    }
    if HasUntestedUse(nodes, optional, x) {
      var k: nat :| k < |nodes| && UntestedUse(nodes, optional, x, k);
      assert UsedAt(nodes, presenceNodes, x, k);
    }
  }

  /** Optional names used for anything other than a bare presence test, unless guarded. */
  method UnguardedUses(tree: Expr, optional: set<string>, guarded: set<string>) returns (bad: set<string>)
    ensures bad == Uses(tree, optional) - guarded
    ensures forall x :: x in bad <==> x in optional && x !in guarded && Escapes(tree, x)
  {
    hide Nodes, Uses, Tested, HasUntestedUse, UsedAt, Escapes;
    var nodes := Nodes(tree, []);
    var presenceNodes := TestedNodes(nodes, optional);
    bad := UsesElsewhere(nodes, optional, guarded, presenceNodes);
    forall x
      ensures x in bad <==> x in Uses(tree, optional) - guarded
      ensures x in Uses(tree, optional) <==> x in optional && Escapes(tree, x)
    {
      UsesAreUntested(tree, optional, [], x);
      UsesEscape(tree, optional, x);
      if x in optional {
        UsedIsUntested(nodes, optional, presenceNodes, x);
      } else if HasUntestedUse(nodes, optional, x) {
        UsesAreOptional(nodes, optional, x);
      }
    }
  }

  lemma UsesAreOptional(nodes: seq<(Path, Expr)>, optional: set<string>, x: string)
    requires HasUntestedUse(nodes, optional, x)
    ensures x in optional
  {}

  /** This node's left operand sits at p and is under a bare presence test. */
  ghost predicate Tests(at: (Path, Expr), optional: set<string>, p: Path) {
    PresenceTestName(at.1, optional, false).Some? && at.0 + [0] == p
  }

  ghost predicate Tested(nodes: seq<(Path, Expr)>, optional: set<string>, p: Path) {
    exists k :: 0 <= k < |nodes| && Tests(nodes[k], optional, p)
  }

  ghost predicate UntestedUse(nodes: seq<(Path, Expr)>, optional: set<string>, x: string, k: nat)
    requires k < |nodes|
  {
    nodes[k].1 == Name(x) && x in optional && !Tested(nodes, optional, nodes[k].0)
  }

  ghost predicate HasUntestedUse(nodes: seq<(Path, Expr)>, optional: set<string>, x: string) {
    exists k :: 0 <= k < |nodes| && UntestedUse(nodes, optional, x, k)
  }

  /** Optional names used outside a bare presence test, by recursion over the tree. */
  function Uses(e: Expr, optional: set<string>): set<string>
    decreases e, 2
  {
    if PresenceTestName(e, optional, false).Some? then {}
    else if e.Name? then if e.id in optional then {e.id} else {}
    else ChildUses(e, optional, |Children(e)|)
  }

  function ChildUses(e: Expr, optional: set<string>, n: nat): set<string>
    requires n <= |Children(e)|
    decreases e, 1, n
  {
    if n == 0 then {} else ChildUses(e, optional, n - 1) + Uses(Children(e)[n - 1], optional)
  }

  // ------------------------------------- the two passes compute the recursive uses

  lemma {:induction false} NodesBelow(e: Expr, path: Path, k: nat)
    requires k < |Nodes(e, path)|
    ensures path <= Nodes(e, path)[k].0
    decreases e, 2
  {
    if k > 0 {
      ChildNodesBelow(e, path, |Children(e)|, k - 1);
    }
  }

  lemma {:induction false} ChildNodesBelow(e: Expr, path: Path, n: nat, k: nat)
    requires n <= |Children(e)| && k < |ChildNodes(e, path, n)|
    ensures |path| < |ChildNodes(e, path, n)[k].0| && path <= ChildNodes(e, path, n)[k].0
    ensures ChildNodes(e, path, n)[k].0[|path|] < n
    decreases e, 1, n
  {
    var before := |ChildNodes(e, path, n - 1)|;
    if k < before {
      ChildNodesBelow(e, path, n - 1, k);
    } else {
      NodesBelow(Children(e)[n - 1], path + [n - 1], k - before);
    }
  }

  /** Appending nodes that neither test nor are tested by the others unites their untested uses. */
  lemma UsesOfConcat(a: seq<(Path, Expr)>, b: seq<(Path, Expr)>, optional: set<string>, x: string)
    requires forall i, j | 0 <= i < |a| && 0 <= j < |b| ::
      a[i].0 + [0] != b[j].0 && b[j].0 + [0] != a[i].0
    ensures HasUntestedUse(a + b, optional, x) <==> HasUntestedUse(a, optional, x) || HasUntestedUse(b, optional, x)
  {
    var c := a + b;
    forall k | 0 <= k < |c|
      ensures UntestedUse(c, optional, x, k)
         <==> if k < |a| then UntestedUse(a, optional, x, k) else UntestedUse(b, optional, x, k - |a|)
    {
      TestedConcat(a, b, optional, k);
    }
    if HasUntestedUse(a, optional, x) {
      var k :| 0 <= k < |a| && UntestedUse(a, optional, x, k);
      assert UntestedUse(c, optional, x, k);
    }
    if HasUntestedUse(b, optional, x) {
      var k :| 0 <= k < |b| && UntestedUse(b, optional, x, k);
      assert UntestedUse(c, optional, x, |a| + k);
    }
  }

  lemma TestedConcat(a: seq<(Path, Expr)>, b: seq<(Path, Expr)>, optional: set<string>, k: nat)
    requires forall i, j | 0 <= i < |a| && 0 <= j < |b| ::
      a[i].0 + [0] != b[j].0 && b[j].0 + [0] != a[i].0
    requires k < |a| + |b|
    ensures var p := (a + b)[k].0;
            Tested(a + b, optional, p) <==> if k < |a| then Tested(a, optional, p) else Tested(b, optional, p)
  {
    var c, p := a + b, (a + b)[k].0;
    if Tested(c, optional, p) {
      var i :| 0 <= i < |c| && Tests(c[i], optional, p);
      if k < |a| {
        assert i < |a| && Tests(a[i], optional, p);
      } else {
        assert i >= |a| && Tests(b[i - |a|], optional, p);
      }
    }
    if k < |a| && Tested(a, optional, p) {
      var i :| 0 <= i < |a| && Tests(a[i], optional, p);
      assert Tests(c[i], optional, p);
    }
    if k >= |a| && Tested(b, optional, p) {
      var i :| 0 <= i < |b| && Tests(b[i], optional, p);
      assert Tests(c[|a| + i], optional, p);
    }
  }

  lemma {:induction false} ChildUsesAreUntested(e: Expr, optional: set<string>, path: Path, n: nat, x: string)
    requires n <= |Children(e)|
    ensures x in ChildUses(e, optional, n) <==> HasUntestedUse(ChildNodes(e, path, n), optional, x)
    decreases e, 1, n
  {
    if n > 0 {
      var a, b := ChildNodes(e, path, n - 1), Nodes(Children(e)[n - 1], path + [n - 1]);
      ChildUsesAreUntested(e, optional, path, n - 1, x);
      UsesAreUntested(Children(e)[n - 1], optional, path + [n - 1], x);
      forall i, j | 0 <= i < |a| && 0 <= j < |b|
        ensures a[i].0 + [0] != b[j].0 && b[j].0 + [0] != a[i].0
      {
        ChildNodesBelow(e, path, n - 1, i);
        NodesBelow(Children(e)[n - 1], path + [n - 1], j);
        assert b[j].0[|path|] == n - 1 != a[i].0[|path|];
      }
      UsesOfConcat(a, b, optional, x);
    }
  }

  /** Skipping the left operands of presence tests by identity is skipping the tests. */
  lemma {:induction false} UsesAreUntested(e: Expr, optional: set<string>, path: Path, x: string)
    ensures x in Uses(e, optional) <==> HasUntestedUse(Nodes(e, path), optional, x)
    decreases e, 2
  {
    var below := ChildNodes(e, path, |Children(e)|);
    var nodes := Nodes(e, path);
    if PresenceTestName(e, optional, false).Some? {
      PresenceNodes(e, optional, path);
      assert Tests(nodes[0], optional, path + [0]);
    } else if e.Name? {
      assert nodes == [(path, e)];
      if x == e.id && x in optional {
        assert UntestedUse(nodes, optional, x, 0);
      }
    } else {
      ChildUsesAreUntested(e, optional, path, |Children(e)|, x);
      RootAddsNothing(e, optional, path, below, x);
    }
  }

  lemma {:induction false} PresenceNodes(e: Expr, optional: set<string>, path: Path)
    requires PresenceTestName(e, optional, false).Some?
    ensures Nodes(e, path) == [(path, e), (path + [0], e.left), (path + [1], e.comparators[0])]
  {
    assert Children(e) == [e.left, e.comparators[0]];
    assert ChildNodes(e, path, 1) == ChildNodes(e, path, 0) + Nodes(e.left, path + [0]);
    assert ChildNodes(e, path, 2) == ChildNodes(e, path, 1) + Nodes(e.comparators[0], path + [1]);
    assert Nodes(e.left, path + [0]) == [(path + [0], e.left)];
    assert Nodes(e.comparators[0], path + [1]) == [(path + [1], e.comparators[0])];
  }

  lemma RootAddsNothing(e: Expr, optional: set<string>, path: Path, below: seq<(Path, Expr)>, x: string)
    requires !e.Name? && PresenceTestName(e, optional, false).None?
    ensures HasUntestedUse([(path, e)] + below, optional, x) <==> HasUntestedUse(below, optional, x)
  {
    var all := [(path, e)] + below;
    forall p
      ensures Tested(all, optional, p) <==> Tested(below, optional, p)
    {
      if Tested(below, optional, p) {
        var k :| 0 <= k < |below| && Tests(below[k], optional, p);
        assert Tests(all[k + 1], optional, p);
      }
    }
    if HasUntestedUse(below, optional, x) {
      var k :| 0 <= k < |below| && UntestedUse(below, optional, x, k);
      assert UntestedUse(all, optional, x, k + 1);
    }
    if HasUntestedUse(all, optional, x) {
      var k :| 0 <= k < |all| && UntestedUse(all, optional, x, k);
      assert UntestedUse(below, optional, x, k - 1);
    }
  }

  // ------------------------------------------- what counts as a use, on the tree itself

  function IsNoneOf(x: string): Expr { Compare(Name(x), [Is], [Constant(true)]) }

  function IsNotNoneOf(x: string): Expr { Compare(Name(x), [IsNot], [Constant(true)]) }

  /** x occurs somewhere other than as the subject of "x is None" or "x is not None". */
  ghost predicate Escapes(e: Expr, x: string) {
    match e
    case Name(id) => id == x
    case Constant(_) => false
    case Compare(left, _, comparators) =>
      && e != IsNoneOf(x) && e != IsNotNoneOf(x)
      && (Escapes(left, x) || exists i :: 0 <= i < |comparators| && Escapes(comparators[i], x))
    case Or(values) => exists i :: 0 <= i < |values| && Escapes(values[i], x)
    case Other(children) => exists i :: 0 <= i < |children| && Escapes(children[i], x)
  }

  lemma PresenceTestIs(e: Expr, optional: set<string>, x: string)
    ensures PresenceTestName(e, optional, false) == Some(x) <==> x in optional && (e == IsNoneOf(x) || e == IsNotNoneOf(x))
    ensures PresenceTestName(e, optional, true) == Some(x) <==> x in optional && e == IsNoneOf(x)
  {}

  lemma {:induction false} ChildUsesIff(e: Expr, optional: set<string>, n: nat, x: string)
    requires n <= |Children(e)|
    ensures x in ChildUses(e, optional, n) <==> exists i :: 0 <= i < n && x in Uses(Children(e)[i], optional)
  {
    if n > 0 {
      ChildUsesIff(e, optional, n - 1, x);
    }
  }

  lemma EscapesBelow(e: Expr, x: string)
    requires !e.Name?
    ensures Escapes(e, x)
       <==> e != IsNoneOf(x) && e != IsNotNoneOf(x) && exists i :: 0 <= i < |Children(e)| && Escapes(Children(e)[i], x)
  {
    var c := Children(e);
    if e.Compare? {
      assert c[0] == e.left && forall i | 0 <= i < |e.comparators| :: c[i + 1] == e.comparators[i];
      if i :| 0 <= i < |c| && Escapes(c[i], x) {
        assert i > 0 ==> Escapes(e.comparators[i - 1], x);
      }
      if i :| 0 <= i < |e.comparators| && Escapes(e.comparators[i], x) {
        assert Escapes(c[i + 1], x);
      }
    }
  }

  /** The uses are exactly the optional names that occur outside presence tests. */
  lemma {:induction false} UsesEscape(e: Expr, optional: set<string>, x: string)
    ensures x in Uses(e, optional) <==> x in optional && Escapes(e, x)
    decreases e
  {
    hide PresenceTestName, ChildUses;
    PresenceTestIs(e, optional, x);
    if !e.Name? {
      EscapesBelow(e, x);
      forall i | 0 <= i < |Children(e)|
        ensures x in Uses(Children(e)[i], optional) <==> x in optional && Escapes(Children(e)[i], x)
      {
        UsesEscape(Children(e)[i], optional, x);
      }
      ChildUsesIff(e, optional, |Children(e)|, x);
      if PresenceTestName(e, optional, false).Some? {
        TestEscapes(e, optional, x);
      }
    } else {
      NameIsNoTest(e, optional);
    }
  }

  lemma NameIsNoTest(e: Expr, optional: set<string>)
    requires e.Name?
    ensures PresenceTestName(e, optional, false).None?
  {}

  lemma TestEscapes(e: Expr, optional: set<string>, x: string)
    requires PresenceTestName(e, optional, false).Some?
    ensures !Escapes(e, x)
  {}

  // ------------------------------------------------------------- whole rules

  /** The operands of a top-level "or"; anything else is its own only operand. */
  function Operands(rule: Expr): seq<Expr> {
    if rule.Or? then rule.values else [rule]
  }

  /** The names an "X is None" among the first n operands guards. */
  function Guards(operands: seq<Expr>, optional: set<string>, n: nat): set<string>
    requires n <= |operands|
  {
    if n == 0 then {}
    else
      var name := PresenceTestName(operands[n - 1], optional, true);
      Guards(operands, optional, n - 1) + if name.Some? then {name.value} else {}
  }

  lemma {:induction false} GuardsStep(operands: seq<Expr>, optional: set<string>, i: nat)
    ensures Guards(operands, optional, 0) == {}
    ensures i < |operands| ==>
      var name := PresenceTestName(operands[i], optional, true);
      Guards(operands, optional, i + 1) == Guards(operands, optional, i) + if name.Some? then {name.value} else {}
  {}

  /** The guarded names are those of earlier operands "X is None". */
  lemma {:induction false} GuardsIff(operands: seq<Expr>, optional: set<string>, n: nat, x: string)
    requires n <= |operands|
    ensures x in Guards(operands, optional, n) <==> x in optional && exists j :: 0 <= j < n && operands[j] == IsNoneOf(x)
  {
    hide PresenceTestName;
    if n > 0 {
      GuardsIff(operands, optional, n - 1, x);
      PresenceTestIs(operands[n - 1], optional, x);
    }
  }

  /** Each operand of a top-level "or" with the names guarded before it. */
  method GuardScopes(rule: Expr, optional: set<string>) returns (scopes: seq<(Expr, set<string>)>)
    ensures |scopes| == |Operands(rule)|
    ensures forall i | 0 <= i < |scopes| :: scopes[i] == (Operands(rule)[i], Guards(Operands(rule), optional, i))
    ensures forall i, x | 0 <= i < |scopes| ::
      x in scopes[i].1 <==> x in optional && exists j :: 0 <= j < i && Operands(rule)[j] == IsNoneOf(x)
  {
    hide PresenceTestName, IsNoneTest, Guards;
    GuardsStep(Operands(rule), optional, 0);
    forall i, x | 0 <= i < |Operands(rule)|
      ensures x in Guards(Operands(rule), optional, i)
         <==> x in optional && exists j :: 0 <= j < i && Operands(rule)[j] == IsNoneOf(x)
    {
      GuardsIff(Operands(rule), optional, i, x);
    }
    if !rule.Or? {
      return [(rule, {})];
    }
    scopes := [];
    var guarded: set<string> := {};
    for i := 0 to |rule.values|
      invariant |scopes| == i && guarded == Guards(rule.values, optional, i)
      invariant forall j | 0 <= j < i :: scopes[j] == (rule.values[j], Guards(rule.values, optional, j))
    {
      GuardsStep(rule.values, optional, i);
      scopes := scopes + [(rule.values[i], guarded)];
      var name := PresenceTestName(rule.values[i], optional, true);
      if name.Some? {
        guarded := guarded + {name.value};
      }
    }
  }

  /** x occurs in operand i outside presence tests, with no "x is None" before it. */
  ghost predicate UnguardedAt(operands: seq<Expr>, i: nat, x: string)
    requires i < |operands|
  {
    Escapes(operands[i], x) && forall j | 0 <= j < i :: operands[j] != IsNoneOf(x)
  }

  /** The optional names a shape rule uses unguarded: exactly those that occur, outside presence tests, in an
      operand of the top-level "or" (or in a rule that is none) with no "X is None" operand before it. */
  method CheckShapeRule(rule: Expr, optional: set<string>) returns (bad: set<string>)
    ensures bad == Reported(rule, optional)
    ensures forall x :: x in bad <==>
      x in optional && exists i: nat :: i < |Operands(rule)| && UnguardedAt(Operands(rule), i, x)
  {
    hide Uses, Guards, Operands, UnguardedAt;
    forall x
      ensures x in Reported(rule, optional)
         <==> x in optional && exists i: nat :: i < |Operands(rule)| && UnguardedAt(Operands(rule), i, x)
    {
      ReportedExactly(rule, optional, x);
    }
    bad := {};
    var scopes := GuardScopes(rule, optional);
    for i := 0 to |scopes|
      invariant bad == ReportedBefore(rule, optional, i)
    {
      var uses := UnguardedUses(scopes[i].0, optional, scopes[i].1);
      bad := bad + uses;
    }
  }

  function Reported(rule: Expr, optional: set<string>): set<string> {
    ReportedBefore(rule, optional, |Operands(rule)|)
  }

  function ReportedBefore(rule: Expr, optional: set<string>, n: nat): set<string>
    requires n <= |Operands(rule)|
  {
    if n == 0 then {}
    else
      ReportedBefore(rule, optional, n - 1)
      + (Uses(Operands(rule)[n - 1], optional) - Guards(Operands(rule), optional, n - 1))
  }

  ghost predicate GuardedBefore(rule: Expr, optional: set<string>, i: nat, x: string)
    requires i <= |Operands(rule)|
  {
    exists j :: 0 <= j < i && PresenceTestName(Operands(rule)[j], optional, true) == Some(x)
  }

  lemma {:induction false} GuardsAreEarlierTests(rule: Expr, optional: set<string>, i: nat, x: string)
    requires i <= |Operands(rule)|
    ensures x in Guards(Operands(rule), optional, i) <==> GuardedBefore(rule, optional, i, x)
  {
    hide PresenceTestName;
    if i > 0 {
      GuardsAreEarlierTests(rule, optional, i - 1, x);
    }
  }

  /** A name is reported exactly when some operand uses it outside a bare presence test and no
      earlier operand is "X is None" for it. */
  lemma {:induction false} ReportedIff(rule: Expr, optional: set<string>, n: nat, x: string)
    requires n <= |Operands(rule)|
    ensures x in ReportedBefore(rule, optional, n)
       <==> exists i :: 0 <= i < n && x in Uses(Operands(rule)[i], optional) && !GuardedBefore(rule, optional, i, x)
  {
    hide Uses, Guards, Operands, GuardedBefore;
    if n > 0 {
      ReportedIff(rule, optional, n - 1, x);
      GuardsAreEarlierTests(rule, optional, n - 1, x);
    }
  }

  lemma ReportedExactly(rule: Expr, optional: set<string>, x: string)
    ensures x in Reported(rule, optional)
       <==> x in optional && exists i: nat :: i < |Operands(rule)| && UnguardedAt(Operands(rule), i, x)
  {
    hide Uses, Operands, PresenceTestName;
    var operands := Operands(rule);
    ReportedIff(rule, optional, |operands|, x);
    forall i: nat | i < |operands|
      ensures x in Uses(operands[i], optional) && !GuardedBefore(rule, optional, i, x)
         <==> x in optional && UnguardedAt(operands, i, x)
    {
      UsesEscape(operands[i], optional, x);
      if x in optional {
        GuardedIff(rule, optional, i, x);
      }
    }
  }

  lemma GuardedIff(rule: Expr, optional: set<string>, i: nat, x: string)
    requires i <= |Operands(rule)| && x in optional
    ensures GuardedBefore(rule, optional, i, x) <==> exists j :: 0 <= j < i && Operands(rule)[j] == IsNoneOf(x)
  {
    hide Operands, PresenceTestName;
    forall j | 0 <= j < i
      ensures PresenceTestName(Operands(rule)[j], optional, true) == Some(x) <==> Operands(rule)[j] == IsNoneOf(x)
    {
      PresenceTestIs(Operands(rule)[j], optional, x);
    }
  }

  // -------------------------------------------------------------- evaluation

  datatype Outcome = Fault(name: string) | Value(truthy: bool)

  /** How the parts of a rule the analysis does not look into behave: which children a node
      evaluates, in which order and how often, and whether a node's value is true. */
  datatype Strategy = Strategy(order: Path -> seq<nat>, truth: Path -> bool)

  /** An environment: the names whose value is None. Reading one that is optional is a fault,
      except as the subject of a bare presence test. */
  datatype Env = Env(optional: set<string>, nones: set<string>, s: Strategy)

  /** "or" evaluates left to right and stops at the first true operand; a presence test looks at
      its name alone; any other node evaluates the children the strategy picks. */
  function Eval(e: Expr, path: Path, env: Env): Outcome
    decreases e, 2
  {
    if IsNoneTest(e) then Value(if e.ops[0] == Is then e.left.id in env.nones else e.left.id !in env.nones)
    else
      match e
      case Name(id) => if id in env.optional && id in env.nones then Fault(id) else Value(env.s.truth(path))
      case Or(values) => EvalOr(e, path, env, 0)
      case _ => EvalPicked(e, path, env, env.s.order(path))
  }

  function EvalOr(e: Expr, path: Path, env: Env, i: nat): Outcome
    requires e.Or? && i <= |e.values|
    decreases e, 1, |e.values| - i
  {
    if i == |e.values| then Value(false)
    else
      var r := Eval(e.values[i], path + [i], env);
      if r.Fault? || r.truthy then r else EvalOr(e, path, env, i + 1)
  }

  function EvalPicked(e: Expr, path: Path, env: Env, picks: seq<nat>): Outcome
    decreases e, 1, |picks|
  {
    if picks == [] then Value(env.s.truth(path))
    else
      var r := if picks[0] < |Children(e)| then Eval(Children(e)[picks[0]], path + [picks[0]], env) else Value(false);
      if r.Fault? then r else EvalPicked(e, path, env, picks[1..])
  }

  /** Pick p of a node's children reads an absent input. */
  ghost predicate PickFaults(e: Expr, path: Path, env: Env, p: nat) {
    p < |Children(e)| && Eval(Children(e)[p], path + [p], env).Fault?
  }

  /** A node reads an absent input exactly when one of the children it evaluates does. */
  lemma {:induction false} PickedFaults(e: Expr, path: Path, env: Env, picks: seq<nat>)
    ensures EvalPicked(e, path, env, picks).Fault? <==> exists i :: 0 <= i < |picks| && PickFaults(e, path, env, picks[i])
  {
    hide Eval;
    if picks != [] {
      PickedFaults(e, path, env, picks[1..]);
      assert forall i | 0 <= i < |picks| - 1 :: picks[1..][i] == picks[i + 1];
      if i :| 0 <= i < |picks| && PickFaults(e, path, env, picks[i]) {
        assert i > 0 ==> PickFaults(e, path, env, picks[1..][i - 1]);
      }
    }
  }

  /** An "or" that reads no absent input is true exactly when one of its operands is, and then the ones before
      it are false. */
  lemma {:induction false} OrTruth(e: Expr, path: Path, env: Env, i: nat)
    requires e.Or? && i <= |e.values| && EvalOr(e, path, env, i).Value?
    ensures EvalOr(e, path, env, i).truthy
       <==> exists j :: i <= j < |e.values| && Eval(e.values[j], path + [j], env) == Value(true)
                        && forall k | i <= k < j :: Eval(e.values[k], path + [k], env) == Value(false)
    decreases |e.values| - i
  {
    hide Eval;
    if i < |e.values| && Eval(e.values[i], path + [i], env) == Value(false) {
      OrTruth(e, path, env, i + 1);
    }
  }

  lemma {:induction false} ChildUsesInclude(e: Expr, optional: set<string>, n: nat, i: nat)
    requires i < n <= |Children(e)|
    ensures Uses(Children(e)[i], optional) <= ChildUses(e, optional, n)
  {
    if i < n - 1 {
      ChildUsesInclude(e, optional, n - 1, i);
    }
  }

  /** A fault is at a name the tree uses outside a presence test. */
  lemma {:induction false} FaultsAreUses(e: Expr, path: Path, env: Env)
    requires Eval(e, path, env).Fault?
    ensures Eval(e, path, env).name in Uses(e, env.optional) * env.nones
    decreases e, 2
  {
    match e
    case Name(_) =>
    case Or(_) => FaultsOfOr(e, path, env, 0);
    case _ => FaultsOfPicked(e, path, env, env.s.order(path));
  }

  lemma {:induction false} FaultsOfOr(e: Expr, path: Path, env: Env, i: nat)
    requires e.Or? && i <= |e.values| && EvalOr(e, path, env, i).Fault?
    ensures EvalOr(e, path, env, i).name in ChildUses(e, env.optional, |Children(e)|) * env.nones
    decreases e, 1, |e.values| - i
  {
    if Eval(e.values[i], path + [i], env).Fault? {
      FaultsAreUses(e.values[i], path + [i], env);
      ChildUsesInclude(e, env.optional, |Children(e)|, i);
    } else {
      FaultsOfOr(e, path, env, i + 1);
    }
  }

  lemma {:induction false} FaultsOfPicked(e: Expr, path: Path, env: Env, picks: seq<nat>)
    requires EvalPicked(e, path, env, picks).Fault?
    ensures EvalPicked(e, path, env, picks).name in ChildUses(e, env.optional, |Children(e)|) * env.nones
    decreases e, 1, |picks|
  {
    if picks[0] < |Children(e)| && Eval(Children(e)[picks[0]], path + [picks[0]], env).Fault? {
      FaultsAreUses(Children(e)[picks[0]], path + [picks[0]], env);
      ChildUsesInclude(e, env.optional, |Children(e)|, picks[0]);
    } else {
      FaultsOfPicked(e, path, env, picks[1..]);
    }
  }

  /** When evaluation gets past an operand that guards a name, the name is present. */
  lemma {:induction false} GuardedArePresent(e: Expr, path: Path, env: Env, i: nat)
    requires e.Or? && i <= |e.values|
    requires forall j | 0 <= j < i :: Eval(e.values[j], path + [j], env) == Value(false)
    ensures Guards(e.values, env.optional, i) !! env.nones
  {
    if i > 0 {
      GuardedArePresent(e, path, env, i - 1);
      assert Eval(e.values[i - 1], path + [i - 1], env) == Value(false);
    }
  }

  lemma {:induction false} OrFaultsAreReported(e: Expr, path: Path, env: Env, i: nat)
    requires e.Or? && i <= |e.values| && EvalOr(e, path, env, i).Fault?
    requires forall j | 0 <= j < i :: Eval(e.values[j], path + [j], env) == Value(false)
    ensures EvalOr(e, path, env, i).name in Reported(e, env.optional)
    decreases |e.values| - i
  {
    var r := Eval(e.values[i], path + [i], env);
    if r.Fault? {
      FaultsAreUses(e.values[i], path + [i], env);
      GuardedArePresent(e, path, env, i);
      ReportedKeeps(e, env.optional, i, |e.values|, r.name);
    } else {
      OrFaultsAreReported(e, path, env, i + 1);
    }
  }

  lemma {:induction false} ReportedKeeps(rule: Expr, optional: set<string>, i: nat, n: nat, x: string)
    requires i < n <= |Operands(rule)|
    requires x in Uses(Operands(rule)[i], optional) && x !in Guards(Operands(rule), optional, i)
    ensures x in ReportedBefore(rule, optional, n)
  {
    if i < n - 1 {
      ReportedKeeps(rule, optional, i, n - 1, x);
    }
  }

  /** Soundness: whatever optional inputs are absent and however the opaque parts of the rule
      behave, an absent input read outside a presence test is one the analysis reports. A rule with
      nothing reported never reads an absent input. */
  lemma {:induction false} FaultsAreReported(rule: Expr, env: Env)
    requires Eval(rule, [], env).Fault?
    ensures Eval(rule, [], env).name in Reported(rule, env.optional)
  {
    if rule.Or? {
      OrFaultsAreReported(rule, [], env, 0);
    } else {
      FaultsAreUses(rule, [], env);
      ReportedKeeps(rule, env.optional, 0, 1, Eval(rule, [], env).name);
    }
  }
}
