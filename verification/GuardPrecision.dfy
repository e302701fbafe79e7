/** When a report of the guard analysis is real: some absent inputs and some behaviour of the opaque parts make
    the rule read the reported input while it is absent. */
module GuardPrecision {
  import opened GuardAnalysis

  /** No "or" anywhere in the tree. */
  ghost predicate OrFree(e: Expr) {
    match e
    case Name(_) => true
    case Constant(_) => true
    case Compare(left, _, comparators) => OrFree(left) && forall i | 0 <= i < |comparators| :: OrFree(comparators[i])
    case Or(_) => false
    case Other(children) => forall i | 0 <= i < |children| :: OrFree(children[i])
  }

  // --------------------------------------------------- evaluating towards one name

  /** p is where x sits in e, e being at base, and no presence test is on the way. */
  ghost predicate Leads(e: Expr, base: Path, p: Path, x: string) {
    if e.Name? then e.id == x && p == base
    else
      && !IsNoneTest(e) && |base| < |p| && p[..|base|] == base && p[|base|] < |Children(e)|
      && Leads(Children(e)[p[|base|]], p[..|base| + 1], p, x)
  }

  lemma {:induction false} LeadsFrom(e: Expr, base: Path, p: Path, x: string)
    requires Leads(e, base, p, x)
    ensures base <= p
  {
    if !e.Name? {
      LeadsFrom(Children(e)[p[|base|]], p[..|base| + 1], p, x);
    }
  }

  lemma OrFreeChildren(e: Expr, i: nat)
    requires OrFree(e) && i < |Children(e)|
    ensures OrFree(Children(e)[i])
  {}

  lemma TestsNothingElse(e: Expr, x: string)
    requires Escapes(e, x)
    ensures !IsNoneTest(e)
  {}

  lemma {:induction false} EscapePath(e: Expr, base: Path, x: string) returns (p: Path)
    requires OrFree(e) && Escapes(e, x)
    ensures Leads(e, base, p, x)
    decreases e
  {
    if e.Name? {
      p := base;
    } else {
      EscapesBelow(e, x);
      TestsNothingElse(e, x);
      var i: nat :| i < |Children(e)| && Escapes(Children(e)[i], x);
      OrFreeChildren(e, i);
      p := EscapePath(Children(e)[i], base + [i], x);
      LeadsFrom(Children(e)[i], base + [i], p, x);
      assert p[..|base| + 1] == base + [i] && p[..|base|] == base;
    }
  }

  /** Every node on the way to p evaluates the child on the way; every other evaluates none. All opaque values are
      false. */
  ghost function Towards(p: Path): Strategy {
    Strategy(q => if |q| < |p| && p[..|q|] == q then [p[|q|]] else [], _ => false)
  }

  lemma {:induction false} LeadsFaults(e: Expr, base: Path, p: Path, x: string, env: Env)
    requires Leads(e, base, p, x) && OrFree(e) && env.s == Towards(p)
    requires x in env.optional && x in env.nones
    ensures Eval(e, base, env) == Fault(x)
    decreases e
  {
    if !e.Name? {
      var i := p[|base|];
      OrFreeChildren(e, i);
      LeadsFaults(Children(e)[i], p[..|base| + 1], p, x, env);
      assert base + [i] == p[..|base| + 1];
      assert env.s.order(base) == [i];
      assert EvalPicked(e, base, env, [i]) == Fault(x);
    }
  }

  /** In a tree without "or", every use is a fault of some evaluation in which that name alone is absent. */
  lemma {:induction false} UsesAreFaults(e: Expr, path: Path, optional: set<string>, x: string)
    requires OrFree(e) && x in Uses(e, optional)
    ensures exists s :: Eval(e, path, Env(optional, {x}, s)) == Fault(x)
  {
    UsesEscape(e, optional, x);
    var p := EscapePath(e, path, x);
    LeadsFaults(e, path, p, x, Env(optional, {x}, Towards(p)));
  }

  // ------------------------------------------------------------- rules with "or"

  /** What the first i operands demand of the names they mention, all of them being false without reading an
      absent input, can be met: no name has to be both absent and present. */
  ghost predicate Passable(values: seq<Expr>, optional: set<string>, i: nat)
    requires i <= |values|
  {
    forall j, k, y | 0 <= j < i && 0 <= k < i && values[j] == IsNotNoneOf(y) ::
      values[k] != IsNoneOf(y) && !(y in optional && values[k] == Name(y))
  }

  /** Operand i can be reached, and uses x unguarded. */
  ghost predicate ReachableUse(values: seq<Expr>, optional: set<string>, i: nat, x: string)
    requires i < |values|
  {
    UnguardedAt(values, i, x) && Passable(values, optional, i)
  }

  /** The names an "X is not None" among the first n operands needs absent to be false. */
  ghost function MustBeNone(values: seq<Expr>, n: nat): (s: set<string>)
    requires n <= |values|
    ensures forall y :: y in s <==> exists j :: 0 <= j < n && values[j] == IsNotNoneOf(y)
  {
    if n == 0 then {}
    else
      var e := values[n - 1];
      MustBeNone(values, n - 1) + if IsNoneTest(e) && e == IsNotNoneOf(e.left.id) then {e.left.id} else {}
  }

  /** An earlier operand that does not use x is false on the way to operand i. */
  lemma {:induction false} PassesFalse(values: seq<Expr>, j: nat, i: nat, p: Path, x: string, env: Env)
    requires j < i < |values| && |p| > 0 && p[0] == i && OrFree(values[j])
    requires Passable(values, env.optional, i) && !Escapes(values[j], x) && values[j] != IsNoneOf(x)
    requires env.nones == MustBeNone(values, i) + {x} && env.s == Towards(p)
    ensures Eval(values[j], [j], env) == Value(false)
  {
    hide Escapes, MustBeNone;
    var e := values[j];
    assert [j] != p[..1];
    if IsNoneTest(e) {
      var y := e.left.id;
      assert e == IsNoneOf(y) || e == IsNotNoneOf(y);
    } else if e.Name? {
      NameEscapes(e, x);
      assert e == Name(e.id);
    } else {
      assert env.s.order([j]) == [];
    }
  }

  lemma NameEscapes(e: Expr, x: string)
    requires e.Name?
    ensures Escapes(e, x) <==> e.id == x
  {}

  /** The first reachable use of x. */
  lemma {:induction false} FirstReachable(values: seq<Expr>, optional: set<string>, i: nat, x: string) returns (f: nat)
    requires i < |values| && ReachableUse(values, optional, i, x)
    ensures f < |values| && ReachableUse(values, optional, f, x)
    ensures forall j | 0 <= j < f :: !Escapes(values[j], x)
  {
    hide Escapes;
    if j: nat :| j < i && Escapes(values[j], x) {
      assert ReachableUse(values, optional, j, x);
      f := FirstReachable(values, optional, j, x);
    } else {
      f := i;
    }
  }

  lemma {:induction false} ReachesOperand(e: Expr, n: nat, i: nat, x: string, env: Env)
    requires e.Or? && n <= i < |e.values| && Eval(e.values[i], [i], env) == Fault(x)
    requires forall j | 0 <= j < i :: Eval(e.values[j], [j], env) == Value(false)
    ensures EvalOr(e, [], env, n) == Fault(x)
    decreases i - n
  {
    assert [] + [n] == [n];
    if n < i {
      ReachesOperand(e, n + 1, i, x, env);
    }
  }

  lemma {:induction false} ReachableFaults(rule: Expr, optional: set<string>, i: nat, x: string)
    requires rule.Or? && i < |rule.values| && x in optional && ReachableUse(rule.values, optional, i, x)
    requires forall j | 0 <= j < |rule.values| :: OrFree(rule.values[j])
    ensures exists env: Env :: env.optional == optional && x in env.nones && Eval(rule, [], env) == Fault(x)
  {
    hide Escapes, OrFree, MustBeNone;
    var f := FirstReachable(rule.values, optional, i, x);
    var p := EscapePath(rule.values[f], [f], x);
    LeadsFrom(rule.values[f], [f], p, x);
    var env := Env(optional, MustBeNone(rule.values, f) + {x}, Towards(p));
    LeadsFaults(rule.values[f], [f], p, x, env);
    forall j | 0 <= j < f
      ensures Eval(rule.values[j], [j], env) == Value(false)
    {
      PassesFalse(rule.values, j, f, p, x, env);
    }
    ReachesOperand(rule, 0, f, x, env);
    assert Eval(rule, [], env) == Fault(x);
  }

  /** Where an evaluation of "or" faults, after operands that were all false. */
  lemma {:induction false} FaultOperand(e: Expr, n: nat, env: Env) returns (i: nat)
    requires e.Or? && n <= |e.values| && EvalOr(e, [], env, n).Fault?
    requires forall j | 0 <= j < n :: Eval(e.values[j], [j], env) == Value(false)
    ensures i < |e.values| && Eval(e.values[i], [i], env) == EvalOr(e, [], env, n)
    ensures forall j | 0 <= j < i :: Eval(e.values[j], [j], env) == Value(false)
    decreases |e.values| - n
  {
    assert [] + [n] == [n];
    if Eval(e.values[n], [n], env).Fault? {
      i := n;
    } else {
      i := FaultOperand(e, n + 1, env);
    }
  }

  lemma FalseOperand(e: Expr, path: Path, env: Env, y: string)
    requires Eval(e, path, env) == Value(false)
    ensures e == IsNotNoneOf(y) ==> y in env.nones
    ensures e == IsNoneOf(y) ==> y !in env.nones
    ensures y in env.optional && e == Name(y) ==> y !in env.nones
  {}

  lemma {:induction false} FaultsAreReachable(rule: Expr, env: Env, x: string)
    requires rule.Or? && Eval(rule, [], env) == Fault(x)
    ensures x in env.optional
    ensures exists i: nat :: i < |rule.values| && ReachableUse(rule.values, env.optional, i, x)
  {
    hide Eval, EvalOr, Escapes;
    OrEvaluates(rule, env);
    var i := FaultOperand(rule, 0, env);
    FaultsAreUses(rule.values[i], [i], env);
    UsesEscape(rule.values[i], env.optional, x);
    forall j, y | 0 <= j < i
      ensures rule.values[j] == IsNotNoneOf(y) ==> y in env.nones
      ensures rule.values[j] == IsNoneOf(y) ==> y !in env.nones
      ensures y in env.optional && rule.values[j] == Name(y) ==> y !in env.nones
    {
      FalseOperand(rule.values[j], [j], env, y);
    }
    assert ReachableUse(rule.values, env.optional, i, x);
  }

  lemma OrEvaluates(rule: Expr, env: Env)
    requires rule.Or?
    ensures Eval(rule, [], env) == EvalOr(rule, [], env, 0)
  {}

  /** A rule can read x while it is absent exactly when some operand that can be reached uses x unguarded. The
      analysis reports x for every operand that uses it unguarded, so a report is false only where an earlier
      operand "Y is not None" contradicts an earlier "Y is None" or Y. */
  lemma {:induction false} FaultPossibleIff(rule: Expr, optional: set<string>, x: string)
    requires rule.Or? && forall j | 0 <= j < |rule.values| :: OrFree(rule.values[j])
    ensures (exists env: Env :: env.optional == optional && Eval(rule, [], env) == Fault(x))
       <==> x in optional && exists i: nat :: i < |rule.values| && ReachableUse(rule.values, optional, i, x)
  {
    hide Eval, ReachableUse, OrFree;
    if env: Env :| env.optional == optional && Eval(rule, [], env) == Fault(x) {
      FaultsAreReachable(rule, env, x);
    }
    if i: nat :| x in optional && i < |rule.values| && ReachableUse(rule.values, optional, i, x) {
      ReachableFaults(rule, optional, i, x);
    }
  }

  /** The idiom: with no "is not None" operand, every report is real. */
  lemma {:induction false} ReportsAreReal(rule: Expr, optional: set<string>, x: string)
    requires forall j | 0 <= j < |Operands(rule)| :: OrFree(Operands(rule)[j])
    requires rule.Or? ==> forall j, y | 0 <= j < |rule.values| :: rule.values[j] != IsNotNoneOf(y)
    ensures x in Reported(rule, optional)
       <==> exists env: Env :: env.optional == optional && Eval(rule, [], env) == Fault(x)
  {
    hide Eval, Escapes, OrFree, Reported;
    ReportedExactly(rule, optional, x);
    if rule.Or? {
      assert Operands(rule) == rule.values;
      FaultPossibleIff(rule, optional, x);
      forall i: nat | i < |rule.values|
        ensures ReachableUse(rule.values, optional, i, x) <==> UnguardedAt(rule.values, i, x)
      {
      }
    } else {
      assert Operands(rule)[0] == rule;
      SingleRule(rule, optional, x);
    }
  }

  lemma SingleRule(rule: Expr, optional: set<string>, x: string)
    requires !rule.Or? && OrFree(rule)
    ensures (x in optional && exists i: nat :: i < |Operands(rule)| && UnguardedAt(Operands(rule), i, x))
       <==> exists env: Env :: env.optional == optional && Eval(rule, [], env) == Fault(x)
  {
    hide Eval, Escapes, OrFree, Uses;
    UsesEscape(rule, optional, x);
    if x in Uses(rule, optional) {
      UsesAreFaults(rule, [], optional, x);
      assert UnguardedAt(Operands(rule), 0, x);
    }
    if env: Env :| env.optional == optional && Eval(rule, [], env) == Fault(x) {
      FaultsAreUses(rule, [], env);
      assert UnguardedAt(Operands(rule), 0, x);
    }
  }

  /** Where such operands contradict each other a report can be false: "y is not None or y is None or x" never
      reads x. */
  lemma FalseAlarm(env: Env)
    requires env.optional == {"x", "y"}
    ensures var rule := Or([IsNotNoneOf("y"), IsNoneOf("y"), Name("x")]);
            "x" in Reported(rule, env.optional) && !Eval(rule, [], env).Fault?
  {
    var rule := Or([IsNotNoneOf("y"), IsNoneOf("y"), Name("x")]);
    assert UnguardedAt(Operands(rule), 2, "x");
    ReportedExactly(rule, env.optional, "x");
    assert [] + [0] == [0] && [] + [1] == [1];
    assert Eval(rule.values[0], [0], env) == Value("y" !in env.nones);
    assert Eval(rule.values[1], [1], env) == Value("y" in env.nones);
    assert EvalOr(rule, [], env, 1) == if "y" in env.nones then Value(true) else EvalOr(rule, [], env, 2);
  }
}
