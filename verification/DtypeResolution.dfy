/** Dtype resolution: expanding every declared tensor's dtype expression into concrete dtype
    names, by iterating to a fixpoint. Expressions are already split into tokens. */
module DtypeResolution {
  import opened Wrappers
  import opened Collections

  datatype Token =
    | SameAs(ref: string)
    | PromoteIntToFloat(ref: string)
    | Name(name: string)

  type Expr = e: seq<Token> | |e| > 0 witness [Name("")]

  type Options = seq<string>

  const TORCH_DTYPES: set<string> := {
    "float16", "float32", "float64", "bfloat16", "int8", "int16", "int32", "int64", "uint8", "bool",
    "complex64", "complex128", "float8_e4m3fn", "float8_e5m2", "float8_e4m3", "float8_e5m2fnuz", "float8_e4m3fnuz"}

  const PROMOTE_INT_DTYPES: set<string> := {"uint8", "int8", "int16", "int32", "int64"}

  const PROMOTE_TARGET_DTYPE := "float32"

  // ------------------------------------------------------------ option lists

  /** First occurrences, in order. */
  function Dedup(s: Options): (r: Options)
    ensures forall x :: x in r <==> x in s
    ensures s != [] ==> r != []
    ensures forall i, j | 0 <= i < j < |r| :: r[i] != r[j]
  {
    if s == [] then []
    else
      var r := Dedup(s[..|s| - 1]);
      assert s == s[..|s| - 1] + [s[|s| - 1]];
      if s[|s| - 1] in r then r else r + [s[|s| - 1]]
  }

  /** Where x first occurs in s. */
  ghost function First(s: Options, x: string): (i: nat)
    requires x in s
    ensures i < |s| && s[i] == x && forall j | 0 <= j < i :: s[j] != x
  {
    if s[0] == x then 0 else First(s[1..], x) + 1
  }

  lemma {:induction false} FirstAppend(s: Options, y: string, x: string)
    requires x in s
    ensures x in s + [y] && First(s + [y], x) == First(s, x)
  {
    var i, j := First(s, x), First(s + [y], x);
    assert (s + [y])[i] == x;
  }

  /** What is kept is kept in the order of first occurrence. */
  lemma {:induction false} DedupOrder(s: Options, i: nat, j: nat)
    requires i < j < |Dedup(s)|
    ensures First(s, Dedup(s)[i]) < First(s, Dedup(s)[j])
  {
    var init, y := s[..|s| - 1], s[|s| - 1];
    assert s == init + [y];
    if j < |Dedup(init)| {
      DedupOrder(init, i, j);
      FirstAppend(init, y, Dedup(init)[i]);
      FirstAppend(init, y, Dedup(init)[j]);
    } else {
      FirstAppend(init, y, Dedup(init)[i]);
      assert y !in init;
    }
  }

  function Promote(d: string): string {
    if d in PROMOTE_INT_DTYPES then PROMOTE_TARGET_DTYPE else d
  }

  function PromoteAll(s: Options): (r: Options)
    ensures |r| == |s|
  {
    seq(|s|, i requires 0 <= i < |s| => Promote(s[i]))
  }

  lemma {:induction false} DedupEmpty()
    ensures Dedup([]) == []
  {}

  lemma {:induction false} DedupAppend(s: Options, x: string)
    ensures Dedup(s + [x]) == if x in Dedup(s) then Dedup(s) else Dedup(s) + [x]
  {
    assert (s + [x])[..|s|] == s;
  }

  /** Integral names become float32, the rest pass through, duplicates are dropped. */
  method ExpandPromoteIntToFloat(refOptions: Options) returns (out: Options)
    ensures out == Dedup(PromoteAll(refOptions))
    ensures forall d :: d in out <==> PromotionOffers(refOptions, d)
    ensures Distinct(out)
  {
    hide Dedup, Promote;
    out := [];
    var seen: set<string> := {};
    assert PromoteAll(refOptions)[..0] == [];
    DedupEmpty();
    for i := 0 to |refOptions|
      invariant out == Dedup(PromoteAll(refOptions)[..i])
      invariant forall x :: x in seen <==> x in out
    {
      var target := Promote(refOptions[i]);
      assert PromoteAll(refOptions)[..i + 1] == PromoteAll(refOptions)[..i] + [target];
      DedupAppend(PromoteAll(refOptions)[..i], target);
      if target !in seen {
        seen := seen + {target};
        out := out + [target];
      }
    }
    assert PromoteAll(refOptions)[..|refOptions|] == PromoteAll(refOptions);
    forall d
      ensures d in out <==> PromotionOffers(refOptions, d)
    {
      PromotedNames(refOptions, d);
    }
  }

  /** The integral names. */
  predicate IsInt(d: string) { d == "uint8" || d == "int8" || d == "int16" || d == "int32" || d == "int64" }

  /** The name stays, or was integral and became float32. */
  predicate Becomes(d: string, to: string) { if IsInt(d) then to == "float32" else to == d }

  lemma PromoteBecomes(d: string)
    ensures Becomes(d, Promote(d)) && forall to | Becomes(d, to) :: to == Promote(d)
  {}

  /** Promotion leaves nothing integral, every other name as it was, and float32 where it or an integral name was. */
  ghost predicate PromotionOffers(ref: Options, d: string) {
    !IsInt(d) && (d in ref || (d == "float32" && exists i :: 0 <= i < |ref| && IsInt(ref[i])))
  }

  lemma {:induction false} PromotedNames(ref: Options, d: string)
    ensures d in Dedup(PromoteAll(ref)) <==> PromotionOffers(ref, d)
  {
    var all := PromoteAll(ref);
    forall i | 0 <= i < |ref|
      ensures all[i] == Promote(ref[i]) && Becomes(ref[i], all[i])
    {
      PromoteBecomes(ref[i]);
    }
    if !IsInt(d) && d in ref {
      var i :| 0 <= i < |ref| && ref[i] == d;
      assert all[i] == d;
    }
    if i :| d == "float32" && 0 <= i < |ref| && IsInt(ref[i]) {
      assert all[i] == d;
    }
    if d in all {
      var i :| 0 <= i < |all| && all[i] == d;
      assert Becomes(ref[i], d);
    }
  }

  /** Kept names come in the order in which the input first has something that becomes them. */
  lemma {:induction false} PromotedOrder(ref: Options, i: nat, j: nat)
    requires i < j < |Dedup(PromoteAll(ref))|
    ensures exists k :: 0 <= k < |ref| && Becomes(ref[k], Dedup(PromoteAll(ref))[i])
                        && forall l | 0 <= l <= k :: !Becomes(ref[l], Dedup(PromoteAll(ref))[j])
  {
    hide Dedup, Promote;
    var all := PromoteAll(ref);
    var out := Dedup(all);
    DedupOrder(all, i, j);
    var k := First(all, out[i]);
    forall l | 0 <= l < |ref|
      ensures Becomes(ref[l], all[l]) && forall to | Becomes(ref[l], to) :: to == all[l]
    {
      PromoteBecomes(ref[l]);
    }
    assert Becomes(ref[k], out[i]);
  }

  // --------------------------------------------------- one tensor, given some

  type Resolved = map<string, Options>

  function TokenOptions(tok: Token, resolved: Resolved): Option<Options> {
    match tok
    case SameAs(ref) => if ref in resolved then Some(resolved[ref]) else None
    case PromoteIntToFloat(ref) => if ref in resolved then Some(Dedup(PromoteAll(resolved[ref]))) else None
    case Name(name) => if name in TORCH_DTYPES then Some([name]) else None
  }

  /** The options of all tokens in order; None when some token has none. */
  function AllOptions(toks: seq<Token>, resolved: Resolved): Option<Options> {
    if toks == [] then Some([])
    else
      var init := AllOptions(toks[..|toks| - 1], resolved);
      var last := TokenOptions(toks[|toks| - 1], resolved);
      if init.None? || last.None? then None else Some(init.value + last.value)
  }

  function Expand(e: seq<Token>, resolved: Resolved): Option<Options> {
    var all := AllOptions(e, resolved);
    if all.None? then None else Some(Dedup(all.value))
  }

  lemma {:induction false} AllOptionsNone(toks: seq<Token>, resolved: Resolved, i: nat)
    requires i < |toks| && TokenOptions(toks[i], resolved).None?
    ensures AllOptions(toks, resolved).None?
  {
    if i < |toks| - 1 {
      AllOptionsNone(toks[..|toks| - 1], resolved, i);
    }
  }

  lemma {:induction false} AllOptionsStep(e: seq<Token>, resolved: Resolved, i: nat)
    requires i < |e| && AllOptions(e[..i], resolved).Some?
    ensures var last := TokenOptions(e[i], resolved);
            AllOptions(e[..i + 1], resolved)
            == if last.None? then None else Some(AllOptions(e[..i], resolved).value + last.value)
  {
    hide TokenOptions;
    assert e[..i + 1][..i] == e[..i];
  }

  lemma {:induction false} NoTokens(resolved: Resolved)
    ensures AllOptions([], resolved) == Some([])
  {}

  /** Walks the tokens; an unknown or unresolved one ends it. */
  method TokenByToken(e: seq<Token>, resolved: Resolved) returns (r: Option<Options>)
    ensures r == AllOptions(e, resolved)
  {
    hide AllOptions;
    var out: Options := [];
    NoTokens(resolved);
    for i := 0 to |e|
      invariant AllOptions(e[..i], resolved) == Some(out)
    {
      AllOptionsStep(e, resolved, i);
      match e[i] {
        case SameAs(ref) =>
          if ref !in resolved {
            AllOptionsNone(e, resolved, i);
            return None;
          }
          out := out + resolved[ref];
        case PromoteIntToFloat(ref) =>
          if ref !in resolved {
            AllOptionsNone(e, resolved, i);
            return None;
          }
          var promoted := ExpandPromoteIntToFloat(resolved[ref]);
          out := out + promoted;
        case Name(name) =>
          if name !in TORCH_DTYPES {
            AllOptionsNone(e, resolved, i);
            return None;
          }
          out := out + [name];
      }
    }
    assert e[..|e|] == e;
    r := Some(out);
  }

  /** Drops repetitions, keeping first occurrences in order. */
  method Unique(out: Options) returns (uniq: Options)
    ensures uniq == Dedup(out)
  {
    hide Dedup;
    var seen: set<string> := {};
    uniq := [];
    DedupEmpty();
    for i := 0 to |out|
      invariant uniq == Dedup(out[..i]) && seen == set x | x in uniq
    {
      assert out[..i + 1] == out[..i] + [out[i]];
      DedupAppend(out[..i], out[i]);
      if out[i] !in seen {
        seen := seen + {out[i]};
        uniq := uniq + [out[i]];
      }
    }
    assert out[..|out|] == out;
  }

  method OptionsForTensor(e: seq<Token>, resolved: Resolved) returns (r: Option<Options>)
    ensures r == Expand(e, resolved)
  {
    hide AllOptions, Dedup;
    var all := TokenByToken(e, resolved);
    if all.None? {
      return None;
    }
    var uniq := Unique(all.value);
    r := Some(uniq);
  }

  /** Token tok of an expression offers the name d, given what the references resolved to. */
  ghost predicate Offers(tok: Token, resolved: Resolved, d: string) {
    match tok
    case Name(name) => d == name
    case SameAs(ref) => ref in resolved && d in resolved[ref]
    case PromoteIntToFloat(ref) => ref in resolved && PromotionOffers(resolved[ref], d)
  }

  ghost predicate Known(tok: Token, resolved: Resolved) {
    if tok.Name? then tok.name in TORCH_DTYPES else tok.ref in resolved
  }

  lemma TokenOffers(tok: Token, resolved: Resolved, d: string)
    ensures TokenOptions(tok, resolved).Some? <==> Known(tok, resolved)
    ensures Known(tok, resolved) ==> (d in TokenOptions(tok, resolved).value <==> Offers(tok, resolved, d))
  {
    hide Dedup, PromoteAll;
    if tok.PromoteIntToFloat? && tok.ref in resolved {
      PromotedNames(resolved[tok.ref], d);
    }
  }

  lemma {:induction false} AllOptionsOffer(toks: seq<Token>, resolved: Resolved, d: string)
    ensures AllOptions(toks, resolved).Some? <==> forall i | 0 <= i < |toks| :: Known(toks[i], resolved)
    ensures AllOptions(toks, resolved).Some? ==>
      (d in AllOptions(toks, resolved).value <==> exists i :: 0 <= i < |toks| && Offers(toks[i], resolved, d))
  {
    hide TokenOptions, Offers, Known;
    if toks != [] {
      var m := |toks| - 1;
      AllOptionsOffer(toks[..m], resolved, d);
      TokenOffers(toks[m], resolved, d);
      assert forall i | 0 <= i < m :: toks[..m][i] == toks[i];
    }
  }

  /** An expression expands exactly when every token is known, and then to exactly what its tokens offer. */
  lemma {:induction false} ExpandOffers(e: seq<Token>, resolved: Resolved, d: string)
    ensures Expand(e, resolved).Some? <==> forall i | 0 <= i < |e| :: Known(e[i], resolved)
    ensures Expand(e, resolved).Some? ==>
      (d in Expand(e, resolved).value <==> exists i :: 0 <= i < |e| && Offers(e[i], resolved, d))
  {
    AllOptionsOffer(e, resolved, d);
  }

  // ------------------------------------------------ what a signature means

  type Signature = map<string, Expr>

  ghost predicate Refers(tok: Token, ref: string) {
    !tok.Name? && tok.ref == ref
  }

  /** Every name is known and every reference goes to a declared tensor of smaller rank. */
  ghost predicate Ranked(sig: Signature, rank: map<string, nat>) {
    && rank.Keys == sig.Keys
    && forall t, i | t in sig && 0 <= i < |sig[t]| :: TokenRanked(sig[t][i], rank, rank[t])
  }

  ghost predicate TokenRanked(tok: Token, rank: map<string, nat>, bound: nat) {
    match tok
    case SameAs(ref) => ref in rank && rank[ref] < bound
    case PromoteIntToFloat(ref) => ref in rank && rank[ref] < bound
    case Name(name) => name in TORCH_DTYPES
  }

  /** Known tokens only, no dangling reference, no cycle of references. */
  ghost predicate Resolvable(sig: Signature) {
    exists rank :: Ranked(sig, rank)
  }

  /** The options a tensor's expression denotes, by recursion along its references. */
  ghost function Meaning(sig: Signature, rank: map<string, nat>, t: string): Options
    requires Ranked(sig, rank) && t in sig
    decreases rank[t], 1, 0
  {
    Dedup(MeaningOf(sig, rank, t, |sig[t]|))
  }

  /** The options of the first n tokens of t's expression. */
  ghost function MeaningOf(sig: Signature, rank: map<string, nat>, t: string, n: nat): Options
    requires Ranked(sig, rank) && t in sig && n <= |sig[t]|
    decreases rank[t], 0, n
  {
    if n == 0 then []
    else
      var tok := sig[t][n - 1];
      assert TokenRanked(tok, rank, rank[t]);
      MeaningOf(sig, rank, t, n - 1)
      + match tok
        case SameAs(ref) => Meaning(sig, rank, ref)
        case PromoteIntToFloat(ref) => Dedup(PromoteAll(Meaning(sig, rank, ref)))
        case Name(name) => [name]
  }

  /** m gives every tensor exactly the options its expression expands to under m. */
  ghost predicate Solves(sig: Signature, m: Resolved) {
    && m.Keys == sig.Keys
    && forall t | t in sig :: Expand(sig[t], m) == Some(m[t])
  }

  /** A solution of a resolvable signature is its meaning: there is no other. */
  lemma {:induction false} SolutionIsMeaning(sig: Signature, rank: map<string, nat>, m: Resolved, t: string)
    requires Ranked(sig, rank) && Solves(sig, m) && t in sig
    ensures m[t] == Meaning(sig, rank, t)
    decreases rank[t], 1, 0
  {
    assert sig[t][..|sig[t]|] == sig[t];
    SolutionTokens(sig, rank, m, t, |sig[t]|);
  }

  lemma {:induction false} SolutionTokens(sig: Signature, rank: map<string, nat>, m: Resolved, t: string, n: nat)
    requires Ranked(sig, rank) && Solves(sig, m) && t in sig && n <= |sig[t]|
    ensures AllOptions(sig[t][..n], m) == Some(MeaningOf(sig, rank, t, n))
    decreases rank[t], 0, n
  {
    hide AllOptions, Expand;
    NoTokens(m);
    if n > 0 {
      var tok := sig[t][n - 1];
      assert TokenRanked(tok, rank, rank[t]);
      SolutionTokens(sig, rank, m, t, n - 1);
      AllOptionsStep(sig[t], m, n - 1);
      match tok
      case SameAs(ref) => SolutionIsMeaning(sig, rank, m, ref);
      case PromoteIntToFloat(ref) => SolutionIsMeaning(sig, rank, m, ref);
      case Name(_) =>
    }
  }

  // ------------------------------------------------------ fixpoint resolution

  /** Resolving more tensors leaves an expansion that already exists alone. */
  lemma {:induction false} AllOptionsStable(toks: seq<Token>, m: Resolved, t: string, opts: Options)
    requires t !in m && AllOptions(toks, m).Some?
    ensures AllOptions(toks, m[t := opts]) == AllOptions(toks, m)
  {
    if toks != [] {
      AllOptionsStable(toks[..|toks| - 1], m, t, opts);
    }
  }

  lemma {:induction false} AllOptionsTokens(toks: seq<Token>, m: Resolved, i: nat)
    requires AllOptions(toks, m).Some? && i < |toks|
    ensures TokenOptions(toks[i], m).Some?
  {
    if i < |toks| - 1 {
      AllOptionsTokens(toks[..|toks| - 1], m, i);
    }
  }

  lemma {:induction false} AllOptionsStuck(toks: seq<Token>, m: Resolved) returns (i: nat)
    requires AllOptions(toks, m).None?
    ensures i < |toks| && TokenOptions(toks[i], m).None?
  {
    if TokenOptions(toks[|toks| - 1], m).None? {
      i := |toks| - 1;
    } else {
      i := AllOptionsStuck(toks[..|toks| - 1], m);
    }
  }

  /** When no pending tensor expands, no ranking exists: each has an unknown or dangling token or
      refers to another pending tensor, of smaller rank. */
  lemma {:induction false} StuckIsUnranked(sig: Signature, m: Resolved, rank: map<string, nat>, t: string)
    requires Ranked(sig, rank) && t in sig && t !in m
    requires forall u | u in sig && u !in m :: Expand(sig[u], m).None?
    ensures false
    decreases rank[t]
  {
    var i := AllOptionsStuck(sig[t], m);
    assert TokenRanked(sig[t][i], rank, rank[t]);
    StuckIsUnranked(sig, m, rank, sig[t][i].ref);
  }

  lemma {:induction false} OptionsNonEmpty(toks: seq<Token>, m: Resolved)
    requires forall t | t in m :: m[t] != []
    requires AllOptions(toks, m).Some? && toks != []
    ensures AllOptions(toks, m).value != []
  {
    var last := TokenOptions(toks[|toks| - 1], m).value;
    if toks[|toks| - 1].PromoteIntToFloat? {
      assert PromoteAll(m[toks[|toks| - 1].ref]) != [];
    }
    assert last != [];
  }

  function Without(pending: Signature, t: string): Signature { pending - {t} }

  /** Every tensor is either pending, with its own expression, or resolved. */
  ghost predicate Divided(sig: Signature, pending: Signature, resolved: Resolved) {
    && (forall t | t in pending :: t in sig && pending[t] == sig[t])
    && resolved.Keys !! pending.Keys && resolved.Keys + pending.Keys == sig.Keys
  }

  /** The resolved part solves itself. */
  ghost predicate SelfSolving(sig: Signature, resolved: Resolved) {
    forall t | t in resolved :: t in sig && Expand(sig[t], resolved) == Some(resolved[t]) && resolved[t] != []
  }

  /** The resolved part is ranked by the order of its resolution. */
  ghost predicate RankedSoFar(sig: Signature, rank: map<string, nat>) {
    && (forall t | t in rank :: rank[t] < |rank|)
    && (forall t, i | t in rank && t in sig && 0 <= i < |sig[t]| :: TokenRanked(sig[t][i], rank, rank[t]))
  }

  ghost predicate Partial(sig: Signature, pending: Signature, resolved: Resolved, rank: map<string, nat>) {
    Divided(sig, pending, resolved) && SelfSolving(sig, resolved) && rank.Keys == resolved.Keys && RankedSoFar(sig, rank)
  }

  lemma ExpandStable(e: Expr, m: Resolved, t: string, opts: Options)
    requires t !in m && Expand(e, m).Some?
    ensures Expand(e, m[t := opts]) == Expand(e, m)
  {
    AllOptionsStable(e, m, t, opts);
  }

  lemma ExpandNonEmpty(e: Expr, m: Resolved)
    requires Expand(e, m).Some? && forall t | t in m :: m[t] != []
    ensures Expand(e, m).value != []
  {
    OptionsNonEmpty(e, m);
  }

  /** The references of an expression that expands are all resolved, hence already ranked. */
  lemma ExpandedIsRanked(e: Expr, m: Resolved, rank: map<string, nat>, bound: nat, i: nat)
    requires Expand(e, m).Some? && i < |e|
    requires rank.Keys == m.Keys && forall t | t in rank :: rank[t] < bound
    ensures TokenRanked(e[i], rank, bound)
  {
    AllOptionsTokens(e, m, i);
  }

  lemma DivideOne(sig: Signature, pending: Signature, resolved: Resolved, t: string, opts: Options)
    requires Divided(sig, pending, resolved) && t in pending
    ensures t in sig && t !in resolved && Divided(sig, Without(pending, t), resolved[t := opts])
  {}

  lemma SolveOne(sig: Signature, resolved: Resolved, t: string, opts: Options)
    requires SelfSolving(sig, resolved) && t in sig && t !in resolved && Expand(sig[t], resolved) == Some(opts)
    ensures SelfSolving(sig, resolved[t := opts])
  {
    hide Expand;
    ExpandNonEmpty(sig[t], resolved);
    forall u | u in resolved[t := opts]
      ensures u in sig && Expand(sig[u], resolved[t := opts]) == Some(resolved[t := opts][u])
    {
      ExpandStable(sig[u], resolved, t, opts);
    }
  }

  lemma RankOne(sig: Signature, resolved: Resolved, rank: map<string, nat>, t: string)
    requires RankedSoFar(sig, rank) && t in sig && t !in rank && rank.Keys == resolved.Keys
    requires Expand(sig[t], resolved).Some?
    ensures RankedSoFar(sig, rank[t := |rank|])
  {
    hide Expand, TokenRanked;
    var rank' := rank[t := |rank|];
    assert rank'.Keys == rank.Keys + {t} && |rank'| == |rank| + 1;
    forall u, i | u in rank' && u in sig && 0 <= i < |sig[u]|
      ensures TokenRanked(sig[u][i], rank', rank'[u])
    {
      TokenOfRanked(sig, resolved, rank, t, u, i);
      StillRanked(sig[u][i], rank, rank'[u], t);
    }
  }

  lemma TokenOfRanked(sig: Signature, resolved: Resolved, rank: map<string, nat>, t: string, u: string,
                      i: nat)
    requires RankedSoFar(sig, rank) && t in sig && t !in rank && rank.Keys == resolved.Keys
    requires Expand(sig[t], resolved).Some? && (u == t || u in rank) && u in sig && i < |sig[u]|
    ensures TokenRanked(sig[u][i], rank, if u == t then |rank| else rank[u])
  {
    hide Expand, TokenRanked;
    if u == t {
      ExpandedIsRanked(sig[t], resolved, rank, |rank|, i);
    }
  }

  lemma ResolveOne(sig: Signature, pending: Signature, resolved: Resolved, rank: map<string, nat>,
                   t: string, opts: Options)
    requires Partial(sig, pending, resolved, rank) && t in pending && t in sig && Expand(sig[t], resolved) == Some(opts)
    ensures Partial(sig, Without(pending, t), resolved[t := opts], rank[t := |rank|])
  {
    hide Divided, SelfSolving, RankedSoFar, Expand, Without;
    DivideOne(sig, pending, resolved, t, opts);
    SolveOne(sig, resolved, t, opts);
    RankOne(sig, resolved, rank, t);
    assert rank[t := |rank|].Keys == resolved[t := opts].Keys;
  }

  lemma StillRanked(tok: Token, rank: map<string, nat>, bound: nat, t: string)
    requires TokenRanked(tok, rank, bound) && t !in rank
    ensures TokenRanked(tok, rank[t := |rank|], bound)
  {}

  lemma RemoveOne(pending: Signature, t: string)
    requires t in pending
    ensures |Without(pending, t)| == |pending| - 1
  {
    assert (pending - {t}).Keys == pending.Keys - {t};
  }

  lemma Initial(sig: Signature)
    ensures Partial(sig, sig, map[], map[])
  {}

  lemma PendingIs(sig: Signature, pending: Signature, resolved: Resolved, rank: map<string, nat>, t: string)
    requires Partial(sig, pending, resolved, rank)
    ensures t in pending ==> t in sig && t !in resolved && pending[t] == sig[t]
    ensures t in sig && t !in resolved ==> t in pending
  {
    if t in sig && t !in resolved {
      assert t in resolved.Keys + pending.Keys;
    }
  }

  lemma ResolvedSolves(sig: Signature, pending: Signature, resolved: Resolved, rank: map<string, nat>)
    requires Partial(sig, pending, resolved, rank) && |pending| == 0
    ensures Resolvable(sig) && Solves(sig, resolved)
    ensures forall t | t in resolved :: resolved[t] != [] && Distinct(resolved[t])
  {
    hide RankedSoFar, SelfSolving, Ranked, Solves, Expand;
    assert pending.Keys == {};
    AllRanked(sig, rank);
    AllSolved(sig, resolved);
  }

  lemma AllRanked(sig: Signature, rank: map<string, nat>)
    requires RankedSoFar(sig, rank) && rank.Keys == sig.Keys
    ensures Ranked(sig, rank)
  {
    hide TokenRanked;
  }

  lemma AllSolved(sig: Signature, resolved: Resolved)
    requires SelfSolving(sig, resolved) && resolved.Keys == sig.Keys
    ensures Solves(sig, resolved)
    ensures forall t | t in resolved :: resolved[t] != [] && Distinct(resolved[t])
  {
    hide AllOptions;
    forall t | t in resolved
      ensures Distinct(resolved[t])
    {
      assert Expand(sig[t], resolved) == Some(resolved[t]);
    }
  }

  ghost predicate Stuck(sig: Signature, resolved: Resolved, t: string) {
    t in sig && Expand(sig[t], resolved).None?
  }

  lemma MarkStuck(sig: Signature, resolved: Resolved, t: string)
    requires t in sig && Expand(sig[t], resolved).None?
    ensures Stuck(sig, resolved, t)
  {}

  lemma StuckIsUnresolvable(sig: Signature, pending: Signature, resolved: Resolved, rank: map<string, nat>)
    requires Partial(sig, pending, resolved, rank) && |pending| > 0
    requires forall t | t in pending :: Stuck(sig, resolved, t)
    ensures !Resolvable(sig)
  {
    assert pending.Keys != {};
    var t :| t in pending;
    forall u | u in sig && u !in resolved
      ensures Expand(sig[u], resolved).None?
    {
      PendingIs(sig, pending, resolved, rank, u);
      assert Stuck(sig, resolved, u);
    }
    assert Stuck(sig, resolved, t);
    PendingIs(sig, pending, resolved, rank, t);
    forall rank' | Ranked(sig, rank')
      ensures false
    {
      StuckIsUnranked(sig, resolved, rank', t);
    }
  }

  /** One pass over the pending tensors in declaration order, using what the pass itself resolves.
      Without progress nothing changed and every pending tensor is stuck. */
  method ResolvePass(order: seq<string>, sig: Signature, before: Signature, known: Resolved, ghost ranked: map<string, nat>)
    returns (pending: Signature, resolved: Resolved, ghost rank: map<string, nat>, madeProgress: bool)
    requires Partial(sig, before, known, ranked)
    requires forall t :: t in order <==> t in sig
    ensures Partial(sig, pending, resolved, rank)
    ensures if madeProgress then |pending| < |before| else pending == before
    ensures !madeProgress ==> forall t | t in pending :: Stuck(sig, resolved, t)
  {
    hide Partial, Expand, Stuck, Without;
    pending, resolved, rank, madeProgress := before, known, ranked, false;
    for k := 0 to |order|
      invariant Partial(sig, pending, resolved, rank)
      invariant if madeProgress then |pending| < |before| else pending == before
      invariant !madeProgress ==> forall j | 0 <= j < k && order[j] in pending :: Stuck(sig, resolved, order[j])
    {
      var t := order[k];
      if t in pending {
        PendingIs(sig, pending, resolved, rank, t);
        var opts := OptionsForTensor(pending[t], resolved);
        if opts.None? {
          MarkStuck(sig, resolved, t);
        } else {
          ResolveOne(sig, pending, resolved, rank, t, opts.value);
          RemoveOne(pending, t);
          resolved := resolved[t := opts.value];
          rank := rank[t := |rank|];
          pending := Without(pending, t);
          madeProgress := true;
        }
      }
    }
    if !madeProgress {
      forall t | t in pending
        ensures Stuck(sig, resolved, t)
      {
        PendingIs(sig, pending, resolved, rank, t);
        assert t in order;
      }
    }
  }

  /** Resolves a signature declared in the given order. Some exactly for resolvable signatures,
      and then the unique solution, whatever the order; the pass bound is never exhausted. */
  method ResolveOptions(order: seq<string>, sig: Signature) returns (r: Option<Resolved>)
    requires forall t :: t in order <==> t in sig
    ensures r.Some? <==> Resolvable(sig)
    ensures r.Some? ==> Solves(sig, r.value)
    ensures r.Some? ==> forall t | t in r.value :: r.value[t] != [] && Distinct(r.value[t])
  {
    hide Partial, Expand, Resolvable, Solves, Stuck;
    var pending := sig;
    var resolved: Resolved := map[];
    ghost var rank: map<string, nat> := map[];
    Initial(sig);
    var bound := |pending| + 1;
    for pass := 0 to bound
      invariant Partial(sig, pending, resolved, rank)
      invariant |pending| <= bound - 1 - pass
      invariant pass > 0 ==> |pending| > 0
    {
      var madeProgress;
      pending, resolved, rank, madeProgress := ResolvePass(order, sig, pending, resolved, rank);
      if |pending| == 0 {
        ResolvedSolves(sig, pending, resolved, rank);
        return Some(resolved);
      }
      if !madeProgress {
        StuckIsUnresolvable(sig, pending, resolved, rank);
        return None;
      }
    }
    assert false;
    r := None;
  }

  /** A declared tensor; its dtype is absent when its attributes are not a mapping. */
  datatype Decl = Decl(name: string, dtype: Option<Expr>)

  /** A later declaration of a name replaces the earlier expression. */
  function Declared(decls: seq<Decl>): Signature {
    if decls == [] then map[]
    else
      var last := decls[|decls| - 1];
      var sig := Declared(decls[..|decls| - 1]);
      if last.dtype.Some? then sig[last.name := last.dtype.value] else sig
  }

  ghost predicate Readable(decls: seq<Decl>) {
    forall d | d in decls :: d.dtype.Some?
  }

  /** Options for every declared tensor. None exactly when some declaration is unreadable or the
      signature is not resolvable. */
  method ResolveTensorDtypeOptions(inputs: seq<Decl>, outputs: seq<Decl>) returns (r: Option<Resolved>)
    ensures r.Some? <==> Readable(inputs + outputs) && Resolvable(Declared(inputs + outputs))
    ensures r.Some? ==> Solves(Declared(inputs + outputs), r.value)
    ensures r.Some? ==> forall t | t in r.value :: r.value[t] != [] && Distinct(r.value[t])
  {
    hide Resolvable, Solves;
    var decls := inputs + outputs;
    var pending: Signature := map[];
    var order: seq<string> := [];
    for i := 0 to |decls|
      invariant pending == Declared(decls[..i])
      invariant forall t :: t in order <==> t in pending
      invariant forall j | 0 <= j < i :: decls[j].dtype.Some?
    {
      assert decls[..i + 1][..i] == decls[..i];
      var d := decls[i];
      if d.dtype.None? {
        assert d in decls;
        return None;
      }
      if d.name !in pending {
        order := order + [d.name];
      }
      pending := pending[d.name := d.dtype.value];
    }
    assert decls[..|decls|] == decls;
    r := ResolveOptions(order, pending);
  }

  /** Two declaration orders of one signature resolve to the same options: those it means. */
  lemma SolutionUnique(sig: Signature, m: Resolved, m': Resolved)
    requires Resolvable(sig) && Solves(sig, m) && Solves(sig, m')
    ensures m == m'
  {
    hide Ranked, Expand, Meaning;
    assert exists rank :: Ranked(sig, rank);
    var rank :| Ranked(sig, rank);
    forall t | t in sig
      ensures m[t] == m'[t]
    {
      SolutionIsMeaning(sig, rank, m, t);
      SolutionIsMeaning(sig, rank, m', t);
    }
  }

  /** In a resolved signature every tensor has exactly the names its tokens offer. */
  lemma {:induction false} ResolvedOffers(sig: Signature, m: Resolved, t: string, d: string)
    requires Solves(sig, m) && t in sig
    ensures d in m[t] <==> exists i :: 0 <= i < |sig[t]| && Offers(sig[t][i], m, d)
  {
    hide Offers, Expand;
    ExpandOffers(sig[t], m, d);
  }
}
