/** Lists without repetition, and sizes of sets. */
module Collections {

  ghost predicate Distinct<T>(p: seq<T>) {
    forall i, j | 0 <= i < j < |p| :: p[i] != p[j]
  }

  function Elements<T>(p: seq<T>): set<T> { set x | x in p }

  lemma {:induction false} DistinctSize<T>(path: seq<T>)
    requires Distinct(path)
    ensures |Elements(path)| == |path|
  {
    if path == [] {
      assert Elements(path) == {};
    } else {
      var n := |path| - 1;
      DistinctSize(path[..n]);
      assert Elements(path) == Elements(path[..n]) + {path[n]};
    }
  }

  lemma {:induction false} SubsetSize<T>(a: set<T>, b: set<T>)
    requires a <= b
    ensures |a| <= |b|
  {
    if a != {} {
      var x :| x in a;
      SubsetSize(a - {x}, b - {x});
    }
  }
}
