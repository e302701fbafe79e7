/** Sorting by a total order, with what the timing layer needs to know about sorted lists. */
module Sorting {

  ghost predicate TotalOrder<T(!new)>(leq: (T, T) -> bool) {
    && (forall a, b :: leq(a, b) || leq(b, a))
    && (forall a, b, c :: leq(a, b) && leq(b, c) ==> leq(a, c))
  }

  ghost predicate Sorted<T>(leq: (T, T) -> bool, s: seq<T>) {
    forall i, j | 0 <= i < j < |s| :: leq(s[i], s[j])
  }

  function Insert<T>(leq: (T, T) -> bool, x: T, s: seq<T>): (r: seq<T>)
    ensures multiset(r) == multiset(s) + multiset{x} && |r| == |s| + 1
  {
    if s == [] then [x]
    else
      assert s == [s[0]] + s[1..];
      if leq(x, s[0]) then [x] + s else [s[0]] + Insert(leq, x, s[1..])
  }

  function Sort<T>(leq: (T, T) -> bool, s: seq<T>): (r: seq<T>)
    ensures multiset(r) == multiset(s) && |r| == |s|
  {
    if s == [] then []
    else
      assert s == s[..|s| - 1] + [s[|s| - 1]];
      Insert(leq, s[|s| - 1], Sort(leq, s[..|s| - 1]))
  }

  lemma SameElements<T>(a: seq<T>, b: seq<T>)
    requires multiset(a) == multiset(b)
    ensures forall k :: k in a <==> k in b
  {
    forall k
      ensures k in a <==> k in b
    {
      assert k in a <==> k in multiset(a);
      assert k in b <==> k in multiset(b);
    }
  }

  lemma {:induction false} InsertElements<T>(leq: (T, T) -> bool, x: T, s: seq<T>, k: T)
    ensures k in Insert(leq, x, s) <==> k == x || k in s
  {
    assert k in Insert(leq, x, s) <==> k in multiset(Insert(leq, x, s));
    assert k in s <==> k in multiset(s);
  }

  lemma SortedCons<T>(leq: (T, T) -> bool, x: T, s: seq<T>)
    requires Sorted(leq, s) && forall k | k in s :: leq(x, k)
    ensures Sorted(leq, [x] + s)
  {
    forall i, j | 0 <= i < j < |s| + 1
      ensures leq(([x] + s)[i], ([x] + s)[j])
    {
      assert ([x] + s)[j] == s[j - 1];
    }
  }

  lemma {:induction false} InsertSorts<T(!new)>(leq: (T, T) -> bool, x: T, s: seq<T>)
    requires TotalOrder(leq) && Sorted(leq, s)
    ensures Sorted(leq, Insert(leq, x, s))
  {
    if s == [] {
    } else if leq(x, s[0]) {
      SortedCons(leq, x, s);
    } else {
      var rest := Insert(leq, x, s[1..]);
      InsertSorts(leq, x, s[1..]);
      forall k | k in rest
        ensures leq(s[0], k)
      {
        InsertElements(leq, x, s[1..], k);
      }
      SortedCons(leq, s[0], rest);
    }
  }

  lemma {:induction false} SortSorts<T(!new)>(leq: (T, T) -> bool, s: seq<T>)
    requires TotalOrder(leq)
    ensures Sorted(leq, Sort(leq, s))
  {
    if s != [] {
      SortSorts(leq, s[..|s| - 1]);
      InsertSorts(leq, s[|s| - 1], Sort(leq, s[..|s| - 1]));
    }
  }

  ghost predicate Antisymmetric<T(!new)>(leq: (T, T) -> bool) {
    forall a, b :: leq(a, b) && leq(b, a) ==> a == b
  }

  lemma FirstIsLeast<T>(leq: (T, T) -> bool, s: seq<T>, k: T)
    requires Sorted(leq, s) && k in s && leq(s[0], s[0])
    ensures leq(s[0], k)
  {
    var i :| 0 <= i < |s| && s[i] == k;
  }

  lemma SameFirst<T(!new)>(leq: (T, T) -> bool, a: seq<T>, b: seq<T>)
    requires TotalOrder(leq) && Antisymmetric(leq) && Sorted(leq, a) && Sorted(leq, b)
    requires a != [] && b != [] && multiset(a) == multiset(b)
    ensures a[0] == b[0]
  {
    hide Sorted;
    SameElements(a, b);
    assert a[0] in a && b[0] in b;
    FirstIsLeast(leq, a, b[0]);
    FirstIsLeast(leq, b, a[0]);
  }

  lemma SortedTail<T>(leq: (T, T) -> bool, s: seq<T>)
    requires s != [] && Sorted(leq, s)
    ensures Sorted(leq, s[1..]) && multiset(s[1..]) == multiset(s) - multiset{s[0]}
  {
    assert s == [s[0]] + s[1..];
  }

  /** There is one way to sort a list. */
  lemma {:induction false} SortedUnique<T(!new)>(leq: (T, T) -> bool, a: seq<T>, b: seq<T>)
    requires TotalOrder(leq) && Antisymmetric(leq) && Sorted(leq, a) && Sorted(leq, b) && multiset(a) == multiset(b)
    ensures a == b
  {
    hide TotalOrder, Antisymmetric, Sorted;
    assert |multiset(a)| == |a| && |multiset(b)| == |b|;
    if a != [] {
      SameFirst(leq, a, b);
      SortedTail(leq, a);
      SortedTail(leq, b);
      SortedUnique(leq, a[1..], b[1..]);
      assert a == [a[0]] + a[1..] && b == [b[0]] + b[1..];
    }
  }

  // ------------------------------------------------------------- pointwise bounds

  ghost predicate Below<T>(leq: (T, T) -> bool, a: seq<T>, b: seq<T>) {
    |a| == |b| && forall i | 0 <= i < |a| :: leq(a[i], b[i])
  }

  lemma BelowCons<T>(leq: (T, T) -> bool, x: T, a: seq<T>, y: T, b: seq<T>)
    requires leq(x, y) && Below(leq, a, b)
    ensures Below(leq, [x] + a, [y] + b)
  {}

  lemma BelowTail<T>(leq: (T, T) -> bool, a: seq<T>, b: seq<T>)
    requires Below(leq, a, b) && a != []
    ensures leq(a[0], b[0]) && Below(leq, a[1..], b[1..])
  {}

  lemma {:induction false} InsertFirst<T>(leq: (T, T) -> bool, s: seq<T>)
    requires Sorted(leq, s) && s != []
    ensures Insert(leq, s[0], s[1..]) == s && Sorted(leq, s[1..])
  {
    assert s == [s[0]] + s[1..];
    if |s| > 1 {
      assert leq(s[0], s[1]);
    }
  }

  /** Inserting a smaller value into a pointwise smaller sorted list gives a pointwise smaller list. */
  lemma {:induction false} InsertBelow<T(!new)>(leq: (T, T) -> bool, x: T, a: seq<T>, y: T, b: seq<T>)
    requires TotalOrder(leq) && Sorted(leq, a) && Sorted(leq, b)
    requires leq(x, y) && Below(leq, a, b)
    ensures Below(leq, Insert(leq, x, a), Insert(leq, y, b))
  {
    if a != [] {
      BelowTail(leq, a, b);
      InsertFirst(leq, a);
      InsertFirst(leq, b);
      if leq(x, a[0]) {
        if leq(y, b[0]) {
          BelowCons(leq, x, a, y, b);
        } else {
          InsertBelow(leq, a[0], a[1..], y, b[1..]);
          BelowCons(leq, x, a, b[0], Insert(leq, y, b[1..]));
        }
      } else if leq(y, b[0]) {
        InsertBelow(leq, x, a[1..], b[0], b[1..]);
        BelowCons(leq, a[0], Insert(leq, x, a[1..]), y, b);
      } else {
        InsertBelow(leq, x, a[1..], y, b[1..]);
        BelowCons(leq, a[0], Insert(leq, x, a[1..]), b[0], Insert(leq, y, b[1..]));
      }
    }
  }

  /** Sorting keeps a pointwise bound, although it may reorder the two lists differently. */
  lemma {:induction false} SortBelow<T(!new)>(leq: (T, T) -> bool, a: seq<T>, b: seq<T>)
    requires TotalOrder(leq) && Below(leq, a, b)
    ensures Below(leq, Sort(leq, a), Sort(leq, b))
  {
    if a != [] {
      var n := |a| - 1;
      SortBelow(leq, a[..n], b[..n]);
      SortSorts(leq, a[..n]);
      SortSorts(leq, b[..n]);
      InsertBelow(leq, a[n], Sort(leq, a[..n]), b[n], Sort(leq, b[..n]));
    }
  }
}
