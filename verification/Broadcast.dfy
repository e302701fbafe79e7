/** Shape broadcasting: the n-ary broadcast is the least upper bound of the order
    "src can be broadcast to dst". Dimensions are any integers, zero included. */
module Broadcast {
  import opened Wrappers

  type Shape = seq<int>

  /** The unidirectional check: src has no more dimensions than dst, and each of them, aligned
      from the right, is 1 or dst's. */
  predicate BroadcastableTo(src: Shape, dst: Shape) {
    && |src| <= |dst|
    && var offset := |dst| - |src|;
       forall i | 0 <= i < |src| :: src[i] == dst[offset + i] || src[i] == 1
  }

  /** Dimension k counted from the right; a missing one acts as 1. */
  function FromRight(s: Shape, k: nat): int {
    if k < |s| then s[|s| - 1 - k] else 1
  }

  lemma BroadcastableFromRight(src: Shape, dst: Shape)
    ensures BroadcastableTo(src, dst)
       <==> |src| <= |dst| && forall k: nat | k < |src| :: FromRight(src, k) == 1 || FromRight(src, k) == FromRight(dst, k)
  {
    if |src| <= |dst| && forall k: nat | k < |src| :: FromRight(src, k) == 1 || FromRight(src, k) == FromRight(dst, k) {
      forall i | 0 <= i < |src|
        ensures src[i] == dst[|dst| - |src| + i] || src[i] == 1
      {
        assert FromRight(src, |src| - 1 - i) == src[i];
      }
    }
  }

  ghost predicate UpperBound(shapes: seq<Shape>, u: Shape) {
    forall s | s in shapes :: BroadcastableTo(s, u)
  }

  ghost predicate LeastUpperBound(shapes: seq<Shape>, r: Shape) {
    && UpperBound(shapes, r)
    && forall u | UpperBound(shapes, u) :: BroadcastableTo(r, u)
  }

  /** dim is what the first n shapes say about axis k from the right: all of them say 1 or dim. */
  ghost predicate Joined(shapes: seq<Shape>, n: nat, k: nat, dim: int)
    requires n <= |shapes|
  {
    && (forall j | 0 <= j < n :: FromRight(shapes[j], k) == 1 || FromRight(shapes[j], k) == dim)
    && (dim != 1 ==> exists j :: 0 <= j < n && FromRight(shapes[j], k) == dim)
  }

  lemma ConflictHasNoBound(shapes: seq<Shape>, i: nat, j: nat, k: nat, u: Shape)
    requires i < |shapes| && j < |shapes|
    requires FromRight(shapes[i], k) != 1 && FromRight(shapes[j], k) != 1
    requires FromRight(shapes[i], k) != FromRight(shapes[j], k)
    ensures !UpperBound(shapes, u)
  {
    BroadcastableFromRight(shapes[i], u);
    BroadcastableFromRight(shapes[j], u);
    assert shapes[i] in shapes && shapes[j] in shapes;
  }

  method MaxRank(shapes: seq<Shape>) returns (ndim: nat)
    ensures forall s | s in shapes :: |s| <= ndim
    ensures if shapes == [] then ndim == 0 else exists s :: s in shapes && |s| == ndim
  {
    ndim := 0;
    for i := 0 to |shapes|
      invariant forall j | 0 <= j < i :: |shapes[j]| <= ndim
      invariant if i == 0 then ndim == 0 else exists j :: 0 <= j < i && |shapes[j]| == ndim
    {
      if |shapes[i]| > ndim {
        ndim := |shapes[i]|;
      }
    }
  }

  lemma JoinedIsLeast(shapes: seq<Shape>, ndim: nat, out: Shape)
    requires |out| == ndim && forall s | s in shapes :: |s| <= ndim
    requires if shapes == [] then ndim == 0 else exists s :: s in shapes && |s| == ndim
    requires forall k: nat | k < ndim :: Joined(shapes, |shapes|, k, FromRight(out, k))
    ensures LeastUpperBound(shapes, out)
  {
    forall s | s in shapes
      ensures BroadcastableTo(s, out)
    {
      BroadcastableFromRight(s, out);
    }
    forall u | UpperBound(shapes, u)
      ensures BroadcastableTo(out, u)
    {
      forall k: nat | k < ndim
        ensures FromRight(out, k) == 1 || FromRight(out, k) == FromRight(u, k)
      {
        assert Joined(shapes, |shapes|, k, FromRight(out, k));
        if FromRight(out, k) != 1 {
          var j :| 0 <= j < |shapes| && FromRight(shapes[j], k) == FromRight(out, k);
          BroadcastableFromRight(shapes[j], u);
        }
      }
      BroadcastableFromRight(out, u);
    }
  }

  /** The n-ary broadcast: the least shape every argument broadcasts to. None exactly when the
      arguments have no common upper bound. */
  method BroadcastShapes(shapes: seq<Shape>) returns (r: Option<Shape>)
    ensures r.Some? ==> LeastUpperBound(shapes, r.value)
    ensures r.None? ==> forall u :: !UpperBound(shapes, u)
  {
    var ndim := MaxRank(shapes);
    var out: Shape := [];
    for axis := 0 to ndim
      invariant |out| == axis
      invariant forall a | 0 <= a < axis :: Joined(shapes, |shapes|, ndim - 1 - a, out[a])
    {
      var dim := 1;
      ghost var k: nat := ndim - 1 - axis;
      for j := 0 to |shapes|
        invariant Joined(shapes, j, k, dim)
      {
        var s := shapes[j];
        var i := |s| - ndim + axis;
        if i >= 0 {
          assert s in shapes;
          var d := s[i];
          assert d == FromRight(s, k);
          if d != 1 && d != dim {
            if dim == 1 {
              dim := d;
            } else {
              ghost var other :| 0 <= other < j && FromRight(shapes[other], k) == dim;
              forall u
                ensures !UpperBound(shapes, u)
              {
                ConflictHasNoBound(shapes, other, j, k, u);
              }
              return None;
            }
          }
        }
      }
      out := out + [dim];
    }
    forall k: nat | k < ndim
      ensures Joined(shapes, |shapes|, k, FromRight(out, k))
    {
      assert Joined(shapes, |shapes|, ndim - 1 - (ndim - 1 - k), out[ndim - 1 - k]);
    }
    JoinedIsLeast(shapes, ndim, out);
    r := Some(out);
  }

  // ----------------------------------------------------- what being least gives

  lemma BroadcastableReflexive(s: Shape)
    ensures BroadcastableTo(s, s)
  {}

  lemma BroadcastableTransitive(a: Shape, b: Shape, c: Shape)
    requires BroadcastableTo(a, b) && BroadcastableTo(b, c)
    ensures BroadcastableTo(a, c)
  {
    BroadcastableFromRight(a, b);
    BroadcastableFromRight(b, c);
    BroadcastableFromRight(a, c);
  }

  lemma BroadcastableAntisymmetric(a: Shape, b: Shape)
    requires BroadcastableTo(a, b) && BroadcastableTo(b, a)
    ensures a == b
  {
    assert forall i | 0 <= i < |a| :: a[i] == b[0 + i];
  }

  /** Only the set of arguments matters: any order, any repetition. */
  lemma OrderIrrelevant(a: seq<Shape>, b: seq<Shape>, r: Shape, r': Shape)
    requires forall s :: s in a <==> s in b
    requires LeastUpperBound(a, r) && LeastUpperBound(b, r')
    ensures r == r'
  {
    assert UpperBound(a, r') && UpperBound(b, r);
    BroadcastableAntisymmetric(r, r');
  }

  /** Broadcasting a group first and its result with the rest has the same bounds and the same result. */
  lemma GroupingIrrelevant(a: seq<Shape>, b: seq<Shape>, ra: Shape, r: Shape)
    requires LeastUpperBound(a, ra)
    ensures (exists u :: UpperBound([ra] + b, u)) <==> (exists u :: UpperBound(a + b, u))
    ensures LeastUpperBound([ra] + b, r) <==> LeastUpperBound(a + b, r)
  {
    forall u
      ensures UpperBound([ra] + b, u) <==> UpperBound(a + b, u)
    {
      GroupBounds(a, b, ra, u);
    }
  }

  lemma GroupBounds(a: seq<Shape>, b: seq<Shape>, ra: Shape, u: Shape)
    requires LeastUpperBound(a, ra)
    ensures UpperBound([ra] + b, u) <==> UpperBound(a + b, u)
  {
    if UpperBound([ra] + b, u) {
      forall s | s in a + b
        ensures BroadcastableTo(s, u)
      {
        if s in a {
          assert ra in [ra] + b;
          BroadcastableTransitive(s, ra, u);
        } else {
          assert s in [ra] + b;
        }
      }
    }
    if UpperBound(a + b, u) {
      assert forall s | s in a :: s in a + b;
      assert UpperBound(a, u);
      assert forall s | s in b :: s in a + b;
    }
  }

  /** The unidirectional check is broadcasting the two and getting the destination back. */
  lemma BroadcastableIsJoin(src: Shape, dst: Shape)
    ensures BroadcastableTo(src, dst) <==> LeastUpperBound([src, dst], dst)
  {
    BroadcastableReflexive(dst);
    assert src in [src, dst] && dst in [src, dst];
  }
}
