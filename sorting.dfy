/** Python's `sorted(set(xs))` over a strict total order: the distinct
    elements of `xs` in increasing order. */
module Sorting {
  import Strings

  ghost predicate IsStrictTotalOrder<T(!new)>(lt: (T, T) -> bool)
  {
    && (forall a :: !lt(a, a))
    && (forall a, b, c :: lt(a, b) && lt(b, c) ==> lt(a, c))
    && (forall a, b :: a != b ==> lt(a, b) || lt(b, a))
  }

  /** Sorted and free of duplicates. */
  predicate StrictlyIncreasing<T>(s: seq<T>, lt: (T, T) -> bool)
  {
    forall i, j :: 0 <= i < j < |s| ==> lt(s[i], s[j])
  }

  /** Insert `x` into a strictly increasing sequence, unless it is already there. */
  function Insert<T(==,!new)>(s: seq<T>, x: T, lt: (T, T) -> bool): (r: seq<T>)
    requires IsStrictTotalOrder(lt) && StrictlyIncreasing(s, lt)
    ensures StrictlyIncreasing(r, lt)
    ensures forall y :: y in r <==> y in s || y == x
  {
    if |s| == 0 then [x]
    else if x == s[0] then s
    else if lt(x, s[0]) then [x] + s
    else
      var tail := Insert(s[1..], x, lt);
      assert forall y :: y in tail ==> lt(s[0], y) by {
        forall y | y in tail ensures lt(s[0], y) {
          if y != x {
            var k :| 1 <= k < |s| && s[k] == y;
          }
        }
      }
      [s[0]] + tail
  }

  /** `sorted(set(s))`. */
  function SortedSet<T(==,!new)>(s: seq<T>, lt: (T, T) -> bool): (r: seq<T>)
    requires IsStrictTotalOrder(lt)
    ensures StrictlyIncreasing(r, lt)
    ensures forall y :: y in r <==> y in s
  {
    if |s| == 0 then []
    else
      var init := SortedSet(s[..|s| - 1], lt);
      assert forall y :: y in s <==> y in s[..|s| - 1] || y == s[|s| - 1] by {
        assert s == s[..|s| - 1] + [s[|s| - 1]];
      }
      Insert(init, s[|s| - 1], lt)
  }

  /** A strictly increasing sequence is determined by its elements, so
      SortedSet computes the one and only `sorted(set(s))`. */
  lemma {:induction false} StrictlyIncreasingUnique<T(!new)>(a: seq<T>, b: seq<T>, lt: (T, T) -> bool)
    requires IsStrictTotalOrder(lt)
    requires StrictlyIncreasing(a, lt) && StrictlyIncreasing(b, lt)
    requires forall y :: y in a <==> y in b
    ensures a == b
    decreases |a|
  {
    assert |a| == 0 <==> |b| == 0 by {
      if |a| > 0 { assert a[0] in b; }
      if |b| > 0 { assert b[0] in a; }
    }
    if |a| > 0 {
      assert a[0] in b;
      assert |b| > 0 && b[0] in b;
      assert b[0] in a;
      var k :| 0 <= k < |b| && b[k] == a[0];
      var m :| 0 <= m < |a| && a[m] == b[0];
      assert a[0] == b[0];
      forall y ensures y in a[1..] <==> y in b[1..] {
        if y in a[1..] {
          var i :| 1 <= i < |a| && a[i] == y;
          assert lt(a[0], y);
          assert y in b && y != b[0];
          var j :| 0 <= j < |b| && b[j] == y;
          assert j > 0;
        }
        if y in b[1..] {
          var j :| 1 <= j < |b| && b[j] == y;
          assert lt(b[0], y);
          assert y in a && y != a[0];
          var i :| 0 <= i < |a| && a[i] == y;
          assert i > 0;
        }
      }
      StrictlyIncreasingUnique(a[1..], b[1..], lt);
      assert a == [a[0]] + a[1..] && b == [b[0]] + b[1..];
    }
  }

  predicate IntLess(a: int, b: int) { a < b }

  lemma IntLessIsStrictTotalOrder()
    ensures IsStrictTotalOrder(IntLess)
  {
  }

  lemma StringLessIsStrictTotalOrder()
    ensures IsStrictTotalOrder(Strings.LessThan)
  {
    forall a ensures !Strings.LessThan(a, a) {
      Strings.LessThanIrreflexive(a);
    }
    forall a, b, c | Strings.LessThan(a, b) && Strings.LessThan(b, c)
      ensures Strings.LessThan(a, c)
    {
      Strings.LessThanTransitive(a, b, c);
    }
    forall a, b | a != b ensures Strings.LessThan(a, b) || Strings.LessThan(b, a) {
      Strings.LessThanTotal(a, b);
    }
  }
}
