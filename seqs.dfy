/** Sequence facts shared by the selector and the graph builders. */
module Seqs {

  predicate Distinct<T(==)>(s: seq<T>)
  {
    forall i, j :: 0 <= i < j < |s| ==> s[i] != s[j]
  }

  /** A sequence is empty exactly when nothing is in it. */
  lemma EmptyIffNoMembers<T>(s: seq<T>)
    ensures s == [] <==> forall x :: x !in s
  {
    if s != [] {
      assert s[0] in s;
    }
  }

  /** Position of the first occurrence of `x`. */
  function FirstIndex<T(==)>(s: seq<T>, x: T): (j: nat)
    requires x in s
    ensures j < |s| && s[j] == x && forall k :: 0 <= k < j ==> s[k] != x
  {
    if s[0] == x then 0 else 1 + FirstIndex(s[1..], x)
  }

  /** The first occurrence is the one no earlier position matches. */
  lemma FirstIndexIs<T>(s: seq<T>, x: T, j: nat)
    requires j < |s| && s[j] == x && forall k :: 0 <= k < j ==> s[k] != x
    ensures FirstIndex(s, x) == j
  {
  }

  /** Appending an element moves no first occurrence of the elements already
      there, and a new element first occurs at the end. */
  lemma FirstIndexSnoc<T>(init: seq<T>, last: T)
    ensures forall x :: x in init ==> FirstIndex(init + [last], x) == FirstIndex(init, x)
    ensures last !in init ==> FirstIndex(init + [last], last) == |init|
  {
    var s := init + [last];
    forall x | x in init ensures FirstIndex(s, x) == FirstIndex(init, x) {
      var j := FirstIndex(init, x);
      assert s[j] == x && forall k :: 0 <= k < j ==> s[k] == init[k];
      FirstIndexIs(s, x, j);
    }
    if last !in init {
      assert forall k :: 0 <= k < |init| ==> s[k] == init[k];
      FirstIndexIs(s, last, |init|);
    }
  }

  /** `a` is `b` with some elements left out, order kept. */
  predicate IsSubsequence<T(==)>(a: seq<T>, b: seq<T>)
    decreases |b|
  {
    if |a| == 0 then true
    else if |b| == 0 then false
    else (a[|a| - 1] == b[|b| - 1] && IsSubsequence(a[..|a| - 1], b[..|b| - 1]))
         || IsSubsequence(a, b[..|b| - 1])
  }

  lemma {:induction false} SubsequenceMembers<T>(a: seq<T>, b: seq<T>)
    requires IsSubsequence(a, b)
    ensures forall x :: x in a ==> x in b
    decreases |b|
  {
    if |a| > 0 {
      if a[|a| - 1] == b[|b| - 1] && IsSubsequence(a[..|a| - 1], b[..|b| - 1]) {
        SubsequenceMembers(a[..|a| - 1], b[..|b| - 1]);
        assert a == a[..|a| - 1] + [a[|a| - 1]];
        assert b == b[..|b| - 1] + [b[|b| - 1]];
      } else {
        SubsequenceMembers(a, b[..|b| - 1]);
        assert b == b[..|b| - 1] + [b[|b| - 1]];
      }
    }
  }

  /** Leaving elements out of a duplicate-free sequence keeps it duplicate-free. */
  lemma {:induction false} SubsequenceDistinct<T>(a: seq<T>, b: seq<T>)
    requires IsSubsequence(a, b) && Distinct(b)
    ensures Distinct(a)
    decreases |b|
  {
    if |a| > 0 {
      var b' := b[..|b| - 1];
      assert Distinct(b');
      if a[|a| - 1] == b[|b| - 1] && IsSubsequence(a[..|a| - 1], b') {
        var a' := a[..|a| - 1];
        SubsequenceDistinct(a', b');
        SubsequenceMembers(a', b');
        assert b[|b| - 1] !in b';
        forall i, j | 0 <= i < j < |a| ensures a[i] != a[j] {
          if j == |a| - 1 {
            assert a[i] in a';
          } else {
            assert a[i] == a'[i] && a[j] == a'[j];
          }
        }
      } else {
        SubsequenceDistinct(a, b');
      }
    }
  }

  /** `s` with its first occurrence of `x` taken out (Python's `list.remove`). */
  function RemoveFirst<T(==)>(s: seq<T>, x: T): (r: seq<T>)
    ensures x in s ==> |r| == |s| - 1
    ensures x !in s ==> r == s
  {
    if |s| == 0 then []
    else if s[0] == x then s[1..] else [s[0]] + RemoveFirst(s[1..], x)
  }

  lemma {:induction false} RemoveFirstMultiset<T>(s: seq<T>, x: T)
    ensures multiset(RemoveFirst(s, x)) == multiset(s) - multiset{x}
  {
    if |s| > 0 {
      assert s == [s[0]] + s[1..];
      if s[0] != x {
        RemoveFirstMultiset(s[1..], x);
      }
    }
  }

  /** When `j` is the first position of `x`, removing the first `x` cuts out position `j`. */
  lemma {:induction false} RemoveFirstAt<T>(s: seq<T>, x: T, j: nat)
    requires j < |s| && s[j] == x && forall k :: 0 <= k < j ==> s[k] != x
    ensures RemoveFirst(s, x) == s[..j] + s[j + 1..]
    decreases j
  {
    if j == 0 {
      assert s == [s[0]] + s[1..];
    } else {
      var t := s[1..];
      RemoveFirstAt(t, x, j - 1);
      assert RemoveFirst(s, x) == [s[0]] + RemoveFirst(t, x);
      assert s[..j] + s[j + 1..] == [s[0]] + (t[..j - 1] + t[j..]);
    }
  }

  lemma {:induction false} SubsequenceReflexive<T>(s: seq<T>)
    ensures IsSubsequence(s, s)
    decreases |s|
  {
    if |s| > 0 {
      SubsequenceReflexive(s[..|s| - 1]);
    }
  }

  /** Cutting out one position leaves a subsequence. */
  lemma {:induction false} CutIsSubsequence<T>(s: seq<T>, j: nat)
    requires j < |s|
    ensures IsSubsequence(s[..j] + s[j + 1..], s)
    decreases |s|
  {
    var a := s[..j] + s[j + 1..];
    if j == |s| - 1 {
      assert a == s[..|s| - 1];
      SubsequenceReflexive(s[..|s| - 1]);
      if |a| == 0 {
      } else {
        assert IsSubsequence(a, s[..|s| - 1]);
      }
    } else {
      var s' := s[..|s| - 1];
      CutIsSubsequence(s', j);
      assert a[..|a| - 1] == s'[..j] + s'[j + 1..];
      assert a[|a| - 1] == s[|s| - 1];
    }
  }

  /** A duplicate-free sequence has as many distinct elements as entries. */
  lemma {:induction false} DistinctCard<T>(s: seq<T>)
    requires Distinct(s)
    ensures |set x | x in s| == |s|
    decreases |s|
  {
    if |s| > 0 {
      var s' := s[..|s| - 1];
      assert s == s' + [s[|s| - 1]];
      assert Distinct(s');
      DistinctCard(s');
      assert (set x | x in s) == (set x | x in s') + {s[|s| - 1]};
      assert s[|s| - 1] !in (set x | x in s');
    } else {
      assert (set x | x in s) == {};
    }
  }

  /** A duplicate-free sequence holds each of its elements exactly once. */
  lemma {:induction false} DistinctCount<T>(s: seq<T>, x: T)
    requires Distinct(s) && x in s
    ensures multiset(s)[x] == 1
    decreases |s|
  {
    var s' := s[..|s| - 1];
    assert s == s' + [s[|s| - 1]];
    assert Distinct(s');
    if s[|s| - 1] == x {
      assert x !in s';
    } else {
      DistinctCount(s', x);
    }
  }
}
