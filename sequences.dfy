/**
 * Sequences: list facts shared by the search and schema models — no repetition, the index of
 * a first occurrence, and removing repeats while keeping first occurrences in order (what
 * Java's Stream.distinct and Collectors.groupingBy over a list preserve).
 */
module Sequences {
  /** The elements of a list are pairwise different. */
  ghost predicate Distinct<T>(xs: seq<T>) {
    forall i, j :: 0 <= i < j < |xs| ==> xs[i] != xs[j]
  }

  /** The number of occurrences of x. */
  function Count<T(==)>(xs: seq<T>, x: T): (n: nat)
    ensures n == multiset(xs)[x]
    ensures n <= |xs|
  {
    if xs == [] then 0
    else
      assert xs == xs[..|xs| - 1] + [xs[|xs| - 1]];
      Count(xs[..|xs| - 1], x) + (if xs[|xs| - 1] == x then 1 else 0)
  }

  /** The position of the first occurrence of x. */
  function FirstIndex<T(==)>(xs: seq<T>, x: T): (i: nat)
    requires x in xs
    ensures i < |xs| && xs[i] == x && x !in xs[..i]
  {
    if xs[0] == x then 0
    else
      var j := FirstIndex(xs[1..], x);
      assert xs[1..][..j] == xs[1..j + 1];
      assert xs[..j + 1] == [xs[0]] + xs[1..j + 1];
      j + 1
  }

  /** The first occurrence is determined by the list: a prefix that contains x has the same one. */
  lemma FirstIndexPrefix<T>(xs: seq<T>, n: nat, x: T)
    requires n <= |xs| && x in xs[..n]
    ensures FirstIndex(xs[..n], x) == FirstIndex(xs, x)
  {
    var i := FirstIndex(xs[..n], x);
    var j := FirstIndex(xs, x);
    assert xs[..n][..i] == xs[..i];
  }

  /** t is a (not necessarily contiguous) subsequence of s. */
  predicate IsSubsequence<T(==)>(t: seq<T>, s: seq<T>)
    decreases |s|
  {
    if t == [] then true
    else if s == [] then false
    else if t[|t| - 1] == s[|s| - 1] then IsSubsequence(t[..|t| - 1], s[..|s| - 1])
    else IsSubsequence(t, s[..|s| - 1])
  }

  /** Appending to s keeps t a subsequence of it. */
  lemma {:induction false} SubsequenceExtend<T>(t: seq<T>, s: seq<T>, x: T)
    requires IsSubsequence(t, s)
    ensures IsSubsequence(t, s + [x])
    decreases |s|, 1
  {
    assert (s + [x])[..|s|] == s;
    if t != [] && t[|t| - 1] == x {
      SubsequenceShrink(t, s);
    }
  }

  /** Appending the same element to both keeps t a subsequence of s. */
  lemma SubsequenceSnoc<T>(t: seq<T>, s: seq<T>, x: T)
    requires IsSubsequence(t, s)
    ensures IsSubsequence(t + [x], s + [x])
  {
    assert (t + [x])[..|t|] == t;
    assert (s + [x])[..|s|] == s;
  }

  /** Dropping the last element of t keeps it a subsequence of s. */
  lemma {:induction false} SubsequenceShrink<T>(t: seq<T>, s: seq<T>)
    requires t != [] && IsSubsequence(t, s)
    ensures IsSubsequence(t[..|t| - 1], s)
    decreases |s|, 0
  {
    var s' := s[..|s| - 1];
    assert s' + [s[|s| - 1]] == s;
    if t[|t| - 1] == s[|s| - 1] {
      SubsequenceExtend(t[..|t| - 1], s', s[|s| - 1]);
    } else {
      SubsequenceShrink(t, s');
      SubsequenceExtend(t[..|t| - 1], s', s[|s| - 1]);
    }
  }

  /** Every list is a subsequence of itself. */
  lemma {:induction false} SubsequenceReflexive<T>(s: seq<T>)
    ensures IsSubsequence(s, s)
  {
    if s != [] {
      SubsequenceReflexive(s[..|s| - 1]);
    }
  }

  /** The elements of a subsequence are elements of the whole. */
  lemma {:induction false} SubsequenceMembers<T>(t: seq<T>, s: seq<T>)
    requires IsSubsequence(t, s)
    ensures forall x :: x in t ==> x in s
    decreases |s|
  {
    if t != [] {
      var s' := s[..|s| - 1];
      assert s == s' + [s[|s| - 1]];
      if t[|t| - 1] == s[|s| - 1] {
        SubsequenceMembers(t[..|t| - 1], s');
        assert t == t[..|t| - 1] + [t[|t| - 1]];
      } else {
        SubsequenceMembers(t, s');
      }
    }
  }

  /**
   * A subsequence of a list whose elements appear in increasing order of first occurrence in
   * xs keeps that order.
   */
  lemma {:induction false} SubsequenceKeepsOrder<T>(t: seq<T>, s: seq<T>, xs: seq<T>)
    requires IsSubsequence(t, s)
    requires forall x :: x in s ==> x in xs
    requires forall i, j :: 0 <= i < j < |s| ==> FirstIndex(xs, s[i]) < FirstIndex(xs, s[j])
    ensures forall i, j :: 0 <= i < j < |t| ==> t[i] in xs && t[j] in xs && FirstIndex(xs, t[i]) < FirstIndex(xs, t[j])
    decreases |s|
  {
    if t != [] {
      var s' := s[..|s| - 1];
      assert s == s' + [s[|s| - 1]];
      SubsequenceMembers(t, s);
      if t[|t| - 1] == s[|s| - 1] {
        var t' := t[..|t| - 1];
        SubsequenceKeepsOrder(t', s', xs);
        SubsequenceMembers(t', s');
        forall i, j | 0 <= i < j < |t|
          ensures FirstIndex(xs, t[i]) < FirstIndex(xs, t[j])
        {
          if j == |t| - 1 {
            assert t[i] in t';
            var k :| 0 <= k < |s'| && s'[k] == t[i];
            assert s[k] == t[i];
          } else {
            assert t[i] == t'[i] && t[j] == t'[j];
          }
        }
      } else {
        SubsequenceKeepsOrder(t, s', xs);
      }
    }
  }

  /** The list without repeats: every element at its first occurrence, in order. */
  function Dedup<T(==, !new)>(xs: seq<T>): (r: seq<T>)
    ensures forall x :: x in r <==> x in xs
    ensures Distinct(r)
    ensures |r| <= |xs|
  {
    if xs == [] then []
    else
      var init := xs[..|xs| - 1];
      var last := xs[|xs| - 1];
      assert xs == init + [last];
      if last in init then Dedup(init) else Dedup(init) + [last]
  }

  /** Dedup keeps elements in the order of their first occurrences. */
  lemma {:induction false} DedupFirstAppearance<T(!new)>(xs: seq<T>)
    ensures forall i, j :: 0 <= i < j < |Dedup(xs)| ==> FirstIndex(xs, Dedup(xs)[i]) < FirstIndex(xs, Dedup(xs)[j])
  {
    if xs != [] {
      var n := |xs| - 1;
      var init := xs[..n];
      var last := xs[n];
      DedupFirstAppearance(init);
      var r := Dedup(xs);
      forall i, j | 0 <= i < j < |r|
        ensures FirstIndex(xs, r[i]) < FirstIndex(xs, r[j])
      {
        assert r[i] in init by {
          assert r[i] in Dedup(init);
        }
        FirstIndexPrefix(xs, n, r[i]);
        if j < |Dedup(init)| {
          FirstIndexPrefix(xs, n, r[j]);
        } else {
          assert r[j] == last && last !in init;
          assert FirstIndex(xs, last) == n;
        }
      }
    }
  }

  /** The elements of a set in some order, each once: how a Java collection copies a hash set. */
  method SetToSeq<T>(s: set<T>) returns (xs: seq<T>)
    ensures forall x :: x in xs <==> x in s
    ensures Distinct(xs)
    ensures |xs| == |s|
  {
    xs := [];
    var rest := s;
    while rest != {}
      invariant rest <= s
      invariant forall x :: x in xs <==> x in s - rest
      invariant Distinct(xs)
      invariant |xs| == |s - rest|
      decreases rest
    {
      var x :| x in rest;
      assert s - (rest - {x}) == (s - rest) + {x};
      xs := xs + [x];
      rest := rest - {x};
    }
  }

  /** A reordering of a list without repeats has no repeats. */
  lemma DistinctPermutation<T>(xs: seq<T>, ys: seq<T>)
    requires Distinct(xs) && multiset(xs) == multiset(ys)
    ensures Distinct(ys)
  {
    forall i, j | 0 <= i < j < |ys|
      ensures ys[i] != ys[j]
    {
      if ys[i] == ys[j] {
        assert ys == ys[..i] + [ys[i]] + ys[i + 1..j] + [ys[j]] + ys[j + 1..];
        assert multiset(ys)[ys[i]] >= 2;
        DistinctCount(xs, ys[i]);
      }
    }
  }

  /** In a list without repeats an element occurs at most once. */
  lemma {:induction false} DistinctCount<T>(xs: seq<T>, x: T)
    requires Distinct(xs)
    ensures multiset(xs)[x] <= 1
  {
    if xs != [] {
      var n := |xs| - 1;
      assert xs == xs[..n] + [xs[n]];
      DistinctCount(xs[..n], x);
      assert xs[n] !in xs[..n];
    }
  }

  /** A list without repeats holds each member of its set of members exactly once. */
  lemma DistinctMultiset<T>(xs: seq<T>, s: set<T>)
    requires Distinct(xs)
    requires forall x :: x in xs <==> x in s
    ensures multiset(xs) == multiset(s)
  {
    forall x
      ensures multiset(xs)[x] == multiset(s)[x]
    {
      DistinctCount(xs, x);
    }
  }
}
