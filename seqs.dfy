/** Generic facts about sequences: filtering by a predicate and order-preserving subsequences. */
module Seqs {

  /** The elements of `s` that satisfy `p`, in their original order (a Python list comprehension with an `if`). */
  function Filter<T>(s: seq<T>, p: T -> bool): (r: seq<T>)
    ensures |r| <= |s|
  {
    if |s| == 0 then []
    else Filter(s[..|s| - 1], p) + (if p(s[|s| - 1]) then [s[|s| - 1]] else [])
  }

  /** Exactly the elements satisfying `p` are kept. */
  lemma {:induction false} FilterMembership<T>(s: seq<T>, p: T -> bool, x: T)
    ensures x in Filter(s, p) <==> x in s && p(x)
  {
    if |s| > 0 {
      FilterMembership(s[..|s| - 1], p, x);
      assert s == s[..|s| - 1] + [s[|s| - 1]];
    }
  }

  /** Every element satisfying `p` is kept as often as it occurs, and every other is dropped. */
  lemma {:induction false} FilterMultiset<T>(s: seq<T>, p: T -> bool, x: T)
    ensures multiset(Filter(s, p))[x] == if p(x) then multiset(s)[x] else 0
  {
    if |s| > 0 {
      FilterMultiset(s[..|s| - 1], p, x);
      assert s == s[..|s| - 1] + [s[|s| - 1]];
    }
  }

  /** An element that fails the predicate makes the filtered sequence strictly shorter. */
  lemma {:induction false} FilterShorter<T>(s: seq<T>, p: T -> bool, x: T)
    requires x in s && !p(x)
    ensures |Filter(s, p)| < |s|
  {
    var s' := s[..|s| - 1];
    if s[|s| - 1] != x {
      assert s == s' + [s[|s| - 1]];
      FilterShorter(s', p, x);
    }
  }

  /** Filtering distributes over concatenation. */
  lemma {:induction false} FilterConcat<T>(a: seq<T>, b: seq<T>, p: T -> bool)
    ensures Filter(a + b, p) == Filter(a, p) + Filter(b, p)
  {
    if |b| == 0 {
      assert a + b == a;
    } else {
      var b' := b[..|b| - 1];
      assert (a + b)[..|a + b| - 1] == a + b';
      FilterConcat(a, b', p);
    }
  }

  /** `r` is obtained from `s` by dropping elements, keeping the order, where each kept
      element `r[i]` is related to its original by `same(r[i], original)`. */
  ghost predicate SubseqWith<T>(r: seq<T>, s: seq<T>, same: (T, T) -> bool)
    decreases |s|
  {
    if |s| == 0 then |r| == 0
    else
      || SubseqWith(r, s[..|s| - 1], same)
      || (|r| > 0 && same(r[|r| - 1], s[|s| - 1]) && SubseqWith(r[..|r| - 1], s[..|s| - 1], same))
  }

  /** Plain element equality, the relation for subsequences whose elements are copied unchanged. */
  ghost predicate Identical<T>(a: T, b: T) { a == b }

  /** A filtered sequence is an order-preserving subsequence of its input. */
  lemma {:induction false} FilterIsSubseq<T>(s: seq<T>, p: T -> bool)
    ensures SubseqWith(Filter(s, p), s, Identical)
  {
    if |s| > 0 {
      var s', r := s[..|s| - 1], Filter(s, p);
      FilterIsSubseq(s', p);
      if p(s[|s| - 1]) {
        assert r == Filter(s', p) + [s[|s| - 1]];
        assert r[..|r| - 1] == Filter(s', p);
        assert Identical(r[|r| - 1], s[|s| - 1]);
      } else {
        assert r == Filter(s', p);
      }
    }
  }
}
