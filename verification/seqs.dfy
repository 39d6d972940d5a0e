/** Order-preserving filtering and element-wise mapping of sequences
    (`Array.prototype.filter` and `Array.prototype.map`), with the
    subsequence relation that characterises filtering. */
module Seqs {

  /** `s.filter(p)`: the elements satisfying `p`, in their original order. */
  function Filter<T>(p: T -> bool, s: seq<T>): (r: seq<T>)
    ensures |r| <= |s|
  {
    if |s| == 0 then []
    else Filter(p, s[..|s| - 1]) + (if p(s[|s| - 1]) then [s[|s| - 1]] else [])
  }

  /** `s.map(f)`. */
  function Map<T, U>(f: T -> U, s: seq<T>): (r: seq<U>)
    ensures |r| == |s|
    ensures forall i :: 0 <= i < |s| ==> r[i] == f(s[i])
  {
    seq(|s|, i requires 0 <= i < |s| => f(s[i]))
  }

  /** `a` can be obtained from `b` by deleting elements, keeping the order. */
  ghost predicate IsSubsequence<T>(a: seq<T>, b: seq<T>)
    decreases |b|
  {
    || |a| == 0
    || (&& |b| > 0
        && (|| (a[|a| - 1] == b[|b| - 1] && IsSubsequence(a[..|a| - 1], b[..|b| - 1]))
            || IsSubsequence(a, b[..|b| - 1])))
  }

  /** Extending the source keeps a subsequence a subsequence. */
  lemma SubsequenceExtend<T>(a: seq<T>, b: seq<T>, x: T)
    requires IsSubsequence(a, b)
    ensures IsSubsequence(a, b + [x])
    ensures IsSubsequence(a + [x], b + [x])
  {
  }

  /** Filtering keeps the order of `s`. */
  lemma {:induction false} FilterIsSubsequence<T>(p: T -> bool, s: seq<T>)
    ensures IsSubsequence(Filter(p, s), s)
  {
    if |s| > 0 {
      var init, last := s[..|s| - 1], s[|s| - 1];
      FilterIsSubsequence(p, init);
      SubsequenceExtend(Filter(p, init), init, last);
      assert init + [last] == s;
      if p(last) {
        assert Filter(p, s) == Filter(p, init) + [last];
      } else {
        assert Filter(p, s) == Filter(p, init);
      }
    }
  }

  /** Filtering keeps every element satisfying `p` with its multiplicity and
      drops every other element. */
  lemma {:induction false} FilterMultiplicity<T>(p: T -> bool, s: seq<T>, x: T)
    ensures multiset(Filter(p, s))[x] == if p(x) then multiset(s)[x] else 0
  {
    if |s| > 0 {
      var init, last := s[..|s| - 1], s[|s| - 1];
      FilterMultiplicity(p, init, x);
      assert s == init + [last];
      assert multiset(s) == multiset(init) + multiset{last};
      var kept := if p(last) then [last] else [];
      assert Filter(p, s) == Filter(p, init) + kept;
      assert multiset(Filter(p, s)) == multiset(Filter(p, init)) + multiset(kept);
    }
  }

  /** The filtered sequence is exactly the satisfying elements of `s`, in
      order and with their multiplicities: nothing kept fails `p`, nothing
      satisfying `p` is dropped. */
  lemma FilterCharacterised<T>(p: T -> bool, s: seq<T>)
    ensures IsSubsequence(Filter(p, s), s)
    ensures forall x :: multiset(Filter(p, s))[x] == if p(x) then multiset(s)[x] else 0
  {
    FilterIsSubsequence(p, s);
    forall x
      ensures multiset(Filter(p, s))[x] == if p(x) then multiset(s)[x] else 0
    {
      FilterMultiplicity(p, s, x);
    }
  }
}
