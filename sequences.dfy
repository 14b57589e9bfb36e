/** Order-preserving selection, shared by the menu grouping and the dashboard filter. */
module Sequences {

  /** `a` can be obtained from `b` by deleting elements, keeping the rest in order. */
  predicate IsSubsequence<T(==)>(a: seq<T>, b: seq<T>)
    decreases |b|
  {
    if b == [] then a == []
    else
      IsSubsequence(a, b[..|b| - 1])
      || (a != [] && a[|a| - 1] == b[|b| - 1] && IsSubsequence(a[..|a| - 1], b[..|b| - 1]))
  }

  /** A subsequence stays one when the same element is put in front of both. */
  lemma {:induction false} SubsequenceConsBoth<T>(x: T, a: seq<T>, b: seq<T>)
    requires IsSubsequence(a, b)
    ensures IsSubsequence([x] + a, [x] + b)
    decreases |b|
  {
    if b == [] {
      assert ([x] + a)[..0] == [];
      assert ([x] + b)[..0] == [];
    } else {
      var b0 := b[..|b| - 1];
      assert ([x] + b)[..|b|] == [x] + b0;
      if IsSubsequence(a, b0) {
        SubsequenceConsBoth(x, a, b0);
      } else {
        var a0 := a[..|a| - 1];
        SubsequenceConsBoth(x, a0, b0);
        assert ([x] + a)[..|a|] == [x] + a0;
      }
    }
  }

  /** A subsequence stays one when an element is put in front of the longer sequence. */
  lemma {:induction false} SubsequenceConsRight<T>(x: T, a: seq<T>, b: seq<T>)
    requires IsSubsequence(a, b)
    ensures IsSubsequence(a, [x] + b)
    decreases |b|
  {
    if b == [] {
      assert ([x] + b)[..0] == [];
    } else {
      var b0 := b[..|b| - 1];
      assert ([x] + b)[..|b|] == [x] + b0;
      if IsSubsequence(a, b0) {
        SubsequenceConsRight(x, a, b0);
      } else {
        SubsequenceConsRight(x, a[..|a| - 1], b0);
      }
    }
  }

  /** Taking element `j` out of a sequence takes one occurrence of it out of its multiset. */
  lemma MultisetRemoveAt<T>(b: seq<T>, j: int)
    requires 0 <= j < |b|
    ensures multiset(b[..j] + b[j + 1..]) == multiset(b) - multiset{b[j]}
  {
    assert b == b[..j] + [b[j]] + b[j + 1..];
    assert multiset(b) == multiset(b[..j]) + multiset{b[j]} + multiset(b[j + 1..]);
  }

  /**
    The first element of `a` occurs in any rearrangement `b` of it, and the
    rest of `a` is a rearrangement of `b` without that occurrence.
   */
  lemma PermutationTail<T>(a: seq<T>, b: seq<T>) returns (j: int)
    requires a != [] && multiset(a) == multiset(b)
    ensures 0 <= j < |b| && b[j] == a[0]
    ensures multiset(a[1..]) == multiset(b[..j] + b[j + 1..])
  {
    assert a[0] in multiset(a);
    assert a[0] in b;
    j :| 0 <= j < |b| && b[j] == a[0];
    TailMultiset(a);
    MultisetRemoveAt(b, j);
  }

  lemma TailMultiset<T>(a: seq<T>)
    requires a != []
    ensures multiset(a[1..]) == multiset(a) - multiset{a[0]}
  {
    assert a == [a[0]] + a[1..];
  }
}
