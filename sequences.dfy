/** Order facts about sequences used by the queries and the page filter. */
module Sequences {
  /** `before` holds between every element and each one after it. */
  predicate Chain<X>(s: seq<X>, before: (X, X) -> bool) {
    forall i, j :: 0 <= i < j < |s| ==> before(s[i], s[j])
  }

  /** `a` is `b` with some elements left out, the rest in their order. */
  predicate IsSubsequence<X(==)>(a: seq<X>, b: seq<X>)
    decreases |b|
  {
    if a == [] then true
    else if b == [] then false
    else (a[0] == b[0] && IsSubsequence(a[1..], b[1..])) || IsSubsequence(a, b[1..])
  }

  lemma {:induction false} PrefixIsSubsequence<X>(a: seq<X>, b: seq<X>, n: nat)
    requires IsSubsequence(a, b) && n <= |a|
    ensures IsSubsequence(a[..n], b)
    decreases |b|
  {
    if n > 0 {
      assert a != [] && b != [];
      if a[0] == b[0] && IsSubsequence(a[1..], b[1..]) {
        PrefixIsSubsequence(a[1..], b[1..], n - 1);
        assert a[..n][1..] == a[1..][..n - 1];
      } else {
        PrefixIsSubsequence(a, b[1..], n);
      }
    }
  }

  /** Every subsequence of a chain is a chain, drawn from the same elements. */
  lemma {:induction false} SubsequenceChain<X>(a: seq<X>, b: seq<X>, before: (X, X) -> bool)
    requires IsSubsequence(a, b) && Chain(b, before)
    ensures Chain(a, before) && forall i :: 0 <= i < |a| ==> a[i] in b
    decreases |b|
  {
    if a != [] {
      assert Chain(b[1..], before) by {
        forall i, j | 0 <= i < j < |b[1..]| ensures before(b[1..][i], b[1..][j]) {
          assert b[1..][i] == b[i + 1] && b[1..][j] == b[j + 1];
        }
      }
      if a[0] == b[0] && IsSubsequence(a[1..], b[1..]) {
        SubsequenceChain(a[1..], b[1..], before);
        ConsChain(a, b, before);
      } else {
        SubsequenceChain(a, b[1..], before);
        forall i | 0 <= i < |a| ensures a[i] in b {
          assert a[i] in b[1..];
        }
      }
    }
  }

  lemma ConsChain<X>(a: seq<X>, b: seq<X>, before: (X, X) -> bool)
    requires a != [] && b != [] && a[0] == b[0] && Chain(b, before)
    requires Chain(a[1..], before) && forall i :: 0 <= i < |a[1..]| ==> a[1..][i] in b[1..]
    ensures Chain(a, before) && forall i :: 0 <= i < |a| ==> a[i] in b
  {
    forall i | 0 <= i < |a| ensures a[i] in b {
      if i > 0 { assert a[i] == a[1..][i - 1]; }
    }
    forall i, j | 0 <= i < j < |a| ensures before(a[i], a[j]) {
      assert a[j] == a[1..][j - 1];
      var k :| 0 <= k < |b[1..]| && b[1..][k] == a[j];
      assert b[k + 1] == a[j];
      if i > 0 { assert a[i] == a[1..][i - 1]; }
    }
  }
}
