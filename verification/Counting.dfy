/** Finite sets counted. */
module Counting {
  predicate Distinct(s: seq<nat>) {
    forall i, j :: 0 <= i < j < |s| ==> s[i] != s[j]
  }

  function Below(n: nat): (r: set<nat>)
    ensures |r| == n
    ensures forall i :: i in r <==> 0 <= i < n
  {
    if n == 0 then {} else Below(n - 1) + {n - 1}
  }

  lemma SubsetSize<T>(a: set<T>, b: set<T>)
    requires a <= b
    ensures |a| <= |b|
    ensures |a| == |b| ==> a == b
  {
    assert b == a + (b - a);
  }

  function Members<T(!new)>(s: seq<T>): (r: set<T>)
    ensures forall x :: x in r <==> x in s
  {
    set x | x in s
  }

  /** The members of a list without repetitions. */
  lemma {:induction false} ListSize<T(!new)>(s: seq<T>)
    requires forall j, k :: 0 <= j < k < |s| ==> s[j] != s[k]
    ensures |Members(s)| == |s|
  {
    if s != [] {
      var init := s[..|s| - 1];
      ListSize(init);
      assert Members(s) == Members(init) + {s[|s| - 1]};
    }
  }

  /** n different numbers below n are all the numbers below n. */
  lemma Permutation(s: seq<nat>)
    requires forall k :: 0 <= k < |s| ==> s[k] < |s|
    requires forall j, k :: 0 <= j < k < |s| ==> s[j] != s[k]
    ensures forall i :: 0 <= i < |s| ==> i in s
  {
    ListSize(s);
    SubsetSize(Members(s), Below(|s|));
  }
}
