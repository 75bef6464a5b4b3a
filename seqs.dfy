/** Sequence facts shared by the extraction batch, the table filters and the places list. */
module Seqs {

  /** `sub` is `s` with some elements deleted and the rest kept in order. */
  ghost predicate IsSubsequence<T>(sub: seq<T>, s: seq<T>)
    decreases |s|
  {
    if sub == [] then true
    else if s == [] then false
    else (sub[0] == s[0] && IsSubsequence(sub[1..], s[1..])) || IsSubsequence(sub, s[1..])
  }

  lemma {:induction false} SubsequenceOfSelf<T>(s: seq<T>)
    ensures IsSubsequence(s, s)
    decreases |s|
  {
    if s != [] {
      SubsequenceOfSelf(s[1..]);
    }
  }

  predicate NoDuplicates<T(==,!new)>(s: seq<T>) {
    forall i, j :: 0 <= i < j < |s| ==> s[i] != s[j]
  }

  /**
   * pandas' `Series.unique()`: each distinct element once, in order of first
   * appearance (an element is appended when it is seen for the first time).
   */
  function Unique<T(==,!new)>(s: seq<T>): (u: seq<T>)
    ensures NoDuplicates(u)
    ensures forall x :: x in u <==> x in s
    decreases |s|
  {
    if s == [] then []
    else
      var u := Unique(s[..|s| - 1]);
      var last := s[|s| - 1];
      assert forall x :: x in s <==> x in s[..|s| - 1] || x == last;
      if last in u then u else u + [last]
  }

  /**
   * First-appearance order: the distinct elements of any prefix of `s` come
   * first in `Unique(s)`, in the same order.
   */
  lemma {:induction false} UniquePrefix<T(!new)>(s: seq<T>, k: nat)
    requires k <= |s|
    ensures Unique(s[..k]) <= Unique(s)
    decreases |s| - k
  {
    if k < |s| {
      var front := s[..|s| - 1];
      assert front[..k] == s[..k];
      UniquePrefix(front, k);
    } else {
      assert s[..k] == s;
    }
  }
}
