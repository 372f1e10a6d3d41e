/** Small types shared by every module. */
module Basics {
  datatype Option<+T> = None | Some(value: T)

  /** Row identifiers. A fresh identifier is larger than every earlier one,
      which is what version 7 UUIDs are used for in the repository. */
  type Id = nat

  ghost predicate Distinct<T>(s: seq<T>) {
    forall i, j :: 0 <= i < j < |s| ==> s[i] != s[j]
  }

  /** A sequence holds at least as many elements as it has distinct ones. */
  lemma {:induction false} ElementsBound<T>(s: seq<T>, elements: set<T>)
    requires forall x :: x in elements ==> x in s
    ensures |elements| <= |s|
  {
    if s == [] {
      assert elements == {};
    } else {
      var first := s[0];
      ElementsBound(s[1..], elements - {first});
      if first in elements {
        assert |elements - {first}| == |elements| - 1;
      } else {
        assert elements - {first} == elements;
      }
    }
  }

  /** An element without a duplicate counts once. */
  lemma {:induction false} DistinctCount<T>(s: seq<T>, x: T)
    requires forall i, j :: 0 <= i < j < |s| && s[i] == x ==> s[j] != x
    ensures multiset(s)[x] == if x in s then 1 else 0
  {
    if s != [] {
      assert s == [s[0]] + s[1..];
      DistinctCount(s[1..], x);
    }
  }
}
