/**
  Cardinality facts about finite sets and sequences without repetition.
*/
module Counting {
  ghost function Elems<T>(s: seq<T>): set<T> {
    set x | x in s
  }

  ghost predicate Distinct<T>(s: seq<T>) {
    forall j, k :: 0 <= j < k < |s| ==> s[j] != s[k]
  }

  lemma {:induction false} DistinctCount<T>(s: seq<T>)
    requires Distinct(s)
    ensures |Elems(s)| == |s|
  {
    if s != [] {
      var init, last := s[..|s| - 1], s[|s| - 1];
      DistinctCount(init);
      assert s == init + [last];
      assert last !in init;
      assert Elems(s) == Elems(init) + {last};
    }
  }

  lemma {:induction false} ElementCount<T>(s: seq<T>)
    ensures |Elems(s)| <= |s|
  {
    if s != [] {
      var init, last := s[..|s| - 1], s[|s| - 1];
      ElementCount(init);
      assert s == init + [last];
      assert Elems(s) == Elems(init) + {last};
    }
  }

  lemma {:induction false} SubsetCount<T>(A: set<T>, B: set<T>)
    requires A <= B
    ensures |A| <= |B|
  {
    if A != {} {
      var x :| x in A;
      SubsetCount(A - {x}, B - {x});
    }
  }

  lemma StrictSubsetCount<T>(A: set<T>, B: set<T>)
    requires A < B
    ensures |A| < |B|
  {
    var x :| x in B && x !in A;
    assert |B| == |B - {x}| + 1;
    SubsetCount(A, B - {x});
  }

  // A sequence without repetition over the elements of another is no longer than it.
  lemma DistinctFits<T>(s: seq<T>, t: seq<T>)
    requires Distinct(s) && forall x :: x in s ==> x in t
    ensures |s| <= |t|
  {
    DistinctCount(s);
    ElementCount(t);
    SubsetCount(Elems(s), Elems(t));
  }

  function Range(from: nat, to: nat): seq<nat>
    requires from <= to
  {
    seq(to - from, i requires 0 <= i < to - from => from + i)
  }

  // n different numbers below n are all the numbers below n.
  lemma Pigeonhole(s: seq<nat>, q: nat)
    requires Distinct(s) && (forall k :: 0 <= k < |s| ==> s[k] < |s|) && q < |s|
    ensures q in s
  {
    if q !in s {
      var t := s + [q];
      var all := Range(0, |s|);
      forall x | x in t
        ensures x in all
      {
        assert all[x] == x;
      }
      DistinctFits(t, all);
    }
  }
}
