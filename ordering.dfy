/** Sequences listed in a fixed order: every element has a rank, and the
    ranks strictly increase, so no element with a given rank appears twice. */
module Ordering {
  predicate Increasing<T>(s: seq<T>, rank: T -> nat) {
    forall i, j :: 0 <= i < j < |s| ==> rank(s[i]) < rank(s[j])
  }

  lemma TailIncreasing<T>(s: seq<T>, rank: T -> nat)
    requires s != [] && Increasing(s, rank)
    ensures Increasing(s[1..], rank)
  {
    var tail := s[1..];
    forall i, j | 0 <= i < j < |tail| ensures rank(tail[i]) < rank(tail[j]) {
      assert tail[i] == s[i + 1] && tail[j] == s[j + 1];
    }
  }

  /** Elements drawn from the tail rank above the head. */
  lemma HeadBelowTail<T>(s: seq<T>, rank: T -> nat, t: seq<T>)
    requires s != [] && Increasing(s, rank)
    requires forall k :: 0 <= k < |t| ==> t[k] in s[1..]
    ensures forall k :: 0 <= k < |t| ==> rank(s[0]) < rank(t[k])
  {
    forall k | 0 <= k < |t| ensures rank(s[0]) < rank(t[k]) {
      var m :| 0 <= m < |s[1..]| && s[1..][m] == t[k];
      assert s[m + 1] == t[k];
    }
  }

  /** An element ranked below all of an ordered sequence can go in front. */
  lemma ConsIncreasing<T>(x: T, t: seq<T>, rank: T -> nat)
    requires Increasing(t, rank)
    requires forall k :: 0 <= k < |t| ==> rank(x) < rank(t[k])
    ensures Increasing([x] + t, rank)
  {
    var r := [x] + t;
    forall i, j | 0 <= i < j < |r| ensures rank(r[i]) < rank(r[j]) {
      assert r[j] == t[j - 1];
      if i > 0 {
        assert r[i] == t[i - 1];
      }
    }
  }
}
