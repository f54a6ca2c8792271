/**
 Counting different numbers in a range, for slots, places and indices.
 */
module Counting {
  import opened Common

  /** The `n` numbers from `lo` on. */
  function Range(lo: int, n: nat): (s: set<int>)
    ensures |s| == n && forall x :: x in s <==> lo <= x < lo + n
  {
    if n == 0 then {} else Range(lo, n - 1) + {lo + n - 1}
  }

  ghost predicate Within(s: seq<int>, lo: int, n: nat) {
    forall k :: 0 <= k < |s| ==> lo <= s[k] < lo + n
  }

  function Elements(s: seq<int>): (r: set<int>)
    ensures |r| <= |s| && forall x :: x in r <==> x in s
  {
    if s == [] then {} else Elements(s[1..]) + {s[0]}
  }

  lemma {:induction false} DistinctElements(s: seq<int>)
    requires Distinct(s)
    ensures |Elements(s)| == |s|
  {
    if s != [] {
      assert Distinct(s[1..]);
      DistinctElements(s[1..]);
      assert s[0] !in s[1..];
    }
  }

  lemma {:induction false} SubsetCard<T>(a: set<T>, b: set<T>)
    requires a <= b
    ensures |a| <= |b|
    decreases |a|
  {
    if a != {} {
      var x :| x in a;
      SubsetCard(a - {x}, b - {x});
    }
  }

  /** If one is missing there are fewer. */
  lemma RoomForOneMore(s: seq<int>, lo: int, n: nat, hole: int)
    requires Distinct(s) && Within(s, lo, n) && lo <= hole < lo + n && hole !in s
    ensures |s| < n
  {
    DistinctElements(s);
    SubsetCard(Elements(s), Range(lo, n) - {hole});
  }

  /** As many different numbers as the range has are all of it. */
  lemma Pigeonhole(s: seq<int>, lo: int, x: int)
    requires Distinct(s) && Within(s, lo, |s|) && lo <= x < lo + |s|
    ensures x in s
  {
    if x !in s { RoomForOneMore(s, lo, |s|, x); }
  }

  /** Holding all numbers of a range takes as many places. */
  lemma PlacesForAll(s: seq<int>, lo: int, n: nat)
    requires forall x :: lo <= x < lo + n ==> x in s
    ensures |s| >= n
  {
    SubsetCard(Range(lo, n), Elements(s));
  }
}
