/** Iteration over a hash map's keys, modelled as a sequence that lists every key exactly once. */
module Enumeration {

  predicate Distinct(s: seq<int>)
  {
    forall i, j :: 0 <= i < j < |s| ==> s[i] != s[j]
  }

  /** `order` is an iteration order of the map: each key once, nothing else. */
  predicate EnumeratesKeys<V>(order: seq<int>, m: map<int, V>)
  {
    && Distinct(order)
    && (forall i :: 0 <= i < |order| ==> order[i] in m)
    && (forall k :: k in m ==> k in order)
  }

  lemma {:induction false} DistinctCard(s: seq<int>)
    requires Distinct(s)
    ensures |set i | 0 <= i < |s| :: s[i]| == |s|
  {
    if s != [] {
      var t := s[..|s| - 1];
      DistinctCard(t);
      var last := s[|s| - 1];
      assert (set i | 0 <= i < |s| :: s[i]) == (set i | 0 <= i < |t| :: t[i]) + {last};
      assert last !in (set i | 0 <= i < |t| :: t[i]);
    }
  }

  /** An iteration order is as long as the map is large. */
  lemma EnumerationLength<V>(order: seq<int>, m: map<int, V>)
    requires EnumeratesKeys(order, m)
    ensures |order| == |m|
  {
    DistinctCard(order);
    forall k | k in m ensures k in (set i | 0 <= i < |order| :: order[i]) {
      var i :| 0 <= i < |order| && order[i] == k;
    }
    assert (set i | 0 <= i < |order| :: order[i]) == m.Keys;
  }
}
