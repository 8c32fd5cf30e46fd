/**
 * Sorting of films: by like count from most to fewest, or by release date from earliest to
 * latest. The model's sort is stable; Stream.sorted is stable only on an ordered stream, such as
 * one over a List, and fixes no order of equal films on a stream over a HashMap's values.
 */
module FilmOrdering {
  import opened Model

  datatype FilmOrder = ByLikesDesc | ByReleaseAsc

  /**
   * a may stay ahead of b: the comparator does not put b first. Comparing a null release date
   * throws in the source; the order puts None first only so that it is total.
   */
  predicate Ahead(order: FilmOrder, a: Film, b: Film)
  {
    match order
    case ByLikesDesc => |a.likes| >= |b.likes|
    case ByReleaseAsc =>
      a.releaseDate.None? || (b.releaseDate.Some? && NotAfter(a.releaseDate.value, b.releaseDate.value))
  }

  lemma AheadTotal(order: FilmOrder, a: Film, b: Film)
    ensures Ahead(order, a, b) || Ahead(order, b, a)
  {
  }

  lemma AheadTransitive(order: FilmOrder, a: Film, b: Film, c: Film)
    requires Ahead(order, a, b) && Ahead(order, b, c)
    ensures Ahead(order, a, c)
  {
  }

  predicate SortedBy(order: FilmOrder, s: seq<Film>)
  {
    forall i, j :: 0 <= i < j < |s| ==> Ahead(order, s[i], s[j])
  }

  /** No film id occurs twice. */
  predicate DistinctIds(s: seq<Film>)
  {
    forall i, j :: 0 <= i < j < |s| ==> s[i].id != s[j].id
  }

  /** Puts x in front of the first film it may stay ahead of; x goes before its equals. */
  function Insert(order: FilmOrder, x: Film, s: seq<Film>): seq<Film>
  {
    if s == [] || Ahead(order, x, s[0]) then [x] + s else [s[0]] + Insert(order, x, s[1..])
  }

  /**
   * Insertion sort from the back: each film is placed before the equal films that follow it in
   * the input, so the sort is stable.
   */
  function SortBy(order: FilmOrder, s: seq<Film>): seq<Film>
  {
    if s == [] then [] else Insert(order, s[0], SortBy(order, s[1..]))
  }

  lemma {:induction false} InsertPermutes(order: FilmOrder, x: Film, s: seq<Film>)
    ensures multiset(Insert(order, x, s)) == multiset(s) + multiset{x}
  {
    if s != [] && !Ahead(order, x, s[0]) {
      InsertPermutes(order, x, s[1..]);
      assert s == [s[0]] + s[1..];
    }
  }

  lemma {:induction false} InsertSorted(order: FilmOrder, x: Film, s: seq<Film>)
    requires SortedBy(order, s)
    ensures SortedBy(order, Insert(order, x, s))
  {
    if s == [] {
    } else if Ahead(order, x, s[0]) {
      forall j | 0 <= j < |s| ensures Ahead(order, x, s[j]) {
        if j > 0 { AheadTransitive(order, x, s[0], s[j]); }
      }
    } else {
      var t := Insert(order, x, s[1..]);
      InsertSorted(order, x, s[1..]);
      InsertPermutes(order, x, s[1..]);
      AheadTotal(order, x, s[0]);
      forall j | 0 <= j < |t| ensures Ahead(order, s[0], t[j]) {
        assert t[j] in multiset(t);
        if t[j] != x {
          assert t[j] in multiset(s[1..]);
          var k :| 0 <= k < |s[1..]| && s[1..][k] == t[j];
          assert s[k + 1] == t[j];
        }
      }
    }
  }

  lemma {:induction false} InsertDistinct(order: FilmOrder, x: Film, s: seq<Film>)
    requires DistinctIds(s)
    requires forall i :: 0 <= i < |s| ==> s[i].id != x.id
    ensures DistinctIds(Insert(order, x, s))
  {
    if s != [] && !Ahead(order, x, s[0]) {
      var t := Insert(order, x, s[1..]);
      InsertDistinct(order, x, s[1..]);
      InsertPermutes(order, x, s[1..]);
      forall j | 0 <= j < |t| ensures t[j].id != s[0].id {
        assert t[j] in multiset(t);
        if t[j] != x {
          assert t[j] in multiset(s[1..]);
          var k :| 0 <= k < |s[1..]| && s[1..][k] == t[j];
          assert s[k + 1] == t[j];
        }
      }
    }
  }

  /** The sort returns a sorted permutation of its input. */
  lemma {:induction false} SortSortedPermutation(order: FilmOrder, s: seq<Film>)
    ensures SortedBy(order, SortBy(order, s))
    ensures multiset(SortBy(order, s)) == multiset(s)
    ensures |SortBy(order, s)| == |s|
  {
    if s != [] {
      SortSortedPermutation(order, s[1..]);
      InsertSorted(order, s[0], SortBy(order, s[1..]));
      InsertPermutes(order, s[0], SortBy(order, s[1..]));
      assert s == [s[0]] + s[1..];
      assert |multiset(SortBy(order, s))| == |multiset(s)|;
    }
  }

  /** Sorting keeps ids distinct. */
  lemma {:induction false} SortDistinct(order: FilmOrder, s: seq<Film>)
    requires DistinctIds(s)
    ensures DistinctIds(SortBy(order, s))
  {
    if s != [] {
      var t := SortBy(order, s[1..]);
      SortDistinct(order, s[1..]);
      SortSortedPermutation(order, s[1..]);
      forall j | 0 <= j < |t| ensures t[j].id != s[0].id {
        assert t[j] in multiset(t);
        var k :| 0 <= k < |s[1..]| && s[1..][k] == t[j];
        assert s[k + 1] == t[j];
      }
      InsertDistinct(order, s[0], t);
    }
  }
}
