/** The in-memory film store: films by id, an id counter, like sets, and the popularity ranking. */
module FilmStore {
  import opened Wrappers
  import opened Model
  import opened Enumeration
  import opened FilmOrdering

  /**
   * validateFilm: no release before 28 December 1895; that day itself is fine. A null release
   * date is dereferenced by the check and fails with a NullReference.
   */
  function ValidateFilm(film: Film): (o: Outcome)
    ensures o == Fail(NullReference) <==> film.releaseDate.None?
    ensures o == Fail(Validation) <==> film.releaseDate.Some? && Before(film.releaseDate.value, CinemaBirthday)
    ensures o == Pass <==> film.releaseDate.Some? && NotAfter(CinemaBirthday, film.releaseDate.value)
  {
    match film.releaseDate
    case None => Fail(NullReference)
    case Some(date) => if Before(date, CinemaBirthday) then Fail(Validation) else Pass
  }

  /** The release-date bound is inclusive. */
  lemma ValidateFilmBoundary(film: Film)
    ensures film.releaseDate == Some(Date(1895, 12, 28)) ==> ValidateFilm(film) == Pass
    ensures film.releaseDate == Some(Date(1895, 12, 27)) ==> ValidateFilm(film) == Fail(Validation)
  {
  }

  /** films.values() in the map's iteration order. */
  function ValuesInOrder(films: map<int, Film>, order: seq<int>): (r: seq<Film>)
    requires forall i :: 0 <= i < |order| ==> order[i] in films
    ensures |r| == |order|
    ensures forall i :: 0 <= i < |order| ==> r[i] == films[order[i]]
  {
    if order == [] then [] else [films[order[0]]] + ValuesInOrder(films, order[1..])
  }

  /** Stream.limit: the first n elements, or all of them. */
  function Limit(s: seq<Film>, n: nat): (r: seq<Film>)
    ensures |r| == if n < |s| then n else |s|
    ensures r == s[..|r|]
  {
    if n < |s| then s[..n] else s
  }

  class InMemoryFilmStorage {
    var films: map<int, Film>
    var idCounter: int

    /** Every stored film sits under its own id, and the counter is past every id. */
    ghost predicate Valid()
      reads this
    {
      && idCounter >= 1
      && forall id :: id in films ==> 1 <= id < idCounter && films[id].id == Some(id)
    }

    constructor ()
      ensures Valid() && films == map[] && idCounter == 1
    {
      films := map[];
      idCounter := 1;
    }

    /** create: rejects an early release date; otherwise takes the counter as the id and advances it. */
    method Create(film: Film) returns (r: Result<Film>)
      requires Valid()
      modifies this
      ensures Valid()
      ensures ValidateFilm(film) != Pass ==> r == Err(ValidateFilm(film).error) && unchanged(this)
      ensures ValidateFilm(film) == Pass ==>
                && r == Ok(film.(id := Some(old(idCounter))))
                && idCounter == old(idCounter) + 1
                && films == old(films)[old(idCounter) := r.value]
      // the new id is fresh and larger than every id handed out before
      ensures r.Ok? ==> old(idCounter) !in old(films) && forall id :: id in old(films) ==> id < old(idCounter)
    {
      if ValidateFilm(film) != Pass {
        return Err(ValidateFilm(film).error);
      }
      var stored := film.(id := Some(idCounter));
      idCounter := idCounter + 1;
      films := films[stored.id.value := stored];
      r := Ok(stored);
    }

    /** update: the id must be present and stored, and the date valid; then the film replaces the stored one. */
    method Update(film: Film) returns (r: Result<Film>)
      requires Valid()
      modifies this`films
      ensures Valid()
      ensures film.id.None? || film.id.value !in old(films) ==> r == Err(Validation) && unchanged(this)
      ensures film.id.Some? && film.id.value in old(films) && ValidateFilm(film) != Pass ==>
                r == Err(ValidateFilm(film).error) && unchanged(this)
      ensures film.id.Some? && film.id.value in old(films) && ValidateFilm(film) == Pass ==>
                r == Ok(film) && films == old(films)[film.id.value := film]
    {
      if film.id.None? || film.id.value !in films {
        return Err(Validation);
      }
      if ValidateFilm(film) != Pass {
        return Err(ValidateFilm(film).error);
      }
      films := films[film.id.value := film];
      r := Ok(film);
    }

    /** findById. */
    function FindById(id: int): (r: Option<Film>)
      reads this
      ensures r.Some? <==> id in films
      ensures r.Some? ==> r.value == films[id]
    {
      if id in films then Some(films[id]) else None
    }

    /** addLike: adds the user to the film's like set; a no-op for an unknown film or a repeated like. */
    method AddLike(filmId: int, userId: int)
      requires Valid()
      modifies this`films
      ensures Valid()
      ensures filmId !in old(films) ==> films == old(films)
      ensures filmId in old(films) ==>
                films == old(films)[filmId := old(films)[filmId].(likes := old(films)[filmId].likes + {userId})]
      // set semantics: liking twice is liking once
      ensures filmId in old(films) && userId in old(films)[filmId].likes ==> films == old(films)
    {
      if filmId in films {
        var film := films[filmId];
        if userId in film.likes {
          assert film.likes + {userId} == film.likes;
        }
        films := films[filmId := film.(likes := film.likes + {userId})];
      }
    }

    /** removeLike: removes only this user's like from this film; a no-op for an unknown film or absent like. */
    method RemoveLike(filmId: int, userId: int)
      requires Valid()
      modifies this`films
      ensures Valid()
      ensures filmId !in old(films) ==> films == old(films)
      ensures filmId in old(films) ==>
                films == old(films)[filmId := old(films)[filmId].(likes := old(films)[filmId].likes - {userId})]
      ensures filmId in old(films) && userId !in old(films)[filmId].likes ==> films == old(films)
    {
      if filmId in films {
        var film := films[filmId];
        if userId !in film.likes {
          assert film.likes - {userId} == film.likes;
        }
        films := films[filmId := film.(likes := film.likes - {userId})];
      }
    }

    /**
     * getPopularFilms: the stored films sorted by like count, most first, cut to `count`; `order` is
     * the iteration order of the films map. Stream.limit throws IllegalArgumentException for a
     * negative count.
     */
    function GetPopularFilms(count: int, order: seq<int>): (r: Result<seq<Film>>)
      reads this
      requires Valid() && EnumeratesKeys(order, films)
      ensures count < 0 <==> r == Err(IllegalArgument)
      ensures r.Ok? ==> |r.value| == if count < |films| then count else |films|
      ensures r.Ok? ==> SortedBy(ByLikesDesc, r.value) && DistinctIds(r.value)
      ensures r.Ok? ==> forall i :: 0 <= i < |r.value| ==>
                (r.value[i].id.Some? && r.value[i].id.value in films && films[r.value[i].id.value] == r.value[i])
      // a film left out has no more likes than any film that made the list
      ensures r.Ok? ==> forall id, i :: id in films && films[id] !in r.value && 0 <= i < |r.value| ==>
                |films[id].likes| <= |r.value[i].likes|
    {
      if count < 0 then Err(IllegalArgument)
      else
        var all := ValuesInOrder(films, order);
        var sorted := SortBy(ByLikesDesc, all);
        ValuesInOrderFacts(films, order);
        SortKeepsHolding(all, films);
        LimitKeepsTop(sorted, films, count);
        Ok(Limit(sorted, count))
    }
  }

  /** Every film is filed under its own id. */
  ghost predicate Indexed(films: map<int, Film>)
  {
    forall id :: id in films ==> films[id].id == Some(id)
  }

  /** `s` holds exactly the stored films: each element is stored under its id, and each stored film occurs. */
  ghost predicate HoldsExactly(s: seq<Film>, films: map<int, Film>)
  {
    && (forall i :: 0 <= i < |s| ==> s[i].id.Some? && s[i].id.value in films && films[s[i].id.value] == s[i])
    && (forall id :: id in films ==> films[id] in s)
  }

  lemma ValuesInOrderFacts(films: map<int, Film>, order: seq<int>)
    requires Indexed(films) && EnumeratesKeys(order, films)
    ensures var all := ValuesInOrder(films, order);
            |all| == |films| && DistinctIds(all) && HoldsExactly(all, films)
  {
    EnumerationLength(order, films);
    var all := ValuesInOrder(films, order);
    forall i, j | 0 <= i < j < |all| ensures all[i].id != all[j].id {
      assert all[i].id == Some(order[i]) && all[j].id == Some(order[j]);
    }
    forall id | id in films ensures films[id] in all {
      var p :| 0 <= p < |order| && order[p] == id;
      assert all[p] == films[id];
    }
  }

  lemma SortKeepsHolding(all: seq<Film>, films: map<int, Film>)
    requires HoldsExactly(all, films) && DistinctIds(all)
    ensures var sorted := SortBy(ByLikesDesc, all);
            |sorted| == |all| && SortedBy(ByLikesDesc, sorted) && DistinctIds(sorted) && HoldsExactly(sorted, films)
  {
    SortSortedPermutation(ByLikesDesc, all);
    SortDistinct(ByLikesDesc, all);
    var sorted := SortBy(ByLikesDesc, all);
    forall i | 0 <= i < |sorted|
      ensures sorted[i].id.Some? && sorted[i].id.value in films && films[sorted[i].id.value] == sorted[i]
    {
      assert sorted[i] in multiset(all);
    }
    forall id | id in films ensures films[id] in sorted {
      assert films[id] in multiset(all);
    }
  }

  /** Cutting a ranking leaves out nothing that outranks what stays. */
  lemma LimitKeepsTop(sorted: seq<Film>, films: map<int, Film>, count: nat)
    requires SortedBy(ByLikesDesc, sorted) && HoldsExactly(sorted, films)
    ensures var fs := Limit(sorted, count);
            forall id, i :: id in films && films[id] !in fs && 0 <= i < |fs| ==> |films[id].likes| <= |fs[i].likes|
  {
    var fs := Limit(sorted, count);
    forall id, i | id in films && films[id] !in fs && 0 <= i < |fs|
      ensures |films[id].likes| <= |fs[i].likes|
    {
      var p :| 0 <= p < |sorted| && sorted[p] == films[id];
      assert p >= |fs|;
      assert Ahead(ByLikesDesc, sorted[i], sorted[p]);
    }
  }
}
