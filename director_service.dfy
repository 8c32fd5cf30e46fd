/** The director service: lookups over the director table and a director's filmography. */
module Directors {
  import opened Wrappers
  import opened Model
  import opened Text
  import opened FilmOrdering

  /** The films one of whose directors has the given id, in their original order. */
  function FilmsOf(all: seq<Film>, directorId: int): (r: seq<Film>)
    ensures |r| <= |all|
    ensures forall f :: f in r <==> f in all && directorId in f.directors
  {
    if all == [] then []
    else (if directorId in all[0].directors then [all[0]] else []) + FilmsOf(all[1..], directorId)
  }

  /** The sort key a `sortBy` string selects: "year" or "likes" in any letter case, or none. */
  function SortKey(sortBy: string): (k: Option<FilmOrder>)
    ensures k == Some(ByReleaseAsc) <==> EqualsIgnoreCase("year", sortBy)
    ensures k == Some(ByLikesDesc) <==> EqualsIgnoreCase("likes", sortBy)
    ensures k.None? <==> !EqualsIgnoreCase("year", sortBy) && !EqualsIgnoreCase("likes", sortBy)
  {
    if EqualsIgnoreCase("year", sortBy) then Some(ByReleaseAsc)
    else if EqualsIgnoreCase("likes", sortBy) then
      assert !EqualsIgnoreCase("year", sortBy) by {
        assert |sortBy| == 5;
      }
      Some(ByLikesDesc)
    else None
  }

  /**
   * Sorting by release date compares every film once there are two or more, and comparing a
   * null release date throws; a single film is never compared.
   */
  predicate NullDateCompared(order: FilmOrder, s: seq<Film>)
  {
    order == ByReleaseAsc && |s| >= 2 && exists i :: 0 <= i < |s| && s[i].releaseDate.None?
  }

  class DirectorService {
    /** The director table. */
    var directors: map<int, Director>

    constructor (directors: map<int, Director>)
      ensures this.directors == directors
    {
      this.directors := directors;
    }

    /** getDirectorById: NotFound when the id is absent. */
    function GetDirectorById(id: int): (r: Result<Director>)
      reads this
      ensures r.Ok? <==> id in directors
      ensures r.Ok? ==> r.value == directors[id]
      ensures r.Err? ==> r.error == NotFound(DirectorEntity, Some(id))
    {
      if id in directors then Ok(directors[id]) else Err(NotFound(DirectorEntity, Some(id)))
    }

    /** updateDirector: a null or unknown id is NotFound before the table changes. */
    method UpdateDirector(director: Director) returns (r: Result<Director>)
      modifies this
      ensures director.id.None? ==> r == Err(NotFound(DirectorEntity, None)) && unchanged(this)
      ensures director.id.Some? && director.id.value !in old(directors) ==>
                r == Err(NotFound(DirectorEntity, director.id)) && unchanged(this)
      ensures director.id.Some? && director.id.value in old(directors) ==>
                r == Ok(director) && directors == old(directors)[director.id.value := director]
    {
      if director.id.None? {
        return Err(NotFound(DirectorEntity, None));
      }
      if GetDirectorById(director.id.value).Err? {
        return Err(NotFound(DirectorEntity, director.id));
      }
      directors := directors[director.id.value := director];
      r := Ok(director);
    }

    /** deleteDirector: NotFound for an unknown id; otherwise exactly that row goes. */
    method DeleteDirector(id: int) returns (o: Outcome)
      modifies this
      ensures id !in old(directors) ==> o == Fail(NotFound(DirectorEntity, Some(id))) && unchanged(this)
      ensures id in old(directors) ==> o == Pass && directors == old(directors) - {id}
    {
      if GetDirectorById(id).Err? {
        return Fail(NotFound(DirectorEntity, Some(id)));
      }
      directors := directors - {id};
      o := Pass;
    }

    /**
     * getFilmsByDirector: NotFound for an unknown director (checked before the sort key); then the
     * director's films from `all` (the film store's findAll), sorted by release date for "year" or
     * by like count, most first, for "likes"; any other key is IllegalArgument.
     */
    function GetFilmsByDirector(directorId: int, sortBy: string, all: seq<Film>): (r: Result<seq<Film>>)
      reads this
      ensures directorId !in directors ==> r == Err(NotFound(DirectorEntity, Some(directorId)))
      ensures directorId in directors && SortKey(sortBy).None? ==> r == Err(IllegalArgument)
      ensures directorId in directors && SortKey(sortBy).Some? ==>
                (r.Ok? <==> !NullDateCompared(SortKey(sortBy).value, FilmsOf(all, directorId)))
      ensures r.Err? && directorId in directors && SortKey(sortBy).Some? ==> r.error == NullReference
      ensures r.Ok? ==> multiset(r.value) == multiset(FilmsOf(all, directorId))
      ensures r.Ok? ==> forall f :: f in r.value <==> f in all && directorId in f.directors
      ensures r.Ok? && EqualsIgnoreCase("year", sortBy) ==> SortedBy(ByReleaseAsc, r.value)
      ensures r.Ok? && EqualsIgnoreCase("likes", sortBy) ==> SortedBy(ByLikesDesc, r.value)
    {
      if GetDirectorById(directorId).Err? then Err(NotFound(DirectorEntity, Some(directorId)))
      else
        var directorFilms := FilmsOf(all, directorId);
        match SortKey(sortBy)
        case None => Err(IllegalArgument)
        case Some(order) =>
          if NullDateCompared(order, directorFilms) then Err(NullReference)
          else
          var sorted := SortBy(order, directorFilms);
          SortSortedPermutation(order, directorFilms);
          assert forall f :: f in sorted <==> f in directorFilms by {
            forall f ensures f in sorted <==> f in directorFilms {
              assert f in sorted <==> f in multiset(sorted);
            }
          }
          Ok(sorted)
    }
  }
}
