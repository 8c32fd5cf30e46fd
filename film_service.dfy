/** The film service: reference and existence checks in front of the in-memory film store. */
module Films {
  import opened Wrappers
  import opened Model
  import opened Enumeration
  import opened FilmOrdering
  import opened FilmStore
  import opened UserStore
  import opened GenreLookup

  /** The page size getPopularFilms uses when no count is given. */
  const DefaultCount := 10

  /** The first genre id, in the film's order, that the genre table does not hold. */
  function FirstMissingGenre(genres: seq<int>, table: map<int, Genre>): (r: Option<int>)
    ensures r.None? <==> forall i :: 0 <= i < |genres| ==> genres[i] in table
    ensures r.Some? ==> exists k :: 0 <= k < |genres| && genres[k] == r.value && genres[k] !in table
                                  && forall j :: 0 <= j < k ==> genres[j] in table
  {
    if genres == [] then None
    else if genres[0] !in table then Some(genres[0])
    else
      var rest := FirstMissingGenre(genres[1..], table);
      assert rest.Some? ==> exists k :: 0 <= k < |genres| && genres[k] == rest.value && genres[k] !in table
                                    && forall j :: 0 <= j < k ==> genres[j] in table by {
        if rest.Some? {
          var k :| 0 <= k < |genres[1..]| && genres[1..][k] == rest.value && genres[1..][k] !in table
                   && forall j :: 0 <= j < k ==> genres[1..][j] in table;
          assert genres[k + 1] == rest.value;
        }
      }
      rest
  }

  class FilmService {
    const filmStorage: InMemoryFilmStorage
    const userStorage: InMemoryUserStorage
    /** The ids of the MPA ratings on file. */
    const mpaIds: set<int>
    /** The genre table. */
    const genres: map<int, Genre>

    constructor (filmStorage: InMemoryFilmStorage, userStorage: InMemoryUserStorage,
                 mpaIds: set<int>, genres: map<int, Genre>)
      ensures this.filmStorage == filmStorage && this.userStorage == userStorage
      ensures this.mpaIds == mpaIds && this.genres == genres
    {
      this.filmStorage := filmStorage;
      this.userStorage := userStorage;
      this.mpaIds := mpaIds;
      this.genres := genres;
    }

    /**
     * create: the MPA rating, when given, and then every genre are looked up first; one missing
     * reference is NotFound and nothing is stored. Otherwise the store's create decides.
     */
    method Create(film: Film) returns (r: Result<Film>)
      requires filmStorage.Valid()
      modifies filmStorage
      ensures filmStorage.Valid()
      ensures film.mpa.Some? && film.mpa.value !in mpaIds ==>
                r == Err(NotFound(MpaEntity, film.mpa)) && unchanged(filmStorage)
      ensures (film.mpa.None? || film.mpa.value in mpaIds) && FirstMissingGenre(film.genres, genres).Some? ==>
                r == Err(NotFound(GenreEntity, FirstMissingGenre(film.genres, genres))) && unchanged(filmStorage)
      ensures (film.mpa.None? || film.mpa.value in mpaIds) && FirstMissingGenre(film.genres, genres).None? &&
              ValidateFilm(film) != Pass ==>
                r == Err(ValidateFilm(film).error) && unchanged(filmStorage)
      ensures (film.mpa.None? || film.mpa.value in mpaIds) && FirstMissingGenre(film.genres, genres).None? &&
              ValidateFilm(film) == Pass ==>
                && r == Ok(film.(id := Some(old(filmStorage.idCounter))))
                && filmStorage.films == old(filmStorage.films)[old(filmStorage.idCounter) := r.value]
                && filmStorage.idCounter == old(filmStorage.idCounter) + 1
    {
      if film.mpa.Some? && film.mpa.value !in mpaIds {
        return Err(NotFound(MpaEntity, film.mpa));
      }
      var i := 0;
      while i < |film.genres|
        invariant 0 <= i <= |film.genres|
        invariant forall j :: 0 <= j < i ==> film.genres[j] in genres
      {
        var g := GetGenreById(genres, film.genres[i]);
        if g.Err? {
          FirstMissingIsFirst(film.genres, i);
          return Err(g.error);
        }
        i := i + 1;
      }
      r := filmStorage.Create(film);
    }

    /** The loop stops at the first missing genre, which is the one FirstMissingGenre names. */
    lemma FirstMissingIsFirst(s: seq<int>, i: int)
      requires 0 <= i < |s| && s[i] !in genres
      requires forall j :: 0 <= j < i ==> s[j] in genres
      ensures FirstMissingGenre(s, genres) == Some(s[i])
    {
      var r := FirstMissingGenre(s, genres);
      var k :| 0 <= k < |s| && s[k] == r.value && s[k] !in genres && forall j :: 0 <= j < k ==> s[j] in genres;
      assert !(k < i) && !(i < k);
    }

    /** update: a null or unknown id is NotFound before the store's update is called. */
    method Update(film: Film) returns (r: Result<Film>)
      requires filmStorage.Valid()
      modifies filmStorage
      ensures filmStorage.Valid()
      ensures film.id.None? ==> r == Err(NotFound(FilmEntity, None)) && unchanged(filmStorage)
      ensures film.id.Some? && film.id.value !in old(filmStorage.films) ==>
                r == Err(NotFound(FilmEntity, film.id)) && unchanged(filmStorage)
      ensures film.id.Some? && film.id.value in old(filmStorage.films) && ValidateFilm(film) != Pass ==>
                r == Err(ValidateFilm(film).error) && unchanged(filmStorage)
      ensures film.id.Some? && film.id.value in old(filmStorage.films) && ValidateFilm(film) == Pass ==>
                r == Ok(film) && filmStorage.films == old(filmStorage.films)[film.id.value := film]
                && filmStorage.idCounter == old(filmStorage.idCounter)
    {
      if film.id.None? {
        return Err(NotFound(FilmEntity, None));
      }
      if filmStorage.FindById(film.id.value).None? {
        return Err(NotFound(FilmEntity, film.id));
      }
      r := filmStorage.Update(film);
    }

    /** findById: NotFound for an unknown id. */
    function FindById(id: int): (r: Result<Film>)
      reads this, filmStorage
      ensures r.Ok? <==> id in filmStorage.films
      ensures r.Ok? ==> r.value == filmStorage.films[id]
      ensures r.Err? ==> r.error == NotFound(FilmEntity, Some(id))
    {
      match filmStorage.FindById(id)
      case Some(f) => Ok(f)
      case None => Err(NotFound(FilmEntity, Some(id)))
    }

    /**
     * addLike: the film is checked before the user, so an unknown film is reported even when the
     * user is unknown too; on NotFound no like is recorded.
     */
    method AddLike(filmId: int, userId: int) returns (o: Outcome)
      requires filmStorage.Valid()
      modifies filmStorage
      ensures filmStorage.Valid()
      ensures filmId !in old(filmStorage.films) ==>
                o == Fail(NotFound(FilmEntity, Some(filmId))) && unchanged(filmStorage)
      ensures filmId in old(filmStorage.films) && userId !in userStorage.users ==>
                o == Fail(NotFound(UserEntity, Some(userId))) && unchanged(filmStorage)
      ensures filmId in old(filmStorage.films) && userId in userStorage.users ==>
                && o == Pass
                && filmStorage.films == old(filmStorage.films)[filmId :=
                     old(filmStorage.films)[filmId].(likes := old(filmStorage.films)[filmId].likes + {userId})]
    {
      if FindById(filmId).Err? {
        return Fail(NotFound(FilmEntity, Some(filmId)));
      }
      if userStorage.FindById(userId).None? {
        return Fail(NotFound(UserEntity, Some(userId)));
      }
      filmStorage.AddLike(filmId, userId);
      o := Pass;
    }

    /** removeLike: the same checks in the same order; then only this user's like is dropped. */
    method RemoveLike(filmId: int, userId: int) returns (o: Outcome)
      requires filmStorage.Valid()
      modifies filmStorage
      ensures filmStorage.Valid()
      ensures filmId !in old(filmStorage.films) ==>
                o == Fail(NotFound(FilmEntity, Some(filmId))) && unchanged(filmStorage)
      ensures filmId in old(filmStorage.films) && userId !in userStorage.users ==>
                o == Fail(NotFound(UserEntity, Some(userId))) && unchanged(filmStorage)
      ensures filmId in old(filmStorage.films) && userId in userStorage.users ==>
                && o == Pass
                && filmStorage.films == old(filmStorage.films)[filmId :=
                     old(filmStorage.films)[filmId].(likes := old(filmStorage.films)[filmId].likes - {userId})]
    {
      if FindById(filmId).Err? {
        return Fail(NotFound(FilmEntity, Some(filmId)));
      }
      if userStorage.FindById(userId).None? {
        return Fail(NotFound(UserEntity, Some(userId)));
      }
      filmStorage.RemoveLike(filmId, userId);
      o := Pass;
    }

    /** getPopularFilms: a missing count means the top ten; a given count is passed through. */
    function GetPopularFilms(count: Option<int>, order: seq<int>): (r: Result<seq<Film>>)
      reads this, filmStorage
      requires filmStorage.Valid() && EnumeratesKeys(order, filmStorage.films)
      ensures count.None? ==> r.Ok? && |r.value| == if |filmStorage.films| < DefaultCount then |filmStorage.films| else DefaultCount
      ensures count.Some? ==> r == filmStorage.GetPopularFilms(count.value, order)
      ensures r.Ok? ==> SortedBy(ByLikesDesc, r.value) && DistinctIds(r.value)
    {
      filmStorage.GetPopularFilms(if count.Some? then count.value else DefaultCount, order)
    }
  }
}
