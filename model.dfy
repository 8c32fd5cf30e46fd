/** The catalogue's records as values: dates, films, users, directors, genres and feed events. */
module Model {
  import opened Wrappers

  /** A LocalDate as (year, month, day). */
  datatype Date = Date(year: int, month: int, day: int)

  /** LocalDate.isBefore: lexicographic on (year, month, day). */
  predicate Before(a: Date, b: Date)
  {
    a.year < b.year
    || (a.year == b.year && a.month < b.month)
    || (a.year == b.year && a.month == b.month && a.day < b.day)
  }

  /** Not after: the order Comparator.comparing(Film::getReleaseDate) sorts by. */
  predicate NotAfter(a: Date, b: Date)
  {
    !Before(b, a)
  }

  /** The first public film screening; no film may be released before it. */
  const CinemaBirthday := Date(1895, 12, 28)

  /**
   * A film. A null release date is None; `likes` holds the ids of the users who liked it, `genres` the genre ids in the
   * order of the film's LinkedHashSet, `directors` the ids of its directors.
   */
  datatype Film = Film(
    id: Option<int>,
    name: string,
    description: string,
    releaseDate: Option<Date>,
    duration: int,
    likes: set<int>,
    mpa: Option<int>,
    genres: seq<int>,
    directors: set<int>)

  /** A user. A null login or name is None; `friends` holds friend ids. */
  datatype User = User(
    id: Option<int>,
    email: string,
    login: Option<string>,
    name: Option<string>,
    birthday: Date,
    friends: set<int>)

  datatype Director = Director(id: Option<int>, name: string)

  datatype Genre = Genre(id: int, name: string)

  datatype EventType = LIKE | REVIEW | FRIEND

  datatype Operation = REMOVE | ADD | UPDATE

  /** One activity-feed event; the timestamp is not modelled. */
  datatype Feed = Feed(eventId: Option<int>, userId: int, entityId: int, eventType: EventType, operation: Operation)
}
