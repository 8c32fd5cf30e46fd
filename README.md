# Filmorate engagement core in Dafny

A verified model of the engagement part of the filmorate film catalogue, a Java Spring service:

- the social graph of users, kept as mutual friend sets in the in-memory user store;
- the like sets and popularity ranking of the in-memory film store;
- the user service's and the film service's reference and existence checks. In the application
  Spring gives these services the database stores (`@Primary` on `UserDbStorage` and
  `FilmDbStorage`, `@Qualifier("filmDbStorage")` in `FilmService`); the model puts them in front of
  the in-memory stores instead, because the database stores are SQL;
- review usefulness votes, in both storage classes of the repository: `ReviewDbStorage`, whose
  `useful` column moves by exactly the change of the signed vote sum, and the older
  `ReviewLikeDbStorage`, whose `rating` counter does not look at the stored polarity and drifts;
- the nearest-neighbour film recommender;
- the director filmography (filter by director, sort by release date or like count);
- the Java-side logic of the database film store: grouping like rows by user, building the search
  condition and its parameters, the `findByIds` in-clause, and the not-found check of `update`;
- the activity feed (events recorded per user, read back newest first);
- the genre existence check;
- the case-insensitive lookups of the `DirectorSortBy` and `SearchBy` enums.

Tables and stores are Dafny maps, sets and sequences. Classes whose fields the Java code updates in
place (`InMemoryUserStorage`, `InMemoryFilmStorage`, `ReviewDbStorage`, `ReviewLikeDbStorage`,
`FeedService`'s event store, `DirectorService`'s director table, `FilmDbStorage`'s film table)
are Dafny classes with `modifies` clauses. Stream pipelines are functions. Loops become methods
with invariants: the recommender's neighbour search, `getFilmLikesByUsers`, and the genre checks of
`FilmService.create`. Exceptions are the `Err`/`Fail` cases of `Result` and `Outcome` (module
`Wrappers`).

Each `ReviewDbStorage` vote operation is proved to preserve `useful - (likes - dislikes)` for every
review, a quantity the model calls the balance. For `ReviewLikeDbStorage` the model proves the
opposite: a repeated like raises `rating` by 2 while the vote rows stay the same.

Modules, one per source file, plus shared ones:

- `Wrappers`: options, results and the exception kinds.
- `Model`: dates and the record types.
- `Text`: ASCII case folding, Java's whitespace test, decimal rendering and parsing, join and split.
- `Enumeration`: hash-map iteration orders.
- `VoteTable`: the review_likes table and its signed sum.
- `FilmOrdering`: the sort both film rankings use.

## Where the code and the documented design differ

The model follows the code.

- Friendship: the documented design is a request and confirm lifecycle. `InMemoryUserStorage`
  makes both users friends in one step and removes the edge in both directions. It also does not
  reject a user befriending itself.
- `ReviewDbStorage.getUseful` on an unknown review: the design calls for NotFound. The code's
  `queryForObject` throws `EmptyResultDataAccessException` (`EmptyResult`), and the null branch
  cannot be reached because `create` always writes a number.
- `create` may store a caller-supplied `useful`. The design wants usefulness always equal to the
  signed vote sum. The code only keeps the difference (the balance) constant, so the model proves
  that.
- `ReviewLikeDbStorage` does not keep its counter equal to the signed sum: repeats and
  non-matching removals move it. `ReviewDbStorage` does keep it.
- `FeedService.delete` on an unknown id: `FeedDbStorage.getById` takes `getFirst()` of an empty
  list and throws `NoSuchElementException`. The NotFound branch never fires, because stored rows
  always carry an event id.
- `getPopularFilms` with a negative count fails in `Stream.limit` (IllegalArgument). A count of zero
  returns an empty list rather than being rejected.
- `FilmService.create` calls `genreService.findById`, which `GenreService` does not declare. It is
  modelled as `getGenreById`, the lookup that exists.
- `GenreService.validateGenresExist` calls `genreDbStorage.findByIds`, which `GenreDbStorage` does
  not declare. It is modelled as the rows of the genre table whose id is requested.
- `Film` has no `directors` field, although `DirectorService` and `FilmDbStorage` use one. The
  model's `Film` carries a set of director ids.
- `User.friends` is declared as a map but used as a set. The model uses a set.

## Model

| member | source | states |
|---|---|---|
| DirectorSortByEnum.FindFrom | src/main/java/ru/yandex/practicum/filmorate/model/DirectorSortBy.java:21-28 | the search from position i returns the first constant whose value equals the input ignoring case, and IllegalArgument only when no later constant matches |
| DirectorSortByEnum.FromValueMeaning | src/main/java/ru/yandex/practicum/filmorate/model/DirectorSortBy.java:21-28 | fromValue returns constant c exactly when c's value equals the input ignoring case, and fails exactly when no constant matches |
| DirectorSortByEnum.FromValueGetValue | src/main/java/ru/yandex/practicum/filmorate/model/DirectorSortBy.java:5-28 | fromValue(c.getValue()) == c for YEAR, LIKES and RATE |
| DirectorSortByEnum.FromValueIgnoresCase | src/main/java/ru/yandex/practicum/filmorate/model/DirectorSortBy.java:23 | "YEAR" resolves to YEAR and "Likes" to LIKES |
| DirectorSortByEnum.FromValueRejectsUnknown | src/main/java/ru/yandex/practicum/filmorate/model/DirectorSortBy.java:27 | an unrecognised string ("title") is IllegalArgument |
| DirectorSortByEnum.ValuesDistinctIgnoringCase | src/main/java/ru/yandex/practicum/filmorate/model/DirectorSortBy.java:6-8 | no input matches two different constants ignoring case |
| SearchByEnum.FindFrom | src/main/java/ru/yandex/practicum/filmorate/model/SearchBy.java:20-27 | the first matching constant from position i, or IllegalArgument when none matches |
| SearchByEnum.FromValueMeaning | src/main/java/ru/yandex/practicum/filmorate/model/SearchBy.java:20-27 | fromValue returns c exactly when c's value equals the input ignoring case, and fails exactly when none does |
| SearchByEnum.FromValueGetValue | src/main/java/ru/yandex/practicum/filmorate/model/SearchBy.java:5-27 | fromValue(c.getValue()) == c for TITLE and DIRECTOR |
| SearchByEnum.FromValueIgnoresCase | src/main/java/ru/yandex/practicum/filmorate/model/SearchBy.java:22 | "TITLE" and "Director" resolve |
| SearchByEnum.FromValueRejectsUnknown | src/main/java/ru/yandex/practicum/filmorate/model/SearchBy.java:26 | an unrecognised string ("year") is IllegalArgument |
| SearchByEnum.ValuesDistinctIgnoringCase | src/main/java/ru/yandex/practicum/filmorate/model/SearchBy.java:6-7 | "title" and "director" never match the same input |
| ReviewLedger.ReviewDbStorage.CheckUserExists | src/main/java/ru/yandex/practicum/filmorate/storage/review/ReviewDbStorage.java:47-54 | passes iff the user exists; otherwise NotFound naming the user |
| ReviewLedger.ReviewDbStorage.CheckFilmExists | src/main/java/ru/yandex/practicum/filmorate/storage/review/ReviewDbStorage.java:56-62 | passes iff the film exists; otherwise NotFound naming the film |
| ReviewLedger.ReviewDbStorage.CheckReviewExists | src/main/java/ru/yandex/practicum/filmorate/storage/review/ReviewDbStorage.java:64-70 | passes iff the review exists; otherwise NotFound naming the review |
| ReviewLedger.ReviewDbStorage.Create | src/main/java/ru/yandex/practicum/filmorate/storage/review/ReviewDbStorage.java:24-45 | unknown author, then unknown film, is NotFound with nothing stored; otherwise a fresh id, `useful` defaulting to 0, and the argument returned with that id |
| ReviewLedger.ReviewDbStorage.FindById | src/main/java/ru/yandex/practicum/filmorate/storage/review/ReviewDbStorage.java:86-90 | a review exactly for stored ids, carrying its id and stored `useful` |
| ReviewLedger.ReviewDbStorage.AddLike | src/main/java/ru/yandex/practicum/filmorate/storage/review/ReviewDbStorage.java:105-135 | unknown review or user is NotFound with no change; a first vote inserts a like and adds 1; a repeated like changes nothing; a like over a dislike flips the row and adds 2; `useful` minus the signed vote sum is preserved for every review |
| ReviewLedger.ReviewDbStorage.AddDislike | src/main/java/ru/yandex/practicum/filmorate/storage/review/ReviewDbStorage.java:138-168 | the mirror of addLike: -1 for a first dislike, no change for a repeat, -2 for a flip; NotFound before any change; the balance is preserved |
| ReviewLedger.ReviewDbStorage.RemoveLike | src/main/java/ru/yandex/practicum/filmorate/storage/review/ReviewDbStorage.java:171-186 | deletes the row and lowers `useful` by 1 only when the stored vote is a like, otherwise nothing changes; the balance is preserved |
| ReviewLedger.ReviewDbStorage.RemoveDislike | src/main/java/ru/yandex/practicum/filmorate/storage/review/ReviewDbStorage.java:189-204 | deletes the row and raises `useful` by 1 only when the stored vote is a dislike, otherwise nothing changes; the balance is preserved |
| ReviewLedger.ReviewDbStorage.GetUseful | src/main/java/ru/yandex/practicum/filmorate/storage/review/ReviewDbStorage.java:207-214 | a value exactly for stored reviews, the stored useful counter; EmptyResult otherwise |
| ReviewLedger.VoteKeepsBalance | src/main/java/ru/yandex/practicum/filmorate/storage/review/ReviewDbStorage.java:105-168 | the amount a vote adds to `useful` equals the change of the signed vote sum, so useful minus the sum is invariant |
| ReviewLedger.RemoveKeepsBalance | src/main/java/ru/yandex/practicum/filmorate/storage/review/ReviewDbStorage.java:171-204 | removing a matching vote changes `useful` and the signed sum by the same amount |
| ReviewLedger.UsefulnessScenario | src/main/java/ru/yandex/practicum/filmorate/storage/review/ReviewDbStorage.java:105-214 | like, then dislike by the same user, then removing the dislike gives usefulness 1, -1, 0 |
| VoteTable.ScoreAfterWrite | src/main/java/ru/yandex/practicum/filmorate/storage/review/ReviewDbStorage.java:119-131 | writing a vote changes the signed sum by the new value minus the old row's value |
| VoteTable.ScoreAfterDelete | src/main/java/ru/yandex/practicum/filmorate/storage/review/ReviewDbStorage.java:179-185 | deleting a row changes the signed sum by minus that row's value |
| ReviewLikeLedger.Bump | src/main/java/ru/yandex/practicum/filmorate/storage/review/ReviewLikeDbStorage.java:31-35 | the rating update touches only the named review, and nothing when it does not exist |
| ReviewLikeLedger.ReviewLikeDbStorage.AddLike | src/main/java/ru/yandex/practicum/filmorate/storage/review/ReviewLikeDbStorage.java:23-38 | the pair's one row becomes a like; `rating` changes by +1 for a first row and +2 for any existing row, so a repeated like drifts the counter by 2 |
| ReviewLikeLedger.ReviewLikeDbStorage.AddDislike | src/main/java/ru/yandex/practicum/filmorate/storage/review/ReviewLikeDbStorage.java:41-56 | the pair's one row becomes a dislike; `rating` changes by -1 for a first row and -2 for any existing row |
| ReviewLikeLedger.ReviewLikeDbStorage.RemoveLike | src/main/java/ru/yandex/practicum/filmorate/storage/review/ReviewLikeDbStorage.java:59-63 | deletes the row only when it is a like, but always subtracts 1 from `rating`; the counter drifts by -1 when no like row was there |
| ReviewLikeLedger.ReviewLikeDbStorage.RemoveDislike | src/main/java/ru/yandex/practicum/filmorate/storage/review/ReviewLikeDbStorage.java:66-71 | deletes the row only when it is a dislike, but always adds 1 to `rating` |
| ReviewLikeLedger.ReviewLikeDbStorage.GetRating | src/main/java/ru/yandex/practicum/filmorate/storage/review/ReviewLikeDbStorage.java:74-78 | the flag is true iff the review has more like rows than dislike rows, and false when it has no rows |
| ReviewLikeLedger.ReviewLikeDbStorage.GetById | src/main/java/ru/yandex/practicum/filmorate/storage/review/ReviewLikeDbStorage.java:80-89 | NotFound iff the review has no vote rows; otherwise one of its stored rows |
| ReviewLikeLedger.RepeatedLikeScenario | src/main/java/ru/yandex/practicum/filmorate/storage/review/ReviewLikeDbStorage.java:23-38 | two likes from one user leave one like row but a rating of 3 |
| Recommendation.GetRecommendations | src/main/java/ru/yandex/practicum/filmorate/service/RecommendationService.java:20-89 | unknown user is NotFound; no likes gives an empty result; the neighbour is never the target, shares at least one film, has the largest overlap, and is the first such in iteration order; no neighbour iff nobody shares a film; the result is the neighbour's likes minus the target's |
| Recommendation.RecommendationScenario | src/main/java/ru/yandex/practicum/filmorate/service/RecommendationService.java:20-89 | a concrete like map yields the best neighbour's unseen film, and a user whose likes nobody shares gets nothing |
| UserStore.ValidateUser | src/main/java/ru/yandex/practicum/filmorate/storage/user/InMemoryUserStorage.java:96-101 | fails iff a present login contains a space |
| UserStore.SetNameIfEmpty | src/main/java/ru/yandex/practicum/filmorate/storage/user/InMemoryUserStorage.java:103-107 | a null or blank name becomes the login, any other name is kept, nothing else changes |
| UserStore.Befriend | src/main/java/ru/yandex/practicum/filmorate/storage/user/InMemoryUserStorage.java:51-59 | each of the two users gains the other as a friend and no other user changes |
| UserStore.Unfriend | src/main/java/ru/yandex/practicum/filmorate/storage/user/InMemoryUserStorage.java:62-70 | each of the two users loses the other as a friend and no other user changes |
| UserStore.BefriendKeepsSymmetric | src/main/java/ru/yandex/practicum/filmorate/storage/user/InMemoryUserStorage.java:51-59 | adding a friendship keeps the friend relation symmetric and puts each user in the other's set |
| UserStore.UnfriendKeepsSymmetric | src/main/java/ru/yandex/practicum/filmorate/storage/user/InMemoryUserStorage.java:62-70 | removing a friendship keeps the relation symmetric and takes each user out of the other's set |
| UserStore.InMemoryUserStorage.Create | src/main/java/ru/yandex/practicum/filmorate/storage/user/InMemoryUserStorage.java:18-25 | a login with a space is Validation with nothing stored; otherwise the name is filled from the login and the user stored under a fresh id larger than all earlier ones |
| UserStore.InMemoryUserStorage.Update | src/main/java/ru/yandex/practicum/filmorate/storage/user/InMemoryUserStorage.java:28-38 | a null or unknown id, or a bad login, is Validation with the map unchanged; otherwise the user replaces the stored one |
| UserStore.InMemoryUserStorage.FindById | src/main/java/ru/yandex/practicum/filmorate/storage/user/InMemoryUserStorage.java:41-43 | a user exactly for stored ids |
| UserStore.InMemoryUserStorage.AddFriend | src/main/java/ru/yandex/practicum/filmorate/storage/user/InMemoryUserStorage.java:51-59 | both users stored: mutual friendship added; either missing: nothing changes; symmetry preserved |
| UserStore.InMemoryUserStorage.RemoveFriend | src/main/java/ru/yandex/practicum/filmorate/storage/user/InMemoryUserStorage.java:62-70 | both stored: the edge goes in both directions; otherwise nothing changes; symmetry preserved |
| UserStore.InMemoryUserStorage.GetFriends | src/main/java/ru/yandex/practicum/filmorate/storage/user/InMemoryUserStorage.java:73-76 | the user's friend set, empty for an unknown user |
| UserStore.InMemoryUserStorage.GetCommonFriends | src/main/java/ru/yandex/practicum/filmorate/storage/user/InMemoryUserStorage.java:79-94 | exactly the stored users in both friend sets; empty if either user is unknown |
| Users.UserService.Update | src/main/java/ru/yandex/practicum/filmorate/service/UserService.java:28-38 | null id, then unknown id, is NotFound with storage unchanged; otherwise the store's update |
| Users.UserService.FindById | src/main/java/ru/yandex/practicum/filmorate/service/UserService.java:40-43 | the stored user, or NotFound for an unknown id |
| Users.UserService.AddFriend | src/main/java/ru/yandex/practicum/filmorate/service/UserService.java:49-57 | the user is checked before the friend; NotFound leaves the graph unchanged; otherwise both become friends and symmetry is kept |
| Users.UserService.RemoveFriend | src/main/java/ru/yandex/practicum/filmorate/service/UserService.java:59-67 | same check order; NotFound leaves the graph unchanged; otherwise the edge goes both ways |
| Users.UserService.GetFriends | src/main/java/ru/yandex/practicum/filmorate/service/UserService.java:69-78 | NotFound for an unknown user; otherwise exactly the friends that resolve to stored users |
| Users.UserService.GetCommonFriends | src/main/java/ru/yandex/practicum/filmorate/service/UserService.java:80-87 | both users must exist (first one checked first), then the store's intersection |
| FilmStore.ValidateFilm | src/main/java/ru/yandex/practicum/filmorate/storage/film/InMemoryFilmStorage.java:75-80 | a null release date is NullReference; a date before 28 December 1895 is Validation; it passes iff the date is present and not before that day |
| FilmStore.ValidateFilmBoundary | src/main/java/ru/yandex/practicum/filmorate/storage/film/InMemoryFilmStorage.java:75-80 | 1895-12-28 is accepted and 1895-12-27 rejected |
| FilmStore.InMemoryFilmStorage.Create | src/main/java/ru/yandex/practicum/filmorate/storage/film/InMemoryFilmStorage.java:19-25 | a null release date is NullReference and an early one Validation, with nothing stored; otherwise the film is stored under a fresh id larger than all earlier ones |
| FilmStore.InMemoryFilmStorage.Update | src/main/java/ru/yandex/practicum/filmorate/storage/film/InMemoryFilmStorage.java:28-37 | a null or unknown id is Validation; then a null release date is NullReference and an early one Validation; nothing changes on any error; otherwise the film replaces the stored one |
| FilmStore.InMemoryFilmStorage.FindById | src/main/java/ru/yandex/practicum/filmorate/storage/film/InMemoryFilmStorage.java:40-42 | a film exactly for stored ids |
| FilmStore.InMemoryFilmStorage.AddLike | src/main/java/ru/yandex/practicum/filmorate/storage/film/InMemoryFilmStorage.java:50-56 | adds the user to that film's like set only; a repeated like and an unknown film change nothing |
| FilmStore.InMemoryFilmStorage.RemoveLike | src/main/java/ru/yandex/practicum/filmorate/storage/film/InMemoryFilmStorage.java:59-65 | removes only that user's like from that film; an absent like or unknown film changes nothing |
| FilmStore.InMemoryFilmStorage.GetPopularFilms | src/main/java/ru/yandex/practicum/filmorate/storage/film/InMemoryFilmStorage.java:68-73 | negative count is IllegalArgument; otherwise min(count, number of films) stored films, by non-increasing like count, each at most once, and no film left out has more likes than one kept |
| FilmStore.LimitKeepsTop | src/main/java/ru/yandex/practicum/filmorate/storage/film/InMemoryFilmStorage.java:70-71 | cutting a ranking never leaves out a film with more likes than one that stays |
| FilmOrdering.SortSortedPermutation | src/main/java/ru/yandex/practicum/filmorate/storage/film/InMemoryFilmStorage.java:69-72 | the sort returns a permutation of its input ordered by the comparator |
| FilmOrdering.SortDistinct | src/main/java/ru/yandex/practicum/filmorate/storage/film/InMemoryFilmStorage.java:69-72 | sorting keeps ids distinct |
| Films.FirstMissingGenre | src/main/java/ru/yandex/practicum/filmorate/service/FilmService.java:37-41 | the first genre id, in the film's order, missing from the genre table; none iff all are present |
| Films.FilmService.Create | src/main/java/ru/yandex/practicum/filmorate/service/FilmService.java:32-44 | an unknown MPA rating, then the first unknown genre, is NotFound with nothing stored; otherwise the store's create, including its release-date errors |
| Films.FilmService.Update | src/main/java/ru/yandex/practicum/filmorate/service/FilmService.java:46-53 | null id, then unknown id, is NotFound with the store unchanged; otherwise the store's update, including its release-date errors |
| Films.FilmService.FindById | src/main/java/ru/yandex/practicum/filmorate/service/FilmService.java:55-58 | the stored film, or NotFound for an unknown id |
| Films.FilmService.AddLike | src/main/java/ru/yandex/practicum/filmorate/service/FilmService.java:64-72 | the film is checked before the user; on NotFound no like is recorded; otherwise the like is added |
| Films.FilmService.RemoveLike | src/main/java/ru/yandex/practicum/filmorate/service/FilmService.java:74-82 | same check order, no change on NotFound, otherwise only that like is removed |
| Films.FilmService.GetPopularFilms | src/main/java/ru/yandex/practicum/filmorate/service/FilmService.java:84-87 | no count means ten films at most; a given count is passed to the store |
| Directors.FilmsOf | src/main/java/ru/yandex/practicum/filmorate/service/DirectorService.java:56-58 | exactly the films whose director set holds the id |
| Directors.SortKey | src/main/java/ru/yandex/practicum/filmorate/service/DirectorService.java:60-73 | "year" in any case selects release order, "likes" in any case like order, anything else none |
| Directors.DirectorService.GetDirectorById | src/main/java/ru/yandex/practicum/filmorate/service/DirectorService.java:25-28 | the stored director, or NotFound |
| Directors.DirectorService.UpdateDirector | src/main/java/ru/yandex/practicum/filmorate/service/DirectorService.java:34-43 | null id, then unknown id, is NotFound with the table unchanged; otherwise the director replaces the row |
| Directors.DirectorService.DeleteDirector | src/main/java/ru/yandex/practicum/filmorate/service/DirectorService.java:45-50 | unknown id is NotFound with no change; otherwise exactly that row is removed |
| Directors.DirectorService.GetFilmsByDirector | src/main/java/ru/yandex/practicum/filmorate/service/DirectorService.java:52-74 | unknown director is NotFound before the key is looked at; a bad key is IllegalArgument; a date sort over two or more films one of which has a null release date is NullReference; otherwise a permutation of the director's films, holding exactly them, sorted by release date or by like count |
| FilmRows.GetFilmLikesByUsers | src/main/java/ru/yandex/practicum/filmorate/storage/film/FilmDbStorage.java:186-197 | film f is in result[u] iff a row (u, f) exists; u is a key iff it has a row; every set is non-empty |
| FilmRows.GroupingScenario | src/main/java/ru/yandex/practicum/filmorate/storage/film/FilmDbStorage.java:186-197 | three rows from two users group into {1: {10, 11}, 2: {10}} |
| FilmRows.Pattern | src/main/java/ru/yandex/practicum/filmorate/storage/film/FilmDbStorage.java:220 | the lower-cased query wrapped in % wildcards |
| FilmRows.BuildSearch | src/main/java/ru/yandex/practicum/filmorate/storage/film/FilmDbStorage.java:219-253 | no query iff neither field is asked for; one parameter per field, each the pattern; placeholders match parameters; OR only when both fields are asked for |
| FilmRows.ConditionPlaceholders | src/main/java/ru/yandex/practicum/filmorate/storage/film/FilmDbStorage.java:244-251 | each field's condition has one placeholder and OR none |
| FilmRows.FindByIdsClause | src/main/java/ru/yandex/practicum/filmorate/storage/film/FilmDbStorage.java:151-158 | no query for a null or empty id set; otherwise the comma-join of the ids' decimal forms |
| FilmRows.FindByIdsClauseRoundTrip | src/main/java/ru/yandex/practicum/filmorate/storage/film/FilmDbStorage.java:156-158 | splitting the in-clause at commas and parsing gives back exactly the listed ids |
| FilmRows.FilmDbStorage.Update | src/main/java/ru/yandex/practicum/filmorate/storage/film/FilmDbStorage.java:72-93 | a film without MPA is a null dereference; no row touched is NotFound; otherwise the film replaces the stored one |
| Text.IntToStringRoundTrip | src/main/java/ru/yandex/practicum/filmorate/storage/film/FilmDbStorage.java:157 | String.valueOf of a long parses back to the same number and holds no comma |
| Text.SplitJoin | src/main/java/ru/yandex/practicum/filmorate/storage/film/FilmDbStorage.java:156-158 | splitting a comma-join gives back the pieces when none holds a comma |
| FeedEvents.FeedService.Create | src/main/java/ru/yandex/practicum/filmorate/service/FeedService.java:28-37 | the stored event carries exactly the given user, entity, type and operation, with a fresh id, appended to the store |
| FeedEvents.FeedService.Delete | src/main/java/ru/yandex/practicum/filmorate/service/FeedService.java:39-48 | an unknown id is NoSuchElement with nothing deleted; otherwise exactly that event is removed |
| FeedEvents.FeedService.GetByUserId | src/main/java/ru/yandex/practicum/filmorate/service/FeedService.java:50-54 | the user's events in reverse store order, and nothing else |
| FeedEvents.FeedService.GetAll | src/main/java/ru/yandex/practicum/filmorate/service/FeedService.java:56-60 | the store's list unchanged |
| FeedEvents.WithoutDropsOne | src/main/java/ru/yandex/practicum/filmorate/service/FeedService.java:47 | deleting a present id removes exactly one event and keeps ids unique |
| FeedEvents.NewestFirstScenario | src/main/java/ru/yandex/practicum/filmorate/service/FeedService.java:50-54 | three events of a user come back newest first, another user's event left out |
| GenreLookup.GetGenreById | src/main/java/ru/yandex/practicum/filmorate/service/GenreService.java:24-27 | the stored genre, or NotFound when the id is absent |
| GenreLookup.FindByIds | src/main/java/ru/yandex/practicum/filmorate/service/GenreService.java:34 | exactly the stored genres whose id was requested |
| GenreLookup.ValidateGenresExist | src/main/java/ru/yandex/practicum/filmorate/service/GenreService.java:29-46 | passes for a null or empty set; otherwise passes iff every id is stored, and the failure lists exactly the missing ids |
| GenreLookup.ValidateGenresSubset | src/main/java/ru/yandex/practicum/filmorate/service/GenreService.java:29-46 | a subset of a passing id set passes |
| GenreLookup.ValidateGenresReportsMissing | src/main/java/ru/yandex/practicum/filmorate/service/GenreService.java:39-44 | asking for {1, 3, 4} with genres 1 and 2 stored reports exactly {3, 4} |

## Left out

- Controllers, the exception-to-HTTP handlers, logging and timestamps: framework glue.
- All SQL text and the database engine's evaluation of it (joins, ORDER BY, GROUP BY, LIKE
  matching). This covers the other `FilmDbStorage` queries (`getPopularFilms*`, `findCommonFilms`,
  the query part of `searchFilms` and of `findByIds`) and the pure SQL stores (`UserDbStorage`,
  `FeedDbStorage`, `DirectorDbStorage`, `GenreDbStorage`, `MpaStorage`). Tables are maps in the model.
- `ReviewService`: it calls `estimate` and `removeEstimate`, which the review storage does not
  declare. Votes are modelled at the storage level.
- `MpaService` and `MPAService`: thin lookups. The film service holds the set of known MPA ids.
- Plain delegations with no logic of their own: `findAll` of the services and stores,
  `UserService.create`, `DirectorService.getAllDirectors` and `createDirector`,
  `GenreService.getAllGenres`, and `FeedService.create(Feed)` (folded into the four-argument
  `create`).
- Concurrency and atomicity: the code has none to verify.
- Integer widths: ids and id counters are unbounded integers; Java's `Long` ids would wrap only
  after 2^63 creations.
- ReviewLedger.ReviewDbStorage: `useful` is a 32-bit `Integer` that the caller of `create` can seed
  with any value, and the votes move it by 1 or 2 in SQL (`useful = useful + 1`, `+ 2`, `- 1`,
  `- 2`). The model's `useful` is unbounded. Overflow past the 32-bit range is left to the
  database and is not modelled, so the balance is proved only for unbounded values.
- ReviewLikeLedger.ReviewLikeDbStorage: the `rating` column moves in SQL in the same way, and its
  overflow is not modelled either.
- Films.FilmService and Users.UserService: Spring wires both services to the database stores
  (`FilmService.java:26-27`, `@Primary` on `FilmDbStorage` and `UserDbStorage`). The model composes
  them with the in-memory stores, so their NotFound checks are modelled but the writes behind them
  are the in-memory ones, and a release date before 1895-12-28 is rejected by
  `InMemoryFilmStorage.validateFilm`; the database stores do not check release dates.
- Aliasing of Java objects: a film or user returned by a store is a value in the model. A caller
  that mutated the returned Java object would also change the stored one; the model does not
  capture that.
- DirectorSortByEnum.FromValue: case folding covers ASCII letters only; Java's `equalsIgnoreCase`
  also folds other alphabets.
- SearchByEnum.FromValue: the same ASCII-only case folding.
- Directors.SortKey: the same ASCII-only case folding for "year" and "likes".
- FilmRows.Pattern: `toLowerCase` is modelled on ASCII letters only.
- Recommendation.GetRecommendations: the `HashMap` iteration order is a parameter that lists each
  key once. The active version of the method (`RecommendationService.java:55-89`) runs the same
  neighbour search through an `Extension` type that is not in the repository, so the earlier,
  commented-out version over film-id sets (lines 20-53) is modelled. The final `findByIds` call is
  represented by the set of film ids it receives.
- FilmStore.InMemoryFilmStorage.GetPopularFilms: the `HashMap` order is a parameter. A stream over
  a `HashMap`'s values is unordered, so Java fixes no order among films with equal like counts,
  and the contract does not state one either.
- Films.FilmService.GetPopularFilms: the same iteration-order parameter, passed through.
- FilmRows.FindByIdsClause: the `HashSet` iteration order is a parameter; the rows the query
  returns are not modelled.
- FilmRows.FilmDbStorage.Update: the read-back through `findById` is taken to return the film as
  written; the genre order the database returns is not modelled.
- Directors.DirectorService.GetFilmsByDirector: the film list (`filmStorage.findAll()`) is passed
  in, because the film store behind the service is a database store outside this model. A null
  `sortBy` is not modelled (it would fall through to IllegalArgument). For a date sort with a null
  release date the contract promises only NullReference; which film the comparator meets first is
  not modelled.
- ReviewLikeLedger.ReviewLikeDbStorage.GetById: which of a review's rows the query returns first is
  unspecified; the contract says only that it is one of them.
- FeedEvents.FeedService.GetByUserId: the event store returns a user's events in insertion order.
  The database query has no ORDER BY, so that order is an assumption of the model.
- FeedEvents.FeedService.Delete: the event store is a list with unique ids, so deleting an id
  removes exactly one event.
