/**
 * The review store with its vote ledger: the reviews table (with its `useful` counter), the
 * review_likes table, and the users and films tables the guards look into.
 */
module ReviewLedger {
  import opened Wrappers
  import opened VoteTable

  /** A Review object as callers see it; a null id or null useful is None. */
  datatype Review = Review(
    reviewId: Option<int>,
    content: string,
    isPositive: bool,
    userId: int,
    filmId: int,
    useful: Option<int>)

  /** A row of the reviews table. */
  datatype ReviewRow = ReviewRow(content: string, isPositive: bool, userId: int, filmId: int, useful: int)

  /** mapRowToReview. */
  function AsReview(id: int, row: ReviewRow): Review
  {
    Review(Some(id), row.content, row.isPositive, row.userId, row.filmId, Some(row.useful))
  }

  /** The counter change a like (or a dislike) makes given the voter's stored row. */
  function LikeDelta(votes: Votes, reviewId: int, userId: int, isLike: bool): int
  {
    if (reviewId, userId) !in votes then (if isLike then 1 else -1)
    else if votes[(reviewId, userId)] == isLike then 0
    else if isLike then 2 else -2
  }

  /** Every vote operation moves `useful` by exactly the change in the signed sum of the review's rows. */
  lemma VoteKeepsBalance(votes: Votes, reviewId: int, userId: int, isLike: bool)
    ensures var votes' := if (reviewId, userId) in votes && votes[(reviewId, userId)] == isLike then votes
                          else votes[(reviewId, userId) := isLike];
            Score(votes', reviewId) == Score(votes, reviewId) + LikeDelta(votes, reviewId, userId, isLike)
  {
    if !((reviewId, userId) in votes && votes[(reviewId, userId)] == isLike) {
      ScoreAfterWrite(votes, reviewId, userId, isLike);
    }
  }

  /** Removing a row of the named polarity moves `useful` by exactly the change in the signed sum. */
  lemma RemoveKeepsBalance(votes: Votes, reviewId: int, userId: int, isLike: bool)
    requires (reviewId, userId) in votes && votes[(reviewId, userId)] == isLike
    ensures Score(votes - {(reviewId, userId)}, reviewId) == Score(votes, reviewId) - (if isLike then 1 else -1)
  {
    ScoreAfterDelete(votes, reviewId, userId);
  }

  class ReviewDbStorage {
    /** Ids present in the users table. */
    var users: set<int>
    /** Ids present in the films table. */
    var films: set<int>
    /** The reviews table by id. */
    var reviews: map<int, ReviewRow>
    /** The review_likes table. */
    var votes: Votes
    /** The next id the reviews table's identity column hands out. */
    var nextId: int

    ghost predicate Valid()
      reads this
    {
      && (forall id :: id in reviews ==> id < nextId)
      && (forall k :: k in votes ==> k.0 in reviews)
    }

    /** useful minus the signed sum of the review's rows: what every vote operation keeps. */
    ghost function Balance(reviewId: int): int
      reads this
      requires reviewId in reviews
    {
      reviews[reviewId].useful - Score(votes, reviewId)
    }

    constructor (users: set<int>, films: set<int>)
      ensures Valid()
      ensures this.users == users && this.films == films
      ensures reviews == map[] && votes == map[] && nextId == 1
    {
      this.users := users;
      this.films := films;
      reviews := map[];
      votes := map[];
      nextId := 1;
    }

    /** checkUserExists: NotFound unless the users table has the id. */
    function CheckUserExists(userId: int): (o: Outcome)
      reads this
      ensures o == Pass <==> userId in users
      ensures o != Pass ==> o == Fail(NotFound(UserEntity, Some(userId)))
    {
      if userId in users then Pass else Fail(NotFound(UserEntity, Some(userId)))
    }

    /** checkFilmExists: NotFound unless the films table has the id. */
    function CheckFilmExists(filmId: int): (o: Outcome)
      reads this
      ensures o == Pass <==> filmId in films
      ensures o != Pass ==> o == Fail(NotFound(FilmEntity, Some(filmId)))
    {
      if filmId in films then Pass else Fail(NotFound(FilmEntity, Some(filmId)))
    }

    /** checkReviewExists: NotFound unless the reviews table has the id. */
    function CheckReviewExists(reviewId: int): (o: Outcome)
      reads this
      ensures o == Pass <==> reviewId in reviews
      ensures o != Pass ==> o == Fail(NotFound(ReviewEntity, Some(reviewId)))
    {
      if reviewId in reviews then Pass else Fail(NotFound(ReviewEntity, Some(reviewId)))
    }

    /**
     * create: the author and the film must exist; the row gets the next id and `useful`
     * defaults to 0. The returned object is the argument with its id set.
     */
    method Create(review: Review) returns (r: Result<Review>)
      requires Valid()
      modifies this`reviews, this`nextId
      ensures Valid()
      ensures votes == old(votes)
      ensures review.userId !in users ==>
                r == Err(NotFound(UserEntity, Some(review.userId))) && unchanged(this)
      ensures review.userId in users && review.filmId !in films ==>
                r == Err(NotFound(FilmEntity, Some(review.filmId))) && unchanged(this)
      ensures review.userId in users && review.filmId in films ==>
                && old(nextId) !in old(reviews)
                && r == Ok(review.(reviewId := Some(old(nextId))))
                && reviews == old(reviews)[old(nextId) := ReviewRow(review.content, review.isPositive,
                     review.userId, review.filmId, if review.useful.Some? then review.useful.value else 0)]
                && nextId == old(nextId) + 1
    {
      if CheckUserExists(review.userId) != Pass {
        return Err(NotFound(UserEntity, Some(review.userId)));
      }
      if CheckFilmExists(review.filmId) != Pass {
        return Err(NotFound(FilmEntity, Some(review.filmId)));
      }
      var useful := if review.useful.Some? then review.useful.value else 0;
      var id := nextId;
      reviews := reviews[id := ReviewRow(review.content, review.isPositive, review.userId, review.filmId, useful)];
      nextId := nextId + 1;
      r := Ok(review.(reviewId := Some(id)));
    }

    /** findById. */
    function FindById(reviewId: int): (r: Option<Review>)
      reads this
      ensures r.Some? <==> reviewId in reviews
      ensures r.Some? ==> r.value.reviewId == Some(reviewId) && r.value.useful == Some(reviews[reviewId].useful)
    {
      if reviewId in reviews then Some(AsReview(reviewId, reviews[reviewId])) else None
    }

    /** Shared body of addLike (isLike) and addDislike (!isLike). */
    method Vote(reviewId: int, userId: int, isLike: bool) returns (r: Result<Review>)
      requires Valid()
      modifies this`reviews, this`votes
      ensures Valid()
      ensures reviewId !in old(reviews) ==>
                r == Err(NotFound(ReviewEntity, Some(reviewId))) && unchanged(this)
      ensures reviewId in old(reviews) && userId !in users ==>
                r == Err(NotFound(UserEntity, Some(userId))) && unchanged(this)
      ensures reviewId in old(reviews) && userId in users ==>
                && votes == old(votes)[(reviewId, userId) := isLike]
                && reviews == old(reviews)[reviewId := old(reviews)[reviewId].(useful :=
                     old(reviews)[reviewId].useful + LikeDelta(old(votes), reviewId, userId, isLike))]
                && r == Ok(AsReview(reviewId, reviews[reviewId]))
      ensures (reviewId, userId) in old(votes) && old(votes)[(reviewId, userId)] == isLike ==> unchanged(this)
      ensures reviews.Keys == old(reviews).Keys
      ensures forall id :: id in reviews ==> Balance(id) == old(Balance(id))
    {
      if CheckReviewExists(reviewId) != Pass {
        return Err(NotFound(ReviewEntity, Some(reviewId)));
      }
      if CheckUserExists(userId) != Pass {
        return Err(NotFound(UserEntity, Some(userId)));
      }
      var key := (reviewId, userId);
      if key in votes && votes[key] == isLike {
        // the same vote again: nothing to do
        return Ok(AsReview(reviewId, reviews[reviewId]));
      }
      var delta := if key in votes then (if isLike then 2 else -2) else (if isLike then 1 else -1);
      reviews := reviews[reviewId := reviews[reviewId].(useful := reviews[reviewId].useful + delta)];
      votes := votes[key := isLike];
      r := Ok(AsReview(reviewId, reviews[reviewId]));
      VoteKeepsBalance(old(votes), reviewId, userId, isLike);
      forall id | id in reviews && id != reviewId
        ensures Score(votes, id) == Score(old(votes), id)
      {
        ScoreElsewhere(old(votes), id, reviewId, userId, isLike);
      }
    }

    /**
     * addLike: a first like inserts a like row and raises `useful` by 1; a like over a stored
     * like changes nothing; a like over a stored dislike flips it and raises `useful` by 2.
     */
    method AddLike(reviewId: int, userId: int) returns (r: Result<Review>)
      requires Valid()
      modifies this`reviews, this`votes
      ensures Valid()
      ensures reviewId !in old(reviews) ==>
                r == Err(NotFound(ReviewEntity, Some(reviewId))) && unchanged(this)
      ensures reviewId in old(reviews) && userId !in users ==>
                r == Err(NotFound(UserEntity, Some(userId))) && unchanged(this)
      ensures reviewId in old(reviews) && userId in users ==>
                && votes == old(votes)[(reviewId, userId) := true]
                && r == Ok(AsReview(reviewId, reviews[reviewId]))
                && reviews.Keys == old(reviews).Keys
                && (forall id :: id in reviews && id != reviewId ==> reviews[id] == old(reviews)[id])
                && reviews[reviewId] == old(reviews)[reviewId].(useful := reviews[reviewId].useful)
      ensures reviewId in old(reviews) && userId in users && (reviewId, userId) !in old(votes) ==>
                reviews[reviewId].useful == old(reviews)[reviewId].useful + 1
      ensures reviewId in old(reviews) && userId in users && (reviewId, userId) in old(votes)
              && old(votes)[(reviewId, userId)] ==>
                unchanged(this)
      ensures reviewId in old(reviews) && userId in users && (reviewId, userId) in old(votes)
              && !old(votes)[(reviewId, userId)] ==>
                reviews[reviewId].useful == old(reviews)[reviewId].useful + 2
      ensures reviews.Keys == old(reviews).Keys
      ensures forall id :: id in reviews ==> Balance(id) == old(Balance(id))
    {
      r := Vote(reviewId, userId, true);
    }

    /**
     * addDislike: a first dislike inserts a dislike row and lowers `useful` by 1; a dislike over a
     * stored dislike changes nothing; a dislike over a stored like flips it and lowers `useful` by 2.
     */
    method AddDislike(reviewId: int, userId: int) returns (r: Result<Review>)
      requires Valid()
      modifies this`reviews, this`votes
      ensures Valid()
      ensures reviewId !in old(reviews) ==>
                r == Err(NotFound(ReviewEntity, Some(reviewId))) && unchanged(this)
      ensures reviewId in old(reviews) && userId !in users ==>
                r == Err(NotFound(UserEntity, Some(userId))) && unchanged(this)
      ensures reviewId in old(reviews) && userId in users ==>
                && votes == old(votes)[(reviewId, userId) := false]
                && r == Ok(AsReview(reviewId, reviews[reviewId]))
                && reviews.Keys == old(reviews).Keys
                && (forall id :: id in reviews && id != reviewId ==> reviews[id] == old(reviews)[id])
                && reviews[reviewId] == old(reviews)[reviewId].(useful := reviews[reviewId].useful)
      ensures reviewId in old(reviews) && userId in users && (reviewId, userId) !in old(votes) ==>
                reviews[reviewId].useful == old(reviews)[reviewId].useful - 1
      ensures reviewId in old(reviews) && userId in users && (reviewId, userId) in old(votes)
              && !old(votes)[(reviewId, userId)] ==>
                unchanged(this)
      ensures reviewId in old(reviews) && userId in users && (reviewId, userId) in old(votes)
              && old(votes)[(reviewId, userId)] ==>
                reviews[reviewId].useful == old(reviews)[reviewId].useful - 2
      ensures reviews.Keys == old(reviews).Keys
      ensures forall id :: id in reviews ==> Balance(id) == old(Balance(id))
    {
      r := Vote(reviewId, userId, false);
    }

    /** Shared body of removeLike (isLike) and removeDislike (!isLike). */
    method RemoveVote(reviewId: int, userId: int, isLike: bool) returns (o: Outcome)
      requires Valid()
      modifies this`reviews, this`votes
      ensures Valid()
      ensures reviewId !in old(reviews) ==>
                o == Fail(NotFound(ReviewEntity, Some(reviewId))) && unchanged(this)
      ensures reviewId in old(reviews) && userId !in users ==>
                o == Fail(NotFound(UserEntity, Some(userId))) && unchanged(this)
      ensures reviewId in old(reviews) && userId in users ==> o == Pass
      ensures reviewId in old(reviews) && userId in users
              && (reviewId, userId) in old(votes) && old(votes)[(reviewId, userId)] == isLike ==>
                && votes == old(votes) - {(reviewId, userId)}
                && reviews == old(reviews)[reviewId := old(reviews)[reviewId].(useful :=
                     old(reviews)[reviewId].useful - (if isLike then 1 else -1))]
      ensures !((reviewId, userId) in old(votes) && old(votes)[(reviewId, userId)] == isLike) ==>
                unchanged(this)
      ensures reviews.Keys == old(reviews).Keys
      ensures forall id :: id in reviews ==> Balance(id) == old(Balance(id))
    {
      if CheckReviewExists(reviewId) != Pass {
        return Fail(NotFound(ReviewEntity, Some(reviewId)));
      }
      if CheckUserExists(userId) != Pass {
        return Fail(NotFound(UserEntity, Some(userId)));
      }
      o := Pass;
      var key := (reviewId, userId);
      if key in votes && votes[key] == isLike {
        var delta := if isLike then -1 else 1;
        reviews := reviews[reviewId := reviews[reviewId].(useful := reviews[reviewId].useful + delta)];
        votes := votes - {key};
        RemoveKeepsBalance(old(votes), reviewId, userId, isLike);
        forall id | id in reviews && id != reviewId
          ensures Score(votes, id) == Score(old(votes), id)
        {
          ScoreElsewhere(old(votes), id, reviewId, userId, isLike);
        }
      }
    }

    /** removeLike: deletes the voter's row and lowers `useful` by 1 only when that row is a like. */
    method RemoveLike(reviewId: int, userId: int) returns (o: Outcome)
      requires Valid()
      modifies this`reviews, this`votes
      ensures Valid()
      ensures reviewId !in old(reviews) ==>
                o == Fail(NotFound(ReviewEntity, Some(reviewId))) && unchanged(this)
      ensures reviewId in old(reviews) && userId !in users ==>
                o == Fail(NotFound(UserEntity, Some(userId))) && unchanged(this)
      ensures reviewId in old(reviews) && userId in users ==> o == Pass
      ensures reviewId in old(reviews) && userId in users
              && (reviewId, userId) in old(votes) && old(votes)[(reviewId, userId)] ==>
                && votes == old(votes) - {(reviewId, userId)}
                && reviews == old(reviews)[reviewId := old(reviews)[reviewId].(useful := old(reviews)[reviewId].useful - 1)]
      ensures !((reviewId, userId) in old(votes) && old(votes)[(reviewId, userId)]) ==> unchanged(this)
      ensures forall id :: id in reviews ==> Balance(id) == old(Balance(id))
    {
      o := RemoveVote(reviewId, userId, true);
    }

    /** removeDislike: deletes the voter's row and raises `useful` by 1 only when that row is a dislike. */
    method RemoveDislike(reviewId: int, userId: int) returns (o: Outcome)
      requires Valid()
      modifies this`reviews, this`votes
      ensures Valid()
      ensures reviewId !in old(reviews) ==>
                o == Fail(NotFound(ReviewEntity, Some(reviewId))) && unchanged(this)
      ensures reviewId in old(reviews) && userId !in users ==>
                o == Fail(NotFound(UserEntity, Some(userId))) && unchanged(this)
      ensures reviewId in old(reviews) && userId in users ==> o == Pass
      ensures reviewId in old(reviews) && userId in users
              && (reviewId, userId) in old(votes) && !old(votes)[(reviewId, userId)] ==>
                && votes == old(votes) - {(reviewId, userId)}
                && reviews == old(reviews)[reviewId := old(reviews)[reviewId].(useful := old(reviews)[reviewId].useful + 1)]
      ensures !((reviewId, userId) in old(votes) && !old(votes)[(reviewId, userId)]) ==> unchanged(this)
      ensures forall id :: id in reviews ==> Balance(id) == old(Balance(id))
    {
      o := RemoveVote(reviewId, userId, false);
    }

    /**
     * getUseful: the stored counter. queryForObject throws EmptyResultDataAccessException when the
     * review has no row; the `useful == null` branch is unreachable because create always stores a number.
     */
    function GetUseful(reviewId: int): (r: Result<int>)
      reads this
      ensures r.Ok? <==> reviewId in reviews
      ensures r.Err? ==> r.error == EmptyResult
      ensures r.Ok? ==> r.value == reviews[reviewId].useful
    {
      if reviewId in reviews then Ok(reviews[reviewId].useful) else Err(EmptyResult)
    }
  }

  /**
   * A review created with no votes: like (+1), flip to dislike (-1), remove the dislike (0). The
   * counter tracks the signed sum of the rows at every step.
   */
  method UsefulnessScenario() returns (afterLike: Result<int>, afterFlip: Result<int>, afterRemove: Result<int>)
    ensures afterLike == Ok(1) && afterFlip == Ok(-1) && afterRemove == Ok(0)
  {
    var store := new ReviewDbStorage({1}, {10});
    var created := store.Create(Review(None, "good", true, 1, 10, None));
    var id := created.value.reviewId.value;
    var liked := store.AddLike(id, 1);
    afterLike := store.GetUseful(id);
    var flipped := store.AddDislike(id, 1);
    afterFlip := store.GetUseful(id);
    var removed := store.RemoveDislike(id, 1);
    afterRemove := store.GetUseful(id);
  }
}
