/**
 * The older review vote storage: the same review_likes table, but a `rating` counter on the
 * reviews table whose arithmetic does not look at the stored polarity.
 */
module ReviewLikeLedger {
  import opened Wrappers
  import opened VoteTable

  /** A ReviewLike object; getRating leaves the user id null. */
  datatype ReviewLike = ReviewLike(reviewId: int, userId: Option<int>, isLike: bool)

  /** `UPDATE reviews SET rating = rating + k WHERE id = ?`: touches nothing when there is no such review. */
  function Bump(rating: map<int, int>, reviewId: int, k: int): (r: map<int, int>)
    ensures r.Keys == rating.Keys
    ensures forall id :: id in r && id != reviewId ==> r[id] == rating[id]
    ensures reviewId in r ==> r[reviewId] == rating[reviewId] + k
  {
    if reviewId in rating then rating[reviewId := rating[reviewId] + k] else rating
  }

  class ReviewLikeDbStorage {
    /** The reviews table's rating column by review id. */
    var rating: map<int, int>
    /** The review_likes table. */
    var votes: Votes

    /** rating minus the signed sum of the review's rows: the drift of the counter. */
    ghost function Drift(reviewId: int): int
      reads this
      requires reviewId in rating
    {
      rating[reviewId] - Score(votes, reviewId)
    }

    constructor (rating: map<int, int>)
      ensures this.rating == rating && votes == map[]
    {
      this.rating := rating;
      votes := map[];
    }

    /**
     * addLike: the pair's row becomes a like. A first row adds 1 to `rating`; an existing row adds 2
     * whatever its polarity was, so repeating a like drifts the counter by 2.
     */
    method AddLike(reviewId: int, userId: int) returns (like: ReviewLike)
      modifies this
      ensures like == ReviewLike(reviewId, Some(userId), true)
      ensures votes == old(votes)[(reviewId, userId) := true]
      ensures rating == Bump(old(rating), reviewId, if (reviewId, userId) in old(votes) then 2 else 1)
      ensures reviewId in rating && (reviewId, userId) in old(votes) && old(votes)[(reviewId, userId)] ==>
                Drift(reviewId) == old(Drift(reviewId)) + 2
      ensures reviewId in rating && !((reviewId, userId) in old(votes) && old(votes)[(reviewId, userId)]) ==>
                Drift(reviewId) == old(Drift(reviewId))
    {
      var key := (reviewId, userId);
      var k := if key in votes then 2 else 1;
      ScoreAfterWrite(votes, reviewId, userId, true);
      votes := votes[key := true];
      rating := Bump(rating, reviewId, k);
      like := ReviewLike(reviewId, Some(userId), true);
    }

    /**
     * addDislike: the pair's row becomes a dislike. A first row subtracts 1 from `rating`; an existing
     * row subtracts 2 whatever its polarity was.
     */
    method AddDislike(reviewId: int, userId: int) returns (like: ReviewLike)
      modifies this
      ensures like == ReviewLike(reviewId, Some(userId), false)
      ensures votes == old(votes)[(reviewId, userId) := false]
      ensures rating == Bump(old(rating), reviewId, if (reviewId, userId) in old(votes) then -2 else -1)
      ensures reviewId in rating && (reviewId, userId) in old(votes) && !old(votes)[(reviewId, userId)] ==>
                Drift(reviewId) == old(Drift(reviewId)) - 2
      ensures reviewId in rating && !((reviewId, userId) in old(votes) && !old(votes)[(reviewId, userId)]) ==>
                Drift(reviewId) == old(Drift(reviewId))
    {
      var key := (reviewId, userId);
      var k := if key in votes then -2 else -1;
      ScoreAfterWrite(votes, reviewId, userId, false);
      votes := votes[key := false];
      rating := Bump(rating, reviewId, k);
      like := ReviewLike(reviewId, Some(userId), false);
    }

    /** removeLike: deletes the pair's row only if it is a like, but always subtracts 1 from `rating`. */
    method RemoveLike(reviewId: int, userId: int)
      modifies this
      ensures votes == if (reviewId, userId) in old(votes) && old(votes)[(reviewId, userId)]
                       then old(votes) - {(reviewId, userId)} else old(votes)
      ensures rating == Bump(old(rating), reviewId, -1)
      ensures reviewId in rating && (reviewId, userId) in old(votes) && old(votes)[(reviewId, userId)] ==>
                Drift(reviewId) == old(Drift(reviewId))
      ensures reviewId in rating && !((reviewId, userId) in old(votes) && old(votes)[(reviewId, userId)]) ==>
                Drift(reviewId) == old(Drift(reviewId)) - 1
    {
      var key := (reviewId, userId);
      if key in votes && votes[key] {
        ScoreAfterDelete(votes, reviewId, userId);
        votes := votes - {key};
      }
      rating := Bump(rating, reviewId, -1);
    }

    /** removeDislike: deletes the pair's row only if it is a dislike, but always adds 1 to `rating`. */
    method RemoveDislike(reviewId: int, userId: int)
      modifies this
      ensures votes == if (reviewId, userId) in old(votes) && !old(votes)[(reviewId, userId)]
                       then old(votes) - {(reviewId, userId)} else old(votes)
      ensures rating == Bump(old(rating), reviewId, 1)
      ensures reviewId in rating && (reviewId, userId) in old(votes) && !old(votes)[(reviewId, userId)] ==>
                Drift(reviewId) == old(Drift(reviewId))
      ensures reviewId in rating && !((reviewId, userId) in old(votes) && !old(votes)[(reviewId, userId)]) ==>
                Drift(reviewId) == old(Drift(reviewId)) + 1
    {
      var key := (reviewId, userId);
      if key in votes && !votes[key] {
        ScoreAfterDelete(votes, reviewId, userId);
        votes := votes - {key};
      }
      rating := Bump(rating, reviewId, 1);
    }

    /**
     * getRating: the flag is set iff the review has more like rows than dislike rows; SUM over no
     * rows is NULL, which reads as false.
     */
    function GetRating(reviewId: int): (r: ReviewLike)
      reads this
      ensures r.reviewId == reviewId && r.userId == None
      ensures r.isLike <==> |Likers(votes, reviewId)| > |Dislikers(votes, reviewId)|
      ensures !HasRows(votes, reviewId) ==> !r.isLike
    {
      if !HasRows(votes, reviewId) then
        NoRowsScoreZero(votes, reviewId);
        ReviewLike(reviewId, None, false)
      else
        ReviewLike(reviewId, None, Score(votes, reviewId) > 0)
    }

    /** getById: some row of the review (the first the query returns), or NotFound when it has none. */
    method GetById(reviewId: int) returns (r: Result<ReviewLike>)
      ensures r.Err? <==> !HasRows(votes, reviewId)
      ensures r.Err? ==> r.error == NotFound(ReviewEntity, Some(reviewId))
      ensures r.Ok? ==> r.value.reviewId == reviewId && r.value.userId.Some?
                        && (reviewId, r.value.userId.value) in votes
                        && votes[(reviewId, r.value.userId.value)] == r.value.isLike
    {
      if !HasRows(votes, reviewId) {
        return Err(NotFound(ReviewEntity, Some(reviewId)));
      }
      var k :| k in votes && k.0 == reviewId;
      r := Ok(ReviewLike(reviewId, Some(k.1), votes[k]));
    }
  }

  /**
   * The counter drifts: on a review with rating 0 and no rows, two likes from one user leave one
   * like row (signed sum 1) but a rating of 3.
   */
  method RepeatedLikeScenario() returns (rating: int, signedSum: int, flag: bool)
    ensures rating == 3 && signedSum == 1 && flag
  {
    var store := new ReviewLikeDbStorage(map[7 := 0]);
    var first := store.AddLike(7, 1);
    var second := store.AddLike(7, 1);
    ScoreAfterWrite(map[], 7, 1, true);
    rating := store.rating[7];
    signedSum := Score(store.votes, 7);
    flag := store.GetRating(7).isLike;
  }
}
