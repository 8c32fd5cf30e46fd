/**
 * The review_likes table shared by both review vote storages: at most one row per
 * (review, user) pair, carrying is_like. A review's signed sum is (#like rows - #dislike rows).
 */
module VoteTable {

  /** (reviewId, userId) |-> is_like. */
  type Votes = map<(int, int), bool>

  /** The users whose row for the review is a like. */
  function Likers(votes: Votes, reviewId: int): set<int>
  {
    set k | k in votes && k.0 == reviewId && votes[k] :: k.1
  }

  /** The users whose row for the review is a dislike. */
  function Dislikers(votes: Votes, reviewId: int): set<int>
  {
    set k | k in votes && k.0 == reviewId && !votes[k] :: k.1
  }

  /** SUM(CASE WHEN is_like THEN 1 ELSE -1 END) over the review's rows (0 for no rows). */
  function Score(votes: Votes, reviewId: int): int
  {
    |Likers(votes, reviewId)| - |Dislikers(votes, reviewId)|
  }

  /** What one row contributes to the signed sum: +1, -1, or 0 when there is no row. */
  function RowValue(votes: Votes, reviewId: int, userId: int): int
  {
    if (reviewId, userId) !in votes then 0 else if votes[(reviewId, userId)] then 1 else -1
  }

  /** The review has at least one row. */
  predicate HasRows(votes: Votes, reviewId: int)
  {
    exists k :: k in votes && k.0 == reviewId
  }

  lemma Membership(votes: Votes, reviewId: int, userId: int)
    ensures userId in Likers(votes, reviewId) <==> (reviewId, userId) in votes && votes[(reviewId, userId)]
    ensures userId in Dislikers(votes, reviewId) <==> (reviewId, userId) in votes && !votes[(reviewId, userId)]
  {
    var k := (reviewId, userId);
    if k in votes {
      assert k.1 == userId;
    }
  }

  /** A review without rows has no likers and no dislikers, so its signed sum is 0. */
  lemma NoRowsScoreZero(votes: Votes, reviewId: int)
    requires !HasRows(votes, reviewId)
    ensures Likers(votes, reviewId) == {} && Dislikers(votes, reviewId) == {}
    ensures Score(votes, reviewId) == 0
  {
  }

  lemma CardRemove(s: set<int>, x: int)
    ensures |s - {x}| == |s| - (if x in s then 1 else 0)
  {
    if x in s {
      assert s == (s - {x}) + {x};
    } else {
      assert s - {x} == s;
    }
  }

  lemma SetsAfterWrite(votes: Votes, reviewId: int, userId: int, isLike: bool)
    ensures Likers(votes[(reviewId, userId) := isLike], reviewId)
         == (Likers(votes, reviewId) - {userId}) + (if isLike then {userId} else {})
    ensures Dislikers(votes[(reviewId, userId) := isLike], reviewId)
         == (Dislikers(votes, reviewId) - {userId}) + (if isLike then {} else {userId})
  {
    var votes' := votes[(reviewId, userId) := isLike];
    forall v
      ensures v in Likers(votes', reviewId) <==> v in (Likers(votes, reviewId) - {userId}) + (if isLike then {userId} else {})
      ensures v in Dislikers(votes', reviewId) <==> v in (Dislikers(votes, reviewId) - {userId}) + (if isLike then {} else {userId})
    {
      Membership(votes, reviewId, v);
      Membership(votes', reviewId, v);
    }
  }

  lemma CardSwap(s: set<int>, x: int, add: bool)
    ensures |(s - {x}) + (if add then {x} else {})| == |s| - (if x in s then 1 else 0) + (if add then 1 else 0)
  {
    CardRemove(s, x);
    if add {
      assert x !in s - {x};
    } else {
      assert (s - {x}) + {} == s - {x};
    }
  }

  /**
   * Writing a row (insert, or overwrite of is_like) changes the review's signed sum by the new
   * row's value minus the old row's value.
   */
  lemma ScoreAfterWrite(votes: Votes, reviewId: int, userId: int, isLike: bool)
    ensures Score(votes[(reviewId, userId) := isLike], reviewId)
         == Score(votes, reviewId) + (if isLike then 1 else -1) - RowValue(votes, reviewId, userId)
  {
    SetsAfterWrite(votes, reviewId, userId, isLike);
    CardSwap(Likers(votes, reviewId), userId, isLike);
    CardSwap(Dislikers(votes, reviewId), userId, !isLike);
    Membership(votes, reviewId, userId);
  }

  /** Deleting a row changes the review's signed sum by minus that row's value. */
  lemma ScoreAfterDelete(votes: Votes, reviewId: int, userId: int)
    ensures Score(votes - {(reviewId, userId)}, reviewId) == Score(votes, reviewId) - RowValue(votes, reviewId, userId)
  {
    var votes' := votes - {(reviewId, userId)};
    var u := userId;
    var L, D := Likers(votes, reviewId), Dislikers(votes, reviewId);
    forall v ensures v in Likers(votes', reviewId) <==> v in L - {u} {
      Membership(votes, reviewId, v);
      Membership(votes', reviewId, v);
    }
    forall v ensures v in Dislikers(votes', reviewId) <==> v in D - {u} {
      Membership(votes, reviewId, v);
      Membership(votes', reviewId, v);
    }
    assert Likers(votes', reviewId) == L - {u};
    assert Dislikers(votes', reviewId) == D - {u};
    CardRemove(L, u);
    CardRemove(D, u);
    Membership(votes, reviewId, u);
  }

  /** Writing or deleting a row of one review leaves every other review's likers and dislikers alone. */
  lemma ScoreElsewhere(votes: Votes, reviewId: int, other: int, userId: int, isLike: bool)
    requires other != reviewId
    ensures Likers(votes[(other, userId) := isLike], reviewId) == Likers(votes, reviewId)
    ensures Dislikers(votes[(other, userId) := isLike], reviewId) == Dislikers(votes, reviewId)
    ensures Likers(votes - {(other, userId)}, reviewId) == Likers(votes, reviewId)
    ensures Dislikers(votes - {(other, userId)}, reviewId) == Dislikers(votes, reviewId)
  {
    forall v
      ensures v in Likers(votes[(other, userId) := isLike], reviewId) <==> v in Likers(votes, reviewId)
      ensures v in Dislikers(votes[(other, userId) := isLike], reviewId) <==> v in Dislikers(votes, reviewId)
      ensures v in Likers(votes - {(other, userId)}, reviewId) <==> v in Likers(votes, reviewId)
      ensures v in Dislikers(votes - {(other, userId)}, reviewId) <==> v in Dislikers(votes, reviewId)
    {
      Membership(votes, reviewId, v);
      Membership(votes[(other, userId) := isLike], reviewId, v);
      Membership(votes - {(other, userId)}, reviewId, v);
    }
  }
}
