/** The nearest-neighbour film recommender. */
module Recommendation {
  import opened Wrappers
  import opened Enumeration

  /** userLikes.getOrDefault(userId, emptySet()). */
  function LikesOf(userLikes: map<int, set<int>>, userId: int): set<int>
  {
    if userId in userLikes then userLikes[userId] else {}
  }

  /** The size of the intersection of two like sets (retainAll, then size). */
  function Overlap(a: set<int>, b: set<int>): nat
  {
    |a * b|
  }

  /**
   * getRecommendations. `users` are the ids the user store knows, `userLikes` the result of
   * getFilmLikesByUsers, `order` the map's entry iteration order. Returns the film ids handed to
   * findByIds, and the chosen neighbour.
   */
  method GetRecommendations(users: set<int>, userLikes: map<int, set<int>>, order: seq<int>, userId: int)
    returns (r: Result<set<int>>, neighbour: Option<int>)
    requires EnumeratesKeys(order, userLikes)
    ensures userId !in users ==> r == Err(NotFound(UserEntity, Some(userId))) && neighbour == None
    ensures userId in users ==> r.Ok?
    ensures userId in users && LikesOf(userLikes, userId) == {} ==> r == Ok({}) && neighbour == None
    ensures neighbour.Some? ==>
              && neighbour.value != userId
              && neighbour.value in userLikes
              && Overlap(LikesOf(userLikes, userId), userLikes[neighbour.value]) >= 1
              && r == Ok(userLikes[neighbour.value] - LikesOf(userLikes, userId))
    // the neighbour's overlap is the largest
    ensures neighbour.Some? ==>
              forall u :: u in userLikes && u != userId ==>
                Overlap(LikesOf(userLikes, userId), userLikes[u])
                <= Overlap(LikesOf(userLikes, userId), userLikes[neighbour.value])
    // ties go to the first user in iteration order
    ensures neighbour.Some? ==>
              exists k :: 0 <= k < |order| && order[k] == neighbour.value
                && forall j :: 0 <= j < k && order[j] != userId ==>
                     Overlap(LikesOf(userLikes, userId), userLikes[order[j]])
                     < Overlap(LikesOf(userLikes, userId), userLikes[neighbour.value])
    // no neighbour exactly when nobody else shares a liked film
    ensures userId in users && LikesOf(userLikes, userId) != {} ==>
              (neighbour.None? <==> forall u :: u in userLikes && u != userId ==>
                                      Overlap(LikesOf(userLikes, userId), userLikes[u]) == 0)
    ensures neighbour.None? && r.Ok? ==> r.value == {}
    ensures r.Ok? ==> r.value * LikesOf(userLikes, userId) == {}
  {
    if userId !in users {
      return Err(NotFound(UserEntity, Some(userId))), None;
    }
    var target := LikesOf(userLikes, userId);
    if target == {} {
      return Ok({}), None;
    }
    var bestIdx := -1;
    var maxCommon := 0;
    var i := 0;
    while i < |order|
      invariant 0 <= i <= |order|
      invariant -1 <= bestIdx < i
      invariant bestIdx == -1 ==> maxCommon == 0
      invariant bestIdx >= 0 ==> order[bestIdx] != userId && maxCommon >= 1
                                 && maxCommon == Overlap(target, userLikes[order[bestIdx]])
      invariant forall j :: 0 <= j < i && order[j] != userId ==> Overlap(target, userLikes[order[j]]) <= maxCommon
      invariant forall j :: 0 <= j < bestIdx && order[j] != userId ==> Overlap(target, userLikes[order[j]]) < maxCommon
    {
      var other := order[i];
      if other != userId {
        var common := Overlap(target, userLikes[other]);
        if common > maxCommon {
          maxCommon := common;
          bestIdx := i;
        }
      }
      i := i + 1;
    }
    if bestIdx == -1 {
      return Ok({}), None;
    }
    neighbour := Some(order[bestIdx]);
    r := Ok(userLikes[order[bestIdx]] - target);
  }

  /**
   * User 1 likes films 10 and 11, user 2 likes 10, 11 and 12, user 3 likes nothing: user 2 is
   * the neighbour and film 12 the recommendation; once user 1 likes 12 too, nothing is left.
   */
  method RecommendationScenario() returns (first: Result<set<int>>, second: Result<set<int>>)
    ensures first == Ok({12}) && second == Ok({})
  {
    var likes := map[1 := {10, 11}, 2 := {10, 11, 12}];
    assert {10, 11} * {10, 11, 12} == {10, 11};
    assert Overlap(likes[1], likes[2]) == 2;
    var nb;
    first, nb := GetRecommendations({1, 2, 3}, likes, [2, 1], 1);
    assert {10, 11, 12} - {10, 11} == {12};
    var likes' := likes[1 := {10, 11, 12}];
    second, nb := GetRecommendations({1, 2, 3}, likes', [1, 2], 1);
  }
}
