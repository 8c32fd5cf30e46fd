/** The user service: existence checks in front of the in-memory user store. */
module Users {
  import opened Wrappers
  import opened Model
  import opened UserStore

  class UserService {
    const storage: InMemoryUserStorage

    constructor (storage: InMemoryUserStorage)
      ensures this.storage == storage
    {
      this.storage := storage;
    }

    /** update: a null or unknown id is NotFound before the store is asked to update. */
    method Update(user: User) returns (r: Result<User>)
      requires storage.Valid()
      modifies storage
      ensures storage.Valid()
      ensures storage.idCounter == old(storage.idCounter)
      ensures user.id.None? ==> r == Err(NotFound(UserEntity, None)) && unchanged(storage)
      ensures user.id.Some? && user.id.value !in old(storage.users) ==>
                r == Err(NotFound(UserEntity, user.id)) && unchanged(storage)
      ensures user.id.Some? && user.id.value in old(storage.users) && ValidateUser(user) != Pass ==>
                r == Err(Validation) && unchanged(storage)
      ensures user.id.Some? && user.id.value in old(storage.users) && ValidateUser(user) == Pass ==>
                && r == Ok(SetNameIfEmpty(user))
                && storage.users == old(storage.users)[user.id.value := SetNameIfEmpty(user)]
    {
      if user.id.None? {
        return Err(NotFound(UserEntity, None));
      }
      if storage.FindById(user.id.value).None? {
        return Err(NotFound(UserEntity, user.id));
      }
      r := storage.Update(user);
    }

    /** findById: NotFound for an unknown id. */
    function FindById(id: int): (r: Result<User>)
      reads this, storage
      ensures r.Err? <==> id !in storage.users
      ensures r.Err? ==> r.error == NotFound(UserEntity, Some(id))
      ensures r.Ok? ==> r.value == storage.users[id]
    {
      match storage.FindById(id)
      case Some(u) => Ok(u)
      case None => Err(NotFound(UserEntity, Some(id)))
    }

    /**
     * addFriend: the user is checked before the friend, so when both are missing the error names
     * the user; on NotFound the friend graph is unchanged.
     */
    method AddFriend(userId: int, friendId: int) returns (o: Outcome)
      requires storage.Valid()
      modifies storage
      ensures storage.Valid()
      ensures storage.idCounter == old(storage.idCounter)
      ensures userId !in old(storage.users) ==>
                o == Fail(NotFound(UserEntity, Some(userId))) && unchanged(storage)
      ensures userId in old(storage.users) && friendId !in old(storage.users) ==>
                o == Fail(NotFound(UserEntity, Some(friendId))) && unchanged(storage)
      ensures userId in old(storage.users) && friendId in old(storage.users) ==>
                o == Pass && storage.users == Befriend(old(storage.users), userId, friendId)
      ensures Symmetric(old(storage.users)) ==> Symmetric(storage.users)
    {
      if FindById(userId).Err? {
        return Fail(NotFound(UserEntity, Some(userId)));
      }
      if FindById(friendId).Err? {
        return Fail(NotFound(UserEntity, Some(friendId)));
      }
      storage.AddFriend(userId, friendId);
      o := Pass;
    }

    /** removeFriend: the same checks in the same order, then the edge goes in both directions. */
    method RemoveFriend(userId: int, friendId: int) returns (o: Outcome)
      requires storage.Valid()
      modifies storage
      ensures storage.Valid()
      ensures storage.idCounter == old(storage.idCounter)
      ensures userId !in old(storage.users) ==>
                o == Fail(NotFound(UserEntity, Some(userId))) && unchanged(storage)
      ensures userId in old(storage.users) && friendId !in old(storage.users) ==>
                o == Fail(NotFound(UserEntity, Some(friendId))) && unchanged(storage)
      ensures userId in old(storage.users) && friendId in old(storage.users) ==>
                o == Pass && storage.users == Unfriend(old(storage.users), userId, friendId)
      ensures Symmetric(old(storage.users)) ==> Symmetric(storage.users)
    {
      if FindById(userId).Err? {
        return Fail(NotFound(UserEntity, Some(userId)));
      }
      if FindById(friendId).Err? {
        return Fail(NotFound(UserEntity, Some(friendId)));
      }
      storage.RemoveFriend(userId, friendId);
      o := Pass;
    }

    /** getFriends: NotFound for an unknown user; otherwise the friend ids that resolve to stored users. */
    function GetFriends(userId: int): (r: Result<set<User>>)
      reads this, storage
      requires storage.Valid()
      ensures r.Err? <==> userId !in storage.users
      ensures r.Err? ==> r.error == NotFound(UserEntity, Some(userId))
      ensures r.Ok? ==> forall u :: u in r.value ==>
                (u.id.Some? && u.id.value in storage.users && storage.users[u.id.value] == u
                 && u.id.value in storage.GetFriends(userId))
      ensures r.Ok? ==> forall id :: id in storage.users && id in storage.GetFriends(userId) ==>
                storage.users[id] in r.value
    {
      if FindById(userId).Err? then Err(NotFound(UserEntity, Some(userId)))
      else
        var friendIds := storage.GetFriends(userId);
        Ok(set id | id in friendIds && storage.FindById(id).Some? :: storage.FindById(id).value)
    }

    /** getCommonFriends: both users must exist; then the store's intersection. */
    function GetCommonFriends(userId: int, otherUserId: int): (r: Result<set<User>>)
      reads this, storage
      requires storage.Valid()
      ensures userId !in storage.users ==> r == Err(NotFound(UserEntity, Some(userId)))
      ensures userId in storage.users && otherUserId !in storage.users ==>
                r == Err(NotFound(UserEntity, Some(otherUserId)))
      ensures userId in storage.users && otherUserId in storage.users ==>
                r == Ok(storage.GetCommonFriends(userId, otherUserId))
    {
      if FindById(userId).Err? then Err(NotFound(UserEntity, Some(userId)))
      else if FindById(otherUserId).Err? then Err(NotFound(UserEntity, Some(otherUserId)))
      else Ok(storage.GetCommonFriends(userId, otherUserId))
    }
  }
}
