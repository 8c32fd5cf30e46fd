/** The in-memory user store: users by id, an id counter, and the friend sets kept on each user. */
module UserStore {
  import opened Wrappers
  import opened Text
  import opened Model

  /** validateUser: a login that is present must not contain a space. */
  function ValidateUser(user: User): (o: Outcome)
    ensures o == Pass || o == Fail(Validation)
    ensures o == Fail(Validation) <==> user.login.Some? && ' ' in user.login.value
  {
    if user.login.Some? && ' ' in user.login.value then Fail(Validation) else Pass
  }

  /** setNameIfEmpty: a null or blank name is replaced by the login. */
  function SetNameIfEmpty(user: User): (u: User)
    ensures u == user.(name := u.name)
    ensures user.name.Some? && !IsBlank(user.name.value) ==> u.name == user.name
    ensures user.name.None? || IsBlank(user.name.value) ==> u.name == user.login
    // a user with a usable login always ends up with a usable name
    ensures user.login.Some? && !IsBlank(user.login.value) ==> u.name.Some? && !IsBlank(u.name.value)
  {
    if user.name.None? || IsBlank(user.name.value) then user.(name := user.login) else user
  }

  /** addFriend on the map: each of the two users gets the other in its friend set. */
  function Befriend(users: map<int, User>, a: int, b: int): (r: map<int, User>)
    requires a in users && b in users
    ensures r.Keys == users.Keys
    ensures forall k :: k in r ==> r[k] == users[k].(friends := users[k].friends
              + (if k == a then {b} else {}) + (if k == b then {a} else {}))
  {
    var m := users[a := users[a].(friends := users[a].friends + {b})];
    m[b := m[b].(friends := m[b].friends + {a})]
  }

  /** removeFriend on the map: each of the two users loses the other from its friend set. */
  function Unfriend(users: map<int, User>, a: int, b: int): (r: map<int, User>)
    requires a in users && b in users
    ensures r.Keys == users.Keys
    ensures forall k :: k in r ==> r[k] == users[k].(friends := users[k].friends
              - (if k == a then {b} else {}) - (if k == b then {a} else {}))
  {
    var m := users[a := users[a].(friends := users[a].friends - {b})];
    m[b := m[b].(friends := m[b].friends - {a})]
  }

  /** Friendship between stored users goes both ways. */
  ghost predicate Symmetric(users: map<int, User>)
  {
    forall a, b :: a in users && b in users && b in users[a].friends ==> a in users[b].friends
  }

  lemma BefriendKeepsSymmetric(users: map<int, User>, a: int, b: int)
    requires a in users && b in users
    ensures Symmetric(users) ==> Symmetric(Befriend(users, a, b))
    ensures b in Befriend(users, a, b)[a].friends && a in Befriend(users, a, b)[b].friends
  {
  }

  lemma UnfriendKeepsSymmetric(users: map<int, User>, a: int, b: int)
    requires a in users && b in users
    ensures Symmetric(users) ==> Symmetric(Unfriend(users, a, b))
    ensures b !in Unfriend(users, a, b)[a].friends && a !in Unfriend(users, a, b)[b].friends
  {
  }

  class InMemoryUserStorage {
    var users: map<int, User>
    var idCounter: int

    /** Every stored user sits under its own id, and the counter is past every id. */
    ghost predicate Valid()
      reads this
    {
      && idCounter >= 1
      && forall id :: id in users ==> 1 <= id < idCounter && users[id].id == Some(id)
    }

    constructor ()
      ensures Valid() && users == map[] && idCounter == 1
    {
      users := map[];
      idCounter := 1;
    }

    /**
     * create: rejects a login with a space; otherwise fills a blank name from the login, takes the
     * counter as the id, advances the counter and stores the user.
     */
    method Create(user: User) returns (r: Result<User>)
      requires Valid()
      modifies this
      ensures Valid()
      ensures ValidateUser(user) != Pass ==> r == Err(Validation) && unchanged(this)
      ensures ValidateUser(user) == Pass ==>
                && r == Ok(SetNameIfEmpty(user).(id := Some(old(idCounter))))
                && idCounter == old(idCounter) + 1
                && users == old(users)[old(idCounter) := r.value]
      // the new id is fresh and larger than every id handed out before
      ensures r.Ok? ==> old(idCounter) !in old(users) && forall id :: id in old(users) ==> id < old(idCounter)
    {
      if ValidateUser(user) != Pass {
        return Err(Validation);
      }
      var stored := SetNameIfEmpty(user).(id := Some(idCounter));
      idCounter := idCounter + 1;
      users := users[stored.id.value := stored];
      r := Ok(stored);
    }

    /** update: the id must be present and stored, and the login valid; then the user replaces the stored one. */
    method Update(user: User) returns (r: Result<User>)
      requires Valid()
      modifies this`users
      ensures Valid()
      ensures user.id.None? || user.id.value !in old(users) ==> r == Err(Validation) && unchanged(this)
      ensures user.id.Some? && user.id.value in old(users) && ValidateUser(user) != Pass ==>
                r == Err(Validation) && unchanged(this)
      ensures user.id.Some? && user.id.value in old(users) && ValidateUser(user) == Pass ==>
                && r == Ok(SetNameIfEmpty(user))
                && users == old(users)[user.id.value := SetNameIfEmpty(user)]
    {
      if user.id.None? || user.id.value !in users {
        return Err(Validation);
      }
      if ValidateUser(user) != Pass {
        return Err(Validation);
      }
      var stored := SetNameIfEmpty(user);
      users := users[user.id.value := stored];
      r := Ok(stored);
    }

    /** findById. */
    function FindById(id: int): (r: Option<User>)
      reads this
      ensures r.Some? <==> id in users
      ensures r.Some? ==> r.value == users[id]
    {
      if id in users then Some(users[id]) else None
    }

    /** addFriend: when both users are stored each joins the other's friend set; otherwise nothing happens. */
    method AddFriend(userId: int, friendId: int)
      requires Valid()
      modifies this`users
      ensures Valid()
      ensures users == if userId in old(users) && friendId in old(users)
                       then Befriend(old(users), userId, friendId) else old(users)
      ensures Symmetric(old(users)) ==> Symmetric(users)
    {
      if userId in users && friendId in users {
        BefriendKeepsSymmetric(users, userId, friendId);
        users := Befriend(users, userId, friendId);
      }
    }

    /** removeFriend: when both users are stored each leaves the other's friend set; otherwise nothing happens. */
    method RemoveFriend(userId: int, friendId: int)
      requires Valid()
      modifies this`users
      ensures Valid()
      ensures users == if userId in old(users) && friendId in old(users)
                       then Unfriend(old(users), userId, friendId) else old(users)
      ensures Symmetric(old(users)) ==> Symmetric(users)
    {
      if userId in users && friendId in users {
        UnfriendKeepsSymmetric(users, userId, friendId);
        users := Unfriend(users, userId, friendId);
      }
    }

    /** getFriends: a copy of the user's friend set; empty for an unknown user. */
    function GetFriends(userId: int): (r: set<int>)
      reads this
      ensures userId !in users ==> r == {}
      ensures userId in users ==> r == users[userId].friends
    {
      if userId in users then users[userId].friends else {}
    }

    /**
     * getCommonFriends: the stored users whose ids are in both friend sets; empty if either user
     * is unknown.
     */
    function GetCommonFriends(userId: int, otherUserId: int): (r: set<User>)
      reads this
      requires Valid()
      ensures userId !in users || otherUserId !in users ==> r == {}
      ensures forall u :: u in r ==> (u.id.Some? && u.id.value in users && users[u.id.value] == u
                && u.id.value in GetFriends(userId) && u.id.value in GetFriends(otherUserId))
      ensures forall id :: id in users && id in GetFriends(userId) && id in GetFriends(otherUserId) ==> users[id] in r
    {
      if userId !in users || otherUserId !in users then {}
      else
        var common := users[userId].friends * users[otherUserId].friends;
        set id | id in common && id in users :: users[id]
    }
  }
}
