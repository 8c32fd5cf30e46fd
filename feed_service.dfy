/** The activity feed: events recorded for users, read back newest first. */
module FeedEvents {
  import opened Wrappers
  import opened Model

  /** The events of one user, in store order. */
  function EventsOf(events: seq<Feed>, userId: int): (r: seq<Feed>)
    ensures |r| <= |events|
    ensures forall e :: e in r <==> e in events && e.userId == userId
  {
    if events == [] then []
    else (if events[0].userId == userId then [events[0]] else []) + EventsOf(events[1..], userId)
  }

  /** List.reversed. */
  function Reverse(s: seq<Feed>): (r: seq<Feed>)
    ensures |r| == |s|
    ensures forall i :: 0 <= i < |s| ==> r[i] == s[|s| - 1 - i]
  {
    if s == [] then [] else Reverse(s[1..]) + [s[0]]
  }

  /** Every event without the given id, in store order. */
  function Without(events: seq<Feed>, id: int): (r: seq<Feed>)
    ensures forall e :: e in r <==> e in events && e.eventId != Some(id)
  {
    if events == [] then []
    else (if events[0].eventId == Some(id) then [] else [events[0]]) + Without(events[1..], id)
  }

  /** Some stored event has this id. */
  predicate HasEvent(events: seq<Feed>, id: int)
  {
    exists i :: 0 <= i < |events| && events[i].eventId == Some(id)
  }

  class FeedService {
    /** The feeds table in insertion order. */
    var events: seq<Feed>
    /** The next generated event id. */
    var nextEventId: int

    /** Every stored event has an id below the next one, and ids do not repeat. */
    ghost predicate Valid()
      reads this
    {
      && nextEventId >= 1
      && (forall i :: 0 <= i < |events| ==> events[i].eventId.Some? && 1 <= events[i].eventId.value < nextEventId)
      && (forall i, j :: 0 <= i < j < |events| ==> events[i].eventId != events[j].eventId)
    }

    constructor ()
      ensures Valid() && events == [] && nextEventId == 1
    {
      events := [];
      nextEventId := 1;
    }

    /** create(userId, entityId, type, operation): stores an event carrying exactly these four values. */
    method Create(userId: int, entityId: int, eventType: EventType, operation: Operation) returns (feed: Feed)
      requires Valid()
      modifies this
      ensures Valid()
      ensures feed.userId == userId && feed.entityId == entityId
      ensures feed.eventType == eventType && feed.operation == operation
      ensures feed.eventId == Some(old(nextEventId)) && !HasEvent(old(events), old(nextEventId))
      ensures events == old(events) + [feed] && nextEventId == old(nextEventId) + 1
    {
      feed := Feed(Some(nextEventId), userId, entityId, eventType, operation);
      events := events + [feed];
      nextEventId := nextEventId + 1;
    }

    /**
     * delete: looking the event up takes the first row of the result, so an unknown id is a
     * NoSuchElement failure and nothing is deleted; otherwise exactly that event goes.
     */
    method Delete(id: int) returns (o: Outcome)
      requires Valid()
      modifies this`events
      ensures Valid()
      ensures !HasEvent(old(events), id) ==> o == Fail(NoSuchElement) && events == old(events)
      ensures HasEvent(old(events), id) ==> o == Pass && events == Without(old(events), id)
      ensures HasEvent(old(events), id) ==> |events| == |old(events)| - 1
    {
      if !HasEvent(events, id) {
        return Fail(NoSuchElement);
      }
      WithoutDropsOne(events, id);
      events := Without(events, id);
      o := Pass;
    }

    /** getByUserId: the user's events, newest first. */
    function GetByUserId(userId: int): (r: seq<Feed>)
      reads this
      ensures |r| == |EventsOf(events, userId)|
      ensures forall i :: 0 <= i < |r| ==> r[i] == EventsOf(events, userId)[|r| - 1 - i]
      ensures forall e :: e in r <==> e in events && e.userId == userId
    {
      var mine := EventsOf(events, userId);
      assert forall e :: e in Reverse(mine) <==> e in mine by {
        forall e | e in mine ensures e in Reverse(mine) {
          var i :| 0 <= i < |mine| && mine[i] == e;
          assert Reverse(mine)[|mine| - 1 - i] == e;
        }
      }
      Reverse(mine)
    }

    /** getAll: the store's list as it is. */
    function GetAll(): (r: seq<Feed>)
      reads this
      ensures r == events
    {
      events
    }
  }

  /** With ids unique, removing the events with one present id removes exactly one. */
  lemma {:induction false} WithoutDropsOne(events: seq<Feed>, id: int)
    requires forall i, j :: 0 <= i < j < |events| ==> events[i].eventId != events[j].eventId
    requires HasEvent(events, id)
    ensures |Without(events, id)| == |events| - 1
    ensures forall i, j :: 0 <= i < j < |Without(events, id)| ==>
              Without(events, id)[i].eventId != Without(events, id)[j].eventId
    ensures forall e :: e in Without(events, id) ==> e in events
  {
    var tail := events[1..];
    if events[0].eventId == Some(id) {
      assert !HasEvent(tail, id) by {
        forall i | 0 <= i < |tail| ensures tail[i].eventId != Some(id) {
          assert tail[i] == events[i + 1];
        }
      }
      WithoutAbsent(tail, id);
    } else {
      var k :| 0 <= k < |events| && events[k].eventId == Some(id);
      assert tail[k - 1] == events[k];
      WithoutDropsOne(tail, id);
      var w := Without(tail, id);
      forall j | 0 <= j < |w| ensures w[j].eventId != events[0].eventId {
        var p :| 0 <= p < |tail| && tail[p] == w[j];
        assert tail[p] == events[p + 1];
      }
    }
  }

  lemma {:induction false} WithoutAbsent(events: seq<Feed>, id: int)
    requires !HasEvent(events, id)
    ensures Without(events, id) == events
  {
    if events != [] {
      assert !HasEvent(events[1..], id) by {
        forall i | 0 <= i < |events[1..]| ensures events[1..][i].eventId != Some(id) {
          assert events[1..][i] == events[i + 1];
        }
      }
      WithoutAbsent(events[1..], id);
      assert [events[0]] + events[1..] == events;
    }
  }

  /** Reading one user's feed skips the other users' events and reverses the rest. */
  lemma FeedOfOneUser(e1: Feed, e2: Feed, other: Feed, e3: Feed)
    requires e1.userId == 1 && e2.userId == 1 && other.userId == 2 && e3.userId == 1
    ensures Reverse(EventsOf([e1, e2, other, e3], 1)) == [e3, e2, e1]
  {
    assert [e3][1..] == [];
    assert EventsOf([e3], 1) == [e3];
    assert [other, e3][1..] == [e3];
    assert EventsOf([other, e3], 1) == [e3];
    assert [e2, other, e3][1..] == [other, e3];
    assert EventsOf([e2, other, e3], 1) == [e2, e3];
    assert [e1, e2, other, e3][1..] == [e2, other, e3];
    assert EventsOf([e1, e2, other, e3], 1) == [e1, e2, e3];
  }

  /** Scenario: three events recorded for a user come back newest first, without another user's event. */
  method NewestFirstScenario() returns (feed: seq<Feed>)
    ensures feed == [Feed(Some(4), 1, 7, FRIEND, ADD), Feed(Some(2), 1, 20, LIKE, REMOVE), Feed(Some(1), 1, 10, LIKE, ADD)]
  {
    var service := new FeedService();
    var e1 := service.Create(1, 10, LIKE, ADD);
    assert e1 == Feed(Some(1), 1, 10, LIKE, ADD);
    var e2 := service.Create(1, 20, LIKE, REMOVE);
    assert e2 == Feed(Some(2), 1, 20, LIKE, REMOVE);
    var other := service.Create(2, 10, REVIEW, UPDATE);
    var e3 := service.Create(1, 7, FRIEND, ADD);
    assert e3 == Feed(Some(4), 1, 7, FRIEND, ADD);
    assert service.events == [e1, e2, other, e3];
    FeedOfOneUser(e1, e2, other, e3);
    feed := service.GetByUserId(1);
    assert feed == [e3, e2, e1];
  }
}
