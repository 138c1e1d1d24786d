/** The organizers' pending-review queue: events waiting for an administrator,
    and the review status recorded for each event id. */
module OrganizerStore {
  import opened Common
  import opened EventTypes
  import opened EventStore

  /** No two queued events share an id. */
  predicate UniqueIds(es: seq<Event>) {
    DistinctBy(es, (e: Event) => e.id)
  }

  /** The queue after `updatePendingEvent(id, e)`: every entry with the id is
      dropped and e goes last. */
  function Replaced(es: seq<Event>, id: string, e: Event): seq<Event> {
    WithoutId(es, id) + [e]
  }

  /** After a replacement the queue holds the supplied event as its only entry
      with its id (when the event carries that id), and the remaining entries
      are the old ones without the id, in their order. */
  lemma {:induction false} ReplacedHoldsOne(es: seq<Event>, id: string, e: Event)
    ensures WithId(Replaced(es, id, e), id) == if e.id == id then [e] else []
    ensures Replaced(es, id, e)[..|Replaced(es, id, e)| - 1] == WithoutId(es, id)
    ensures Replaced(es, id, e)[|Replaced(es, id, e)| - 1] == e
  {
    var rest := WithoutId(es, id);
    FilterConcat(rest, [e], (x: Event) => x.id == id);
    FilterDropsAll(rest, (x: Event) => x.id == id);
    assert Replaced(es, id, e)[..|Replaced(es, id, e)| - 1] == rest;
  }

  /** Removing entries keeps the ids unique. */
  lemma RemoveKeepsUnique(es: seq<Event>, id: string)
    requires UniqueIds(es)
    ensures UniqueIds(WithoutId(es, id))
  {
    FilterDistinctBy(es, (x: Event) => x.id != id, (x: Event) => x.id);
  }

  /** Replacing an entry by an event with the same id keeps the ids unique. */
  lemma ReplaceKeepsUnique(es: seq<Event>, id: string, e: Event)
    requires UniqueIds(es) && e.id == id
    ensures UniqueIds(Replaced(es, id, e))
  {
    var rest := WithoutId(es, id);
    RemoveKeepsUnique(es, id);
    var r := Replaced(es, id, e);
    forall i, j | 0 <= i < j < |r| ensures r[i].id != r[j].id {
      if j == |r| - 1 {
        assert r[i] == rest[i];
      } else {
        assert r[i] == rest[i] && r[j] == rest[j];
      }
    }
  }

  class Store {
    var pendingEvents: seq<Event>
    var eventStatus: map<string, ReviewStatus>

    constructor()
      ensures pendingEvents == [] && eventStatus == map[]
    {
      pendingEvents := [];
      eventStatus := map[];
    }

    /** `addPendingEvent(e)`: append without de-duplication and mark the id pending. */
    method AddPendingEvent(e: Event)
      modifies this
      ensures pendingEvents == old(pendingEvents) + [e]
      ensures eventStatus == old(eventStatus)[e.id := ReviewPending]
      ensures GetEventStatus(e.id) == Some(ReviewPending)
      ensures forall j :: j != e.id ==> GetEventStatus(j) == old(GetEventStatus(j))
    {
      pendingEvents := pendingEvents + [e];
      eventStatus := eventStatus[e.id := ReviewPending];
    }

    /** `removePendingEvent(id)`: drop every entry with the id; statuses stay. */
    method RemovePendingEvent(id: string)
      modifies this
      ensures pendingEvents == WithoutId(old(pendingEvents), id)
      ensures eventStatus == old(eventStatus)
      ensures forall j :: GetEventStatus(j) == old(GetEventStatus(j))
      ensures old(UniqueIds(pendingEvents)) ==> UniqueIds(pendingEvents)
    {
      if UniqueIds(pendingEvents) {
        RemoveKeepsUnique(pendingEvents, id);
      }
      pendingEvents := WithoutId(pendingEvents, id);
    }

    /** `updateEventStatus(id, status)`: only the status of that id changes. */
    method UpdateEventStatus(id: string, status: ReviewStatus)
      modifies this
      ensures pendingEvents == old(pendingEvents)
      ensures eventStatus == old(eventStatus)[id := status]
      ensures GetEventStatus(id) == Some(status)
      ensures forall j :: j != id ==> GetEventStatus(j) == old(GetEventStatus(j))
    {
      eventStatus := eventStatus[id := status];
    }

    /** `getPendingEventById(id)`: the first queued entry with the id. */
    function GetPendingEventById(id: string): (r: Option<Event>)
      reads this
      ensures r.None? <==> forall i :: 0 <= i < |pendingEvents| ==> pendingEvents[i].id != id
      ensures r.Some? ==> r.value == pendingEvents[IndexOfId(pendingEvents, id)] && r.value.id == id
    {
      var i := IndexOfId(pendingEvents, id);
      if i == -1 then None else Some(pendingEvents[i])
    }

    /** `getEventStatus(id)`: the recorded status, if any. */
    function GetEventStatus(id: string): (r: Option<ReviewStatus>)
      reads this
      ensures r.Some? <==> id in eventStatus
      ensures r.Some? ==> r.value == eventStatus[id]
    {
      if id in eventStatus then Some(eventStatus[id]) else None
    }

    /** `updatePendingEvent(id, e)`: e replaces every queued entry with the id and
        the id is marked pending again. */
    method UpdatePendingEvent(id: string, e: Event)
      modifies this
      ensures pendingEvents == Replaced(old(pendingEvents), id, e)
      ensures eventStatus == old(eventStatus)[id := ReviewPending]
      ensures GetEventStatus(id) == Some(ReviewPending)
      ensures forall j :: j != id ==> GetEventStatus(j) == old(GetEventStatus(j))
      ensures old(UniqueIds(pendingEvents)) && e.id == id ==> UniqueIds(pendingEvents)
    {
      if UniqueIds(pendingEvents) && e.id == id {
        ReplaceKeepsUnique(pendingEvents, id, e);
      }
      pendingEvents := Replaced(pendingEvents, id, e);
      eventStatus := eventStatus[id := ReviewPending];
    }
  }
}
