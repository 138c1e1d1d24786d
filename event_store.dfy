/** The event catalogue: the canonical list of events and the `filteredEvents`
    projection that the event pages display. */
module EventStore {
  import opened Common
  import opened EventTypes

  // ---------------------------------------------------------------------
  // Visibility rules
  // ---------------------------------------------------------------------

  predicate NotRejected(e: Event) {
    e.status != Some(Rejected)
  }

  /** The rule `updateEvent` recomputes `filteredEvents` with: not rejected, and
      approved or organised by `'Admin'`. */
  predicate InProjection(e: Event) {
    e.status != Some(Rejected) && (e.status == Some(Approved) || e.organizer == "Admin")
  }

  /** The rule of `getVisibleEvents`: never rejected; an `'Admin'` event unless it
      has pending changes; any other event only once approved. */
  predicate IsVisible(e: Event) {
    if e.status == Some(Rejected) then false
    else if e.organizer == "Admin" then e.status != Some(PendingChanges)
    else e.status == Some(Approved)
  }

  function Projection(es: seq<Event>): seq<Event> {
    Filter(es, InProjection)
  }

  /** `getVisibleEvents()` over the list es. */
  function Visible(es: seq<Event>): seq<Event> {
    Filter(es, IsVisible)
  }

  /** A visible event is never rejected; an `'Admin'` event is visible unless it
      has pending changes, and any other event is visible exactly when approved. */
  lemma VisibleMeaning(es: seq<Event>, e: Event)
    ensures e in Visible(es) ==> e.status != Some(Rejected)
    ensures e in es && e.organizer == "Admin" ==>
      (e in Visible(es) <==> e.status != Some(Rejected) && e.status != Some(PendingChanges))
    ensures e in es && e.organizer != "Admin" ==> (e in Visible(es) <==> e.status == Some(Approved))
  {
    FilterMember(es, IsVisible, e);
  }

  /** The two rules differ on exactly one kind of event: `updateEvent`'s projection
      keeps an `'Admin'` event with pending changes, which `getVisibleEvents`
      hides. Every visible event is in the projection, in the same order. */
  lemma {:induction false} VisibleWithinProjection(es: seq<Event>)
    ensures Visible(es) == Filter(Projection(es), IsVisible)
    ensures forall e :: e in Projection(es) && e !in Visible(es) <==>
      e in es && e.organizer == "Admin" && e.status == Some(PendingChanges)
  {
    FilterFilter(es, InProjection, IsVisible, IsVisible);
    forall e ensures e in Projection(es) && e !in Visible(es) <==>
      e in es && e.organizer == "Admin" && e.status == Some(PendingChanges)
    {
      FilterMember(es, InProjection, e);
      FilterMember(es, IsVisible, e);
    }
  }

  // ---------------------------------------------------------------------
  // updateEvent
  // ---------------------------------------------------------------------

  /** `findIndex` of the first event with the given id, or -1. */
  function IndexOfId(es: seq<Event>, id: string): (k: int)
    ensures -1 <= k < |es|
    ensures k == -1 <==> forall i :: 0 <= i < |es| ==> es[i].id != id
    ensures k >= 0 ==> es[k].id == id && forall j :: 0 <= j < k ==> es[j].id != id
  {
    FindIndex(es, (e: Event) => e.id == id)
  }

  /** The record `updateEvent` writes over `old`: the old record overridden by the
      partial, then `previousVersion` set to the old record, the version bumped,
      the modification time stamped, and the status taken from the partial or
      else set to pending-changes. */
  function Revise(prior: Event, p: Partial, now: Time): Event {
    Merge(prior, p).(
      previousVersion := Some(prior),
      version := prior.version + 1,
      lastModified := Some(now),
      status := Some(if p.status.Some? then p.status.value else PendingChanges))
  }

  /** The revised record keeps the partial's values for every property but the
      four that `updateEvent` always overwrites, and the prior values where the
      partial is silent; a version in the partial is ignored. */
  lemma ReviseGet(prior: Event, p: Partial, now: Time, k: Key)
    ensures k !in {StatusKey, VersionKey, PreviousVersionKey, LastModifiedKey} ==>
      Get(Revise(prior, p, now), k) == PartialGet(p, k).GetOr(Get(prior, k))
    ensures Revise(prior, p, now).previousVersion == Some(prior)
    ensures Revise(prior, p, now).version == prior.version + 1
    ensures Revise(prior, p, now).lastModified == Some(now)
    ensures Revise(prior, p, now).status == if p.status.Some? then p.status else Some(PendingChanges)
  {
    MergeGet(prior, p, k);
    match k {
      case IdKey => case TitleKey => case DescriptionKey => case DateKey => case TimeKey =>
      case LocationKey => case PriceKey => case CategoryKey => case ImageUrlKey =>
      case OrganizerKey => case CapacityKey => case TicketsAvailableKey => case StatusKey =>
      case VersionKey => case PreviousVersionKey => case LastModifiedKey => case LastModifiedByKey =>
    }
  }

  /** The event list after `updateEvent(id, p)`: the first event with that id is
      revised and every other entry is left alone. */
  function Updated(es: seq<Event>, id: string, p: Partial, now: Time): seq<Event> {
    var i := IndexOfId(es, id);
    if i == -1 then es else es[i := Revise(es[i], p, now)]
  }

  /** An update keeps the length; on an unknown id it changes nothing; otherwise
      exactly the first entry with the id is replaced, by its revision. */
  lemma UpdatedSpec(es: seq<Event>, id: string, p: Partial, now: Time)
    ensures |Updated(es, id, p, now)| == |es|
    ensures (forall i :: 0 <= i < |es| ==> es[i].id != id) ==> Updated(es, id, p, now) == es
    ensures forall i :: 0 <= i < |es| && i != IndexOfId(es, id) ==> Updated(es, id, p, now)[i] == es[i]
    ensures IndexOfId(es, id) >= 0 ==>
      Updated(es, id, p, now)[IndexOfId(es, id)] == Revise(es[IndexOfId(es, id)], p, now)
  {
  }

  // ---------------------------------------------------------------------
  // deleteEvent and updateTicketAvailability
  // ---------------------------------------------------------------------

  /** The list without any event carrying the id. */
  function WithoutId(es: seq<Event>, id: string): seq<Event> {
    Filter(es, (e: Event) => e.id != id)
  }

  /** The entries carrying the id. */
  function WithId(es: seq<Event>, id: string): seq<Event> {
    Filter(es, (e: Event) => e.id == id)
  }

  /** Deleting removes every entry with the id and keeps every other entry;
      deleting twice is deleting once. */
  lemma WithoutIdSpec(es: seq<Event>, id: string)
    ensures forall e :: e in WithoutId(es, id) <==> e in es && e.id != id
    ensures forall e :: e in es && e.id != id ==>
      multiset(WithoutId(es, id))[e] == multiset(es)[e]
    ensures WithoutId(WithoutId(es, id), id) == WithoutId(es, id)
  {
    forall e ensures e in WithoutId(es, id) <==> e in es && e.id != id {
      FilterMember(es, (e: Event) => e.id != id, e);
    }
    forall e | e in es && e.id != id ensures multiset(WithoutId(es, id))[e] == multiset(es)[e] {
      FilterMultiset(es, (e: Event) => e.id != id, e);
    }
    FilterKeepsAll(WithoutId(es, id), (e: Event) => e.id != id);
  }

  /** One event after `updateTicketAvailability`: its count moves by delta when
      its id matches. */
  function AdjustOne(e: Event, id: string, delta: int): Event {
    if e.id == id then e.(ticketsAvailable := e.ticketsAvailable + delta) else e
  }

  /** `events.map(updateEvent)`, with no bounds check on the count. */
  function Adjusted(es: seq<Event>, id: string, delta: int): seq<Event> {
    seq(|es|, i requires 0 <= i < |es| => AdjustOne(es[i], id, delta))
  }

  /** The signed change of `updateTicketAvailability(id, quantity, isCancel)`. */
  function TicketDelta(quantity: int, isCancel: bool): int {
    if isCancel then quantity else -quantity
  }

  /** Only the counts of matching entries move, by exactly delta; every other
      property and entry is unchanged. */
  lemma AdjustedSpec(es: seq<Event>, id: string, delta: int)
    ensures |Adjusted(es, id, delta)| == |es|
    ensures forall i :: 0 <= i < |es| ==>
      Adjusted(es, id, delta)[i].(ticketsAvailable := es[i].ticketsAvailable) == es[i]
    ensures forall i :: 0 <= i < |es| ==>
      Adjusted(es, id, delta)[i].ticketsAvailable ==
        es[i].ticketsAvailable + (if es[i].id == id then delta else 0)
  {
  }

  /** A booking of some quantity followed by a cancellation of the same quantity
      restores every count. */
  lemma BookThenCancel(es: seq<Event>, id: string, quantity: int)
    ensures Adjusted(Adjusted(es, id, TicketDelta(quantity, false)), id, TicketDelta(quantity, true)) == es
  {
    var once := Adjusted(es, id, TicketDelta(quantity, false));
    var twice := Adjusted(once, id, TicketDelta(quantity, true));
    forall i | 0 <= i < |es| ensures twice[i] == es[i] {
      assert once[i] == AdjustOne(es[i], id, -quantity);
    }
  }

  // ---------------------------------------------------------------------
  // filterEvents
  // ---------------------------------------------------------------------

  /** The criteria `filterEvents` takes. An absent search or category is the
      empty string (both are falsy); an absent price bound is `None`. */
  datatype Criteria = Criteria(
    search: string,
    category: string,
    minPrice: Option<Number>,
    maxPrice: Option<Number>)

  /** A price bound is in force only when it is truthy: absent, 0 and NaN impose
      nothing. */
  function Bound(n: Option<Number>): (r: Option<int>)
    ensures r.Some? <==> n.Some? && n.value.Num? && n.value.v != 0
    ensures r.Some? ==> r.value == n.value.v
  {
    if n.Some? && Truthy(n.value) then Some(n.value.v) else None
  }

  predicate MatchesSearch(search: string, e: Event) {
    search == [] ||
    ContainsIgnoringCase(e.title, search) ||
    ContainsIgnoringCase(e.description, search) ||
    ContainsIgnoringCase(e.location, search)
  }

  predicate Matches(c: Criteria, e: Event) {
    && MatchesSearch(c.search, e)
    && (c.category == [] || CategoryName(e.category) == c.category)
    && (Bound(c.minPrice).None? || e.price >= Bound(c.minPrice).value)
    && (Bound(c.maxPrice).None? || e.price <= Bound(c.maxPrice).value)
  }

  function Search(es: seq<Event>, c: Criteria): seq<Event> {
    Filter(es, e => Matches(c, e))
  }

  /** An event passes the filter exactly when it passes each of the four tests;
      a price bound of 0 is no bound at all. */
  lemma SearchMeaning(es: seq<Event>, c: Criteria, e: Event)
    ensures e in Search(es, c) <==>
      && e in es
      && MatchesSearch(c.search, e)
      && (c.category == [] || CategoryName(e.category) == c.category)
      && (c.minPrice.Some? && Truthy(c.minPrice.value) ==> e.price >= c.minPrice.value.v)
      && (c.maxPrice.Some? && Truthy(c.maxPrice.value) ==> e.price <= c.maxPrice.value.v)
  {
    FilterMember(es, e => Matches(c, e), e);
  }

  /** A falsy price bound (0 or NaN) filters exactly as an absent one does,
      for the lower and for the upper bound alike. */
  lemma FalsyBoundsIgnored(es: seq<Event>, c: Criteria, m: Number)
    ensures !Truthy(m) ==> Search(es, c.(minPrice := Some(m))) == Search(es, c.(minPrice := None))
    ensures !Truthy(m) ==> Search(es, c.(maxPrice := Some(m))) == Search(es, c.(maxPrice := None))
  {
    if !Truthy(m) {
      SameMatches(es, c.(minPrice := Some(m)), c.(minPrice := None));
      SameMatches(es, c.(maxPrice := Some(m)), c.(maxPrice := None));
    }
  }

  /** Criteria that accept the same events of es give the same search result. */
  lemma SameMatches(es: seq<Event>, c: Criteria, d: Criteria)
    requires forall i :: 0 <= i < |es| ==> Matches(c, es[i]) == Matches(d, es[i])
    ensures Search(es, c) == Search(es, d)
  {
    FilterSamePredicate(es, e => Matches(c, e), e => Matches(d, e));
  }

  /** Criteria with nothing in force keep every event. */
  lemma SearchEmpty(es: seq<Event>, minPrice: Option<Number>, maxPrice: Option<Number>)
    requires Bound(minPrice).None? && Bound(maxPrice).None?
    ensures Search(es, Criteria("", "", minPrice, maxPrice)) == es
  {
    FilterKeepsAll(es, e => Matches(Criteria("", "", minPrice, maxPrice), e));
  }

  // ---------------------------------------------------------------------
  // The store
  // ---------------------------------------------------------------------

  class Store {
    var events: seq<Event>
    var filteredEvents: seq<Event>

    constructor()
      ensures events == [] && filteredEvents == []
    {
      events := [];
      filteredEvents := [];
    }

    /** No rejected event is ever displayed. */
    predicate ShowsNoRejected()
      reads this
    {
      forall i :: 0 <= i < |filteredEvents| ==> filteredEvents[i].status != Some(Rejected)
    }

    /** `setEvents`: store the list as given and display its non-rejected entries. */
    method SetEvents(es: seq<Event>)
      modifies this
      ensures events == es
      ensures filteredEvents == Filter(es, NotRejected)
      ensures ShowsNoRejected()
    {
      events := es;
      filteredEvents := Filter(es, NotRejected);
    }

    /** `addEvent`: append to the list, and to the display unless rejected. */
    method AddEvent(e: Event)
      modifies this
      ensures events == old(events) + [e]
      ensures filteredEvents == old(filteredEvents) + (if NotRejected(e) then [e] else [])
      ensures old(ShowsNoRejected()) ==> ShowsNoRejected()
    {
      events := events + [e];
      if NotRejected(e) {
        filteredEvents := filteredEvents + [e];
      }
    }

    /** `updateEvent(id, p)` at time now: revise the first event with the id, then
      recompute the display with the projection rule, whether or not the id was
      found. */
    method UpdateEvent(id: string, p: Partial, now: Time)
      modifies this
      ensures events == Updated(old(events), id, p, now)
      ensures filteredEvents == Projection(events)
      ensures ShowsNoRejected()
    {
      var i := IndexOfId(events, id);
      if i != -1 {
        var oldEvent := events[i];
        events := events[i := Revise(oldEvent, p, now)];
      }
      filteredEvents := Projection(events);
    }

    /** `deleteEvent(id)`: drop every entry with the id from both lists. */
    method DeleteEvent(id: string)
      modifies this
      ensures events == WithoutId(old(events), id)
      ensures filteredEvents == WithoutId(old(filteredEvents), id)
      ensures old(ShowsNoRejected()) ==> ShowsNoRejected()
    {
      events := WithoutId(events, id);
      filteredEvents := WithoutId(filteredEvents, id);
    }

    /** `filterEvents(c)`: display the visible events that pass the criteria. */
    method FilterEvents(c: Criteria)
      modifies this
      ensures events == old(events)
      ensures filteredEvents == Search(Visible(events), c)
      ensures ShowsNoRejected()
    {
      filteredEvents := Search(Visible(events), c);
      forall i | 0 <= i < |filteredEvents| ensures filteredEvents[i].status != Some(Rejected) {
        VisibleMeaning(events, filteredEvents[i]);
      }
    }

    /** `updateTicketAvailability(id, quantity, isCancel)` on both lists. */
    method UpdateTicketAvailability(id: string, quantity: int, isCancel: bool)
      modifies this
      ensures events == Adjusted(old(events), id, TicketDelta(quantity, isCancel))
      ensures filteredEvents == Adjusted(old(filteredEvents), id, TicketDelta(quantity, isCancel))
      ensures old(ShowsNoRejected()) ==> ShowsNoRejected()
    {
      events := Adjusted(events, id, TicketDelta(quantity, isCancel));
      filteredEvents := Adjusted(filteredEvents, id, TicketDelta(quantity, isCancel));
    }

    /** `getEventById(id)`: the first event with the id. */
    function GetEventById(id: string): (r: Option<Event>)
      reads this
      ensures r.None? <==> forall i :: 0 <= i < |events| ==> events[i].id != id
      ensures r.Some? ==> r.value == events[IndexOfId(events, id)] && r.value.id == id
    {
      var i := IndexOfId(events, id);
      if i == -1 then None else Some(events[i])
    }

    /** `getVisibleEvents()`. */
    function GetVisibleEvents(): (r: seq<Event>)
      reads this
      ensures forall i :: 0 <= i < |r| ==> r[i] in events && r[i].status != Some(Rejected)
    {
      Visible(events)
    }

    /** `clearEvents()`. */
    method ClearEvents()
      modifies this
      ensures events == [] && filteredEvents == []
    {
      events := [];
      filteredEvents := [];
    }

    /** With empty criteria, `filterEvents` displays exactly the visible events. */
    lemma FilterEventsEmpty()
      ensures Search(Visible(events), Criteria("", "", None, None)) == Visible(events)
    {
      SearchEmpty(Visible(events), None, None);
    }
  }
}
