/** The create-event page: a submitted draft becomes an event, published at
    once when an administrator submits it and queued for review otherwise. */
module CreateEventPage {
  import opened Common
  import opened EventTypes
  import opened RegistrationTypes
  import EventValidation
  import EventStore
  import OrganizerStore
  import LogStore

  /** The record `handleSubmit` builds: the draft's fields under the supplied
      id, the submitting user as organiser, and `capacity || 0` tickets left.
      Status, version and history are not set. */
  function NewEvent(d: EventValidation.EventDraft, id: string, organizer: string): Event {
    Event(id, d.title, d.description, d.date, d.time, d.location, d.price, d.category, d.imageUrl,
          organizer, d.capacity, if d.capacity != 0 then d.capacity else 0,
          None, 0, None, None, None)
  }

  /** A new event carries the draft unchanged, is organised by its submitter,
      starts with every ticket available and has no review history. */
  lemma NewEventSpec(d: EventValidation.EventDraft, id: string, organizer: string)
    ensures var e := NewEvent(d, id, organizer);
      && e.id == id && e.organizer == organizer
      && e.title == d.title && e.description == d.description && e.date == d.date
      && e.time == d.time && e.location == d.location && e.price == d.price
      && e.category == d.category && e.imageUrl == d.imageUrl && e.capacity == d.capacity
      && e.ticketsAvailable == e.capacity
      && e.status.None? && e.previousVersion.None? && e.lastModified.None? && e.lastModifiedBy.None?
  {
  }

  /** A submission by anyone not named `'Admin'` stays off the public list
      until an administrator approves it, while one by `'Admin'` is shown at once. */
  lemma NewEventVisibility(d: EventValidation.EventDraft, id: string, organizer: string)
    ensures EventStore.IsVisible(NewEvent(d, id, organizer)) <==> organizer == "Admin"
    ensures EventStore.InProjection(NewEvent(d, id, organizer)) <==> organizer == "Admin"
    ensures EventStore.NotRejected(NewEvent(d, id, organizer))
  {
  }

  /** The details of the creation entry. */
  function CreationDetails(isAdmin: bool): string {
    if isAdmin then "Event created by admin" else "Event pending approval"
  }

  /** The log entry written for a submission. */
  function CreationLog(user: User, eventId: string, logId: string, now: Time): LogStore.EventLog {
    LogStore.EventLog(logId, eventId, LogStore.Created, now, user.id, user.name, Some(CreationDetails(user.isAdmin)))
  }

  /** `handleSubmit(d)` with the event id, the log id and the time supplied.
      Without a signed-in user the page shows no form, so nothing changes. */
  method HandleSubmit(events: EventStore.Store, pending: OrganizerStore.Store, logs: LogStore.Store,
                      currentUser: Option<User>, d: EventValidation.EventDraft, eventId: string,
                      logId: string, now: Time)
    modifies events, pending, logs
    ensures currentUser.None? ==>
      && events.events == old(events.events) && events.filteredEvents == old(events.filteredEvents)
      && pending.pendingEvents == old(pending.pendingEvents) && pending.eventStatus == old(pending.eventStatus)
      && logs.logs == old(logs.logs)
    ensures currentUser.Some? && currentUser.value.isAdmin ==>
      && events.events == old(events.events) + [NewEvent(d, eventId, currentUser.value.name)]
      && events.filteredEvents == old(events.filteredEvents) + [NewEvent(d, eventId, currentUser.value.name)]
      && pending.pendingEvents == old(pending.pendingEvents) && pending.eventStatus == old(pending.eventStatus)
    ensures currentUser.Some? && !currentUser.value.isAdmin ==>
      && events.events == old(events.events) && events.filteredEvents == old(events.filteredEvents)
      && pending.pendingEvents == old(pending.pendingEvents) + [NewEvent(d, eventId, currentUser.value.name)]
      && pending.eventStatus == old(pending.eventStatus)[eventId := ReviewPending]
    ensures currentUser.Some? ==>
      logs.logs == old(logs.logs) + [CreationLog(currentUser.value, eventId, logId, now)]
  {
    if currentUser.Some? {
      var user := currentUser.value;
      var e := NewEvent(d, eventId, user.name);
      if user.isAdmin {
        events.AddEvent(e);
      } else {
        pending.AddPendingEvent(e);
      }
      logs.AddLog(CreationLog(user, eventId, logId, now));
    }
  }
}
