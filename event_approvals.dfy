/** The administrator's review page: approving or rejecting a queued event or
    edit, across the event store, the review queue, the log and the
    modification records. */
module EventApprovals {
  import opened Common
  import opened EventTypes
  import opened RegistrationTypes
  import EventStore
  import OrganizerStore
  import LogStore
  import ModificationStore
  import EventAudit

  /** The details of an approval entry. */
  function ApprovalDetails(e: Event): string {
    if e.previousVersion.Some? then "Event changes approved" else "Event approved"
  }

  /** The details of a rejection entry. */
  function RejectionDetails(e: Event): string {
    if e.previousVersion.Some? then "Event changes rejected" else "Event rejected"
  }

  /** The partial `{ ...e, status: 'approved', version }`. */
  function ApprovedPartial(e: Event, version: int): Partial {
    AsPartial(e.(status := Some(Approved), version := version))
  }

  /** Approving an edit writes the queued copy over the stored event: its
      tracked fields are the copy's, its status approved, and the stored event
      becomes the previous version. */
  lemma ApprovedEditFields(stored: Event, queued: Event, version: int, now: Time, k: Key)
    requires EventAudit.Tracked(k) && k != StatusKey && k != LastModifiedKey && k != LastModifiedByKey
    ensures Get(EventStore.Revise(stored, ApprovedPartial(queued, version), now), k) == Get(queued, k)
    ensures EventStore.Revise(stored, ApprovedPartial(queued, version), now).status == Some(Approved)
    ensures EventStore.Revise(stored, ApprovedPartial(queued, version), now).previousVersion == Some(stored)
  {
    var q := queued.(status := Some(Approved), version := version);
    EventStore.ReviseGet(stored, ApprovedPartial(queued, version), now, k);
    AsPartialGet(q, k);
    assert Get(q, k) == Get(queued, k);
  }

  /** The event-store half of an approval: an edit of a stored event is
      written over it, a new event is added. */
  method ApproveEvents(events: EventStore.Store, e: Event, existing: Option<Event>, id: string, now: Time)
    modifies events
    ensures existing.Some? ==>
      && events.events == EventStore.Updated(old(events.events), id, ApprovedPartial(e, existing.value.version + 1), now)
      && events.filteredEvents == EventStore.Projection(events.events)
    ensures existing.None? ==>
      && events.events == old(events.events) + [e.(status := Some(Approved), version := 1)]
      && events.filteredEvents == old(events.filteredEvents) + [e.(status := Some(Approved), version := 1)]
  {
    if existing.Some? {
      events.UpdateEvent(id, ApprovedPartial(e, existing.value.version + 1), now);
    } else {
      events.AddEvent(e.(status := Some(Approved), version := 1));
    }
  }

  /** The event-store half of a rejection: a rejected edit writes the previous
      version back, approved; a rejected new event never reached the store. */
  method RevertEvents(events: EventStore.Store, e: Event, id: string, now: Time)
    modifies events
    ensures e.previousVersion.Some? ==>
      && events.events == EventStore.Updated(old(events.events), id,
                            ApprovedPartial(e.previousVersion.value, e.version + 1), now)
      && events.filteredEvents == EventStore.Projection(events.events)
    ensures e.previousVersion.None? ==>
      events.events == old(events.events) && events.filteredEvents == old(events.filteredEvents)
  {
    if e.previousVersion.Some? {
      events.UpdateEvent(id, ApprovedPartial(e.previousVersion.value, e.version + 1), now);
    }
  }

  /** The bookkeeping shared by both decisions: the event leaves the review
      queue with its new status, the decision is logged, and an edit's
      modification record is settled. */
  method RecordDecision(pending: OrganizerStore.Store, logs: LogStore.Store, mods: ModificationStore.Store,
                        e: Event, id: string, status: ReviewStatus, entry: LogStore.EventLog, notes: string)
    requires status != ReviewPending
    modifies pending, logs, mods
    ensures pending.pendingEvents == EventStore.WithoutId(old(pending.pendingEvents), id)
    ensures pending.eventStatus == old(pending.eventStatus)[id := status]
    ensures logs.logs == old(logs.logs) + [entry]
    ensures mods.modifications == (if e.previousVersion.Some?
      then ModificationStore.Settled(old(mods.modifications), id, status, Some(notes))
      else old(mods.modifications))
  {
    pending.RemovePendingEvent(id);
    pending.UpdateEventStatus(id, status);
    logs.AddLog(entry);
    if e.previousVersion.Some? {
      mods.UpdateModificationStatus(id, status, Some(notes));
    }
  }

  /** `handleApprove(id)` for the signed-in user, with the log entry's id and
      the time supplied. Nothing happens without a user or when the id is not
      queued. */
  method HandleApprove(pending: OrganizerStore.Store, events: EventStore.Store, logs: LogStore.Store,
                       mods: ModificationStore.Store, currentUser: Option<User>, id: string,
                       logId: string, now: Time)
    modifies pending, events, logs, mods
    ensures old(pending.GetPendingEventById(id)).None? || currentUser.None? ==>
      && pending.pendingEvents == old(pending.pendingEvents) && pending.eventStatus == old(pending.eventStatus)
      && events.events == old(events.events) && events.filteredEvents == old(events.filteredEvents)
      && logs.logs == old(logs.logs) && mods.modifications == old(mods.modifications)
    ensures old(pending.GetPendingEventById(id)).Some? && currentUser.Some? ==>
      var e := old(pending.GetPendingEventById(id)).value;
      var existing := old(events.GetEventById(id));
      (existing.Some? ==>
            && events.events == EventStore.Updated(old(events.events), id, ApprovedPartial(e, existing.value.version + 1), now)
            && events.filteredEvents == EventStore.Projection(events.events))
    ensures old(pending.GetPendingEventById(id)).Some? && currentUser.Some? ==>
      var e := old(pending.GetPendingEventById(id)).value;
      var existing := old(events.GetEventById(id));
      (existing.None? ==>
            && events.events == old(events.events) + [e.(status := Some(Approved), version := 1)]
            && events.filteredEvents == old(events.filteredEvents) + [e.(status := Some(Approved), version := 1)])
    ensures old(pending.GetPendingEventById(id)).Some? && currentUser.Some? ==>
      pending.pendingEvents == EventStore.WithoutId(old(pending.pendingEvents), id)
    ensures old(pending.GetPendingEventById(id)).Some? && currentUser.Some? ==>
      pending.eventStatus == old(pending.eventStatus)[id := ReviewApproved]
    ensures old(pending.GetPendingEventById(id)).Some? && currentUser.Some? ==>
      var e := old(pending.GetPendingEventById(id)).value;
      logs.logs == old(logs.logs) + [LogStore.EventLog(logId, e.id, LogStore.Approved, now,
                                          currentUser.value.id, currentUser.value.name, Some(ApprovalDetails(e)))]
    ensures old(pending.GetPendingEventById(id)).Some? && currentUser.Some? ==>
      var e := old(pending.GetPendingEventById(id)).value;
      var existing := old(events.GetEventById(id));
      mods.modifications == (if e.previousVersion.Some?
           then ModificationStore.Settled(old(mods.modifications), id, ReviewApproved, Some("Changes approved by admin"))
           else old(mods.modifications))
  {
    var found := pending.GetPendingEventById(id);
    if found.Some? && currentUser.Some? {
      var e := found.value;
      var user := currentUser.value;
      var existing := events.GetEventById(id);
      ApproveEvents(events, e, existing, id, now);
      RecordDecision(pending, logs, mods, e, id, ReviewApproved,
                     LogStore.EventLog(logId, e.id, LogStore.Approved, now, user.id, user.name, Some(ApprovalDetails(e))),
                     "Changes approved by admin");
    }
  }

  /** `handleReject(id)` for the signed-in user, with the log entry's id and the
      time supplied. A rejected edit writes the previous version back as
      approved; a rejected new event never reached the event store, which is
      left alone. */
  method HandleReject(pending: OrganizerStore.Store, events: EventStore.Store, logs: LogStore.Store,
                      mods: ModificationStore.Store, currentUser: Option<User>, id: string,
                      logId: string, now: Time)
    modifies pending, events, logs, mods
    ensures old(pending.GetPendingEventById(id)).None? || currentUser.None? ==>
      && pending.pendingEvents == old(pending.pendingEvents) && pending.eventStatus == old(pending.eventStatus)
      && events.events == old(events.events) && events.filteredEvents == old(events.filteredEvents)
      && logs.logs == old(logs.logs) && mods.modifications == old(mods.modifications)
    ensures old(pending.GetPendingEventById(id)).Some? && currentUser.Some? ==>
      var e := old(pending.GetPendingEventById(id)).value;
      (e.previousVersion.Some? ==>
            && events.events == EventStore.Updated(old(events.events), id,
                                  ApprovedPartial(e.previousVersion.value, e.version + 1), now)
            && events.filteredEvents == EventStore.Projection(events.events))
    ensures old(pending.GetPendingEventById(id)).Some? && currentUser.Some? ==>
      var e := old(pending.GetPendingEventById(id)).value;
      (e.previousVersion.None? ==>
            events.events == old(events.events) && events.filteredEvents == old(events.filteredEvents))
    ensures old(pending.GetPendingEventById(id)).Some? && currentUser.Some? ==>
      pending.pendingEvents == EventStore.WithoutId(old(pending.pendingEvents), id)
    ensures old(pending.GetPendingEventById(id)).Some? && currentUser.Some? ==>
      pending.eventStatus == old(pending.eventStatus)[id := ReviewRejected]
    ensures old(pending.GetPendingEventById(id)).Some? && currentUser.Some? ==>
      var e := old(pending.GetPendingEventById(id)).value;
      logs.logs == old(logs.logs) + [LogStore.EventLog(logId, e.id, LogStore.Rejected, now,
                                          currentUser.value.id, currentUser.value.name, Some(RejectionDetails(e)))]
    ensures old(pending.GetPendingEventById(id)).Some? && currentUser.Some? ==>
      var e := old(pending.GetPendingEventById(id)).value;
      mods.modifications == (if e.previousVersion.Some?
           then ModificationStore.Settled(old(mods.modifications), id, ReviewRejected, Some("Changes rejected by admin"))
           else old(mods.modifications))
  {
    var found := pending.GetPendingEventById(id);
    if found.Some? && currentUser.Some? {
      var e := found.value;
      var user := currentUser.value;
      RevertEvents(events, e, id, now);
      RecordDecision(pending, logs, mods, e, id, ReviewRejected,
                     LogStore.EventLog(logId, e.id, LogStore.Rejected, now, user.id, user.name, Some(RejectionDetails(e))),
                     "Changes rejected by admin");
    }
  }

  /** The status update after a decision is keyed by the event id, so it reaches
      only a record whose own id is that event id: a pending record that merely
      refers to the event stays pending. */
  lemma DecisionMissesRecordsOfEvent(ms: seq<EventModification>, eventId: string, status: ReviewStatus, notes: Option<string>)
    requires forall i :: 0 <= i < |ms| ==> ms[i].id != eventId
    ensures ModificationStore.Settled(ms, eventId, status, notes) == ms
  {
    ModificationStore.SettledUnknown(ms, eventId, status, notes);
  }

  /** `renderModificationDetails(e)`: the changed fields shown for a queued edit,
      or nothing when it has no previous version or no compared field differs. */
  function ModificationDetails(e: Event): (r: Option<seq<Key>>)
    ensures r.Some? <==> e.previousVersion.Some? && EventAudit.Differences(e.previousVersion.value, e) != []
    ensures r.Some? ==> r.value == EventAudit.Differences(e.previousVersion.value, e)
  {
    if e.previousVersion.None? then None
    else
      var differences := EventAudit.Differences(e.previousVersion.value, e);
      if differences == [] then None else Some(differences)
  }

  /** The panel appears exactly for an edit with a previous version that
      differs from it on some compared field, and then lists exactly the
      compared fields on which the two differ. */
  lemma ModificationDetailsMeaning(e: Event, k: Key)
    ensures ModificationDetails(e).None? <==>
      e.previousVersion.None? ||
      forall f :: f in EventAudit.ComparedFields ==> Get(e.previousVersion.value, f) == Get(e, f)
    ensures ModificationDetails(e).Some? ==>
      (k in ModificationDetails(e).value <==>
       k in EventAudit.ComparedFields && Get(e.previousVersion.value, k) != Get(e, k))
  {
    if e.previousVersion.Some? {
      var prior := e.previousVersion.value;
      EventAudit.DifferencesMeaning(prior, e, k);
      FilterEmpty(EventAudit.ComparedFields, f => Get(prior, f) != Get(e, f));
    }
  }

  /** An edit that changed none of the compared fields shows no panel. */
  lemma UnchangedEditShowsNothing(prior: Event, e: Event)
    requires e.previousVersion == Some(prior)
    requires forall k :: k in EventAudit.ComparedFields ==> Get(prior, k) == Get(e, k)
    ensures ModificationDetails(e).None?
  {
    FilterDropsAll(EventAudit.ComparedFields, k => Get(prior, k) != Get(e, k));
  }
}
