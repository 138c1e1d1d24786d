/** An event's card: who sees which controls, when the card and its register
    button are shown, and what editing or deleting the event from the card
    does to the stores. */
module EventCard {
  import opened Common
  import opened EventTypes
  import opened RegistrationTypes
  import EventValidation
  import EventStore
  import OrganizerStore
  import LogStore

  // ---------------------------------------------------------------------
  // handleEdit
  // ---------------------------------------------------------------------

  /** `currentUser?.name || 'Unknown'`. */
  function EditorName(currentUser: Option<User>): (r: string)
    ensures r == "Unknown" <==> currentUser.None? || currentUser.value.name == "" || currentUser.value.name == "Unknown"
    ensures r != "Unknown" ==> currentUser.Some? && r == currentUser.value.name
  {
    if currentUser.Some? && currentUser.value.name != "" then currentUser.value.name else "Unknown"
  }

  /** The record `handleEdit` builds: the card's event overridden by the
      draft, with `capacity || ticketsAvailable` tickets left, marked as having
      changes pending, and remembering the card's event as its previous
      version. */
  function Edited(card: Event, d: EventValidation.EventDraft, editor: string, now: Time): Event {
    card.(title := d.title, description := d.description, date := d.date, time := d.time,
          location := d.location, price := d.price, category := d.category, imageUrl := d.imageUrl,
          capacity := d.capacity,
          ticketsAvailable := if d.capacity != 0 then d.capacity else card.ticketsAvailable,
          status := Some(PendingChanges), previousVersion := Some(card),
          lastModified := Some(now), lastModifiedBy := Some(editor))
  }

  /** What the event store keeps after an edit made from a card: the draft's
      fields, the card's id and organiser, pending changes, the version after
      the stored one, and the stored record (not the card's copy) as previous
      version. A zero capacity leaves the card's ticket count. */
  lemma StoredAfterEdit(stored: Event, card: Event, d: EventValidation.EventDraft, editor: string, now: Time)
    ensures var r := EventStore.Revise(stored, AsPartial(Edited(card, d, editor, now)), now);
      && r.id == card.id && r.organizer == card.organizer
      && r.title == d.title && r.description == d.description && r.date == d.date && r.time == d.time
      && r.location == d.location && r.price == d.price && r.category == d.category
      && r.imageUrl == d.imageUrl && r.capacity == d.capacity
      && r.ticketsAvailable == (if d.capacity != 0 then d.capacity else card.ticketsAvailable)
      && r.status == Some(PendingChanges) && r.version == stored.version + 1
      && r.previousVersion == Some(stored) && r.lastModified == Some(now) && r.lastModifiedBy == Some(editor)
  {
  }

  /** The review queue receives the card's record as built, so unlike the
      stored copy its version is not bumped and its previous version is the
      card's event; the two agree on every field the draft sets. */
  lemma QueuedAfterEdit(card: Event, d: EventValidation.EventDraft, editor: string, now: Time)
    ensures Edited(card, d, editor, now).version == card.version
    ensures Edited(card, d, editor, now).previousVersion == Some(card)
    ensures forall stored: Event ::
      var r, q := EventStore.Revise(stored, AsPartial(Edited(card, d, editor, now)), now), Edited(card, d, editor, now);
      && r.title == q.title && r.description == q.description && r.date == q.date && r.time == q.time
      && r.location == q.location && r.price == q.price && r.category == q.category
      && r.imageUrl == q.imageUrl && r.capacity == q.capacity && r.ticketsAvailable == q.ticketsAvailable
      && r.status == q.status && r.lastModified == q.lastModified && r.lastModifiedBy == q.lastModifiedBy
  {
  }

  /** The log entry written for an edit. */
  function EditLog(user: User, eventId: string, logId: string, now: Time): LogStore.EventLog {
    LogStore.EventLog(logId, eventId, LogStore.Edited, now, user.id, user.name,
                      Some("Event modified and pending re-approval"))
  }

  /** `handleEdit(d)` on the card of `card`, with the log id and the time
      supplied: the store revises the event, the review queue holds the edited
      copy, and a signed-in editor's edit is logged. */
  method HandleEdit(events: EventStore.Store, pending: OrganizerStore.Store, logs: LogStore.Store,
                    currentUser: Option<User>, card: Event, d: EventValidation.EventDraft,
                    logId: string, now: Time)
    modifies events, pending, logs
    ensures events.events == EventStore.Updated(old(events.events), card.id,
                               AsPartial(Edited(card, d, EditorName(currentUser), now)), now)
    ensures events.filteredEvents == EventStore.Projection(events.events)
    ensures pending.pendingEvents == OrganizerStore.Replaced(old(pending.pendingEvents), card.id,
                                       Edited(card, d, EditorName(currentUser), now))
    ensures pending.eventStatus == old(pending.eventStatus)[card.id := ReviewPending]
    ensures old(OrganizerStore.UniqueIds(pending.pendingEvents)) ==> OrganizerStore.UniqueIds(pending.pendingEvents)
    ensures logs.logs == old(logs.logs) + (if currentUser.Some? then [EditLog(currentUser.value, card.id, logId, now)] else [])
  {
    var updated := Edited(card, d, EditorName(currentUser), now);
    events.UpdateEvent(card.id, AsPartial(updated), now);
    pending.UpdatePendingEvent(card.id, updated);
    if currentUser.Some? {
      logs.AddLog(EditLog(currentUser.value, card.id, logId, now));
    }
  }

  // ---------------------------------------------------------------------
  // handleDelete
  // ---------------------------------------------------------------------

  /** `handleDelete()` on the card of `card`; `confirmed` is the answer to the
      confirmation dialog. The review queue is left as it is. */
  method HandleDelete(events: EventStore.Store, logs: LogStore.Store, currentUser: Option<User>,
                      card: Event, confirmed: bool, logId: string, now: Time)
    modifies events, logs
    ensures events.events == (if confirmed then EventStore.WithoutId(old(events.events), card.id) else old(events.events))
    ensures events.filteredEvents ==
      (if confirmed then EventStore.WithoutId(old(events.filteredEvents), card.id) else old(events.filteredEvents))
    ensures logs.logs == old(logs.logs) +
      (if confirmed && currentUser.Some?
       then [LogStore.EventLog(logId, card.id, LogStore.Deleted, now, currentUser.value.id,
                               currentUser.value.name, Some("Event deleted"))]
       else [])
  {
    if confirmed {
      events.DeleteEvent(card.id);
      if currentUser.Some? {
        logs.AddLog(LogStore.EventLog(logId, card.id, LogStore.Deleted, now, currentUser.value.id,
                                      currentUser.value.name, Some("Event deleted")));
      }
    }
  }

  // ---------------------------------------------------------------------
  // What the card shows
  // ---------------------------------------------------------------------

  /** Visitors and ordinary users who did not organise the event may register. */
  predicate ShowRegisterButton(currentUser: Option<User>, e: Event) {
    currentUser.None? ||
    (!currentUser.value.isAdmin && !currentUser.value.isOrganizer && currentUser.value.name != e.organizer)
  }

  /** Administrators and the user named as organiser may edit and delete. */
  predicate ShowControls(currentUser: Option<User>, e: Event) {
    currentUser.Some? && (currentUser.value.isAdmin || currentUser.value.name == e.organizer)
  }

  predicate IsEventPending(e: Event) {
    e.status == Some(Pending) || e.status == Some(PendingChanges)
  }

  /** The register button: whether it is disabled and its caption. */
  datatype RegisterButton = RegisterButton(disabled: bool, caption: string)

  /** What a rendered card shows besides the event's details. */
  datatype CardView = CardView(controls: bool, register: Option<RegisterButton>, badge: Option<string>)

  /** The card of e, or nothing when a pending event is shown outside a list
      of pending events. */
  function Card(currentUser: Option<User>, e: Event, showPendingStatus: bool): Option<CardView> {
    if IsEventPending(e) && !showPendingStatus then None
    else
      Some(CardView(
        ShowControls(currentUser, e),
        if ShowRegisterButton(currentUser, e) && !IsEventPending(e) && e.status == Some(Approved)
        then Some(RegisterButton(e.ticketsAvailable == 0, if e.ticketsAvailable > 0 then "Register Now" else "Sold Out"))
        else None,
        if IsEventPending(e) && showPendingStatus
        then Some(if e.status == Some(PendingChanges) then "Pending Re-approval" else "Pending Approval")
        else None))
  }

  /** A card offers registration exactly for an approved event seen by a
      visitor or by an ordinary user who did not organise it; the button is
      disabled exactly when no ticket is left and reads "Register Now" exactly
      when some are. */
  lemma RegisterButtonMeaning(currentUser: Option<User>, e: Event, showPendingStatus: bool)
    ensures Card(currentUser, e, showPendingStatus).Some? && Card(currentUser, e, showPendingStatus).value.register.Some?
      <==> e.status == Some(Approved) && ShowRegisterButton(currentUser, e)
    ensures Card(currentUser, e, showPendingStatus).Some? && Card(currentUser, e, showPendingStatus).value.register.Some? ==>
      var b := Card(currentUser, e, showPendingStatus).value.register.value;
      && (b.disabled <==> e.ticketsAvailable == 0)
      && (b.caption == "Register Now" <==> e.ticketsAvailable > 0)
  {
  }

  /** Nobody sees both the edit controls and the register button. */
  lemma ControlsExcludeRegistration(currentUser: Option<User>, e: Event)
    ensures !(ShowControls(currentUser, e) && ShowRegisterButton(currentUser, e))
  {
  }

  /** A pending card is hidden outside a pending list and carries a badge in
      one; a card that is not pending never carries one. */
  lemma PendingBadgeMeaning(currentUser: Option<User>, e: Event, showPendingStatus: bool)
    ensures Card(currentUser, e, showPendingStatus).None? <==> IsEventPending(e) && !showPendingStatus
    ensures Card(currentUser, e, showPendingStatus).Some? ==>
      (Card(currentUser, e, showPendingStatus).value.badge.Some? <==> IsEventPending(e))
  {
  }

  /** A negative ticket count, which repeated bookings can leave behind, gives
      an enabled button labelled "Sold Out". */
  lemma OverbookedButton(currentUser: Option<User>, e: Event)
    requires e.status == Some(Approved) && ShowRegisterButton(currentUser, e) && e.ticketsAvailable < 0
    ensures Card(currentUser, e, false) == Some(CardView(ShowControls(currentUser, e),
                                                     Some(RegisterButton(false, "Sold Out")), None))
  {
  }
}
