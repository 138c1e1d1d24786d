/** The "My Registrations" page: which registrations are listed, which
    status label and which buttons each one shows, and what confirming a
    cancellation does. */
module MyRegistrationsPage {
  import opened Common
  import opened RegistrationTypes
  import RegistrationStore
  import EventStore

  /** The user id whose registrations are listed: the signed-in user's, or
      `'guest'` for a visitor. */
  function ListedUserId(currentUser: Option<User>): string {
    if currentUser.Some? then currentUser.value.id else "guest"
  }

  /** The registrations the page lists, in store order. */
  function Listed(rs: seq<Registration>, currentUser: Option<User>): seq<Registration> {
    RegistrationStore.ByUser(rs, ListedUserId(currentUser))
  }

  /** A signed-in user sees exactly their own registrations, a visitor exactly
      the guest ones. */
  lemma ListedMeaning(rs: seq<Registration>, currentUser: Option<User>, r: Registration)
    ensures currentUser.Some? ==> (r in Listed(rs, currentUser) <==> r in rs && r.userId == currentUser.value.id)
    ensures currentUser.None? ==> (r in Listed(rs, currentUser) <==> r in rs && r.userId == "guest")
  {
    RegistrationStore.ViewsMeaning(rs, ListedUserId(currentUser), "", r);
  }

  // ---------------------------------------------------------------------
  // shouldShowPayButton
  // ---------------------------------------------------------------------

  /** `shouldShowPayButton(r)` given r's payment record, if any. */
  predicate ShowPayButton(r: Registration, record: Option<PaymentRecord>) {
    if r.status == Cancelled && (record.None? || record.value.status != Some(Paid)) then false
    else record.None? || record.value.status == Some(PaymentPending) || record.value.status == Some(Failed)
  }

  /** The pay button shows exactly for a registration that is not cancelled
      and has no payment record or a pending or failed payment: never for a
      cancelled one, never once paid, and never for a record without a
      payment status. */
  lemma ShowPayButtonMeaning(r: Registration, record: Option<PaymentRecord>)
    ensures ShowPayButton(r, record) <==>
      r.status != Cancelled &&
      (record.None? || record.value.status == Some(PaymentPending) || record.value.status == Some(Failed))
    ensures record.Some? && record.value.status == Some(Paid) ==> !ShowPayButton(r, record)
  {
  }

  // ---------------------------------------------------------------------
  // getRegistrationStatus
  // ---------------------------------------------------------------------

  /** The status badge: cancelled (with or without the refund note), booked,
      payment pending or payment failed. */
  datatype StatusLabel = CancelledLabel(refundNote: bool) | Booked | PaymentPendingLabel | PaymentFailedLabel

  /** `getRegistrationStatus(r)` given r's payment record; `None` when no badge
      is drawn. */
  function RegistrationLabel(r: Registration, record: Option<PaymentRecord>): Option<StatusLabel> {
    if r.status == Cancelled then
      Some(CancelledLabel(record.Some? && record.value.status == Some(Paid)
                          && record.value.refundStatus == Some(RefundPending)))
    else if record.Some? && record.value.status == Some(Paid) then Some(Booked)
    else if record.Some? && record.value.status == Some(PaymentPending) then Some(PaymentPendingLabel)
    else if record.Some? && record.value.status == Some(Failed) then Some(PaymentFailedLabel)
    else None
  }

  /** The cancelled badge takes precedence over every payment state; the other
      badges follow the payment status, and without one there is no badge. */
  lemma RegistrationLabelMeaning(r: Registration, record: Option<PaymentRecord>)
    ensures r.status == Cancelled <==> RegistrationLabel(r, record).Some? && RegistrationLabel(r, record).value.CancelledLabel?
    ensures RegistrationLabel(r, record).None? <==>
      r.status != Cancelled && (record.None? || record.value.status.None?)
    ensures r.status != Cancelled && record.Some? && record.value.status.Some? ==>
      RegistrationLabel(r, record) == Some(match record.value.status.value
        case Paid => Booked
        case PaymentPending => PaymentPendingLabel
        case Failed => PaymentFailedLabel)
  {
    if record.Some? && record.value.status.Some? {
      match record.value.status.value {
        case Paid => case PaymentPending => case Failed =>
      }
    }
  }

  /** The pay button and the badge agree: a registration offered payment is
      never labelled booked or cancelled. */
  lemma PayButtonAgreesWithLabel(r: Registration, record: Option<PaymentRecord>)
    requires ShowPayButton(r, record)
    ensures RegistrationLabel(r, record) in {None, Some(PaymentPendingLabel), Some(PaymentFailedLabel)}
    ensures RegistrationLabel(r, record).None? <==> record.None?
  {
  }

  /** After the store cancels a registration, its badge reads cancelled, with
      the refund note exactly when it had been paid, and no pay button shows. */
  lemma CancelledRegistrationView(r: Registration, prior: Option<PaymentRecord>, now: Time)
    ensures var record := Some(RegistrationStore.CancelledRecord(prior, now));
      && RegistrationLabel(r.(status := Cancelled), record) ==
           Some(CancelledLabel(prior.Some? && prior.value.status == Some(Paid)))
      && !ShowPayButton(r.(status := Cancelled), record)
  {
    RegistrationStore.CancelledRecordSpec(prior, now);
  }

  // ---------------------------------------------------------------------
  // Cancelling
  // ---------------------------------------------------------------------

  /** The "Cancel Registration" button shows for every registration that is
      not cancelled. */
  predicate ShowCancelButton(r: Registration) {
    r.status != Cancelled
  }

  /** The confirmation dialog promises a refund exactly when the payment is
      recorded as made. */
  function ConfirmationText(record: Option<PaymentRecord>): string {
    if record.Some? && record.value.status == Some(Paid)
    then "Your registration will be cancelled and the amount will be refunded within 3-4 working days."
    else "Are you sure you want to cancel this registration?"
  }

  /** `confirmCancellation(id)`: one store cancellation, after which no
      confirmation dialog is open. */
  method ConfirmCancellation(store: RegistrationStore.Store, events: EventStore.Store, id: string, now: Time)
    returns (dialog: Option<string>)
    modifies store, events
    ensures dialog.None?
    ensures RegistrationStore.FindRegistration(old(store.registrations), id).None? ==>
      store.registrations == old(store.registrations) && store.paymentStatus == old(store.paymentStatus) &&
      events.events == old(events.events) && events.filteredEvents == old(events.filteredEvents)
    ensures RegistrationStore.FindRegistration(old(store.registrations), id).Some? ==>
      var found := RegistrationStore.FindRegistration(old(store.registrations), id).value;
      && events.events == EventStore.Adjusted(old(events.events), found.eventId, found.quantity)
      && events.filteredEvents == EventStore.Adjusted(old(events.filteredEvents), found.eventId, found.quantity)
      && store.registrations == RegistrationStore.MarkCancelled(old(store.registrations), id)
      && store.paymentStatus == old(store.paymentStatus)[id := RegistrationStore.CancelledRecord(
           if id in old(store.paymentStatus) then Some(old(store.paymentStatus)[id]) else None, now)]
  {
    store.CancelRegistration(id, events, now);
    dialog := None;
  }
}
