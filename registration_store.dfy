/** Registrations and the payment-status table. Cancelling returns the tickets
    to the event catalogue. */
module RegistrationStore {
  import opened Common
  import opened RegistrationTypes
  import EventStore
  import EventTypes

  /** `find` of the first registration with the id. */
  function FindRegistration(rs: seq<Registration>, id: string): (r: Option<Registration>)
    ensures r.None? <==> forall i :: 0 <= i < |rs| ==> rs[i].id != id
    ensures r.Some? ==> r.value in rs && r.value.id == id
    ensures r.Some? ==> exists i :: 0 <= i < |rs| && rs[i] == r.value && forall j :: 0 <= j < i ==> rs[j].id != id
  {
    Find(rs, (r: Registration) => r.id == id)
  }

  /** Every registration with the id marked cancelled. */
  function MarkCancelled(rs: seq<Registration>, id: string): (r: seq<Registration>)
    ensures |r| == |rs|
    ensures forall i :: 0 <= i < |rs| ==> r[i] == if rs[i].id == id then rs[i].(status := Cancelled) else rs[i]
  {
    seq(|rs|, i requires 0 <= i < |rs| => if rs[i].id == id then rs[i].(status := Cancelled) else rs[i])
  }

  /** Every registration with the id marked transferred to the new attendee. */
  function MarkTransferred(rs: seq<Registration>, id: string, info: Attendee): (r: seq<Registration>)
    ensures |r| == |rs|
    ensures forall i :: 0 <= i < |rs| ==>
      r[i] == if rs[i].id == id then rs[i].(status := Transferred, attendeeInfo := info) else rs[i]
  {
    seq(|rs|, i requires 0 <= i < |rs| =>
      if rs[i].id == id then rs[i].(status := Transferred, attendeeInfo := info) else rs[i])
  }

  /** The payment record after a cancellation at time now: the earlier record's
      properties, the cancellation date, and a refund that is pending exactly
      when the earlier record says paid. */
  function CancelledRecord(prior: Option<PaymentRecord>, now: Time): PaymentRecord {
    var base := prior.GetOr(EmptyRecord);
    base.(
      cancellationDate := Some(now),
      refundStatus := Some(if base.status == Some(Paid) then RefundPending else NotApplicable))
  }

  /** The refund is pending exactly when the payment was made; every payment
      property but the two cancellation ones is kept. */
  lemma CancelledRecordSpec(prior: Option<PaymentRecord>, now: Time)
    ensures CancelledRecord(prior, now).refundStatus == Some(RefundPending) <==>
      prior.Some? && prior.value.status == Some(Paid)
    ensures CancelledRecord(prior, now).refundStatus == Some(NotApplicable) <==>
      !(prior.Some? && prior.value.status == Some(Paid))
    ensures prior.Some? ==>
      CancelledRecord(prior, now).(cancellationDate := prior.value.cancellationDate,
                                   refundStatus := prior.value.refundStatus) == prior.value
    ensures prior.None? ==> CancelledRecord(prior, now).status == None
  {
  }

  /** Cancelling keeps every registration, and its id, in place, so the same
      registration can be found and cancelled again. */
  lemma {:induction false} CancelKeepsRegistration(rs: seq<Registration>, id: string)
    ensures FindRegistration(MarkCancelled(rs, id), id).Some? <==> FindRegistration(rs, id).Some?
    ensures FindRegistration(rs, id).Some? ==>
      FindRegistration(MarkCancelled(rs, id), id) == Some(FindRegistration(rs, id).value.(status := Cancelled))
  {
    var marked := MarkCancelled(rs, id);
    var p := (r: Registration) => r.id == id;
    assert forall i :: 0 <= i < |rs| ==> marked[i].id == rs[i].id;
    if FindRegistration(rs, id).Some? {
      var k := FindIndex(rs, p);
      assert FindIndex(marked, p) == k by {
        assert forall j :: 0 <= j < |rs| ==> p(marked[j]) == p(rs[j]);
      }
    }
  }

  /** Two cancellations of the same quantity return it twice. */
  lemma RepeatedCancel(es: seq<EventTypes.Event>, eventId: string, quantity: int)
    ensures EventStore.Adjusted(EventStore.Adjusted(es, eventId, quantity), eventId, quantity) ==
      EventStore.Adjusted(es, eventId, 2 * quantity)
  {
  }

  function ByUser(rs: seq<Registration>, userId: string): seq<Registration> {
    Filter(rs, (r: Registration) => r.userId == userId)
  }

  function ByEvent(rs: seq<Registration>, eventId: string): seq<Registration> {
    Filter(rs, (r: Registration) => r.eventId == eventId)
  }

  /** The per-user and per-event views hold exactly the matching registrations. */
  lemma ViewsMeaning(rs: seq<Registration>, userId: string, eventId: string, r: Registration)
    ensures r in ByUser(rs, userId) <==> r in rs && r.userId == userId
    ensures r in ByEvent(rs, eventId) <==> r in rs && r.eventId == eventId
  {
    FilterMember(rs, (r: Registration) => r.userId == userId, r);
    FilterMember(rs, (r: Registration) => r.eventId == eventId, r);
  }

  class Store {
    var registrations: seq<Registration>
    var paymentStatus: map<string, PaymentRecord>

    constructor()
      ensures registrations == [] && paymentStatus == map[]
    {
      registrations := [];
      paymentStatus := map[];
    }

    /** `addRegistration(r)` at time now: append, and start a pending payment
        record, replacing any earlier record for the id. */
    method AddRegistration(r: Registration, now: Time)
      modifies this
      ensures registrations == old(registrations) + [r]
      ensures paymentStatus == old(paymentStatus)[r.id := EmptyRecord.(status := Some(PaymentPending), lastUpdated := Some(now))]
      ensures GetPaymentStatus(r.id).Some? && GetPaymentStatus(r.id).value.status == Some(PaymentPending)
      ensures forall j :: j != r.id ==> GetPaymentStatus(j) == old(GetPaymentStatus(j))
    {
      registrations := registrations + [r];
      paymentStatus := paymentStatus[r.id := EmptyRecord.(status := Some(PaymentPending), lastUpdated := Some(now))];
    }

    /** `cancelRegistration(id)` at time now. An unknown id changes nothing,
        ticket counts included. Otherwise the first registration with the id
        gives its quantity back to its event, every registration with the id is
        marked cancelled, and the payment record gets the cancellation fields.
        Nothing stops a second cancellation from returning the tickets again. */
    method CancelRegistration(id: string, events: EventStore.Store, now: Time)
      modifies this, events
      ensures FindRegistration(old(registrations), id).None? ==>
        registrations == old(registrations) && paymentStatus == old(paymentStatus) &&
        events.events == old(events.events) && events.filteredEvents == old(events.filteredEvents)
      ensures FindRegistration(old(registrations), id).Some? ==>
        var found := FindRegistration(old(registrations), id).value;
        && events.events == EventStore.Adjusted(old(events.events), found.eventId, found.quantity)
        && events.filteredEvents == EventStore.Adjusted(old(events.filteredEvents), found.eventId, found.quantity)
        && registrations == MarkCancelled(old(registrations), id)
        && paymentStatus == old(paymentStatus)[id := CancelledRecord(
             if id in old(paymentStatus) then Some(old(paymentStatus)[id]) else None, now)]
      ensures FindRegistration(old(registrations), id).Some? ==>
        GetPaymentStatus(id) == Some(CancelledRecord(old(GetPaymentStatus(id)), now))
      ensures forall j :: j != id ==> GetPaymentStatus(j) == old(GetPaymentStatus(j))
    {
      var found := FindRegistration(registrations, id);
      if found.Some? {
        events.UpdateTicketAvailability(found.value.eventId, found.value.quantity, true);
        registrations := MarkCancelled(registrations, id);
        var prior := if id in paymentStatus then Some(paymentStatus[id]) else None;
        paymentStatus := paymentStatus[id := CancelledRecord(prior, now)];
      }
    }

    /** `transferRegistration(id, info)`. */
    method TransferRegistration(id: string, info: Attendee)
      modifies this
      ensures registrations == MarkTransferred(old(registrations), id, info)
      ensures paymentStatus == old(paymentStatus)
    {
      registrations := MarkTransferred(registrations, id, info);
    }

    function GetRegistrationsByUser(userId: string): seq<Registration>
      reads this
    {
      ByUser(registrations, userId)
    }

    function GetRegistrationsByEvent(eventId: string): seq<Registration>
      reads this
    {
      ByEvent(registrations, eventId)
    }

    /** `getRegistrationById(id)`: the first match, or null. */
    function GetRegistrationById(id: string): (r: Option<Registration>)
      reads this
      ensures r.None? <==> forall i :: 0 <= i < |registrations| ==> registrations[i].id != id
      ensures r.Some? ==> r.value.id == id
      ensures r.Some? ==> exists i :: 0 <= i < |registrations| && registrations[i] == r.value &&
                                      forall j :: 0 <= j < i ==> registrations[j].id != id
    {
      FindRegistration(registrations, id)
    }

    /** `updateRegistrationPaymentStatus(id, record)` at time now: the record
        replaces the earlier one whole, so an earlier refund flag is dropped. */
    method UpdateRegistrationPaymentStatus(id: string, record: PaymentRecord, now: Time)
      modifies this
      ensures registrations == old(registrations)
      ensures paymentStatus == old(paymentStatus)[id := record.(lastUpdated := Some(now))]
      ensures GetPaymentStatus(id) == Some(record.(lastUpdated := Some(now)))
      ensures forall j :: j != id ==> GetPaymentStatus(j) == old(GetPaymentStatus(j))
    {
      paymentStatus := paymentStatus[id := record.(lastUpdated := Some(now))];
    }

    function GetPaymentStatus(id: string): (r: Option<PaymentRecord>)
      reads this
      ensures r.Some? <==> id in paymentStatus
      ensures r.Some? ==> r.value == paymentStatus[id]
    {
      if id in paymentStatus then Some(paymentStatus[id]) else None
    }
  }
}
