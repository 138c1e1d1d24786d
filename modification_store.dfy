/** The store of modification records: one per edit, reviewed by an
    administrator. */
module ModificationStore {
  import opened Common
  import opened EventTypes

  /** One record after `updateModificationStatus(id, status, notes)`. */
  function SettleOne(m: EventModification, id: string, status: ReviewStatus, notes: Option<string>): EventModification {
    if m.id == id then m.(status := status, adminNotes := notes) else m
  }

  /** `modifications.map(...)`: every record with the id takes the status and the
      notes (absent notes overwrite earlier ones). */
  function Settled(ms: seq<EventModification>, id: string, status: ReviewStatus, notes: Option<string>)
    : (r: seq<EventModification>)
    ensures |r| == |ms|
    ensures forall i :: 0 <= i < |ms| ==> r[i] == SettleOne(ms[i], id, status, notes)
  {
    if ms == [] then [] else [SettleOne(ms[0], id, status, notes)] + Settled(ms[1..], id, status, notes)
  }

  predicate IsPending(m: EventModification) {
    m.status == ReviewPending
  }

  /** `getPendingModifications()` over ms. */
  function PendingRecords(ms: seq<EventModification>): seq<EventModification> {
    Filter(ms, IsPending)
  }

  /** `getModificationsByEventId(eventId)` over ms. */
  function ByEventId(ms: seq<EventModification>, eventId: string): seq<EventModification> {
    Filter(ms, (m: EventModification) => m.eventId == eventId)
  }

  /** An id that no record carries leaves the list as it was. */
  lemma {:induction false} SettledUnknown(ms: seq<EventModification>, id: string, status: ReviewStatus, notes: Option<string>)
    requires forall i :: 0 <= i < |ms| ==> ms[i].id != id
    ensures Settled(ms, id, status, notes) == ms
  {
    if ms != [] {
      SettledUnknown(ms[1..], id, status, notes);
    }
  }

  /** Settling records with a final status removes exactly those records from the
      pending list; the other pending records keep their order. */
  lemma {:induction false} SettledLeavePending(ms: seq<EventModification>, id: string, status: ReviewStatus, notes: Option<string>)
    requires status != ReviewPending
    ensures PendingRecords(Settled(ms, id, status, notes)) == Filter(PendingRecords(ms), (m: EventModification) => m.id != id)
  {
    var notId := (m: EventModification) => m.id != id;
    if ms != [] {
      SettledLeavePending(ms[1..], id, status, notes);
      var r := Settled(ms, id, status, notes);
      var head := SettleOne(ms[0], id, status, notes);
      assert r[0] == head && r[1..] == Settled(ms[1..], id, status, notes);
      var rest := PendingRecords(ms[1..]);
      var pr := PendingRecords(ms);
      if IsPending(ms[0]) && ms[0].id != id {
        assert head == ms[0];
        assert pr == [ms[0]] + rest;
        assert pr[0] == ms[0] && pr[1..] == rest;
        assert Filter(pr, notId) == [ms[0]] + Filter(rest, notId);
      } else if IsPending(ms[0]) {
        assert !IsPending(head);
        assert pr == [ms[0]] + rest;
        assert pr[0] == ms[0] && pr[1..] == rest;
        assert Filter(pr, notId) == Filter(rest, notId);
      } else {
        assert !IsPending(head);
        assert pr == rest;
      }
    }
  }

  /** The records for an event, in insertion order, are exactly the ones
      carrying its id. */
  lemma ByEventIdMeaning(ms: seq<EventModification>, eventId: string, m: EventModification)
    ensures m in ByEventId(ms, eventId) <==> m in ms && m.eventId == eventId
  {
    FilterMember(ms, (m: EventModification) => m.eventId == eventId, m);
  }

  class Store {
    var modifications: seq<EventModification>

    constructor()
      ensures modifications == []
    {
      modifications := [];
    }

    /** `addModification(m)`: append at the end. */
    method AddModification(m: EventModification)
      modifies this
      ensures modifications == old(modifications) + [m]
    {
      modifications := modifications + [m];
    }

    /** `updateModificationStatus(id, status, notes)`; the status is approved or
        rejected. */
    method UpdateModificationStatus(id: string, status: ReviewStatus, notes: Option<string>)
      requires status != ReviewPending
      modifies this
      ensures modifications == Settled(old(modifications), id, status, notes)
      ensures |modifications| == |old(modifications)|
      ensures PendingRecords(modifications) == Filter(PendingRecords(old(modifications)), (m: EventModification) => m.id != id)
    {
      SettledLeavePending(modifications, id, status, notes);
      modifications := Settled(modifications, id, status, notes);
    }

    function GetModificationsByEventId(eventId: string): (r: seq<EventModification>)
      reads this
      ensures forall i :: 0 <= i < |r| ==> r[i] in modifications && r[i].eventId == eventId
      ensures forall i :: 0 <= i < |modifications| && modifications[i].eventId == eventId ==>
        modifications[i] in r
    {
      ByEventId(modifications, eventId)
    }

    function GetPendingModifications(): (r: seq<EventModification>)
      reads this
      ensures forall i :: 0 <= i < |r| ==> r[i] in modifications && r[i].status == ReviewPending
      ensures forall i :: 0 <= i < |modifications| && modifications[i].status == ReviewPending ==>
        modifications[i] in r
    {
      PendingRecords(modifications)
    }
  }
}
