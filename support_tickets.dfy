/** The administrator's support-ticket page: the status filter over the
    ticket list, the open-ticket badge, replying to a ticket and changing a
    ticket's status. The reply box's text is component state, so it is passed
    in and handed back. */
module SupportTickets {
  import opened Common
  import opened AdminTypes
  import AdminStore

  /** The filter drop-down: all tickets, the open ones or the closed ones. */
  datatype StatusFilter = AllTickets | OpenTickets | ClosedTickets

  /** Whether a ticket passes the filter: "open" takes in-progress tickets
      too, "closed" means resolved. */
  predicate Shown(f: StatusFilter, t: SupportTicket) {
    match f
    case OpenTickets => t.status == Open || t.status == InProgress
    case ClosedTickets => t.status == Resolved
    case AllTickets => true
  }

  /** `filteredTickets`. */
  function FilteredTickets(ts: seq<SupportTicket>, f: StatusFilter): seq<SupportTicket> {
    Filter(ts, (t: SupportTicket) => Shown(f, t))
  }

  /** "All" lists every ticket in order; a ticket is listed under "open"
      exactly when its status is open or in progress and under "closed"
      exactly when it is resolved. */
  lemma FilteredTicketsMeaning(ts: seq<SupportTicket>, t: SupportTicket)
    ensures FilteredTickets(ts, AllTickets) == ts
    ensures t in FilteredTickets(ts, OpenTickets) <==> t in ts && (t.status == Open || t.status == InProgress)
    ensures t in FilteredTickets(ts, ClosedTickets) <==> t in ts && t.status == Resolved
  {
    FilterKeepsAll(ts, (t: SupportTicket) => Shown(AllTickets, t));
    FilterMember(ts, (t: SupportTicket) => Shown(OpenTickets, t), t);
    FilterMember(ts, (t: SupportTicket) => Shown(ClosedTickets, t), t);
  }

  /** The "open" list holds the tickets the badge counts and the in-progress
      ones; with the "closed" list it covers every ticket. */
  lemma {:induction false} FilterCounts(ts: seq<SupportTicket>)
    ensures |FilteredTickets(ts, OpenTickets)|
            == AdminStore.OpenCount(ts) + Count(ts, (t: SupportTicket) => t.status == InProgress)
    ensures |FilteredTickets(ts, OpenTickets)| + |FilteredTickets(ts, ClosedTickets)| == |ts|
  {
    if ts != [] {
      FilterCounts(ts[1..]);
    }
  }

  /** The badge never exceeds the "open" list, and equals its length exactly
      when no ticket is in progress. */
  lemma BadgeWithinOpenList(store: AdminStore.Store)
    ensures store.GetOpenTicketsCount() <= |FilteredTickets(store.supportTickets, OpenTickets)|
    ensures store.GetOpenTicketsCount() == |FilteredTickets(store.supportTickets, OpenTickets)| <==>
      forall i :: 0 <= i < |store.supportTickets| ==> store.supportTickets[i].status != InProgress
  {
    var ts := store.supportTickets;
    FilterCounts(ts);
    var inProgress := (t: SupportTicket) => t.status == InProgress;
    if forall i :: 0 <= i < |ts| ==> ts[i].status != InProgress {
      FilterDropsAll(ts, inProgress);
    } else {
      var i :| 0 <= i < |ts| && ts[i].status == InProgress;
      assert ts[i] in Filter(ts, inProgress);
    }
  }

  /** Whether the reply box holds something to send. */
  predicate Sendable(reply: string) {
    Trim(reply) != ""
  }

  /** `handleSendReply(ticketId)` with the message id and the time supplied: a
      reply that is not blank is added, untrimmed, as an administrator's
      message and the box is cleared; a blank one changes nothing. */
  method HandleSendReply(store: AdminStore.Store, ticketId: string, reply: string, messageId: string, now: Time)
    returns (replyAfter: string)
    modifies store
    ensures Sendable(reply) ==> replyAfter == ""
    ensures !Sendable(reply) ==> replyAfter == reply
    ensures |store.supportTickets| == |old(store.supportTickets)|
    ensures forall i :: 0 <= i < |store.supportTickets| ==>
      store.supportTickets[i] ==
        (if Sendable(reply)
         then AdminStore.WithMessage(old(store.supportTickets)[i], ticketId, reply, true, messageId, now)
         else old(store.supportTickets)[i])
    ensures store.eventApprovals == old(store.eventApprovals) && store.adminStats == old(store.adminStats)
  {
    if Trim(reply) != "" {
      store.AddTicketMessage(ticketId, reply, true, messageId, now);
      replyAfter := "";
    } else {
      replyAfter := reply;
    }
  }

  /** A reply is sent exactly when it has a character other than whitespace. */
  lemma SendableMeaning(reply: string)
    ensures Sendable(reply) <==> exists i :: 0 <= i < |reply| && !IsWhitespace(reply[i])
  {
  }

  /** `handleStatusChange(ticketId, status)` at time now. */
  method HandleStatusChange(store: AdminStore.Store, ticketId: string, status: TicketStatus, now: Time)
    modifies store
    ensures store.supportTickets == AdminStore.Restatused(old(store.supportTickets), ticketId, status, now)
    ensures store.eventApprovals == old(store.eventApprovals)
    ensures (old(store.InStep()) && AdminStore.UniqueIds(old(store.supportTickets)) &&
             (AdminStore.FindTicket(old(store.supportTickets), ticketId).Some? || status != Open)) ==> store.InStep()
  {
    store.UpdateTicketStatus(ticketId, status, now);
  }
}
