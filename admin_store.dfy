/** The administrator's store: support tickets with their message threads,
    the record of approval decisions, and the dashboard figures whose
    open-ticket counter is kept in step with ticket status changes. */
module AdminStore {
  import opened Common
  import opened EventTypes
  import opened AdminTypes

  predicate IsOpen(t: SupportTicket) {
    t.status == Open
  }

  /** The number of tickets whose status is exactly open. */
  function OpenCount(ts: seq<SupportTicket>): nat {
    Count(ts, IsOpen)
  }

  /** No two tickets share an id. */
  predicate UniqueIds(ts: seq<SupportTicket>) {
    DistinctBy(ts, (t: SupportTicket) => t.id)
  }

  function FindTicket(ts: seq<SupportTicket>, id: string): (r: Option<SupportTicket>)
    ensures r.None? <==> forall i :: 0 <= i < |ts| ==> ts[i].id != id
    ensures r.Some? ==> r.value.id == id && exists i :: 0 <= i < |ts| && ts[i] == r.value && forall j :: 0 <= j < i ==> ts[j].id != id
  {
    Find(ts, (t: SupportTicket) => t.id == id)
  }

  /** A ticket after `updateTicketStatus(id, status)` at time now. */
  function RestatusOne(t: SupportTicket, id: string, status: TicketStatus, now: Time): SupportTicket {
    if t.id == id then t.(status := status, updatedAt := now) else t
  }

  function Restatused(ts: seq<SupportTicket>, id: string, status: TicketStatus, now: Time): (r: seq<SupportTicket>)
    ensures |r| == |ts|
    ensures forall i :: 0 <= i < |ts| ==> r[i] == RestatusOne(ts[i], id, status, now)
  {
    if ts == [] then [] else [RestatusOne(ts[0], id, status, now)] + Restatused(ts[1..], id, status, now)
  }

  function B(b: bool): int {
    if b then 1 else 0
  }

  /** The change `updateTicketStatus` applies to the counter: whether the new
      status is open, less whether the first ticket with the id was open. */
  function OpenDelta(ts: seq<SupportTicket>, id: string, status: TicketStatus): int {
    var prior := FindTicket(ts, id);
    B(status == Open) - B(prior.Some? && prior.value.status == Open)
  }

  lemma OpenCountConcat(a: seq<SupportTicket>, b: seq<SupportTicket>)
    ensures OpenCount(a + b) == OpenCount(a) + OpenCount(b)
  {
    FilterConcat(a, b, IsOpen);
  }

  lemma OpenCountCons(ts: seq<SupportTicket>)
    requires ts != []
    ensures OpenCount(ts) == B(ts[0].status == Open) + OpenCount(ts[1..])
  {
    assert ts == [ts[0]] + ts[1..];
    OpenCountConcat([ts[0]], ts[1..]);
    FilterSingleton(ts[0], IsOpen);
  }

  lemma {:induction false} RestatusedUnknown(ts: seq<SupportTicket>, id: string, status: TicketStatus, now: Time)
    requires forall i :: 0 <= i < |ts| ==> ts[i].id != id
    ensures Restatused(ts, id, status, now) == ts
  {
    if ts != [] {
      RestatusedUnknown(ts[1..], id, status, now);
    }
  }

  lemma UniqueTail(ts: seq<SupportTicket>)
    requires UniqueIds(ts) && ts != []
    ensures UniqueIds(ts[1..])
    ensures forall j :: 0 <= j < |ts[1..]| ==> ts[1..][j].id != ts[0].id
  {
    forall a, b | 0 <= a < b < |ts[1..]| ensures ts[1..][a].id != ts[1..][b].id {
      assert ts[1..][a] == ts[a + 1] && ts[1..][b] == ts[b + 1];
    }
    forall j | 0 <= j < |ts[1..]| ensures ts[1..][j].id != ts[0].id {
      assert ts[1..][j] == ts[j + 1];
    }
  }

  /** With unique ids, restatusing the ticket at position i moves the open count
      by whether the new status is open, less whether that ticket was open. */
  lemma {:induction false} RestatusedOpenCount(ts: seq<SupportTicket>, id: string, status: TicketStatus, now: Time, i: nat)
    requires UniqueIds(ts) && i < |ts| && ts[i].id == id
    ensures OpenCount(Restatused(ts, id, status, now)) == OpenCount(ts) + B(status == Open) - B(ts[i].status == Open)
  {
    var after := Restatused(ts, id, status, now);
    var rest := ts[1..];
    assert after[1..] == Restatused(rest, id, status, now);
    OpenCountCons(ts);
    OpenCountCons(after);
    UniqueTail(ts);
    if i == 0 {
      RestatusedUnknown(rest, id, status, now);
    } else {
      assert rest[i - 1] == ts[i];
      RestatusedOpenCount(rest, id, status, now, i - 1);
    }
  }

  /** With unique ids, the counter's change matches the true change in the
      number of open tickets exactly when the id is known or the new status is
      not open: moving an unknown id to open still adds one. */
  lemma DeltaMatchesCount(ts: seq<SupportTicket>, id: string, status: TicketStatus, now: Time)
    requires UniqueIds(ts)
    ensures OpenCount(Restatused(ts, id, status, now)) == OpenCount(ts) + OpenDelta(ts, id, status)
      <==> FindTicket(ts, id).Some? || status != Open
  {
    var prior := FindTicket(ts, id);
    if prior.Some? {
      var i :| 0 <= i < |ts| && ts[i] == prior.value;
      RestatusedOpenCount(ts, id, status, now, i);
    } else {
      RestatusedUnknown(ts, id, status, now);
    }
  }

  /** Whether optional figures agree with the tickets: absent figures agree
      with anything. */
  predicate StatsInStep(stats: Option<AdminStats>, ts: seq<SupportTicket>) {
    stats.Some? ==> stats.value.openTickets == OpenCount(ts)
  }

  /** The figures after `updateTicketStatus(id, status)`: the open-ticket
      counter moved by the delta, absent figures left absent. */
  function StatsAfterStatus(stats: Option<AdminStats>, ts: seq<SupportTicket>, id: string, status: TicketStatus): Option<AdminStats> {
    if stats.None? then None
    else Some(stats.value.(openTickets := stats.value.openTickets + OpenDelta(ts, id, status)))
  }

  /** A status change keeps the figures in step with the tickets when ids are
      unique and the id is known or the new status is not open. */
  lemma StatusChangeKeepsStep(stats: Option<AdminStats>, ts: seq<SupportTicket>, id: string, status: TicketStatus, now: Time)
    requires StatsInStep(stats, ts) && UniqueIds(ts) && (FindTicket(ts, id).Some? || status != Open)
    ensures StatsInStep(StatsAfterStatus(stats, ts, id, status), Restatused(ts, id, status, now))
  {
    DeltaMatchesCount(ts, id, status, now);
  }

  /** The counter stays in step with the tickets through an unknown id only
      while the new status is not open. */
  lemma UnknownIdDesync(id: string, now: Time)
    ensures OpenCount(Restatused([], id, Open, now)) == 0
    ensures OpenDelta([], id, Open) == 1
  {
  }

  /** A ticket after `addTicketMessage(id, text, isAdmin)`: one message appended,
      signed `'admin'` for an administrator and by the ticket's owner otherwise. */
  function WithMessage(t: SupportTicket, id: string, text: string, isAdmin: bool, messageId: string, now: Time)
    : SupportTicket
  {
    if t.id == id then
      t.(messages := t.messages + [TicketMessage(messageId, id, if isAdmin then "admin" else t.userId, text, now, isAdmin)],
         updatedAt := now)
    else t
  }

  /** The matching tickets each gain exactly one message, after the earlier ones;
      the others are unchanged. */
  lemma WithMessageSpec(t: SupportTicket, id: string, text: string, isAdmin: bool, messageId: string, now: Time)
    ensures t.id == id ==>
      var u := WithMessage(t, id, text, isAdmin, messageId, now);
      && |u.messages| == |t.messages| + 1
      && u.messages[..|t.messages|] == t.messages
      && u.messages[|t.messages|].message == text
      && u.messages[|t.messages|].isAdmin == isAdmin
      && u.messages[|t.messages|].userId == (if isAdmin then "admin" else t.userId)
      && u.(messages := t.messages, updatedAt := t.updatedAt) == t
    ensures t.id != id ==> WithMessage(t, id, text, isAdmin, messageId, now) == t
  {
  }

  class Store {
    var supportTickets: seq<SupportTicket>
    var eventApprovals: seq<EventApproval>
    var adminStats: Option<AdminStats>

    constructor()
      ensures supportTickets == [] && eventApprovals == [] && adminStats == None
    {
      supportTickets := [];
      eventApprovals := [];
      adminStats := None;
    }

    /** The counter agrees with the tickets (or there are no figures yet). */
    predicate InStep()
      reads this
    {
      StatsInStep(adminStats, supportTickets)
    }

    method SetAdminStats(stats: AdminStats)
      modifies this
      ensures adminStats == Some(stats)
      ensures supportTickets == old(supportTickets) && eventApprovals == old(eventApprovals)
    {
      adminStats := Some(stats);
    }

    /** `addSupportTicket(t)`: append, and count one more open ticket whatever
        the new ticket's status. Absent figures stay absent. */
    method AddSupportTicket(t: SupportTicket)
      modifies this
      ensures supportTickets == old(supportTickets) + [t]
      ensures eventApprovals == old(eventApprovals)
      ensures old(adminStats).None? ==> adminStats.None?
      ensures old(adminStats).Some? ==>
        adminStats == Some(old(adminStats).value.(openTickets := old(adminStats).value.openTickets + 1))
      ensures old(InStep()) && t.status == Open ==> InStep()
    {
      OpenCountConcat(supportTickets, [t]);
      FilterSingleton(t, IsOpen);
      supportTickets := supportTickets + [t];
      if adminStats.Some? {
        adminStats := Some(adminStats.value.(openTickets := adminStats.value.openTickets + 1));
      }
    }

    /** `updateTicketStatus(id, status)` at time now. */
    method UpdateTicketStatus(id: string, status: TicketStatus, now: Time)
      modifies this
      ensures supportTickets == Restatused(old(supportTickets), id, status, now)
      ensures adminStats == StatsAfterStatus(old(adminStats), old(supportTickets), id, status)
      ensures eventApprovals == old(eventApprovals)
      ensures (old(InStep()) && UniqueIds(old(supportTickets)) &&
               (FindTicket(old(supportTickets), id).Some? || status != Open)) ==> InStep()
    {
      var before, stats := supportTickets, adminStats;
      if StatsInStep(stats, before) && UniqueIds(before) && (FindTicket(before, id).Some? || status != Open) {
        StatusChangeKeepsStep(stats, before, id, status, now);
      }
      supportTickets := Restatused(before, id, status, now);
      adminStats := StatsAfterStatus(stats, before, id, status);
    }

    /** `addTicketMessage(id, text, isAdmin)`, the message id and time supplied. */
    method AddTicketMessage(id: string, text: string, isAdmin: bool, messageId: string, now: Time)
      modifies this
      ensures |supportTickets| == |old(supportTickets)|
      ensures forall i :: 0 <= i < |supportTickets| ==>
        supportTickets[i] == WithMessage(old(supportTickets)[i], id, text, isAdmin, messageId, now)
      ensures eventApprovals == old(eventApprovals) && adminStats == old(adminStats)
    {
      var ts := supportTickets;
      supportTickets := seq(|ts|, i requires 0 <= i < |ts| => WithMessage(ts[i], id, text, isAdmin, messageId, now));
    }

    /** `approveEvent(eventId, notes)` at time now. */
    method ApproveEvent(eventId: string, notes: Option<string>, now: Time)
      modifies this
      ensures eventApprovals == old(eventApprovals) + [EventApproval(eventId, ReviewApproved, notes, Some(now), Some("admin"))]
      ensures supportTickets == old(supportTickets) && adminStats == old(adminStats)
    {
      eventApprovals := eventApprovals + [EventApproval(eventId, ReviewApproved, notes, Some(now), Some("admin"))];
    }

    /** `rejectEvent(eventId, notes)` at time now. */
    method RejectEvent(eventId: string, notes: Option<string>, now: Time)
      modifies this
      ensures eventApprovals == old(eventApprovals) + [EventApproval(eventId, ReviewRejected, notes, Some(now), Some("admin"))]
      ensures supportTickets == old(supportTickets) && adminStats == old(adminStats)
    {
      eventApprovals := eventApprovals + [EventApproval(eventId, ReviewRejected, notes, Some(now), Some("admin"))];
    }

    /** `getOpenTicketsCount()`: in-progress tickets are not counted. */
    function GetOpenTicketsCount(): (n: nat)
      reads this
      ensures n <= |supportTickets|
    {
      OpenCount(supportTickets)
    }
  }
}
