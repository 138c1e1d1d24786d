/** The append-only activity log. */
module LogStore {
  import opened Common

  datatype LogAction = Created | Approved | Rejected | Edited | Deleted

  /** One activity entry; `details` is optional. */
  datatype EventLog = EventLog(
    id: string,
    eventId: string,
    action: LogAction,
    timestamp: Time,
    userId: string,
    userName: string,
    details: Option<string>)

  /** `getLogsByEventId(eventId)` over logs. */
  function ByEventId(logs: seq<EventLog>, eventId: string): seq<EventLog> {
    Filter(logs, (l: EventLog) => l.eventId == eventId)
  }

  /** `getLogsByUser(userId)` over logs. */
  function ByUser(logs: seq<EventLog>, userId: string): seq<EventLog> {
    Filter(logs, (l: EventLog) => l.userId == userId)
  }

  /** Appending an entry extends the per-event and per-user views by that entry
      when it belongs to them, and leaves them alone otherwise. */
  lemma ViewsAfterAppend(logs: seq<EventLog>, l: EventLog, eventId: string, userId: string)
    ensures ByEventId(logs + [l], eventId) == ByEventId(logs, eventId) + (if l.eventId == eventId then [l] else [])
    ensures ByUser(logs + [l], userId) == ByUser(logs, userId) + (if l.userId == userId then [l] else [])
  {
    FilterConcat(logs, [l], (l: EventLog) => l.eventId == eventId);
    FilterConcat(logs, [l], (l: EventLog) => l.userId == userId);
  }

  /** The per-event view holds exactly the entries for the event. */
  lemma ByEventIdMeaning(logs: seq<EventLog>, eventId: string, l: EventLog)
    ensures l in ByEventId(logs, eventId) <==> l in logs && l.eventId == eventId
  {
    FilterMember(logs, (l: EventLog) => l.eventId == eventId, l);
  }

  /** The per-user view holds exactly the user's entries. */
  lemma ByUserMeaning(logs: seq<EventLog>, userId: string, l: EventLog)
    ensures l in ByUser(logs, userId) <==> l in logs && l.userId == userId
  {
    FilterMember(logs, (l: EventLog) => l.userId == userId, l);
  }

  class Store {
    var logs: seq<EventLog>

    constructor()
      ensures logs == []
    {
      logs := [];
    }

    /** `addLog(l)`: the one way the log changes; earlier entries are kept as
        they were. */
    method AddLog(l: EventLog)
      modifies this
      ensures logs == old(logs) + [l]
      ensures old(logs) <= logs
    {
      logs := logs + [l];
    }

    function GetLogsByEventId(eventId: string): (r: seq<EventLog>)
      reads this
      ensures forall i :: 0 <= i < |r| ==> r[i] in logs && r[i].eventId == eventId
      ensures forall i :: 0 <= i < |logs| && logs[i].eventId == eventId ==> logs[i] in r
    {
      ByEventId(logs, eventId)
    }

    function GetLogsByUser(userId: string): (r: seq<EventLog>)
      reads this
      ensures forall i :: 0 <= i < |r| ==> r[i] in logs && r[i].userId == userId
      ensures forall i :: 0 <= i < |logs| && logs[i].userId == userId ==> logs[i] in r
    {
      ByUser(logs, userId)
    }
  }
}
