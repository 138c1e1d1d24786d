/** The support query form: its rules, the ticket it builds, and its
    submission to the administrator's store. */
module QueryForm {
  import opened Common
  import opened RegistrationTypes
  import opened AdminTypes
  import AdminStore

  const QuerySubjects: seq<string> := [
    "Technical Issue", "Booking Problem", "Payment Issue", "Event Information",
    "Refund Request", "Account Access", "General Inquiry", "Feature Request", "Other"]

  datatype QueryData = QueryData(subject: string, description: string)

  /** `querySchema`: the subject must be a listed one and the description at
      least 20 UTF-16 code units long. */
  function QueryIssues(d: QueryData): (issues: seq<string>)
    ensures issues == [] <==> d.subject in QuerySubjects && Utf16Length(d.description) >= 20
  {
    (if d.subject in QuerySubjects then [] else ["Please select a subject"]) +
    (if Utf16Length(d.description) >= 20 then [] else ["Description must be at least 20 characters"])
  }

  /** `currentUser?.id || 'guest'`: the signed-in user's id, or `'guest'` when
      there is none or the id is empty. */
  function UserIdOrGuest(currentUser: Option<User>): (id: string)
    ensures id != ""
    ensures currentUser.Some? && currentUser.value.id != "" ==> id == currentUser.value.id
    ensures currentUser.None? || currentUser.value.id == "" ==> id == "guest"
  {
    if currentUser.Some? && currentUser.value.id != "" then currentUser.value.id else "guest"
  }

  /** The ticket `onSubmit` builds; its ids and time are supplied. The message's
      ticket id is a fresh id of its own, not the ticket's. */
  function NewTicket(d: QueryData, currentUser: Option<User>, ticketId: string, messageId: string,
                     messageTicketId: string, now: Time): SupportTicket
  {
    SupportTicket(ticketId, UserIdOrGuest(currentUser), d.subject, d.description, Open, Medium, now, now,
                  [TicketMessage(messageId, messageTicketId, UserIdOrGuest(currentUser), d.description, now, false)])
  }

  /** A new ticket is open and of medium priority, belongs to the user (or the
      guest), and opens with one message from its owner that is not an
      administrator's and repeats the description. */
  lemma NewTicketSpec(d: QueryData, currentUser: Option<User>, ticketId: string, messageId: string,
                      messageTicketId: string, now: Time)
    ensures var t := NewTicket(d, currentUser, ticketId, messageId, messageTicketId, now);
      && t.status == Open && t.priority == Medium
      && t.userId == UserIdOrGuest(currentUser)
      && |t.messages| == 1
      && !t.messages[0].isAdmin
      && t.messages[0].message == t.description == d.description
      && t.messages[0].userId == t.userId
  {
  }

  /** `onSubmit(d)` for valid data: exactly one ticket is appended. */
  method OnSubmit(admin: AdminStore.Store, d: QueryData, currentUser: Option<User>, ticketId: string,
                  messageId: string, messageTicketId: string, now: Time)
    requires QueryIssues(d) == []
    modifies admin
    ensures admin.supportTickets == old(admin.supportTickets) + [NewTicket(d, currentUser, ticketId, messageId, messageTicketId, now)]
    ensures old(admin.InStep()) ==> admin.InStep()
  {
    admin.AddSupportTicket(NewTicket(d, currentUser, ticketId, messageId, messageTicketId, now));
  }
}
