/** Support tickets, their messages, event approvals and the administrator's
    dashboard figures. */
module AdminTypes {
  import opened Common
  import opened EventTypes
  import opened RegistrationTypes

  datatype TicketStatus = Open | InProgress | Resolved

  datatype Priority = Low | Medium | High

  datatype TicketMessage = TicketMessage(
    id: string,
    ticketId: string,
    userId: string,
    message: string,
    timestamp: Time,
    isAdmin: bool)

  datatype SupportTicket = SupportTicket(
    id: string,
    userId: string,
    subject: string,
    description: string,
    status: TicketStatus,
    priority: Priority,
    createdAt: Time,
    updatedAt: Time,
    messages: seq<TicketMessage>)

  /** Dashboard figures. Revenue is in whole currency units. */
  datatype AdminStats = AdminStats(
    totalEvents: int,
    totalRevenue: int,
    pendingApprovals: int,
    openTickets: int,
    recentRegistrations: seq<Registration>)

  datatype EventApproval = EventApproval(
    eventId: string,
    status: ReviewStatus,
    adminNotes: Option<string>,
    reviewedAt: Option<Time>,
    reviewedBy: Option<string>)
}
