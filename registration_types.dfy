/** Registrations, the users who make them, and the payment record kept per
    registration. */
module RegistrationTypes {
  import opened Common

  datatype TicketType = General | Vip

  datatype RegistrationStatus = Confirmed | Cancelled | Transferred

  datatype Attendee = Attendee(name: string, email: string, phone: string)

  /** A booking. Prices are whole currency units. */
  datatype Registration = Registration(
    id: string,
    eventId: string,
    userId: string,
    ticketType: TicketType,
    quantity: int,
    totalPrice: int,
    status: RegistrationStatus,
    purchaseDate: Time,
    attendeeInfo: Attendee)

  /** A signed-in user; an absent `isAdmin` or `isOrganizer` reads as false. */
  datatype User = User(
    id: string,
    name: string,
    email: string,
    phone: string,
    isAdmin: bool,
    isOrganizer: bool)

  datatype PaymentState = PaymentPending | Paid | Failed

  datatype RefundStatus = RefundPending | NotApplicable

  datatype Transaction = Transaction(
    transactionId: string,
    paymentId: string,
    orderId: string,
    amount: int,
    timestamp: Time)

  /** The payment record of a registration. Every property may be missing: a
      cancellation of a registration with no record creates one holding only
      the cancellation date and the refund flag. */
  datatype PaymentRecord = PaymentRecord(
    status: Option<PaymentState>,
    lastUpdated: Option<Time>,
    error: Option<string>,
    transaction: Option<Transaction>,
    cancellationDate: Option<Time>,
    refundStatus: Option<RefundStatus>)

  /** The record with no properties, what spreading `undefined` gives. */
  const EmptyRecord := PaymentRecord(None, None, None, None, None, None)
}
