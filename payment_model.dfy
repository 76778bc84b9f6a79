/** The `Payment` schema: one attempt to pay for (user, event), the ledger's source of truth. */
module PaymentModel {
  import opened Common

  /** `enum: ["created", "paid", "failed"]`. */
  datatype PaymentStatus = Created | Paid | Failed

  /**
   * A stored payment. `user`, `event`, `admin`, `amount` and `razorpayOrderId` are
   * required; `amount` is the event price in rupees as given; `razorpayPaymentId` is
   * null until the payment is verified.
   */
  datatype Payment = Payment(
    user: Id,
    event: Id,
    admin: Id,
    amount: int,
    razorpayOrderId: string,
    razorpayPaymentId: Option<string>,
    status: PaymentStatus,
    createdAt: Time)

  /** A document built from its required fields: status `created`, no gateway payment id. */
  function NewPayment(user: Id, event: Id, admin: Id, amount: int, orderId: string, now: Time): (p: Payment)
    ensures p.user == user && p.event == event && p.admin == admin
    ensures p.amount == amount && p.razorpayOrderId == orderId && p.createdAt == now
    ensures p.status == Created && p.razorpayPaymentId == None
  {
    Payment(user, event, admin, amount, orderId, None, Created, now)
  }

  /** Mongoose's `required` check on a string path rejects the empty string. */
  predicate PaymentAdmitted(p: Payment)
  {
    p.razorpayOrderId != ""
  }
}
