/**
 * The ticket lifecycle across handlers: an order paid and verified gives a ticket that
 * admits once; a verified payment cannot be verified again. The routes never store a
 * row in `registered` (`Db.Valid()` keeps `NoUnpaidRows`), so the gate never answers
 * "Payment not completed" on their data; a `registered` row written outside them is
 * never promoted, and its holder can pay again and again and is never admitted.
 */
module Scenarios {
  import opened Common
  import opened Tokens
  import opened UserModel
  import opened EventModel
  import opened PaymentModel
  import opened EventRegistrationModel
  import opened Database
  import opened PaymentRoutes
  import opened EntryRoutes

  /** A first purchase: verify creates a paid row whose ticket passes the scan once and is refused as used after. */
  lemma TicketAdmitsOnce(regs: seq<Registration>, user: Id, event: Id, paymentId: Id, qrKey: string, now: Time, later: Time,
                         admin: Caller)
    requires RowOf(regs, user, event).None?
    requires admin.role == Admin
    requires Seconds(later) < Seconds(now) + QR_TTL
    ensures var after := Confirm(regs, user, event, paymentId, qrKey, now);
      var ticket := Some(TicketFor(|regs|, qrKey, now));
      && ScanCheck(after, admin, ticket, qrKey, now) == Pass(|regs|)
      && ScanCheck(after[|regs| := CheckIn(after[|regs|], now)], admin, ticket, qrKey, later) == Reject(400, "Ticket already used")
  {
    var after := Confirm(regs, user, event, paymentId, qrKey, now);
    var ticket := Some(TicketFor(|regs|, qrKey, now));
    SignVerify(QrClaims(|regs|), qrKey, QR_TTL, now, later);
    assert ScanCheck(after, admin, ticket, qrKey, now) == Pass(|regs|);
    NoSecondEntry(after, admin, ticket, qrKey, now, later);
  }

  /** A verified payment is refused the second time, whatever the signature: the repeat is an error, not a success. */
  lemma SecondVerifyRejected(payments: seq<Payment>, req: VerifyRequest, hmac: (string, string) -> string, secret: string,
                             req2: VerifyRequest)
    requires VerifyCheck(payments, req, hmac, secret).Pass?
    requires FieldsPresent(req2) && req2.paymentId == req.paymentId
    ensures var pid := req.paymentId.value;
      VerifyCheck(payments[pid := MarkPaid(payments[pid], req.gatewayPaymentId)], req2, hmac, secret) == Reject(400, "Payment already verified")
  {
  }

  /** On a store the routes wrote, no valid ticket is refused as unpaid. */
  lemma GateNeverSeesUnpaid(regs: seq<Registration>, caller: Caller, qrToken: Option<Jwt>, qrKey: string, now: Time)
    requires NoUnpaidRows(regs)
    ensures ScanCheck(regs, caller, qrToken, qrKey, now) != Reject(400, "Payment not completed")
  {
  }

  /**
   * A row written outside the routes and still in `registered`, when it is the first
   * row of its pair, is reused by verify and keeps its status: the new ticket is refused at the gate as unpaid, and create-order answers
   * as it did before, so the student is asked to pay again.
   */
  lemma UnpaidRowLocksOut(events: seq<Event>, regs: seq<Registration>, user: Id, event: Id, paymentId: Id, qrKey: string,
                          now: Time, later: Time, admin: Caller)
    requires RowOf(regs, user, event).Some? && regs[RowOf(regs, user, event).value].status == Registered
    requires OnePerPair(regs)
    requires admin.role == Admin
    requires Seconds(later) < Seconds(now) + QR_TTL
    ensures var k := RowOf(regs, user, event).value;
      var after := Confirm(regs, user, event, paymentId, qrKey, now);
      && after[k].status == Registered
      && after[k].payment == regs[k].payment
      && ScanCheck(after, admin, Some(TicketFor(k, qrKey, now)), qrKey, later) == Reject(400, "Payment not completed")
      && OrderCheck(events, after, user, event, later) == OrderCheck(events, regs, user, event, later)
  {
    var k := RowOf(regs, user, event).value;
    var after := Confirm(regs, user, event, paymentId, qrKey, now);
    SignVerify(QrClaims(k), qrKey, QR_TTL, now, later);
    assert !AlreadyPaid(regs, user, event);
    assert !AlreadyPaid(after, user, event) by {
      forall i | 0 <= i < |after| && after[i].user == user && after[i].event == event
        ensures !IsPaidOrCheckedIn(after[i])
      {
        assert i == k;
      }
    }
  }
}
