/**
 * `POST /payments/create-order/:eventId` and `POST /payments/verify`.
 *
 * The gateway is a parameter: `gateway(paise)` is the order id Razorpay returns for an
 * order of that many paise, or `None` when the call throws. The HMAC-SHA256 of the
 * gateway's signature scheme is the parameter `hmac(secret, message)`. Sending the
 * ticket (QR image and email) is reduced to whether it succeeded, `deliveryOk`.
 */
module PaymentRoutes {
  import opened Common
  import opened Seqs
  import opened Tokens
  import opened UserModel
  import opened EventModel
  import opened PaymentModel
  import opened EventRegistrationModel
  import opened Database

  datatype OrderCreated = OrderCreated(orderId: string, amount: int, paymentId: Id)

  /** The pair already holds a registration that is paid or checked in. */
  ghost predicate AlreadyPaid(regs: seq<Registration>, user: Id, event: Id)
  {
    exists i :: 0 <= i < |regs| && regs[i].user == user && regs[i].event == event && IsPaidOrCheckedIn(regs[i])
  }

  /**
   * The guards of create-order, in the handler's order: the event exists, the deadline
   * has not passed (a request at the deadline instant is accepted), and the caller has
   * no paid or checked-in registration for it (a `registered` row does not count).
   * On success, the position of the event.
   */
  function OrderCheck(events: seq<Event>, regs: seq<Registration>, user: Id, eventId: Id, now: Time): (c: Check<nat>)
    ensures EventIndex(events, eventId).None? ==> c == Reject(404, "Event not found")
    ensures EventIndex(events, eventId).Some? && now > events[EventIndex(events, eventId).value].registrationDeadline ==>
      c == Reject(400, "Registrations are closed for this event")
    ensures (EventIndex(events, eventId).Some? && now <= events[EventIndex(events, eventId).value].registrationDeadline &&
             AlreadyPaid(regs, user, eventId)) ==>
      c == Reject(400, "You have already registered and paid for this event")
    ensures c.Pass? <==>
      EventIndex(events, eventId).Some? && now <= events[EventIndex(events, eventId).value].registrationDeadline &&
      !AlreadyPaid(regs, user, eventId)
    ensures c.Pass? ==> c.value < |events| && events[c.value].id == eventId
  {
    var e := EventIndex(events, eventId);
    if e.None? then Reject(404, "Event not found")
    else if now > events[e.value].registrationDeadline then Reject(400, "Registrations are closed for this event")
    else
      var paid := FirstIndex(regs, (r: Registration) => r.user == user && r.event == eventId && IsPaidOrCheckedIn(r));
      if paid.Some? then Reject(400, "You have already registered and paid for this event")
      else Pass(e.value)
  }

  /** Create-order: the guards, the gateway order for the price in paise, then one new `created` payment. */
  method CreateOrder(db: Db, user: Id, eventId: Id, now: Time, gateway: int -> Option<string>)
    returns (reply: Reply<OrderCreated>)
    requires db.Valid()
    modifies db
    ensures db.Valid()
    ensures db.users == old(db.users) && db.otps == old(db.otps) && db.events == old(db.events)
    ensures db.nextEventId == old(db.nextEventId) && db.registrations == old(db.registrations)
    ensures var c := OrderCheck(old(db.events), old(db.registrations), user, eventId, now);
      c.Reject? ==> reply == Fail(c.status, c.message) && db.payments == old(db.payments)
    ensures var c := OrderCheck(old(db.events), old(db.registrations), user, eventId, now);
      c.Pass? ==>
        var e := old(db.events)[c.value];
        var order := gateway(e.price * 100);
        if order.Some? && order.value != "" && e.createdBy < |old(db.users)| then
          && db.payments == old(db.payments) + [NewPayment(user, eventId, e.createdBy, e.price, order.value, now)]
          && reply == Ok(200, OrderCreated(order.value, e.price, |old(db.payments)|))
        else
          db.payments == old(db.payments) && reply == Fail(500, "Failed to create payment order")
  {
    var c := OrderCheck(db.events, db.registrations, user, eventId, now);
    if c.Reject? {
      return Fail(c.status, c.message);
    }
    var e := db.events[c.value];
    var order := gateway(e.price * 100);
    // `event.createdBy._id` throws when the creator no longer resolves; `required` rejects an empty order id.
    if order.None? || e.createdBy >= |db.users| {
      return Fail(500, "Failed to create payment order");
    }
    var p := NewPayment(user, eventId, e.createdBy, e.price, order.value, now);
    if !PaymentAdmitted(p) {
      return Fail(500, "Failed to create payment order");
    }
    LedgerAfterNewPayment(db.payments, db.registrations, p);
    db.payments := db.payments + [p];
    reply := Ok(200, OrderCreated(order.value, e.price, |db.payments| - 1));
  }

  /** A new unverified payment leaves every registration consistent with the ledger. */
  lemma LedgerAfterNewPayment(payments: seq<Payment>, regs: seq<Registration>, p: Payment)
    requires LedgerValid(payments, regs)
    requires p.status != PaymentModel.Paid && p.razorpayPaymentId.None?
    ensures LedgerValid(payments + [p], regs)
  {
    var ps := payments + [p];
    forall i | 0 <= i < |regs|
      ensures RegistrationValid(ps, regs, i)
    {
      assert RegistrationValid(payments, regs, i);
    }
  }

  datatype VerifyRequest = VerifyRequest(orderId: string, gatewayPaymentId: string, signature: string, paymentId: Option<Id>)

  /** The gateway's signature over `order_id|payment_id`, recomputed with the shared secret. */
  predicate SignatureValid(hmac: (string, string) -> string, secret: string, orderId: string, gatewayPaymentId: string, signature: string)
  {
    hmac(secret, orderId + "|" + gatewayPaymentId) == signature
  }

  predicate FieldsPresent(req: VerifyRequest)
  {
    req.orderId != "" && req.gatewayPaymentId != "" && req.signature != "" && req.paymentId.Some?
  }

  /**
   * The guards of verify, in the handler's order: all four fields, a known payment,
   * not already `paid` (a repeated call is an error, not a success), and a signature
   * that matches the order id and payment id the caller supplied. The order id stored
   * on the payment plays no part.
   */
  function VerifyCheck(payments: seq<Payment>, req: VerifyRequest, hmac: (string, string) -> string, secret: string): (c: Check<Id>)
    ensures !FieldsPresent(req) ==> c == Reject(400, "Missing payment details")
    ensures FieldsPresent(req) && req.paymentId.value >= |payments| ==> c == Reject(404, "Payment not found")
    ensures FieldsPresent(req) && req.paymentId.value < |payments| && payments[req.paymentId.value].status == PaymentModel.Paid ==>
      c == Reject(400, "Payment already verified")
    ensures (FieldsPresent(req) && req.paymentId.value < |payments| && payments[req.paymentId.value].status != PaymentModel.Paid &&
             !SignatureValid(hmac, secret, req.orderId, req.gatewayPaymentId, req.signature)) ==>
      c == Reject(400, "Invalid payment signature")
    ensures c.Pass? <==>
      FieldsPresent(req) && req.paymentId.value < |payments| && payments[req.paymentId.value].status != PaymentModel.Paid &&
      SignatureValid(hmac, secret, req.orderId, req.gatewayPaymentId, req.signature)
    ensures c.Pass? ==> c.value == req.paymentId.value
  {
    if !FieldsPresent(req) then Reject(400, "Missing payment details")
    else if req.paymentId.value >= |payments| then Reject(404, "Payment not found")
    else if payments[req.paymentId.value].status == PaymentModel.Paid then Reject(400, "Payment already verified")
    else if !SignatureValid(hmac, secret, req.orderId, req.gatewayPaymentId, req.signature) then Reject(400, "Invalid payment signature")
    else Pass(req.paymentId.value)
  }

  /**
   * Because the stored order id is never compared, a signature the gateway issued for
   * one order confirms every payment that is not yet paid, whatever order, event or
   * amount it was created for.
   */
  lemma SignatureConfirmsAnyPayment(payments: seq<Payment>, orderId: string, gatewayPaymentId: string, signature: string,
                                    hmac: (string, string) -> string, secret: string, p: Id)
    requires SignatureValid(hmac, secret, orderId, gatewayPaymentId, signature)
    requires orderId != "" && gatewayPaymentId != "" && signature != ""
    requires p < |payments| && payments[p].status != PaymentModel.Paid
    ensures VerifyCheck(payments, VerifyRequest(orderId, gatewayPaymentId, signature, Some(p)), hmac, secret) == Pass(p)
  {
  }

  /** The payment after a successful verification. */
  function MarkPaid(p: Payment, gatewayPaymentId: string): (q: Payment)
    ensures q.status == PaymentModel.Paid && q.razorpayPaymentId == Some(gatewayPaymentId)
    ensures q.user == p.user && q.event == p.event && q.admin == p.admin && q.amount == p.amount
    ensures q.razorpayOrderId == p.razorpayOrderId && q.createdAt == p.createdAt
  {
    p.(status := PaymentModel.Paid, razorpayPaymentId := Some(gatewayPaymentId))
  }

  /** The entry ticket for registration `k`: its id alone, signed with the QR key for two days. */
  function TicketFor(k: Id, qrKey: string, now: Time): (t: Jwt)
    ensures t.claims == QrClaims(k) && t.key == qrKey
    ensures Verify(t, qrKey, now) == Some(QrClaims(k))
  {
    Sign(QrClaims(k), qrKey, QR_TTL, now)
  }

  /**
   * Steps 4 and 5 of verify on the registrations: the first row of (user, event) in any
   * status is reused, keeping its status and payment reference and only receiving a
   * new ticket; if there is none, exactly one row is created, `paid`, referring to this
   * payment and holding its ticket.
   */
  function Confirm(regs: seq<Registration>, user: Id, event: Id, paymentId: Id, qrKey: string, now: Time): (r: seq<Registration>)
    ensures RowOf(regs, user, event).Some? ==>
      var k := RowOf(regs, user, event).value;
      && |r| == |regs|
      && r[k] == regs[k].(qrToken := Some(TicketFor(k, qrKey, now)))
      && r[k].status == regs[k].status && r[k].payment == regs[k].payment
      && (forall j :: 0 <= j < |regs| && j != k ==> r[j] == regs[j])
    ensures RowOf(regs, user, event).None? ==>
      && |r| == |regs| + 1
      && r[..|regs|] == regs
      && r[|regs|] == Registration(user, event, Some(paymentId), EventRegistrationModel.Paid, Some(TicketFor(|regs|, qrKey, now)), None, now)
  {
    var row := RowOf(regs, user, event);
    if row.Some? then
      regs[row.value := regs[row.value].(qrToken := Some(TicketFor(row.value, qrKey, now)))]
    else
      regs + [Registration(user, event, Some(paymentId), EventRegistrationModel.Paid, Some(TicketFor(|regs|, qrKey, now)), None, now)]
  }

  /** Confirming never gives a (user, event) pair a second registration. */
  lemma ConfirmKeepsOnePerPair(regs: seq<Registration>, user: Id, event: Id, paymentId: Id, qrKey: string, now: Time)
    requires OnePerPair(regs)
    ensures OnePerPair(Confirm(regs, user, event, paymentId, qrKey, now))
  {
    var r := Confirm(regs, user, event, paymentId, qrKey, now);
    if RowOf(regs, user, event).None? {
      forall i, j | 0 <= i < j < |r|
        ensures r[i].user != r[j].user || r[i].event != r[j].event
      {
        if j == |regs| {
          assert r[i] == regs[i];
        } else {
          assert r[i] == regs[i] && r[j] == regs[j];
        }
      }
    }
  }

  /** Confirming keeps every registration consistent with a ledger in which the payment is now verified. */
  lemma ConfirmKeepsLedger(payments: seq<Payment>, regs: seq<Registration>, pid: Id, gatewayPaymentId: string, qrKey: string, now: Time)
    requires LedgerValid(payments, regs)
    requires pid < |payments| && payments[pid].status != PaymentModel.Paid
    ensures var p := payments[pid];
      LedgerValid(payments[pid := MarkPaid(p, gatewayPaymentId)], Confirm(regs, p.user, p.event, pid, qrKey, now))
  {
    var p := payments[pid];
    var ps := payments[pid := MarkPaid(p, gatewayPaymentId)];
    var r := Confirm(regs, p.user, p.event, pid, qrKey, now);
    ConfirmKeepsOnePerPair(regs, p.user, p.event, pid, qrKey, now);
    forall i | 0 <= i < |ps|
      ensures ps[i].razorpayPaymentId.Some? <==> ps[i].status == PaymentModel.Paid
    {
      assert i != pid ==> ps[i] == payments[i];
    }
    forall i | 0 <= i < |r|
      ensures RegistrationValid(ps, r, i)
    {
      if i < |regs| {
        assert RegistrationValid(payments, regs, i);
        if regs[i].payment.Some? {
          assert regs[i].payment.value != pid;
        }
      }
    }
  }

  /** Confirming writes no row that is still `registered`. */
  lemma ConfirmKeepsNoUnpaidRows(regs: seq<Registration>, user: Id, event: Id, paymentId: Id, qrKey: string, now: Time)
    requires NoUnpaidRows(regs)
    ensures NoUnpaidRows(Confirm(regs, user, event, paymentId, qrKey, now))
  {
    var r := Confirm(regs, user, event, paymentId, qrKey, now);
    forall i | 0 <= i < |r|
      ensures r[i].status != Registered
    {
      if i < |regs| {
        assert r[i].status == regs[i].status;
      }
    }
  }

  /**
   * Verify: the guards; the payment becomes `paid` with the gateway payment id; the
   * registration is found or created and receives its ticket; the ticket is sent. A
   * payment whose user or event no longer resolves cannot be saved (the populated
   * path is null and required), so the handler answers 500 with nothing written. A
   * failed delivery answers 500 although everything was saved.
   */
  method VerifyPayment(db: Db, req: VerifyRequest, now: Time, hmac: (string, string) -> string, secret: string,
                       qrKey: string, deliveryOk: bool)
    returns (reply: Reply<Done>)
    requires db.Valid()
    modifies db
    ensures db.Valid()
    ensures db.users == old(db.users) && db.otps == old(db.otps) && db.events == old(db.events)
    ensures db.nextEventId == old(db.nextEventId)
    ensures var c := VerifyCheck(old(db.payments), req, hmac, secret);
      c.Reject? ==> reply == Fail(c.status, c.message) && db.payments == old(db.payments) && db.registrations == old(db.registrations)
    ensures var c := VerifyCheck(old(db.payments), req, hmac, secret);
      c.Pass? ==>
        var p := old(db.payments)[c.value];
        if !RefsResolve(old(db.users), old(db.events), p.user, p.event) then
          db.payments == old(db.payments) && db.registrations == old(db.registrations) && reply == Fail(500, "Verification failed")
        else
          && db.payments == old(db.payments)[c.value := MarkPaid(p, req.gatewayPaymentId)]
          && db.registrations == Confirm(old(db.registrations), p.user, p.event, c.value, qrKey, now)
          && reply == (if deliveryOk then Ok(200, Done) else Fail(500, "Verification failed"))
  {
    var c := VerifyCheck(db.payments, req, hmac, secret);
    if c.Reject? {
      return Fail(c.status, c.message);
    }
    var pid := c.value;
    var p := db.payments[pid];
    // `payment.save()` validates the populated `user` and `event` paths.
    if !RefsResolve(db.users, db.events, p.user, p.event) {
      return Fail(500, "Verification failed");
    }
    ConfirmKeepsLedger(db.payments, db.registrations, pid, req.gatewayPaymentId, qrKey, now);
    ConfirmKeepsNoUnpaidRows(db.registrations, p.user, p.event, pid, qrKey, now);
    db.payments := db.payments[pid := MarkPaid(p, req.gatewayPaymentId)];
    db.registrations := Confirm(db.registrations, p.user, p.event, pid, qrKey, now);
    reply := if deliveryOk then Ok(200, Done) else Fail(500, "Verification failed");
  }

  /** Marking an unpaid payment as paid keeps the ledger consistent on its own. */
  lemma LedgerAfterMarkPaid(payments: seq<Payment>, regs: seq<Registration>, pid: Id, gatewayPaymentId: string)
    requires LedgerValid(payments, regs)
    requires pid < |payments| && payments[pid].status != PaymentModel.Paid
    ensures LedgerValid(payments[pid := MarkPaid(payments[pid], gatewayPaymentId)], regs)
  {
    var ps := payments[pid := MarkPaid(payments[pid], gatewayPaymentId)];
    forall i | 0 <= i < |regs|
      ensures RegistrationValid(ps, regs, i)
    {
      assert RegistrationValid(payments, regs, i);
    }
  }
}
