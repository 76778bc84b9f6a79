/**
 * `POST /entry/scan`: an organiser scans a student's ticket at the gate. The ticket is
 * the signed token itself; the route reads the registration it names and admits the
 * student once. The confirmation email is reduced to whether it was sent, `deliveryOk`.
 */
module EntryRoutes {
  import opened Common
  import opened Tokens
  import opened UserModel
  import opened EventModel
  import opened EventRegistrationModel
  import opened Database

  /** The body of a successful scan: who came in, and for which event. */
  datatype Admission = Admission(name: string, phone: Option<string>, eventTitle: string)

  /** The registration a token names, when the token verifies under the ticket key and is an entry ticket. */
  function TicketTarget(qrToken: Option<Jwt>, qrKey: string, now: Time): (k: Option<Id>)
    ensures k.Some? <==> qrToken.Some? && Verify(qrToken.value, qrKey, now).Some? && Verify(qrToken.value, qrKey, now).value.QrClaims?
    ensures k.Some? ==> Verify(qrToken.value, qrKey, now) == Some(QrClaims(k.value))
  {
    if qrToken.None? then None
    else
      var claims := Verify(qrToken.value, qrKey, now);
      if claims.Some? && claims.value.QrClaims? then Some(claims.value.registrationId) else None
  }

  /**
   * The guards of the scan, in the handler's order: the caller's role is exactly
   * `admin` (an unverified organiser passes, a super admin does not), a token was
   * sent, it verifies under the ticket key and has not expired, it names an existing
   * registration, that registration is not checked in yet, and it is paid.
   */
  function ScanCheck(regs: seq<Registration>, caller: Caller, qrToken: Option<Jwt>, qrKey: string, now: Time): (c: Check<Id>)
    ensures caller.role != Admin ==> c == Reject(403, "Admin access only")
    ensures caller.role == Admin && qrToken.None? ==> c == Reject(400, "QR token missing")
    ensures caller.role == Admin && qrToken.Some? && Verify(qrToken.value, qrKey, now).None? ==>
      c == Reject(400, "Invalid or expired QR")
    ensures (caller.role == Admin && qrToken.Some? && Verify(qrToken.value, qrKey, now).Some? &&
             (TicketTarget(qrToken, qrKey, now).None? || TicketTarget(qrToken, qrKey, now).value >= |regs|)) ==>
      c == Reject(404, "Invalid ticket")
    ensures (caller.role == Admin && TicketTarget(qrToken, qrKey, now).Some? && TicketTarget(qrToken, qrKey, now).value < |regs| &&
             regs[TicketTarget(qrToken, qrKey, now).value].status == CheckedIn) ==>
      c == Reject(400, "Ticket already used")
    ensures (caller.role == Admin && TicketTarget(qrToken, qrKey, now).Some? && TicketTarget(qrToken, qrKey, now).value < |regs| &&
             regs[TicketTarget(qrToken, qrKey, now).value].status == Registered) ==>
      c == Reject(400, "Payment not completed")
    ensures c.Pass? <==>
      caller.role == Admin && TicketTarget(qrToken, qrKey, now).Some? && TicketTarget(qrToken, qrKey, now).value < |regs| &&
      regs[TicketTarget(qrToken, qrKey, now).value].status == EventRegistrationModel.Paid
    ensures c.Pass? ==> c == Pass(TicketTarget(qrToken, qrKey, now).value)
  {
    if caller.role != Admin then Reject(403, "Admin access only")
    else if qrToken.None? then Reject(400, "QR token missing")
    else if Verify(qrToken.value, qrKey, now).None? then Reject(400, "Invalid or expired QR")
    else
      var k := TicketTarget(qrToken, qrKey, now);
      if k.None? || k.value >= |regs| then Reject(404, "Invalid ticket")
      else if regs[k.value].status == CheckedIn then Reject(400, "Ticket already used")
      else if regs[k.value].status != EventRegistrationModel.Paid then Reject(400, "Payment not completed")
      else Pass(k.value)
  }

  /** The registration after admission: checked in, stamped with the time; payment and ticket kept. */
  function CheckIn(r: Registration, now: Time): (s: Registration)
    ensures s.status == CheckedIn && s.checkedInAt == Some(now)
    ensures s.user == r.user && s.event == r.event && s.payment == r.payment && s.qrToken == r.qrToken
    ensures s.createdAt == r.createdAt
  {
    r.(status := CheckedIn, checkedInAt := Some(now))
  }

  /**
   * The scan: the guards, then the check-in is saved, then the confirmation is sent. A
   * registration whose user or event no longer resolves cannot be saved (the populated
   * path is null and required), so the handler answers 500 with nothing written; a
   * failed email answers 500 after the check-in was saved.
   */
  method Scan(db: Db, caller: Caller, qrToken: Option<Jwt>, qrKey: string, now: Time, deliveryOk: bool)
    returns (reply: Reply<Admission>)
    requires db.Valid()
    modifies db
    ensures db.Valid()
    ensures db.users == old(db.users) && db.otps == old(db.otps) && db.events == old(db.events)
    ensures db.nextEventId == old(db.nextEventId) && db.payments == old(db.payments)
    ensures var c := ScanCheck(old(db.registrations), caller, qrToken, qrKey, now);
      c.Reject? ==> reply == Fail(c.status, c.message) && db.registrations == old(db.registrations)
    ensures var c := ScanCheck(old(db.registrations), caller, qrToken, qrKey, now);
      c.Pass? ==>
        var r := old(db.registrations)[c.value];
        if !RefsResolve(db.users, db.events, r.user, r.event) then
          db.registrations == old(db.registrations) && reply == Fail(500, "Scan failed")
        else
          var e := EventIndex(db.events, r.event).value;
          && db.registrations == old(db.registrations)[c.value := CheckIn(r, now)]
          && reply == if !deliveryOk then Fail(500, "Scan failed")
                      else Ok(200, Admission(db.users[r.user].name, db.users[r.user].phone, db.events[e].title))
  {
    var c := ScanCheck(db.registrations, caller, qrToken, qrKey, now);
    if c.Reject? {
      return Fail(c.status, c.message);
    }
    var k := c.value;
    var r := db.registrations[k];
    // `registration.save()` validates the populated `user` and `event` paths.
    if !RefsResolve(db.users, db.events, r.user, r.event) {
      return Fail(500, "Scan failed");
    }
    ghost var before := db.registrations;
    db.registrations := db.registrations[k := CheckIn(r, now)];
    assert forall i :: 0 <= i < |db.registrations| && i != k ==> db.registrations[i] == before[i];
    assert RegistrationValid(db.payments, before, k);
    forall i | 0 <= i < |db.registrations|
      ensures RegistrationValid(db.payments, db.registrations, i)
    {
      assert RegistrationValid(db.payments, before, i);
    }
    var e := EventIndex(db.events, r.event).value;
    if !deliveryOk {
      return Fail(500, "Scan failed");
    }
    reply := Ok(200, Admission(db.users[r.user].name, db.users[r.user].phone, db.events[e].title));
  }

  /** A ticket admits once: after a successful scan, the same ticket, still valid, is refused as used. */
  lemma NoSecondEntry(regs: seq<Registration>, caller: Caller, qrToken: Option<Jwt>, qrKey: string, now: Time, later: Time)
    requires ScanCheck(regs, caller, qrToken, qrKey, now).Pass?
    requires Verify(qrToken.value, qrKey, later).Some?
    ensures var k := ScanCheck(regs, caller, qrToken, qrKey, now).value;
      ScanCheck(regs[k := CheckIn(regs[k], now)], caller, qrToken, qrKey, later) == Reject(400, "Ticket already used")
  {
  }
}
