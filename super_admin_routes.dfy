/**
 * The `/superadmin` routes, all behind `superAdminOnly`: the dashboard, the two admin
 * listings, an event's registrations, and the approve, reject and revoke transitions
 * of an organiser account. Mail delivery is reduced to `deliveryOk`.
 */
module SuperAdminRoutes {
  import opened Common
  import opened Seqs
  import opened UserModel
  import opened EventModel
  import opened PaymentModel
  import opened EventRegistrationModel
  import opened Database
  import opened Middleware

  /** The guard every route of this file starts with, followed by the lookup of `:id` as an organiser. */
  function AdminTargetCheck(users: seq<User>, caller: Option<Caller>, id: Id): (c: Check<Id>)
    ensures SuperAdminOnly(caller).Deny? ==> c == Reject(403, "SuperAdmin access only")
    ensures SuperAdminOnly(caller).Next? && (id >= |users| || users[id].role != Admin) ==> c == Reject(404, "Admin not found")
    ensures c.Pass? <==> caller.Some? && caller.value.role == SuperAdmin && id < |users| && users[id].role == Admin
    ensures c.Pass? ==> c.value == id
  {
    var d := SuperAdminOnly(caller);
    if d.Deny? then Reject(d.status, d.message)
    else if id >= |users| || users[id].role != Admin then Reject(404, "Admin not found")
    else Pass(id)
  }

  /** The record after approval: approved now by the caller, verified; the role is not touched. */
  function Approved(u: User, approver: Id, now: Time): (v: User)
    ensures v.adminVerification.status == APPROVED && v.isVerified
    ensures v.adminVerification.verifiedAt == Some(now) && v.adminVerification.verifiedBy == Some(approver)
    ensures v.role == u.role && v.email == u.email && v.rollNo == u.rollNo && v.password == u.password
    ensures v.adminVerification.proofDocument == u.adminVerification.proofDocument
    ensures v.adminVerification.clubName == u.adminVerification.clubName
  {
    u.(isVerified := true,
       adminVerification := u.adminVerification.(status := APPROVED, verifiedAt := Some(now), verifiedBy := Some(approver)))
  }

  /** `req.body.reason || "Verification failed"`. */
  function ReasonOrDefault(reason: Option<string>): (r: string)
    ensures r != ""
    ensures reason.Some? && reason.value != "" ==> r == reason.value
  {
    if reason.Some? && reason.value != "" then reason.value else "Verification failed"
  }

  /** The record after rejection: rejected with a reason, unverified, approval stamps cleared; the role is not touched. */
  function Rejected(u: User, reason: Option<string>): (v: User)
    ensures v.adminVerification.status == REJECTED && !v.isVerified
    ensures v.adminVerification.rejectionReason == Some(ReasonOrDefault(reason))
    ensures v.adminVerification.verifiedAt == None && v.adminVerification.verifiedBy == None
    ensures v.role == u.role && v.email == u.email && v.rollNo == u.rollNo && v.password == u.password
  {
    u.(isVerified := false,
       adminVerification := u.adminVerification.(status := REJECTED, rejectionReason := Some(ReasonOrDefault(reason)),
                                                 verifiedAt := None, verifiedBy := None))
  }

  /** The record revoke tries to write: a student again, unverified, with the status "revoked". */
  function Revoked(u: User): (v: User)
    ensures v.role == Student && !v.isVerified && v.adminVerification.status == "revoked"
    ensures v.adminVerification.verifiedAt == None && v.adminVerification.verifiedBy == None
    ensures v.email == u.email && v.rollNo == u.rollNo && v.password == u.password
  {
    u.(role := Student, isVerified := false,
       adminVerification := u.adminVerification.(status := "revoked", verifiedAt := None, verifiedBy := None))
  }

  /** Whatever the account looked like, the record revoke writes never passes validation. */
  lemma RevokedNeverAdmitted(u: User)
    ensures !Admitted(Revoked(u), false)
  {
    RevokedIsNotAdmitted();
  }

  /** Approval is admitted by the validators for every account that was valid, whatever its previous status. */
  lemma ApprovedAdmitted(u: User, approver: Id, now: Time)
    requires Admitted(u, false)
    ensures Admitted(Approved(u, approver, now), false)
  {
  }

  /** Approve: the guards, the approved record saved, then the approval email. */
  method ApproveAdmin(db: Db, caller: Option<Caller>, id: Id, now: Time, hash: string -> string, deliveryOk: bool)
    returns (reply: Reply<string>)
    requires db.Valid()
    modifies db
    ensures db.Valid()
    ensures db.otps == old(db.otps) && db.events == old(db.events) && db.nextEventId == old(db.nextEventId)
    ensures db.payments == old(db.payments) && db.registrations == old(db.registrations)
    ensures var c := AdminTargetCheck(old(db.users), caller, id);
      c.Reject? ==> reply == Fail(c.status, c.message) && db.users == old(db.users)
    ensures var c := AdminTargetCheck(old(db.users), caller, id);
      c.Pass? ==>
        && db.users == old(db.users)[id := Approved(old(db.users)[id], caller.value.id, now)]
        && reply == if deliveryOk then Ok(200, "Admin approved successfully") else Fail(500, "Failed to approve admin")
  {
    var c := AdminTargetCheck(db.users, caller, id);
    if c.Reject? {
      return Fail(c.status, c.message);
    }
    ApprovedAdmitted(db.users[id], caller.value.id, now);
    var saved := SaveUser(db, id, Approved(db.users[id], caller.value.id, now), hash);
    reply := if deliveryOk then Ok(200, "Admin approved successfully") else Fail(500, "Failed to approve admin");
  }

  /** Reject: the guards, the rejected record saved, then the rejection email. The organiser may apply again. */
  method RejectAdmin(db: Db, caller: Option<Caller>, id: Id, reason: Option<string>, hash: string -> string, deliveryOk: bool)
    returns (reply: Reply<string>)
    requires db.Valid()
    modifies db
    ensures db.Valid()
    ensures db.otps == old(db.otps) && db.events == old(db.events) && db.nextEventId == old(db.nextEventId)
    ensures db.payments == old(db.payments) && db.registrations == old(db.registrations)
    ensures var c := AdminTargetCheck(old(db.users), caller, id);
      c.Reject? ==> reply == Fail(c.status, c.message) && db.users == old(db.users)
    ensures var c := AdminTargetCheck(old(db.users), caller, id);
      c.Pass? ==>
        && db.users == old(db.users)[id := Rejected(old(db.users)[id], reason)]
        && reply == if deliveryOk then Ok(200, "Admin request rejected") else Fail(500, "Failed to reject admin")
  {
    var c := AdminTargetCheck(db.users, caller, id);
    if c.Reject? {
      return Fail(c.status, c.message);
    }
    var saved := SaveUser(db, id, Rejected(db.users[id], reason), hash);
    reply := if deliveryOk then Ok(200, "Admin request rejected") else Fail(500, "Failed to reject admin");
  }

  /**
   * Revoke: the guards, then the save of the revoked record, which the status enum
   * rejects. The route therefore never succeeds on an existing organiser, and the
   * account stays an organiser exactly as it was.
   */
  method RevokeAdmin(db: Db, caller: Option<Caller>, id: Id, hash: string -> string)
    returns (reply: Reply<string>)
    requires db.Valid()
    modifies db
    ensures db.Valid()
    ensures db.users == old(db.users) && db.otps == old(db.otps) && db.events == old(db.events)
    ensures db.nextEventId == old(db.nextEventId) && db.payments == old(db.payments) && db.registrations == old(db.registrations)
    ensures var c := AdminTargetCheck(old(db.users), caller, id);
      c.Reject? ==> reply == Fail(c.status, c.message)
    ensures var c := AdminTargetCheck(old(db.users), caller, id);
      c.Pass? ==> reply == Fail(500, "Failed to revoke admin")
  {
    var c := AdminTargetCheck(db.users, caller, id);
    if c.Reject? {
      return Fail(c.status, c.message);
    }
    RevokedNeverAdmitted(db.users[id]);
    var saved := SaveUser(db, id, Revoked(db.users[id]), hash);
    if !saved {
      return Fail(500, "Failed to revoke admin");
    }
    reply := Ok(200, "Admin role revoked successfully");
  }

  predicate IsPendingAdmin(u: User)
  {
    u.role == Admin && u.adminVerification.status == PENDING
  }

  predicate IsVerifiedAdmin(u: User)
  {
    u.role == Admin && u.isVerified
  }

  /** `/pending-admins`: organisers whose verification is pending, in store order. */
  function PendingAdmins(users: seq<User>): (r: seq<User>)
    ensures |r| <= |users|
    ensures forall i :: 0 <= i < |r| ==> r[i].role == Admin && r[i].adminVerification.status == PENDING
  {
    Filter(users, IsPendingAdmin)
  }

  /** A user is listed as pending exactly when it is an organiser whose status is `pending`. */
  lemma PendingAdminsExactly(users: seq<User>, u: User)
    ensures u in PendingAdmins(users) <==> u in users && u.role == Admin && u.adminVerification.status == PENDING
  {
    FilterMember(users, IsPendingAdmin, u);
  }

  /** `/admins`: organisers whose account is verified, in store order. */
  function VerifiedAdmins(users: seq<User>): (r: seq<User>)
    ensures |r| <= |users|
    ensures forall i :: 0 <= i < |r| ==> r[i].role == Admin && r[i].isVerified
  {
    Filter(users, IsVerifiedAdmin)
  }

  /** A user is listed as a verified organiser exactly when it is one. */
  lemma VerifiedAdminsExactly(users: seq<User>, u: User)
    ensures u in VerifiedAdmins(users) <==> u in users && u.role == Admin && u.isVerified
  {
    FilterMember(users, IsVerifiedAdmin, u);
  }

  /** `r.payment?.amount || 0`: the amount of the referenced payment, 0 when there is none. */
  function AmountOf(payments: seq<Payment>, r: Registration): int
  {
    if r.payment.Some? && r.payment.value < |payments| then payments[r.payment.value].amount else 0
  }

  /** The `reduce` of the dashboard: the amounts of the event's registrations, added up. */
  function Revenue(payments: seq<Payment>, regs: seq<Registration>, event: Id): int
  {
    SumBy(RegsOf(regs, event), (r: Registration) => AmountOf(payments, r))
  }

  /**
   * With a consistent ledger, the dashboard revenue of an event is the revenue of its
   * paid and checked-in registrations alone: a `registered` row holds no payment.
   */
  lemma {:induction false} RevenueCountsPaidRows(payments: seq<Payment>, regs: seq<Registration>, event: Id)
    requires LedgerValid(payments, regs)
    ensures Revenue(payments, regs, event) ==
      SumBy(Filter(RegsOf(regs, event), IsPaidOrCheckedIn), (r: Registration) => AmountOf(payments, r))
  {
    var rs := RegsOf(regs, event);
    var f := (r: Registration) => AmountOf(payments, r);
    forall k | 0 <= k < |rs| && !IsPaidOrCheckedIn(rs[k])
      ensures f(rs[k]) == 0
    {
      FilterMember(regs, (r: Registration) => r.event == event, rs[k]);
      var i :| 0 <= i < |regs| && regs[i] == rs[k];
      assert RegistrationValid(payments, regs, i);
    }
    SumByFilter(rs, f, IsPaidOrCheckedIn);
  }

  /** When every payment amount is non-negative, so is every revenue on the dashboard. */
  lemma RevenueNonNegative(payments: seq<Payment>, regs: seq<Registration>, event: Id)
    requires forall i :: 0 <= i < |payments| ==> payments[i].amount >= 0
    ensures Revenue(payments, regs, event) >= 0
  {
    SumByNonNegative(RegsOf(regs, event), (r: Registration) => AmountOf(payments, r));
  }

  datatype DashboardEvent = DashboardEvent(
    id: Id,
    title: string,
    date: Time,
    clubName: string,
    creatorName: Option<string>,
    creatorEmail: Option<string>,
    registrationCount: nat,
    revenue: int)

  datatype Dashboard = Dashboard(pendingAdminCount: nat, events: seq<DashboardEvent>)

  /** One event's line on the dashboard; the club is "—" when the creator or the club name is missing. */
  function Summary(users: seq<User>, payments: seq<Payment>, regs: seq<Registration>, e: Event): (s: DashboardEvent)
    ensures s.id == e.id && s.title == e.title && s.date == e.date
    ensures s.registrationCount == |RegsOf(regs, e.id)|
    ensures s.revenue == Revenue(payments, regs, e.id)
    ensures s.clubName != ""
  {
    var creator := if e.createdBy < |users| then Some(users[e.createdBy]) else None;
    var club := if creator.Some? && creator.value.adminVerification.clubName.Some? && creator.value.adminVerification.clubName.value != ""
                then creator.value.adminVerification.clubName.value else "—";
    DashboardEvent(e.id, e.title, e.date, club,
                   if creator.Some? then Some(creator.value.name) else None,
                   if creator.Some? then Some(creator.value.email) else None,
                   |RegsOf(regs, e.id)|, Revenue(payments, regs, e.id))
  }

  /**
   * `/dashboard`: the number of pending organisers, and every event ordered by date
   * ascending, each with the count of all its registrations and its revenue.
   */
  function GetDashboard(users: seq<User>, events: seq<Event>, payments: seq<Payment>, regs: seq<Registration>): (d: Dashboard)
    ensures d.pendingAdminCount == |PendingAdmins(users)| && d.pendingAdminCount <= |users|
    ensures |d.events| == |events|
    ensures forall i, j :: 0 <= i < j < |d.events| ==> d.events[i].date <= d.events[j].date
    ensures forall i :: 0 <= i < |d.events| ==>
      d.events[i].registrationCount == |RegsOf(regs, d.events[i].id)| && d.events[i].revenue == Revenue(payments, regs, d.events[i].id)
    ensures forall i :: 0 <= i < |d.events| ==> exists e :: e in events && d.events[i] == Summary(users, payments, regs, e)
    ensures multiset(Map(d.events, (s: DashboardEvent) => s.id)) == multiset(Map(events, (e: Event) => e.id))
  {
    var sorted := SortBy(events, (e: Event) => e.date);
    PermutationKeeps(events, sorted, (e: Event) => e in events);
    var lines := seq(|sorted|, i requires 0 <= i < |sorted| => Summary(users, payments, regs, sorted[i]));
    MapPermutation(sorted, events, (e: Event) => e.id);
    assert Map(lines, (s: DashboardEvent) => s.id) == Map(sorted, (e: Event) => e.id);
    Dashboard(|PendingAdmins(users)|, lines)
  }

  /** `/events/:eventId/registrations` for the super admin: every registration of the event, with its payment. */
  function EventRegistrations(caller: Option<Caller>, regs: seq<Registration>, event: Id): (r: Reply<seq<Registration>>)
    ensures r.Ok? <==> SuperAdminOnly(caller).Next?
    ensures r.Fail? ==> r == Fail(403, "SuperAdmin access only")
    ensures r.Ok? ==> r.value == RegsOf(regs, event)
  {
    if SuperAdminOnly(caller).Deny? then Fail(403, "SuperAdmin access only") else Ok(200, RegsOf(regs, event))
  }
}
