/** The `EventRegistration` schema: a user's relation to an event, with its lifecycle status. */
module EventRegistrationModel {
  import opened Common
  import opened Tokens

  /** `enum: ["registered", "paid", "checked_in"]`: no other status can be stored. */
  datatype RegStatus = Registered | Paid | CheckedIn

  function RegStatusName(s: RegStatus): string
  {
    match s
    case Registered => "registered"
    case Paid => "paid"
    case CheckedIn => "checked_in"
  }

  /** Mongoose's enum check on the status path: the stored string back to the status, or nothing. */
  function ParseRegStatus(s: string): Option<RegStatus>
  {
    if s == "registered" then Some(Registered)
    else if s == "paid" then Some(Paid)
    else if s == "checked_in" then Some(CheckedIn)
    else None
  }

  /** Every status is stored under its own name and read back as itself. */
  lemma RegStatusRoundTrip(s: RegStatus)
    ensures ParseRegStatus(RegStatusName(s)) == Some(s)
  {
  }

  /**
   * A stored registration. `user` and `event` are required references; `payment`,
   * `qrToken` and `checkedInAt` are nullable. `createdAt` comes from `timestamps: true`.
   * No unique index covers (user, event).
   */
  datatype Registration = Registration(
    user: Id,
    event: Id,
    payment: Option<Id>,
    status: RegStatus,
    qrToken: Option<Jwt>,
    checkedInAt: Option<Time>,
    createdAt: Time)

  /** A document built from only its required fields: every default applied. */
  function NewRegistration(user: Id, event: Id, now: Time): (r: Registration)
    ensures r.user == user && r.event == event && r.createdAt == now
    ensures r.status == Registered
    ensures r.payment == None && r.qrToken == None && r.checkedInAt == None
  {
    Registration(user, event, None, Registered, None, None, now)
  }

  /** A row that counts as a purchase: `status: { $in: ["paid", "checked_in"] }`. */
  predicate IsPaidOrCheckedIn(r: Registration)
  {
    r.status == Paid || r.status == CheckedIn
  }
}
