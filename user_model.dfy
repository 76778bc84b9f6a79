/**
 * The `User` schema: identity, role, the login gate `isVerified`, and the organiser
 * verification record. Setters normalise email (lower case, trimmed) and roll number
 * (upper case, trimmed); validation runs on save, before the password-hashing hook.
 */
module UserModel {
  import opened Common
  import opened Strings

  /** `enum: ["student", "admin", "superadmin"]`. */
  datatype Role = Student | Admin | SuperAdmin

  const PENDING: string := "pending"
  const APPROVED: string := "approved"
  const REJECTED: string := "rejected"

  /**
   * `adminVerification.status` is a string path with `enum: ["pending", "approved",
   * "rejected"]`: a handler can assign any string, and the save then fails unless it
   * is one of these three.
   */
  predicate VerificationStatusAdmitted(s: string)
  {
    s == PENDING || s == APPROVED || s == REJECTED
  }

  /** The status the revoke route writes is not one of them. */
  lemma RevokedIsNotAdmitted()
    ensures !VerificationStatusAdmitted("revoked")
  {
  }

  /** `rejectionReason` is written by the reject route although the schema declares no such path. */
  datatype AdminVerification = AdminVerification(
    proofDocument: Option<string>,
    clubName: Option<string>,
    status: string,
    submittedAt: Option<Time>,
    verifiedAt: Option<Time>,
    verifiedBy: Option<Id>,
    rejectionReason: Option<string>)

  datatype User = User(
    name: string,
    email: string,
    rollNo: string,
    phone: Option<string>,
    password: string,
    role: Role,
    isVerified: bool,
    adminVerification: AdminVerification,
    createdAt: Time)

  /** The `lowercase` and `trim` setters on `email`. */
  function NormalizeEmail(email: string): string
  {
    Trim(ToLower(email))
  }

  /** The `uppercase` and `trim` setters on `rollNo`. */
  function NormalizeRollNo(rollNo: string): string
  {
    Trim(ToUpper(rollNo))
  }

  /** Normalising an email that was already normalised changes nothing, so the handler's own normalisation and the setter agree. */
  lemma NormalizeEmailIdempotent(email: string)
    ensures NormalizeEmail(NormalizeEmail(email)) == NormalizeEmail(email)
  {
    NormalizedIsFixedPoint(email);
  }

  /** The defaults of the `adminVerification` sub-record: status `pending`, nothing else set. */
  function DefaultVerification(): (v: AdminVerification)
    ensures v.status == PENDING && VerificationStatusAdmitted(v.status)
    ensures v.verifiedAt == None && v.verifiedBy == None
  {
    AdminVerification(None, None, PENDING, None, None, None, None)
  }

  /** A document built from the given fields: setters applied, role `student`, not verified. */
  function NewUser(name: string, email: string, rollNo: string, phone: Option<string>, password: string, now: Time): (u: User)
    ensures u.email == NormalizeEmail(email) && u.rollNo == NormalizeRollNo(rollNo)
    ensures u.name == Trim(name) && u.password == password && u.createdAt == now
    ensures u.phone == if phone.Some? then Some(Trim(phone.value)) else None
    ensures u.role == Student && !u.isVerified
    ensures u.adminVerification == DefaultVerification()
  {
    var ph := if phone.Some? then Some(Trim(phone.value)) else None;
    User(Trim(name), NormalizeEmail(email), NormalizeRollNo(rollNo), ph, password, Student, false, DefaultVerification(), now)
  }

  /**
   * The validators that run when a document is saved: the required strings are
   * non-empty, the verification status is in its enum, and a password that was set or
   * changed has at least 6 characters (an unchanged one is not validated again).
   */
  predicate Admitted(u: User, passwordModified: bool)
  {
    u.name != "" && u.email != "" && u.rollNo != "" &&
    (passwordModified ==> |u.password| >= 6) &&
    VerificationStatusAdmitted(u.adminVerification.status)
  }

  /** `req.user` as the authentication middleware attaches it to a request. */
  datatype Caller = Caller(id: Id, role: Role, isVerified: bool)

  /** A user document in memory, with the one piece of change tracking the save hook consults. */
  class UserDocument {
    var fields: User
    var passwordModified: bool

    /** A new document: every path counts as modified. */
    constructor Create(u: User)
      ensures fields == u && passwordModified
    {
      fields := u;
      passwordModified := true;
    }

    /** A document read from the store: nothing modified yet. */
    constructor Load(u: User)
      ensures fields == u && !passwordModified
    {
      fields := u;
      passwordModified := false;
    }

    /** The `pre("save")` hook: the password is replaced by its hash only when it was modified. */
    method PreSave(hash: string -> string)
      modifies this
      ensures passwordModified == old(passwordModified)
      ensures fields == if old(passwordModified) then old(fields).(password := hash(old(fields).password)) else old(fields)
    {
      if passwordModified {
        fields := fields.(password := hash(fields.password));
      }
    }

    /** `save()`: validation first; only a document that passes it reaches the hook and is written. */
    method Save(hash: string -> string) returns (ok: bool)
      modifies this
      ensures ok == Admitted(old(fields), old(passwordModified))
      ensures fields == if ok && old(passwordModified) then old(fields).(password := hash(old(fields).password)) else old(fields)
    {
      ok := Admitted(fields, passwordModified);
      if ok {
        PreSave(hash);
      }
    }
  }
}
