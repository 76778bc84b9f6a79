/**
 * `POST /auth/register`, `/auth/verify-otp`, `/auth/login` and `/auth/admin/signup`.
 *
 * Students register in two steps: a six-digit code is stored and mailed, and a second
 * request carrying the code creates the account, already verified. Organisers sign up
 * in one step with a proof document and wait, unverified, for a super admin.
 *
 * `Math.random()` is the parameter `draw`, the integer `floor(random * 900000)`;
 * bcrypt is the pair of parameters `hash` and `compare`; mail delivery is `deliveryOk`.
 * A body field that is absent, or empty, is the empty string.
 */
module AuthRoutes {
  import opened Common
  import opened Strings
  import opened Seqs
  import opened Tokens
  import opened UserModel
  import opened Database

  /** The only mail domain a student may register with. */
  const COLLEGE_DOMAIN: string := "@grietcollege.com"

  /** Five minutes, in milliseconds. */
  const OTP_TTL: int := 5 * 60 * 1000

  /** `Math.floor(100000 + Math.random() * 900000).toString()`: always six digits, spelling `100000 + draw`. */
  function OtpCode(draw: nat): (code: string)
    requires draw < 900000
    ensures |code| == 6
    ensures forall i :: 0 <= i < |code| ==> IsDigit(code[i])
    ensures ParseNat(code) == 100000 + draw
  {
    assert Pow10(5) == 100000 by {
      assert Pow10(0) == 1 && Pow10(1) == 10 && Pow10(2) == 100 && Pow10(3) == 1000 && Pow10(4) == 10000;
    }
    assert Pow10(6) == 1000000;
    DigitCount(100000 + draw, 6);
    ParsePrinted(100000 + draw);
    NatToString(100000 + draw)
  }

  /**
   * The guards of register, in the handler's order: the four required fields, the
   * college domain on the lower-cased trimmed email, and no user with that email or
   * that roll number. On success, the normalised email.
   */
  function RegisterCheck(users: seq<User>, name: string, email: string, rollNo: string, password: string): (c: Check<string>)
    ensures (name == "" || email == "" || rollNo == "" || password == "") ==> c == Reject(400, "Missing required fields")
    ensures (name != "" && email != "" && rollNo != "" && password != "" && !EndsWith(NormalizeEmail(email), COLLEGE_DOMAIN)) ==>
      c == Reject(400, "Only @grietcollege.com email addresses are allowed")
    ensures (name != "" && email != "" && rollNo != "" && password != "" && EndsWith(NormalizeEmail(email), COLLEGE_DOMAIN) &&
             !Free(users, email, rollNo)) ==>
      c == Reject(400, "User already exists")
    ensures c.Pass? <==>
      name != "" && email != "" && rollNo != "" && password != "" && EndsWith(NormalizeEmail(email), COLLEGE_DOMAIN) &&
      Free(users, email, rollNo)
    ensures c.Pass? ==> c.value == NormalizeEmail(email) && EndsWith(c.value, COLLEGE_DOMAIN)
  {
    if name == "" || email == "" || rollNo == "" || password == "" then Reject(400, "Missing required fields")
    else
      var e := NormalizeEmail(email);
      if !EndsWith(e, COLLEGE_DOMAIN) then Reject(400, "Only @grietcollege.com email addresses are allowed")
      else
        RegisterQuery(users, email, rollNo);
        if UserByEmailOrRoll(users, e, rollNo).Some? then Reject(400, "User already exists")
        else Pass(e)
  }

  /**
   * The register query is sent an email the handler already normalised, and the setter
   * normalises it again, which changes nothing: it finds a user exactly when the email
   * or the roll number is taken.
   */
  lemma RegisterQuery(users: seq<User>, email: string, rollNo: string)
    ensures UserByEmailOrRoll(users, NormalizeEmail(email), rollNo).None? <==> Free(users, email, rollNo)
  {
    NormalizeEmailIdempotent(email);
    FirstIndexNone(users, (u: User) => u.email == NormalizeEmail(NormalizeEmail(email)) || u.rollNo == NormalizeRollNo(rollNo));
  }

  /** `findOne` finds nothing exactly when no document matches. */
  lemma FirstIndexNone<T>(xs: seq<T>, p: T -> bool)
    ensures FirstIndex(xs, p).None? <==> forall i :: 0 <= i < |xs| ==> !p(xs[i])
  {
  }

  /** Register: the guards, then one new code for the email, then the mail. The code stays stored if the mail fails. */
  method Register(db: Db, name: string, email: string, rollNo: string, password: string, now: Time, draw: nat, deliveryOk: bool)
    returns (reply: Reply<Done>)
    requires db.Valid()
    requires draw < 900000
    modifies db
    ensures db.Valid()
    ensures db.users == old(db.users) && db.events == old(db.events) && db.nextEventId == old(db.nextEventId)
    ensures db.payments == old(db.payments) && db.registrations == old(db.registrations)
    ensures var c := RegisterCheck(old(db.users), name, email, rollNo, password);
      c.Reject? ==> reply == Fail(c.status, c.message) && db.otps == old(db.otps)
    ensures var c := RegisterCheck(old(db.users), name, email, rollNo, password);
      c.Pass? ==>
        && db.otps == old(db.otps) + [Otp(c.value, OtpCode(draw), now + OTP_TTL)]
        && reply == if deliveryOk then Ok(200, Done) else Fail(500, "Server error")
  {
    var c := RegisterCheck(db.users, name, email, rollNo, password);
    if c.Reject? {
      return Fail(c.status, c.message);
    }
    db.otps := db.otps + [Otp(c.value, OtpCode(draw), now + OTP_TTL)];
    reply := if deliveryOk then Ok(200, Done) else Fail(500, "Server error");
  }

  /** `Otp.deleteMany({ email })`: every code of the email goes, every other code stays, in order. */
  function OtpsWithout(otps: seq<Otp>, email: string): (r: seq<Otp>)
    ensures |r| <= |otps|
    ensures forall i :: 0 <= i < |r| ==> r[i].email != email
  {
    Filter(otps, (o: Otp) => o.email != email)
  }

  lemma OtpsWithoutMember(otps: seq<Otp>, email: string, o: Otp)
    ensures o in OtpsWithout(otps, email) <==> o in otps && o.email != email
  {
    FilterMember(otps, (o: Otp) => o.email != email, o);
  }

  /** Deleting codes keeps every remaining code six digits long. */
  lemma OtpsWithoutValid(otps: seq<Otp>, email: string)
    requires OtpsValid(otps)
    ensures OtpsValid(OtpsWithout(otps, email))
  {
    var r := OtpsWithout(otps, email);
    forall i | 0 <= i < |r|
      ensures |r[i].code| == 6
    {
      OtpsWithoutMember(otps, email, r[i]);
    }
  }

  /** `Otp.findOne({ email, otp })`: the first stored code for the email equal to the one sent. */
  function OtpRecord(otps: seq<Otp>, email: string, code: string): Option<nat>
  {
    FirstIndex(otps, (o: Otp) => o.email == email && o.code == code)
  }

  /**
   * The guards of verify-otp, in the handler's order. An absent email makes
   * `toLowerCase` throw, which the handler answers with 500. Then a stored code for the
   * normalised email equal to the one sent, and not expired: a code is still accepted
   * at the very millisecond it expires. On success, the normalised email.
   */
  function OtpCheck(otps: seq<Otp>, email: Option<string>, code: string, now: Time): (c: Check<string>)
    ensures email.None? ==> c == Reject(500, "Server error")
    ensures email.Some? && OtpRecord(otps, NormalizeEmail(email.value), code).None? ==> c == Reject(400, "Invalid OTP")
    ensures (email.Some? && OtpRecord(otps, NormalizeEmail(email.value), code).Some? &&
             otps[OtpRecord(otps, NormalizeEmail(email.value), code).value].expiresAt < now) ==>
      c == Reject(400, "OTP expired")
    ensures c.Pass? <==>
      && email.Some?
      && OtpRecord(otps, NormalizeEmail(email.value), code).Some?
      && now <= otps[OtpRecord(otps, NormalizeEmail(email.value), code).value].expiresAt
    ensures c.Pass? ==>
      var k := OtpRecord(otps, NormalizeEmail(email.value), code).value;
      c.value == NormalizeEmail(email.value) && otps[k].email == c.value && otps[k].code == code
  {
    if email.None? then Reject(500, "Server error")
    else
      var e := NormalizeEmail(email.value);
      var k := OtpRecord(otps, e, code);
      if k.None? then Reject(400, "Invalid OTP")
      else if otps[k.value].expiresAt < now then Reject(400, "OTP expired")
      else Pass(e)
  }

  /** The account verify-otp creates: the student's own fields, role `student`, already verified. */
  function NewStudent(name: string, email: string, rollNo: string, phone: Option<string>, password: string, now: Time): (u: User)
    ensures u.role == Student && u.isVerified
    ensures u.email == NormalizeEmail(email) && u.rollNo == NormalizeRollNo(rollNo) && u.password == password
    ensures u.adminVerification.status == PENDING
  {
    NewUser(name, email, rollNo, phone, password, now).(isVerified := true)
  }

  /**
   * Verify-otp: the guards; then the account is created, which fails (500) when a
   * validator rejects it or its email or roll number is taken; then every code of the
   * email is deleted. No roll-number check precedes the insert beyond the unique index.
   */
  method VerifyOtp(db: Db, name: string, email: Option<string>, rollNo: string, phone: Option<string>, password: string,
                   code: string, now: Time, hash: string -> string)
    returns (reply: Reply<Done>)
    requires db.Valid()
    modifies db
    ensures db.Valid()
    ensures db.events == old(db.events) && db.nextEventId == old(db.nextEventId)
    ensures db.payments == old(db.payments) && db.registrations == old(db.registrations)
    ensures var c := OtpCheck(old(db.otps), email, code, now);
      c.Reject? ==> reply == Fail(c.status, c.message) && db.otps == old(db.otps) && db.users == old(db.users)
    ensures var c := OtpCheck(old(db.otps), email, code, now);
      c.Pass? ==>
        var u := NewStudent(name, c.value, rollNo, phone, password, now);
        if Admitted(u, true) && Unique(old(db.users), u) then
          && db.users == old(db.users) + [u.(password := hash(u.password))]
          && db.otps == OtpsWithout(old(db.otps), c.value)
          && reply == Ok(201, Done)
        else
          db.users == old(db.users) && db.otps == old(db.otps) && reply == Fail(500, "Server error")
  {
    var c := OtpCheck(db.otps, email, code, now);
    if c.Reject? {
      return Fail(c.status, c.message);
    }
    var u := NewStudent(name, c.value, rollNo, phone, password, now);
    var created := CreateUser(db, u, hash);
    if !created {
      return Fail(500, "Server error");
    }
    DeleteOtps(db, c.value);
    reply := Ok(201, Done);
  }

  /** `Otp.deleteMany({ email })`: every code of the email goes, nothing else changes. */
  method DeleteOtps(db: Db, email: string)
    requires db.Valid()
    modifies db
    ensures db.Valid()
    ensures db.otps == OtpsWithout(old(db.otps), email)
    ensures db.users == old(db.users) && db.events == old(db.events) && db.nextEventId == old(db.nextEventId)
    ensures db.payments == old(db.payments) && db.registrations == old(db.registrations)
  {
    OtpsWithoutValid(db.otps, email);
    db.otps := OtpsWithout(db.otps, email);
  }

  /** What login answers with: the session token and the public fields of the account. */
  datatype Session = Session(token: Jwt, id: Id, name: string, email: string, rollNo: string, role: Role, isVerified: bool)

  /** `User.findOne({ rollNo })`, the query value passing through the roll-number setter. */
  function UserByRoll(users: seq<User>, rollNo: string): Option<nat>
  {
    FirstIndex(users, (u: User) => u.rollNo == NormalizeRollNo(rollNo))
  }

  /**
   * Login by roll number, in the handler's order: both fields, a known roll number, a
   * verified account (an organiser awaiting approval is told so), and a matching
   * password. The session token names the user and the role and lasts seven days.
   */
  function Login(users: seq<User>, rollNo: string, password: string, compare: (string, string) -> bool, key: string, now: Time)
    : (r: Reply<Session>)
    ensures (rollNo == "" || password == "") ==> r == Fail(400, "Roll number and password required")
    ensures rollNo != "" && password != "" && UserByRoll(users, rollNo).None? ==> r == Fail(401, "Invalid credentials")
    ensures (rollNo != "" && password != "" && UserByRoll(users, rollNo).Some? && !users[UserByRoll(users, rollNo).value].isVerified) ==>
      r == Fail(403, if users[UserByRoll(users, rollNo).value].role == Admin then "Admin account pending verification" else "User not verified")
    ensures (rollNo != "" && password != "" && UserByRoll(users, rollNo).Some? && users[UserByRoll(users, rollNo).value].isVerified &&
             !compare(password, users[UserByRoll(users, rollNo).value].password)) ==>
      r == Fail(401, "Invalid credentials")
    ensures r.Ok? <==>
      rollNo != "" && password != "" && UserByRoll(users, rollNo).Some? && users[UserByRoll(users, rollNo).value].isVerified &&
      compare(password, users[UserByRoll(users, rollNo).value].password)
    ensures r.Ok? ==>
      var i := UserByRoll(users, rollNo).value;
      && r.status == 200 && r.value.id == i && users[i].rollNo == NormalizeRollNo(rollNo)
      && r.value.role == users[i].role && r.value.isVerified
      && Verify(r.value.token, key, now) == Some(SessionClaims(i, users[i].role))
      && r.value.token.exp == Seconds(now) + SESSION_TTL
  {
    if rollNo == "" || password == "" then Fail(400, "Roll number and password required")
    else
      var k := UserByRoll(users, rollNo);
      if k.None? then Fail(401, "Invalid credentials")
      else
        var u := users[k.value];
        if !u.isVerified then Fail(403, if u.role == Admin then "Admin account pending verification" else "User not verified")
        else if !compare(password, u.password) then Fail(401, "Invalid credentials")
        else Ok(200, Session(Sign(SessionClaims(k.value, u.role), key, SESSION_TTL, now), k.value, u.name, u.email, u.rollNo, u.role, u.isVerified))
  }

  /**
   * The guards of admin signup: the four fields and an uploaded document, then no user
   * with that email or roll number. No college-domain check applies here.
   */
  function AdminSignupCheck(users: seq<User>, name: string, email: string, rollNo: string, password: string, proof: Option<string>)
    : (c: Check<Done>)
    ensures (name == "" || email == "" || rollNo == "" || password == "" || proof.None?) ==>
      c == Reject(400, "All required fields and verification document must be provided")
    ensures c.Pass? <==>
      name != "" && email != "" && rollNo != "" && password != "" && proof.Some? &&
      Free(users, email, rollNo)
    ensures c.Reject? ==> c.status == 400
  {
    if name == "" || email == "" || rollNo == "" || password == "" || proof.None? then
      Reject(400, "All required fields and verification document must be provided")
    else
      FirstIndexNone(users, (u: User) => u.email == NormalizeEmail(email) || u.rollNo == NormalizeRollNo(rollNo));
      if UserByEmailOrRoll(users, email, rollNo).Some? then Reject(400, "User already exists")
      else Pass(Done)
  }

  /** The account admin signup creates: role `admin`, not verified, status `pending`, with the document and the club. */
  function NewApplicant(name: string, email: string, rollNo: string, phone: Option<string>, password: string,
                        clubName: Option<string>, proof: string, now: Time): (u: User)
    ensures u.role == Admin && !u.isVerified
    ensures u.email == NormalizeEmail(email) && u.rollNo == NormalizeRollNo(rollNo)
    ensures u.adminVerification.status == PENDING && u.adminVerification.proofDocument == Some(proof)
    ensures u.adminVerification.submittedAt == Some(now) && u.adminVerification.verifiedBy == None
  {
    var club := if clubName.Some? then Some(Trim(clubName.value)) else None;
    NewUser(name, email, rollNo, phone, password, now).(
      role := Admin,
      adminVerification := DefaultVerification().(proofDocument := Some(proof), clubName := club, submittedAt := Some(now)))
  }

  /** Admin signup: the guards, then the account is created unless a validator rejects it. */
  method AdminSignup(db: Db, name: string, email: string, rollNo: string, phone: Option<string>, password: string,
                     clubName: Option<string>, proof: Option<string>, now: Time, hash: string -> string)
    returns (reply: Reply<Done>)
    requires db.Valid()
    modifies db
    ensures db.Valid()
    ensures db.otps == old(db.otps) && db.events == old(db.events) && db.nextEventId == old(db.nextEventId)
    ensures db.payments == old(db.payments) && db.registrations == old(db.registrations)
    ensures var c := AdminSignupCheck(old(db.users), name, email, rollNo, password, proof);
      c.Reject? ==> reply == Fail(c.status, c.message) && db.users == old(db.users)
    ensures var c := AdminSignupCheck(old(db.users), name, email, rollNo, password, proof);
      c.Pass? ==>
        var u := NewApplicant(name, email, rollNo, phone, password, clubName, proof.value, now);
        if Admitted(u, true) then
          db.users == old(db.users) + [u.(password := hash(u.password))] && reply == Ok(201, Done)
        else
          db.users == old(db.users) && reply == Fail(500, "Admin signup failed")
  {
    var c := AdminSignupCheck(db.users, name, email, rollNo, password, proof);
    if c.Reject? {
      return Fail(c.status, c.message);
    }
    var u := NewApplicant(name, email, rollNo, phone, password, clubName, proof.value, now);
    FreeIsUnique(db.users, email, rollNo, u);
    var created := CreateUser(db, u, hash);
    if !created {
      return Fail(500, "Admin signup failed");
    }
    reply := Ok(201, Done);
  }
}
