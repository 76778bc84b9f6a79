/**
 * The collections every route reads and writes, held as the fields of one object.
 * Users, payments and registrations are never deleted, so each is a sequence whose
 * index is the document id and whose order is the natural (insertion) order a
 * `findOne` scans. Events can be deleted, so they carry their id. The OTP collection
 * (its schema file is not part of this model) holds `{ email, otp, expiresAt }`.
 */
module Database {
  import opened Common
  import opened Strings
  import opened Seqs
  import opened Tokens
  import opened UserModel
  import opened EventModel
  import opened PaymentModel
  import opened EventRegistrationModel

  datatype Otp = Otp(email: string, code: string, expiresAt: Time)

  /** The unique indexes on `email` and `rollNo`, and every stored document valid. */
  ghost predicate UsersValid(users: seq<User>)
  {
    && (forall i, j :: 0 <= i < j < |users| ==> users[i].email != users[j].email && users[i].rollNo != users[j].rollNo)
    && (forall i :: 0 <= i < |users| ==> Admitted(users[i], false))
  }

  /** Every one-time code the register route issued is six digits long. */
  ghost predicate OtpsValid(otps: seq<Otp>)
  {
    forall i :: 0 <= i < |otps| ==> |otps[i].code| == 6
  }

  /** Event ids are distinct and below the next id to hand out. */
  ghost predicate EventsValid(events: seq<Event>, nextEventId: nat)
  {
    && (forall i :: 0 <= i < |events| ==> events[i].id < nextEventId)
    && (forall i, j :: 0 <= i < j < |events| ==> events[i].id != events[j].id)
  }

  /** A payment carries a gateway payment id exactly when it has been verified. */
  ghost predicate PaymentsValid(payments: seq<Payment>)
  {
    forall i :: 0 <= i < |payments| ==> (payments[i].razorpayPaymentId.Some? <==> payments[i].status == PaymentModel.Paid)
  }

  /**
   * The registration with id `i` is consistent with the ledger: it has a payment
   * reference exactly when it is past `registered`, and that payment is a verified one
   * for the same user and event; it has a check-in time exactly when it is checked in;
   * a stored ticket names this very registration.
   */
  ghost predicate RegistrationValid(payments: seq<Payment>, regs: seq<Registration>, i: int)
    requires 0 <= i < |regs|
  {
    var r := regs[i];
    && (r.payment.Some? <==> r.status != Registered)
    && (r.payment.Some? ==>
          && r.payment.value < |payments|
          && payments[r.payment.value].status == PaymentModel.Paid
          && payments[r.payment.value].user == r.user
          && payments[r.payment.value].event == r.event)
    && (r.checkedInAt.Some? <==> r.status == CheckedIn)
    && (r.qrToken.Some? ==> r.qrToken.value.claims == QrClaims(i))
  }

  /** No two registrations share a (user, event) pair. */
  ghost predicate OnePerPair(regs: seq<Registration>)
  {
    forall i, j :: 0 <= i < j < |regs| ==> regs[i].user != regs[j].user || regs[i].event != regs[j].event
  }

  /**
   * No stored registration is still `registered`: the one route that writes a
   * registration creates it `paid`, and the scan moves it on to `checked_in`.
   */
  ghost predicate NoUnpaidRows(regs: seq<Registration>)
  {
    forall i :: 0 <= i < |regs| ==> regs[i].status != Registered
  }

  ghost predicate LedgerValid(payments: seq<Payment>, regs: seq<Registration>)
  {
    && PaymentsValid(payments)
    && (forall i :: 0 <= i < |regs| ==> RegistrationValid(payments, regs, i))
    && OnePerPair(regs)
  }

  /** `findOne({ user, event })`: the first registration of the pair, whatever its status. */
  function RowOf(regs: seq<Registration>, user: Id, event: Id): Option<nat>
  {
    FirstIndex(regs, (r: Registration) => r.user == user && r.event == event)
  }

  /** `EventRegistration.find({ event })`: every registration of the event, in any status, in store order. */
  function RegsOf(regs: seq<Registration>, event: Id): (r: seq<Registration>)
    ensures |r| <= |regs|
    ensures forall i :: 0 <= i < |r| ==> r[i].event == event
  {
    Filter(regs, (r: Registration) => r.event == event)
  }

  /**
   * Both references of a payment or registration resolve. `populate` leaves a reference
   * that finds nothing as null, and the schemas declare `user` and `event` required, so
   * a later `save()` of that document fails validation.
   */
  predicate RefsResolve(users: seq<User>, events: seq<Event>, user: Id, event: Id)
  {
    user < |users| && EventIndex(events, event).Some?
  }

  /** The position of the event with id `id`, if it exists. */
  function EventIndex(events: seq<Event>, id: Id): Option<nat>
  {
    FirstIndex(events, (e: Event) => e.id == id)
  }

  /** `findOne({ $or: [{ email }, { rollNo }] })`, the query values passing through the schema setters. */
  function UserByEmailOrRoll(users: seq<User>, email: string, rollNo: string): Option<nat>
  {
    FirstIndex(users, (u: User) => u.email == NormalizeEmail(email) || u.rollNo == NormalizeRollNo(rollNo))
  }

  /** Inserting `u` does not clash with the unique indexes. */
  predicate Unique(users: seq<User>, u: User)
  {
    forall i :: 0 <= i < |users| ==> users[i].email != u.email && users[i].rollNo != u.rollNo
  }

  /** No user holds this email or this roll number, both taken as the setters store them. */
  predicate Free(users: seq<User>, email: string, rollNo: string)
  {
    forall i :: 0 <= i < |users| ==> users[i].email != NormalizeEmail(email) && users[i].rollNo != NormalizeRollNo(rollNo)
  }

  /** A document built from a free email and roll number by the setters clashes with no index. */
  lemma FreeIsUnique(users: seq<User>, email: string, rollNo: string, u: User)
    requires Free(users, email, rollNo)
    requires u.email == NormalizeEmail(email) && u.rollNo == NormalizeRollNo(rollNo)
    ensures Unique(users, u)
  {
  }

  /** Inserting a valid document that clashes with no index keeps the user store valid. */
  lemma UsersValidAppend(users: seq<User>, u: User)
    requires UsersValid(users) && Unique(users, u) && Admitted(u, false)
    ensures UsersValid(users + [u])
  {
    var us := users + [u];
    forall i, j | 0 <= i < j < |us|
      ensures us[i].email != us[j].email && us[i].rollNo != us[j].rollNo
    {
      assert us[i] == users[i];
    }
  }

  class Db {
    var users: seq<User>
    var otps: seq<Otp>
    var events: seq<Event>
    var nextEventId: nat
    var payments: seq<Payment>
    var registrations: seq<Registration>

    ghost predicate Valid()
      reads this
    {
      && UsersValid(users)
      && OtpsValid(otps)
      && EventsValid(events, nextEventId)
      && LedgerValid(payments, registrations)
      && NoUnpaidRows(registrations)
    }

    /** An empty database. */
    constructor ()
      ensures Valid()
      ensures users == [] && otps == [] && events == [] && payments == [] && registrations == []
    {
      users, otps, events, nextEventId, payments, registrations := [], [], [], 0, [], [];
    }
  }

  /**
   * `User.create(fields)`: a new document is validated, its password hashed by the save
   * hook, and it is inserted unless its email or roll number is already taken.
   */
  method CreateUser(db: Db, u: User, hash: string -> string) returns (ok: bool)
    requires db.Valid()
    modifies db
    ensures db.Valid()
    ensures ok == (Admitted(u, true) && Unique(old(db.users), u))
    ensures db.users == if ok then old(db.users) + [u.(password := hash(u.password))] else old(db.users)
    ensures db.otps == old(db.otps) && db.events == old(db.events) && db.nextEventId == old(db.nextEventId)
    ensures db.payments == old(db.payments) && db.registrations == old(db.registrations)
  {
    var doc := new UserDocument.Create(u);
    var valid := doc.Save(hash);
    // The unique indexes compare email and roll number, which hashing leaves as they are.
    if !valid || !Unique(db.users, u) {
      return false;
    }
    assert doc.fields == u.(password := hash(u.password));
    UsersValidAppend(db.users, doc.fields);
    db.users := db.users + [doc.fields];
    ok := true;
  }

  /**
   * `doc.save()` on a user read from the store and changed in memory, the password and
   * the indexed paths left alone: validation decides whether the change is written.
   */
  method SaveUser(db: Db, id: Id, u: User, hash: string -> string) returns (ok: bool)
    requires db.Valid()
    requires id < |db.users|
    requires u.email == db.users[id].email && u.rollNo == db.users[id].rollNo && u.password == db.users[id].password
    modifies db
    ensures db.Valid()
    ensures ok == Admitted(u, false)
    ensures db.users == if ok then old(db.users)[id := u] else old(db.users)
    ensures db.otps == old(db.otps) && db.events == old(db.events) && db.nextEventId == old(db.nextEventId)
    ensures db.payments == old(db.payments) && db.registrations == old(db.registrations)
  {
    var doc := new UserDocument.Load(db.users[id]);
    doc.fields := u;
    var valid := doc.Save(hash);
    if !valid {
      return false;
    }
    ghost var before := db.users;
    db.users := db.users[id := doc.fields];
    assert forall i :: 0 <= i < |db.users| ==> db.users[i].email == before[i].email && db.users[i].rollNo == before[i].rollNo;
    ok := true;
  }
}
