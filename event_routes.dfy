/**
 * The `/events` routes that do not go through the controller: creation with images,
 * the public list, an event's registrations for organisers, and deletion by the owner.
 * Only the role is checked: these routes do not use `adminVerified`.
 */
module EventRoutes {
  import opened Common
  import opened Seqs
  import opened UserModel
  import opened EventModel
  import opened EventRegistrationModel
  import opened Database
  import opened EventController

  /** The body of a create request; `date` and `registrationDeadline` may be absent, `images` are the uploaded paths. */
  datatype CreateRequest = CreateRequest(
    title: string,
    description: string,
    venue: string,
    date: Option<Time>,
    registrationDeadline: Option<Time>,
    price: Option<int>,
    images: seq<string>)

  /** The guards of create, in the handler's order: an organiser, the five required fields, at least one image. */
  function CreateCheck(caller: Option<Caller>, req: CreateRequest): (c: Check<Done>)
    ensures !IsAdminCaller(caller) ==> c == Reject(403, "Admins only")
    ensures IsAdminCaller(caller) && (req.title == "" || req.description == "" || req.venue == "" ||
                                      req.date.None? || req.registrationDeadline.None?) ==>
      c == Reject(400, "Missing required fields")
    ensures c.Pass? <==>
      IsAdminCaller(caller) && req.title != "" && req.description != "" && req.venue != "" &&
      req.date.Some? && req.registrationDeadline.Some? && |req.images| > 0
    ensures IsAdminCaller(caller) && req.title != "" && req.description != "" && req.venue != "" &&
            req.date.Some? && req.registrationDeadline.Some? && |req.images| == 0 ==>
      c == Reject(400, "Upload at least one image")
  {
    if !IsAdminCaller(caller) then Reject(403, "Admins only")
    else if req.title == "" || req.description == "" || req.venue == "" || req.date.None? || req.registrationDeadline.None? then
      Reject(400, "Missing required fields")
    else if |req.images| == 0 then Reject(400, "Upload at least one image")
    else Pass(Done)
  }

  /** `${req.protocol}://${req.get("host")}/${file.path}` for every uploaded file, with `base` the scheme and host. */
  function ImageUrls(base: string, paths: seq<string>): (r: seq<string>)
    ensures |r| == |paths|
    ensures forall i :: 0 <= i < |r| ==> r[i] == base + "/" + paths[i]
  {
    seq(|paths|, i requires 0 <= i < |paths| => base + "/" + paths[i])
  }

  /** `price || 0`: an absent price (and a zero one) is stored as 0. */
  function PriceOrZero(price: Option<int>): (p: int)
    ensures price.None? ==> p == 0
    ensures price.Some? ==> p == price.value
  {
    if price.Some? then price.value else 0
  }

  /** The event create stores: the request's fields, the caller as creator, status `active`. */
  function NewEvent(id: Id, req: CreateRequest, base: string, creator: Id, now: Time): (e: Event)
    requires req.date.Some? && req.registrationDeadline.Some?
    ensures e.id == id && e.createdBy == creator && e.createdAt == now && e.status == "active"
    ensures e.title == req.title && e.description == req.description && e.venue == req.venue
    ensures e.date == req.date.value && e.registrationDeadline == req.registrationDeadline.value
    ensures e.price == PriceOrZero(req.price) && e.images == ImageUrls(base, req.images)
  {
    Event(id, req.title, req.description, req.date.value, req.venue, PriceOrZero(req.price),
          req.registrationDeadline.value, ImageUrls(base, req.images), "active", creator, now)
  }

  /** An event that passed the create guards always passes the schema validators. */
  lemma NewEventAdmitted(id: Id, caller: Option<Caller>, req: CreateRequest, base: string, now: Time)
    requires CreateCheck(caller, req).Pass?
    ensures EventAdmitted(NewEvent(id, req, base, caller.value.id, now))
  {
  }

  /** Create: the guards, then one new event with a fresh id. */
  method CreateEvent(db: Db, caller: Option<Caller>, req: CreateRequest, base: string, now: Time) returns (reply: Reply<Event>)
    requires db.Valid()
    modifies db
    ensures db.Valid()
    ensures db.users == old(db.users) && db.otps == old(db.otps)
    ensures db.payments == old(db.payments) && db.registrations == old(db.registrations)
    ensures var c := CreateCheck(caller, req);
      c.Reject? ==> reply == Fail(c.status, c.message) && db.events == old(db.events) && db.nextEventId == old(db.nextEventId)
    ensures var c := CreateCheck(caller, req);
      c.Pass? ==>
        var e := NewEvent(old(db.nextEventId), req, base, caller.value.id, now);
        && db.events == old(db.events) + [e]
        && db.nextEventId == old(db.nextEventId) + 1
        && reply == Ok(201, e)
        && (forall i :: 0 <= i < |old(db.events)| ==> old(db.events)[i].id != e.id)
  {
    var c := CreateCheck(caller, req);
    if c.Reject? {
      return Fail(c.status, c.message);
    }
    var e := NewEvent(db.nextEventId, req, base, caller.value.id, now);
    db.events := db.events + [e];
    db.nextEventId := db.nextEventId + 1;
    reply := Ok(201, e);
  }

  /** The public list: every event, ordered by date ascending. */
  function ListEvents(events: seq<Event>): (r: seq<Event>)
    ensures |r| == |events|
    ensures forall i, j :: 0 <= i < j < |r| ==> r[i].date <= r[j].date
    ensures multiset(r) == multiset(events)
  {
    SortBy(events, (e: Event) => e.date)
  }

  datatype Listing = Listing(count: nat, registrations: seq<Registration>)

  /**
   * An event's registrations for any organiser, with no ownership check, newest
   * first, in every status; `count` is the number of rows returned.
   */
  function ListRegistrations(regs: seq<Registration>, caller: Caller, event: Id): (r: Reply<Listing>)
    ensures r.Fail? <==> caller.role != Admin
    ensures r.Fail? ==> r == Fail(403, "Admin only")
    ensures r.Ok? ==>
      && r.value.count == |r.value.registrations| == |RegsOf(regs, event)|
      && (forall i :: 0 <= i < |r.value.registrations| ==> r.value.registrations[i].event == event)
      && (forall i, j :: 0 <= i < j < |r.value.registrations| ==>
            r.value.registrations[i].createdAt >= r.value.registrations[j].createdAt)
      && multiset(r.value.registrations) == multiset(RegsOf(regs, event))
  {
    if caller.role != Admin then Fail(403, "Admin only")
    else
      var rows := SortBy(RegsOf(regs, event), (r: Registration) => -r.createdAt);
      PermutationKeeps(RegsOf(regs, event), rows, (r: Registration) => r.event == event);
      Ok(200, Listing(|rows|, rows))
  }

  /** The guards of delete, in the handler's order: an organiser, a known event, and its owner. */
  function DeleteCheck(events: seq<Event>, caller: Caller, id: Id): (c: Check<nat>)
    ensures caller.role != Admin ==> c == Reject(403, "Admins only")
    ensures caller.role == Admin && EventIndex(events, id).None? ==> c == Reject(404, "Event not found")
    ensures (caller.role == Admin && EventIndex(events, id).Some? && events[EventIndex(events, id).value].createdBy != caller.id) ==>
      c == Reject(403, "Not your event")
    ensures c.Pass? <==>
      caller.role == Admin && EventIndex(events, id).Some? && events[EventIndex(events, id).value].createdBy == caller.id
    ensures c.Pass? ==> c.value < |events| && events[c.value].id == id
  {
    if caller.role != Admin then Reject(403, "Admins only")
    else
      var k := EventIndex(events, id);
      if k.None? then Reject(404, "Event not found")
      else if events[k.value].createdBy != caller.id then Reject(403, "Not your event")
      else Pass(k.value)
  }

  /** Delete: the guards, then only the event goes; its registrations and payments stay. */
  method DeleteEvent(db: Db, caller: Caller, id: Id) returns (reply: Reply<string>)
    requires db.Valid()
    modifies db
    ensures db.Valid()
    ensures db.users == old(db.users) && db.otps == old(db.otps) && db.nextEventId == old(db.nextEventId)
    ensures db.payments == old(db.payments) && db.registrations == old(db.registrations)
    ensures var c := DeleteCheck(old(db.events), caller, id);
      c.Reject? ==> reply == Fail(c.status, c.message) && db.events == old(db.events)
    ensures var c := DeleteCheck(old(db.events), caller, id);
      c.Pass? ==>
        && db.events == old(db.events)[..c.value] + old(db.events)[c.value + 1..]
        && (forall i :: 0 <= i < |db.events| ==> db.events[i].id != id)
        && reply == Ok(200, "Event deleted successfully")
  {
    var c := DeleteCheck(db.events, caller, id);
    if c.Reject? {
      return Fail(c.status, c.message);
    }
    var k := c.value;
    ghost var before := db.events;
    db.events := db.events[..k] + db.events[k + 1..];
    assert forall i :: 0 <= i < |db.events| ==> db.events[i] == before[if i < k then i else i + 1];
    reply := Ok(200, "Event deleted successfully");
  }
}
