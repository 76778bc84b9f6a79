/**
 * The event controller: an organiser's own events, one event by id, and the owner's
 * update, which copies every field of the request body onto the stored event.
 */
module EventController {
  import opened Common
  import opened Seqs
  import opened UserModel
  import opened EventModel
  import opened Database

  /** The caller is an authenticated organiser (`req.user && req.user.role === "admin"`). */
  predicate IsAdminCaller(caller: Option<Caller>)
  {
    caller.Some? && caller.value.role == Admin
  }

  function CreatedBy(events: seq<Event>, owner: Id): seq<Event>
  {
    Filter(events, (e: Event) => e.createdBy == owner)
  }

  /** `getMyEvents`: the caller's own events, newest first. */
  function GetMyEvents(events: seq<Event>, caller: Option<Caller>): (r: Reply<seq<Event>>)
    ensures r.Fail? <==> !IsAdminCaller(caller)
    ensures r.Fail? ==> r == Fail(403, "Admins only")
    ensures r.Ok? ==>
      && r.status == 200
      && (forall i :: 0 <= i < |r.value| ==> r.value[i].createdBy == caller.value.id)
      && (forall i, j :: 0 <= i < j < |r.value| ==> r.value[i].createdAt >= r.value[j].createdAt)
      && multiset(r.value) == multiset(CreatedBy(events, caller.value.id))
  {
    if !IsAdminCaller(caller) then Fail(403, "Admins only")
    else
      var mine := CreatedBy(events, caller.value.id);
      var sorted := SortBy(mine, (e: Event) => -e.createdAt);
      PermutationKeeps(mine, sorted, (e: Event) => e.createdBy == caller.value.id);
      Ok(200, sorted)
  }

  /** An event is listed by `getMyEvents` exactly when it is stored and the caller created it. */
  lemma MyEventsExactly(events: seq<Event>, caller: Caller, e: Event)
    requires caller.role == Admin
    ensures e in GetMyEvents(events, Some(caller)).value <==> e in events && e.createdBy == caller.id
  {
    var r := GetMyEvents(events, Some(caller)).value;
    FilterMember(events, (e: Event) => e.createdBy == caller.id, e);
    assert e in r <==> e in multiset(r);
  }

  /** `getEventById`: the stored event with that id, or 404. */
  function GetEventById(events: seq<Event>, id: Id): (r: Reply<Event>)
    ensures r.Fail? <==> forall i :: 0 <= i < |events| ==> events[i].id != id
    ensures r.Fail? ==> r == Fail(404, "Event not found")
    ensures r.Ok? ==> r.status == 200 && r.value.id == id && r.value in events
  {
    var k := EventIndex(events, id);
    if k.None? then Fail(404, "Event not found") else Ok(200, events[k.value])
  }

  /**
   * The fields of a request body, each present or absent. `Object.assign` copies every
   * present one, `createdBy` included.
   */
  datatype EventPatch = EventPatch(
    title: Option<string>,
    description: Option<string>,
    date: Option<Time>,
    venue: Option<string>,
    price: Option<int>,
    registrationDeadline: Option<Time>,
    images: Option<seq<string>>,
    status: Option<string>,
    createdBy: Option<Id>)

  function Pick<T>(o: Option<T>, x: T): T
  {
    if o.Some? then o.value else x
  }

  /** `Object.assign(event, req.body)`: every present field overwritten, every absent one kept; id and creation time kept. */
  function ApplyPatch(e: Event, p: EventPatch): (r: Event)
    ensures r.id == e.id && r.createdAt == e.createdAt
    ensures r.title == (if p.title.Some? then p.title.value else e.title)
    ensures r.description == (if p.description.Some? then p.description.value else e.description)
    ensures r.date == (if p.date.Some? then p.date.value else e.date)
    ensures r.venue == (if p.venue.Some? then p.venue.value else e.venue)
    ensures r.price == (if p.price.Some? then p.price.value else e.price)
    ensures r.registrationDeadline == (if p.registrationDeadline.Some? then p.registrationDeadline.value else e.registrationDeadline)
    ensures r.images == (if p.images.Some? then p.images.value else e.images)
    ensures r.status == (if p.status.Some? then p.status.value else e.status)
    ensures r.createdBy == (if p.createdBy.Some? then p.createdBy.value else e.createdBy)
  {
    Event(e.id, Pick(p.title, e.title), Pick(p.description, e.description), Pick(p.date, e.date), Pick(p.venue, e.venue),
          Pick(p.price, e.price), Pick(p.registrationDeadline, e.registrationDeadline), Pick(p.images, e.images),
          Pick(p.status, e.status), Pick(p.createdBy, e.createdBy), e.createdAt)
  }

  /** An empty body changes nothing. */
  lemma EmptyPatchIsIdentity(e: Event)
    ensures ApplyPatch(e, EventPatch(None, None, None, None, None, None, None, None, None)) == e
  {
  }

  /** The guards of `updateEvent`, in the handler's order: an organiser, a known event, and its owner. */
  function UpdateCheck(events: seq<Event>, caller: Option<Caller>, id: Id): (c: Check<nat>)
    ensures !IsAdminCaller(caller) ==> c == Reject(403, "Admins only")
    ensures IsAdminCaller(caller) && EventIndex(events, id).None? ==> c == Reject(404, "Event not found")
    ensures (IsAdminCaller(caller) && EventIndex(events, id).Some? &&
             events[EventIndex(events, id).value].createdBy != caller.value.id) ==>
      c == Reject(403, "Not your event")
    ensures c.Pass? <==>
      IsAdminCaller(caller) && EventIndex(events, id).Some? && events[EventIndex(events, id).value].createdBy == caller.value.id
    ensures c.Pass? ==> c.value < |events| && events[c.value].id == id && events[c.value].createdBy == caller.value.id
  {
    if !IsAdminCaller(caller) then Reject(403, "Admins only")
    else
      var k := EventIndex(events, id);
      if k.None? then Reject(404, "Event not found")
      else if events[k.value].createdBy != caller.value.id then Reject(403, "Not your event")
      else Pass(k.value)
  }

  /** `updateEvent`: the guards, the body copied onto the event, and the save, which the validators may refuse. */
  method UpdateEvent(db: Db, caller: Option<Caller>, id: Id, patch: EventPatch) returns (reply: Reply<Event>)
    requires db.Valid()
    modifies db
    ensures db.Valid()
    ensures db.users == old(db.users) && db.otps == old(db.otps) && db.nextEventId == old(db.nextEventId)
    ensures db.payments == old(db.payments) && db.registrations == old(db.registrations)
    ensures var c := UpdateCheck(old(db.events), caller, id);
      c.Reject? ==> reply == Fail(c.status, c.message) && db.events == old(db.events)
    ensures var c := UpdateCheck(old(db.events), caller, id);
      c.Pass? ==>
        var updated := ApplyPatch(old(db.events)[c.value], patch);
        if EventAdmitted(updated) then
          db.events == old(db.events)[c.value := updated] && reply == Ok(200, updated)
        else
          db.events == old(db.events) && reply == Fail(500, "Failed to update event")
  {
    var c := UpdateCheck(db.events, caller, id);
    if c.Reject? {
      return Fail(c.status, c.message);
    }
    var updated := ApplyPatch(db.events[c.value], patch);
    if !EventAdmitted(updated) {
      return Fail(500, "Failed to update event");
    }
    ghost var before := db.events;
    db.events := db.events[c.value := updated];
    assert forall i :: 0 <= i < |db.events| ==> db.events[i].id == before[i].id;
    reply := Ok(200, updated);
  }
}
