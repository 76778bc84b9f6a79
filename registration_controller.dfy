/**
 * The registration controller: a student's own purchases, and whether the student
 * holds a ticket for one event. Only `paid` and `checked_in` rows count as purchases.
 */
module RegistrationController {
  import opened Common
  import opened Seqs
  import opened UserModel
  import opened EventRegistrationModel

  predicate IsPurchaseOf(r: Registration, user: Id)
  {
    r.user == user && IsPaidOrCheckedIn(r)
  }

  /** `getMyRegistrations`: the caller's paid and checked-in rows, newest first. */
  function GetMyRegistrations(regs: seq<Registration>, caller: Caller): (r: seq<Registration>)
    ensures forall i :: 0 <= i < |r| ==> r[i].user == caller.id && IsPaidOrCheckedIn(r[i])
    ensures forall i, j :: 0 <= i < j < |r| ==> r[i].createdAt >= r[j].createdAt
    ensures multiset(r) == multiset(Filter(regs, (x: Registration) => IsPurchaseOf(x, caller.id)))
  {
    var mine := Filter(regs, (x: Registration) => IsPurchaseOf(x, caller.id));
    var sorted := SortBy(mine, (x: Registration) => -x.createdAt);
    PermutationKeeps(mine, sorted, (x: Registration) => IsPurchaseOf(x, caller.id));
    sorted
  }

  /** A row is listed exactly when it is stored, belongs to the caller and is paid or checked in. */
  lemma MyRegistrationsExactly(regs: seq<Registration>, caller: Caller, x: Registration)
    ensures x in GetMyRegistrations(regs, caller) <==> x in regs && x.user == caller.id && IsPaidOrCheckedIn(x)
  {
    FilterMember(regs, (y: Registration) => IsPurchaseOf(y, caller.id), x);
    assert x in GetMyRegistrations(regs, caller) <==> x in multiset(GetMyRegistrations(regs, caller));
  }

  /** The body of `getRegistrationStatus`: `{ registered: false }` or `{ registered: true, status }`. */
  datatype RegistrationStatus = NotRegistered | Holds(status: RegStatus)

  /** `getRegistrationStatus`: the first of the caller's purchases for the event, if any. */
  function GetRegistrationStatus(regs: seq<Registration>, caller: Caller, event: Id): (r: RegistrationStatus)
    ensures r.NotRegistered? <==>
      forall i :: 0 <= i < |regs| ==> !(regs[i].user == caller.id && regs[i].event == event && IsPaidOrCheckedIn(regs[i]))
    ensures r.Holds? ==> r.status != Registered
    ensures r.Holds? ==> exists i :: 0 <= i < |regs| && regs[i].user == caller.id && regs[i].event == event && regs[i].status == r.status
  {
    var k := FirstIndex(regs, (x: Registration) => x.user == caller.id && x.event == event && IsPaidOrCheckedIn(x));
    if k.None? then NotRegistered else Holds(regs[k.value].status)
  }

  /**
   * Rows still in `registered` (the routes here never write one; such a row comes from
   * data written outside them) do not count: a caller whose every row for the event is
   * `registered` reads as not registered.
   */
  lemma UnpaidRowsReadAsNotRegistered(regs: seq<Registration>, caller: Caller, event: Id)
    requires forall i :: 0 <= i < |regs| && regs[i].user == caller.id && regs[i].event == event ==> regs[i].status == Registered
    ensures GetRegistrationStatus(regs, caller, event) == NotRegistered
  {
  }
}
