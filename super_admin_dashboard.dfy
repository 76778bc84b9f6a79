/**
 * The super admin's dashboard page: a title search over the dashboard's events, a
 * name-or-email search over the admins, and the per-event registrations CSV.
 */
module SuperAdminDashboard {
  import opened Common
  import opened Seqs
  import opened Strings
  import opened UserModel
  import opened SuperAdminRoutes
  import opened Report

  predicate TitleMatches(e: DashboardEvent, search: string)
  {
    Contains(ToLower(e.title), ToLower(search))
  }

  /** `filteredEvents`: nothing before the dashboard has loaded, else the events whose title holds the search. */
  function FilteredEvents(dashboard: Option<Dashboard>, search: string): (r: seq<DashboardEvent>)
    ensures dashboard.None? ==> r == []
    ensures dashboard.Some? ==> |r| <= |dashboard.value.events|
  {
    if dashboard.None? then [] else Filter(dashboard.value.events, (e: DashboardEvent) => TitleMatches(e, search))
  }

  /** A loaded dashboard shows exactly the events whose title contains the search, ignoring case. */
  lemma FilteredEventsExactly(d: Dashboard, search: string, e: DashboardEvent)
    ensures e in FilteredEvents(Some(d), search) <==> e in d.events && TitleMatches(e, search)
  {
    FilterMember(d.events, (x: DashboardEvent) => TitleMatches(x, search), e);
  }

  /** An empty search shows every event of a loaded dashboard, in the dashboard's order. */
  lemma EmptySearchShowsAllEvents(d: Dashboard)
    ensures FilteredEvents(Some(d), "") == d.events
  {
    forall i | 0 <= i < |d.events|
      ensures TitleMatches(d.events[i], "")
    {
      ContainsEmpty(ToLower(d.events[i].title));
    }
    FilterAll(d.events, (x: DashboardEvent) => TitleMatches(x, ""));
  }

  predicate AdminMatches(a: User, search: string)
  {
    Contains(ToLower(a.name), ToLower(search)) || Contains(ToLower(a.email), ToLower(search))
  }

  /** `filteredAdmins`: the admins whose name or email holds the search, ignoring case. */
  function FilteredAdmins(admins: seq<User>, search: string): (r: seq<User>)
    ensures |r| <= |admins|
  {
    Filter(admins, (a: User) => AdminMatches(a, search))
  }

  /** An admin is shown exactly when listed and the name or the email contains the search. */
  lemma FilteredAdminsExactly(admins: seq<User>, search: string, a: User)
    ensures a in FilteredAdmins(admins, search) <==> a in admins && AdminMatches(a, search)
  {
    FilterMember(admins, (x: User) => AdminMatches(x, search), a);
  }

  /** An empty search shows every admin. */
  lemma EmptySearchShowsAllAdmins(admins: seq<User>)
    ensures FilteredAdmins(admins, "") == admins
  {
    forall i | 0 <= i < |admins|
      ensures AdminMatches(admins[i], "")
    {
      ContainsEmpty(ToLower(admins[i].name));
    }
    FilterAll(admins, (x: User) => AdminMatches(x, ""));
  }

  /** `r.payment?.amount || 0`: a missing payment (or a zero amount) is printed as 0. */
  function AmountOrZero(r: Row): (a: int)
    ensures r.amount.Some? ==> a == r.amount.value
    ensures r.amount.None? ==> a == 0
  {
    if r.amount.Some? && r.amount.value != 0 then r.amount.value else 0
  }

  /** `[r.user?.name, r.user?.rollNo, r.user?.email, r.user?.phone, amount or 0]`; `join` prints a missing value as "". */
  function Cells(r: Row): (c: seq<string>)
    ensures |c| == 5
    ensures c[4] == IntToString(AmountOrZero(r))
  {
    [OrEmpty(NameOf(r)), OrEmpty(RollNoOf(r)), OrEmpty(EmailOf(r)), OrEmpty(PhoneOf(r)), IntToString(AmountOrZero(r))]
  }

  const Header: seq<string> := ["Name", "Roll No", "Email", "Phone", "Amount"]

  /** `downloadCSV`: nothing for an event with no registrations, else the header and one line per registration. */
  function DownloadCsv(rows: seq<Row>): (csv: Option<string>)
    ensures csv.None? <==> rows == []
  {
    if rows == [] then None
    else Some(Csv(Header, seq(|rows|, i requires 0 <= i < |rows| => Cells(rows[i]))))
  }

  /** A printed integer holds only digits and perhaps a leading minus sign. */
  lemma IntToStringClean(n: int)
    ensures Clean(IntToString(n))
  {
    var s := if n < 0 then NatToString(-n) else NatToString(n);
    assert forall k :: 0 <= k < |s| ==> IsDigit(s[k]);
  }

  lemma CellsClean(r: Row)
    requires Clean(OrEmpty(NameOf(r))) && Clean(OrEmpty(RollNoOf(r))) && Clean(OrEmpty(EmailOf(r))) && Clean(OrEmpty(PhoneOf(r)))
    ensures forall j :: 0 <= j < 5 ==> Clean(Cells(r)[j])
  {
    IntToStringClean(AmountOrZero(r));
  }

  lemma HeaderClean()
    ensures forall j :: 0 <= j < |Header| ==> Clean(Header[j])
  {
  }

  /**
   * When no user field holds "," or a line break, the CSV reads back as the header
   * and one line per registration, whose last cell is its amount, 0 when unpaid.
   */
  lemma DownloadCsvRoundTrip(rows: seq<Row>)
    requires forall i :: 0 <= i < |rows| ==> Clean(OrEmpty(NameOf(rows[i]))) && Clean(OrEmpty(RollNoOf(rows[i]))) &&
                                              Clean(OrEmpty(EmailOf(rows[i]))) && Clean(OrEmpty(PhoneOf(rows[i])))
    requires rows != []
    ensures var lines := Split(DownloadCsv(rows).value, '\n');
      && |lines| == |rows| + 1
      && Split(lines[0], ',') == Header
      && forall i :: 0 <= i < |rows| ==> Split(lines[i + 1], ',') == Cells(rows[i])
  {
    var cells := seq(|rows|, i requires 0 <= i < |rows| => Cells(rows[i]));
    forall i | 0 <= i < |rows|
      ensures forall j :: 0 <= j < |cells[i]| ==> Clean(cells[i][j])
    {
      CellsClean(rows[i]);
    }
    HeaderClean();
    CsvRoundTrip(Header, cells);
    assert forall i :: 0 <= i < |rows| ==> cells[i] == Cells(rows[i]);
  }
}
