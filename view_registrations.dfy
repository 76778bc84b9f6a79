/**
 * The organiser's live registrations page: a roll-number search, an entry filter, the
 * counters over the whole list, and the CSV of the filtered rows. The date of a
 * check-in is printed by the browser's `toLocaleString`, which is `format` here.
 */
module ViewRegistrations {
  import opened Common
  import opened Seqs
  import opened Strings
  import opened EventRegistrationModel
  import opened Report

  /** The roll-number search: a row without a roll number never matches, whatever the search. */
  predicate RollMatches(r: Row, searchRoll: string)
  {
    FieldContains(RollNoOf(r), ToLower(searchRoll))
  }

  /** The entry filter: `entered` keeps checked-in rows, `not_entered` the others, any other value everything. */
  predicate EntryMatches(r: Row, entryFilter: string)
  {
    if entryFilter == "entered" then r.status == CheckedIn
    else if entryFilter == "not_entered" then r.status != CheckedIn
    else true
  }

  function RollFiltered(rows: seq<Row>, searchRoll: string): seq<Row>
  {
    Filter(rows, (r: Row) => RollMatches(r, searchRoll))
  }

  /** `filteredRegistrations`: the roll search, then the entry filter. */
  function FilteredRegistrations(rows: seq<Row>, searchRoll: string, entryFilter: string): (r: seq<Row>)
    ensures |r| <= |rows|
    ensures forall i :: 0 <= i < |r| ==> RollMatches(r[i], searchRoll) && EntryMatches(r[i], entryFilter)
  {
    var byRoll := RollFiltered(rows, searchRoll);
    var kept := Filter(byRoll, (r: Row) => EntryMatches(r, entryFilter));
    assert forall i :: 0 <= i < |kept| ==> RollMatches(kept[i], searchRoll) by {
      forall i | 0 <= i < |kept|
        ensures RollMatches(kept[i], searchRoll)
      {
        FilterMember(byRoll, (r: Row) => EntryMatches(r, entryFilter), kept[i]);
      }
    }
    kept
  }

  /** A row is shown exactly when it is listed, matches the roll search and passes the entry filter. */
  lemma FilteredExactly(rows: seq<Row>, searchRoll: string, entryFilter: string, x: Row)
    ensures x in FilteredRegistrations(rows, searchRoll, entryFilter) <==>
      x in rows && RollMatches(x, searchRoll) && EntryMatches(x, entryFilter)
  {
    FilterMember(rows, (r: Row) => RollMatches(r, searchRoll), x);
    FilterMember(RollFiltered(rows, searchRoll), (r: Row) => EntryMatches(r, entryFilter), x);
  }

  /** With an empty search, the rows shown are exactly those with a roll number: rows without one are dropped. */
  lemma EmptySearchKeepsRollNumbers(rows: seq<Row>, x: Row)
    ensures x in RollFiltered(rows, "") <==> x in rows && RollNoOf(x).Some?
  {
    FilterMember(rows, (r: Row) => RollMatches(r, ""), x);
    if RollNoOf(x).Some? {
      ContainsEmpty(ToLower(RollNoOf(x).value));
    }
  }

  /** Any other entry filter value shows the whole roll-filtered list. */
  lemma OtherFilterKeepsAll(rows: seq<Row>, searchRoll: string, entryFilter: string)
    requires entryFilter != "entered" && entryFilter != "not_entered"
    ensures FilteredRegistrations(rows, searchRoll, entryFilter) == RollFiltered(rows, searchRoll)
  {
    FilterAll(RollFiltered(rows, searchRoll), (r: Row) => EntryMatches(r, entryFilter));
  }

  /** `entered` and `not_entered` split the roll-filtered list: no row is in both and none is lost. */
  lemma EntryFiltersPartition(rows: seq<Row>, searchRoll: string)
    ensures |FilteredRegistrations(rows, searchRoll, "entered")| + |FilteredRegistrations(rows, searchRoll, "not_entered")|
            == |RollFiltered(rows, searchRoll)|
    ensures multiset(FilteredRegistrations(rows, searchRoll, "entered")) + multiset(FilteredRegistrations(rows, searchRoll, "not_entered"))
            == multiset(RollFiltered(rows, searchRoll))
  {
    FilterPartition(RollFiltered(rows, searchRoll), (r: Row) => EntryMatches(r, "entered"), (r: Row) => EntryMatches(r, "not_entered"));
  }

  datatype Counts = Counts(total: nat, entered: nat, notEntered: int)

  /** The counters, over the whole list whatever the filters. */
  function CountRows(rows: seq<Row>): (c: Counts)
    ensures c.total == |rows|
    ensures c.entered + c.notEntered == c.total
    ensures c.entered == |Filter(rows, (r: Row) => r.status == CheckedIn)|
    ensures c.notEntered == |Filter(rows, (r: Row) => r.status != CheckedIn)|
  {
    var entered := |Filter(rows, (r: Row) => r.status == CheckedIn)|;
    FilterPartition(rows, (r: Row) => r.status == CheckedIn, (r: Row) => r.status != CheckedIn);
    Counts(|rows|, entered, |rows| - entered)
  }

  /** `[r.user?.name, r.user?.rollNo, r.user?.email, r.status, checked-in date or ""]`; `join` prints a missing value as "". */
  function Cells(r: Row, format: Time -> string): (c: seq<string>)
    ensures |c| == 5
    ensures r.checkedInAt.None? ==> c[4] == ""
    ensures r.checkedInAt.Some? ==> c[4] == format(r.checkedInAt.value)
  {
    [OrEmpty(NameOf(r)), OrEmpty(RollNoOf(r)), OrEmpty(EmailOf(r)), RegStatusName(r.status),
     if r.checkedInAt.Some? then format(r.checkedInAt.value) else ""]
  }

  const Header: seq<string> := ["Name", "Roll No", "Email", "Status", "Checked In At"]

  /** `downloadCSV`: built even when nothing is shown. */
  function DownloadCsv(rows: seq<Row>, searchRoll: string, entryFilter: string, format: Time -> string): string
  {
    var kept := FilteredRegistrations(rows, searchRoll, entryFilter);
    Csv(Header, seq(|kept|, i requires 0 <= i < |kept| => Cells(kept[i], format)))
  }

  lemma CellsClean(r: Row, format: Time -> string)
    requires Clean(OrEmpty(NameOf(r))) && Clean(OrEmpty(RollNoOf(r))) && Clean(OrEmpty(EmailOf(r)))
    requires r.checkedInAt.Some? ==> Clean(format(r.checkedInAt.value))
    ensures forall j :: 0 <= j < 5 ==> Clean(Cells(r, format)[j])
  {
    assert Clean(RegStatusName(r.status)) by {
      match r.status
      case Registered =>
      case Paid =>
      case CheckedIn =>
    }
  }

  lemma HeaderClean()
    ensures forall j :: 0 <= j < |Header| ==> Clean(Header[j])
  {
  }

  /**
   * One line per shown row after the header: when no field and no printed date holds ","
   * or a line break, the CSV reads back as the header and each shown row's cells.
   */
  lemma DownloadCsvRoundTrip(rows: seq<Row>, searchRoll: string, entryFilter: string, format: Time -> string)
    requires forall i :: 0 <= i < |rows| ==> Clean(OrEmpty(NameOf(rows[i]))) && Clean(OrEmpty(RollNoOf(rows[i]))) &&
                                              Clean(OrEmpty(EmailOf(rows[i])))
    requires forall i :: 0 <= i < |rows| && rows[i].checkedInAt.Some? ==> Clean(format(rows[i].checkedInAt.value))
    requires FilteredRegistrations(rows, searchRoll, entryFilter) != []
    ensures var kept := FilteredRegistrations(rows, searchRoll, entryFilter);
      var lines := Split(DownloadCsv(rows, searchRoll, entryFilter, format), '\n');
      && |lines| == |kept| + 1
      && Split(lines[0], ',') == Header
      && forall i :: 0 <= i < |kept| ==> Split(lines[i + 1], ',') == Cells(kept[i], format)
  {
    var kept := FilteredRegistrations(rows, searchRoll, entryFilter);
    var cells := seq(|kept|, i requires 0 <= i < |kept| => Cells(kept[i], format));
    forall i | 0 <= i < |kept|
      ensures forall j :: 0 <= j < |cells[i]| ==> Clean(cells[i][j])
    {
      FilteredExactly(rows, searchRoll, entryFilter, kept[i]);
      CellsClean(kept[i], format);
    }
    HeaderClean();
    CsvRoundTrip(Header, cells);
    assert forall i :: 0 <= i < |kept| ==> cells[i] == Cells(kept[i], format);
  }

  /** With nothing shown the file is still written: the header line and an empty line. */
  lemma EmptyDownload(rows: seq<Row>, searchRoll: string, entryFilter: string, format: Time -> string)
    requires FilteredRegistrations(rows, searchRoll, entryFilter) == []
    ensures Split(DownloadCsv(rows, searchRoll, entryFilter, format), '\n') == [Join(Header, ","), ""]
  {
    HeaderClean();
    var kept := FilteredRegistrations(rows, searchRoll, entryFilter);
    assert seq(|kept|, i requires 0 <= i < |kept| => Cells(kept[i], format)) == [];
    EmptyCsvHasTwoLines(Header);
  }

  /** A printed date holding "," (as `toLocaleString` prints one in many locales) breaks the row's line into more cells. */
  lemma CommaInDateBreaksLine(r: Row, format: Time -> string)
    requires r.checkedInAt.Some? && ',' in format(r.checkedInAt.value)
    ensures Split(Join(Cells(r, format), ","), ',') != Cells(r, format)
  {
    CommaBreaksRow(Cells(r, format), 4);
  }
}
