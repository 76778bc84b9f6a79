/**
 * The organiser's statistics page for one event: a search over the listed
 * registrations, the summary counters computed in one pass over the whole list, and
 * the CSV of the rows the search keeps.
 */
module ViewEventStats {
  import opened Common
  import opened Seqs
  import opened Strings
  import opened EventRegistrationModel
  import opened Report

  /** The search test for a lowered query: name, roll number or email case-insensitively, phone as typed. */
  predicate Matches(r: Row, q: string)
  {
    FieldContains(NameOf(r), q) || FieldContains(RollNoOf(r), q) || FieldContains(EmailOf(r), q) ||
    (PhoneOf(r).Some? && Contains(PhoneOf(r).value, q))
  }

  /** `filteredRegistrations`: everything for an empty search, else the rows matching the lowered search. */
  function FilteredRegistrations(rows: seq<Row>, search: string): (r: seq<Row>)
    ensures search == "" ==> r == rows
    ensures |r| <= |rows|
  {
    if search == "" then rows else Filter(rows, (x: Row) => Matches(x, ToLower(search)))
  }

  /** A non-empty search keeps exactly the listed rows that match it. */
  lemma SearchExactly(rows: seq<Row>, search: string, x: Row)
    requires search != ""
    ensures x in FilteredRegistrations(rows, search) <==> x in rows && Matches(x, ToLower(search))
  {
    FilterMember(rows, (y: Row) => Matches(y, ToLower(search)), x);
  }

  /** The summary counters of the page. */
  datatype Stats = Stats(totalRegistrations: nat, checkedIn: nat, notCheckedIn: int, paidNotCheckedIn: nat, totalRevenue: int)

  predicate IsCheckedIn(r: Row)
  {
    r.status == CheckedIn
  }

  predicate IsNotCheckedIn(r: Row)
  {
    r.status != CheckedIn
  }

  predicate IsPaid(r: Row)
  {
    r.status == EventRegistrationModel.Paid
  }

  predicate IsPurchase(r: Row)
  {
    r.status == EventRegistrationModel.Paid || r.status == CheckedIn
  }

  /** What one row adds to the revenue: its amount when it is a purchase with a truthy (non-zero) amount, else 0. */
  function RevenueOf(r: Row): int
  {
    if IsPurchase(r) && r.amount.Some? && r.amount.value != 0 then r.amount.value else 0
  }

  /** What one more row adds to each counter of the `forEach`. */
  lemma StatsStep(xs: seq<Row>, r: Row)
    ensures |Filter(xs + [r], IsCheckedIn)| == |Filter(xs, IsCheckedIn)| + (if IsCheckedIn(r) then 1 else 0)
    ensures |Filter(xs + [r], IsPaid)| == |Filter(xs, IsPaid)| + (if IsPaid(r) then 1 else 0)
    ensures SumBy(xs + [r], RevenueOf) == SumBy(xs, RevenueOf) + RevenueOf(r)
  {
    FilterSnoc(xs, r, IsCheckedIn);
    FilterSnoc(xs, r, IsPaid);
    assert (xs + [r])[..|xs|] == xs;
  }

  /** The `forEach` over all registrations, not the filtered ones. */
  method ComputeStats(rows: seq<Row>) returns (s: Stats)
    ensures s.totalRegistrations == |rows|
    ensures s.checkedIn == |Filter(rows, IsCheckedIn)|
    ensures s.notCheckedIn == |rows| - s.checkedIn
    ensures s.paidNotCheckedIn == |Filter(rows, IsPaid)|
    ensures s.totalRevenue == SumBy(rows, RevenueOf)
  {
    var totalRevenue := 0;
    var checkedIn := 0;
    var paidNotCheckedIn := 0;
    for i := 0 to |rows|
      invariant checkedIn == |Filter(rows[..i], IsCheckedIn)|
      invariant paidNotCheckedIn == |Filter(rows[..i], IsPaid)|
      invariant totalRevenue == SumBy(rows[..i], RevenueOf)
    {
      var r := rows[i];
      assert rows[..i + 1] == rows[..i] + [r];
      StatsStep(rows[..i], r);
      if r.status == CheckedIn {
        checkedIn := checkedIn + 1;
      }
      if r.status == EventRegistrationModel.Paid {
        paidNotCheckedIn := paidNotCheckedIn + 1;
      }
      if IsPurchase(r) && r.amount.Some? && r.amount.value != 0 {
        totalRevenue := totalRevenue + r.amount.value;
      }
    }
    assert rows[..|rows|] == rows;
    s := Stats(|rows|, checkedIn, |rows| - checkedIn, paidNotCheckedIn, totalRevenue);
  }

  /** `notCheckedIn` is the number of rows in any other status, so it is never negative and the two add up to the total. */
  lemma NotCheckedInCountsTheRest(rows: seq<Row>)
    ensures |rows| - |Filter(rows, IsCheckedIn)| == |Filter(rows, IsNotCheckedIn)|
  {
    FilterPartition(rows, IsCheckedIn, IsNotCheckedIn);
  }

  /** `paidNotCheckedIn` never exceeds `notCheckedIn`: every paid row is a row not checked in. */
  lemma PaidWithinNotCheckedIn(rows: seq<Row>)
    ensures |Filter(rows, IsPaid)| <= |rows| - |Filter(rows, IsCheckedIn)|
  {
    NotCheckedInCountsTheRest(rows);
    FilterFilter(rows, IsNotCheckedIn, IsPaid, IsPaid);
  }

  /** `totalRevenue` is a sum over the purchases alone: rows still `registered` add nothing. */
  lemma RevenueOverPurchases(rows: seq<Row>)
    ensures SumBy(rows, RevenueOf) == SumBy(Filter(rows, IsPurchase), RevenueOf)
  {
    SumByFilter(rows, RevenueOf, IsPurchase);
  }

  /** `[r.user?.name || "", r.user?.rollNo || "", r.user?.email || "", r.user?.phone || "", r.status]`. */
  function Cells(r: Row): (c: seq<string>)
    ensures |c| == 5
  {
    [OrEmpty(NameOf(r)), OrEmpty(RollNoOf(r)), OrEmpty(EmailOf(r)), OrEmpty(PhoneOf(r)), RegStatusName(r.status)]
  }

  const Header: seq<string> := ["Name", "Roll No", "Email", "Phone", "Status"]

  /** Every cell of a row whose user fields are clean is clean: a status name holds neither "," nor a line break. */
  lemma CellsClean(r: Row)
    requires Clean(OrEmpty(NameOf(r))) && Clean(OrEmpty(RollNoOf(r))) && Clean(OrEmpty(EmailOf(r))) && Clean(OrEmpty(PhoneOf(r)))
    ensures forall j :: 0 <= j < 5 ==> Clean(Cells(r)[j])
  {
    assert Clean(RegStatusName(r.status)) by {
      match r.status
      case Registered =>
      case Paid =>
      case CheckedIn =>
    }
  }

  lemma HeaderClean()
    ensures forall j :: 0 <= j < |Header| ==> Clean(Header[j])
  {
  }

  /** `downloadCSV`: nothing for an empty list, else the header and one line per row kept by the search. */
  function DownloadCsv(rows: seq<Row>, search: string): (csv: Option<string>)
    ensures csv.None? <==> FilteredRegistrations(rows, search) == []
  {
    var kept := FilteredRegistrations(rows, search);
    if kept == [] then None
    else Some(Csv(Header, seq(|kept|, i requires 0 <= i < |kept| => Cells(kept[i]))))
  }

  /**
   * When no field holds "," or a line break, the CSV reads back as the header and,
   * line by line, the cells of the kept rows in order.
   */
  lemma DownloadCsvRoundTrip(rows: seq<Row>, search: string)
    requires forall i :: 0 <= i < |rows| ==> Clean(OrEmpty(NameOf(rows[i]))) && Clean(OrEmpty(RollNoOf(rows[i]))) &&
                                              Clean(OrEmpty(EmailOf(rows[i]))) && Clean(OrEmpty(PhoneOf(rows[i])))
    requires DownloadCsv(rows, search).Some?
    ensures var kept := FilteredRegistrations(rows, search);
      var lines := Split(DownloadCsv(rows, search).value, '\n');
      && |lines| == |kept| + 1
      && Split(lines[0], ',') == Header
      && forall i :: 0 <= i < |kept| ==> Split(lines[i + 1], ',') == Cells(kept[i])
  {
    var kept := FilteredRegistrations(rows, search);
    var cells := seq(|kept|, i requires 0 <= i < |kept| => Cells(kept[i]));
    forall i | 0 <= i < |kept|
      ensures kept[i] in rows
    {
      if search != "" {
        SearchExactly(rows, search, kept[i]);
      }
    }
    forall i | 0 <= i < |kept|
      ensures forall j :: 0 <= j < |cells[i]| ==> Clean(cells[i][j])
    {
      CellsClean(kept[i]);
    }
    HeaderClean();
    CsvRoundTrip(Header, cells);
    assert DownloadCsv(rows, search).value == Csv(Header, cells);
    assert forall i :: 0 <= i < |kept| ==> cells[i] == Cells(kept[i]);
  }
}
