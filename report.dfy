/**
 * What the three admin pages receive and what their "Download CSV" buttons build. A
 * row is a registration as the JSON of a listing shows it, with its user and payment
 * populated, either of which may be missing. A CSV is cells joined by "," and lines
 * joined by "\n", with no quoting.
 */
module Report {
  import opened Common
  import opened Strings
  import opened EventRegistrationModel

  /** The populated `user` of a row; every field may be missing. */
  datatype RowUser = RowUser(name: Option<string>, rollNo: Option<string>, email: Option<string>, phone: Option<string>)

  /** A listed registration: `user`, `status`, `payment.amount` and `checkedInAt`. */
  datatype Row = Row(user: Option<RowUser>, status: RegStatus, amount: Option<int>, checkedInAt: Option<Time>)

  /** `r.user?.name`. */
  function NameOf(r: Row): Option<string>
  {
    if r.user.Some? then r.user.value.name else None
  }

  /** `r.user?.rollNo`. */
  function RollNoOf(r: Row): Option<string>
  {
    if r.user.Some? then r.user.value.rollNo else None
  }

  /** `r.user?.email`. */
  function EmailOf(r: Row): Option<string>
  {
    if r.user.Some? then r.user.value.email else None
  }

  /** `r.user?.phone`. */
  function PhoneOf(r: Row): Option<string>
  {
    if r.user.Some? then r.user.value.phone else None
  }

  /** `hay?.toLowerCase().includes(q)`: false when the field is missing. */
  predicate FieldContains(field: Option<string>, q: string)
  {
    field.Some? && Contains(ToLower(field.value), q)
  }

  /** A cell that cannot break the layout: no "," and no line break. */
  predicate Clean(cell: string)
  {
    ',' !in cell && '\n' !in cell
  }

  /** `row.join(",")` for every row. */
  function Lines(rows: seq<seq<string>>): (r: seq<string>)
    ensures |r| == |rows|
    ensures forall i :: 0 <= i < |r| ==> r[i] == Join(rows[i], ",")
  {
    seq(|rows|, i requires 0 <= i < |rows| => Join(rows[i], ","))
  }

  /** `headers.join(",") + "\n" + rows.map((r) => r.join(",")).join("\n")`. */
  function Csv(header: seq<string>, rows: seq<seq<string>>): string
  {
    Join(header, ",") + "\n" + Join(Lines(rows), "\n")
  }

  /** A character that is in no part and not in the separator is not in the join. */
  lemma {:induction false} JoinAvoids(parts: seq<string>, sep: string, c: char)
    requires c !in sep
    requires forall i :: 0 <= i < |parts| ==> c !in parts[i]
    ensures c !in Join(parts, sep)
  {
    if |parts| > 1 {
      JoinAvoids(parts[1..], sep, c);
    }
  }

  /**
   * The CSV reads back: with at least one row and no cell holding "," or a line break,
   * splitting at "\n" gives the header line and one line per row, and splitting each
   * line at "," gives its cells.
   */
  lemma CsvRoundTrip(header: seq<string>, rows: seq<seq<string>>)
    requires |header| >= 1 && |rows| >= 1
    requires forall i :: 0 <= i < |rows| ==> |rows[i]| >= 1
    requires forall j :: 0 <= j < |header| ==> Clean(header[j])
    requires forall i, j :: 0 <= i < |rows| && 0 <= j < |rows[i]| ==> Clean(rows[i][j])
    ensures var lines := Split(Csv(header, rows), '\n');
      && |lines| == |rows| + 1
      && Split(lines[0], ',') == header
      && forall i :: 0 <= i < |rows| ==> Split(lines[i + 1], ',') == rows[i]
  {
    var all := [Join(header, ",")] + Lines(rows);
    assert all[1..] == Lines(rows);
    assert Csv(header, rows) == Join(all, ['\n']);
    JoinAvoids(header, ",", '\n');
    forall i | 0 <= i < |rows|
      ensures '\n' !in Join(rows[i], ",")
    {
      JoinAvoids(rows[i], ",", '\n');
    }
    SplitJoin(all, '\n');
    SplitJoin(header, ',');
    forall i | 0 <= i < |rows|
      ensures Split(all[i + 1], ',') == rows[i]
    {
      SplitJoin(rows[i], ',');
    }
  }

  /** With no rows the CSV is the header line followed by an empty line, not the header alone. */
  lemma EmptyCsvHasTwoLines(header: seq<string>)
    requires forall j :: 0 <= j < |header| ==> Clean(header[j])
    ensures Split(Csv(header, []), '\n') == [Join(header, ","), ""]
  {
    JoinAvoids(header, ",", '\n');
    assert Csv(header, []) == Join(header, ",") + ['\n'] + "";
    SplitAt(Join(header, ","), '\n', "");
  }

  /** With no quoting, a cell holding "," does not read back: the line splits into other cells. */
  lemma CommaBreaksRow(cells: seq<string>, j: nat)
    requires j < |cells| && ',' in cells[j]
    ensures Split(Join(cells, ","), ',') != cells
  {
  }
}
