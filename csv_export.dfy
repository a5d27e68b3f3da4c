/** `exportToCSV` of src/utils/export.js: one row per record, periods in
    list order and base records before one-offs, eight comma-joined fields
    per line, lines joined by newlines, no quoting.  Date formatting and the
    conversion of numbers to text are parameters. */
module CsvExport {
  import opened Values

  const Headers: seq<string> :=
    ["Period", "Type", "Date", "Description", "Category", "Amount", "Status", "Amount Cleared"]

  /** One exported row before it is turned into text. */
  datatype Row = Row(
    period: int,
    track: Track,
    date: string,
    description: string,
    category: string,
    amount: real,
    status: Status,
    cleared: real)

  /** The row of record `e` of period `p`. */
  function RecordRow(p: Period, e: Expense, formatDate: int -> string): (r: Row)
    ensures r.period == p.id + 1 && r.track == p.track && r.date == formatDate(p.startDay)
    ensures r.description == e.description && r.category == e.category
    ensures r.amount == e.amount && r.status == e.status
    ensures e.amountCleared.Some? && e.amountCleared.value != 0.0 ==> r.cleared == e.amountCleared.value
    ensures (e.amountCleared.None? || e.amountCleared.value == 0.0) ==> r.cleared == e.amount
  {
    Row(p.id + 1, p.track, formatDate(p.startDay), e.description, e.category, e.amount,
        e.status, OrElse(e.amountCleared, e.amount))
  }

  /** The records a period exports: base records, then one-offs. */
  function Records(p: Period): seq<Expense> {
    p.expenses + p.oneOffExpenses
  }

  function PeriodRows(p: Period, formatDate: int -> string): (r: seq<Row>)
    ensures |r| == |Records(p)|
    ensures forall j :: 0 <= j < |r| ==> r[j] == RecordRow(p, Records(p)[j], formatDate)
  {
    seq(|Records(p)|, j requires 0 <= j < |Records(p)| => RecordRow(p, Records(p)[j], formatDate))
  }

  /** Every row of the export, period by period. */
  function RowsOf(ps: seq<Period>, formatDate: int -> string): seq<Row> {
    if |ps| == 0 then [] else RowsOf(ps[..|ps| - 1], formatDate) + PeriodRows(ps[|ps| - 1], formatDate)
  }

  /** How many records the periods hold altogether. */
  function RecordCount(ps: seq<Period>): nat {
    if |ps| == 0 then 0 else RecordCount(ps[..|ps| - 1]) + |Records(ps[|ps| - 1])|
  }

  /** The two nested `forEach` loops that push the rows. */
  method ExportRows(ps: seq<Period>, formatDate: int -> string) returns (rows: seq<Row>)
    ensures rows == RowsOf(ps, formatDate)
  {
    rows := [];
    for i := 0 to |ps|
      invariant rows == RowsOf(ps[..i], formatDate)
    {
      var period := ps[i];
      var records := period.expenses + period.oneOffExpenses;
      ghost var start := rows;
      for j := 0 to |records|
        invariant rows == start + PeriodRows(period, formatDate)[..j]
      {
        assert PeriodRows(period, formatDate)[..j + 1]
            == PeriodRows(period, formatDate)[..j] + [RecordRow(period, records[j], formatDate)];
        rows := rows + [RecordRow(period, records[j], formatDate)];
      }
      assert PeriodRows(period, formatDate)[..|records|] == PeriodRows(period, formatDate);
      assert ps[..i + 1][..i] == ps[..i];
    }
    assert ps[..|ps|] == ps;
  }

  /** There is exactly one row per record. */
  lemma {:induction false} RowCount(ps: seq<Period>, formatDate: int -> string)
    ensures |RowsOf(ps, formatDate)| == RecordCount(ps)
    decreases |ps|
  {
    if |ps| > 0 {
      RowCount(ps[..|ps| - 1], formatDate);
    }
  }

  /** Record `j` of period `i` is exported at row RecordCount(ps[..i]) + j:
      periods in list order, and within a period base records before one-offs. */
  lemma {:induction false} RowsInOrder(ps: seq<Period>, formatDate: int -> string, i: nat, j: nat)
    requires i < |ps| && j < |Records(ps[i])|
    ensures RecordCount(ps[..i]) + j < |RowsOf(ps, formatDate)|
    ensures RowsOf(ps, formatDate)[RecordCount(ps[..i]) + j] == RecordRow(ps[i], Records(ps[i])[j], formatDate)
    decreases |ps|
  {
    var last := |ps| - 1;
    var front := ps[..last];
    RowCount(front, formatDate);
    RowCount(ps, formatDate);
    if i == last {
      assert front == ps[..i];
    } else {
      assert front[..i] == ps[..i];
      assert front[i] == ps[i];
      RowsInOrder(front, formatDate, i, j);
      RecordCountPrefix(front, i);
    }
  }

  /** A prefix never holds more records than the whole list. */
  lemma {:induction false} RecordCountPrefix(ps: seq<Period>, i: nat)
    requires i < |ps|
    ensures RecordCount(ps[..i]) + |Records(ps[i])| <= RecordCount(ps)
    decreases |ps|
  {
    var last := |ps| - 1;
    if i < last {
      assert ps[..last][..i] == ps[..i];
      RecordCountPrefix(ps[..last], i);
    } else {
      assert ps[..last] == ps[..i];
    }
  }

  function TrackName(t: Track): string {
    match t
    case A => "A"
    case B => "B"
  }

  function StatusName(s: Status): string {
    match s
    case Pending => "pending"
    case Paid => "paid"
    case Cleared => "cleared"
  }

  /** The eight fields of a row, in header order. */
  function Cells(r: Row, showNumber: real -> string): (cs: seq<string>)
    ensures |cs| == |Headers|
    ensures cs[2] == r.date && cs[3] == r.description && cs[4] == r.category
    ensures cs[0] == showNumber(r.period as real) && cs[7] == showNumber(r.cleared)
  {
    [showNumber(r.period as real), TrackName(r.track), r.date, r.description, r.category,
     showNumber(r.amount), StatusName(r.status), showNumber(r.cleared)]
  }

  /** JavaScript `Array.prototype.join`. */
  function Join(xs: seq<string>, sep: string): string {
    if |xs| == 0 then ""
    else if |xs| == 1 then xs[0]
    else Join(xs[..|xs| - 1], sep) + sep + xs[|xs| - 1]
  }

  function Lines(rows: seq<Row>, showNumber: real -> string): (ls: seq<string>)
    ensures |ls| == |rows|
  {
    seq(|rows|, k requires 0 <= k < |rows| => Join(Cells(rows[k], showNumber), ","))
  }

  /** The whole file: the header line, then one line per row. */
  function Csv(rows: seq<Row>, showNumber: real -> string): string {
    Join([Join(Headers, ",")] + Lines(rows, showNumber), "\n")
  }

  /** `exportToCSV` up to the download: the text of the file. */
  method ExportToCsv(ps: seq<Period>, formatDate: int -> string, showNumber: real -> string)
    returns (csvContent: string)
    ensures csvContent == Csv(RowsOf(ps, formatDate), showNumber)
  {
    var rows := ExportRows(ps, formatDate);
    csvContent := Join([Join(Headers, ",")] + Lines(rows, showNumber), "\n");
  }

  /** Occurrences of `c` in `s`. */
  function Count(s: string, c: char): nat {
    if |s| == 0 then 0 else (if s[0] == c then 1 else 0) + Count(s[1..], c)
  }

  /** Occurrences of `c` in all of `xs`. */
  function CountAll(xs: seq<string>, c: char): nat {
    if |xs| == 0 then 0 else CountAll(xs[..|xs| - 1], c) + Count(xs[|xs| - 1], c)
  }

  lemma {:induction false} CountAppend(a: string, b: string, c: char)
    ensures Count(a + b, c) == Count(a, c) + Count(b, c)
    decreases |a|
  {
    if |a| == 0 {
      assert a + b == b;
    } else {
      assert (a + b)[1..] == a[1..] + b;
      CountAppend(a[1..], b, c);
    }
  }

  /** Joining with a one-character separator adds that character once
      between each pair of neighbours and no other character. */
  lemma {:induction false} JoinCount(xs: seq<string>, sep: char, c: char)
    ensures |xs| >= 1 ==> Count(Join(xs, [sep]), c) == CountAll(xs, c) + (if sep == c then |xs| - 1 else 0)
    ensures |xs| == 0 ==> Count(Join(xs, [sep]), c) == 0
    decreases |xs|
  {
    if |xs| == 1 {
      assert xs[..0] == [];
    } else if |xs| > 1 {
      var front := xs[..|xs| - 1];
      JoinCount(front, sep, c);
      CountAppend(Join(front, [sep]), [sep], c);
      CountAppend(Join(front, [sep]) + [sep], xs[|xs| - 1], c);
      assert Count([sep], c) == (if sep == c then 1 else 0) by {
        assert [sep][1..] == [];
      }
    }
  }

  /** The header line has seven commas, one between each pair of headers. */
  lemma HeaderCommas()
    ensures Count(Join(Headers, ","), ',') == 7
  {
    JoinCount(Headers, ',', ',');
    HeadersFree(',');
  }

  /** No header contains a comma or a newline. */
  lemma HeadersFree(c: char)
    requires c == ',' || c == '\n'
    ensures CountAll(Headers, c) == 0
  {
    forall k | 0 <= k < |Headers|
      ensures Count(Headers[k], c) == 0
    {
      Absent(Headers[k], c);
    }
    NoneCounted(Headers, c);
  }

  lemma {:induction false} Absent(s: string, c: char)
    requires c !in s
    ensures Count(s, c) == 0
    decreases |s|
  {
    if |s| > 0 {
      assert s == [s[0]] + s[1..];
      Absent(s[1..], c);
    }
  }

  /** No quoting: the line of a row has seven commas plus every comma its
      fields contain, so a field holding a comma shifts the columns. */
  lemma RowCommas(r: Row, showNumber: real -> string)
    ensures Count(Join(Cells(r, showNumber), ","), ',') == 7 + CountAll(Cells(r, showNumber), ',')
    ensures Count(r.description, ',') > 0 ==> Count(Join(Cells(r, showNumber), ","), ',') > 7
  {
    var cs := Cells(r, showNumber);
    JoinCount(cs, ',', ',');
    assert CountAll(cs, ',') >= Count(cs[3], ',') by {
      assert cs[..4][..3] == cs[..3];
      CountAllPrefix(cs, 4);
    }
  }

  lemma {:induction false} CountAllPrefix(xs: seq<string>, k: nat)
    requires 0 < k <= |xs|
    ensures CountAll(xs, ',') >= CountAll(xs[..k], ',') >= Count(xs[k - 1], ',')
    decreases |xs|
  {
    assert xs[..k][..k - 1] == xs[..k - 1];
    if k < |xs| {
      assert xs[..|xs| - 1][..k] == xs[..k];
      CountAllPrefix(xs[..|xs| - 1], k);
    } else {
      assert xs[..k] == xs;
    }
  }

  /** When no field contains a newline the file has one line per row after
      the header: exactly |rows| newline characters. */
  lemma LineCount(rows: seq<Row>, showNumber: real -> string)
    requires forall k :: 0 <= k < |rows| ==> CountAll(Cells(rows[k], showNumber), '\n') == 0
    ensures Count(Csv(rows, showNumber), '\n') == |rows|
  {
    var ls := [Join(Headers, ",")] + Lines(rows, showNumber);
    JoinCount(ls, '\n', '\n');
    forall k | 0 <= k < |ls|
      ensures Count(ls[k], '\n') == 0
    {
      if k == 0 {
        JoinCount(Headers, ',', '\n');
        HeadersFree('\n');
      } else {
        JoinCount(Cells(rows[k - 1], showNumber), ',', '\n');
      }
    }
    NoneCounted(ls, '\n');
  }

  lemma {:induction false} NoneCounted(xs: seq<string>, c: char)
    requires forall k :: 0 <= k < |xs| ==> Count(xs[k], c) == 0
    ensures CountAll(xs, c) == 0
    decreases |xs|
  {
    if |xs| > 0 {
      NoneCounted(xs[..|xs| - 1], c);
    }
  }
}
