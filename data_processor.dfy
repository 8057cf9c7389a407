/**
 * `DataProcessor`: turns the "Transaction Details" sheet of a statement into
 * transaction rows and answers the two queries on them.
 *
 * The sheet is taken as already read (header row and cell values); what
 * `pd.to_datetime(errors='coerce')` and `pd.to_numeric(errors='coerce')` make
 * of a cell's text are the partial functions `parseDate` and `parseNum`.
 */
module DataProcessing {
  import opened Wrappers
  import opened Seqs
  import opened Text
  import opened Time

  /** A spreadsheet cell: empty (read as NaN) or a value, kept as its text. */
  datatype Cell = Blank | Raw(text: string)

  /** The sheet under its header row: column labels and the rows below them. */
  datatype Sheet = Sheet(labels: seq<string>, rows: seq<seq<Cell>>)

  /**
   * One surviving statement line. A numeric field or the description is None
   * exactly when the sheet has no such column.
   */
  datatype Txn = Txn(scheme: string, date: Instant, nav: Option<real>, units: Option<real>,
                     amount: Option<real>, description: Option<Cell>)

  /** The extracted frame: the columns it kept, and its rows. */
  datatype Frame = Frame(columns: seq<string>, rows: seq<Txn>)

  const Required: seq<string> := ["Scheme Name", "Date", "NAV", "Units", "Amount", "Transaction Description"]

  /** Where each kept column sits in the sheet; Scheme Name and Date must be there. */
  datatype Layout = Layout(scheme: nat, date: nat, nav: Option<nat>, units: Option<nat>,
                           amount: Option<nat>, description: Option<nat>)

  /** The labels with surrounding whitespace removed (the `rename` by `c.strip()`). */
  function Trimmed(labels: seq<string>): (r: seq<string>)
    ensures |r| == |labels|
    ensures forall j :: 0 <= j < |labels| ==> r[j] == Strip(labels[j])
  {
    seq(|labels|, j requires 0 <= j < |labels| => Strip(labels[j]))
  }

  /** The required columns that the sheet has, in the order of the required list. */
  function Available(labels: seq<string>): (r: seq<string>)
    ensures forall c :: c in r <==> c in Required && c in Trimmed(labels)
    ensures Distinct(r)
    ensures forall i, j :: 0 <= i < j < |r| ==> IndexOf(Required, r[i]).value < IndexOf(Required, r[j]).value
  {
    var trimmed := Trimmed(labels);
    var keep := (c: string) => c in trimmed;
    FilterKeepsOrder(Required, keep);
    Filter(Required, keep)
  }

  /**
   * The first column whose trimmed label is `name`. Matching is on trimmed
   * labels only: a label differs from `name` by surrounding whitespace at most.
   */
  function ColumnIndex(labels: seq<string>, name: string): (r: Option<nat>)
    ensures r.None? <==> forall j :: 0 <= j < |labels| ==> Strip(labels[j]) != name
    ensures r.Some? ==> r.value < |labels| && Strip(labels[r.value]) == name
    ensures r.Some? ==> forall j :: 0 <= j < r.value ==> Strip(labels[j]) != name
  {
    var trimmed := Trimmed(labels);
    var r := IndexOf(trimmed, name);
    assert r.None? ==> forall j :: 0 <= j < |labels| ==> trimmed[j] != name;
    r
  }

  /** The layout, or None when the Scheme Name or Date column is missing (a KeyError in the source). */
  function LayoutOf(labels: seq<string>): (r: Option<Layout>)
    ensures r.Some? <==> ColumnIndex(labels, "Scheme Name").Some? && ColumnIndex(labels, "Date").Some?
    ensures r.Some? ==> r.value.scheme == ColumnIndex(labels, "Scheme Name").value
    ensures r.Some? ==> r.value.date == ColumnIndex(labels, "Date").value
    ensures r.Some? ==> r.value.nav == ColumnIndex(labels, "NAV")
    ensures r.Some? ==> r.value.units == ColumnIndex(labels, "Units")
    ensures r.Some? ==> r.value.amount == ColumnIndex(labels, "Amount")
    ensures r.Some? ==> r.value.description == ColumnIndex(labels, "Transaction Description")
  {
    match (ColumnIndex(labels, "Scheme Name"), ColumnIndex(labels, "Date"))
    case (Some(s), Some(d)) =>
      Some(Layout(s, d, ColumnIndex(labels, "NAV"), ColumnIndex(labels, "Units"),
                  ColumnIndex(labels, "Amount"), ColumnIndex(labels, "Transaction Description")))
    case _ => None
  }

  /** The cell in column `j`; a short row reads as blank, as pandas pads it with NaN. */
  function CellAt(row: seq<Cell>, j: nat): Cell
  {
    if j < |row| then row[j] else Blank
  }

  /** `pd.to_datetime(errors='coerce')` for one cell: a blank cell is NaT, a value is parsed. */
  function DateOf(c: Cell, parseDate: string -> Option<Instant>): (r: Option<Instant>)
    ensures c.Blank? ==> r.None?
    ensures c.Raw? ==> r == parseDate(c.text)
  {
    match c
    case Blank => None
    case Raw(t) => parseDate(t)
  }

  /** `pd.to_numeric(errors='coerce').fillna(0)` for one cell. */
  function NumberOrZero(c: Cell, parseNum: string -> Option<real>): (x: real)
    ensures c.Blank? ==> x == 0.0
    ensures c.Raw? && parseNum(c.text).None? ==> x == 0.0
    ensures c.Raw? && parseNum(c.text).Some? ==> x == parseNum(c.text).value
  {
    match c
    case Blank => 0.0
    case Raw(t) => parseNum(t).GetOr(0.0)
  }

  /** One numeric field of a row: absent with its column, otherwise the coerced cell. */
  function NumericColumn(row: seq<Cell>, col: Option<nat>, parseNum: string -> Option<real>): (r: Option<real>)
    ensures r.Some? <==> col.Some?
    ensures col.Some? ==> r.value == NumberOrZero(CellAt(row, col.value), parseNum)
  {
    match col
    case None => None
    case Some(j) => Some(NumberOrZero(CellAt(row, j), parseNum))
  }

  /**
   * One sheet row: dropped (None) when its scheme name is blank or its date
   * does not parse; otherwise kept with its numbers coerced (0 when unparsable).
   */
  function ConvertRow(row: seq<Cell>, layout: Layout, parseDate: string -> Option<Instant>,
                      parseNum: string -> Option<real>): (r: Option<Txn>)
    ensures r.Some? <==> CellAt(row, layout.scheme).Raw? && DateOf(CellAt(row, layout.date), parseDate).Some?
    ensures r.Some? ==> r.value.scheme == CellAt(row, layout.scheme).text
    ensures r.Some? ==> r.value.date == DateOf(CellAt(row, layout.date), parseDate).value
    ensures r.Some? ==> (r.value.amount.Some? <==> layout.amount.Some?)
    ensures r.Some? ==> (r.value.units.Some? <==> layout.units.Some?)
    ensures r.Some? ==> (r.value.nav.Some? <==> layout.nav.Some?)
    ensures r.Some? ==> (r.value.description.Some? <==> layout.description.Some?)
    ensures r.Some? && layout.nav.Some? ==> r.value.nav == Some(NumberOrZero(CellAt(row, layout.nav.value), parseNum))
    ensures r.Some? && layout.units.Some? ==> r.value.units == Some(NumberOrZero(CellAt(row, layout.units.value), parseNum))
    ensures r.Some? && layout.amount.Some? ==> r.value.amount == Some(NumberOrZero(CellAt(row, layout.amount.value), parseNum))
    ensures r.Some? && layout.description.Some? ==> r.value.description == Some(CellAt(row, layout.description.value))
  {
    match CellAt(row, layout.scheme)
    case Blank => None
    case Raw(name) =>
      match DateOf(CellAt(row, layout.date), parseDate)
      case None => None
      case Some(d) =>
        Some(Txn(name, d,
                 NumericColumn(row, layout.nav, parseNum),
                 NumericColumn(row, layout.units, parseNum),
                 NumericColumn(row, layout.amount, parseNum),
                 match layout.description
                 case None => None
                 case Some(j) => Some(CellAt(row, j))))
  }

  /** The rows that survive `dropna` on Scheme Name and on the parsed Date, converted, in sheet order. */
  function ExtractRows(rows: seq<seq<Cell>>, layout: Layout, parseDate: string -> Option<Instant>,
                       parseNum: string -> Option<real>): (r: seq<Txn>)
    ensures |r| <= |rows|
    ensures forall k :: 0 <= k < |r| ==>
              exists i :: 0 <= i < |rows| && ConvertRow(rows[i], layout, parseDate, parseNum) == Some(r[k])
  {
    if |rows| == 0 then []
    else
      var init := rows[..|rows| - 1];
      var prefix := ExtractRows(init, layout, parseDate, parseNum);
      assert forall i :: 0 <= i < |init| ==> init[i] == rows[i];
      match ConvertRow(rows[|rows| - 1], layout, parseDate, parseNum)
      case None => prefix
      case Some(t) => prefix + [t]
  }

  /**
   * Extraction is a filter-and-convert over the rows: it distributes over
   * concatenation, so no row is reordered or duplicated.
   */
  lemma {:induction false} ExtractRowsConcat(a: seq<seq<Cell>>, b: seq<seq<Cell>>, layout: Layout,
                                             parseDate: string -> Option<Instant>, parseNum: string -> Option<real>)
    ensures ExtractRows(a + b, layout, parseDate, parseNum)
         == ExtractRows(a, layout, parseDate, parseNum) + ExtractRows(b, layout, parseDate, parseNum)
    decreases |b|
  {
    if |b| == 0 {
      assert a + b == a;
    } else {
      var init := b[..|b| - 1];
      assert (a + b)[..|a + b| - 1] == a + init;
      ExtractRowsConcat(a, init, layout, parseDate, parseNum);
    }
  }

  /** Extending the rows by one extends the result by that row converted, or by nothing. */
  lemma ExtractRowsStep(rows: seq<seq<Cell>>, i: nat, layout: Layout, parseDate: string -> Option<Instant>,
                        parseNum: string -> Option<real>)
    requires i < |rows|
    ensures ExtractRows(rows[..i + 1], layout, parseDate, parseNum)
         == ExtractRows(rows[..i], layout, parseDate, parseNum)
            + match ConvertRow(rows[i], layout, parseDate, parseNum)
              case None => []
              case Some(t) => [t]
  {
    assert rows[..i + 1][..i] == rows[..i];
  }

  /**
   * `load_data` as a value: None when the sheet is missing or lacks the
   * Scheme Name or Date column; otherwise the kept columns and rows.
   */
  function Extract(book: Option<Sheet>, parseDate: string -> Option<Instant>,
                   parseNum: string -> Option<real>): (r: Option<Frame>)
    ensures r.Some? <==> book.Some? && LayoutOf(book.value.labels).Some?
    ensures r.Some? ==> r.value.columns == Available(book.value.labels)
    ensures r.Some? ==> |r.value.rows| <= |book.value.rows|
    ensures r.Some? ==> r.value.rows == ExtractRows(book.value.rows, LayoutOf(book.value.labels).value, parseDate, parseNum)
  {
    match book
    case None => None
    case Some(sheet) =>
      match LayoutOf(sheet.labels)
      case None => None
      case Some(layout) => Some(Frame(Available(sheet.labels), ExtractRows(sheet.rows, layout, parseDate, parseNum)))
  }

  /** Every extracted row has a non-blank scheme name and a parsed date, both from one row of the sheet. */
  lemma ExtractRowsSound(rows: seq<seq<Cell>>, layout: Layout, parseDate: string -> Option<Instant>,
                         parseNum: string -> Option<real>)
    ensures var r := ExtractRows(rows, layout, parseDate, parseNum);
            forall k :: 0 <= k < |r| ==>
              exists i :: 0 <= i < |rows|
                && CellAt(rows[i], layout.scheme) == Raw(r[k].scheme)
                && DateOf(CellAt(rows[i], layout.date), parseDate) == Some(r[k].date)
  {
    var r := ExtractRows(rows, layout, parseDate, parseNum);
    forall k | 0 <= k < |r|
      ensures exists i :: 0 <= i < |rows|
                && CellAt(rows[i], layout.scheme) == Raw(r[k].scheme)
                && DateOf(CellAt(rows[i], layout.date), parseDate) == Some(r[k].date)
    {
      var i :| 0 <= i < |rows| && ConvertRow(rows[i], layout, parseDate, parseNum) == Some(r[k]);
      assert CellAt(rows[i], layout.scheme) == Raw(r[k].scheme);
    }
  }

  /** The frame's rows carry a numeric field exactly when the frame kept that column. */
  lemma ExtractColumnsMatchFields(book: Option<Sheet>, parseDate: string -> Option<Instant>,
                                  parseNum: string -> Option<real>)
    requires Extract(book, parseDate, parseNum).Some?
    ensures var f := Extract(book, parseDate, parseNum).value;
            forall k :: 0 <= k < |f.rows| ==>
              && (f.rows[k].amount.Some? <==> "Amount" in f.columns)
              && (f.rows[k].units.Some? <==> "Units" in f.columns)
              && (f.rows[k].nav.Some? <==> "NAV" in f.columns)
  {
    var f := Extract(book, parseDate, parseNum).value;
    var layout := LayoutOf(book.value.labels).value;
    var trimmed := Trimmed(book.value.labels);
    forall k | 0 <= k < |f.rows|
      ensures && (f.rows[k].amount.Some? <==> "Amount" in f.columns)
              && (f.rows[k].units.Some? <==> "Units" in f.columns)
              && (f.rows[k].nav.Some? <==> "NAV" in f.columns)
    {
      assert "Amount" in Required && "Units" in Required && "NAV" in Required;
      ColumnPresent(book.value.labels, "Amount");
      ColumnPresent(book.value.labels, "Units");
      ColumnPresent(book.value.labels, "NAV");
    }
  }

  lemma ColumnPresent(labels: seq<string>, name: string)
    ensures ColumnIndex(labels, name).Some? <==> name in Trimmed(labels)
  {
    var trimmed := Trimmed(labels);
    if name in trimmed {
      var j :| 0 <= j < |trimmed| && trimmed[j] == name;
      assert Strip(labels[j]) == name;
    }
  }

  function TxnDate(t: Txn): Instant { t.date }

  function SchemeNames(rows: seq<Txn>): (names: seq<string>)
    ensures |names| == |rows|
    ensures forall i :: 0 <= i < |rows| ==> names[i] == rows[i].scheme
  {
    seq(|rows|, i requires 0 <= i < |rows| => rows[i].scheme)
  }

  /** The rows of one scheme, in frame order (the mask `Scheme Name == name`). */
  function OfScheme(rows: seq<Txn>, name: string): (r: seq<Txn>)
    ensures forall t :: t in r <==> t in rows && t.scheme == name
    ensures forall t :: multiset(r)[t] == if t.scheme == name then multiset(rows)[t] else 0
  {
    Filter(rows, (t: Txn) => t.scheme == name)
  }

  class DataProcessor {
    /** The last successfully loaded frame; None before any successful load. */
    var transactions: Option<Frame>

    constructor ()
      ensures transactions.None?
    {
      transactions := None;
    }

    /**
     * `load_data`: extracts `book` (the sheet as read, None when it is
     * missing). On success the frame becomes `transactions`; on failure
     * `transactions` keeps its previous value.
     */
    method LoadData(book: Option<Sheet>, parseDate: string -> Option<Instant>, parseNum: string -> Option<real>)
      returns (df: Option<Frame>)
      modifies this
      ensures df == Extract(book, parseDate, parseNum)
      ensures transactions == if df.Some? then df else old(transactions)
    {
      if book.None? {
        return None;
      }
      var sheet := book.value;
      var layout := LayoutOf(sheet.labels);
      if layout.None? {
        return None;
      }
      var kept: seq<Txn> := [];
      var i := 0;
      while i < |sheet.rows|
        invariant 0 <= i <= |sheet.rows|
        invariant kept == ExtractRows(sheet.rows[..i], layout.value, parseDate, parseNum)
      {
        var row := sheet.rows[i];
        ExtractRowsStep(sheet.rows, i, layout.value, parseDate, parseNum);
        var t := ConvertRow(row, layout.value, parseDate, parseNum);
        if t.Some? {
          kept := kept + [t.value];
        }
        i := i + 1;
      }
      assert sheet.rows[..i] == sheet.rows;
      df := Some(Frame(Available(sheet.labels), kept));
      transactions := df;
    }

    /**
     * `get_schemes`: the distinct scheme names of the loaded frame in order
     * of first appearance; the empty list before a successful load.
     */
    function Schemes(): (names: seq<string>)
      reads this
      ensures transactions.None? ==> names == []
      ensures Distinct(names)
      ensures transactions.Some? ==>
                forall n :: n in names <==> exists t :: t in transactions.value.rows && t.scheme == n
      ensures transactions.Some? ==> forall n :: n in names <==> n in SchemeNames(transactions.value.rows)
      ensures transactions.Some? ==>
                forall i, j :: 0 <= i < j < |names| ==>
                  IndexOf(SchemeNames(transactions.value.rows), names[i]).value
                    < IndexOf(SchemeNames(transactions.value.rows), names[j]).value
    {
      match transactions
      case None => []
      case Some(f) =>
        var all := SchemeNames(f.rows);
        assert forall n :: n in all <==> exists t :: t in f.rows && t.scheme == n by {
          forall n ensures n in all <==> exists t :: t in f.rows && t.scheme == n {
            if n in all {
              var i :| 0 <= i < |all| && all[i] == n;
              assert f.rows[i] in f.rows;
            }
            if exists t :: t in f.rows && t.scheme == n {
              var t :| t in f.rows && t.scheme == n;
              var i :| 0 <= i < |f.rows| && f.rows[i] == t;
              assert all[i] == n;
            }
          }
        }
        Unique(all)
    }

    /**
     * `get_transactions_for_scheme(name)`: exactly the rows of that scheme,
     * as a permutation sorted by date; empty before a successful load.
     */
    function TransactionsFor(name: string): (r: seq<Txn>)
      reads this
      ensures transactions.None? ==> r == []
      ensures SortedBy(r, TxnDate)
      ensures forall t :: t in r ==> t.scheme == name
      ensures transactions.Some? ==> multiset(r) == multiset(OfScheme(transactions.value.rows, name))
      ensures transactions.Some? ==> forall t :: t in r <==> t in transactions.value.rows && t.scheme == name
    {
      match transactions
      case None => []
      case Some(f) =>
        var r := SortBy(OfScheme(f.rows, name), TxnDate);
        assert forall t :: t in r <==> t in multiset(r);
        r
    }
  }
}
