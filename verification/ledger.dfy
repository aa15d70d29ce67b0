/**
 * The ledger store: the ledger file as a value, the effect of creating it and
 * of appending a row to it, the date-range query with its summary, and the
 * `Ledger` object whose methods update the file in place.
 */
module LedgerStore {
  import opened Wrappers
  import opened Dates
  import opened Transactions

  /**
   * The ledger file: absent, or present with or without the header line,
   * followed by its data rows in the order they were appended.
   */
  datatype LedgerFile = Missing | Present(hasHeader: bool, rows: seq<Row>)

  /** A present file is never empty: it holds the header or at least one row. */
  predicate WellFormed(f: LedgerFile) {
    f.Present? ==> f.hasHeader || f.rows != []
  }

  /** The data rows of the file; none when it is absent. */
  function StoredRows(f: LedgerFile): seq<Row> {
    if f.Missing? then [] else f.rows
  }

  /** The file after `initialize_csv`: an existing file is kept as it is, a missing one is created with the header only. */
  function Initialized(f: LedgerFile): (g: LedgerFile)
    requires WellFormed(f)
    ensures WellFormed(g) && g.Present?
    ensures f.Present? ==> g == f
    ensures f.Missing? ==> g.hasHeader && g.rows == []
  {
    if f.Missing? then Present(true, []) else f
  }

  /**
   * The file after `add_entry`: one row appended at the end. Appending to a
   * missing file creates it without the header line.
   */
  function Appended(f: LedgerFile, row: Row): (g: LedgerFile)
    ensures WellFormed(g) && g.Present?
    ensures g.rows == StoredRows(f) + [row]
    ensures g.hasHeader <==> f.Present? && f.hasHeader
  {
    match f
    case Missing => Present(false, [row])
    case Present(h, rows) => Present(h, rows + [row])
  }

  /** What the query returns: the matching entries and, when there are any, their summary. */
  datatype Report = Report(rows: seq<Entry>, summary: Option<Summary>)

  /** Every date cell loads and both bounds parse. */
  predicate TableCanRun(rows: seq<Row>, start: string, end: string) {
    AllDatesLoad(rows) && ParseDate(start).Some? && ParseDate(end).Some?
  }

  /** The file has its header and the query over its rows can run. */
  predicate QueryCanRun(f: LedgerFile, start: string, end: string) {
    f.Present? && f.hasHeader && TableCanRun(f.rows, start, end)
  }

  /** The report on a set of matching entries: a summary only when there is at least one. */
  function ReportOf(matched: seq<Entry>): Report {
    Report(matched, if matched == [] then None else Some(Summarize(matched)))
  }

  /**
   * The query over data rows read under the right column names: convert the
   * date column and the two bounds, keep the rows inside the inclusive
   * window, and summarise them.
   */
  function TableQuery(rows: seq<Row>, start: string, end: string): (r: Option<Report>)
    ensures r.Some? <==> TableCanRun(rows, start, end)
    ensures r.Some? ==> (r.value.summary.None? <==> r.value.rows == [])
    ensures r.Some? ==> forall e :: e in r.value.rows ==> InWindow(e.date, ParseDate(start).value, ParseDate(end).value)
    ensures r.Some? && r.value.summary.Some? ==>
              r.value.summary.value.totalIncome == Total(r.value.rows, Income)
              && r.value.summary.value.totalExpense == Total(r.value.rows, Expense)
              && r.value.summary.value.balance == r.value.summary.value.totalIncome - r.value.summary.value.totalExpense
  {
    var loaded := LoadAll(rows);
    var s := ParseDate(start);
    var t := ParseDate(end);
    if loaded.None? || s.None? || t.None? then None
    else Some(ReportOf(Within(loaded.value, s.value, t.value)))
  }

  /** The text cells of a row, which can serve as column names when the row is read as a header. */
  datatype TextColumn = DateCells | CategoryCells | DescriptionCells

  function Cell(row: Row, c: TextColumn): string {
    match c
    case DateCells => row.date
    case CategoryCells => row.category
    case DescriptionCells => row.description
  }

  /**
   * The column that a header row gives the name `name`: its first text cell
   * equal to `name` (a repeated name is renamed from the second occurrence on,
   * and the amount cell names a column by its numeral, which is never one of
   * the names the query looks up).
   */
  function ColumnNamed(header: Row, name: string): (c: Option<TextColumn>)
    ensures c.None? <==> header.date != name && header.category != name && header.description != name
    ensures c.Some? ==> Cell(header, c.value) == name
    ensures c.Some? && c.value != DateCells ==> header.date != name
    ensures c == Some(DescriptionCells) ==> header.category != name
  {
    if header.date == name then Some(DateCells)
    else if header.category == name then Some(CategoryCells)
    else if header.description == name then Some(DescriptionCells)
    else None
  }

  /** The rows as the query sees them when the column `c` is read as the date column. */
  function DatesFrom(rows: seq<Row>, c: TextColumn): seq<Row> {
    seq(|rows|, i requires 0 <= i < |rows| => rows[i].(date := Cell(rows[i], c)))
  }

  /**
   * `get_transaction`. With the header, the table query over the stored rows.
   * A missing file, or an empty one, fails. Without the header, the first row
   * is taken for the header: the query fails unless one of its text cells is
   * `date`, runs the date conversion and the mask over the remaining rows with
   * that column as the date column, and fails at the category totals as soon
   * as a row matches: for want of a `category` or an `amount` column, or, when
   * the first row names both, because the typing of the text column read as
   * amounts is not modelled.
   */
  function Query(f: LedgerFile, start: string, end: string): (r: Option<Report>)
    ensures f.Missing? ==> r.None?
    ensures f.Present? && f.hasHeader ==> (r.Some? <==> QueryCanRun(f, start, end))
    ensures f.Present? && !f.hasHeader && r.Some? ==> r.value == Report([], None)
    ensures r.Some? ==> ParseDate(start).Some? && ParseDate(end).Some?
    ensures r.Some? ==> (r.value.summary.None? <==> r.value.rows == [])
    ensures r.Some? ==> forall e :: e in r.value.rows ==> InWindow(e.date, ParseDate(start).value, ParseDate(end).value)
    ensures r.Some? && r.value.summary.Some? ==>
              r.value.summary.value.totalIncome == Total(r.value.rows, Income)
              && r.value.summary.value.totalExpense == Total(r.value.rows, Expense)
              && r.value.summary.value.balance == r.value.summary.value.totalIncome - r.value.summary.value.totalExpense
  {
    match f
    case Missing => None
    case Present(hasHeader, rows) =>
      if hasHeader then TableQuery(rows, start, end)
      else if rows == [] then None
      else match ColumnNamed(rows[0], Columns[0])
        case None => None
        case Some(c) =>
          var r := TableQuery(DatesFrom(rows[1..], c), start, end);
          if r.Some? && r.value.rows != [] then None else r
  }

  lemma QueryWhenRunnable(f: LedgerFile, start: string, end: string)
    requires QueryCanRun(f, start, end)
    ensures Query(f, start, end) == Some(ReportOf(Within(LoadAll(f.rows).value, ParseDate(start).value, ParseDate(end).value)))
  {
  }

  // Properties of the store

  lemma InitializeIdempotent(f: LedgerFile)
    requires WellFormed(f)
    ensures Initialized(Initialized(f)) == Initialized(f)
    ensures StoredRows(Initialized(f)) == StoredRows(f)
  {
  }

  /** Appending keeps every earlier row in place and grows the file by exactly one row. */
  lemma AppendGrowsByOne(f: LedgerFile, row: Row)
    ensures |StoredRows(Appended(f, row))| == |StoredRows(f)| + 1
    ensures StoredRows(Appended(f, row))[|StoredRows(f)|] == row
    ensures forall i :: 0 <= i < |StoredRows(f)| ==> StoredRows(Appended(f, row))[i] == StoredRows(f)[i]
  {
  }

  // Properties of the query

  /**
   * The result holds exactly the loaded rows whose date lies in the window,
   * in the order they are stored (the loaded rows correspond one-to-one to
   * the stored ones, see `LoadAll`).
   */
  lemma QueryKeepsRowsInRange(f: LedgerFile, start: string, end: string)
    requires QueryCanRun(f, start, end)
    ensures var rows := Query(f, start, end).value.rows;
            var s, t := ParseDate(start).value, ParseDate(end).value;
            && IsSubsequenceOf(rows, LoadAll(f.rows).value)
            && forall e :: e in rows <==> e in LoadAll(f.rows).value && InWindow(e.date, s, t)
  {
    var es := LoadAll(f.rows).value;
    var s, t := ParseDate(start).value, ParseDate(end).value;
    QueryWhenRunnable(f, start, end);
    WithinIsSubsequence(es, s, t);
  }

  /** A window whose start is after its end matches nothing, so no summary is reported. */
  lemma QueryReversedWindowIsEmpty(f: LedgerFile, start: string, end: string)
    requires Query(f, start, end).Some?
    requires !LessEq(ParseDate(start).value, ParseDate(end).value)
    ensures Query(f, start, end).value == Report([], None)
  {
    if f.hasHeader {
      WithinEmptyWhenReversed(LoadAll(f.rows).value, ParseDate(start).value, ParseDate(end).value);
    }
  }

  /**
   * Adding one row to a queryable ledger: if its date cell does not load,
   * every later query fails; otherwise the new result is the old one followed
   * by the new entry exactly when its date is in the window (never for a
   * missing date), and the totals grow by the new entry's share.
   */
  lemma QueryAfterAppend(f: LedgerFile, row: Row, start: string, end: string)
    requires QueryCanRun(f, start, end)
    ensures LoadDate(row.date).None? ==> Query(Appended(f, row), start, end).None?
    ensures LoadDate(row.date).Some? ==>
              var before := Query(f, start, end).value.rows;
              var e := Entry(LoadDate(row.date).value, row.amount, row.category, row.description);
              var r := Query(Appended(f, row), start, end);
              && r.Some?
              && (InWindow(e.date, ParseDate(start).value, ParseDate(end).value) ==>
                    && r.value.rows == before + [e]
                    && r.value.summary.Some?
                    && r.value.summary.value.totalIncome == Total(before, Income) + Share(e, Income)
                    && r.value.summary.value.totalExpense == Total(before, Expense) + Share(e, Expense))
              && (!InWindow(e.date, ParseDate(start).value, ParseDate(end).value) ==> r.value == Query(f, start, end).value)
  {
    var g := Appended(f, row);
    LoadAllAppend(f.rows, row);
    if LoadDate(row.date).Some? {
      var es := LoadAll(f.rows).value;
      var e := Load(row).value;
      var s, t := ParseDate(start).value, ParseDate(end).value;
      assert LoadAll(g.rows) == Some(es + [e]);
      QueryWhenRunnable(f, start, end);
      QueryWhenRunnable(g, start, end);
      WithinAppend(es, [e], s, t);
      var before := Within(es, s, t);
      if InWindow(e.date, s, t) {
        assert Within([e], s, t) == [e];
        TotalAppend(before, [e], Income);
        TotalAppend(before, [e], Expense);
      } else {
        assert Within([e], s, t) == [];
        assert before + [] == before;
      }
    }
  }

  /**
   * A transaction added, after initialisation, with a valid date written in the
   * fixed format is returned, as the last entry and with its amount, category
   * and description unchanged, by any query whose window contains its date.
   */
  lemma AddedEntryIsReturned(f: LedgerFile, d: Date, amount: int, category: string, description: string,
                             start: string, end: string)
    requires WellFormed(f) && QueryCanRun(Initialized(f), start, end)
    requires IsValid(d) && InRange(d, ParseDate(start).value, ParseDate(end).value)
    ensures var r := Query(Appended(Initialized(f), Row(FormatDate(d), amount, category, description)), start, end);
            r.Some? && |r.value.rows| > 0 && r.value.rows[|r.value.rows| - 1] == Entry(At(d), amount, category, description)
  {
    ParseFormatted(d);
    QueryAfterAppend(Initialized(f), Row(FormatDate(d), amount, category, description), start, end);
  }

  /**
   * `add_entry` on a ledger that was never initialised writes no header, and
   * the first data row is then read as the header. Whatever is appended after
   * it, a query fails unless a text cell of that row is literally `date`, and
   * even then the model reports nothing but an empty result. (The source
   * reports the matching rows and totals when that row's text cells are
   * `date`, `category` and `amount` in some order and, besides, the column
   * named `amount` is read as numbers or no matching row is `Income` or
   * `Expense`; the model fails there. Otherwise a text total makes the
   * source's formatting of the totals fail, as the model does.)
   */
  lemma AppendWithoutInitializeHidesRows(row: Row, more: seq<Row>, start: string, end: string)
    ensures var f := Appended(Missing, row);
            var r := Query(Present(f.hasHeader, f.rows + more), start, end);
            && (ColumnNamed(row, Columns[0]).None? ==> r.None?)
            && (r.Some? ==> r.value == Report([], None))
  {
    var f := Appended(Missing, row);
    assert (f.rows + more)[0] == row;
  }

  /** A freshly initialised ledger answers every well-formed query with no rows and no summary. */
  lemma QueryFreshLedger(start: string, end: string)
    requires ParseDate(start).Some? && ParseDate(end).Some?
    ensures Query(Initialized(Missing), start, end) == Some(Report([], None))
    ensures Query(Missing, start, end).None?
  {
  }

  /**
   * The worked example: a salary of 100.00 on 1 March 2024 and groceries of
   * 40.00 on 2 March 2024, queried over those two days.
   */
  lemma QueryExample()
    ensures var salary := Row("01-03-2024", 10000, Income, "salary");
            var groceries := Row("02-03-2024", 4000, Expense, "groceries");
            var f := Appended(Appended(Initialized(Missing), salary), groceries);
            Query(f, "01-03-2024", "02-03-2024")
              == Some(Report([Entry(At(Date(1, 3, 2024)), 10000, Income, "salary"),
                              Entry(At(Date(2, 3, 2024)), 4000, Expense, "groceries")],
                             Some(Summary(10000, 4000, 6000))))
  {
    var salary := Row("01-03-2024", 10000, Income, "salary");
    var groceries := Row("02-03-2024", 4000, Expense, "groceries");
    var first, second := Date(1, 3, 2024), Date(2, 3, 2024);
    var e1, e2 := Entry(At(first), 10000, Income, "salary"), Entry(At(second), 4000, Expense, "groceries");
    ExampleDatesParse();
    assert Load(salary) == Some(e1) && Load(groceries) == Some(e2);
    assert [] + [salary] == [salary];
    LoadAllAppend([], salary);
    LoadAllAppend([salary], groceries);
    assert [salary] + [groceries] == [salary, groceries];
    assert LoadAll([salary]) == Some([e1]) by {
      assert [] + [e1] == [e1];
    }
    assert [e1] + [e2] == [e1, e2];
    assert LoadAll([salary, groceries]) == Some([e1, e2]);
    ExampleSummary(e1, e2);
  }

  /**
   * A row whose date cell is empty loads as "not a time" and is left out by
   * the mask, while the other rows are still answered: an empty-dated tip of
   * 5.00 and a salary of 100.00 on 1 March 2024, queried over that day.
   */
  lemma QueryMissingDateExample()
    ensures var tip := Row("", 500, Expense, "tip");
            var salary := Row("01-03-2024", 10000, Income, "salary");
            var f := Appended(Appended(Initialized(Missing), tip), salary);
            Query(f, "01-03-2024", "01-03-2024")
              == Some(Report([Entry(At(Date(1, 3, 2024)), 10000, Income, "salary")], Some(Summary(10000, 0, 10000))))
  {
    var tip := Row("", 500, Expense, "tip");
    var salary := Row("01-03-2024", 10000, Income, "salary");
    var f := Appended(Appended(Initialized(Missing), tip), salary);
    var e0, e1 := Entry(NotATime, 500, Expense, "tip"), Entry(At(Date(1, 3, 2024)), 10000, Income, "salary");
    assert f.rows == [tip, salary];
    MissingDateLoads(tip, salary, e0, e1);
    ExampleDatesParse();
    QueryWhenRunnable(f, "01-03-2024", "01-03-2024");
    MissingDateSummary(e0, e1);
  }

  lemma MissingDateLoads(tip: Row, salary: Row, e0: Entry, e1: Entry)
    requires tip == Row("", 500, Expense, "tip") && salary == Row("01-03-2024", 10000, Income, "salary")
    requires e0 == Entry(NotATime, 500, Expense, "tip") && e1 == Entry(At(Date(1, 3, 2024)), 10000, Income, "salary")
    ensures LoadAll([tip, salary]) == Some([e0, e1])
  {
    ExampleDatesParse();
    assert Load(tip) == Some(e0) && Load(salary) == Some(e1);
    assert [] + [tip] == [tip];
    LoadAllAppend([], tip);
    LoadAllAppend([tip], salary);
    assert [tip] + [salary] == [tip, salary];
    assert LoadAll([tip]) == Some([e0]) by {
      assert [] + [e0] == [e0];
    }
    assert [e0] + [e1] == [e0, e1];
  }

  lemma MissingDateSummary(e0: Entry, e1: Entry)
    requires e0 == Entry(NotATime, 500, Expense, "tip") && e1 == Entry(At(Date(1, 3, 2024)), 10000, Income, "salary")
    ensures ReportOf(Within([e0, e1], Date(1, 3, 2024), Date(1, 3, 2024))) == Report([e1], Some(Summary(10000, 0, 10000)))
  {
    var day := Date(1, 3, 2024);
    WithinAppend([e0], [e1], day, day);
    assert [e0] + [e1] == [e0, e1];
    assert Within([e0, e1], day, day) == [e1];
    TotalAppend([], [e1], Income);
    TotalAppend([], [e1], Expense);
    assert [] + [e1] == [e1];
  }

  /**
   * A ledger written without its header whose first row's date cell is the
   * text `date`: that row is read as the header, and a window matching none
   * of the remaining rows is answered with an empty result.
   */
  lemma HeaderlessDateColumnExample()
    ensures Query(Appended(Missing, Row("date", 0, "x", "y")), "01-03-2024", "02-03-2024") == Some(Report([], None))
  {
    ExampleDatesParse();
    assert DatesFrom([Row("date", 0, "x", "y")][1..], DateCells) == [];
  }

  lemma ExampleDatesParse()
    ensures ParseDate("01-03-2024") == Some(Date(1, 3, 2024))
    ensures ParseDate("02-03-2024") == Some(Date(2, 3, 2024))
  {
    var first, second := Date(1, 3, 2024), Date(2, 3, 2024);
    assert IsValid(first) && IsValid(second);
    ExampleNumerals();
    assert FormatDate(first) == "01-03-2024";
    assert FormatDate(second) == "02-03-2024";
    ParseFormatted(first);
    ParseFormatted(second);
  }

  lemma ExampleNumerals()
    ensures Numeral(2024, 4) == "2024"
    ensures Numeral(1, 2) == "01" && Numeral(2, 2) == "02" && Numeral(3, 2) == "03"
  {
    assert Numeral(2, 1) == "2";
    assert Numeral(20, 2) == "20";
    assert Numeral(202, 3) == "202";
  }

  lemma ExampleSummary(e1: Entry, e2: Entry)
    requires e1 == Entry(At(Date(1, 3, 2024)), 10000, Income, "salary")
    requires e2 == Entry(At(Date(2, 3, 2024)), 4000, Expense, "groceries")
    ensures Within([e1, e2], Date(1, 3, 2024), Date(2, 3, 2024)) == [e1, e2]
    ensures Summarize([e1, e2]) == Summary(10000, 4000, 6000)
  {
    WithinAppend([e1], [e2], Date(1, 3, 2024), Date(2, 3, 2024));
    assert [e1] + [e2] == [e1, e2];
    ExampleTotals(e1, e2, Income);
    ExampleTotals(e1, e2, Expense);
  }

  lemma ExampleTotals(e1: Entry, e2: Entry, category: string)
    ensures Total([e1, e2], category) == Share(e1, category) + Share(e2, category)
  {
    assert [e1] + [e2] == [e1, e2];
    TotalAppend([e1], [e2], category);
    TotalAppend([], [e1], category);
    TotalAppend([], [e2], category);
  }

  /** The ledger object; its state is the ledger file. */
  class Ledger {
    var fileExists: bool
    var hasHeader: bool
    var rows: seq<Row>

    ghost predicate Valid()
      reads this
    {
      (!fileExists ==> !hasHeader && rows == []) && WellFormed(File())
    }

    function File(): LedgerFile
      reads this
    {
      if fileExists then Present(hasHeader, rows) else Missing
    }

    /** A ledger whose file does not exist yet. */
    constructor ()
      ensures Valid() && File() == Missing
    {
      fileExists, hasHeader, rows := false, false, [];
    }

    /** `initialize_csv`: creates the file with the header when it is missing. */
    method Initialize()
      requires Valid()
      modifies this
      ensures Valid() && File() == Initialized(old(File()))
      ensures fileExists && rows == old(rows)
      ensures old(fileExists) ==> hasHeader == old(hasHeader)
    {
      if !fileExists {
        fileExists, hasHeader, rows := true, true, [];
      }
    }

    /** `add_entry`: appends one row, fields in column order, creating the file if needed. */
    method AddEntry(date: string, amount: int, category: string, description: string)
      requires Valid()
      modifies this
      ensures Valid() && File() == Appended(old(File()), Row(date, amount, category, description))
      ensures fileExists && rows == old(rows) + [Row(date, amount, category, description)]
      ensures hasHeader == old(hasHeader)
    {
      rows := rows + [Row(date, amount, category, description)];
      fileExists := true;
    }

    /** `get_transaction`: answers the query from the current file and changes nothing. */
    method GetTransaction(start: string, end: string) returns (r: Option<Report>)
      requires Valid()
      ensures r == Query(File(), start, end)
    {
      r := Query(File(), start, end);
    }
  }
}
