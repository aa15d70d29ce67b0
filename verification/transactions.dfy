/**
 * Transactions of the ledger and the pure part of the date-range query:
 * loading the stored rows, keeping the rows inside an inclusive date window,
 * and summing amounts by category.
 */
module Transactions {
  import opened Wrappers
  import opened Dates

  /** The two categories the summary distinguishes; the match is exact. */
  const Income := "Income"
  const Expense := "Expense"

  /** The header of the ledger file: the column names in the order rows are written. */
  const Columns: seq<string> := ["date", "amount", "category", "description"]

  /**
   * A row as it is stored in the ledger file, fields in column order. The date
   * is kept as the text that was written; amounts are in cents.
   */
  datatype Row = Row(date: string, amount: int, category: string, description: string)

  /**
   * A loaded date cell: a calendar date, or "not a time" for a cell that the
   * table reader takes for a missing value.
   */
  datatype Stamp = NotATime | At(date: Date)

  /** A row as the query sees it once its date cell has been converted. */
  datatype Entry = Entry(date: Stamp, amount: int, category: string, description: string)

  /** Totals of a non-empty query result; amounts in cents. */
  datatype Summary = Summary(totalIncome: int, totalExpense: int, balance: int)

  // Loading

  /**
   * Cell texts that are read as a missing value (pandas' default NA markers,
   * together with the texts its date conversion treats as not-a-time). Such a
   * date converts without error to "not a time".
   */
  const MissingDateTexts: set<string> :=
    {"", "#N/A", "#N/A N/A", "#NA", "-1.#IND", "-1.#QNAN", "-NaN", "-nan", "1.#IND", "1.#QNAN",
     "<NA>", "N/A", "NA", "NULL", "NaN", "None", "n/a", "nan", "null", "NaT", "nat", "NAT", "NAN"}

  /** No text in the fixed date format is a missing-value marker. */
  lemma DateTextIsNotMissing(s: string)
    requires ParseDate(s).Some?
    ensures s !in MissingDateTexts
  {
  }

  /** Converts one date cell: None when it is neither a missing value nor a date in the fixed format. */
  function LoadDate(text: string): (r: Option<Stamp>)
    ensures r == Some(NotATime) <==> text in MissingDateTexts
    ensures ParseDate(text).Some? ==> r == Some(At(ParseDate(text).value))
    ensures r.None? <==> text !in MissingDateTexts && ParseDate(text).None?
  {
    if text in MissingDateTexts then Some(NotATime)
    else match ParseDate(text)
      case None => None
      case Some(d) => Some(At(d))
  }

  function Load(row: Row): (r: Option<Entry>)
    ensures r.Some? <==> LoadDate(row.date).Some?
    ensures r.Some? ==> LoadDate(row.date) == Some(r.value.date)
    ensures r.Some? ==> r.value.amount == row.amount && r.value.category == row.category
                        && r.value.description == row.description
  {
    var d := LoadDate(row.date);
    if d.None? then None else Some(Entry(d.value, row.amount, row.category, row.description))
  }

  predicate AllDatesLoad(rows: seq<Row>) {
    forall i :: 0 <= i < |rows| ==> LoadDate(rows[i].date).Some?
  }

  /**
   * Converts the date column of every row; a single date that is neither
   * missing nor in the fixed format makes the whole load fail.
   */
  function LoadAll(rows: seq<Row>): (r: Option<seq<Entry>>)
    ensures r.Some? <==> AllDatesLoad(rows)
    ensures r.Some? ==> |r.value| == |rows| && forall i :: 0 <= i < |rows| ==> Load(rows[i]) == Some(r.value[i])
  {
    if rows == [] then Some([])
    else
      var first := Load(rows[0]);
      var rest := LoadAll(rows[1..]);
      if first.None? || rest.None? then None
      else Some([first.value] + rest.value)
  }

  /** Loading a ledger with one more row: the load fails exactly when that row's date cell does not load. */
  lemma {:induction false} LoadAllAppend(rows: seq<Row>, row: Row)
    requires AllDatesLoad(rows)
    ensures Load(row).None? ==> LoadAll(rows + [row]).None?
    ensures Load(row).Some? ==> LoadAll(rows + [row]) == Some(LoadAll(rows).value + [Load(row).value])
  {
    if rows == [] {
      assert rows + [row] == [row];
      assert [row][1..] == [];
      if Load(row).Some? {
        var e := Load(row).value;
        assert [e] + [] == [e];
        assert LoadAll([row]) == Some([e]);
        assert LoadAll(rows).value + [e] == [e];
      }
    } else {
      var all := rows + [row];
      assert all[0] == rows[0] && all[1..] == rows[1..] + [row];
      assert AllDatesLoad(rows[1..]) by {
        forall i | 0 <= i < |rows[1..]| ensures LoadDate(rows[1..][i].date).Some? {
          assert rows[1..][i] == rows[i + 1];
        }
      }
      LoadAllAppend(rows[1..], row);
      if Load(row).Some? {
        var head := [Load(rows[0]).value];
        assert LoadAll(rows).value == head + LoadAll(rows[1..]).value;
        assert LoadAll(all).value == head + (LoadAll(rows[1..]).value + [Load(row).value]);
        assert head + (LoadAll(rows[1..]).value + [Load(row).value]) == LoadAll(rows).value + [Load(row).value];
        assert LoadAll(all) == Some(LoadAll(rows).value + [Load(row).value]);
      }
    }
  }

  // The date window

  /** The filter mask on dates: `start <= d <= end`, inclusive at both ends. */
  predicate InRange(d: Date, start: Date, end: Date) {
    LessEq(start, d) && LessEq(d, end)
  }

  /** The filter mask on a loaded cell: "not a time" fails both comparisons. */
  predicate InWindow(stamp: Stamp, start: Date, end: Date) {
    stamp.At? && InRange(stamp.date, start, end)
  }

  /** The entries whose date lies in the window, in their original order. */
  function Within(es: seq<Entry>, start: Date, end: Date): (r: seq<Entry>)
    ensures |r| <= |es|
    ensures forall e :: e in r <==> e in es && InWindow(e.date, start, end)
  {
    if es == [] then []
    else (if InWindow(es[0].date, start, end) then [es[0]] else []) + Within(es[1..], start, end)
  }

  /** `xs` is obtained from `ys` by deleting elements, the rest keeping their order. */
  predicate IsSubsequenceOf<T(==)>(xs: seq<T>, ys: seq<T>)
    decreases |ys|
  {
    if xs == [] then true
    else if ys == [] then false
    else (xs[0] == ys[0] && IsSubsequenceOf(xs[1..], ys[1..])) || IsSubsequenceOf(xs, ys[1..])
  }

  lemma {:induction false} WithinIsSubsequence(es: seq<Entry>, start: Date, end: Date)
    ensures IsSubsequenceOf(Within(es, start, end), es)
  {
    if es != [] {
      var rest := Within(es[1..], start, end);
      WithinIsSubsequence(es[1..], start, end);
      if InWindow(es[0].date, start, end) {
        assert Within(es, start, end) == [es[0]] + rest;
        assert ([es[0]] + rest)[1..] == rest;
      } else {
        assert Within(es, start, end) == rest;
      }
    }
  }

  lemma {:induction false} WithinAppend(a: seq<Entry>, b: seq<Entry>, start: Date, end: Date)
    ensures Within(a + b, start, end) == Within(a, start, end) + Within(b, start, end)
  {
    if a != [] {
      assert (a + b)[1..] == a[1..] + b;
      WithinAppend(a[1..], b, start, end);
    } else {
      assert a + b == b;
    }
  }

  /** A window whose start lies after its end keeps nothing. */
  lemma WithinEmptyWhenReversed(es: seq<Entry>, start: Date, end: Date)
    requires !LessEq(start, end)
    ensures Within(es, start, end) == []
  {
    var r := Within(es, start, end);
    if r != [] {
      assert r[0] in r;
      LessEqIsTotalOrder(start, r[0].date.date, end);
      assert false;
    }
  }

  // Category totals

  /** The entries whose category is exactly `category`, in order. */
  function WithCategory(es: seq<Entry>, category: string): (r: seq<Entry>)
    ensures |r| <= |es|
    ensures forall e :: e in r <==> e in es && e.category == category
  {
    if es == [] then []
    else (if es[0].category == category then [es[0]] else []) + WithCategory(es[1..], category)
  }

  function SumAmounts(es: seq<Entry>): int {
    if es == [] then 0 else es[0].amount + SumAmounts(es[1..])
  }

  /** Sum of the amounts of the entries whose category is `category`. */
  function Total(es: seq<Entry>, category: string): int {
    SumAmounts(WithCategory(es, category))
  }

  function Balance(es: seq<Entry>): int {
    Total(es, Income) - Total(es, Expense)
  }

  function Summarize(es: seq<Entry>): (s: Summary)
    ensures s.balance == s.totalIncome - s.totalExpense
  {
    Summary(Total(es, Income), Total(es, Expense), Balance(es))
  }

  lemma {:induction false} SumAmountsAppend(a: seq<Entry>, b: seq<Entry>)
    ensures SumAmounts(a + b) == SumAmounts(a) + SumAmounts(b)
  {
    if a != [] {
      assert (a + b)[1..] == a[1..] + b;
      SumAmountsAppend(a[1..], b);
    } else {
      assert a + b == b;
    }
  }

  lemma {:induction false} WithCategoryAppend(a: seq<Entry>, b: seq<Entry>, category: string)
    ensures WithCategory(a + b, category) == WithCategory(a, category) + WithCategory(b, category)
  {
    if a != [] {
      assert (a + b)[1..] == a[1..] + b;
      WithCategoryAppend(a[1..], b, category);
    } else {
      assert a + b == b;
    }
  }

  /** The amount one entry contributes to the total of `category`. */
  function Share(e: Entry, category: string): int {
    if e.category == category then e.amount else 0
  }

  /** Category totals split over a concatenation of entry sequences. */
  lemma TotalAppend(a: seq<Entry>, b: seq<Entry>, category: string)
    ensures Total(a + b, category) == Total(a, category) + Total(b, category)
    ensures Total([], category) == 0
    ensures |b| > 0 ==> Total(a + [b[0]], category) == Total(a, category) + Share(b[0], category)
  {
    WithCategoryAppend(a, b, category);
    SumAmountsAppend(WithCategory(a, category), WithCategory(b, category));
    if |b| > 0 {
      WithCategoryAppend(a, [b[0]], category);
      SumAmountsAppend(WithCategory(a, category), WithCategory([b[0]], category));
    }
  }

  /** An entry whose category is neither Income nor Expense changes no total. */
  lemma OtherCategoryIgnored(a: seq<Entry>, e: Entry, b: seq<Entry>)
    requires e.category != Income && e.category != Expense
    ensures Summarize(a + [e] + b) == Summarize(a + b)
  {
    TotalAppend(a + [e], b, Income);
    TotalAppend(a + [e], b, Expense);
    TotalAppend(a, [e], Income);
    TotalAppend(a, [e], Expense);
    TotalAppend(a, b, Income);
    TotalAppend(a, b, Expense);
  }

  /**
   * Reference for the balance: one scan over the entries that adds every
   * Income amount to and subtracts every Expense amount from an accumulator.
   */
  function RunningBalance(acc: int, es: seq<Entry>): int
    decreases es
  {
    if es == [] then acc else RunningBalance(acc + Share(es[0], Income) - Share(es[0], Expense), es[1..])
  }

  lemma {:induction false} BalanceIsRunningBalance(acc: int, es: seq<Entry>)
    ensures RunningBalance(acc, es) == acc + Balance(es)
    decreases es
  {
    if es != [] {
      BalanceIsRunningBalance(acc + Share(es[0], Income) - Share(es[0], Expense), es[1..]);
      assert es == [es[0]] + es[1..];
      TotalAppend([es[0]], es[1..], Income);
      TotalAppend([es[0]], es[1..], Expense);
      TotalAppend([], [es[0]], Income);
      TotalAppend([], [es[0]], Expense);
    }
  }
}
