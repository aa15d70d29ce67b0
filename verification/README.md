# Expense ledger — a Dafny model of the ledger store

The expense tracker keeps personal income and expense transactions in one
comma-separated ledger file with the header `date,amount,category,description`.
Its class `CSV` (in `main.py`) does three things: `initialize_csv` creates the
file with only the header if it is missing; `add_entry` appends one row; and
`get_transaction` reads the whole file and parses every date in the fixed
`DD-MM-YYYY` format (`%d-%m-%Y`). An empty or NA-like date cell becomes "not
a time", any other text that does not parse fails the query. It then keeps
the rows dated inside an inclusive `[start, end]` window, in file order; a row
with no time is never inside it. When no row matches it reports
that nothing was found. Otherwise it reports total income, total expense and
the balance, which is income minus expense.

This project models that class in four modules:

- `Wrappers`: the `Option` type used when an operation can fail.
- `Dates`: a date as a day/month/year triple, its chronological order, and
  the fixed text format. `ParseDate` is a partial function and `FormatDate`
  writes a date in that format. The two are proved to be inverse to each
  other, in both directions.
- `Transactions`: a `Row` as it is stored, with the date still as text and
  the fields in column order, and an `Entry` as the query sees it, with the
  date converted to a `Stamp`: a date, or "not a time" for the cells pandas
  reads as missing. This module holds the load of the date column, which
  fails as a whole when one cell neither parses nor is missing,
  the date-window filter `Within`, the per-category sums and the `Summary`.
  It also holds a running-balance scan, used as an independent reference for
  the balance.
- `LedgerStore`: the ledger file as a value. It is either `Missing`, or
  `Present` with or without its header line and followed by its rows. The
  module holds the specification functions `Initialized`, `Appended` and
  `Query`, the lemmas that relate them, and the class `Ledger`. That class's
  fields `fileExists`, `hasHeader` and `rows` are changed in place by the
  methods `Initialize` and `AddEntry`.

Amounts are whole cents (`int`), so sums are exact.

Two behaviours of the code are modelled as they are written:

- `get_transaction` does not create the file, and the menu's "view summary"
  choice never calls `initialize_csv` first. So a query on a ledger that was
  never created fails, because `read_csv` finds no file.
- `add_entry` opens the file in append mode. When no file exists, this
  creates one that has a data row but no header. `read_csv` then takes that
  first row for the header: each of its four cells, the amount's numeral
  included, names a column. Unless one of its text cells is literally
  `date`, every query fails because there is no `date` column. When one is,
  a query that matches no row reports that nothing was found; one that
  matches a row goes on to the totals, which fail for want of a `category`
  or an `amount` column unless the row's three text cells are `date`,
  `category` and `amount` in some order. Even then the column named
  `amount` holds text cells, and unless pandas reads it as numbers the
  `:.2f` formatting of a text total fails; the model fails all of these
  queries, which leaves one narrow case apart (see "Left out"). The
  program's own `add()` always calls
  `initialize_csv` first, so through the menu this does not happen.
  `AppendWithoutInitializeHidesRows` states the consequence as modelled,
  `HeaderlessDateColumnExample` shows a headerless file whose query is still
  answered, and `AddedEntryIsReturned` states the intended
  initialise-then-add path.

## Model

| member | source | states |
|---|---|---|
| `Dates.DaysInMonth` | main.py:36-38 | Day bounds used to validate a parsed date: 28 to 31 days; 29 exactly for February of a Gregorian leap year; 30 exactly for April, June, September and November; 31 exactly for the seven long months |
| `Dates.LessEqIsTotalOrder` | main.py:40 | The date order used by the filter mask is reflexive, antisymmetric, transitive and total |
| `Dates.ParseDate` | main.py:36-38 | A text accepted as `DD-MM-YYYY` is ten characters with `-` at positions 2 and 5, and names a date that exists in the calendar |
| `Dates.ParseFormatted` | main.py:9 | Every valid date written in the fixed format parses back to the same date |
| `Dates.FormatParsed` | main.py:9 | Every text the parser accepts is exactly the fixed-format writing of the date it reads, so the format is canonical |
| `Transactions.DateTextIsNotMissing` | main.py:35-36 | No text in the fixed date format is one of the cell texts pandas reads as missing, so the two ways a date cell can load never overlap |
| `Transactions.LoadDate` | main.py:35-36 | A date cell loads as "not a time" exactly when its text is one pandas reads as missing, loads as the parsed date whenever it parses, and fails exactly when it is neither |
| `Transactions.Load` | main.py:36 | A stored row loads exactly when its date cell loads; the amount, category and description are kept unchanged and the date is the loaded stamp |
| `Transactions.LoadAll` | main.py:35-36 | Loading the ledger succeeds exactly when every date cell loads (parses or is missing), with no partial result when one does not; the loaded entries correspond one-to-one, in order, to the stored rows |
| `Transactions.LoadAllAppend` | main.py:36 | Loading a ledger with one more row fails exactly when that row's date cell does not load; otherwise it yields the old entries followed by the new one |
| `Transactions.Within` | main.py:40-41 | An entry is in the filtered result if and only if it is in the ledger, has a date (not "not a time") and `start <= date <= end`, inclusive at both ends; the result is never longer than the ledger |
| `Transactions.WithinIsSubsequence` | main.py:41 | The filtered result is a subsequence of the loaded ledger: stored order is kept |
| `Transactions.WithinAppend` | main.py:40-41 | The filter treats each row on its own: filtering a concatenation gives the concatenation of the filtered parts |
| `Transactions.WithinEmptyWhenReversed` | main.py:40-41 | When the window's start is after its end, nothing matches |
| `Transactions.WithCategory` | main.py:49-50 | Category selection keeps exactly the entries whose category equals the given text exactly, and is never longer than its input |
| `Transactions.TotalAppend` | main.py:49-50 | A category total over a concatenation is the sum of the parts' totals; one more entry adds its amount only when its category matches |
| `Transactions.OtherCategoryIgnored` | main.py:49-50 | A row whose category is neither `Income` nor `Expense` changes neither total nor the balance, wherever it stands |
| `Transactions.Summarize` | main.py:49-55 | The reported balance equals total income minus total expense |
| `Transactions.BalanceIsRunningBalance` | main.py:49-55 | The balance equals a single left-to-right scan that adds every Income amount and subtracts every Expense amount |
| `LedgerStore.Initialized` | main.py:12-17 | Initialising keeps an existing file exactly as it is and creates a missing one with the header and no rows |
| `LedgerStore.Appended` | main.py:20-30 | Adding an entry makes the rows the old rows followed by the new row; the header is present afterwards only if it was before |
| `LedgerStore.ColumnNamed` | main.py:35-36 | When a row is read as the header, the column found under a name is one whose cell is that name, and none is found exactly when no text cell equals it; the first equal cell wins |
| `LedgerStore.TableQuery` | main.py:35-50 | Over rows read under the right column names: succeeds exactly when every date cell loads and both bounds parse; the summary is absent exactly when no row matches; every returned entry is in the window; the totals are the Income and Expense sums of the result and the balance is their difference |
| `LedgerStore.Query` | main.py:33-56 | A missing file fails. With the header, the query succeeds exactly when every stored date cell loads and both bounds parse. Without it, a successful query reports no rows and no summary (the source can differ when the first row names `category` and `amount` too, see "Left out"). The summary is absent exactly when no row matches. Every returned entry is in the window. The totals are the Income and Expense sums of the result, and the balance is their difference |
| `LedgerStore.InitializeIdempotent` | main.py:12-17 | Initialising twice is the same as initialising once, and initialising never changes the stored rows |
| `LedgerStore.AppendGrowsByOne` | main.py:20-30 | Adding grows the row count by exactly one, puts the new row last and leaves every earlier row unchanged |
| `LedgerStore.QueryKeepsRowsInRange` | main.py:35-41 | The result is a subsequence of the loaded ledger, and an entry is in it if and only if it is one of the loaded rows and its date is in the window |
| `LedgerStore.QueryReversedWindowIsEmpty` | main.py:40-44 | A query whose start date is after its end date returns no rows and no summary |
| `LedgerStore.QueryAfterAppend` | main.py:20-50 | After one row is added to a queryable ledger: if the row's date cell does not load, every query fails. If its date is inside the window, the result is the old result followed by the new entry, and each total grows by the new entry's share. If it is outside the window or missing, the result is unchanged |
| `LedgerStore.AddedEntryIsReturned` | main.py:12-41 | A transaction added after initialisation, with a valid date in the fixed format, is returned last by any query whose window contains its date, with the same amount, category and description |
| `LedgerStore.AppendWithoutInitializeHidesRows` | main.py:28-49 | Appending to a missing file writes no header; whatever is appended afterwards, a query fails unless a text cell of the first row is `date`, and a query that succeeds reports no rows and no summary (the source can differ when the first row also names `category` and `amount`, see "Left out") |
| `LedgerStore.QueryFreshLedger` | main.py:12-17 | A freshly initialised ledger answers every well-formed query with no rows and no summary. A ledger that was never created fails every query |
| `LedgerStore.QueryExample` | main.py:33-55 | Salary of 100.00 on 01-03-2024 and groceries of 40.00 on 02-03-2024, queried over those two days: both rows are returned in order, income is 100.00, expense is 40.00, balance is 60.00 |
| `LedgerStore.QueryMissingDateExample` | main.py:35-55 | A tip of 5.00 with an empty date cell and a salary of 100.00 on 01-03-2024, queried over that day: the tip is dropped, the salary is returned, income is 100.00, expense 0, balance 100.00 |
| `LedgerStore.HeaderlessDateColumnExample` | main.py:28-44 | A file written without its header whose only row has the date text `date`: a query over a window is answered with no rows and no summary |
| `LedgerStore.Ledger.constructor` | main.py:7 | A new ledger object stands for a file that does not exist yet |
| `LedgerStore.Ledger.Initialize` | main.py:12-17 | `initialize_csv` in place: the file exists afterwards and the rows are unchanged; an existing file keeps its header state |
| `LedgerStore.Ledger.AddEntry` | main.py:20-30 | `add_entry` in place: the rows become the old rows followed by `Row(date, amount, category, description)`, and the header state is unchanged |
| `LedgerStore.Ledger.GetTransaction` | main.py:33-56 | `get_transaction` returns the query's answer on the current file and modifies nothing |

## Left out

- File and CSV text I/O (`pd.read_csv`, `to_csv`, `csv.DictWriter`, `open(..., 'a')`): the file is the value `LedgerFile`. CSV quoting is assumed to give back the same fields. Failure to open the file for writing is not modelled.
- Pandas' own reading of cells: an amount is read back as a float, and an empty description comes back as NaN. The model keeps the written values.
- `Dates.ParseDate`: accepts only the zero-padded `DD-MM-YYYY` form that the format writes. Python's `strptime` with `%d-%m-%Y` also accepts one-digit days and months (`1-3-2024`) and a space-padded day, and its `%Y` field, like the second digit of a day from 10 to 29, matches any Unicode decimal digit rather than only `0` to `9`. For such text the model fails a query that the program would answer.
- `Transactions.LoadAll`: pandas' nanosecond timestamps cover only the days from 22-09-1677 to 11-04-2262; a date cell outside that span makes `to_datetime` raise an out-of-bounds error, while the model loads every calendar date with a year from 1 to 9999. The bounds of the window, read by `strptime`, are not limited in this way.
- `LedgerStore.Query`: on a file without its header, all four cells of the first row are taken as column names. When its three text cells are `date`, `category` and `amount` in some order and a later row lies in the window, the source reaches the totals, which sum the column named `amount`: one of the text columns (date, category or description cells). pandas types that column as a whole. If any of its cells is not numeric it is read as text, and a non-empty `Income` or `Expense` selection sums to a string on which the `:.2f` formatting at main.py:53-54 raises; the model's failure agrees with the source there. The source returns the matching rows and a summary only when that column is read as numbers, or when no matching row's category is exactly `Income` or `Expense` (both totals are then 0); for example, a numeric description of an `Income` row is then reported as income. The model fails those queries instead, because it does not model pandas' typing of a text column read as amounts.
- `LedgerStore.AppendWithoutInitializeHidesRows`: its promise that a successful query on a headerless file reports no rows does not hold in the source when the first row's text cells are `date`, `category` and `amount` in some order, a later row lies in the window, and either the column named `amount` is read as numbers or no matching row is `Income` or `Expense`: the source then reports the matching rows and their totals, as the `LedgerStore.Query` line above describes. Otherwise the source fails too, at the totals or at their formatting.
- `LedgerStore.Initialized`: requires a well-formed file. An existing but empty file makes `read_csv` raise an error that `initialize_csv` does not catch. No operation of this program produces such a file.
- Float arithmetic and the `:.2f` / `€` formatting of the totals: amounts are exact integer cents.
- Printing the result table and the messages.
- The `strftime` reformatting of dates for display.
- The interactive menu `main()` and the prompt wrapper `add()`.
- The module `data_entry` (`get_date`, `get_amount`, `get_category`, `get_description`) is not part of this model. Its validation rules are therefore not assumed: any amount, category and date text can be stored, and a date text that neither parses nor is a missing-value marker makes every later query fail.
- Charting: no chart code is part of `main.py`.
