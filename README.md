# Double-entry ledger engine, modelled in Dafny

This project models the `Ledger` engine of a small double-entry bookkeeping
library (`ledger.py`), together with its two report values, `BalanceSheet`
and `IncomeStatement`. The engine has four parts:

- an **account registry**: `create_account` and `get_account`;
- an **append-only transaction log**: `record_transaction` validates a list
  of (account code, amount) items and appends them all or none, and
  `get_transaction`, `get_transactions`, `count_transactions` and
  `count_transaction_items` read the log back;
- a **balance sheet** as of a day (`get_balance_sheet`);
- an **income statement** over an inclusive range of days (`get_income_statement`).

The SQLite database is replaced by three in-memory tables held in the fields
of the `Ledger` class. They mirror the three SQL tables:

- `accounts`: code ↦ (name, type);
- `transactions`: a sequence of (id, date, description) rows;
- `items`: a sequence of (id, transaction id, account code, amount) rows.

Dates are integer day ordinals, counted as Python's `date.toordinal()` counts
them (0001-01-01 is day 1), because the SQL only compares them. Each SQL
`SUM(CASE …)` over the `LEFT JOIN` becomes a recursive sum over the item rows,
joined to their header by id (`Books.Balance`). An account with no items sums
to 0.

Files, one module each:

- `books.dfy` (module `Books`): account kinds, the row types, the error
  values, the store invariant `Consistent`, the validation `Verdict`, the
  pure effect of a successful recording (`Appended`), the views that the read
  operations return, and the balance aggregator together with its lemmas.
- `totals.dfy` (module `Totals`): the sum over a report map's values
  (`sum(d.itervalues())`), which does not depend on the order the keys are
  visited.
- `reports.dfy` (module `Reports`): the `BalanceSheet` and `IncomeStatement`
  values and their total properties. It also has what each report should
  contain (`BalanceSheetAsOf`, `IncomeStatementOver`), and the accounting
  equation, period additivity and retained-earnings lemmas.
- `ledger_engine.dfy` (module `LedgerEngine`): the `Ledger` class.
  - Its mutating methods say what the new tables are.
  - Its read methods, whose loops follow the Python loops, return exactly
    what the report and view functions describe.

The class invariant `Valid()` is `Consistent` on the three tables:

- row ids are 1, 2, 3, …;
- every item belongs to a stored transaction;
- every item names a registered account;
- every transaction has items, and they sum to zero.

`CreateAccount` and `RecordTransaction` preserve it.

In these points the model does exactly what the code does:

- The code has no "invalid range" error for an income statement whose end
  precedes its start. The query then selects nothing, and
  `Reports.EmptyRangeStatement` proves that every balance is 0.
- The code's `total_equity` already adds `retained_earnings`. So the proved
  equation is `total_assets == total_liabilities + total_equity`, with no
  second `retained_earnings` term.
- `record_transaction` formats the date with `strftime`, which under the
  Python 2 the code targets refuses any year before 1900. That raise happens
  inside the `try`, before the header is inserted, so the call fails with
  `ValueError` and leaves the tables unchanged (`Books.YearBefore1900`,
  checked against `Books.FirstFormattableDay`, the ordinal of 1900-01-01).
- All five validation failures raise Python's `ValueError`, and a duplicate
  code raises `LedgerError`. The model keeps those two classes
  (`Books.Error`) and records the reason as a separate value (`Books.Invalid`).
- The report maps hold raw signed balances: equity and revenue are negative.
  The signs flip only in the `Total…` functions.

## Model

| member | source | states |
|---|---|---|
| `Books.ParseKind` | ledger.py:52-53 | a type string names a kind exactly when it is one of the five `ACCOUNT_TYPES`, and the kind's name is that string |
| `Books.ParseKindName` | ledger.py:9 | every kind's name parses back to that kind |
| `LedgerEngine.Ledger.constructor` | ledger.py:14-33 | a new ledger has three empty tables and satisfies the invariant |
| `LedgerEngine.Ledger.GetAccount` | ledger.py:120-126 | returns the registered account with that code, or None when no registered account has it; never fails |
| `LedgerEngine.Ledger.CreateAccount` | ledger.py:50-60 | an unknown type fails with ValueError and a taken code with LedgerError, checked in that order, and both leave the registry unchanged; otherwise `get_account(code)` returns exactly the new account, every other code's lookup is unchanged, and the log is untouched |
| `Books.FirstUnknown` | ledger.py:143-151 | gives the code of the first item whose account is not registered, and None exactly when every item's account is registered |
| `Books.Verdict` | ledger.py:130-151 | the checks in source order: empty items, then a nonzero sum, then a date before 1900 that `strftime` refuses, then the first unknown account, each giving its own error (the last one naming the first unregistered code); a transaction passes exactly when it has items, they sum to 0, its year is 1900 or later and every account exists |
| `Books.SumAmountsAppend` | ledger.py:132 | the sum of the items' amounts splits over any cut of the list |
| `LedgerEngine.Ledger.RecordTransaction` | ledger.py:128-164 | every failure of the checks, a date before 1900 included, returns that error with all three tables as before (rollback), so both counts are unchanged; on success the id is count + 1 and larger than every existing id, the header and one item row per item are appended, the new transaction reads back with the same date, description and items in input order, every other transaction reads back unchanged, the counts grow by 1 and by the number of items, and the invariant is kept |
| `LedgerEngine.Ledger.WriteTransaction` | ledger.py:135-158 | the `try` block: when some item's account is unknown, the result names the first such account and the three tables are exactly as before (rollback of the header and of the rows already written); otherwise the id is count + 1 and the store is the old one with the header and one row per item appended |
| `LedgerEngine.Ledger.InsertItems` | ledger.py:143-156 | the item loop: the result is the first unknown account code, or None; when None, one row per item has been appended in input order; when it stops at an unknown account, it stopped at the first one: the rows of exactly the items before it, all of whose accounts exist, have been appended (the partial write the rollback undoes); accounts and headers are untouched |
| `Books.AppendedSummary` | ledger.py:128-164 | after a successful recording the store is consistent, the new id exceeds every old id, the new transaction reads back as recorded, every other one reads back as before, and the counts grow by 1 and by the number of items |
| `Books.AppendedItems` | ledger.py:152-156 | after an append, the new transaction's items are exactly the postings and every other transaction's items are unchanged |
| `Books.AppendedRows` | ledger.py:152-156 | the appended item rows continue the row ids, name registered accounts and belong to a stored transaction |
| `Books.AppendedConsistent` | ledger.py:130-156 | appending a transaction that passes the checks keeps every stored transaction summing to zero and every item's account registered |
| `Books.AppendedView` | ledger.py:136-156 | after an append, the new id reads back as recorded and every other id reads back as before |
| `Books.ItemsOfRows` | ledger.py:152-156 | reading back the item rows written for a transaction gives its items in input order, and nothing for any other transaction |
| `Books.ItemsOfAppend` | ledger.py:204-209 | the items of a transaction over two runs of rows are those of the first run followed by those of the second |
| `Books.FindTxConsecutive` | ledger.py:137-141 | with ids assigned 1, 2, 3, … the header with id `i` is the `i`-th row, and ids outside 1..count have none |
| `LedgerEngine.Ledger.CountTransactions` | ledger.py:166-170 | equals the number of transactions `get_transactions` lists |
| `LedgerEngine.Ledger.CountTransactionItems` | ledger.py:172-176 | equals the total number of items across the transactions `get_transactions` lists |
| `Books.ItemCountMatches` | ledger.py:172-191 | in a consistent store every item row is listed under exactly one transaction, so the listed items add up to the item count |
| `LedgerEngine.Ledger.GetTransaction` | ledger.py:193-211 | returns None for an id with no header; otherwise the header's date and description with that transaction's items in row order |
| `LedgerEngine.Ledger.GetTransactions` | ledger.py:178-191 | lists every transaction in insertion order, each with its own items in row order |
| `Books.ViewsAgree` | ledger.py:178-211 | the transaction with id `i` from `get_transaction` is the `i`-th one that `get_transactions` lists; ids outside 1..count give None |
| `Books.BalanceAppend` | ledger.py:64-76 | the SQL `SUM` over an account's joined rows has no order: the balance over two runs of item rows is the sum of the balances over each |
| `Books.UnpostedIsZero` | ledger.py:66-74 | an account with no items has balance 0 in every date window |
| `Books.BalancedWindowIsZero` | ledger.py:130-133 | when every transaction's items sum to 0, the items of the transactions whose dates fall in any window also sum to 0 |
| `Books.TotalInSplit` | ledger.py:72-75 | summing the items over a set of accounts splits into one account's balance plus the rest |
| `Books.TotalInUnion` | ledger.py:72-75 | summing the items over two disjoint sets of accounts adds up |
| `Books.TotalInCovers` | ledger.py:72-75 | when the accounts cover every item, summing over them gives the sum of the whole window |
| `Totals.TotalRemove` | ledger.py:224-245 | the sum of a report map's values does not depend on the order its keys are visited |
| `Totals.TotalUnion` | ledger.py:224-234 | the totals of maps with disjoint accounts add up |
| `Totals.TotalPointwise` | ledger.py:239-249 | maps over the same accounts whose values add entry by entry have totals that add up |
| `Reports.BalanceMapTotal` | ledger.py:64-84 | the total of an account-to-balance map equals the window's sum over the items posted to those accounts |
| `Reports.RegisteredSumToZero` | ledger.py:64-84 | in a consistent ledger the balances of all accounts sum to 0 in every window |
| `LedgerEngine.Ledger.GetBalanceSheet` | ledger.py:62-90 | each asset, liability and equity account maps to the sum of its items dated on or before the day (0 if none); revenue and expense accounts are left out of the maps, and the retained earnings are minus the sum of their balances |
| `Reports.BalanceSheetTotals` | ledger.py:222-234 | `total_assets` is the as-of sum over the items of asset accounts, `total_liabilities` minus that over liability accounts, and `total_equity` minus that over equity, revenue and expense accounts together |
| `Reports.AccountingEquation` | ledger.py:222-234 | for a consistent ledger and any day, total assets equal total liabilities plus total equity, where equity includes the retained earnings |
| `LedgerEngine.Ledger.GetIncomeStatement` | ledger.py:92-118 | only revenue and expense accounts appear, each mapped to the sum of its items dated from the start day to the end day, both included |
| `Reports.IncomeStatementTotals` | ledger.py:237-249 | `total_revenues` is minus the range's sum over the items of revenue accounts, `total_expenses` the sum over expense accounts, and `net_result` minus the sum over both |
| `Reports.IncomeStatement.NetIncome` | ledger.py:251-255 | is never negative, and equals the net result when that is not negative |
| `Reports.IncomeStatement.NetLoss` | ledger.py:257-261 | is never negative, and equals minus the net result when that is negative |
| `Reports.IncomeOrLoss` | ledger.py:247-261 | at most one of net income and net loss is nonzero, and net income minus net loss is the net result |
| `Books.RangeAdditive` | ledger.py:96-101 | one account's balance over `[d1, d3]` is its balance over `[d1, d2]` plus that over `[d2 + 1, d3]` |
| `Reports.PeriodAdditivity` | ledger.py:92-118 | for `d1 <= d2 < d3` the statements over `[d1, d2]` and `[d2 + 1, d3]` list the same accounts as the one over `[d1, d3]`, their balances add up account by account, and so do their net results |
| `Books.RangeIsDifference` | ledger.py:66-70 | an account's balance over `[first, last]` is its as-of balance at `last` minus its as-of balance the day before `first` |
| `Reports.NetResultIsRetainedChange` | ledger.py:78-82 | the net result over `[first, last]` equals the retained earnings of the balance sheet at `last` minus those at the day before `first` |
| `Books.EmptyRangeIsZero` | ledger.py:96-101 | a range whose end is before its start selects no item |
| `Reports.EmptyRangeStatement` | ledger.py:92-118 | with no range check in the code, an income statement whose end is before its start reports every account at 0 and a net result of 0 |

## Left out

- The HTTP layer (`webapp.py`): routing, JSON checks, templates and `monetize`'s `Decimal` and `locale` formatting are transport and presentation.
- `Ledger.init`, `drop` and `reset`: these are SQL DDL and commits. The constructor starts from the state that `init` produces on an empty database.
- SQLite mechanics: cursors, `commit`, `lastrowid` and connection handling.
  - A recorded transaction's id is the count of transactions plus one. This is the id SQLite's `INTEGER PRIMARY KEY` gives (largest id plus one), because rows are never deleted and a rollback removes the failed call's rows.
  - Rollback is modelled as restoring a snapshot of the three tables.
- Storage faults inside `record_transaction`'s `try` block, other than an unknown account: I/O errors are not modelled. The same snapshot restore would cover them.
- Date parsing and formatting (`strptime`, the text `strftime` produces): dates are integer day ordinals. The one formatting failure, `strftime` refusing years before 1900, is modelled.
- 64-bit integer limits: SQLite stores amounts and sums them as 64-bit integers and raises an error on overflow. The model's integers are unbounded, as Python's are.
- `LedgerEngine.Ledger.GetTransactions`: the list follows insertion order. The source returns a dictionary's values. The ledger tests expect insertion order, but the dictionary does not promise it under the Python 2 the code targets (it calls `itervalues`).
- Python's dynamic typing: items are typed (account code, amount) pairs, and an account's type is one of five kinds. Neither is an arbitrary string.
- `LedgerEngine.Ledger.CountTransactionItems`, `LedgerEngine.Ledger.GetTransactions`: these require the class invariant. It holds between all operations, and without it the source's `get_transactions` would fail on an item whose transaction does not exist.
- The report totals and `Totals.Total` are ghost functions: a map has no order in which to compute the sum, so the sum picks its keys by choice.
- The test files `ledger_test.py` and `webapp_test.py` are used only as evidence for the properties above.
