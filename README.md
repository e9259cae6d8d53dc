# TrackIt finance tracker — a Dafny model of its views

TrackIt is a Flask application over one SQLite table, `expense`. Each row is an income or
expense transaction with a description, amount, date, category, payment mode, type and
creation time. This project models what the application's views compute from that table:

- the **dashboard**: all-time income, expense and balance, today's expense, the five newest
  records, and the category, daily and monthly-income series;
- the **report** over a date range from .. to: total, maximum, count and daily average of
  the expenses; the category breakdown; the top category and its share; income against
  expense; the payment-mode breakdown; and the monthly summary lines. Its queries select
  the records with from < date ≤ to: a record dated exactly from is left out (see
  Findings). The model keeps both that selection and the inclusive range the view
  describes;
- the **transactions** list: the optional filters applied one after another, newest date
  first;
- **add, edit and delete** of a record. A lookup by an unknown id fails with a not-found
  outcome (the 404 of `get_or_404`) and changes nothing;
- the **CSV export**: a header, then one line per record by descending date, with a
  missing value written as the empty cell.

Modules:

- `Dates` (`dates.dfy`): calendar dates, their ordinal day number, and the `'YYYY-MM'`
  month key.
- `Records` (`records.dfy`): the row type and the form the add and edit views submit.
- `Queries` (`queries.dfy`): the SQL vocabulary over the table's rows, each with its
  characterising lemma. It covers WHERE, SUM, MAX, GROUP BY with SUM, ORDER BY, and the
  first row of a descending order.
- `Dashboard`, `Report`, `Listing`, `Export`: the views, each as a function of the table's
  rows and of the request's parameters.
- `Store` (`store.dfy`): the table as a class whose methods insert, update and delete.
- `Lifecycle` (`lifecycle.dfy`): what the views show after the table changes. An added
  record is listed by its own filters, and a deleted one no longer counts in any total.

The dashboard and report values are pure functions (`DashboardOf`, `ReportOf`). The
report is built over a `Queries.Window`: a date range whose lower bound is included or
not. `ReportOf` uses the window the queries select (`SourceWindow`, from < date ≤ to), and
`IntendedReportOf` uses the inclusive one (`IntendedWindow`). Every report property below
is proved for any window, so it holds for both. The
report's monthly loop, the transactions view's query reassignment, the export's two loops
and the store operations are methods. Each is proved against the functions.

Amounts are integers (cents). The average and the percentage are exact `real` quotients.
The current date, the current time and the request arguments are parameters. Dates in the
request arrive already parsed, as `Option<Date>`: `None` means missing or empty.

## Model

| member | source | states |
|---|---|---|
| `Records.NewRecord` | app.py:243-250 | an added record carries exactly the six submitted form fields, the id it was given and the insertion time as created_at |
| `Records.Overwrite` | app.py:289-294 | editing assigns exactly the six form fields; id and created_at are kept |
| `Queries.FilterSpec` | app.py:269-278 | a WHERE clause keeps exactly the rows that satisfy it, each as often as in the table |
| `Queries.OfTypeSpec` | app.py:20-24 | `type == kind` keeps exactly the rows of that type |
| `Queries.BetweenSpec` | app.py:120-123 | `date BETWEEN from AND to` keeps exactly the rows whose date lies in the window: after from (or on it, when the lower bound is included) and not after to, each as often as in the table |
| `Queries.FilterRemove` | app.py:303-305 | once one record is taken out of the table, every WHERE loses it, its sum drops by that record's amount and its count by one exactly when the record passes the WHERE |
| `Queries.FilterSame` | app.py:303-305 | a WHERE over a reordering of the table keeps the same rows and the same sum |
| `Queries.MaxAmount` | app.py:125-128 | MAX(amount) `or 0`; its properties are stated by MaxAmountSpec |
| `Queries.SumPermutation` | app.py:20-21 | SUM does not depend on the order of the rows |
| `Queries.MaxAmountSpec` | app.py:125-128 | MAX(amount) `or 0` is 0 with no row, at least every amount, and the amount of some row |
| `Queries.DistinctKeysSpec` | app.py:139-145 | the groups of GROUP BY: each key once, each the key of some row, every row's key present |
| `Queries.GroupSumsSpec` | app.py:139-145 | GROUP BY key with SUM: distinct keys, exactly the occurring keys, each with its rows' sum, and the sums add up to the total |
| `Queries.OrderedGroupSumsSpec` | app.py:50-55 | GROUP BY key ORDER BY key: a grouping as above, with keys in ascending order |
| `Queries.TallyGrouping` | app.py:139-145 | summing per key over a distinct list of exactly the occurring keys gives such a grouping |
| `Queries.KeySumAbsent` | app.py:193-205 | a key no row has sums to 0 |
| `Queries.KeySumBounds` | app.py:162-164 | with no negative amount, a group's sum lies between 0 and the total |
| `Queries.FirstLargest` | app.py:152-160 | the first row of ORDER BY SUM DESC: none exactly for an empty grouping, otherwise a pair of it with the largest sum |
| `Queries.SortBy` | app.py:280 | ORDER BY: a permutation of its input, sorted by the rank |
| `Dates.OrdinalOrder` | app.py:135 | for real dates, one date is before another exactly when its day number is smaller |
| `Dates.OrdinalInjective` | app.py:135 | for real dates, equal day numbers mean equal dates |
| `Dates.MonthRankInjective` | app.py:62-67 | distinct `'YYYY-MM'` months have distinct ranks |
| `Dashboard.DashboardOf` | app.py:19-70 | the dashboard's figures; the balance is income minus expense and at most five recent records are shown |
| `Dashboard.Recent` | app.py:32 | ORDER BY created_at DESC LIMIT 5: min(5, n) records |
| `Dashboard.SignedTotalSplit` | app.py:20-26 | income minus expense equals the signed total of all records; rows of other types count 0 |
| `Dashboard.BalanceIsSignedTotal` | app.py:20-26 | the balance is the signed total; an empty table shows zero totals, no recent records and empty series |
| `Dashboard.OnDateIsKeySum` | app.py:28-30 | the expense on one date is that date's group sum |
| `Dashboard.TodayMatchesDailySeries` | app.py:28-30 | today's expense equals today's point of the daily series, and is 0 when the series has no such point |
| `Dashboard.CategorySeries` | app.py:40-48 | the category series groups the expenses by category and adds up to the total expense |
| `Dashboard.DailySeries` | app.py:50-59 | the daily series groups the expenses by date, adds up to the total expense, and ascends by date |
| `Dashboard.DailyStrictlyAscending` | app.py:50-55 | with real dates, the daily series is in strictly increasing date order |
| `Dashboard.MonthlySeries` | app.py:62-70 | the monthly series groups the incomes by month, adds up to the total income, and ascends by month |
| `Dashboard.MonthlyStrictlyAscending` | app.py:62-67 | with real dates, the months of the monthly series strictly increase |
| `Dashboard.RecentSpec` | app.py:32 | recent: min(5, n) records of the table, newest created_at first, none left out newer than one shown |
| `Report.ReportView.AvgDailyExpense` | app.py:135-136 | avg · days = total expense when days > 0, else 0 |
| `Report.ReportView.TopCategoryPercent` | app.py:162-167 | percent · total = top amount · 100 when there is a top category; in [0, 100] when 0 ≤ amount ≤ total; 0 without a top category |
| `Report.DailyAverageSpec` | app.py:135-136 | total / days when days > 0, else 0 |
| `Report.PercentSpec` | app.py:165-167 | part / whole · 100, which lies in [0, 100] for 0 ≤ part ≤ whole |
| `Report.MissingBoundDefaults` | app.py:92-115 | without both bounds the view shows its defaults: zero figures, empty lists, no top category, average and share 0 |
| `Report.RangeRows` | app.py:120-133 | the window's expense, income and all-type rows are exactly the table's rows with that type and a date in the window, each as often as in the table |
| `Report.ReportOf` | app.py:93-218 | the view's report: the defaults when a bound is missing, otherwise the report over the window the queries select, with the requested (from, to) range and total_expense_ie = total_expense |
| `Report.IntendedReportOf` | app.py:115-218 | the same report over the inclusive range from .. to |
| `Report.SourceRange` | app.py:116-133 | as written, the report's expense and income rows are those with from < date ≤ to |
| `Report.IntendedRange` | app.py:116-133 | over the inclusive range, they are those with from ≤ date ≤ to |
| `Report.SourceMissesFromDate` | app.py:116-133 | for from not after to, the inclusive total is the total as written plus the expenses dated from, and likewise the counts |
| `Report.FromDateDropped` | app.py:116-135 | one expense of 100.00 dated 2024-01-01, report 2024-01-01 .. 2024-01-01: days = 1 but total_expense = 0 and total_transactions = 0 as written; 100.00 and 1 over the inclusive range |
| `Report.Kpis` | app.py:120-136 | the total expense, count and maximum are those of the range's expense rows; the maximum is at least every such amount, 0 when there is none and attained otherwise; days = (to − from) + 1; total_expense_ie = total_expense |
| `Report.DaySpanPositive` | app.py:135-136 | for real dates, days > 0 exactly when from is not after to |
| `Report.ReversedRange` | app.py:115-209 | a range with to before from selects nothing: zero totals, empty breakdowns and summary, no top category |
| `Report.Breakdowns` | app.py:139-187 | the category and the payment-mode breakdowns are groupings of the range's expenses by their key, showing only keys that occur and each adding up to total_expense |
| `Report.TopCategory` | app.py:152-167 | a top category is set exactly when total_expense > 0; it is then in the breakdown with the largest sum; otherwise the amount is 0 |
| `Report.TopCategoryShare` | app.py:162-167 | with no negative amount, 0 ≤ top amount ≤ total_expense, so the share lies in [0, 100] |
| `Report.CaseSumIsKeySum` | app.py:193-205 | SUM(CASE WHEN type = kind THEN amount ELSE 0) over a month is the month's sum over the records of that type |
| `Report.MonthlyDataSpec` | app.py:190-209 | the monthly query: distinct months, each with a record in the range, every record's month present, with that month's income and expense sums |
| `Report.MonthlyLines` | app.py:212-218 | each summary line has balance = income − expense and the month's income and expense sums; the months are distinct and cover the range |
| `Report.MonthlyMissingType` | app.py:193-205 | a type with no record in a month's range contributes 0 to that month's line |
| `Report.MonthlySummary` | app.py:212-218 | the loop appends one line per row of the monthly query, in its order |
| `Report.Report` | app.py:93-218 | the step-by-step view computes the report function |
| `Listing.Matches` | app.py:269-278 | the conjunction of the filters that are given; date bounds are inclusive |
| `Listing.FiltersForSpec` | app.py:263-278 | filters set to a form's date (both bounds), category, payment mode and type pass exactly the records with that date and those values (an empty value filters nothing), so every record with the form's fields passes |
| `Listing.NarrowStep` | app.py:269-278 | adding one more filter to the query narrows the matching rows by that condition |
| `Listing.ListTransactions` | app.py:260-280 | the list holds exactly the records that match every given filter (a filter is given when present and non-empty), each as often as in the table, in descending date order |
| `Listing.NewestFirst` | app.py:280 | for real dates, the descending date order puts no record before one with a later date |
| `Store.NextIdOf` | app.py:251-252 | the rowid of the next insert: one more than the last rowid, 1 for an empty table; its properties are stated by NextIdFresh |
| `Store.NextIdFresh` | app.py:251-252 | the next rowid is positive, above every id in use and not in the table |
| `Store.TableOfUpdate` | app.py:289-296 | changing one row changes only that id's entry |
| `Store.TableOfRemove` | app.py:304-305 | deleting one row removes only that id |
| `Store.TransactionStore.Get` | app.py:286 | `get_or_404`: the record with that id, or not-found when there is none |
| `Store.TransactionStore.Add` | app.py:243-252 | inserts the form's record under the next rowid; every other record is kept |
| `Store.TransactionStore.Edit` | app.py:286-296 | not-found changes nothing; otherwise only that record changes, and it gets exactly the six form fields while keeping its id and created_at |
| `Store.TransactionStore.Delete` | app.py:303-305 | not-found changes nothing; otherwise exactly that id leaves the table, exactly that record leaves the rows, and the removed record is returned; afterwards no row has that id |
| `Lifecycle.AddThenList` | app.py:240-280 | after an add, listing the transactions filtered by the new record's date, category, payment mode and type shows the new record, and only table records that pass those filters |
| `Lifecycle.DeleteThenReport` | app.py:301-305 | after a delete, the report's expense and income rows hold no record with that id, and the expense total has dropped by the record's amount when it was an expense in the range |
| `Lifecycle.RemovedFromViews` | app.py:301-305 | once a record is taken out, it is in no later query, and the report's totals and count over any window and the dashboard's totals and today's expense drop by its amount (or by one) exactly where it counted |
| `Lifecycle.ReportRemoved` | app.py:301-305 | the records of one type in a window lose the removed record exactly when it has that type and lies in the window |
| `Export.DigitsRoundTrip` | app.py:328 | the decimal text of a number reads back as that number |
| `Export.SplitJoin` | app.py:328 | joining cells that hold no comma and splitting at the commas gives back the cells |
| `Export.DateText` | app.py:319 | `str(date)`: 'YYYY-MM-DD' with zero-padded fields; its properties are stated by DateTextRoundTrip |
| `Export.DateTextRoundTrip` | app.py:328 | `str(date)` ('YYYY-MM-DD') of a real date holds no comma and reads back as that date |
| `Export.AmountText` | app.py:322 | `str(amount)` for an amount of cents; its properties are stated by AmountTextRoundTrip |
| `Export.AmountTextRoundTrip` | app.py:328 | `str(amount)` holds no comma and reads back as the same amount |
| `Export.RecordItems` | app.py:317-325 | the six values of a record in header order, a missing description as the missing item; the round trip below states what they read back as |
| `Export.Line` | app.py:328 | the rendered items joined by ',' and ended by '\n', a missing item as the empty cell; the round trip below states what it reads back as |
| `Export.RecordLineRoundTrip` | app.py:317-328 | a record's line is ended by '\n', has the six cells date, description (empty when missing), category, amount, type and payment mode, and reads back as those values |
| `Export.HeaderLine` | app.py:314 | the first line's cells are `Date,Description,Category,Amount,Type,Payment Mode` |
| `Export.ExportCsv` | app.py:310-328 | one line more than there are records: the header line, then each record's line in descending date order |
| `Export.ExportData` | app.py:313-325 | the data list is the header's items, then each record's six items in order |
| `Export.ExportLines` | app.py:327-328 | one line per entry of the data list |

## Left out

- HTTP routing, templates, redirects, `Response` streaming and the `text/csv` headers are
  not modelled. The views' values are modelled, not how they are rendered.
- The SQLAlchemy configuration and the database file location are not modelled.
  created_at's `datetime.utcnow` default and `date.today()` are integer and `Date`
  parameters.
- Amounts are `Float` in the table. The model uses exact integer cents, so float
  rounding, `float(...)` conversions and `round(..., 2)` are not modelled.
- `Report.ReportView.AvgDailyExpense`: exact, without `round(…, 2)` (floats are left out).
- `Report.ReportView.TopCategoryPercent`: exact, without `round(…, 2)` (floats are left out).
- `Report.TopCategoryShare`: stated only for tables with no negative amount. Nothing in the source
  rejects a negative amount, and with one the share can leave [0, 100].
- Parsing input is not modelled: `strptime` of dates, `float()` of the amount, and the
  `KeyError` of a missing form field, with the errors these raise. Dates arrive as
  values; a date argument that is missing or empty is `None`.
- Group order: the source gives no ORDER BY for the category, payment-mode and monthly-report
  groups. The model lists the groups in first-occurrence order, and every property proved
  about them is independent of that order. Likewise, which of several equally large
  categories is the top one is unspecified.
- `Report.ReportView`: the days figure is derived from the stored (from, to) range; the
  source keeps only `days` in a local variable.
- The monthly key `'YYYY-MM'` is the pair `Month(year, month)`, not a string.
- The chart labels (`strftime('%Y-%m-%d')` of the daily series) are kept as `Date` values.
- `Store.TransactionStore`: the table is a sequence in rowid order. The next id is
  max(rowid) + 1, which is SQLite's choice for an `INTEGER PRIMARY KEY` without
  AUTOINCREMENT. The 2^63 rowid overflow, where SQLite picks a random free id, is not
  modelled.
- Database transactions, sessions and concurrent requests are not modelled.
- `Export.AmountTextRoundTrip`: `str()` of a float is modelled for values with at most two
  decimals. The exponent form Python uses from 1e16 upward is not modelled.
- `Export.DateText`: defined for real dates (years 1 to 9999), the only ones a date column
  holds.
- `Export.RecordLineRoundTrip`: the export quotes nothing. A cell holding ',' splits into
  two cells, so the round trip is stated for cells without ','. A '\n' inside a cell is
  kept, since only the line's last character is read as its end. A missing description and
  an empty one give the same empty cell.
- `Listing.ListTransactions`: records with the same date keep the table's order, because
  the model's ORDER BY is a stable sort. `ORDER BY date DESC` leaves their order
  unspecified, so that tie order is not a promise of the source.
- `Export.ExportCsv`: records with the same date appear in the table's order, for the same
  reason; the source leaves their order unspecified.

## Findings

| source | as written | input that shows it | evidently intended | confidence | as-written member | corrected member |
|---|---|---|---|---|---|---|
| app.py:116-133 (also 144, 157, 172, 183, 208) | `Expense.date.between(from_d, to_d)` with `from_d` a midnight `datetime`: the bound is sent as 'YYYY-MM-DD 00:00:00.000000', and the stored 'YYYY-MM-DD' text of a record dated from sorts before it, so the report selects from < date ≤ to | one expense of 100.00 dated 2024-01-01, report from 2024-01-01 to 2024-01-01: total_expense 0, total_transactions 0, days 1 | from ≤ date ≤ to, the range whose days the average divides by and the one the transactions view uses | not executed; rests on SQLAlchemy binding a `datetime` compared with a `Date` column as a DATETIME value | `Report.SourceRange`, `Report.SourceMissesFromDate`, `Report.FromDateDropped` | `Report.IntendedReportOf`, `Report.IntendedRange` |
