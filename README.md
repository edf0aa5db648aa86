# Personal finance tracker: the transaction ledger

A Dafny model of the ledger behind a single-page personal finance tracker
(`app.py`). The page keeps a table of transactions (date, amount, category,
description), lets the user add one transaction per form submission, filters
the table by category, warns when a category's spending exceeds its budget,
and shows a spending breakdown by category and totals by month.

The model covers:

- **Records** (`transactions.dfy`): the seven fixed categories in page order,
  the transaction record, and the record the form builds (date, amount and
  category as picked, description stripped of surrounding whitespace).
- **Text** (`text.dfy`): Python's `str.strip()` over Python's whitespace set,
  Python's string order, and zero-padded decimal digits.
- **Dates** (`dates.dfy`): calendar dates as (year, month, day), their stored
  `YYYY-MM-DD` form, reading that form back, and the (year, month) bucket.
  The table is sorted on the Date column while it still holds strings, so the
  model proves that comparing the stored strings orders dates chronologically.
- **Views** (`aggregates.dfy`): the category filter, totals, the per-category
  group-by with its displayed total, the per-month group-by, and the table
  ordered newest first.
- **Budget evaluator** (`budget.dfy`): the loop over the fixed categories that
  compares each category's spending over the whole ledger with its limit.
- **Store** (`store.dfy`): the `Ledger` class holding the in-memory table and
  the rows last written to the transactions file, the append that rewrites the
  file, and one run of the page.

Amounts are exact non-negative integers of cents. Budget limits are integers
of cents and may be negative, because the budget inputs have no minimum.

The page takes the filtered view before it handles a form submission. Then it
computes the budget warnings and the monthly totals over the updated table.
So in the run that adds a row, the table and the breakdown do not show the new
row yet, while the warnings and the monthly totals already count it.
`Store.Ledger.RunPage` states this order. Converting the Date column
(app.py:86) fails when a stored date is not a calendar day or lies outside
pandas' timestamp range (1677-09-22 to 2262-04-11); the monthly section then
ends in an error, which the model represents as the absence of monthly totals.

## Model

| member | source | states |
|---|---|---|
| `Transactions.Index` | app.py:9 | every category has exactly one position in the fixed list |
| `Transactions.NameInjective` | app.py:9 | distinct categories have distinct Category texts, so selecting rows by their Category text selects the same rows as selecting by category |
| `Transactions.CategoryListed` | app.py:9 | every category the form can pick is in the fixed list |
| `Transactions.AllCategories` | app.py:24 | the default filter selection contains every category, so no row is filtered out before the user narrows it |
| `Transactions.NewRecord` | app.py:37-42 | the new record keeps the submitted date, amount and category, and its description has no whitespace at either end |
| `Transactions.NewRecordDescription` | app.py:41 | the stored description is an infix of the typed one, and only whitespace was cut on either side |
| `Transactions.NewRecordWellFormed` | app.py:30-42 | a record built from a picked calendar date is well formed, and rebuilding it from itself changes nothing |
| `Text.LeadingSpaces` | app.py:41 | counts exactly the longest run of leading whitespace: every counted character is whitespace and the next one is not |
| `Text.TrailingSpaces` | app.py:41 | counts exactly the longest run of trailing whitespace: every counted character is whitespace and the one before them is not |
| `Text.Strip` | app.py:41 | the result has no whitespace at either end and is the infix that starts after the leading whitespace, with only whitespace after it |
| `Text.StripStripped` | app.py:41 | a string with no whitespace at its ends is unchanged by stripping |
| `Text.StripIdempotent` | app.py:41 | stripping twice equals stripping once |
| `Text.StripEmptyIff` | app.py:41 | a description strips to empty exactly when it is all whitespace |
| `Text.LessTrichotomy` | app.py:60 | Python's string comparison is a strict total order: of two different strings exactly one is smaller, and no string is smaller than itself |
| `Text.LessAppend` | app.py:60 | string order on equal-length prefixes: the prefixes decide, and the rests decide only when the prefixes are equal |
| `Text.ZeroPad` | app.py:38 | a zero-padded number has exactly the requested width and only digits |
| `Text.DigitsValue` | app.py:86 | the value of a digit string is below ten to the power of its length |
| `Text.DigitsValueZeroPad` | app.py:38 | reading back a zero-padded number gives the number |
| `Text.ZeroPadDigitsValue` | app.py:86 | padding the value of a digit string gives the string back |
| `Text.ZeroPadLess` | app.py:60 | equal-width zero-padded numbers compare as strings exactly as the numbers compare |
| `Dates.DaysInMonth` | app.py:30 | a month has 28 to 31 days, and 29 exactly for February of a leap year |
| `Dates.Iso` | app.py:38 | the stored date is ten characters with dashes at positions 4 and 7 |
| `Dates.ParseIso` | app.py:86 | a successful read yields a calendar date whose stored form is exactly the string read |
| `Dates.ToDatetime` | app.py:86 | converting a stored date string succeeds only for a calendar day inside pandas' timestamp range, and yields the date whose stored form is that string |
| `Dates.ToDatetimeIso` | app.py:86 | the stored form of a calendar date converts back to that date exactly when the date lies inside the timestamp range, and fails otherwise |
| `Dates.IsoOfFields` | app.py:86 | a calendar date read from the three digit fields of a `YYYY-MM-DD` string is written back as exactly that string |
| `Dates.IsoRoundTrip` | app.py:38 | writing a date and reading it back gives the same date |
| `Dates.IsoOrder` | app.py:38 | comparing two stored dates as strings agrees with chronological order, in both directions |
| `Dates.MonthOfMonotone` | app.py:87 | bucketing a date by its month keeps chronological order: an earlier date falls in the same or an earlier month, and an earlier month holds only earlier dates |
| `Aggregates.Filter` | app.py:25 | the view is no longer than the ledger, holds only rows of selected categories, each of them a ledger row, and is empty when no row's category is selected |
| `Aggregates.FilterCounts` | app.py:25 | every row of a selected category is kept as many times as it occurs, and every other row is dropped |
| `Aggregates.FilterMembers` | app.py:25 | a row is in the filtered view exactly when it is in the ledger and its category is selected |
| `Aggregates.FilterAppend` | app.py:25 | filtering two parts of a ledger keeps each part's rows in their order, first part first |
| `Aggregates.FilterKeepsAll` | app.py:25 | the filter returns the whole ledger exactly when every row's category is selected |
| `Aggregates.DefaultFilterKeepsAll` | app.py:24-25 | with the default selection of all categories the filtered view is the whole ledger |
| `Aggregates.Total` | app.py:79 | no single amount exceeds the total, and the total is zero exactly when every amount is zero |
| `Aggregates.TotalAppend` | app.py:79 | totals add up over concatenation of ledgers |
| `Aggregates.CategorySum` | app.py:52 | a category's spending never exceeds the ledger total and is zero when no row has that category |
| `Aggregates.FilterTotalAtMost` | app.py:52 | the rows the filter keeps add up to at most the whole ledger |
| `Aggregates.CategorySumAppend` | app.py:52 | per-category spending is additive over concatenation of ledgers |
| `Aggregates.KeySum` | app.py:73 | a bucket total never exceeds the ledger total and is zero when no row falls in the bucket |
| `Aggregates.BucketsTotalCons` | app.py:73 | one more row adds its amount to the totals of distinct buckets once if its bucket is listed, else not at all |
| `Aggregates.BucketsCoverTotal` | app.py:73 | the totals of distinct buckets that cover every row add up to the total of all amounts |
| `Aggregates.GroupedSumIsCategorySum` | app.py:73 | grouping by category sums the same amounts as the budget check's one-category filter |
| `Aggregates.CategorySummary` | app.py:73 | the breakdown has an entry for exactly the categories present in the view, each holding that category's spending |
| `Aggregates.SummaryTotalIsTotal` | app.py:79 | the sum of the per-category entries equals the sum of all amounts in the view |
| `Aggregates.SpendingBreakdown` | app.py:72-82 | no breakdown exactly for an empty view; otherwise the shown total is the sum of the entries and equals the view's total |
| `Aggregates.InsertMonth` | app.py:88 | adding a month keeps the month list strictly ascending and adds exactly that month |
| `Aggregates.MonthsOf` | app.py:87-88 | the months listed are exactly the months of the rows, strictly ascending |
| `Aggregates.MonthlyView` | app.py:86-88 | the monthly section fails exactly when some stored date does not convert; otherwise it shows the monthly summary, whose totals add up to the ledger total |
| `Aggregates.MonthlySummary` | app.py:86-88 | one entry per month that occurs, strictly ascending; every row's month has an entry; each entry holds its month's total |
| `Aggregates.MonthlySummaryTotal` | app.py:88 | the monthly totals add up to the total of all amounts |
| `Aggregates.InsertNewestFirst` | app.py:60 | inserting a row keeps the newest-first order and adds exactly that row |
| `Aggregates.SortNewestFirst` | app.py:60 | the result is a permutation of the input, with dates non-increasing |
| `Aggregates.IsoSortAgrees` | app.py:60 | ordering by the stored date strings and ordering by the dates are the same condition |
| `Aggregates.TableView` | app.py:60 | the table is a permutation of the filtered view, newest date first, and also ordered by the stored date strings |
| `Budget.DefaultLimits` | app.py:49 | every category, whatever it is, has a budget input, and each starts at 1000.00 |
| `Budget.AlertsFor` | app.py:50-54 | at most one warning per category examined; each warning names an examined category whose spending is strictly above its limit |
| `Budget.AlertsForExtends` | app.py:51-54 | examining one more category keeps the earlier warnings unchanged and adds at most one warning, for that category, at the end |
| `Budget.BudgetAlerts` | app.py:50-54 | the loop yields exactly `Budget.AlertsFor` over the fixed category list |
| `Budget.AlertsForMembers` | app.py:51-54 | a warning is present exactly for a listed category whose spending is strictly above its limit, and it carries both amounts |
| `Budget.AlertIff` | app.py:51-54 | a category is warned about if and only if its total over the whole ledger is strictly greater than its limit; equal to the limit is no warning |
| `Budget.AlertsOrderedPrefix` | app.py:51 | the warnings for the first n categories name only those categories, in increasing list position |
| `Budget.AlertsInCategoryOrder` | app.py:9-54 | at most one warning per category, in the fixed category order |
| `Budget.NoAlertsForEmptyLedger` | app.py:50-54 | an empty ledger raises no warning for categories with non-negative limits |
| `Budget.NoAlertsByDefault` | app.py:49-54 | with an empty ledger and the budget inputs at their defaults the page shows no warning |
| `Budget.AlertsPersistAfterAppend` | app.py:43-54 | with the same limits, appending rows never removes a warning |
| `Scenarios.OverBudgetFood` | app.py:49-54 | a Food purchase of 1200.00 under the default limits raises the Food warning with both amounts and nothing else |
| `Scenarios.FoodOnlyTable` | app.py:24-25 | with Food and Transport rows and only Food selected, the table shows only the Food row |
| `Scenarios.FoodOnlyBreakdown` | app.py:72-79 | with the same rows and only Food selected, the breakdown is Food = 300.00 with total 300.00 |
| `Scenarios.LeapDayFields` | app.py:86 | the digit fields of `2024-02-29` read back as 2024, 2 and 29 |
| `Scenarios.LeapDayConverts` | app.py:86 | the stored leap day `2024-02-29` converts to that date |
| `Scenarios.EarlyYearFails` | app.py:86 | `1500-01-01`, a calendar day before the timestamp range, does not convert |
| `Scenarios.NonCalendarDayFails` | app.py:86 | `2024-02-30`, which is not on the calendar, does not convert |
| `Scenarios.UnconvertibleLedgerHasNoMonthly` | app.py:86-88 | a ledger holding 2024-02-30 or 1500-01-01 shows no monthly totals |
| `Store.Ledger.Create` | app.py:12-14 | without a transactions file the ledger starts empty and the file holds no rows |
| `Store.Ledger.Load` | app.py:15-16 | with a transactions file the ledger starts with its rows |
| `Store.Ledger.Append` | app.py:36-44 | the new record is added last, earlier rows are unchanged, the file is rewritten with the whole table, and well-formedness is kept |
| `Store.Ledger.RunPage` | app.py:24-88 | one run: the table and breakdown come from the filter taken before the append; warnings and the monthly section come from the updated table, and the monthly section fails when a stored date does not convert |

## Left out

- Page setup, headers, the form frame and submit button, success and info messages, the warning box and the footer (app.py:19-20, 23, 28-29, 35, 45, 48, 55-56, 59, 71, 80-82, 85, 93-95): presentation only. The values the widgets return (the filter selection at app.py:24, the form fields at app.py:30-33, the budget inputs at app.py:49) are parameters of the model.
- Chart drawing (app.py:74-77, 89-91): rendering through plotting libraries.
- CSV reading and writing (app.py:12-16, 44): the file is modelled as the field `stored`, a snapshot of rows; the CSV layout, quoting and pandas' type inference on reading (an empty description reads back as a missing value) are not modelled.
- Export (app.py:63-68): the download's rows are the filtered view; its CSV serialization is not modelled.
- Floating-point amounts and the `%.2f` formatting of the warning text and the total (app.py:31, 54, 80): amounts are exact cents, and a warning is the record `Budget.Alert` rather than its message text.
- Rows of a hand-edited transactions file that the form could not have written are representable only in part. A date is any (year, month, day) triple: a triple that is not a calendar day, or one outside the timestamp range, is stored and counted by the filter, the totals and the budget warnings, and makes the monthly section fail (`Aggregates.MonthlyView`), as app.py:86 does. These cannot be represented: a Category text that is not one of the seven names, which the default filter drops; a negative, non-numeric or empty Amount, which pandas reads as a negative number, text or NaN; and a Date cell that is empty or not in `YYYY-MM-DD` form, which sorts as a string at app.py:60 and which `pd.to_datetime` at app.py:86 may reject or read differently.
- The in-place conversion of the Date column and the added Month column (app.py:86-87) are represented by the derived bucket `Aggregates.MonthKey`; they are never written to the file, which is saved earlier in the run.
- Dates.ParseIso: reads only the `YYYY-MM-DD` form the page writes; `pd.to_datetime` accepts many more formats, which the model does not cover. It accepts every calendar day of the years 1 to 9999; the timestamp range that pandas 2.x enforces is applied on top of it by `Dates.ToDatetime`.
- Dates.InTimestampRange: the range of nanosecond timestamps that pandas 2.x uses; versions of pandas that infer a coarser resolution for strings accept a wider range, which the model does not follow.
- Dates.Iso: always pads the year to four digits; some platforms' `strftime` does not pad years below 1000, which the date picker does not reach by default.
- Aggregates.TableView: promises only that rows come newest first and form a permutation of the filtered view; the order among rows of the same date is left open, because the sort pandas uses by default is not stable.
- Scenarios.OverBudgetFood: states which warnings are present, not the list's length; at most one warning per category follows from `Budget.AlertsInCategoryOrder`.
