# Personal finance tracker — a Dafny model of its transaction store and insights

The tracker is a single-user dashboard. The user records income and expense
transactions, browses the history with a category and date-range filter,
looks at totals, a per-category spending breakdown and a monthly trend, and
compares this month's spending with per-category budget goals. Behind the
widgets sit two small pieces of logic, and this project models both:

- the **transaction store**: an append-only list of records
  `(date, amount, category, description)`. The add form appends a record
  only when the amount is positive and the description is non-empty, and
  then rewrites the transaction file (`store.dfy`);
- the **insight queries**, recomputed on every page view:
  - the history view sorts newest first, then filters by category and by
    an inclusive date range (`history.dfy`);
  - income, spending and net savings, and spending per category
    (`insights.dfy`);
  - the monthly trend, which sums *all* rows, Income included, into
    consecutive calendar months; months without rows count 0
    (`insights.dfy`);
  - the budget goals kept in the session, and the budget-versus-actual
    table for a given month (`budget.dfy`).

The building blocks are in `ledger.dfy`: categories, the transaction
record, row selection (`Where`, a boolean mask) and `Total` (the sum of the
`amount` column). `dates.dfy` holds dates, calendar months and the
`YYYY-MM-DD` text form, which is the full-date form of section 5.6 of
RFC 3339. `scenario.dfy` states the salary-and-groceries example's expected figures
as assertions about the store and the insight functions.

Modelling choices:

- Amounts are exact `real`s, not floating point.
- A date is a `(year, month, day)` triple with month 1..12 and day 1..31.
  Dates are ordered chronologically.
- A calendar month is a `YearMonth`. `MonthIndex` numbers the months
  consecutively, so "consecutive months" is "consecutive numbers".
- Python dictionaries keep insertion order, so the budget goals are an
  ordered list of `Goal(category, budget)` entries.
- The transaction file is modelled by its contents: `None` while the file
  does not exist, `Some(records)` once it has been written.
- The current month (`datetime.now()`) is a parameter. So are the values
  typed into the goal editor (`entered`) and whether the update button was
  pressed.
- The history view's sort promises only newest-first order and the same
  rows. The model sorts by insertion, but the source's sort may order equal
  dates differently, and no contract depends on that order.

## Model

| member | source | states |
|---|---|---|
| `Store.TransactionStore.Load` | app.py:15-20 | Startup reads the file when it exists and starts with no transactions when it does not; the in-memory list then equals what the file yields. |
| `Store.TransactionStore.Save` | app.py:22-24 | The file is overwritten with the whole in-memory list, so reloading it gives that list back. |
| `Store.TransactionStore.Add` | app.py:42-54 | The record is accepted exactly when amount > 0 and the description is non-empty. When accepted, it is appended at the end, all earlier records are kept in order, and the file holds the new list. When rejected, the list and the file are unchanged and the outcome is an error. |
| `Dates.ParseFormatDate` | app.py:45 | A date written as `YYYY-MM-DD` text and read back is the same date. |
| `Dates.MonthAtSucc` | app.py:129 | Consecutive month numbers are consecutive calendar months; December is followed by January of the next year. |
| `Dates.MonthAtIndex` | app.py:129 | Numbering months is one-to-one: every month is recovered from its number. |
| `Ledger.WhereCount` | app.py:80-87 | A boolean mask keeps every row it accepts, as often as it occurs, and drops every other row. |
| `Ledger.IncomeAndExpensesPartition` | app.py:108-112 | Total income plus total spending equals the sum of all amounts. |
| `Ledger.TotalSplit` | app.py:108-120 | Selecting rows by either of two disjoint conditions sums to the sum of the two separate selections. |
| `History.SortNewestFirst` | app.py:65 | The rows come out newest first, and they are the same rows with the same multiplicities. |
| `History.WhereKeepsNewestFirst` | app.py:80-87 | Filtering a newest-first list keeps it newest first. |
| `History.TransactionHistory` | app.py:59-87 | An empty store gives the "no transactions" notice. Otherwise the table is newest first. A row appears exactly when it has the chosen category (or the filter is "All") and its date is within the range, both ends included; it appears as many times as it occurs in the store. |
| `History.EarliestDate` | app.py:76 | The default range start is the date of some transaction and is on or before every transaction's date. |
| `History.LatestDate` | app.py:76 | The default range end is the date of some transaction and is on or after every transaction's date. |
| `History.DefaultFiltersShowEverything` | app.py:70-87 | With "All" and the default range, the table holds exactly the store's rows. |
| `Insights.Summarize` | app.py:107-117 | Income and spending add up to the sum of all amounts; net savings is income minus spending. |
| `Insights.Breakdown` | app.py:120 | The keys are exactly the non-Income categories that occur in the data, so Income and categories without rows are never keys. Each value is the sum of that category's rows. |
| `Insights.ListedTotalIsTotal` | app.py:120 | Summing category by category over distinct categories equals summing the rows of all of them at once. |
| `Insights.BreakdownSumsToExpenses` | app.py:112-120 | The breakdown's values add up to total spending. |
| `Insights.MonthlyTrend` | app.py:129 | There are no buckets for an empty store. Otherwise the first bucket is the month of the oldest transaction and the last the month of the newest. Each next bucket is the next calendar month. Each bucket holds the sum of all rows dated in its month, Income included. |
| `Insights.BucketsSumRange` | app.py:129 | A run of consecutive month buckets sums to the rows dated in the months it spans. |
| `Insights.TrendSumsToTotal` | app.py:129 | The bucket totals add up to the sum of all amounts. |
| `Insights.TrendCoversEveryMonth` | app.py:129 | Every transaction's month has a bucket in the trend. |
| `Insights.QuietMonthIsZero` | app.py:129 | A month without transactions totals 0. |
| `Insights.FinancialInsights` | app.py:94-135 | An empty store gives the "no data" notice. Otherwise the breakdown adds up to total spending and the trend adds up to income plus spending. |
| `Budget.DefaultGoalsCoverSpending` | app.py:141-150 | The seven default goals are one per spending category, in the add form's order. |
| `Budget.CollectEditedGoals` | app.py:155-165 | The edited goals have the same categories in the same order, each holding the amount entered for it. |
| `Budget.BudgetSession.constructor` | app.py:141 | A new session has no goals. |
| `Budget.BudgetSession.EditGoals` | app.py:141-169 | The defaults are seeded only when the session has no goals. Pressing update replaces the goals wholesale with the entered amounts under the same categories; otherwise the goals stay as they were. The goals always stay one per spending category. |
| `Budget.MonthActual` | app.py:176-184 | The breakdown of the month's rows, looked up with 0 as the default, equals the sum of the non-Income rows of that category dated in that month. |
| `Budget.NoSpendingMeansZero` | app.py:184 | A category without rows in the month has an actual of 0. |
| `Budget.CompareWithBudget` | app.py:172-190 | There is no table when the store is empty. Otherwise there is one row per goal, in goal order, holding the goal's category and budget and the month's non-Income spending in that category. Remaining is budget minus actual, so it is negative when overspent. |
| `Budget.ActualsCoverMonthSpending` | app.py:176-190 | With one goal per spending category, the actuals add up to everything spent in the month. |
| `Scenario.ScenarioSummary` | app.py:108-116 | Salary 1000 and groceries 200 give income 1000, spending 200 and savings 800. |
| `Scenario.ScenarioBreakdown` | app.py:120 | The same two rows break down to Food alone, at 200. |
| `Scenario.ScenarioTrend` | app.py:129 | The same two rows give the single month March 2024, at 1200 (Income included). |

## Left out

- Streamlit widgets, layout, the sidebar menu, `run` and `main`: these are presentation only. The widget-level bound `min_value=0.0` on the amount and goal inputs is enforced by the widget library, not by this code.
- Plotly charts: rendering only. The `$…,.2f` currency formatting is left out too.
- JSON reading and writing: the file is modelled by the records it holds. A file that exists but is malformed makes the source fail at startup, and that failure is not modelled. Records in a hand-edited file with a category outside the fixed set, or with other field types, are not modelled.
- `datetime.now()`: the current month is a parameter of the budget comparison.
- Floating-point amounts: amounts are exact reals, so rounding in sums is not modelled.
- pandas internals: the month-end timestamps that label the monthly buckets (buckets are labelled by calendar month), and the sort algorithm's order among equal dates.
- `History.TransactionHistory`: the date-range widget can briefly return a single date while the user is picking a range, and the source then fails when it reads the second element; the model always takes both ends.
- `Dates.FormatDate`: covers years 0 to 9999 with four zero-padded digits, and does not model how the platform writes years below 1000.
- The day of the month is checked against 1..31 only, not against the length of its month; dates come from a date picker.
- Budget goals are not persisted; as in the source, a new session starts without them.
