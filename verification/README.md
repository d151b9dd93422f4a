# Bike-rental dashboard: data layer

This project models the data layer of a Streamlit dashboard over a
bike-sharing rental table (`dashboard/dashboard.py`). The dashboard loads the
table and derives a `month` and a `season` column for each row. It filters the
rows to a date range chosen in the sidebar, then shows three aggregations:

- rentals (`cnt`) per month and per season;
- visitors per day, with the grand total of casual and registered visitors;
- rentals per distinct temperature value.

Everything in the model is a pure function over sequences of rows. Each
function's contract states what it promises; lemmas relate the functions to
one another and work through an example.

- `grouping.dfy`, module `Grouping`: the data-frame operation
  `groupby(key)[column].sum()`, written generically. The result has one
  `Group(key, total)` per distinct key present, in ascending key order, and
  each total is the column's sum over that key's rows (`SumBy`). The key order
  is passed in as a strict total order, and the column sum is conserved.
- `calendar.dfy`, module `Calendar`: parsed dates (year, month, day of the
  Gregorian calendar, validity included) and their chronological order.
- `dashboard.dfy`, module `Dashboard`: the month-to-season dictionary, raw
  and prepared rows, the derivation of `month`/`season`, the inclusive date
  filter, the default range (earliest to latest date), and the three
  aggregations.
- `dashboard_properties.dfy`, module `DashboardProperties`: the lemmas about
  the dashboard's operations, and the two-row worked example.

How grouping behaves, as modelled:

- Key order follows the key type. Months are ordered as integers, dates
  chronologically, and temperatures as numbers.
- Seasons are grouped by their string labels, so their entries come out
  alphabetically: Fall, Spring, Summer, Winter. `SeasonOrderIsAlphabetical`
  proves that `SeasonBefore` is this order.
- A key that no row holds has no entry. An empty table gives empty groupings
  and a visitor total of 0.

## Model

| member | source | states |
|---|---|---|
| `DashboardProperties.SeasonLookupIsTotal` | dashboard/dashboard.py:15-19 | the month-to-season dictionary has an entry for a month number exactly when it lies in 1..12 |
| `DashboardProperties.SeasonsHaveThreeMonths` | dashboard/dashboard.py:15-19 | winter is {12, 1, 2}, spring {3, 4, 5}, summer {6, 7, 8}, fall {9, 10, 11}; every season has exactly three months |
| `Dashboard.SeasonOf` | dashboard/dashboard.py:15-19 | every month 1..12 has a season: Winter exactly for 12, 1, 2, Spring for 3, 4, 5, Summer for 6, 7, 8, Fall for 9, 10, 11 |
| `DashboardProperties.SeasonOrderIsAlphabetical` | dashboard/dashboard.py:25 | the order of season entries is the lexicographic order of the labels "Fall", "Spring", "Summer", "Winter" |
| `Calendar.DaysInMonth` | dashboard/dashboard.py:13 | a parsed date's day lies in 1..28-31; February has 29 days exactly in Gregorian leap years and 28 otherwise; April, June, September and November, and only they, have 30; January, March, May, July, August, October and December, and only they, have 31 |
| `Dashboard.PrepareRow` | dashboard/dashboard.py:13-19 | a prepared row keeps the raw columns; its `month` is its date's month and its `season` the dictionary's season of that month |
| `Dashboard.LoadAndPrepare` | dashboard/dashboard.py:13-15 | one prepared row per raw row, with the raw columns unchanged; each row's `month` is its date's month (hence 1..12), and that month is one of its `season`'s months |
| `Dashboard.FilterByDate` | dashboard/dashboard.py:109-110 | a row is kept exactly when it is in the table and start <= dteday <= end, both ends inclusive; the result is no longer than the table |
| `DashboardProperties.FilterByDateAppend` | dashboard/dashboard.py:109-110 | the filter keeps table order: filtering a concatenation is the concatenation of the filtered parts |
| `DashboardProperties.FilterByDateKeepsAll` | dashboard/dashboard.py:109-110 | a table whose every date lies in the range is returned whole |
| `DashboardProperties.FilterByDateIdempotent` | dashboard/dashboard.py:109-110 | filtering twice with the same range gives the same table as filtering once |
| `DashboardProperties.FilterByDateInvertedRange` | dashboard/dashboard.py:109-110 | a range whose end is before its start selects no row |
| `DashboardProperties.FilterByDateKeepsPrepared` | dashboard/dashboard.py:109-110 | the filtered table keeps the derived `month`/`season` consistent with each row's date |
| `Calendar.BeforeIsStrictTotalOrder` | dashboard/dashboard.py:109-110 | date comparison is irreflexive, transitive and total, and "at or before" is the negation of "after" |
| `Dashboard.EarliestDate` | dashboard/dashboard.py:93 | the minimum of `dteday` is a date of the table and at or before every row's date |
| `Dashboard.LatestDate` | dashboard/dashboard.py:94 | the maximum of `dteday` is a date of the table and at or after every row's date |
| `Dashboard.DefaultRange` | dashboard/dashboard.py:93-106 | the initial range exists exactly for a non-empty table; its start and end are dates of the table, the start is at or before the end, and every row's date lies in it |
| `DashboardProperties.DefaultRangeSelectsWholeTable` | dashboard/dashboard.py:93-110 | the initial range [min date, max date] exists exactly for a non-empty table, is not inverted, and the filter with it returns the whole table |
| `Grouping.Keys` | dashboard/dashboard.py:24 | the grouping keys are exactly the keys present in the table |
| `Grouping.GroupBySum` | dashboard/dashboard.py:24-25 | a group-by sum has an entry exactly for each key present, each the column's sum over that key's rows; under a strict total order the keys ascend strictly and the totals add up to the column's sum over the table |
| `Grouping.KeyedEntries` | dashboard/dashboard.py:24-25 | a table with one entry per grouping key, in key order, has an entry exactly for each key present, in strictly ascending order |
| `Grouping.KeyedSumConserves` | dashboard/dashboard.py:24-25 | per-key sums of a column add up to the column's sum over the table |
| `Dashboard.CalculateRentals` | dashboard/dashboard.py:23-26 | `monthly_rentals` has one entry per month present, ascending, and `seasonal_rentals` one per season present, in label order; each is the sum of `cnt` over its rows; either adds up to the sum of `cnt` over the table |
| `DashboardProperties.SeasonTotalIsSumOfMonths` | dashboard/dashboard.py:24-25 | on a prepared table, a season's `cnt` sum equals the sum of the monthly entries whose month belongs to that season |
| `DashboardProperties.SeasonalIsSumOfMonthly` | dashboard/dashboard.py:24-25 | every entry of `seasonal_rentals` equals the sum of the `monthly_rentals` entries of its three months |
| `Dashboard.DailyTotals` | dashboard/dashboard.py:30-34 | `day_df` has one row per distinct date, ascending, holding the sums of `registered`, `casual` and `cnt` over that date's rows; each column sums to the same column of the table |
| `Dashboard.CalculateTotalVisitors` | dashboard/dashboard.py:29-38 | `total_visitor_day` equals the sum of `casual + registered` over all rows, and the returned `day_df` is the per-day table of `DailyTotals` |
| `Dashboard.AnalyzeRentalsByTemp` | dashboard/dashboard.py:41-44 | one entry per distinct `temp` value, ascending, with no bucketing; each counts its rows (at least one) and sums their `cnt`; the counts add up to the number of rows and the sums to the sum of `cnt` over the table |
| `DashboardProperties.EmptyTableGivesEmptyResults` | dashboard/dashboard.py:23-44 | on a table without rows, the monthly, seasonal, per-day and per-temperature results are empty and `total_visitor_day` is 0 |
| `DashboardProperties.TwoRowExample` | dashboard/dashboard.py:13-36 | two rows (2011-01-01, cnt 10) and (2011-06-15, cnt 20) give months {1: 10, 6: 20}, seasons {Summer: 20, Winter: 10} and 30 visitors; the range June 1-30 keeps exactly the June row, whose monthly result is {6: 20} |

## Left out

- Reading the CSV file and parsing `dteday` strings (lines 12-13) are file I/O
  and library date parsing. A table is a sequence of already-parsed rows, and
  a parsed date is any valid Gregorian date. The library's limited timestamp
  range (years 1677 to 2262) is not modelled.
- The `Average Rentals` column (line 42) is a floating-point division. The
  model keeps the two numbers it is computed from: the row count and the
  `cnt` sum of each temperature. `AnalyzeRentalsByTemp` proves the count is at
  least one, so the mean is always defined.
- `temp` is a float in the source. It is modelled as an exact `real` used only
  as an equality and ordering key. NaN temperatures are not modelled; grouping
  would drop them.
- The count columns are modelled as unbounded integers. 64-bit overflow of
  the sums is not modelled.
- The filter compares whole dates. This assumes every `dteday` value in the
  data file is a plain date with no time of day. The source keeps any time
  that parsing finds, and compares against `str(end_date)`, which is midnight
  of the end day. A row stamped later on the end day is then dropped. The
  model does not capture that case.
- The plotting functions (lines 47-87) are chart rendering with no computed
  result.
- The Streamlit page is UI and network plumbing: the sidebar, the logo
  fetched from a URL, the date-input widget's clamping and partial selections,
  the metrics and chart display (lines 97-106, 119-140). Only the filter it
  feeds is modelled, with start and end taken as parameters.
- The unused currency-format import (line 5) is not modelled. The module-level
  load of `all_data.csv` (line 90) is I/O; the table is passed explicitly
  instead.
- `DefaultRange` returns no range for an empty table. In the source, the
  minimum of an empty date column is a missing value, which the date widget
  cannot take. That failure is UI behaviour and is not modelled.
