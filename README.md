# Bike-rental dashboard aggregations in Dafny

The bike-rental dashboard (`dashboard.py`) reads a daily and an hourly record
set of a bike-sharing service. It draws four tables from them, each a pandas
group-by followed by an aggregation and a sort:

- `create_byMonth_df`: per user type (Casual, Registered) and month, the
  total number of rentals, labelled `"<month> <year>"`;
- `create_bySeason_df`: per season, the mean casual, registered and total
  rentals of a day;
- `create_byWorkingday_df`: the same means per weekday, over working days only
  (`holiday == 0`);
- `create_byHourly_df`: the same means per hour of the day, over the hourly
  records.

This project models those four functions and proves what they compute.

- `order.dfy` (module `Order`): group keys as tuples of numbers and strings,
  and the order pandas sorts groups in (Python tuple order, strings by code
  point). This order is proved to be a strict total order.
- `groupby.dfy` (module `GroupBy`): the part of `groupby(...).agg(...)` the
  dashboard uses:
  - the sorted distinct keys;
  - each key's group;
  - `sum` and `mean`.

  Properties proved:
  - the keys are exactly the keys that occur, and none of their groups is
    empty;
  - the groups partition the records, so their sums add up to the column's sum;
  - a mean times its group's size is the group's sum, and it lies between the
    group's minimum and maximum.
- `rental.dfy` (module `Rental`): the two record types, reduced to the columns
  the aggregations read, and Python's `str` of an integer, with its inverse.
- `dashboard.dfy` (module `Dashboard`): the four views and their properties.

The monthly view is the method `Dashboard.CreateByMonth`. It runs the steps of
the source in order:
1. group the records by `(year, mnth, month)` and sum `casual`; the same for
   `registered`;
2. tag each table with its user type and its `monthYear` label;
3. concatenate the two tables;
4. regroup by `(user_type, year, mnth, monthYear)`, summing `total_user`;
5. put the rows in order.

Its postcondition says:
- there is one Casual and one Registered row for every month present;
- each row's label belongs to a month of the input;
- each row's total is the sum over exactly the records carrying that label;
- the Casual totals add up to the whole `casual` column, and the Registered
  totals to the whole `registered` column;
- the rows are strictly ascending by their group key, with every Casual row
  before every Registered row;
- when month names are consistent (one name per year and month number), the
  rows are strictly ascending by `(user_type, year, mnth)`.

Casual rows come before Registered rows because the final sort compares the
`user_type` strings and `"Casual" < "Registered"`. The concatenation order
plays no part: the second group-by re-sorts the rows anyway.

`str` never produces a blank. So the label determines the month name and the
year it was built from (`MonthYearInjective`), and selecting records by label
selects the same month as selecting them by name.

A group keeps every copy of a record (`GroupMultiset`, `WorkingDaysMultiset`).
This matters for the hourly records, which keep only four columns, so the same
record can occur on many days; every copy counts towards a mean.

The three mean views are pure functions over one shared mean-view engine
(`MeanView`). For each view it is proved that:
- there is one row per key present, and no row for a key that is absent;
- the rows ascend by the leading number (season, weekday, hour);
- every mean is the exact mean of its non-empty group.

The weekday view additionally drops holiday records. Adding a holiday record
anywhere changes nothing. A weekday with only holiday records has no row, and
an input of only holidays gives an empty view. An empty input gives an empty
view for every table.

A view row keeps its group key, which `reset_index` would turn back into
columns. Means are exact rationals. pandas computes them in floating point.

## Model

| member | source | states |
|---|---|---|
| Order.KeyLessTransitive | dashboard.py:12-14 | the order groups are sorted in is transitive |
| Order.KeyLessTotal | dashboard.py:12-14 | any two distinct keys are ordered one way or the other, so sorting groups is well defined |
| Order.KeyLessAsymmetric | dashboard.py:33-35 | a key never precedes itself, and never precedes a key it follows |
| Order.KeyLessPrefix | dashboard.py:35 | for keys that differ already in their first columns, the sort order is decided by those columns |
| Order.Insert | dashboard.py:12 | adding a key to an ascending list of distinct keys keeps it ascending and holds exactly the old keys plus the new one |
| GroupBy.GroupKeys | dashboard.py:12 | the group keys come out strictly ascending |
| GroupBy.GroupKeysSpec | dashboard.py:12 | the group keys are exactly the keys that occur in the records, each once, and every one has a non-empty group |
| GroupBy.Group | dashboard.py:12 | a group holds exactly the records with that key |
| GroupBy.GroupMultiset | dashboard.py:61 | a group keeps every copy of a matching record: each record occurs in its group exactly as often as in the input, and in no other group |
| GroupBy.KeySetOfDistinct | dashboard.py:33 | records whose keys are pairwise different yield as many keys as records |
| GroupBy.GroupOfUniqueKey | dashboard.py:33-34 | the group of a key that only one record carries is that record alone |
| GroupBy.GroupCongruent | dashboard.py:16 | two key functions that select the same records give the same group |
| GroupBy.SumOfBounds | dashboard.py:41-45 | the sum of values between `lo` and `hi` lies between `n*lo` and `n*hi` |
| GroupBy.SumOf | dashboard.py:12-14 | the `sum` aggregation; `PartitionSum` proves the groups' sums add up to the column's sum and `SumOfBounds` bounds it by the group size |
| GroupBy.Mean | dashboard.py:41-45 | the `mean` aggregation, exactly; `MeanTimesCount` and `MeanWithinGroup` carry its contract |
| GroupBy.MeanTimesCount | dashboard.py:41-45 | a non-empty group's mean times its size is its sum |
| GroupBy.MeanWithinGroup | dashboard.py:41-45 | a mean lies between the group's smallest and largest value |
| GroupBy.MinOf | dashboard.py:41-45 | the minimum of a non-empty group bounds every value and is one of them |
| GroupBy.MaxOf | dashboard.py:41-45 | the maximum of a non-empty group bounds every value and is one of them |
| GroupBy.PartitionSum | dashboard.py:12-14 | over keys that cover every record once, the groups' sums add up to the sum over all records |
| GroupBy.SumOverKeysStep | dashboard.py:12-14 | removing the first record removes its value from the one group it belongs to |
| Rental.Digits | dashboard.py:16 | the decimal digits of a natural number form a non-empty string of digit characters, with a leading zero only for 0 |
| Rental.IntToStr | dashboard.py:16 | `str` of an integer is non-empty, starts with a minus sign exactly when the integer is negative, has digits everywhere else, and has no leading zero except for `"0"` itself |
| Rental.IntToStrRoundTrip | dashboard.py:16 | `int(str(i)) == i` |
| Dashboard.BlankSeparates | dashboard.py:16 | in `month + " " + str(year)` the blank after the month is the last blank |
| Dashboard.MonthYear | dashboard.py:16 | the `monthYear` label `month + " " + str(year)`; `MonthYearInjective` proves the label determines the month name and the year |
| Dashboard.MonthYearInjective | dashboard.py:16 | equal `monthYear` labels come from equal month names and equal years |
| Dashboard.LabelGroupIsMonthGroup | dashboard.py:16 | the records with a given year, month number and label are the records with that year, month number and month name |
| Dashboard.MonthlySums | dashboard.py:12-14 | one table of monthly sums (lines 22-24 build the other); `MonthlySumsSpec` carries its contract |
| Dashboard.MonthlySumsSpec | dashboard.py:12-14 | one row per month present, in key order, each holding the column's sum over that month's records |
| Dashboard.TagTotals | dashboard.py:15-20 | a tagged row's `total_user` is the sum over the records carrying its label |
| Dashboard.Tag | dashboard.py:15-20 | a table of sums with its user type and label added and its column renamed (lines 25-30 for the other type); `TagSpec` carries its contract |
| Dashboard.TagLabelsFromRecords | dashboard.py:16 | every tagged label is the label of some record |
| Dashboard.TagLabelsCover | dashboard.py:16 | every record's label appears in the tagged table |
| Dashboard.TagLabelsDistinct | dashboard.py:15-16 | no two tagged rows share a label |
| Dashboard.TagSpec | dashboard.py:15-30 | a tagged table has one row per month present, all of its user type, with exactly the records' labels, each once, and each holding its month's sum |
| Dashboard.MergedKeysDistinct | dashboard.py:32 | no two rows of the concatenated table share a `(user_type, year, mnth, monthYear)` key |
| Dashboard.RegroupRowAt | dashboard.py:33-35 | the `i`-th regrouped row carries the `i`-th key and is one of the concatenated rows |
| Dashboard.Regroup | dashboard.py:33-35 | the second group-by, summing `total_user`, and its sort; `RegroupSpec` carries its contract |
| Dashboard.RegroupKeeps | dashboard.py:33-35 | every concatenated row survives the regrouping unchanged |
| Dashboard.RegroupRows | dashboard.py:33-35 | the regrouping has as many rows as the concatenated table, each one of its rows, in key order |
| Dashboard.RegroupSpec | dashboard.py:33-35 | with unique keys, the regrouping is the concatenated table re-ordered strictly ascending by key |
| Dashboard.RegroupedType | dashboard.py:32-35 | the labels and totals of one user type carry over from its tagged table to the view |
| Dashboard.ViewTypes | dashboard.py:15-32 | every row of the view is a Casual or a Registered row |
| Dashboard.TypeLabels | dashboard.py:33-35 | lists exactly the labels of the rows of one user type |
| Dashboard.TypeTotalConserved | dashboard.py:12-35 | one user type's totals add up to the whole column when its rows cover each month once |
| Dashboard.MonthlyOrderFacts | dashboard.py:35 | within a type labels differ; Casual rows precede Registered rows; consistent month names make the rows strictly ascending by `(user_type, year, mnth)` |
| Dashboard.MonthlyRowsSpec | dashboard.py:32-35 | the view has two rows per month; each row's labels and totals are those of its user type |
| Dashboard.CreateByMonth | dashboard.py:10-37 | returns the regrouped concatenation of the two tagged sum tables; one Casual and one Registered row per month present, labelled after it; each total is its month's sum; totals add up to the columns; rows in sort order, Casual first; empty input gives no rows |
| Dashboard.MonthlyView | dashboard.py:12-35 | the whole monthly pipeline as one expression; `CreateByMonth`'s postcondition and `MonthlyExample` state what it computes |
| Dashboard.MonthlyExample | dashboard.py:10-37 | two January 2024 days with casual 10 and 20 and registered 40 and 60 give exactly a Casual row of 30 and then a Registered row of 100, both labelled `"January 2024"` |
| Dashboard.MeanView | dashboard.py:41-45 | one row of means per group, in key order; `MeanViewKeys` and `MeanViewMeans` carry its contract |
| Dashboard.MeanIsMeanOf | dashboard.py:41-45 | a group's mean times its size is its sum, and lies between its extremes |
| Dashboard.MeanViewKeys | dashboard.py:41-45 | a mean view has one row per key present and no other, strictly ascending by key; empty input gives no rows |
| Dashboard.MeanViewMeans | dashboard.py:41-45 | each mean-view row holds the three means of its own non-empty group |
| Dashboard.ViewByLeadingNumber | dashboard.py:45 | rows keyed by `[number, name]` ascend by the number, strictly when each number has one name |
| Dashboard.CreateBySeason | dashboard.py:39-47 | the season view; `CreateBySeasonSpec` and `CreateBySeasonMeans` carry its contract |
| Dashboard.CreateBySeasonSpec | dashboard.py:39-47 | one row per season present, ascending by season and strictly so when season names are consistent; empty input gives no rows |
| Dashboard.CreateBySeasonMeans | dashboard.py:41-45 | a season row's means are those of exactly that season's records |
| Dashboard.WorkingDays | dashboard.py:51 | keeps exactly the records with `holiday == 0` |
| Dashboard.WorkingDaysMultiset | dashboard.py:51 | the holiday filter keeps each working day exactly as often as it occurs and drops every copy of a holiday |
| Dashboard.WorkingDaysConcat | dashboard.py:51 | the query distributes over concatenation |
| Dashboard.CreateByWorkingday | dashboard.py:49-57 | the weekday view over working days; `CreateByWorkingdaySpec`, `CreateByWorkingdayMeans` and `HolidayIgnored` carry its contract |
| Dashboard.CreateByWorkingdaySpec | dashboard.py:49-57 | one row per weekday that has a working day and none for any other; ascending by weekday; all-holiday or empty input gives no rows |
| Dashboard.CreateByWorkingdayMeans | dashboard.py:51-55 | a weekday row's means are those of exactly that weekday's working days |
| Dashboard.WeekdayHolidayExample | dashboard.py:49-57 | three Monday holidays and one working Tuesday give a single row, the Tuesday's, and no Monday row |
| Dashboard.HolidayIgnored | dashboard.py:51 | inserting a holiday record anywhere leaves the weekday view unchanged |
| Dashboard.CreateByHourly | dashboard.py:59-67 | the hour view; `CreateByHourlySpec` and `CreateByHourlyMeans` carry its contract |
| Dashboard.CreateByHourlySpec | dashboard.py:59-67 | one row per hour present, strictly ascending by hour; empty input gives no rows |
| Dashboard.CreateByHourlyMeans | dashboard.py:61-65 | an hour row's means are those of exactly that hour's records |
| Dashboard.HourlyDuplicateExample | dashboard.py:59-67 | identical hourly records all count towards the mean: two copies of a record with registered 1 and one with registered 4 give a registered mean of 2 |

## Left out

- Reading the CSV files and converting `dteday` to dates (dashboard.py:71-77) is left out: the views take the record sets as parameters.
- The date-range filter and the sidebar (dashboard.py:79-94) are left out: the views receive the already-filtered records.
- The Streamlit page, metrics, charts and display renames (dashboard.py:96 onward) are left out: they are presentation only.
- Dashboard.MeanView: means are exact rationals, not 64-bit floats, so rounding is not modelled.
- GroupBy.SumOf: sums are unbounded integers, so 64-bit overflow of a pandas `int64` column is not modelled.
- GroupBy.Mean: the value for an empty group (pandas would yield NaN) is fixed to 0. The case never arises, because every group key comes from a record.
- Dashboard.CreateBySeason: `sort_values(by="season")` is not a stable sort in pandas. Rows with equal `season` but different `seasonStr` come out in an unspecified order. The model keeps them in group-key order. What is proved holds for every tie order: rows are ascending by season, strictly when `seasonStr` is a function of `season`.
- Dashboard.CreateByWorkingday: the same tie order applies to `sort_values(by="weekday")`, with the same proved properties for `dayName`.
- Dashboard.CreateByMonth: the two single-column renames and the in-place column assignments are modelled as building the renamed rows directly. Strict order by `(user_type, year, mnth)` is proved only under `MonthNamesConsistent`; without it, ties are ordered by label.
- Dashboard.CreateByMonth: the `month` column is not in the second group-by, so that column is dropped, as in the source.
- GroupBy.Group: no postcondition states that a group keeps the input order of its records (the body does); sums and means do not depend on that order.
- Columns the views do not read (`dteday`, `temp`, `weathersit`, and so on) are not part of the record types.
