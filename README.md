# Retail sales pipeline — a Dafny model

`retail_pipeline.py` plays four infrastructure roles over one local sales file:

- a stream aggregator that rolls transactions up per day, category and region;
- a table-format store that writes one snapshot metadata record;
- object storage that holds the aggregate as Parquet;
- a SQL engine that answers three fixed analytical queries.

This project models the data logic of that run as pure functions over sequences. The pandas and SQLite calls are replaced by what they compute.

Modules:

- `Dates` parses an `Order Date` value under `%m/%d/%Y`. The parser follows Python's strptime regular expression:
  - month is `1[0-2]|0[1-9]|[1-9]`;
  - day is `3[01]|[12]\d|0[1-9]|[1-9]| [1-9]`;
  - year is four digits;
  - the whole string must match.

  A match must then name a real calendar day in years 1..9999. That day must also fall inside the range of a nanosecond pandas `Timestamp`, 1677-09-22 to 2262-04-11. Errors are `PatternMismatch`, `NotACalendarDate` and `OutOfTimestampRange`. A zero-padded formatter is the inverse of the parser.
- `Transactions` converts the date column of a whole file. One bad value aborts the load, and no row is skipped.
- `Aggregation` implements the group-by over order day, category and region (retail_pipeline.py:50-65):
  - it puts transactions with exactly equal keys into one group;
  - each group gets sum and mean of `Sales`, sum and mean of `Profit`, sum of `Quantity`, and the number of distinct `Order ID`s;
  - the nine output columns are then renamed by position.
- `Snapshot` builds the table metadata record. Format version is 2, there is one snapshot with id 1, and the properties are parquet and snappy. The clock reading is a parameter, and `int(...)` truncation toward zero is written out.
- `Sequences` and `Ranking` hold the generic pieces:
  - filter by key, and distinct keys in first-appearance order;
  - exact sums;
  - `ORDER BY score DESC LIMIT k`, as an insertion sort followed by a prefix.
- `Queries` turns each SQL query into an explicit pipeline: group the aggregate rows by one column, sum, derive the margin, optionally keep positive revenue, sort, and limit.
  - Top 5 categories by revenue.
  - The 7 latest days.
  - Top 3 regions by margin among regions with revenue > 0.
- `Pipeline` composes the whole run. It succeeds exactly when every date parses, and it keeps the file's totals.

Measures are exact `real`s (quantities are `int`), not floats.

The margin follows the `create_readme` guard (retail_pipeline.py:272): it is `profit / revenue * 100` when revenue > 0, and 0 otherwise.

Three modelling decisions, each grounded in the source:

- **Margin when revenue is not positive.** The SQL at :136 and :164 yields SQLite NULL when revenue is 0, and a plain quotient when revenue is negative. The model uses the guard at :272 instead: 0 unless revenue > 0. That is the one guard the program itself writes down.
- **Ties.** SQLite `ORDER BY` (:139, :153, :167) promises no order among equal sort keys. So the query lemmas state only sortedness.
- **Row order of the aggregate.** pandas sorts the group keys (:52). The model lists groups in first-appearance order. No modelled consumer depends on that order: every query regroups by one column and sorts again.

## Model

| member | source | states |
|---|---|---|
| Dates.ParseDateExact | retail_pipeline.py:40 | a value parses to day (y, m, d) exactly when the whole string matches the %m/%d/%Y pattern with those fields, the day is a real calendar day, and it lies in the Timestamp range |
| Dates.ParseDatePatternMismatch | retail_pipeline.py:40 | the error is PatternMismatch exactly when no field values make the string match the pattern |
| Dates.ParseDateNotACalendarDate | retail_pipeline.py:40 | for a string matching the pattern, the error is NotACalendarDate exactly when the fields name no real day |
| Dates.DaysInMonth | retail_pipeline.py:40 | every month has 28 to 31 days, and 29 exactly for February of a Gregorian leap year |
| Dates.DayOrdinalOrder | retail_pipeline.py:153 | the day number used to order dates agrees with chronological order, and equal numbers mean equal days |
| Dates.FormatDate | retail_pipeline.py:249 | the zero-padded %m/%d/%Y text of a day is 10 characters with slashes at positions 2 and 5 |
| Dates.FormatThenParse | retail_pipeline.py:249 | parsing the %m/%d/%Y text of any day in the Timestamp range gives that day back |
| Dates.ParseSpacePaddedDay | retail_pipeline.py:40 | "12/ 5/2024" is 5 December 2024 (a space may pad the day) |
| Dates.ParseImpossibleDay | retail_pipeline.py:40 | "02/30/2024" matches the pattern but is NotACalendarDate |
| Dates.ParseLeapDayCommonYear | retail_pipeline.py:40 | "02/29/2023" is NotACalendarDate |
| Dates.ParseLeapDayLeapYear | retail_pipeline.py:40 | "02/29/2024" is 29 February 2024 |
| Dates.ParseOutOfRange | retail_pipeline.py:40 | "01/01/1600" is a real day but OutOfTimestampRange |
| Dates.ParseIsoLayout | retail_pipeline.py:40 | "2024-01-05" is PatternMismatch |
| Dates.ParseMonthThirteen | retail_pipeline.py:40 | "13/01/2024" is PatternMismatch |
| Dates.ParseShortYear | retail_pipeline.py:40 | "01/05/24" is PatternMismatch (the year needs four digits) |
| Transactions.NormalizeDates | retail_pipeline.py:40 | the load succeeds exactly when every row's date parses; it then keeps every row, in order, with only the date replaced; on failure it names a failing row with every earlier row valid |
| Aggregation.Summarize | retail_pipeline.py:52-57 | a group's row carries the group's own (day, category, region) key |
| Aggregation.SummarizeMeans | retail_pipeline.py:53-56 | mean × number of transactions = total, for sales and profit; 1 ≤ unique_orders ≤ group size, with equality exactly when no order id repeats |
| Aggregation.SummarizeDistinctOrders | retail_pipeline.py:56 | the distinct-order count of a group lies between 1 and the group size, reaching it exactly when order ids do not repeat |
| Aggregation.AggregateOneRowPerKey | retail_pipeline.py:52 | row keys are pairwise distinct, every transaction's key has a row, and every row's key belongs to some transaction |
| Aggregation.AggregateRowMeaning | retail_pipeline.py:52-57 | each row holds the sums of Sales, Profit and Quantity over the transactions with its key, means divided by their number, and the size of the set of their order ids, between 1 and the group size |
| Aggregation.UniqueOrdersEqualsGroupSize | retail_pipeline.py:56 | a row's unique_orders equals its group size exactly when no order id repeats in the group |
| Aggregation.SingleTransactionGroup | retail_pipeline.py:53-56 | the row of a key held by one transaction has mean = total = that sale (and profit), its quantity, and unique_orders = 1 |
| Aggregation.SummarizeSingleton | retail_pipeline.py:53-56 | a one-transaction group summarises to that transaction's values with one distinct order |
| Aggregation.ConservationOfTotals | retail_pipeline.py:52-55 | the sums of total_sales, total_profit and total_quantity over the aggregate equal the sums of Sales, Profit and Quantity over the transactions |
| Aggregation.QuantityConserved | retail_pipeline.py:55 | summing total_quantity over the aggregate gives the integer sum of Quantity |
| Aggregation.AggregateDatesFromInput | retail_pipeline.py:50 | every row's date is the order day of some transaction |
| Aggregation.Labelled | retail_pipeline.py:60-65 | positional renaming finds a name exactly when it is listed, and then it labels the column at that name's position |
| Aggregation.ColumnNamesMatchAggregations | retail_pipeline.py:60-65 | date/category/region label the three group keys, total_* label sums, avg_* label means, and unique_orders labels the distinct count of Order ID |
| Aggregation.SummaryColumnsAreAggregations | retail_pipeline.py:52-65 | the field at each position of a summary row is the aggregation requested for that position: the group key at 0-2, sum and mean of Sales at 3-4, sum and mean of Profit at 5-6, sum of Quantity at 7, distinct Order ID count at 8 |
| Aggregation.LabelledAt | retail_pipeline.py:60-65 | with distinct new names, the i-th name labels the i-th column |
| Aggregation.ColumnNamesDistinct | retail_pipeline.py:60-65 | the nine new column names are pairwise distinct, so the renaming is unambiguous |
| Aggregation.AggregateColumnsAreLabelledAggregations | retail_pipeline.py:50-65 | in every row of the aggregate, the column under each new name holds the aggregation that name labels, computed over the transactions sharing the row's key |
| Aggregation.ThreeSalesOneGroup | retail_pipeline.py:52-57 | three same-day Technology/East sales of 100/200/300 (profit 10/20/30, quantity 1/2/3, distinct orders) give the one row (600, 200, 60, 20, 6, 3) |
| Snapshot.BuildMetadata | retail_pipeline.py:78-94 | format version 2, one snapshot whose id equals current-snapshot-id 1, its timestamp from the clock, and properties exactly {format: parquet, codec: snappy} |
| Snapshot.BuiltMetadataIsConsistent | retail_pipeline.py:81-83 | the current snapshot id is listed among the snapshots |
| Snapshot.OnlyTimestampVaries | retail_pipeline.py:78-94 | two runs give equal records apart from timestamp-ms, and equal records exactly when their timestamps are equal |
| Snapshot.TruncateTowardZero | retail_pipeline.py:86 | int() drops the fraction toward zero, for positive and negative readings |
| Snapshot.TimestampMonotone | retail_pipeline.py:86 | a later clock reading never gives a smaller timestamp-ms |
| Snapshot.TimestampClose | retail_pipeline.py:86 | timestamp-ms is within one millisecond of the exact reading, toward zero |
| Ranking.SortDesc | retail_pipeline.py:139 | sorting keeps the same elements with their multiplicities |
| Ranking.SortDescSorted | retail_pipeline.py:139 | the sorted sequence is in non-increasing score order |
| Ranking.TopKProperties | retail_pipeline.py:139-140 | ORDER BY DESC LIMIT k returns min(k, n) elements of the input, sorted, duplicate-free for duplicate-free input, all of them when n ≤ k, and no left-out element scores above a kept one |
| Ranking.TopKLeftOut | retail_pipeline.py:139-140 | an element dropped by the limit scores no higher than any element kept |
| Queries.MarginPercent | retail_pipeline.py:272 | with revenue > 0, margin × revenue = profit × 100; otherwise the margin is 0 |
| Queries.SegmentsFacts | retail_pipeline.py:133-138 | GROUP BY a column gives one summary per value present in the column, no two alike, and every present value has its summary |
| Queries.DayStatsFacts | retail_pipeline.py:148-152 | GROUP BY date gives one summary per date present in the table, no two alike, and every present date has its summary |
| Queries.SegmentsConserveTotals | retail_pipeline.py:133-138 | over all groups of a column, the revenues add up to the table's total_sales and the profits to its total_profit |
| Queries.DayStatsConserveTotals | retail_pipeline.py:148-152 | over all dates, daily revenue adds up to the table's total_sales, daily items to its total_quantity, and records_count to the number of aggregate rows |
| Queries.TopCategoriesSpec | retail_pipeline.py:130-141 | at most 5 distinct categories present in the table, sorted by revenue descending, with summed revenue and profit; no category left out has higher revenue than a listed one; with fewer than 5 rows every category is listed |
| Queries.TopCategoriesOfEmpty | retail_pipeline.py:130-141 | an empty table gives no categories |
| Queries.DailyTrendSpec | retail_pipeline.py:145-155 | at most 7 distinct dates in strictly descending order, with daily revenue, items and row counts; every date left out is older than every date listed; with fewer than 7 rows every date is listed |
| Queries.DailyTrendOfEmpty | retail_pipeline.py:145-155 | an empty table gives an empty trend |
| Queries.TopRegionsSpec | retail_pipeline.py:160-170 | at most 3 distinct regions, each with revenue > 0 and margin × revenue = profit × 100, sorted by margin descending; a positive-revenue region left out has no higher margin than a listed one; with fewer than 3 rows every positive-revenue region is listed |
| Queries.TopRegionsOfEmpty | retail_pipeline.py:160-170 | an empty table gives no regions |
| Pipeline.RunPipeline | retail_pipeline.py:36-65 | a run succeeds exactly when every order date parses; a failure names a failing row with all earlier rows valid; a success records the clock's timestamp in its single snapshot |
| Pipeline.NormalizePreservesSums | retail_pipeline.py:40 | converting dates keeps the sums of Sales, Profit and Quantity |
| Pipeline.RunConservesTotals | retail_pipeline.py:52-55 | after a successful run the aggregate's sales, profit and quantity totals equal those of the file |
| Pipeline.RunOnEmptyFile | retail_pipeline.py:36-172 | an empty file gives an empty table and three empty query results |

## Left out

- Reading the CSV file with the windows-1251 encoding, and the file-existence checks (retail_pipeline.py:23-28, :36): file I/O. Records come in as a sequence.
- Writing the metadata as JSON (:100-101), writing Parquet and CSV and reporting file sizes (:111, :114, :208-209), and creating directories (:205): I/O through libraries that are not part of this model. The columnar round trip is a property of pyarrow.
- The SQLite connection and `to_sql` loading (:124-125, :177, :183): the queries are modelled by what they compute, not by the engine.
- `create_sample_data` (:238-261): random synthetic data. Only its `%m/%d/%Y` formatting is modelled, as `Dates.FormatDate`.
- Progress printing, the fixed insights list, and README text assembly and writing (:14-235, :275-308): presentation and I/O. The summary statistics computed in `create_readme` are not modelled, except its margin guard.
- Floating-point behaviour of Sales and Profit, and `ROUND(..., 2)` (:134-136, :162-164): measures are exact reals. The source sorts and filters on the rounded aliases (:139, :167-168); the model sorts and filters on the exact sums.
- Queries.MarginPercent: uses 0 unless revenue > 0, where the SQL gives NULL for zero revenue and a quotient for negative revenue. This applies to the margin column of the top-categories query; the top-regions query only sees positive revenue.
- Queries.MarginPercent: assumes the measure columns hold REAL values. When every Sales and Profit cell of the file is integral, pandas reads them as integers and `to_sql` stores INTEGER columns. SQLite's `/` then divides integers and truncates, so the source's margin is usually 0 (for example 60 / 600 gives 0). The model always divides exactly.
- Queries.TopRegionsSpec: for the same reason the source's ordering by margin can see truncated, mostly tied margins on an all-integer file. The model orders by the exact margin.
- Tie order among equal sort keys: SQLite gives no guarantee, so only sortedness is stated. The model's insertion sort is one admissible order.
- Missing values: pandas turns empty strings and "NaT" into NaT instead of failing, groupby drops NaN keys, and nunique ignores NaN ids. None of these are modelled.
- Dates.ParseDateExact: Python's `\d` also accepts non-ASCII decimal digits; the model accepts only ASCII digits.
- The sort order of the aggregate rows from `groupby` (sorted keys): rows appear in first-appearance order of their key.
- `datetime.now()` (:86): the clock reading in seconds is the parameter of `Snapshot.BuildMetadata` and `Pipeline.RunPipeline`.
- Snapshot.TimestampMs: multiplies the reading by 1000 exactly. The source multiplies a float and rounds the product before truncating, so it can record one millisecond more. For example, the float nearest 0.29 s times 1000 rounds to 290.0, while the exact product truncates to 289. `Snapshot.TimestampClose` and `Snapshot.TruncateTowardZero` hold of the exact product only.
