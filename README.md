# M5 sales pipeline and its checks, modelled in Dafny

This project models the two classes of the M5 forecasting data preparation code:

- `DataProcessor` (m5_forecasting/data_processor.py) starts from the wide sales table, the calendar and the weekly price table. It then:
  - melts the sales into one row per series and day;
  - joins the calendar (`ds_id`, `wm_yr_wk`, date, event count) and the prices;
  - derives the calendar features;
  - drops every row that lies before its series' first priced week;
  - fixes the sixteen output columns;
  - splits each series into a training prefix and a test suffix of `horizon` rows.
- `DataChecker` (m5_forecasting/utils.py) audits the result with four checks: the row-drop summary, null counts and shapes, missing days per series, and rows that repeat a (series, day) pair.

Modules:

- `Wrappers` holds `Option` and `Result`.
- `Seqs` holds boolean-mask filters, first-match lookup and concatenation of row lists.
- `Strings` holds Python's `str` ordering (the order in which `groupby` visits series) and `str()` of a natural number.
- `Records` holds one row type per pipeline stage. The class's `sales_data` is the sum type `SalesData`, with one variant per stage. Columns written into the calendar and price tables in place are `Option` fields, which are `None` until written.
- `Stages` holds each stage as a function from one table to the next, with the lemmas about each stage. `Process` is the whole of `process_data`.
- `Splitting` holds what `split_data` computes, and its lemmas.
- `Processor` holds the class `DataProcessor`. Its fields are the source's attributes, and its methods reassign them stage by stage. Each method's `ensures` ties the new state to the `Stages` and `Splitting` functions.
- `Checks` holds `DataChecker` as a value with one function per check, plus the lemmas about the checks.

A left merge is modelled as a lookup of the first matching right-hand row. That is exactly pandas' result when the right-hand key is unique:

- For the calendar, uniqueness is proved: `d_1`, `d_2`, … are distinct.
- For prices and releases, uniqueness is a precondition: `Stages.PriceKeysUnique` (no (`unique_id`, `wm_yr_wk`) repeats among the prices) and `Stages.SeriesKeysUnambiguous` (no two (item, store) pairs build the same `unique_id`). The price-join and release lemmas require them, and so do the row-count bounds of the whole run (`Stages.ProcessRowCounts`, `Stages.ProcessShrinks`, `Stages.ProcessKeepsAllIff`, `Checks.PipelineDropSummary` and `ProcessData`'s bound).

Dates are records of their parts (ordinal day number, day of week, day of month, month, ISO week, year). The ordinal identifies and orders them. Sales values are integers and prices are `real`.

Where the docstrings and the names of the code promise more than the code does, the model follows the code:

- `gaps_in_date_check` measures every series against one range: the global minimum and maximum `ds` of the table (utils.py:58). It does not use each series' own range (`Checks.GlobalRangeExample`).
- `split_data` never sorts a group by date. It cuts each group in table order (data_processor.py:159-162).
- With `horizon == 0`, `iloc[:-0]` is empty and `iloc[-0:]` is the whole group, so every row goes to test, not to training (`Splitting.SplitHorizonZero`).
- A negative horizon follows Python slicing too (`Splitting.SliceBound`).
- `add_time_features` raises for a row without a date: the `week_of_month` lambda computes `int(nan)` (data_processor.py:113). So a sales row whose `ds_id` names no calendar row stops the whole run (`Stages.ProcessRowCounts`). The release filter's handling of a null week (data_processor.py:124) is therefore only reachable when the filter is applied on its own (`Stages.FilterBeforeReleaseSpec`).
- `not_sales_row_drop_summary_check` divides before it compares (utils.py:14-17). A zero original count fails with a division error even when the filtered count is larger.
- `split_data` assigns `train_df` before the test concatenation can fail (data_processor.py:166-167). A run where no series is longer than the horizon leaves `train_df` set and `test_df` unchanged.

## Model

| member | source | states |
|---|---|---|
| `Seqs.Filter` | m5_forecasting/data_processor.py:124 | a boolean mask keeps only rows that pass, keeps every row that passes, and never adds rows; how many copies it keeps is stated by `Seqs.FilterMultiset` |
| `Seqs.FilterMultiset` | m5_forecasting/data_processor.py:124 | a mask keeps every copy of a passing row and no copy of a failing one: each row occurs in the result as often as in the input if it passes, else not at all |
| `Seqs.FindFirst` | m5_forecasting/data_processor.py:96 | the lookup a left merge does: a found row exists in the table and matches; nothing is found only when no row matches |
| `Seqs.FindFirstUnique` | m5_forecasting/data_processor.py:96-97 | when only row `j` matches, the lookup returns row `j` |
| `Strings.SortedDistinct` | m5_forecasting/data_processor.py:159 | the `groupby` keys: ascending in Python's string order, each once, exactly the values that occur |
| `Strings.NatToString` | m5_forecasting/data_processor.py:87 | `str(i + 1)` is a non-empty string of decimal digits in canonical form: `"0"` for 0, and no leading zero otherwise |
| `Strings.ParseNatToString` | m5_forecasting/data_processor.py:87 | reading the decimal string back gives the number |
| `Strings.NatToStringInjective` | m5_forecasting/data_processor.py:87 | distinct day numbers give distinct strings |
| `Stages.SeriesKey` | m5_forecasting/data_processor.py:47 | no contract of its own: `item_id + "_" + store_id`, built the same way for sales, prices and releases (lines 101, 121); `Stages.SeriesKeyAmbiguous` shows it is not injective |
| `Stages.SeriesKeyAmbiguous` | m5_forecasting/data_processor.py:47 | two different (item, store) pairs can build the same `unique_id` |
| `Stages.DateColumns` | m5_forecasting/data_processor.py:51 | exactly the positions of the columns starting with `d_`, in column order |
| `Stages.MeltColumnsShape` | m5_forecasting/data_processor.py:52-58 | melting the listed day columns gives one block of one row per sales row for each column, in order |
| `Stages.Melt` | m5_forecasting/data_processor.py:51-58 | no contract of its own; its shape, order and row contents are stated by `Stages.MeltShape` |
| `Stages.MeltShape` | m5_forecasting/data_processor.py:47-60 | the melted table has (day columns × sales rows) rows. Row `c·N + i` carries sales row `i`'s ids, its `item_id_store_id` key, day column `c`'s name as `ds_id`, and its cell as `y` |
| `Stages.DsIdOfInjective` | m5_forecasting/data_processor.py:87 | different calendar rows get different `ds_id`s |
| `Stages.NumEvents` | m5_forecasting/data_processor.py:92-94 | no contract of its own; the 2/1/0 event rule is stated by `Stages.PrepareCalendarRows` |
| `Stages.PrepareCalendar` | m5_forecasting/data_processor.py:87-94 | no contract of its own; stated by `Stages.PrepareCalendarRows` and `Stages.PreparedDsIdsUnique` |
| `Stages.PrepareCalendarRows` | m5_forecasting/data_processor.py:87-94 | rows, dates and weeks are kept. Row `i` gets `d_(i+1)`. `num_events` is 2 when type 2 is present, 1 when only type 1 is, else 0, and always lies in 0..2. No event cell is left null |
| `Stages.PreparedDsIdsUnique` | m5_forecasting/data_processor.py:87 | no `ds_id` occurs twice on the prepared calendar |
| `Stages.JoinCalendar` | m5_forecasting/data_processor.py:95-97 | no contract of its own; stated by `Stages.JoinCalendarSpec` |
| `Stages.JoinCalendarSpec` | m5_forecasting/data_processor.py:95-97 | every sales row is kept in its place. A row whose `ds_id` is `d_(j+1)` gets calendar row `j`'s week, date and event count; any other row gets nulls |
| `Stages.KeyPrices` | m5_forecasting/data_processor.py:101 | no contract of its own; every price row gets its series key, stated through `Stages.AddSellPricesSpec` |
| `Stages.AddSellPrices` | m5_forecasting/data_processor.py:102-104 | no contract of its own; stated by `Stages.AddSellPricesSpec` |
| `Stages.AddSellPricesSpec` | m5_forecasting/data_processor.py:99-104 | with unique price keys, every row is kept in its place. It gets the price of the price row with its series and week, or null when there is none |
| `Stages.WeekOfMonth` | m5_forecasting/data_processor.py:113 | no contract of its own; its 7-day buckets and 1..5 range are stated by `Stages.TimeFeaturesRanges` |
| `Stages.IsWeekend` | m5_forecasting/data_processor.py:110 | no contract of its own; stated by `Stages.TimeFeaturesRanges` |
| `Stages.Features` | m5_forecasting/data_processor.py:109-116 | no contract of its own; stated by `Stages.TimeFeaturesRanges` and `Stages.AddTimeFeatures` |
| `Stages.TimeFeaturesRanges` | m5_forecasting/data_processor.py:109-116 | `week_of_month` is the week bucket holding the day (1..5). `is_weekend` is 1 exactly for days 5 and 6 of the week |
| `Stages.AddTimeFeatures` | m5_forecasting/data_processor.py:106-116 | fails with `int(nan)` exactly when some row has no date; otherwise every row is kept in order with its date's features |
| `Stages.Release` | m5_forecasting/data_processor.py:120-122 | the release is null exactly when the series has no price rows; otherwise it is the smallest price week of the series |
| `Stages.ReleaseIsGroupMinimum` | m5_forecasting/data_processor.py:120-121 | with unambiguous keys, the release is the minimum week of the row's (store, item) group |
| `Stages.AttachRelease` | m5_forecasting/data_processor.py:120-123 | no contract of its own; each row gets its series' release, stated through `Stages.FilterBeforeReleaseSpec` |
| `Stages.KeepRow` | m5_forecasting/data_processor.py:124 | no contract of its own; the comparison with nulls counting as false, stated through `Stages.FilterBeforeRelease` and `Stages.FilterBeforeReleaseSpec` |
| `Stages.FilterBeforeRelease` | m5_forecasting/data_processor.py:123-126 | the kept rows are an order-preserving subsequence, and each passes the release comparison |
| `Stages.FilterBeforeReleaseSpec` | m5_forecasting/data_processor.py:118-126 | the filter keeps, in order, exactly the rows with a non-null week at or after their series' release; series without prices lose every row. Every copy of a kept row is kept: a row occurs in the result as often as in the joined table when it passes, else not at all |
| `Stages.Project` | m5_forecasting/data_processor.py:130-149 | no contract of its own; the output columns are `Stages.FinalSchema` |
| `Stages.Finalize` | m5_forecasting/data_processor.py:128-149 | the projection changes no row count |
| `Stages.FinalSchema` | m5_forecasting/data_processor.py:131-149 | sixteen distinct output columns, none of them `ds_id`, `wm_yr_wk` or `release` |
| `Stages.JoinedDateMissing` | m5_forecasting/data_processor.py:95-104 | after both joins, a row has no date exactly when its `ds_id` names no calendar row |
| `Stages.Process` | m5_forecasting/data_processor.py:39-83 | no contract of its own; stated by `Stages.ProcessRowCounts`, `Stages.ProcessShrinks`, `Stages.ProcessKeepsAllIff` and `Processor.DataProcessor.ProcessData` |
| `Stages.ProcessRowCounts` | m5_forecasting/data_processor.py:39-83 | `original_row_count` is (day columns × sales rows). The run fails exactly when some melted `ds_id` names no calendar row. Otherwise, with unique price keys and unambiguous series keys, at most that many rows come out |
| `Stages.ProcessShrinks` | m5_forecasting/data_processor.py:60-74 | with unique price keys and unambiguous series keys, a successful run never has more rows than the melted table |
| `Stages.ProcessKeepsAllIff` | m5_forecasting/data_processor.py:72-79 | with unique price keys and unambiguous series keys, the output keeps every melted row exactly when every row is at or after its release |
| `Splitting.SeriesIds` | m5_forecasting/data_processor.py:159 | the groups in visiting order: ascending, each once, exactly the series of the table |
| `Splitting.Group` | m5_forecasting/data_processor.py:159 | no contract of its own: one series' rows in table order; stated through `Splitting.SplitPerSeries` and `Splitting.GroupNonEmpty` |
| `Splitting.SliceBound` | m5_forecasting/data_processor.py:161-162 | Python's slice-bound normalisation: `-n ≤ i < 0` gives `n + i`, `0 ≤ i ≤ n` gives `i`, `i < -n` clamps to 0 and `i > n` clamps to `n` |
| `Splitting.Cut` | m5_forecasting/data_processor.py:161-162 | no contract of its own; the slice position, stated through `Splitting.SliceBound` and `Splitting.GroupParts` |
| `Splitting.TrainPart` | m5_forecasting/data_processor.py:160-164 | no contract of its own; stated by `Splitting.GroupParts` |
| `Splitting.TestPart` | m5_forecasting/data_processor.py:160-162 | no contract of its own; stated by `Splitting.GroupParts` |
| `Splitting.GroupParts` | m5_forecasting/data_processor.py:160-164 | a group's train and test parts recover the group. Horizon 0 sends everything to test. `0 < h < len` leaves the last `h` rows as test. A group no longer than the horizon goes wholly to train. A negative horizon `h` puts the first `-h` rows in train and the rest in test, or everything in train once `-h` reaches the length |
| `Splitting.SplitGroups` | m5_forecasting/data_processor.py:159-164 | no contract of its own; the lists the loop builds, stated by `Splitting.SplitGroupsTrain`, `Splitting.SplitGroupsTest` and `Splitting.SplitGroupsListsEmpty` |
| `Splitting.SplitGroupsStep` | m5_forecasting/data_processor.py:159-164 | one turn of the loop appends the slices of the next group |
| `Splitting.Concat` | m5_forecasting/data_processor.py:166-167 | `pd.concat` fails exactly on an empty list |
| `Splitting.SplitGroupsTrain` | m5_forecasting/data_processor.py:159-166 | the concatenated train list holds, for each visited series, exactly its train part, and nothing of other series |
| `Splitting.SplitGroupsTest` | m5_forecasting/data_processor.py:159-167 | the same for the test list |
| `Splitting.SplitPerSeries` | m5_forecasting/data_processor.py:159-167 | for every series, its rows in train followed by its rows in test are its group in table order, cut where the slices cut it |
| `Splitting.GroupNonEmpty` | m5_forecasting/data_processor.py:159 | every visited group has at least one row |
| `Splitting.SplitHorizonZero` | m5_forecasting/data_processor.py:160-162 | with horizon 0, no row of any series is in train and all are in test |
| `Splitting.SplitGroupsListsEmpty` | m5_forecasting/data_processor.py:159-164 | the train list gets one entry per group. The test list stays empty exactly when no group is longer than the horizon |
| `Splitting.SplitConcatFails` | m5_forecasting/data_processor.py:166-167 | the train concatenation fails exactly on an empty table. The test one fails exactly when no series is longer than the horizon |
| `Splitting.SplitGroupsCount` | m5_forecasting/data_processor.py:159-167 | train and test together hold as many rows as the visited series have |
| `Splitting.SplitRowCount` | m5_forecasting/data_processor.py:159-167 | no row is lost or duplicated by the split |
| `Processor.FirstMissingKey` | m5_forecasting/data_processor.py:12-15 | no key is reported exactly when all four required keys are present. A reported key is the first missing one in checking order |
| `Processor.DataProcessor.constructor` | m5_forecasting/data_processor.py:16-25 | the stored configuration, horizon and tables; every later attribute starts as `None` |
| `Processor.DataProcessor.Create` | m5_forecasting/data_processor.py:10-25 | `KeyError` for the first missing key, otherwise a fresh processor in its initial state |
| `Processor.DataProcessor.MeltSales` | m5_forecasting/data_processor.py:43-60 | `sales_data` becomes the melted table; `original_row_count` is its row count, (day columns × sales rows) |
| `Processor.DataProcessor.PrepareCalendar` | m5_forecasting/data_processor.py:85-97 | the calendar is prepared in place, with unique `ds_id`s; `sales_data` becomes the calendar join |
| `Processor.DataProcessor.AddSellPrices` | m5_forecasting/data_processor.py:99-104 | the price table gets its `unique_id`; `sales_data` becomes the price join |
| `Processor.DataProcessor.AddTimeFeatures` | m5_forecasting/data_processor.py:106-116 | the `int(nan)` error leaves the rows as they were; otherwise `sales_data` gets the features |
| `Processor.DataProcessor.FilterBeforeRelease` | m5_forecasting/data_processor.py:118-126 | `sales_data` becomes the filtered table |
| `Processor.DataProcessor.FinalizeDataset` | m5_forecasting/data_processor.py:128-149 | `sales_data` becomes the sixteen-column table |
| `Processor.DataProcessor.ProcessData` | m5_forecasting/data_processor.py:39-83 | the new calendar, prices and counts are those of `Process`. On success, `processor` and `sales_data` hold the output, and with unique price keys and unambiguous series keys `filtered_row_count` is at most `original_row_count`. On failure, `processor` is unchanged |
| `Processor.DataProcessor.SplitData` | m5_forecasting/data_processor.py:151-171 | unprocessed: `NotProcessed`. A non-number horizon with at least one group: a comparison error. Otherwise `train_df` and `test_df` are the concatenations of the split lists, each assigned only if its own concatenation succeeds |
| `Checks.DataChecker.RowDropSummary` | m5_forecasting/utils.py:11-25 | division error for a zero original count, then the invariant error when filtered > original. Otherwise it reports the counts, `dropped = original − filtered ≥ 0` and `percentage · original = dropped · 100`, which lies in 0..100 |
| `Checks.RowDropExample` | m5_forecasting/utils.py:13-14 | 100 and 80 give 20 dropped and 20.0 percent |
| `Checks.PipelineDropSummary` | m5_forecasting/utils.py:11-17 | with unique price keys and unambiguous series keys, the counts of a successful run with a non-empty melted table always pass the summary |
| `Checks.DataChecker.NullsAndShapeCheck` | m5_forecasting/utils.py:27-42 | shapes are (rows, 16). Each listed column's count is its exact number of null cells, and is positive |
| `Checks.NullSummary` | m5_forecasting/utils.py:30-34 | no contract of its own; stated by `Checks.NullSummaryEntries`, `Checks.NullSummaryComplete` and `Checks.NullSummaryAbsent` |
| `Checks.NullSummaryEntries` | m5_forecasting/utils.py:30-34 | every listed column is an output column with its exact, positive null count, in column order |
| `Checks.NullSummaryComplete` | m5_forecasting/utils.py:30-34 | every output column with a null cell is listed with its count |
| `Checks.NullSummaryAbsent` | m5_forecasting/utils.py:33-34 | a column is missing from the summary exactly when it has no null cell |
| `Checks.MinDay` | m5_forecasting/utils.py:58 | `ds.min()` is the date of some row and not after any row |
| `Checks.MaxDay` | m5_forecasting/utils.py:58 | `ds.max()` is the date of some row and not before any row |
| `Checks.MissingDays` | m5_forecasting/utils.py:58-65 | no contract of its own; stated by `Checks.MissingDaysSpec` |
| `Checks.MissingDaysSpec` | m5_forecasting/utils.py:58-65 | a series' missing days are exactly the days of the range it has no row on, ascending |
| `Checks.Report` | m5_forecasting/utils.py:57-70 | no contract of its own; stated by `Checks.ReportSpec` and `Checks.ReportAscending` |
| `Checks.ReportSpec` | m5_forecasting/utils.py:64-70 | each report entry is a series with its non-empty missing days, and each series with a missing day has an entry |
| `Checks.ReportAscending` | m5_forecasting/utils.py:54-59 | entries come in ascending `unique_id` order |
| `Checks.DataChecker.GapsInDateCheck` | m5_forecasting/utils.py:44-74 | a missing column, then an empty table, are errors. Otherwise it is a report, and a report with gaps is non-empty |
| `Checks.DataChecker.GapsInDateCheckAsWritten` | m5_forecasting/utils.py:68-72 | it fails with `TypeError` exactly when there are gaps; it succeeds only with "no gaps" |
| `Checks.GapsExact` | m5_forecasting/utils.py:57-65 | (u, d) is reported exactly when u is a series of the table, d lies between the table's first and last day, and u has no row on d |
| `Checks.NoGapsIff` | m5_forecasting/utils.py:68-74 | "no gaps" comes exactly when every series has a row on every day of the range |
| `Checks.GapsOrdered` | m5_forecasting/utils.py:54-70 | series ascending; each series' days strictly ascending |
| `Checks.InteriorGapExample` | m5_forecasting/utils.py:57-70 | one series on days 1 and 3: exactly (series, day 2) is reported |
| `Checks.GlobalRangeExample` | m5_forecasting/utils.py:58 | series on day 1 and series on day 2 each miss the other's day |
| `Checks.GapsJoinFails` | m5_forecasting/utils.py:72 | as written, that one-gap table ends in `TypeError` |
| `Checks.DataChecker.UniqueIdPerDateCheck` | m5_forecasting/utils.py:76-89 | error exactly when a key column is missing; a duplicate report is non-empty |
| `Checks.Duplicates` | m5_forecasting/utils.py:82 | no contract of its own; stated by `Checks.DuplicatesExact` (which rows, every copy of each, in table order) and `Checks.NoDuplicatesIff` |
| `Checks.DuplicatesExact` | m5_forecasting/utils.py:82 | a row is reported exactly when another row shares its series and day (`keep=False`). Every copy is reported: a row whose key repeats occurs in the report as often as in the table, any other row not at all. The report keeps table order |
| `Checks.NoDuplicatesIff` | m5_forecasting/utils.py:84-89 | "no duplicates" comes exactly when (series, day) identifies the rows |
| `Checks.DuplicateExample` | m5_forecasting/utils.py:82 | two copies of one (series, day) among three rows: both copies are reported |

## Left out

- Reading the CSV files (`load_data`, data_processor.py:17-19, 27-37) is file I/O. Its `FileNotFoundError` and `EmptyDataError` paths are left out too. The three tables are parameters of `Create`.
- All logging is left out.
- Date parsing and calendar arithmetic are pandas' own (`to_datetime`, `dt.dayofweek`, `isocalendar`, `month`, `year`). The date parts are given fields.
- Message text is left out: the f-string layout, `:.2f` rounding, `to_string` and `strftime`. The checks return the counts, lists and rows their messages print.
- Row multiplication by a pandas merge on duplicated keys is not modelled. The joins pick the first matching row, which is pandas' behaviour exactly when the key is unique.
- `Stages.AddSellPricesSpec` requires unique (`unique_id`, `wm_yr_wk`) price keys, because with duplicates pandas would multiply rows.
- `Stages.ReleaseIsGroupMinimum` requires that no two (item, store) pairs build the same `unique_id` (`Stages.SeriesKeyAmbiguous` shows they can). Without that, the release merge would multiply rows as well.
- `Stages.ProcessRowCounts`, `Stages.ProcessShrinks`, `Stages.ProcessKeepsAllIff`, `Checks.PipelineDropSummary` and the row bound of `Processor.DataProcessor.ProcessData` hold of pandas only when the price keys are unique and the series keys unambiguous. With a repeated price key, pandas repeats sales rows, `filtered_row_count` can exceed `original_row_count`, and `not_sales_row_drop_summary_check` raises (utils.py:16-17). The model does not cover that run.
- `Stages.Finalize` states only the row count. Which field each output column takes is the projection itself, and the column list is `Stages.FinalSchema`.
- `add_time_features` writes `day_of_week`, `is_weekend` and `day_of_month` before the `int(nan)` failure. The model keeps `sales_data` as it was on that error.
- `gaps_in_date_check` writes `pd.to_datetime(df["ds"])` back into the caller's table (utils.py:51). Dates are already dates here, so that write changes nothing and is not modelled.
- The order-of-dates promise within each split part is not proved, because `split_data` does not sort by date. Each part keeps table order (`Splitting.SplitPerSeries`).
- `prepare_calendar` fills the event columns with chained `fillna(0, inplace=True)` calls (data_processor.py:88-91). The model assumes those writes reach the calendar, as they do in pandas without Copy-on-Write. Under Copy-on-Write (the default in pandas 3) they leave the column null, and every row would get `num_events` 2.
- `reset_index` and the pandas row index are not modelled. Tables are sequences.
- A horizon that is a number but not an integer is not modelled. A text horizon is modelled, because comparing `len(group) > horizon` would raise.

## Findings

| source | as written | input that shows it | evidently intended | confidence | as-written member | corrected member |
|---|---|---|---|---|---|---|
| m5_forecasting/utils.py:72 | `"\n".join(missing_series)` over a Series whose values are lists of date strings raises `TypeError`, so every table with a gap fails instead of reporting | one series `A` with rows on days 1 and 3 (`Checks.GapsJoinFails`) | return, per series, its missing dates (`Checks.GapsExact`, `Checks.InteriorGapExample`) | not executed | `Checks.DataChecker.GapsInDateCheckAsWritten` | `Checks.DataChecker.GapsInDateCheck` |
