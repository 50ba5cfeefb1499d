/** The tables of the M5 pipeline as sequences of records, one record type per shape
    that `DataProcessor.sales_data` takes between stages (m5_forecasting/data_processor.py). */
module Records {
  import opened Wrappers

  /** One calendar date as `pd.to_datetime` and the `.dt` accessors see it. Parsing and
      calendar arithmetic belong to pandas and are not modelled: the parts are given.
      `ordinal` is the day number; it identifies and orders dates (consecutive days
      have consecutive ordinals). */
  datatype Date = Date(ordinal: int, dayOfWeek: int, dayOfMonth: int, month: int, isoWeek: int, year: int)

  /** The ranges pandas guarantees for the parts of a real date. */
  predicate ValidDate(d: Date)
  {
    0 <= d.dayOfWeek <= 6 && 1 <= d.dayOfMonth <= 31 && 1 <= d.month <= 12 && 1 <= d.isoWeek <= 53
  }

  /** A row of the wide sales table: its identifying columns, then one cell per further
      column of the table (`WideTable.columns`), among them the daily `d_*` columns. */
  datatype WideRow = WideRow(itemId: string, storeId: string, deptId: string, catId: string, stateId: string,
                             cells: seq<int>)

  datatype WideTable = WideTable(columns: seq<string>, rows: seq<WideRow>)

  /** Every row has one cell per column, as in any DataFrame. */
  predicate Rectangular(t: WideTable)
  {
    forall i :: 0 <= i < |t.rows| ==> |t.rows[i].cells| == |t.columns|
  }

  /** A row of the melted table: the `id_vars`, the day column's name and its value. */
  datatype LongRow = LongRow(storeId: string, itemId: string, deptId: string, catId: string, stateId: string,
                             uniqueId: string, dsId: string, y: int)

  /** A cell of an event column: NaN as read, the integer 0 that `fillna(0)` writes, or
      an event's name or type. */
  datatype EventCell = Missing | Zero | Event(text: string)

  /** A calendar row. `dsId` and `numEvents` are the columns `prepare_calendar` adds
      (`None` until then). */
  datatype CalendarRow = CalendarRow(date: Date, wmYrWk: int,
                                     eventName1: EventCell, eventType1: EventCell,
                                     eventName2: EventCell, eventType2: EventCell,
                                     dsId: Option<string>, numEvents: Option<int>)

  /** A price row. `uniqueId` is the column `add_sell_prices` adds (`None` until then). */
  datatype PriceRow = PriceRow(storeId: string, itemId: string, wmYrWk: int, sellPrice: real,
                               uniqueId: Option<string>)

  /** A long row after the two calendar merges: null calendar columns when no calendar
      row has the row's `ds_id`. */
  datatype CalendarJoinedRow = CalendarJoinedRow(sale: LongRow, wmYrWk: Option<int>, ds: Option<Date>,
                                                 numEvents: Option<int>)

  /** After the price merge: null `sellPrice` when no price row has the row's
      (`unique_id`, `wm_yr_wk`). */
  datatype PricedRow = PricedRow(cal: CalendarJoinedRow, sellPrice: Option<real>)

  /** The integer columns `add_time_features` derives from `ds`. */
  datatype TimeFeatures = TimeFeatures(dayOfWeek: int, isWeekend: int, dayOfMonth: int, weekOfMonth: int,
                                       month: int, weekNumYear: int, year: int)

  /** After `add_time_features`: `ds` converted to a date (never NaT here) and the features. */
  datatype FeaturedRow = FeaturedRow(priced: PricedRow, ds: Date, time: TimeFeatures)

  /** After `filter_before_release`: the merged `release` column is still present. */
  datatype ReleasedRow = ReleasedRow(featured: FeaturedRow, release: Option<int>)

  /** A row of the finished table, fields in the output column order. */
  datatype FinalRow = FinalRow(uniqueId: string, ds: Date, y: int, sellPrice: Option<real>, numEvents: Option<int>,
                               catId: string, deptId: string, stateId: string, storeId: string,
                               dayOfWeek: int, isWeekend: int, dayOfMonth: int, weekOfMonth: int,
                               month: int, weekNumYear: int, year: int)

  /** The column names of `FinalRow`, in the order `finalize_dataset` selects them. */
  const FinalColumns: seq<string> :=
    ["unique_id", "ds", "y", "sell_price", "num_events", "cat_id", "dept_id", "state_id", "store_id",
     "day_of_week", "is_weekend", "day_of_month", "week_of_month", "month", "week_num_year", "year"]

  /** The value `self.sales_data` holds at each point of `process_data`. */
  datatype SalesData =
    | Wide(table: WideTable)
    | Long(long: seq<LongRow>)
    | CalendarJoined(joined: seq<CalendarJoinedRow>)
    | Priced(priced: seq<PricedRow>)
    | Featured(featured: seq<FeaturedRow>)
    | Released(released: seq<ReleasedRow>)
    | Final(final: seq<FinalRow>)

  /** The exceptions the processor raises. */
  datatype ProcessError =
    | KeyError(key: string)        // a configuration key is missing
    | NaNToInteger                 // `int(nan)` in the `week_of_month` lambda, for a row without a date
    | NotProcessed                 // `split_data` before `process_data`
    | NothingToConcatenate         // `pd.concat` of an empty list
    | HorizonNotComparable         // `len(group) > horizon` with a horizon that is not a number
}
