/** The `DataProcessor` class of m5_forecasting/data_processor.py: it holds the three
    loaded tables, rewrites `sales_data` stage by stage, and keeps the processed table,
    the split and the two row counts. */
module Processor {
  import opened Wrappers
  import opened Seqs
  import opened Records
  import opened Stages
  import opened Splitting

  /** A configuration value: a file path or the horizon. */
  datatype ConfigValue = Text(text: string) | Number(number: int)

  /** The keys the constructor demands, in the order it checks them. */
  const RequiredKeys: seq<string> := ["sales_filepath", "calendar_filepath", "sell_prices_filepath", "horizon"]

  /** `RequiredKeys[k]` is missing and every key checked before it is present. */
  predicate FirstMissingAt(config: map<string, ConfigValue>, k: int)
  {
    && 0 <= k < |RequiredKeys|
    && RequiredKeys[k] !in config
    && forall j :: 0 <= j < k ==> RequiredKeys[j] in config
  }

  /** The key the constructor's check loop raises `KeyError` for, if any. */
  method FirstMissingKey(config: map<string, ConfigValue>) returns (missing: Option<string>)
    ensures missing.None? <==> forall k :: 0 <= k < |RequiredKeys| ==> RequiredKeys[k] in config
    ensures missing.Some? ==> exists k :: FirstMissingAt(config, k) && RequiredKeys[k] == missing.value
  {
    var i := 0;
    while i < |RequiredKeys|
      invariant 0 <= i <= |RequiredKeys|
      invariant forall j :: 0 <= j < i ==> RequiredKeys[j] in config
    {
      if RequiredKeys[i] !in config {
        assert FirstMissingAt(config, i);
        return Some(RequiredKeys[i]);
      }
      i := i + 1;
    }
    return None;
  }

  class DataProcessor {
    const config: map<string, ConfigValue>
    const horizon: ConfigValue
    var salesData: SalesData
    var calendar: seq<CalendarRow>
    var sellPrices: seq<PriceRow>
    var processor: Option<seq<FinalRow>>
    var trainDf: Option<seq<FinalRow>>
    var testDf: Option<seq<FinalRow>>
    var originalRowCount: Option<nat>
    var filteredRowCount: Option<nat>

    /** The constructor once every required key is known to be present; the tables are
        the ones `load_data` would read from the configured paths. */
    constructor (config: map<string, ConfigValue>, sales: WideTable, calendar: seq<CalendarRow>, prices: seq<PriceRow>)
      requires forall k :: 0 <= k < |RequiredKeys| ==> RequiredKeys[k] in config
      ensures this.config == config && "horizon" in config && horizon == config["horizon"]
      ensures salesData == Wide(sales) && this.calendar == calendar && sellPrices == prices
      ensures processor.None? && trainDf.None? && testDf.None?
      ensures originalRowCount.None? && filteredRowCount.None?
    {
      assert RequiredKeys[3] in config;
      this.config := config;
      salesData := Wide(sales);
      this.calendar := calendar;
      sellPrices := prices;
      horizon := config["horizon"];
      processor := None;
      trainDf := None;
      testDf := None;
      originalRowCount := None;
      filteredRowCount := None;
    }

    /** `DataProcessor(config)`: `KeyError` for the first missing required key, otherwise a
        fresh processor over the given tables. */
    static method Create(config: map<string, ConfigValue>, sales: WideTable, calendar: seq<CalendarRow>,
                         prices: seq<PriceRow>)
      returns (r: Result<DataProcessor, ProcessError>)
      ensures r.Err? <==> exists k :: 0 <= k < |RequiredKeys| && RequiredKeys[k] !in config
      ensures r.Err? ==> exists k :: FirstMissingAt(config, k) && r.error == KeyError(RequiredKeys[k])
      ensures r.Ok? ==> fresh(r.value) && r.value.config == config
      ensures r.Ok? ==> "horizon" in config && r.value.horizon == config["horizon"]
      ensures r.Ok? ==> r.value.salesData == Wide(sales) && r.value.calendar == calendar && r.value.sellPrices == prices
      ensures r.Ok? ==> r.value.processor.None? && r.value.trainDf.None? && r.value.testDf.None?
      ensures r.Ok? ==> r.value.originalRowCount.None? && r.value.filteredRowCount.None?
    {
      var missing := FirstMissingKey(config);
      if missing.Some? {
        return Err(KeyError(missing.value));
      }
      var p := new DataProcessor(config, sales, calendar, prices);
      return Ok(p);
    }

    /** Steps 2 and 3 of `process_data`: add `unique_id`, melt to long form, record
        `original_row_count`. */
    method MeltSales()
      requires salesData.Wide? && Rectangular(salesData.table)
      modifies this`salesData, this`originalRowCount
      ensures salesData == Long(Melt(old(salesData.table)))
      ensures originalRowCount == Some(|salesData.long|)
      ensures originalRowCount == Some(|DateColumns(old(salesData.table).columns)| * |old(salesData.table).rows|)
    {
      MeltShape(salesData.table);
      var long := Melt(salesData.table);
      salesData := Long(long);
      originalRowCount := Some(|long|);
    }

    /** `prepare_calendar`: number the calendar days, fill the event cells, count the
        events, and left-join the calendar onto the sales rows by `ds_id`. */
    method PrepareCalendar()
      requires salesData.Long?
      modifies this`salesData, this`calendar
      ensures calendar == Stages.PrepareCalendar(old(calendar))
      ensures salesData == CalendarJoined(JoinCalendar(old(salesData.long), calendar))
      ensures DsIdsUnique(calendar)
    {
      calendar := Stages.PrepareCalendar(calendar);
      PreparedDsIdsUnique(old(calendar));
      salesData := CalendarJoined(JoinCalendar(salesData.long, calendar));
    }

    /** `add_sell_prices`: key the price table by `unique_id` and left-join it on
        (`unique_id`, `wm_yr_wk`). */
    method AddSellPrices()
      requires salesData.CalendarJoined?
      modifies this`salesData, this`sellPrices
      ensures sellPrices == KeyPrices(old(sellPrices))
      ensures salesData == Priced(Stages.AddSellPrices(old(salesData.joined), sellPrices))
    {
      sellPrices := KeyPrices(sellPrices);
      salesData := Priced(Stages.AddSellPrices(salesData.joined, sellPrices));
    }

    /** `add_time_features`: fails on the first row without a date, leaving the rows as
        they were; otherwise every row gets its calendar features. */
    method AddTimeFeatures() returns (r: Result<(), ProcessError>)
      requires salesData.Priced?
      modifies this`salesData
      ensures Stages.AddTimeFeatures(old(salesData.priced)).Err? ==>
                r == Err(NaNToInteger) && salesData == old(salesData)
      ensures Stages.AddTimeFeatures(old(salesData.priced)).Ok? ==>
                r == Ok(()) && salesData == Featured(Stages.AddTimeFeatures(old(salesData.priced)).value)
    {
      var featured := Stages.AddTimeFeatures(salesData.priced);
      if featured.Err? {
        return Err(featured.error);
      }
      salesData := Featured(featured.value);
      return Ok(());
    }

    /** `filter_before_release`: drop the rows before their series' first priced week. */
    method FilterBeforeRelease()
      requires salesData.Featured?
      modifies this`salesData
      ensures salesData == Released(Stages.FilterBeforeRelease(old(salesData.featured), sellPrices))
    {
      salesData := Released(Stages.FilterBeforeRelease(salesData.featured, sellPrices));
    }

    /** `finalize_dataset`: drop the helper columns and put the rest in final order. */
    method FinalizeDataset()
      requires salesData.Released?
      modifies this`salesData
      ensures salesData == Final(Finalize(old(salesData.released)))
    {
      salesData := Final(Finalize(salesData.released));
    }

    /** `process_data`: the stages in order. On success the finished table is both
        `sales_data` and `processor`, and, when the price table repeats no
        (unique_id, wm_yr_wk) and no two (item, store) pairs build the same unique_id,
        `filtered_row_count` is at most `original_row_count`; a row without a date stops
        the run after the price join, with `original_row_count` already recorded. */
    method ProcessData() returns (r: Result<seq<FinalRow>, ProcessError>)
      requires salesData.Wide? && Rectangular(salesData.table)
      modifies this`salesData, this`calendar, this`sellPrices, this`processor
      modifies this`originalRowCount, this`filteredRowCount
      ensures var p := Process(old(salesData.table), old(calendar), old(sellPrices));
        && r == p.outcome
        && calendar == p.calendar && sellPrices == p.prices
        && originalRowCount == Some(p.originalRowCount)
      ensures r.Ok? ==> processor == Some(r.value) && salesData == Final(r.value)
      ensures r.Ok? ==> filteredRowCount == Some(|r.value|)
      ensures r.Ok? && PriceKeysUnique(old(sellPrices)) && SeriesKeysUnambiguous(old(sellPrices)) ==>
                |r.value| <= originalRowCount.value
      ensures r.Err? ==> r.error == NaNToInteger
      ensures r.Err? ==> processor == old(processor) && filteredRowCount == old(filteredRowCount)
      ensures r.Err? ==> salesData == Priced(Process(old(salesData.table), old(calendar), old(sellPrices)).priced)
    {
      ghost var table, cal, prices := salesData.table, calendar, sellPrices;
      ghost var p := Process(table, cal, prices);
      ProcessShrinks(table, cal, prices);
      MeltSales();
      assert salesData == Long(Melt(table)) && originalRowCount == Some(p.originalRowCount);
      PrepareCalendar();
      assert calendar == p.calendar;
      AddSellPrices();
      assert salesData == Priced(p.priced) && sellPrices == p.prices;
      var featured := AddTimeFeatures();
      if featured.Err? {
        return Err(featured.error);
      }
      FilterBeforeRelease();
      filteredRowCount := Some(|salesData.released|);
      FinalizeDataset();
      processor := Some(salesData.final);
      return Ok(salesData.final);
    }

    /** `split_data`: each series' group, in ascending `unique_id` order, is cut by
        Python slicing with the horizon; `train_df` is assigned before the test
        concatenation can fail. */
    method SplitData() returns (r: Result<(seq<FinalRow>, seq<FinalRow>), ProcessError>)
      modifies this`trainDf, this`testDf
      ensures processor.None? ==> r == Err(NotProcessed) && trainDf == old(trainDf) && testDf == old(testDf)
      ensures processor.Some? && SeriesIds(processor.value) != [] && horizon.Text? ==>
                r == Err(HorizonNotComparable) && trainDf == old(trainDf) && testDf == old(testDf)
      ensures processor.Some? && SeriesIds(processor.value) == [] ==>
                r == Err(NothingToConcatenate) && trainDf == old(trainDf) && testDf == old(testDf)
      ensures processor.Some? && horizon.Number? ==>
                var p := SplitGroups(processor.value, SeriesIds(processor.value), horizon.number);
                && (r.Ok? <==> p.train != [] && p.test != [])
                && (r.Err? ==> r.error == NothingToConcatenate)
                && trainDf == (if p.train == [] then old(trainDf) else Some(Flatten(p.train)))
                && testDf == (if p.train != [] && p.test != [] then Some(Flatten(p.test)) else old(testDf))
                && (r.Ok? ==> r.value == (Flatten(p.train), Flatten(p.test)))
    {
      if processor.None? {
        return Err(NotProcessed);
      }
      var rows := processor.value;
      var ids := SeriesIds(rows);
      var trainList: seq<seq<FinalRow>> := [];
      var testList: seq<seq<FinalRow>> := [];
      var i := 0;
      while i < |ids|
        invariant 0 <= i <= |ids|
        invariant horizon.Number? ==> SplitGroups(rows, ids[..i], horizon.number) == SplitLists(trainList, testList)
        invariant horizon.Text? ==> i == 0 && trainList == [] && testList == []
        invariant trainDf == old(trainDf) && testDf == old(testDf)
      {
        if horizon.Text? {
          return Err(HorizonNotComparable);
        }
        SplitGroupsStep(rows, ids, i, horizon.number);
        var group := Group(rows, ids[i]);
        if |group| > horizon.number {
          var cut := Cut(|group|, horizon.number);
          trainList := trainList + [group[..cut]];
          testList := testList + [group[cut..]];
        } else {
          trainList := trainList + [group];
        }
        i := i + 1;
      }
      assert ids[..i] == ids;
      assert horizon.Number? ==> SplitGroups(rows, ids, horizon.number) == SplitLists(trainList, testList);
      var train := Concat(trainList);
      if train.Err? {
        return Err(train.error);
      }
      trainDf := Some(train.value);
      var test := Concat(testList);
      if test.Err? {
        return Err(test.error);
      }
      testDf := Some(test.value);
      return Ok((train.value, test.value));
    }
  }
}
