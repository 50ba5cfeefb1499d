/** The `DataChecker` of m5_forecasting/utils.py: validation results over the finished
    train and test tables. The messages are left out; what is modelled is what they
    report: counts, the percentage, null counts, missing dates and duplicate rows. */
module Checks {
  import opened Wrappers
  import opened Seqs
  import opened Strings
  import opened Records
  import opened Stages
  import opened Splitting

  /** A table handed to a check: its column names and its rows. */
  datatype Frame = Frame(columns: seq<string>, rows: seq<FinalRow>)

  /** The exceptions the checks raise. */
  datatype CheckError =
    | ZeroDivision          // `dropped / original` with `original == 0`
    | InvariantViolation    // more filtered rows than original rows
    | MissingColumns        // `unique_id` or `ds` is not a column
    | EmptyDateRange        // `pd.date_range` between the `NaT` bounds of an empty table
    | JoinTypeError         // `"\n".join` over lists of date strings

  datatype DropSummary = DropSummary(original: int, filtered: int, dropped: int, percentage: real)

  /** `(rows, columns)` of a finished table and its columns with their null counts. */
  datatype NullsAndShape = NullsAndShape(trainShape: (nat, nat), testShape: (nat, nat),
                                         trainNulls: seq<(string, nat)>, testNulls: seq<(string, nat)>)

  /** The days one series lacks, in ascending order. */
  datatype SeriesGaps = SeriesGaps(uniqueId: string, days: seq<int>)

  datatype GapReport = NoGaps | Gaps(series: seq<SeriesGaps>)

  datatype DuplicateReport = NoDuplicates | DuplicateRows(rows: seq<FinalRow>)

  /** Both columns the date checks demand. */
  predicate HasKeyColumns(columns: seq<string>)
  {
    "unique_id" in columns && "ds" in columns
  }

  /** The cell of `column` in `r` is null; only the price and the event count can be. */
  predicate IsNull(r: FinalRow, column: string)
  {
    (column == "sell_price" && r.sellPrice.None?) || (column == "num_events" && r.numEvents.None?)
  }

  /** `isnull().sum()` for one column. */
  function CountNulls(rows: seq<FinalRow>, column: string): nat
  {
    |Filter(rows, (r: FinalRow) => IsNull(r, column))|
  }

  /** The count for every column of the finished table, in column order. */
  function NullCounts(rows: seq<FinalRow>): seq<(string, nat)>
  {
    seq(|FinalColumns|, k requires 0 <= k < |FinalColumns| => (FinalColumns[k], CountNulls(rows, FinalColumns[k])))
  }

  /** `nulls[nulls > 0]`. */
  function NullSummary(rows: seq<FinalRow>): seq<(string, nat)>
  {
    Filter(NullCounts(rows), (e: (string, nat)) => e.1 > 0)
  }

  /** The series a row belongs to paired with its day: the key of the duplicate check. */
  function Key(r: FinalRow): (string, int)
  {
    (r.uniqueId, r.ds.ordinal)
  }

  /** How many rows carry the key `k`. */
  function KeyCount(rows: seq<FinalRow>, k: (string, int)): nat
  {
    |Filter(rows, (r: FinalRow) => Key(r) == k)|
  }

  /** `df[df.duplicated(subset=["unique_id", "ds"], keep=False)]`. */
  function Duplicates(rows: seq<FinalRow>): seq<FinalRow>
  {
    Filter(rows, (r: FinalRow) => KeyCount(rows, Key(r)) >= 2)
  }

  /** Some row of series `u` falls on day `d`. */
  predicate Present(rows: seq<FinalRow>, u: string, d: int)
  {
    exists i :: 0 <= i < |rows| && rows[i].uniqueId == u && rows[i].ds.ordinal == d
  }

  /** `df["ds"].min()` of a non-empty table. */
  function MinDay(rows: seq<FinalRow>): (m: int)
    requires rows != []
    ensures exists i :: 0 <= i < |rows| && rows[i].ds.ordinal == m
    ensures forall i :: 0 <= i < |rows| ==> m <= rows[i].ds.ordinal
  {
    if |rows| == 1 then rows[0].ds.ordinal
    else
      var m := MinDay(rows[1..]);
      if rows[0].ds.ordinal < m then rows[0].ds.ordinal else m
  }

  /** `df["ds"].max()` of a non-empty table. */
  function MaxDay(rows: seq<FinalRow>): (m: int)
    requires rows != []
    ensures exists i :: 0 <= i < |rows| && rows[i].ds.ordinal == m
    ensures forall i :: 0 <= i < |rows| ==> rows[i].ds.ordinal <= m
  {
    if |rows| == 1 then rows[0].ds.ordinal
    else
      var m := MaxDay(rows[1..]);
      if rows[0].ds.ordinal > m then rows[0].ds.ordinal else m
  }

  /** The days of `lo..hi` on which series `u` has no row, ascending: the `left_only`
      rows of the merge for one series. */
  function MissingDays(rows: seq<FinalRow>, u: string, lo: int, hi: int): seq<int>
    decreases hi - lo
  {
    if lo > hi then []
    else (if Present(rows, u, lo) then [] else [lo]) + MissingDays(rows, u, lo + 1, hi)
  }

  /** The missing days of a series are exactly the days of `lo..hi` it has no row on,
      each once, ascending. */
  lemma {:induction false} MissingDaysSpec(rows: seq<FinalRow>, u: string, lo: int, hi: int)
    decreases hi - lo
    ensures forall k :: 0 <= k < |MissingDays(rows, u, lo, hi)| ==>
              lo <= MissingDays(rows, u, lo, hi)[k] <= hi && !Present(rows, u, MissingDays(rows, u, lo, hi)[k])
    ensures forall d :: lo <= d <= hi && !Present(rows, u, d) ==> d in MissingDays(rows, u, lo, hi)
    ensures forall i, j :: 0 <= i < j < |MissingDays(rows, u, lo, hi)| ==>
              MissingDays(rows, u, lo, hi)[i] < MissingDays(rows, u, lo, hi)[j]
  {
    if lo <= hi {
      MissingDaysSpec(rows, u, lo + 1, hi);
    }
  }

  /** The per-series lists of missing days, for the series `ids` that lack at least one,
      in the order of `ids`. */
  function Report(rows: seq<FinalRow>, ids: seq<string>, lo: int, hi: int): seq<SeriesGaps>
  {
    if ids == [] then []
    else
      var u := ids[|ids| - 1];
      var days := MissingDays(rows, u, lo, hi);
      var before := Report(rows, ids[..|ids| - 1], lo, hi);
      if days == [] then before else before + [SeriesGaps(u, days)]
  }

  /** `g` lists, for one of the series `ids`, its non-empty list of missing days. */
  predicate ReportsSeries(rows: seq<FinalRow>, ids: seq<string>, lo: int, hi: int, g: SeriesGaps)
  {
    g.uniqueId in ids && g.days == MissingDays(rows, g.uniqueId, lo, hi) && g.days != []
  }

  /** Every entry of the report is a series of `ids` with its missing days, and every
      series of `ids` that misses a day has an entry. */
  lemma {:induction false} ReportSpec(rows: seq<FinalRow>, ids: seq<string>, lo: int, hi: int)
    ensures forall k :: 0 <= k < |Report(rows, ids, lo, hi)| ==>
              ReportsSeries(rows, ids, lo, hi, Report(rows, ids, lo, hi)[k])
    ensures forall k :: 0 <= k < |ids| && MissingDays(rows, ids[k], lo, hi) != [] ==>
              exists j :: 0 <= j < |Report(rows, ids, lo, hi)| && Report(rows, ids, lo, hi)[j].uniqueId == ids[k]
  {
    if ids != [] {
      var front, u := ids[..|ids| - 1], ids[|ids| - 1];
      ReportSpec(rows, front, lo, hi);
      var before := Report(rows, front, lo, hi);
      var r := Report(rows, ids, lo, hi);
      var days := MissingDays(rows, u, lo, hi);
      assert r == if days == [] then before else before + [SeriesGaps(u, days)];
      forall k | 0 <= k < |before| ensures ReportsSeries(rows, ids, lo, hi, before[k]) {
        assert ReportsSeries(rows, front, lo, hi, before[k]);
        assert before[k].uniqueId in front;
      }
      forall k | 0 <= k < |ids| && MissingDays(rows, ids[k], lo, hi) != []
        ensures exists j :: 0 <= j < |r| && r[j].uniqueId == ids[k]
      {
        if k < |front| {
          assert front[k] == ids[k];
          var j :| 0 <= j < |before| && before[j].uniqueId == front[k];
          assert r[j] == before[j];
        } else {
          assert r[|r| - 1].uniqueId == u;
        }
      }
    }
  }

  /** The report keeps the order of `ids`: over ascending ids the series come out ascending. */
  lemma {:induction false} ReportAscending(rows: seq<FinalRow>, ids: seq<string>, lo: int, hi: int)
    requires StrictlySorted(ids)
    ensures forall i, j :: 0 <= i < j < |Report(rows, ids, lo, hi)| ==>
              Less(Report(rows, ids, lo, hi)[i].uniqueId, Report(rows, ids, lo, hi)[j].uniqueId)
  {
    if ids != [] {
      var front, u := ids[..|ids| - 1], ids[|ids| - 1];
      assert StrictlySorted(front);
      ReportAscending(rows, front, lo, hi);
      ReportSpec(rows, front, lo, hi);
      var before := Report(rows, front, lo, hi);
      forall k | 0 <= k < |before| ensures Less(before[k].uniqueId, u) {
        assert ReportsSeries(rows, front, lo, hi, before[k]);
        var m :| 0 <= m < |front| && front[m] == before[k].uniqueId;
        assert front[m] == ids[m];
      }
    }
  }

  /** The pair `(u, d)` is reported missing. */
  predicate Reported(g: GapReport, u: string, d: int)
  {
    g.Gaps? && exists k :: 0 <= k < |g.series| && g.series[k].uniqueId == u && d in g.series[k].days
  }

  /** The checks of utils.py:4-89 over the tables and counts the constructor stores. */
  datatype DataChecker = DataChecker(trainDf: seq<FinalRow>, testDf: seq<FinalRow>,
                                     originalRowCount: int, filteredRowCount: int)
  {
    /** `not_sales_row_drop_summary_check`: the division comes before the invariant check. */
    function RowDropSummary(): (r: Result<DropSummary, CheckError>)
      ensures originalRowCount == 0 ==> r == Err(ZeroDivision)
      ensures originalRowCount != 0 && originalRowCount < filteredRowCount ==> r == Err(InvariantViolation)
      ensures r.Ok? <==> originalRowCount != 0 && filteredRowCount <= originalRowCount
      ensures r.Ok? ==> r.value.original == originalRowCount && r.value.filtered == filteredRowCount
      ensures r.Ok? ==> r.value.dropped == originalRowCount - filteredRowCount && r.value.dropped >= 0
      ensures r.Ok? ==> r.value.percentage * originalRowCount as real == r.value.dropped as real * 100.0
      ensures r.Ok? && 0 <= filteredRowCount ==> 0.0 <= r.value.percentage <= 100.0
    {
      var dropped := originalRowCount - filteredRowCount;
      if originalRowCount == 0 then Err(ZeroDivision)
      else
        var percentage := (dropped as real / originalRowCount as real) * 100.0;
        if originalRowCount < filteredRowCount then Err(InvariantViolation)
        else
          assert 0 <= filteredRowCount ==> 0.0 <= percentage <= 100.0 by {
            if 0 <= filteredRowCount {
              PercentageBounds(dropped, originalRowCount);
            }
          }
          Ok(DropSummary(originalRowCount, filteredRowCount, dropped, percentage))
    }

    /** `nulls_and_shape_check`: both shapes, and for each table the columns that hold a
        null, each with its count of null cells. */
    function NullsAndShapeCheck(): (r: NullsAndShape)
      ensures r.trainShape == (|trainDf|, 16) && r.testShape == (|testDf|, 16)
      ensures forall k :: 0 <= k < |r.trainNulls| ==>
                r.trainNulls[k].0 in FinalColumns && r.trainNulls[k].1 == CountNulls(trainDf, r.trainNulls[k].0) > 0
      ensures forall k :: 0 <= k < |r.testNulls| ==>
                r.testNulls[k].0 in FinalColumns && r.testNulls[k].1 == CountNulls(testDf, r.testNulls[k].0) > 0
    {
      NullSummaryEntries(trainDf);
      NullSummaryEntries(testDf);
      FinalSchema();
      NullsAndShape((|trainDf|, |FinalColumns|), (|testDf|, |FinalColumns|), NullSummary(trainDf), NullSummary(testDf))
    }

    /** `gaps_in_date_check`, what it evidently means to return: for every series of `df`
        that lacks some day between the table's first and last day, that series' missing
        days. The range is the same for all series. */
    function GapsInDateCheck(df: Frame): (r: Result<GapReport, CheckError>)
      ensures !HasKeyColumns(df.columns) ==> r == Err(MissingColumns)
      ensures HasKeyColumns(df.columns) && df.rows == [] ==> r == Err(EmptyDateRange)
      ensures r.Ok? <==> HasKeyColumns(df.columns) && df.rows != []
      ensures r.Ok? && r.value.Gaps? ==> r.value.series != []
    {
      if !HasKeyColumns(df.columns) then Err(MissingColumns)
      else if df.rows == [] then Err(EmptyDateRange)
      else
        var report := Report(df.rows, SeriesIds(df.rows), MinDay(df.rows), MaxDay(df.rows));
        if report == [] then Ok(NoGaps) else Ok(Gaps(report))
    }

    /** `gaps_in_date_check` as written: `"\n".join` of a Series whose values are lists
        raises, so every table with a gap ends in `TypeError` (utils.py:72). */
    function GapsInDateCheckAsWritten(df: Frame): (r: Result<GapReport, CheckError>)
      ensures r.Ok? ==> r.value == NoGaps
      ensures r == Err(JoinTypeError) <==> GapsInDateCheck(df).Ok? && GapsInDateCheck(df).value.Gaps?
    {
      match GapsInDateCheck(df)
      case Ok(Gaps(_)) => Err(JoinTypeError)
      case other => other
    }

    /** `unique_id_per_date_check`. */
    function UniqueIdPerDateCheck(df: Frame): (r: Result<DuplicateReport, CheckError>)
      ensures r.Err? <==> !HasKeyColumns(df.columns)
      ensures r.Err? ==> r.error == MissingColumns
      ensures r.Ok? && r.value.DuplicateRows? ==> r.value.rows != []
    {
      if !HasKeyColumns(df.columns) then Err(MissingColumns)
      else
        var duplicates := Duplicates(df.rows);
        if duplicates == [] then Ok(NoDuplicates) else Ok(DuplicateRows(duplicates))
    }
  }

  /** A share of a positive whole, as a percentage, lies in 0..100. */
  lemma PercentageBounds(dropped: int, original: int)
    requires 0 < original && 0 <= dropped <= original
    ensures 0.0 <= (dropped as real / original as real) * 100.0 <= 100.0
  {
    assert (dropped as real / original as real) * original as real == dropped as real;
  }

  // ---------------------------------------------------------------- row-drop summary

  /** 100 original rows of which 80 survive: 20 dropped, 20 percent. */
  lemma RowDropExample(train: seq<FinalRow>, test: seq<FinalRow>)
    ensures DataChecker(train, test, 100, 80).RowDropSummary() == Ok(DropSummary(100, 80, 20, 20.0))
  {
  }

  /** With unique price keys and unambiguous series keys, the counts `process_data`
      records always pass the summary check once the melted table is non-empty: the merges
      repeat no row and the release filter adds none. */
  lemma PipelineDropSummary(t: WideTable, cal: seq<CalendarRow>, prices: seq<PriceRow>,
                            train: seq<FinalRow>, test: seq<FinalRow>)
    requires Rectangular(t)
    requires PriceKeysUnique(prices) && SeriesKeysUnambiguous(prices)
    requires Process(t, cal, prices).outcome.Ok? && Process(t, cal, prices).originalRowCount > 0
    ensures var p := Process(t, cal, prices);
      var r := DataChecker(train, test, p.originalRowCount, |p.outcome.value|).RowDropSummary();
      r.Ok? && r.value.dropped == p.originalRowCount - |p.outcome.value| && 0.0 <= r.value.percentage <= 100.0
  {
    ProcessRowCounts(t, cal, prices);
  }

  // ---------------------------------------------------------------- null summary

  /** Every entry of the summary is an output column with its exact, positive count of
      null cells, and the entries come in column order. */
  lemma NullSummaryEntries(rows: seq<FinalRow>)
    ensures forall k :: 0 <= k < |NullSummary(rows)| ==>
              && NullSummary(rows)[k].0 in FinalColumns
              && NullSummary(rows)[k].1 == CountNulls(rows, NullSummary(rows)[k].0)
              && NullSummary(rows)[k].1 > 0
    ensures Subsequence(NullSummary(rows), NullCounts(rows))
  {
    var counts := NullCounts(rows);
    FilterIsSubsequence(counts, (e: (string, nat)) => e.1 > 0);
    forall k | 0 <= k < |NullSummary(rows)|
      ensures NullSummary(rows)[k].0 in FinalColumns && NullSummary(rows)[k].1 == CountNulls(rows, NullSummary(rows)[k].0)
    {
      var e := NullSummary(rows)[k];
      var m :| 0 <= m < |counts| && counts[m] == e;
    }
  }

  /** Every output column with a null cell is in the summary with its count. */
  lemma NullSummaryComplete(rows: seq<FinalRow>, column: string)
    requires column in FinalColumns && CountNulls(rows, column) > 0
    ensures (column, CountNulls(rows, column)) in NullSummary(rows)
  {
    var counts := NullCounts(rows);
    var k :| 0 <= k < |FinalColumns| && FinalColumns[k] == column;
    assert counts[k] == (column, CountNulls(rows, column));
  }

  /** A column is null nowhere exactly when it is absent from the summary. */
  lemma NullSummaryAbsent(rows: seq<FinalRow>, column: string)
    requires column in FinalColumns
    ensures (forall j :: 0 <= j < |NullSummary(rows)| ==> NullSummary(rows)[j].0 != column)
        <==> forall i :: 0 <= i < |rows| ==> !IsNull(rows[i], column)
  {
    NullSummaryEntries(rows);
    var p := (r: FinalRow) => IsNull(r, column);
    if exists i :: 0 <= i < |rows| && IsNull(rows[i], column) {
      var i :| 0 <= i < |rows| && IsNull(rows[i], column);
      assert rows[i] in Filter(rows, p);
      NullSummaryComplete(rows, column);
      var j :| 0 <= j < |NullSummary(rows)| && NullSummary(rows)[j] == (column, CountNulls(rows, column));
    } else {
      FilterNone(rows, p);
    }
  }

  // ---------------------------------------------------------------- date gaps

  /** Exactly the pairs of a series of the table and a day between the table's first and
      last day on which that series has no row are reported missing. */
  lemma GapsExact(c: DataChecker, df: Frame, u: string, d: int)
    requires HasKeyColumns(df.columns) && df.rows != []
    ensures c.GapsInDateCheck(df).Ok?
    ensures Reported(c.GapsInDateCheck(df).value, u, d) <==>
              && u in SeriesIds(df.rows)
              && MinDay(df.rows) <= d <= MaxDay(df.rows)
              && !Present(df.rows, u, d)
  {
    var rows := df.rows;
    var ids, lo, hi := SeriesIds(rows), MinDay(rows), MaxDay(rows);
    ReportSpec(rows, ids, lo, hi);
    var report := Report(rows, ids, lo, hi);
    MissingDaysSpec(rows, u, lo, hi);
    if Reported(c.GapsInDateCheck(df).value, u, d) {
      assert c.GapsInDateCheck(df).value == Gaps(report);
      var k :| 0 <= k < |report| && report[k].uniqueId == u && d in report[k].days;
      assert ReportsSeries(rows, ids, lo, hi, report[k]);
    }
    if u in ids && lo <= d <= hi && !Present(rows, u, d) {
      var m :| 0 <= m < |ids| && ids[m] == u;
      assert d in MissingDays(rows, ids[m], lo, hi);
      var j :| 0 <= j < |report| && report[j].uniqueId == u;
      assert ReportsSeries(rows, ids, lo, hi, report[j]);
      assert d in report[j].days;
      assert c.GapsInDateCheck(df).value == Gaps(report);
    }
  }

  /** The "no gaps" outcome comes exactly when every series has a row on every day of the
      table's range. */
  lemma NoGapsIff(c: DataChecker, df: Frame)
    requires HasKeyColumns(df.columns) && df.rows != []
    ensures c.GapsInDateCheck(df) == Ok(NoGaps) <==>
              forall u, d :: u in SeriesIds(df.rows) && MinDay(df.rows) <= d <= MaxDay(df.rows) ==> Present(df.rows, u, d)
  {
    var rows := df.rows;
    var ids, lo, hi := SeriesIds(rows), MinDay(rows), MaxDay(rows);
    var r := c.GapsInDateCheck(df).value;
    if r != NoGaps {
      assert r == Gaps(Report(rows, ids, lo, hi));
      var g := r.series[0];
      ReportSpec(rows, ids, lo, hi);
      assert ReportsSeries(rows, ids, lo, hi, g);
      MissingDaysSpec(rows, g.uniqueId, lo, hi);
      assert !Present(rows, g.uniqueId, g.days[0]);
    } else {
      forall u, d | u in ids && lo <= d <= hi ensures Present(rows, u, d) {
        GapsExact(c, df, u, d);
      }
    }
  }

  /** The report comes grouped by series in ascending `unique_id` order, each series' days
      ascending and without repetition. */
  lemma GapsOrdered(c: DataChecker, df: Frame)
    requires c.GapsInDateCheck(df).Ok? && c.GapsInDateCheck(df).value.Gaps?
    ensures var g := c.GapsInDateCheck(df).value.series;
      && (forall i, j :: 0 <= i < j < |g| ==> Less(g[i].uniqueId, g[j].uniqueId))
      && (forall k, i, j :: 0 <= k < |g| && 0 <= i < j < |g[k].days| ==> g[k].days[i] < g[k].days[j])
  {
    var rows := df.rows;
    var ids, lo, hi := SeriesIds(rows), MinDay(rows), MaxDay(rows);
    ReportAscending(rows, ids, lo, hi);
    ReportSpec(rows, ids, lo, hi);
    var g := c.GapsInDateCheck(df).value.series;
    forall k | 0 <= k < |g| ensures forall i, j :: 0 <= i < j < |g[k].days| ==> g[k].days[i] < g[k].days[j] {
      assert ReportsSeries(rows, ids, lo, hi, g[k]);
      MissingDaysSpec(rows, g[k].uniqueId, lo, hi);
    }
  }

  /** A row of series `u` on day `d`, everything else fixed. */
  function SampleRow(u: string, d: int): FinalRow
  {
    FinalRow(u, Date(d, 0, 1, 1, 1, 2011), 0, None, Some(0), "", "", "", "", 0, 0, 1, 1, 1, 1, 2011)
  }

  /** One series with rows on days 1 and 3: day 2 is reported, and nothing else. */
  lemma InteriorGapExample(c: DataChecker)
    ensures var df := Frame(FinalColumns, [SampleRow("A", 1), SampleRow("A", 3)]);
      forall u, d :: Reported(c.GapsInDateCheck(df).value, u, d) <==> u == "A" && d == 2
  {
    var rows := [SampleRow("A", 1), SampleRow("A", 3)];
    var df := Frame(FinalColumns, rows);
    assert MinDay(rows) == 1 && MaxDay(rows) == 3;
    forall u, d ensures Reported(c.GapsInDateCheck(df).value, u, d) <==> u == "A" && d == 2 {
      GapsExact(c, df, u, d);
      assert u in SeriesIds(rows) <==> u == "A" by {
        assert rows[0].uniqueId == "A";
      }
      assert Present(rows, u, d) <==> u == "A" && (d == 1 || d == 3) by {
        if u == "A" && d == 1 { assert rows[0].ds.ordinal == 1; }
        if u == "A" && d == 3 { assert rows[1].ds.ordinal == 3; }
      }
    }
  }

  /** The range is global: series "A" with a row on day 1 only and series "B" with a row
      on day 2 only each miss the other's day, although neither has a gap within its own
      span. */
  lemma GlobalRangeExample(c: DataChecker)
    ensures var df := Frame(FinalColumns, [SampleRow("A", 1), SampleRow("B", 2)]);
      && Reported(c.GapsInDateCheck(df).value, "A", 2)
      && Reported(c.GapsInDateCheck(df).value, "B", 1)
  {
    var rows := [SampleRow("A", 1), SampleRow("B", 2)];
    var df := Frame(FinalColumns, rows);
    assert rows[0].uniqueId == "A" && rows[1].uniqueId == "B";
    assert MinDay(rows) == 1 && MaxDay(rows) == 2;
    assert !Present(rows, "A", 2) && !Present(rows, "B", 1);
    GapsExact(c, df, "A", 2);
    GapsExact(c, df, "B", 1);
  }

  /** As written, the table with one missing day ends in `TypeError` instead of a report. */
  lemma GapsJoinFails(c: DataChecker)
    ensures var df := Frame(FinalColumns, [SampleRow("A", 1), SampleRow("A", 3)]);
      c.GapsInDateCheckAsWritten(df) == Err(JoinTypeError)
  {
    InteriorGapExample(c);
    var df := Frame(FinalColumns, [SampleRow("A", 1), SampleRow("A", 3)]);
    assert Reported(c.GapsInDateCheck(df).value, "A", 2);
  }

  // ---------------------------------------------------------------- duplicates

  /** `keep=False`: a row is reported exactly when another row has its series and day,
      every copy of such a row is reported, and the reported rows keep the table's order. */
  lemma DuplicatesExact(rows: seq<FinalRow>, i: int)
    requires 0 <= i < |rows|
    ensures KeyCount(rows, Key(rows[i])) >= 2 <==> exists j :: 0 <= j < |rows| && j != i && Key(rows[j]) == Key(rows[i])
    ensures KeyCount(rows, Key(rows[i])) >= 2 ==> rows[i] in Duplicates(rows)
    ensures Subsequence(Duplicates(rows), rows)
    ensures forall x :: multiset(Duplicates(rows))[x] == if KeyCount(rows, Key(x)) >= 2 then multiset(rows)[x] else 0
  {
    FilterAtLeastTwo(rows, (r: FinalRow) => Key(r) == Key(rows[i]), i);
    FilterIsSubsequence(rows, (r: FinalRow) => KeyCount(rows, Key(r)) >= 2);
    forall x ensures multiset(Duplicates(rows))[x] == if KeyCount(rows, Key(x)) >= 2 then multiset(rows)[x] else 0 {
      FilterMultiset(rows, (r: FinalRow) => KeyCount(rows, Key(r)) >= 2, x);
    }
  }

  /** The "no duplicate" outcome comes exactly when no two rows share series and day. */
  lemma NoDuplicatesIff(c: DataChecker, df: Frame)
    requires HasKeyColumns(df.columns)
    ensures c.UniqueIdPerDateCheck(df) == Ok(NoDuplicates) <==>
              forall i, j :: 0 <= i < |df.rows| && 0 <= j < |df.rows| && i != j ==> Key(df.rows[i]) != Key(df.rows[j])
  {
    var rows := df.rows;
    if Duplicates(rows) != [] {
      var r := Duplicates(rows)[0];
      var i :| 0 <= i < |rows| && rows[i] == r;
      DuplicatesExact(rows, i);
    } else {
      forall i, j | 0 <= i < |rows| && 0 <= j < |rows| && i != j ensures Key(rows[i]) != Key(rows[j]) {
        DuplicatesExact(rows, i);
      }
    }
  }

  /** Two rows of one series on one day: both copies are reported. */
  lemma DuplicateExample(c: DataChecker)
    ensures var df := Frame(FinalColumns, [SampleRow("A", 1), SampleRow("A", 1), SampleRow("A", 2)]);
      c.UniqueIdPerDateCheck(df) == Ok(DuplicateRows([SampleRow("A", 1), SampleRow("A", 1)]))
  {
    var rows := [SampleRow("A", 1), SampleRow("A", 1), SampleRow("A", 2)];
    assert rows[1..] == [SampleRow("A", 1), SampleRow("A", 2)];
    assert rows[1..][1..] == [SampleRow("A", 2)];
    assert rows[1..][1..][1..] == [];
    assert KeyCount(rows, ("A", 1)) == 2;
    assert KeyCount(rows, ("A", 2)) == 1;
    var keep := (r: FinalRow) => KeyCount(rows, Key(r)) >= 2;
    assert Filter(rows[1..][1..], keep) == [];
    assert Filter(rows[1..], keep) == [SampleRow("A", 1)];
    assert Filter(rows, keep) == [SampleRow("A", 1), SampleRow("A", 1)];
  }
}
