/** The stages of `DataProcessor.process_data` as functions from one table to the next
    (m5_forecasting/data_processor.py:39-149), with what each stage guarantees. */
module Stages {
  import opened Wrappers
  import opened Seqs
  import opened Strings
  import opened Records

  // ---------------------------------------------------------------- series key

  /** `item_id + "_" + store_id`, the series key built for sales, prices and releases alike. */
  function SeriesKey(itemId: string, storeId: string): string
  {
    itemId + "_" + storeId
  }

  /** The key alone does not determine the pair it came from: two price groups can share
      one `unique_id`, which is why the model asks for unambiguous keys. */
  lemma SeriesKeyAmbiguous()
    ensures SeriesKey("A_B", "C") == SeriesKey("A", "B_C")
  {
  }

  // ---------------------------------------------------------------- melt

  /** `col.startswith("d_")`. */
  predicate IsDateColumn(name: string)
  {
    "d_" <= name
  }

  /** The positions of the `d_*` columns, in column order. */
  function DateColumns(columns: seq<string>): (r: seq<nat>)
    ensures forall k :: 0 <= k < |r| ==> r[k] < |columns| && IsDateColumn(columns[r[k]])
    ensures forall j :: 0 <= j < |columns| && IsDateColumn(columns[j]) ==> j in r
    ensures forall k, l :: 0 <= k < l < |r| ==> r[k] < r[l]
  {
    if columns == [] then []
    else
      var n := |columns| - 1;
      DateColumns(columns[..n]) + (if IsDateColumn(columns[n]) then [n] else [])
  }

  /** The melted row for one wide row and one day column. */
  function MeltRow(r: WideRow, name: string, cell: int): LongRow
  {
    LongRow(r.storeId, r.itemId, r.deptId, r.catId, r.stateId, SeriesKey(r.itemId, r.storeId), name, cell)
  }

  /** The block `pd.melt` emits for column `j`: one row per wide row, in row order. */
  function MeltColumn(t: WideTable, j: nat): seq<LongRow>
    requires Rectangular(t) && j < |t.columns|
  {
    seq(|t.rows|, i requires 0 <= i < |t.rows| => MeltRow(t.rows[i], t.columns[j], t.rows[i].cells[j]))
  }

  function MeltColumns(t: WideTable, js: seq<nat>): seq<LongRow>
    requires Rectangular(t)
    requires forall k :: 0 <= k < |js| ==> js[k] < |t.columns|
  {
    if js == [] then [] else MeltColumns(t, js[..|js| - 1]) + MeltColumn(t, js[|js| - 1])
  }

  /** `pd.melt(id_vars = the id columns + unique_id, value_vars = the d_* columns)`:
      column-major, one block per day column. */
  function Melt(t: WideTable): seq<LongRow>
    requires Rectangular(t)
  {
    MeltColumns(t, DateColumns(t.columns))
  }

  /** `c * n` by repeated addition, which keeps the block arithmetic linear. */
  function Times(c: nat, n: nat): nat
  {
    if c == 0 then 0 else Times(c - 1, n) + n
  }

  lemma {:induction false} TimesIsProduct(c: nat, n: nat)
    ensures Times(c, n) == c * n
  {
    if c > 0 {
      TimesIsProduct(c - 1, n);
    }
  }

  lemma {:induction false} TimesMonotone(c: nat, m: nat, n: nat)
    requires c < m
    ensures Times(c, n) + n <= Times(m, n)
  {
    if c + 1 < m {
      TimesMonotone(c, m - 1, n);
    }
  }

  /** Row `c * N + i` (`Times(c, N) + i`) of `melted` is melted from wide row `i` and the
      `c`-th of the columns `js`. */
  predicate MeltedAt(t: WideTable, js: seq<nat>, melted: seq<LongRow>, c: nat, i: nat)
    requires Rectangular(t)
    requires c < |js| && i < |t.rows| && js[c] < |t.columns|
  {
    Times(c, |t.rows|) + i < |melted| &&
    MeltedFrom(melted[Times(c, |t.rows|) + i], t.rows[i], t.columns[js[c]], t.rows[i].cells[js[c]])
  }

  lemma {:induction false} MeltColumnsShape(t: WideTable, js: seq<nat>)
    requires Rectangular(t)
    requires forall k :: 0 <= k < |js| ==> js[k] < |t.columns|
    ensures |MeltColumns(t, js)| == Times(|js|, |t.rows|)
    ensures forall c, i :: 0 <= c < |js| && 0 <= i < |t.rows| ==> MeltedAt(t, js, MeltColumns(t, js), c, i)
  {
    if js != [] {
      var m, n := |js| - 1, |t.rows|;
      var front := js[..m];
      MeltColumnsShape(t, front);
      var prefix, block := MeltColumns(t, front), MeltColumn(t, js[m]);
      var r := MeltColumns(t, js);
      assert r == prefix + block;
      assert |prefix| == Times(m, n) && |block| == n;
      forall c, i | 0 <= c < |js| && 0 <= i < n
        ensures MeltedAt(t, js, r, c, i)
      {
        if c < m {
          TimesMonotone(c, m, n);
          assert front[c] == js[c];
          assert MeltedAt(t, front, prefix, c, i);
        }
        AppendIndex(prefix, block, Times(c, n) + i);
      }
    }
  }

  /** The melted table has one row per (day column, wide row), and row `c * N + i` is
      melted from wide row `i` and day column `c` (data_processor.py:47-58). */
  lemma MeltShape(t: WideTable)
    requires Rectangular(t)
    ensures |Melt(t)| == |DateColumns(t.columns)| * |t.rows|
    ensures forall c, i :: 0 <= c < |DateColumns(t.columns)| && 0 <= i < |t.rows| ==>
              MeltedAt(t, DateColumns(t.columns), Melt(t), c, i)
  {
    MeltColumnsShape(t, DateColumns(t.columns));
    TimesIsProduct(|DateColumns(t.columns)|, |t.rows|);
  }

  /** `r` carries wide row `w`'s identifying columns, its series key, the day column's
      name as `ds_id` and that column's cell as `y`. */
  predicate MeltedFrom(r: LongRow, w: WideRow, name: string, cell: int)
  {
    && r.itemId == w.itemId && r.storeId == w.storeId
    && r.deptId == w.deptId && r.catId == w.catId && r.stateId == w.stateId
    && r.uniqueId == SeriesKey(w.itemId, w.storeId)
    && r.dsId == name && r.y == cell
  }

  // ---------------------------------------------------------------- calendar

  /** `"d_" + str(i + 1)`: the ds_id of calendar row `i` (0-based). */
  function DsIdOf(i: nat): string
  {
    "d_" + NatToString(i + 1)
  }

  lemma DsIdOfInjective(i: nat, j: nat)
    requires DsIdOf(i) == DsIdOf(j)
    ensures i == j
  {
    assert DsIdOf(i)[2..] == NatToString(i + 1);
    assert DsIdOf(j)[2..] == NatToString(j + 1);
    NatToStringInjective(i + 1, j + 1);
  }

  /** `fillna(0)` on an event column. */
  function FillNa(c: EventCell): EventCell
  {
    if c == Missing then Zero else c
  }

  /** `column != 0` on an event column (true for NaN and for every string). */
  predicate NonZero(c: EventCell)
  {
    c != Zero
  }

  /** `num_events` as the three assignments set it, from the filled event types:
      0 everywhere, 2 where type 2 is not 0, then 1 where type 2 is 0 and type 1 is not. */
  function NumEvents(type1: EventCell, type2: EventCell): int
  {
    var initial := 0;
    var afterSecond := if NonZero(type2) then 2 else initial;
    if !NonZero(type2) && NonZero(type1) then 1 else afterSecond
  }

  /** Calendar row `i` as `prepare_calendar` leaves it. */
  function PrepareRow(c: CalendarRow, i: nat): CalendarRow
  {
    var type2, name2 := FillNa(c.eventType2), FillNa(c.eventName2);
    var type1, name1 := FillNa(c.eventType1), FillNa(c.eventName1);
    c.(dsId := Some(DsIdOf(i)), eventType2 := type2, eventName2 := name2, eventType1 := type1,
       eventName1 := name1, numEvents := Some(NumEvents(type1, type2)))
  }

  /** The calendar after the in-place column writes of data_processor.py:87-94. */
  function PrepareCalendar(cal: seq<CalendarRow>): seq<CalendarRow>
  {
    seq(|cal|, i requires 0 <= i < |cal| => PrepareRow(cal[i], i))
  }

  /** Preparing the calendar keeps its rows, their date and week, numbers them `d_1`,
      `d_2`, ... and sets `num_events` to 2 when the second event type was present, 1 when
      only the first was, else 0; no event cell is left NaN (data_processor.py:87-94). */
  lemma PrepareCalendarRows(cal: seq<CalendarRow>)
    ensures |PrepareCalendar(cal)| == |cal|
    ensures forall i :: 0 <= i < |cal| ==>
              var r := PrepareCalendar(cal)[i];
              && r.date == cal[i].date && r.wmYrWk == cal[i].wmYrWk
              && r.dsId == Some(DsIdOf(i))
              && r.numEvents == Some(if cal[i].eventType2.Event? then 2
                                     else if cal[i].eventType1.Event? then 1 else 0)
              && 0 <= r.numEvents.value <= 2
              && r.eventType1 != Missing && r.eventType2 != Missing
              && r.eventName1 != Missing && r.eventName2 != Missing
  {
  }

  /** No ds_id occurs twice on the calendar (a ds_id occurs at most once): the merges on
      ds_id never multiply rows. */
  predicate DsIdsUnique(cal: seq<CalendarRow>)
  {
    forall i, j :: 0 <= i < |cal| && 0 <= j < |cal| && cal[i].dsId.Some? && cal[i].dsId == cal[j].dsId ==> i == j
  }

  lemma PreparedDsIdsUnique(cal: seq<CalendarRow>)
    ensures DsIdsUnique(PrepareCalendar(cal))
  {
    var p := PrepareCalendar(cal);
    forall i, j | 0 <= i < |p| && 0 <= j < |p| && p[i].dsId.Some? && p[i].dsId == p[j].dsId
      ensures i == j
    {
      DsIdOfInjective(i, j);
    }
  }

  /** The left merges on ds_id: the calendar row matching a sales row, if any. */
  function CalendarMatch(cal: seq<CalendarRow>, dsId: string): Option<CalendarRow>
  {
    FindFirst(cal, (c: CalendarRow) => c.dsId == Some(dsId))
  }

  function JoinCalendarRow(r: LongRow, cal: seq<CalendarRow>): CalendarJoinedRow
  {
    match CalendarMatch(cal, r.dsId)
    case None => CalendarJoinedRow(r, None, None, None)
    case Some(c) => CalendarJoinedRow(r, Some(c.wmYrWk), Some(c.date), c.numEvents)
  }

  /** Both calendar merges of data_processor.py:95-97 (one row per sales row, as the
      prepared calendar's ds_ids are unique). */
  function JoinCalendar(rows: seq<LongRow>, cal: seq<CalendarRow>): seq<CalendarJoinedRow>
  {
    seq(|rows|, i requires 0 <= i < |rows| => JoinCalendarRow(rows[i], cal))
  }

  /** Against the prepared calendar, the merge keeps every sales row in its place and
      gives it the `wm_yr_wk`, date and `num_events` of calendar row `j` exactly when its
      ds_id is `d_(j+1)`; a row whose ds_id names no calendar row gets nulls. */
  lemma JoinCalendarSpec(rows: seq<LongRow>, cal: seq<CalendarRow>)
    ensures var joined := JoinCalendar(rows, PrepareCalendar(cal));
      && |joined| == |rows|
      && (forall i :: 0 <= i < |rows| ==> joined[i].sale == rows[i])
      && (forall i, j :: 0 <= i < |rows| && 0 <= j < |cal| && rows[i].dsId == DsIdOf(j) ==>
            joined[i].wmYrWk == Some(cal[j].wmYrWk) && joined[i].ds == Some(cal[j].date)
            && joined[i].numEvents == PrepareCalendar(cal)[j].numEvents)
      && (forall i :: 0 <= i < |rows| && (forall j :: 0 <= j < |cal| ==> rows[i].dsId != DsIdOf(j)) ==>
            joined[i].wmYrWk.None? && joined[i].ds.None? && joined[i].numEvents.None?)
  {
    var p := PrepareCalendar(cal);
    PreparedDsIdsUnique(cal);
    forall i, j | 0 <= i < |rows| && 0 <= j < |cal| && rows[i].dsId == DsIdOf(j)
      ensures CalendarMatch(p, rows[i].dsId) == Some(p[j])
    {
      FindFirstUnique(p, (c: CalendarRow) => c.dsId == Some(rows[i].dsId), j);
    }
  }

  // ---------------------------------------------------------------- prices

  /** The price table after `add_sell_prices` writes its `unique_id` column. */
  function KeyPrices(prices: seq<PriceRow>): seq<PriceRow>
  {
    seq(|prices|, i requires 0 <= i < |prices| =>
      prices[i].(uniqueId := Some(SeriesKey(prices[i].itemId, prices[i].storeId))))
  }

  /** No (unique_id, wm_yr_wk) occurs twice among the price rows. */
  predicate PriceKeysUnique(prices: seq<PriceRow>)
  {
    forall i, j ::
      && 0 <= i < |prices| && 0 <= j < |prices|
      && SeriesKey(prices[i].itemId, prices[i].storeId) == SeriesKey(prices[j].itemId, prices[j].storeId)
      && prices[i].wmYrWk == prices[j].wmYrWk
      ==> i == j
  }

  function PriceMatch(prices: seq<PriceRow>, uniqueId: string, week: int): Option<PriceRow>
  {
    FindFirst(prices, (p: PriceRow) => p.uniqueId == Some(uniqueId) && p.wmYrWk == week)
  }

  function JoinPriceRow(r: CalendarJoinedRow, prices: seq<PriceRow>): PricedRow
  {
    match r.wmYrWk
    case None => PricedRow(r, None)
    case Some(week) =>
      match PriceMatch(prices, r.sale.uniqueId, week)
      case None => PricedRow(r, None)
      case Some(p) => PricedRow(r, Some(p.sellPrice))
  }

  /** The left merge on (unique_id, wm_yr_wk) of data_processor.py:102-104. */
  function AddSellPrices(rows: seq<CalendarJoinedRow>, prices: seq<PriceRow>): seq<PricedRow>
  {
    seq(|rows|, i requires 0 <= i < |rows| => JoinPriceRow(rows[i], prices))
  }

  /** Price row `p` belongs to the series and week of sales row `r`. */
  predicate PriceFits(r: CalendarJoinedRow, p: PriceRow)
  {
    r.wmYrWk == Some(p.wmYrWk) && r.sale.uniqueId == SeriesKey(p.itemId, p.storeId)
  }

  /** With unique price keys the merge keeps every row in its place and gives it the
      price of the one price row with its series and week, or null when there is none
      (or when its week is null). */
  lemma AddSellPricesSpec(rows: seq<CalendarJoinedRow>, prices: seq<PriceRow>)
    requires PriceKeysUnique(prices)
    ensures var priced := AddSellPrices(rows, KeyPrices(prices));
      && |priced| == |rows|
      && (forall i :: 0 <= i < |rows| ==> priced[i].cal == rows[i])
      && (forall i, j :: 0 <= i < |rows| && 0 <= j < |prices| && PriceFits(rows[i], prices[j]) ==>
            priced[i].sellPrice == Some(prices[j].sellPrice))
      && (forall i :: 0 <= i < |rows| && (forall j :: 0 <= j < |prices| ==> !PriceFits(rows[i], prices[j])) ==>
            priced[i].sellPrice.None?)
  {
    var keyed := KeyPrices(prices);
    forall i, j | 0 <= i < |rows| && 0 <= j < |prices| && PriceFits(rows[i], prices[j])
      ensures PriceMatch(keyed, rows[i].sale.uniqueId, prices[j].wmYrWk) == Some(keyed[j])
    {
      FindFirstUnique(keyed, (p: PriceRow) => p.uniqueId == Some(rows[i].sale.uniqueId) && p.wmYrWk == prices[j].wmYrWk, j);
    }
  }

  // ---------------------------------------------------------------- time features

  /** Python's `int(x / 7)` for an integer `x`: true division, then truncation toward zero. */
  function TruncDiv7(x: int): int
  {
    if x >= 0 then x / 7 else -((-x) / 7)
  }

  /** `int((d.day - 1) / 7) + 1`. */
  function WeekOfMonth(dayOfMonth: int): int
  {
    TruncDiv7(dayOfMonth - 1) + 1
  }

  /** `(day_of_week >= 5).astype(int)`. */
  function IsWeekend(dayOfWeek: int): int
  {
    if dayOfWeek >= 5 then 1 else 0
  }

  function Features(d: Date): TimeFeatures
  {
    TimeFeatures(d.dayOfWeek, IsWeekend(d.dayOfWeek), d.dayOfMonth, WeekOfMonth(d.dayOfMonth),
                 d.month, d.isoWeek, d.year)
  }

  /** Week `w` of a month holds days 7(w-1)+1 .. 7w, so days 1..31 fall in weeks 1..5;
      Saturday and Sunday (day of week 5 and 6) and nothing else are the weekend. */
  lemma TimeFeaturesRanges(d: Date)
    requires ValidDate(d)
    ensures var f := Features(d);
      && 7 * (f.weekOfMonth - 1) < d.dayOfMonth <= 7 * f.weekOfMonth
      && 1 <= f.weekOfMonth <= 5
      && (f.isWeekend == 1 <==> d.dayOfWeek in {5, 6})
      && (f.isWeekend == 0 <==> d.dayOfWeek in {0, 1, 2, 3, 4})
  {
  }

  /** `add_time_features`: it raises as soon as a row has no date, since the
      `week_of_month` lambda then evaluates `int(nan)`. */
  function AddTimeFeatures(rows: seq<PricedRow>): (r: Result<seq<FeaturedRow>, ProcessError>)
    ensures r.Err? <==> exists i :: 0 <= i < |rows| && rows[i].cal.ds.None?
    ensures r.Err? ==> r.error == NaNToInteger
    ensures r.Ok? ==> |r.value| == |rows|
    ensures r.Ok? ==> forall i :: 0 <= i < |rows| ==>
              r.value[i].priced == rows[i] && rows[i].cal.ds == Some(r.value[i].ds) &&
              r.value[i].time == Features(r.value[i].ds)
  {
    if exists i :: 0 <= i < |rows| && rows[i].cal.ds.None? then Err(NaNToInteger)
    else Ok(seq(|rows|, i requires 0 <= i < |rows| =>
                 FeaturedRow(rows[i], rows[i].cal.ds.value, Features(rows[i].cal.ds.value))))
  }

  // ---------------------------------------------------------------- release filter

  /** The smallest `wm_yr_wk` among the price rows of series `u`, if it has any. */
  function Release(prices: seq<PriceRow>, u: string): (r: Option<int>)
    ensures r.None? <==> forall i :: 0 <= i < |prices| ==> SeriesKey(prices[i].itemId, prices[i].storeId) != u
    ensures r.Some? ==>
              exists i :: 0 <= i < |prices| && SeriesKey(prices[i].itemId, prices[i].storeId) == u && prices[i].wmYrWk == r.value
    ensures r.Some? ==> forall i :: 0 <= i < |prices| && SeriesKey(prices[i].itemId, prices[i].storeId) == u ==>
              r.value <= prices[i].wmYrWk
  {
    if prices == [] then None
    else
      var rest := Release(prices[1..], u);
      if SeriesKey(prices[0].itemId, prices[0].storeId) != u then rest
      else match rest
        case None => Some(prices[0].wmYrWk)
        case Some(m) => Some(if prices[0].wmYrWk < m then prices[0].wmYrWk else m)
  }

  /** Different (item_id, store_id) pairs of the price table give different unique_ids. */
  predicate SeriesKeysUnambiguous(prices: seq<PriceRow>)
  {
    forall i, j ::
      && 0 <= i < |prices| && 0 <= j < |prices|
      && SeriesKey(prices[i].itemId, prices[i].storeId) == SeriesKey(prices[j].itemId, prices[j].storeId)
      ==> prices[i].itemId == prices[j].itemId && prices[i].storeId == prices[j].storeId
  }

  /** Two price rows of the same (store_id, item_id) group. */
  predicate SamePair(p: PriceRow, q: PriceRow)
  {
    p.itemId == q.itemId && p.storeId == q.storeId
  }

  /** With unambiguous keys the release of a series is the minimum `wm_yr_wk` of its
      (store_id, item_id) group, the value `groupby(...).min()` computes. */
  lemma ReleaseIsGroupMinimum(prices: seq<PriceRow>, j: int)
    requires SeriesKeysUnambiguous(prices)
    requires 0 <= j < |prices|
    ensures var rel := Release(prices, SeriesKey(prices[j].itemId, prices[j].storeId));
      && rel.Some?
      && (exists i :: 0 <= i < |prices| && SamePair(prices[i], prices[j]) && prices[i].wmYrWk == rel.value)
      && (forall i :: 0 <= i < |prices| && SamePair(prices[i], prices[j]) ==> rel.value <= prices[i].wmYrWk)
  {
  }

  function AttachRelease(rows: seq<FeaturedRow>, prices: seq<PriceRow>): seq<ReleasedRow>
  {
    seq(|rows|, i requires 0 <= i < |rows| => ReleasedRow(rows[i], Release(prices, rows[i].priced.cal.sale.uniqueId)))
  }

  /** `wm_yr_wk >= release`; a comparison with a null on either side is false. */
  predicate KeepRow(r: ReleasedRow)
  {
    var week := r.featured.priced.cal.wmYrWk;
    week.Some? && r.release.Some? && week.value >= r.release.value
  }

  /** `filter_before_release`: merge each row's release week, keep the rows at or after it. */
  function FilterBeforeRelease(rows: seq<FeaturedRow>, prices: seq<PriceRow>): (r: seq<ReleasedRow>)
    ensures |r| <= |rows|
    ensures Subsequence(r, AttachRelease(rows, prices))
    ensures forall k :: 0 <= k < |r| ==> KeepRow(r[k])
  {
    FilterIsSubsequence(AttachRelease(rows, prices), KeepRow);
    Filter(AttachRelease(rows, prices), KeepRow)
  }

  /** The row's week is known, its series has prices, and some price week of its series
      is not later than the row's week. */
  predicate AtOrAfterRelease(r: FeaturedRow, prices: seq<PriceRow>)
  {
    var week := r.priced.cal.wmYrWk;
    var u := r.priced.cal.sale.uniqueId;
    week.Some? && exists p :: 0 <= p < |prices| && SeriesKey(prices[p].itemId, prices[p].storeId) == u && prices[p].wmYrWk <= week.value
  }

  /** The filter keeps, in order, exactly the rows whose week is not null and not before
      the minimum price week of their series (series without prices lose all rows), with
      that minimum as `release` (data_processor.py:118-126); every copy of a passing row
      is kept. */
  lemma FilterBeforeReleaseSpec(rows: seq<FeaturedRow>, prices: seq<PriceRow>)
    ensures var kept := FilterBeforeRelease(rows, prices);
      && Subsequence(kept, AttachRelease(rows, prices))
      && (forall k :: 0 <= k < |kept| ==> exists i :: 0 <= i < |rows| && kept[k].featured == rows[i])
      && (forall k :: 0 <= k < |kept| ==>
            var week := kept[k].featured.priced.cal.wmYrWk;
            var rel := Release(prices, kept[k].featured.priced.cal.sale.uniqueId);
            week.Some? && rel.Some? && kept[k].release == rel && rel.value <= week.value)
      && (forall i :: 0 <= i < |rows| && AtOrAfterRelease(rows[i], prices) ==> AttachRelease(rows, prices)[i] in kept)
    ensures forall x :: multiset(FilterBeforeRelease(rows, prices))[x] ==
              if KeepRow(x) then multiset(AttachRelease(rows, prices))[x] else 0
  {
    var attached := AttachRelease(rows, prices);
    var kept := FilterBeforeRelease(rows, prices);
    forall x ensures multiset(kept)[x] == if KeepRow(x) then multiset(attached)[x] else 0 {
      FilterMultiset(attached, KeepRow, x);
    }
    forall k | 0 <= k < |kept|
      ensures exists i :: 0 <= i < |rows| && kept[k].featured == rows[i]
      ensures kept[k].release == Release(prices, kept[k].featured.priced.cal.sale.uniqueId)
    {
      var i :| 0 <= i < |attached| && attached[i] == kept[k];
    }
  }

  // ---------------------------------------------------------------- finalize

  /** Drop `ds_id`, `wm_yr_wk` and `release`; keep the sixteen output columns in order. */
  function Project(r: ReleasedRow): FinalRow
  {
    var f := r.featured;
    var s := f.priced.cal.sale;
    FinalRow(s.uniqueId, f.ds, s.y, f.priced.sellPrice, f.priced.cal.numEvents,
             s.catId, s.deptId, s.stateId, s.storeId,
             f.time.dayOfWeek, f.time.isWeekend, f.time.dayOfMonth, f.time.weekOfMonth,
             f.time.month, f.time.weekNumYear, f.time.year)
  }

  function Finalize(rows: seq<ReleasedRow>): (r: seq<FinalRow>)
    ensures |r| == |rows|
  {
    seq(|rows|, i requires 0 <= i < |rows| => Project(rows[i]))
  }

  /** The output schema has sixteen distinct columns and none of the dropped helpers. */
  lemma FinalSchema()
    ensures |FinalColumns| == 16
    ensures forall i, j :: 0 <= i < j < |FinalColumns| ==> FinalColumns[i] != FinalColumns[j]
    ensures "ds_id" !in FinalColumns && "wm_yr_wk" !in FinalColumns && "release" !in FinalColumns
  {
  }

  // ---------------------------------------------------------------- the whole pipeline

  /** What `process_data` computes from the three input tables. */
  datatype Processed = Processed(calendar: seq<CalendarRow>, prices: seq<PriceRow>, priced: seq<PricedRow>,
                                 originalRowCount: nat, outcome: Result<seq<FinalRow>, ProcessError>)

  function Process(t: WideTable, cal: seq<CalendarRow>, prices: seq<PriceRow>): Processed
    requires Rectangular(t)
  {
    var long := Melt(t);
    var calendar := PrepareCalendar(cal);
    var keyed := KeyPrices(prices);
    var priced := AddSellPrices(JoinCalendar(long, calendar), keyed);
    var outcome := match AddTimeFeatures(priced)
      case Err(e) => Err(e)
      case Ok(featured) => Ok(Finalize(FilterBeforeRelease(featured, keyed)));
    Processed(calendar, keyed, priced, |long|, outcome)
  }

  /** After both joins a sales row has no date exactly when its ds_id names no calendar row. */
  lemma JoinedDateMissing(long: seq<LongRow>, cal: seq<CalendarRow>, prices: seq<PriceRow>, k: int)
    requires 0 <= k < |long|
    ensures var priced := AddSellPrices(JoinCalendar(long, PrepareCalendar(cal)), KeyPrices(prices));
      |priced| == |long| &&
      (priced[k].cal.ds.None? <==> forall j :: 0 <= j < |cal| ==> long[k].dsId != DsIdOf(j))
  {
    var calendar := PrepareCalendar(cal);
    var joined := JoinCalendar(long, calendar);
    var priced := AddSellPrices(joined, KeyPrices(prices));
    assert priced[k].cal == joined[k];
    JoinCalendarSpec(long, cal);
  }

  /** The run fails exactly when some melted row's ds_id is none of `d_1` .. `d_n` for an
      n-row calendar; otherwise, when no (unique_id, wm_yr_wk) repeats among the prices and
      no two (item, store) pairs build the same unique_id, the finished table has at most
      `original_row_count` rows (data_processor.py:60, 74). Without those two conditions
      pandas' merges repeat sales rows and the bound fails. */
  lemma ProcessRowCounts(t: WideTable, cal: seq<CalendarRow>, prices: seq<PriceRow>)
    requires Rectangular(t)
    ensures var p := Process(t, cal, prices);
      && p.originalRowCount == |DateColumns(t.columns)| * |t.rows|
      && (p.outcome.Err? <==> exists k :: 0 <= k < |Melt(t)| && forall j :: 0 <= j < |cal| ==> Melt(t)[k].dsId != DsIdOf(j))
      && (PriceKeysUnique(prices) && SeriesKeysUnambiguous(prices) && p.outcome.Ok? ==>
            |p.outcome.value| <= p.originalRowCount)
  {
    MeltShape(t);
    var long := Melt(t);
    var p := Process(t, cal, prices);
    if p.outcome.Err? {
      var k :| 0 <= k < |p.priced| && p.priced[k].cal.ds.None?;
      JoinedDateMissing(long, cal, prices, k);
    } else {
      forall k | 0 <= k < |long| ensures exists j :: 0 <= j < |cal| && long[k].dsId == DsIdOf(j) {
        JoinedDateMissing(long, cal, prices, k);
      }
    }
  }

  /** With unique price keys and unambiguous series keys, every merge is one-to-one, so a
      successful run never has more rows than the melted table. */
  lemma ProcessShrinks(t: WideTable, cal: seq<CalendarRow>, prices: seq<PriceRow>)
    requires Rectangular(t)
    ensures PriceKeysUnique(prices) && SeriesKeysUnambiguous(prices) && Process(t, cal, prices).outcome.Ok? ==>
              |Process(t, cal, prices).outcome.value| <= Process(t, cal, prices).originalRowCount
  {
  }

  /** With unique price keys and unambiguous series keys, the finished table keeps every
      row exactly when every row is at or after its series' release week. */
  lemma ProcessKeepsAllIff(t: WideTable, cal: seq<CalendarRow>, prices: seq<PriceRow>, featured: seq<FeaturedRow>)
    requires Rectangular(t)
    requires PriceKeysUnique(prices) && SeriesKeysUnambiguous(prices)
    requires AddTimeFeatures(Process(t, cal, prices).priced) == Ok(featured)
    ensures var p := Process(t, cal, prices);
      p.outcome.Ok? &&
      (|p.outcome.value| == p.originalRowCount <==>
         forall i :: 0 <= i < |featured| ==> KeepRow(AttachRelease(featured, KeyPrices(prices))[i]))
  {
    FilterKeepsLength(AttachRelease(featured, KeyPrices(prices)), KeepRow);
  }
}
