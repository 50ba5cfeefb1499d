/** What `DataProcessor.split_data` computes (m5_forecasting/data_processor.py:151-171):
    the finished table grouped by `unique_id`, each group cut by Python slicing with the
    horizon, the parts concatenated. */
module Splitting {
  import opened Wrappers
  import opened Seqs
  import opened Strings
  import opened Records

  /** The rows of series `u`, in table order: one group of `groupby("unique_id")`. */
  function Group(rows: seq<FinalRow>, u: string): seq<FinalRow>
  {
    Filter(rows, (r: FinalRow) => r.uniqueId == u)
  }

  /** The series ids in the order `groupby` visits them: ascending, each once. */
  function SeriesIds(rows: seq<FinalRow>): (ids: seq<string>)
    ensures StrictlySorted(ids)
    ensures forall u :: u in ids <==> exists i :: 0 <= i < |rows| && rows[i].uniqueId == u
  {
    var column := seq(|rows|, i requires 0 <= i < |rows| => rows[i].uniqueId);
    forall u ensures u in column <==> exists i :: 0 <= i < |rows| && rows[i].uniqueId == u {
      if u in column {
        var k :| 0 <= k < |column| && column[k] == u;
        assert rows[k].uniqueId == u;
      }
      if exists i :: 0 <= i < |rows| && rows[i].uniqueId == u {
        var i :| 0 <= i < |rows| && rows[i].uniqueId == u;
        assert column[i] == u;
      }
    }
    SortedDistinct(column)
  }

  /** Python's normalisation of a slice bound `i` for a sequence of length `n`. */
  function SliceBound(i: int, n: nat): (b: nat)
    ensures b <= n
    ensures i < 0 && -i <= n ==> b == n + i
    ensures 0 <= i <= n ==> b == i
    ensures i < 0 && -i > n ==> b == 0
    ensures i > n ==> b == n
  {
    if i < 0 then (if n + i < 0 then 0 else n + i) else (if i > n then n else i)
  }

  /** Where `iloc[:-horizon]` ends and `iloc[-horizon:]` begins in a group of `n` rows. */
  function Cut(n: nat, horizon: int): nat
  {
    SliceBound(-horizon, n)
  }

  /** What a group adds to `train_list`. */
  function TrainPart(g: seq<FinalRow>, horizon: int): seq<FinalRow>
  {
    if |g| > horizon then g[..Cut(|g|, horizon)] else g
  }

  /** What a group adds to `test_list` (nothing when it is not longer than the horizon). */
  function TestPart(g: seq<FinalRow>, horizon: int): seq<FinalRow>
  {
    if |g| > horizon then g[Cut(|g|, horizon)..] else []
  }

  /** A group's two parts put back together give the group; with horizon 0 every row goes
      to test (`iloc[:-0]` is empty, `iloc[-0:]` is everything); a horizon `h` with
      `0 < h < len` leaves the last `h` rows as test; a larger horizon leaves everything
      as train. A negative horizon `h` makes the slices `iloc[:-h]` and `iloc[-h:]`: the
      first `-h` rows are train and the rest test, and all rows are train once `-h`
      reaches the group's length. */
  lemma GroupParts(g: seq<FinalRow>, horizon: int)
    ensures TrainPart(g, horizon) + TestPart(g, horizon) == g
    ensures horizon == 0 && |g| > 0 ==> TrainPart(g, horizon) == [] && TestPart(g, horizon) == g
    ensures 0 < horizon < |g| ==>
              TrainPart(g, horizon) == g[..|g| - horizon] && TestPart(g, horizon) == g[|g| - horizon..] &&
              |TestPart(g, horizon)| == horizon
    ensures 0 <= |g| <= horizon ==> TrainPart(g, horizon) == g && TestPart(g, horizon) == []
    ensures horizon < 0 && -horizon <= |g| ==>
              TrainPart(g, horizon) == g[..-horizon] && TestPart(g, horizon) == g[-horizon..]
    ensures horizon < 0 && -horizon > |g| ==> TrainPart(g, horizon) == g && TestPart(g, horizon) == []
  {
  }

  /** `train_list` and `test_list` once the loop has visited the groups `ids`. */
  datatype SplitLists = SplitLists(train: seq<seq<FinalRow>>, test: seq<seq<FinalRow>>)

  function SplitGroups(rows: seq<FinalRow>, ids: seq<string>, horizon: int): SplitLists
  {
    if ids == [] then SplitLists([], [])
    else
      var before := SplitGroups(rows, ids[..|ids| - 1], horizon);
      var group := Group(rows, ids[|ids| - 1]);
      if |group| > horizon then
        SplitLists(before.train + [TrainPart(group, horizon)], before.test + [TestPart(group, horizon)])
      else
        SplitLists(before.train + [group], before.test)
  }

  /** One more turn of the loop: the group of `ids[i]` is cut and appended. */
  lemma SplitGroupsStep(rows: seq<FinalRow>, ids: seq<string>, i: int, horizon: int)
    requires 0 <= i < |ids|
    ensures var before := SplitGroups(rows, ids[..i], horizon);
      var g := Group(rows, ids[i]);
      SplitGroups(rows, ids[..i + 1], horizon)
        == if |g| > horizon then SplitLists(before.train + [g[..Cut(|g|, horizon)]], before.test + [g[Cut(|g|, horizon)..]])
           else SplitLists(before.train + [g], before.test)
  {
    assert ids[..i + 1][..i] == ids[..i];
  }

  /** `pd.concat(tables)`: it raises on an empty list. */
  function Concat(tables: seq<seq<FinalRow>>): (r: Result<seq<FinalRow>, ProcessError>)
    ensures r.Err? <==> tables == []
    ensures r.Err? ==> r.error == NothingToConcatenate
  {
    if tables == [] then Err(NothingToConcatenate) else Ok(Flatten(tables))
  }

  /** Every row of a slice of series `v`'s group belongs to series `v`. */
  lemma PartOfGroup(rows: seq<FinalRow>, v: string, part: seq<FinalRow>, horizon: int)
    requires part == TrainPart(Group(rows, v), horizon) || part == TestPart(Group(rows, v), horizon)
    ensures forall k :: 0 <= k < |part| ==> part[k].uniqueId == v
  {
    var g := Group(rows, v);
    forall k | 0 <= k < |part| ensures part[k].uniqueId == v {
      if |g| > horizon {
        if part == TrainPart(g, horizon) {
          assert part[k] == g[k];
        } else {
          assert part[k] == g[Cut(|g|, horizon) + k];
        }
      }
    }
  }

  /** Picking series `u` out of a slice of series `v`'s group: all of it or nothing. */
  lemma GroupOfPart(rows: seq<FinalRow>, u: string, v: string, part: seq<FinalRow>, horizon: int)
    requires part == TrainPart(Group(rows, v), horizon) || part == TestPart(Group(rows, v), horizon)
    ensures Group(part, u) == if u == v then part else []
  {
    PartOfGroup(rows, v, part, horizon);
    if u == v {
      FilterAll(part, (r: FinalRow) => r.uniqueId == u);
    } else {
      FilterNone(part, (r: FinalRow) => r.uniqueId == u);
    }
  }

  /** In a strictly sorted list the last id does not occur earlier. */
  lemma LastNotInFront(ids: seq<string>)
    requires StrictlySorted(ids) && ids != []
    ensures StrictlySorted(ids[..|ids| - 1])
    ensures ids[|ids| - 1] !in ids[..|ids| - 1]
    ensures ids == ids[..|ids| - 1] + [ids[|ids| - 1]]
  {
    var front, v := ids[..|ids| - 1], ids[|ids| - 1];
    if v in front {
      var k :| 0 <= k < |front| && front[k] == v;
      StrictlySortedDistinct(ids, k, |ids| - 1);
    }
  }

  lemma {:induction false} SplitGroupsTrain(rows: seq<FinalRow>, ids: seq<string>, horizon: int, u: string)
    requires StrictlySorted(ids)
    ensures Group(Flatten(SplitGroups(rows, ids, horizon).train), u)
         == if u in ids then TrainPart(Group(rows, u), horizon) else []
  {
    if ids != [] {
      var front, v := ids[..|ids| - 1], ids[|ids| - 1];
      LastNotInFront(ids);
      SplitGroupsTrain(rows, front, horizon, u);
      var before := SplitGroups(rows, front, horizon).train;
      var part := TrainPart(Group(rows, v), horizon);
      assert SplitGroups(rows, ids, horizon).train == before + [part];
      FlattenAppend(before, part);
      FilterConcat(Flatten(before), part, (r: FinalRow) => r.uniqueId == u);
      GroupOfPart(rows, u, v, part, horizon);
      assert Group(Flatten(before + [part]), u) == Group(Flatten(before), u) + Group(part, u);
    }
  }

  lemma {:induction false} SplitGroupsTest(rows: seq<FinalRow>, ids: seq<string>, horizon: int, u: string)
    requires StrictlySorted(ids)
    ensures Group(Flatten(SplitGroups(rows, ids, horizon).test), u)
         == if u in ids then TestPart(Group(rows, u), horizon) else []
  {
    if ids != [] {
      var front, v := ids[..|ids| - 1], ids[|ids| - 1];
      LastNotInFront(ids);
      SplitGroupsTest(rows, front, horizon, u);
      var before := SplitGroups(rows, front, horizon).test;
      var g := Group(rows, v);
      var part := TestPart(g, horizon);
      if |g| > horizon {
        assert SplitGroups(rows, ids, horizon).test == before + [part];
        FlattenAppend(before, part);
        FilterConcat(Flatten(before), part, (r: FinalRow) => r.uniqueId == u);
        GroupOfPart(rows, u, v, part, horizon);
      } else {
        assert SplitGroups(rows, ids, horizon).test == before;
      }
    }
  }

  /** For every series, its rows in the concatenated train table followed by its rows in
      the concatenated test table are exactly its group of the input, in input order, cut
      where Python slicing with the horizon cuts it; series that do not occur have no rows
      in either (data_processor.py:159-167). */
  lemma SplitPerSeries(rows: seq<FinalRow>, horizon: int, u: string)
    ensures var p := SplitGroups(rows, SeriesIds(rows), horizon);
      && Group(Flatten(p.train), u) == TrainPart(Group(rows, u), horizon)
      && Group(Flatten(p.test), u) == TestPart(Group(rows, u), horizon)
      && Group(Flatten(p.train), u) + Group(Flatten(p.test), u) == Group(rows, u)
  {
    SplitGroupsTrain(rows, SeriesIds(rows), horizon, u);
    SplitGroupsTest(rows, SeriesIds(rows), horizon, u);
    GroupParts(Group(rows, u), horizon);
    if u !in SeriesIds(rows) {
      FilterNone(rows, (r: FinalRow) => r.uniqueId == u);
    }
  }

  /** A series that occurs in the table has a non-empty group. */
  lemma GroupNonEmpty(rows: seq<FinalRow>, u: string)
    requires u in SeriesIds(rows)
    ensures |Group(rows, u)| > 0
  {
    var i :| 0 <= i < |rows| && rows[i].uniqueId == u;
    assert rows[i] in Group(rows, u);
  }

  /** With horizon 0 every row of every series ends up in test and none in train. */
  lemma SplitHorizonZero(rows: seq<FinalRow>, u: string)
    requires u in SeriesIds(rows)
    ensures var p := SplitGroups(rows, SeriesIds(rows), 0);
      Group(Flatten(p.train), u) == [] && Group(Flatten(p.test), u) == Group(rows, u)
  {
    SplitPerSeries(rows, 0, u);
    GroupNonEmpty(rows, u);
    GroupParts(Group(rows, u), 0);
  }

  lemma {:induction false} SplitGroupsListsEmpty(rows: seq<FinalRow>, ids: seq<string>, horizon: int)
    ensures var p := SplitGroups(rows, ids, horizon);
      && |p.train| == |ids|
      && (p.test == [] <==> forall k :: 0 <= k < |ids| ==> |Group(rows, ids[k])| <= horizon)
  {
    if ids != [] {
      var front := ids[..|ids| - 1];
      SplitGroupsListsEmpty(rows, front, horizon);
      assert forall k :: 0 <= k < |front| ==> front[k] == ids[k];
    }
  }

  /** `pd.concat(train_list)` raises exactly when the table is empty, and
      `pd.concat(test_list)` exactly when no series is longer than the horizon. */
  lemma SplitConcatFails(rows: seq<FinalRow>, horizon: int)
    ensures var p := SplitGroups(rows, SeriesIds(rows), horizon);
      && (Concat(p.train).Err? <==> rows == [])
      && (Concat(p.test).Err? <==> forall u :: u in SeriesIds(rows) ==> |Group(rows, u)| <= horizon)
  {
    var ids := SeriesIds(rows);
    SplitGroupsListsEmpty(rows, ids, horizon);
    if rows != [] {
      assert rows[0].uniqueId in ids;
    }
  }

  lemma {:induction false} SplitGroupsCount(rows: seq<FinalRow>, ids: seq<string>, horizon: int)
    requires StrictlySorted(ids)
    ensures var p := SplitGroups(rows, ids, horizon);
      |Flatten(p.train)| + |Flatten(p.test)| == |Filter(rows, (r: FinalRow) => r.uniqueId in ids)|
  {
    if ids == [] {
      FilterNone(rows, (r: FinalRow) => r.uniqueId in ids);
    } else {
      var front, v := ids[..|ids| - 1], ids[|ids| - 1];
      LastNotInFront(ids);
      SplitGroupsCount(rows, front, horizon);
      var before := SplitGroups(rows, front, horizon);
      var g := Group(rows, v);
      GroupParts(g, horizon);
      FlattenAppend(before.train, TrainPart(g, horizon));
      FlattenAppend(before.test, TestPart(g, horizon));
      assert forall x: string :: (x in ids) == (x in front || x == v);
      FilterDisjointCount(rows, (r: FinalRow) => r.uniqueId in front, (r: FinalRow) => r.uniqueId == v,
                          (r: FinalRow) => r.uniqueId in ids);
    }
  }

  /** No row is lost or duplicated: train and test together have as many rows as the table. */
  lemma SplitRowCount(rows: seq<FinalRow>, horizon: int)
    ensures var p := SplitGroups(rows, SeriesIds(rows), horizon);
      |Flatten(p.train)| + |Flatten(p.test)| == |rows|
  {
    var ids := SeriesIds(rows);
    SplitGroupsCount(rows, ids, horizon);
    FilterAll(rows, (r: FinalRow) => r.uniqueId in ids);
  }
}
