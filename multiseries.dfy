/** The column naming of the multiseries reshaping utilities: unstacking
    names each series' copy of a column `"{column}_{series id}"`, and
    stacking reads the column back as everything before the last underscore
    and the series id as everything after it. Only the names are modelled;
    the frames' values and indexes are not. */
module Multiseries {
  import opened Wrappers
  import opened Seqs
  import opened Strings
  import opened Sorting

  /* ---------------- Names ---------------- */

  /** `f"{column_name}_{s_id}"`: the column of one series after unstacking. */
  function ColumnName(col: string, sid: string): string
  {
    col + "_" + sid
  }

  /** `"_".join(name.split("_")[:-1])`: the column a name was unstacked from. */
  function BaseName(col: string): string
  {
    var pieces := Split(col, '_');
    Join(pieces[..|pieces| - 1], '_')
  }

  /** `name.split("_")[-1]`: the series a name belongs to. */
  function SeriesIdOf(col: string): string
  {
    var pieces := Split(col, '_');
    pieces[|pieces| - 1]
  }

  /** For a series id without an underscore, the two halves of a column name
      give back the column (underscores in it included) and the series id. */
  lemma NamingRoundTrip(col: string, sid: string)
    requires '_' !in sid
    ensures BaseName(ColumnName(col, sid)) == col && SeriesIdOf(ColumnName(col, sid)) == sid
  {
    SplitAppend(col, '_', sid);
    var pieces := Split(col, '_') + [sid];
    assert Split(ColumnName(col, sid), '_') == pieces;
    assert pieces[..|pieces| - 1] == Split(col, '_');
    JoinSplit(col, '_');
  }

  /** Every name is rebuilt from its two halves: a name with an underscore
      is the column name of its base name and series id; a name without one
      has the empty base name and is its own series id. */
  lemma NameDecomposes(col: string)
    ensures '_' in col ==> col == ColumnName(BaseName(col), SeriesIdOf(col))
    ensures '_' !in col ==> BaseName(col) == "" && SeriesIdOf(col) == col
    ensures '_' !in SeriesIdOf(col)
  {
    var pieces := Split(col, '_');
    var n := |pieces|;
    JoinSplit(col, '_');
    if n == 1 {
      assert col == pieces[0];
      assert pieces[..0] == [];
    } else {
      var base := Join(pieces[..n - 1], '_');
      assert pieces[..n - 1][..n - 2] == pieces[..n - 2];
      assert col == base + ['_'] + pieces[n - 1];
      assert col[|base|] == '_';
    }
  }

  /** A series id with an underscore does not survive: the name "a_b_c" of
      column "a" in series "b_c" reads back as column "a_b" in series "c". */
  lemma UnderscoreInSeriesIdMisreads()
    ensures BaseName(ColumnName("a", "b_c")) == "a_b" && SeriesIdOf(ColumnName("a", "b_c")) == "c"
  {
    var ab, abc := "a" + "_" + "b", "a" + "_" + "b" + "_" + "c";
    assert ab == "a_b" && abc == "a_b_c" && ColumnName("a", "b_c") == abc;
    SplitWithoutSeparator("a", '_');
    SplitAppend("a", '_', "b");
    assert Split(ab, '_') == ["a", "b"];
    SplitAppend(ab, '_', "c");
    var pieces := ["a", "b", "c"];
    assert Split(abc, '_') == pieces;
    assert pieces[..2] == ["a", "b"] && pieces[..2][..1] == ["a"];
    assert Join(["a"], '_') == "a";
    assert Join(["a", "b"], '_') == ab;
  }

  /* ---------------- Sequences of names ---------------- */

  /** `[x for x in s if p(x)]`. */
  function Filter(s: seq<string>, p: string -> bool): (r: seq<string>)
    ensures forall x :: x in r <==> x in s && p(x)
    decreases |s|
  {
    if |s| == 0 then []
    else
      var init, last := s[..|s| - 1], s[|s| - 1];
      assert s == init + [last];
      assert forall x :: x in s <==> x in init || x == last;
      var r := Filter(init, p);
      if p(last) then r + [last] else r
  }

  /** The comprehension keeps the order of `s` and every occurrence of what
      it keeps. */
  lemma {:induction false} FilterKeepsOrder(s: seq<string>, p: string -> bool)
    ensures IsSubsequence(Filter(s, p), s)
    ensures forall x :: multiset(Filter(s, p))[x] == if p(x) then multiset(s)[x] else 0
    decreases |s|
  {
    if |s| > 0 {
      var init, last := s[..|s| - 1], s[|s| - 1];
      assert s == init + [last];
      FilterKeepsOrder(init, p);
      var r := Filter(init, p);
      if p(last) {
        assert (r + [last])[..|r|] == r;
      }
    }
  }

  /** The comprehension over two lists one after the other is the two
      comprehensions one after the other. */
  lemma {:induction false} FilterAppend(a: seq<string>, b: seq<string>, p: string -> bool)
    ensures Filter(a + b, p) == Filter(a, p) + Filter(b, p)
    decreases |b|
  {
    if |b| > 0 {
      var b', last := b[..|b| - 1], b[|b| - 1];
      assert (a + b)[..|a + b| - 1] == a + b';
      assert (a + b)[|a + b| - 1] == last;
      FilterAppend(a, b', p);
    } else {
      assert a + b == a;
    }
  }

  /** A weaker test keeps at least as many elements, and more when it keeps
      one the stronger test leaves out. */
  lemma {:induction false} FilterWeaker(s: seq<string>, p: string -> bool, q: string -> bool)
    requires forall x :: x in s && p(x) ==> q(x)
    ensures |Filter(s, p)| <= |Filter(s, q)|
    ensures (exists x :: x in s && q(x) && !p(x)) ==> |Filter(s, p)| < |Filter(s, q)|
    decreases |s|
  {
    if |s| > 0 {
      var init, last := s[..|s| - 1], s[|s| - 1];
      assert s == init + [last];
      assert forall x :: x in init ==> x in s;
      FilterWeaker(init, p, q);
      if exists x :: x in s && q(x) && !p(x) {
        var x :| x in s && q(x) && !p(x);
        if x != last {
          assert x in init;
        }
      }
    }
  }

  lemma FilterStep(s: seq<string>, p: string -> bool, k: nat)
    requires k < |s|
    ensures Filter(s[..k + 1], p) == Filter(s[..k], p) + (if p(s[k]) then [s[k]] else [])
  {
    assert s[..k + 1][..k] == s[..k];
  }

  /** `Series.unique()`: the distinct values. */
  function Unique(s: seq<string>): (u: seq<string>)
    ensures Distinct(u)
    ensures forall x :: x in u <==> x in s
    decreases |s|
  {
    if |s| == 0 then []
    else
      var init, last := s[..|s| - 1], s[|s| - 1];
      assert s == init + [last];
      assert forall x :: x in s <==> x in init || x == last;
      var u := Unique(init);
      if last in u then u else u + [last]
  }

  /** `Series.unique()` lists the values in order of first appearance. */
  lemma {:induction false} UniqueFirstAppearance(s: seq<string>)
    ensures forall i, j :: 0 <= i < j < |Unique(s)| ==> FirstIndex(s, Unique(s)[i]) < FirstIndex(s, Unique(s)[j])
    decreases |s|
  {
    if |s| > 0 {
      var init, last := s[..|s| - 1], s[|s| - 1];
      assert s == init + [last];
      UniqueFirstAppearance(init);
      var u0, u := Unique(init), Unique(s);
      FirstIndexSnoc(init, last);
      forall i, j | 0 <= i < j < |u| ensures FirstIndex(s, u[i]) < FirstIndex(s, u[j]) {
        assert u[i] == u0[i] && u0[i] in init;
        assert FirstIndex(s, u[i]) == FirstIndex(init, u[i]) < |init|;
        if j < |u0| {
          assert u[j] == u0[j] && u0[j] in init;
          assert FirstIndex(s, u[j]) == FirstIndex(init, u[j]);
        } else {
          assert u[j] == last && last !in init;
          assert FirstIndex(s, u[j]) == |init|;
        }
      }
    }
  }

  /* ---------------- unstack_multiseries ---------------- */

  /** The names of one series' columns, column by column. */
  function SeriesBlock(cols: seq<string>, sid: string): (r: seq<string>)
    ensures |r| == |cols| && forall j :: 0 <= j < |cols| ==> r[j] == ColumnName(cols[j], sid)
  {
    seq(|cols|, j requires 0 <= j < |cols| => ColumnName(cols[j], sid))
  }

  /** The series blocks one after the other, in series order. */
  function Blocks(sids: seq<string>, cols: seq<string>): seq<string>
    decreases |sids|
  {
    if |sids| == 0 then []
    else Blocks(sids[..|sids| - 1], cols) + SeriesBlock(cols, sids[|sids| - 1])
  }

  /** A name is in the blocks exactly when it is the name of some column in
      some series. */
  lemma {:induction false} BlocksMembers(sids: seq<string>, cols: seq<string>, name: string)
    ensures name in Blocks(sids, cols) <==>
            exists i, j :: 0 <= i < |sids| && 0 <= j < |cols| && name == ColumnName(cols[j], sids[i])
    decreases |sids|
  {
    if |sids| > 0 {
      var init, last := sids[..|sids| - 1], sids[|sids| - 1];
      BlocksMembers(init, cols, name);
      if name in Blocks(sids, cols) {
        if name in Blocks(init, cols) {
          var i, j :| 0 <= i < |init| && 0 <= j < |cols| && name == ColumnName(cols[j], init[i]);
          assert init[i] == sids[i];
        } else {
          var block := SeriesBlock(cols, last);
          var j :| 0 <= j < |block| && block[j] == name;
          assert name == ColumnName(cols[j], sids[|sids| - 1]);
        }
      }
      if exists i, j :: 0 <= i < |sids| && 0 <= j < |cols| && name == ColumnName(cols[j], sids[i]) {
        var i, j :| 0 <= i < |sids| && 0 <= j < |cols| && name == ColumnName(cols[j], sids[i]);
        if i < |init| {
          assert init[i] == sids[i];
        } else {
          assert SeriesBlock(cols, last)[j] == name;
        }
      }
    }
  }

  /** Unstacking and then splitting the names gives back the columns and
      the series, when no series id holds an underscore. */
  lemma BlocksSplitBack(sids: seq<string>, cols: seq<string>, name: string)
    requires forall i :: 0 <= i < |sids| ==> '_' !in sids[i]
    ensures name in Blocks(sids, cols) ==>
              && BaseName(name) in cols && SeriesIdOf(name) in sids
              && name == ColumnName(BaseName(name), SeriesIdOf(name))
    ensures forall c, s :: c in cols && s in sids ==> ColumnName(c, s) in Blocks(sids, cols)
  {
    BlocksMembers(sids, cols, name);
    if name in Blocks(sids, cols) {
      var i, j :| 0 <= i < |sids| && 0 <= j < |cols| && name == ColumnName(cols[j], sids[i]);
      NamingRoundTrip(cols[j], sids[i]);
    }
    forall c, s | c in cols && s in sids ensures ColumnName(c, s) in Blocks(sids, cols) {
      var i :| 0 <= i < |sids| && sids[i] == s;
      var j :| 0 <= j < |cols| && cols[j] == c;
      BlocksMembers(sids, cols, ColumnName(c, s));
    }
  }

  datatype Unstacked = Unstacked(xColumns: seq<string>, yColumns: seq<string>)

  const NO_OBJECTS_ERROR: string := "ValueError: No objects to concatenate"

  /** `full_dataset.columns.drop([time_index, series_id])`. */
  function DataColumns(columns: seq<string>, timeIndex: string, seriesIdName: string): seq<string>
  {
    Filter(columns, c => c != timeIndex && c != seriesIdName)
  }

  function Features(kept: seq<string>, targetName: string): seq<string>
  {
    Filter(kept, c => c != targetName)
  }

  function Targets(kept: seq<string>, targetName: string): seq<string>
  {
    Filter(kept, c => c == targetName)
  }

  /** The column names `unstack_multiseries` produces from the combined
      frame's columns and its series id column, or the exception it raises:
      a KeyError for a missing series id column, the concatenation's
      ValueError when there is no series, a KeyError for a missing time index
      column, and the ValueError again when no target column was unstacked.
      The unstacked features are preceded by the time index, which
      `reset_index` turns back into a column. */
  function UnstackMultiseries(columns: seq<string>, seriesValues: seq<string>, seriesIdName: string,
                              timeIndex: string, targetName: string): Result<Unstacked, string>
  {
    if seriesIdName !in columns then Failure(KeyError(seriesIdName))
    else
      var sids := Unique(seriesValues);
      if |sids| == 0 then Failure(NO_OBJECTS_ERROR)
      else if timeIndex !in columns then Failure(KeyError(timeIndex))
      else
        var kept := DataColumns(columns, timeIndex, seriesIdName);
        var ys := Blocks(sids, Targets(kept, targetName));
        if |ys| == 0 then Failure(NO_OBJECTS_ERROR)
        else Success(Unstacked([timeIndex] + Blocks(sids, Features(kept, targetName)), ys))
  }

  lemma BlockStep(kept: seq<string>, sid: string, targetName: string, j: nat)
    requires j < |kept|
    ensures SeriesBlock(Features(kept[..j + 1], targetName), sid)
            == SeriesBlock(Features(kept[..j], targetName), sid)
               + (if kept[j] != targetName then [ColumnName(kept[j], sid)] else [])
    ensures SeriesBlock(Targets(kept[..j + 1], targetName), sid)
            == SeriesBlock(Targets(kept[..j], targetName), sid)
               + (if kept[j] == targetName then [ColumnName(kept[j], sid)] else [])
  {
    FilterStep(kept, c => c != targetName, j);
    FilterStep(kept, c => c == targetName, j);
  }

  /** The inner loop of `unstack_multiseries`: one series' columns named and
      sorted into the target's list and the features' list. */
  method UnstackSeries(kept: seq<string>, sid: string, targetName: string, xs: seq<string>, ys: seq<string>)
    returns (xs': seq<string>, ys': seq<string>)
    ensures xs' == xs + SeriesBlock(Features(kept, targetName), sid)
    ensures ys' == ys + SeriesBlock(Targets(kept, targetName), sid)
  {
    xs', ys' := xs, ys;
    var j := 0;
    while j < |kept|
      invariant 0 <= j <= |kept|
      invariant xs' == xs + SeriesBlock(Features(kept[..j], targetName), sid)
      invariant ys' == ys + SeriesBlock(Targets(kept[..j], targetName), sid)
    {
      BlockStep(kept, sid, targetName, j);
      var name := ColumnName(kept[j], sid);
      if kept[j] == targetName {
        assert ys + (SeriesBlock(Targets(kept[..j], targetName), sid) + [name])
               == (ys + SeriesBlock(Targets(kept[..j], targetName), sid)) + [name];
        ys' := ys' + [name];
      } else {
        assert xs + (SeriesBlock(Features(kept[..j], targetName), sid) + [name])
               == (xs + SeriesBlock(Features(kept[..j], targetName), sid)) + [name];
        xs' := xs' + [name];
      }
      j := j + 1;
    }
    assert kept[..j] == kept;
  }

  /** `unstack_multiseries`, on names: the outer loop over the series. */
  method UnstackColumnNames(columns: seq<string>, seriesValues: seq<string>, seriesIdName: string,
                            timeIndex: string, targetName: string)
    returns (r: Result<Unstacked, string>)
    ensures r == UnstackMultiseries(columns, seriesValues, seriesIdName, timeIndex, targetName)
  {
    if seriesIdName !in columns {
      return Failure(KeyError(seriesIdName));
    }
    var sids := Unique(seriesValues);
    var xs: seq<string> := [];
    var ys: seq<string> := [];
    var k := 0;
    while k < |sids|
      invariant 0 <= k <= |sids|
      invariant k > 0 ==> timeIndex in columns
      invariant xs == Blocks(sids[..k], Features(DataColumns(columns, timeIndex, seriesIdName), targetName))
      invariant ys == Blocks(sids[..k], Targets(DataColumns(columns, timeIndex, seriesIdName), targetName))
    {
      if timeIndex !in columns {
        return Failure(KeyError(timeIndex));
      }
      var kept := DataColumns(columns, timeIndex, seriesIdName);
      assert sids[..k + 1][..k] == sids[..k];
      xs, ys := UnstackSeries(kept, sids[k], targetName, xs, ys);
      k := k + 1;
    }
    assert sids[..k] == sids;
    if |ys| == 0 {
      return Failure(NO_OBJECTS_ERROR);
    }
    r := Success(Unstacked([timeIndex] + xs, ys));
  }

  /** The unstacked feature names are exactly each feature in each series,
      both read back by splitting when no series id holds an underscore. */
  lemma UnstackedNames(columns: seq<string>, seriesValues: seq<string>, seriesIdName: string,
                       timeIndex: string, targetName: string, name: string)
    requires UnstackMultiseries(columns, seriesValues, seriesIdName, timeIndex, targetName).Success?
    requires forall s :: s in seriesValues ==> '_' !in s
    ensures var u := UnstackMultiseries(columns, seriesValues, seriesIdName, timeIndex, targetName).value;
            var features := Features(DataColumns(columns, timeIndex, seriesIdName), targetName);
            && u.xColumns[0] == timeIndex
            && (name in u.xColumns[1..] ==>
                  && BaseName(name) in features && SeriesIdOf(name) in seriesValues
                  && name == ColumnName(BaseName(name), SeriesIdOf(name)))
            && (forall c, s :: c in features && s in seriesValues ==> ColumnName(c, s) in u.xColumns[1..])
            && (name in u.yColumns ==> BaseName(name) == targetName && SeriesIdOf(name) in seriesValues)
  {
    var sids := Unique(seriesValues);
    var kept := DataColumns(columns, timeIndex, seriesIdName);
    var u := UnstackMultiseries(columns, seriesValues, seriesIdName, timeIndex, targetName).value;
    assert u.xColumns[1..] == Blocks(sids, Features(kept, targetName));
    BlocksSplitBack(sids, Features(kept, targetName), name);
    BlocksSplitBack(sids, Targets(kept, targetName), name);
  }

  /* ---------------- stack_data ---------------- */

  /** The column labels of `data.stack(0)`, in order: every row contributes
      one entry per column, rows one after another. */
  function StackedLabels(nRows: nat, columns: seq<string>): seq<string>
  {
    if nRows == 0 then [] else StackedLabels(nRows - 1, columns) + columns
  }

  /** `series_id_name or "series_id"`. */
  function SeriesIdColumnName(name: Option<string>): string
  {
    if name.Some? && name.value != "" then name.value else "series_id"
  }

  /** `labels.map(lambda col_name: col_name.split("_")[-1])`. */
  function SeriesIds(labels: seq<string>): (r: seq<string>)
    ensures |r| == |labels| && forall i :: 0 <= i < |labels| ==> r[i] == SeriesIdOf(labels[i])
  {
    seq(|labels|, i requires 0 <= i < |labels| => SeriesIdOf(labels[i]))
  }

  /** The columns of what `stack_data` returns (a single named column, or the
      series id column followed by it) and the values of its series id
      column, empty when that column is not included. */
  datatype Stacked = Stacked(columns: seq<string>, seriesIds: seq<string>, rows: nat)

  /** `stack_data` on a frame of `nRows` rows and the given columns: the
      stacked column is named after the base of the first stacked label, and
      the series ids are read off every label. Reading the first label of an
      empty stack raises an IndexError. */
  function StackData(nRows: nat, columns: seq<string>, includeSeriesId: bool, seriesIdName: Option<string>)
    : Result<Stacked, string>
  {
    var labels := StackedLabels(nRows, columns);
    if |labels| == 0 then Failure(INDEX_ERROR)
    else
      var name := BaseName(labels[0]);
      if includeSeriesId then Success(Stacked([SeriesIdColumnName(seriesIdName), name], SeriesIds(labels), |labels|))
      else Success(Stacked([name], [], |labels|))
  }

  /** Nothing is stacked exactly when there are no rows or no columns, and
      otherwise the first row comes first; every label is a column. */
  lemma {:induction false} StackedLabelsShape(nRows: nat, columns: seq<string>)
    ensures |StackedLabels(nRows, columns)| == nRows * |columns|
    ensures |StackedLabels(nRows, columns)| == 0 <==> nRows == 0 || |columns| == 0
    ensures nRows > 0 ==> |columns| <= |StackedLabels(nRows, columns)|
                          && StackedLabels(nRows, columns)[..|columns|] == columns
    ensures forall x :: x in StackedLabels(nRows, columns) ==> x in columns
  {
    if nRows > 0 {
      StackedLabelsShape(nRows - 1, columns);
      var prev := StackedLabels(nRows - 1, columns);
      assert StackedLabels(nRows, columns) == prev + columns;
      if nRows > 1 {
        assert (prev + columns)[..|columns|] == prev[..|columns|];
      } else {
        assert prev == [];
      }
    }
  }

  /** `stack_data` fails exactly on an empty frame; otherwise its stacked
      column is named after the first column, placed after the series id
      column when that is included, and every series id is read off one of
      the frame's columns. */
  lemma StackDataCases(nRows: nat, columns: seq<string>, includeSeriesId: bool, seriesIdName: Option<string>)
    ensures var r := StackData(nRows, columns, includeSeriesId, seriesIdName);
            && (r.Failure? <==> nRows == 0 || |columns| == 0)
            && (r.Success? ==>
                  && r.value.columns == (if includeSeriesId then [SeriesIdColumnName(seriesIdName)] else [])
                                        + [BaseName(columns[0])]
                  && r.value.rows == nRows * |columns|
                  && (includeSeriesId <==> |r.value.seriesIds| > 0)
                  && forall s :: s in r.value.seriesIds ==> exists c :: c in columns && s == SeriesIdOf(c))
  {
    StackedLabelsShape(nRows, columns);
    var labels := StackedLabels(nRows, columns);
    if |labels| > 0 {
      assert labels[0] == labels[..|columns|][0] == columns[0];
      forall s | s in SeriesIds(labels) ensures exists c :: c in columns && s == SeriesIdOf(c) {
        var i :| 0 <= i < |labels| && SeriesIds(labels)[i] == s;
        assert labels[i] in labels;
      }
    }
  }

  /** The columns one column was unstacked into, series by series. */
  function SeriesColumns(col: string, sids: seq<string>): (r: seq<string>)
    ensures |r| == |sids| && forall i :: 0 <= i < |sids| ==> r[i] == ColumnName(col, sids[i])
  {
    seq(|sids|, i requires 0 <= i < |sids| => ColumnName(col, sids[i]))
  }

  lemma {:induction false} StackedSeriesIds(nRows: nat, col: string, sids: seq<string>)
    requires forall i :: 0 <= i < |sids| ==> '_' !in sids[i]
    ensures SeriesIds(StackedLabels(nRows, SeriesColumns(col, sids))) == StackedLabels(nRows, sids)
  {
    if nRows > 0 {
      StackedSeriesIds(nRows - 1, col, sids);
      var prev := StackedLabels(nRows - 1, SeriesColumns(col, sids));
      var cur := prev + SeriesColumns(col, sids);
      forall i | 0 <= i < |cur|
        ensures SeriesIds(cur)[i] == (SeriesIds(prev) + sids)[i]
      {
        if i >= |prev| {
          NamingRoundTrip(col, sids[i - |prev|]);
        }
      }
    }
  }

  /** Stacking the columns one column was unstacked into gives back that
      column's name and, row after row, the series ids in column order. */
  lemma StackDataRoundTrip(nRows: nat, col: string, sids: seq<string>, includeSeriesId: bool,
                           seriesIdName: Option<string>)
    requires nRows > 0 && |sids| > 0
    requires forall i :: 0 <= i < |sids| ==> '_' !in sids[i]
    ensures StackData(nRows, SeriesColumns(col, sids), includeSeriesId, seriesIdName)
            == Success(if includeSeriesId
                       then Stacked([SeriesIdColumnName(seriesIdName), col], StackedLabels(nRows, sids), nRows * |sids|)
                       else Stacked([col], [], nRows * |sids|))
  {
    var columns := SeriesColumns(col, sids);
    StackedLabelsShape(nRows, columns);
    var labels := StackedLabels(nRows, columns);
    assert labels[0] == labels[..|columns|][0] == ColumnName(col, sids[0]);
    NamingRoundTrip(col, sids[0]);
    StackedSeriesIds(nRows, col, sids);
  }

  /* ---------------- stack_X ---------------- */

  /** `f(col)` for every column but the time index, in column order (the
      source collects these into a set; order and repeats do not matter). */
  function OtherColumns(columns: seq<string>, timeIndex: string, f: string -> string): seq<string>
    decreases |columns|
  {
    if |columns| == 0 then []
    else
      var init, last := columns[..|columns| - 1], columns[|columns| - 1];
      OtherColumns(init, timeIndex, f) + (if last != timeIndex then [f(last)] else [])
  }

  lemma {:induction false} OtherColumnsMembers(columns: seq<string>, timeIndex: string, f: string -> string, x: string)
    ensures x in OtherColumns(columns, timeIndex, f) <==> exists c :: c in columns && c != timeIndex && f(c) == x
    decreases |columns|
  {
    if |columns| > 0 {
      var init, last := columns[..|columns| - 1], columns[|columns| - 1];
      assert columns == init + [last];
      OtherColumnsMembers(init, timeIndex, f, x);
      if exists c :: c in columns && c != timeIndex && f(c) == x {
        var c :| c in columns && c != timeIndex && f(c) == x;
        if c != last {
          assert c in init;
        }
      }
    }
  }

  /** How the columns of one original column are picked: the substring test
      on the whole name that `stack_X` performs, or the match on the base
      name that restacking evidently intends. */
  datatype Selection = BySubstring | ByBaseName

  /** The columns stacked into one original column under the intended
      selection: those that are not the time index and whose base name is
      that column. */
  function GroupColumns(columns: seq<string>, timeIndex: string, original: string): seq<string>
  {
    Filter(columns, c => c != timeIndex && BaseName(c) == original)
  }

  /** `[col for col in X.columns if original_col in col]`, the source's
      selection: a substring test on the whole name. */
  function GroupColumnsAsWritten(columns: seq<string>, original: string): seq<string>
  {
    Filter(columns, c => IsSubstring(original, c))
  }

  /** The group of one original column under the given selection. */
  function Group(sel: Selection, columns: seq<string>, timeIndex: string, original: string): seq<string>
  {
    match sel
    case BySubstring => GroupColumnsAsWritten(columns, original)
    case ByBaseName => GroupColumns(columns, timeIndex, original)
  }

  /** A name starts with its base name. */
  lemma BaseNameIsSubstring(c: string)
    ensures IsSubstring(BaseName(c), c)
  {
    NameDecomposes(c);
    if '_' in c {
      var b, sid := BaseName(c), SeriesIdOf(c);
      assert c == b + ("_" + sid);
      PrefixIsSubstring(b, "_" + sid);
    } else {
      assert c[..0] == "";
    }
  }

  /** Under either selection, every column other than the time index whose
      base name is the original column belongs to that column's group. */
  lemma InGroup(sel: Selection, columns: seq<string>, timeIndex: string, original: string, c: string)
    requires c in columns && c != timeIndex && BaseName(c) == original
    ensures c in Group(sel, columns, timeIndex, original)
  {
    BaseNameIsSubstring(c);
  }

  /** `stack_data` on the group of one original column. */
  function GroupPart(sel: Selection, columns: seq<string>, timeIndex: string, nRows: nat, seriesIdName: string,
                     original: string, first: bool): Result<Stacked, string>
  {
    StackData(nRows, Group(sel, columns, timeIndex, original), first, Some(seriesIdName))
  }

  /** The list of `stack_data` results, one per original column in the
      order they are enumerated, the series id included only by the first;
      the first exception raised propagates. */
  function StackGroups(sel: Selection, order: seq<string>, columns: seq<string>, timeIndex: string, nRows: nat,
                       seriesIdName: string): (r: Result<seq<Stacked>, string>)
    ensures r.Success? ==> |r.value| == |order|
    decreases |order|
  {
    if |order| == 0 then Success([])
    else
      var init, last := order[..|order| - 1], order[|order| - 1];
      var parts := StackGroups(sel, init, columns, timeIndex, nRows, seriesIdName);
      if parts.Failure? then parts
      else
        var part := GroupPart(sel, columns, timeIndex, nRows, seriesIdName, last, |init| == 0);
        if part.Failure? then Failure(part.error) else Success(parts.value + [part.value])
  }

  /** The columns of `pd.concat(restacked_X, axis=1)`. */
  function ConcatColumns(parts: seq<Stacked>): seq<string>
    decreases |parts|
  {
    if |parts| == 0 then [] else ConcatColumns(parts[..|parts| - 1]) + parts[|parts| - 1].columns
  }

  /** The restacked frame's columns and the values of its series id column
      that the first group's `stack_data` call produces. */
  datatype Restacked = Restacked(columns: seq<string>, seriesIds: seq<string>)

  /** The number of columns of the widest group among the original
      columns. */
  function MaxWidth(sel: Selection, order: seq<string>, columns: seq<string>, timeIndex: string): nat
    decreases |order|
  {
    if |order| == 0 then 0
    else
      var w := MaxWidth(sel, order[..|order| - 1], columns, timeIndex);
      var g := |Group(sel, columns, timeIndex, order[|order| - 1])|;
      if g <= w then w else g
  }

  /** The widest group is as wide as every group and as wide as one of
      them. */
  lemma {:induction false} MaxWidthBounds(sel: Selection, order: seq<string>, columns: seq<string>, timeIndex: string)
    ensures forall k :: 0 <= k < |order| ==>
              |Group(sel, columns, timeIndex, order[k])| <= MaxWidth(sel, order, columns, timeIndex)
    ensures |order| > 0 ==>
              exists k :: 0 <= k < |order| &&
                          |Group(sel, columns, timeIndex, order[k])| == MaxWidth(sel, order, columns, timeIndex)
    decreases |order|
  {
    if |order| > 0 {
      var init := order[..|order| - 1];
      assert forall k :: 0 <= k < |init| ==> init[k] == order[k];
      MaxWidthBounds(sel, init, columns, timeIndex);
      if |init| > 0 {
        var k :| 0 <= k < |init| &&
                 |Group(sel, columns, timeIndex, init[k])| == MaxWidth(sel, init, columns, timeIndex);
      }
    }
  }

  /** The rows of `pd.concat(restacked_X, axis=1)`: the parts share their
      starting index, so the concatenation has the rows of the longest. */
  function MaxRows(parts: seq<Stacked>): nat
    decreases |parts|
  {
    if |parts| == 0 then 0
    else
      var m := MaxRows(parts[..|parts| - 1]);
      if parts[|parts| - 1].rows <= m then m else parts[|parts| - 1].rows
  }

  /** `len(series_ids)`: the ids are collected into a set. */
  function CountDistinct(ids: seq<string>): nat
  {
    |set s | s in ids|
  }

  /** What pandas raises when `time_index_col.index = restacked_X.index`
      assigns an index of another length. */
  const LENGTH_MISMATCH_ERROR: string := "ValueError: Length mismatch"

  const NO_SERIES_IDS_ERROR: string :=
    "ValueError: Series ID values need to be passed in X column values or as a set with the `series_id_values` parameter."

  /** `order` is an enumeration of the original columns `stack_X` collects:
      each base name once, and none when series id values are given. */
  ghost predicate StackOrder(columns: seq<string>, timeIndex: string, seriesIdValues: Option<seq<string>>,
                       order: seq<string>)
  {
    && Distinct(order)
    && forall o :: o in order <==> seriesIdValues.None? && o in OtherColumns(columns, timeIndex, BaseName)
  }

  /** What `stack_X` makes of unstacked features with the given columns and
      number of rows, or the exception it raises, with each original
      column's group picked as `sel` says. The series ids come from the
      given values or else from the column names; without original columns
      the result is the time index and the sorted series ids repeated for
      every row, and otherwise each original column is stacked from its
      group and the time index is set last. The time index column has a row
      for every row and series id, the concatenated parts one for every row
      and column of the widest group; with rows present, their lengths
      differ exactly when those two counts do, and assigning the index then
      raises. */
  function StackX(sel: Selection, columns: seq<string>, nRows: nat, seriesIdName: string, timeIndex: string,
                  seriesIdValues: Option<seq<string>>, order: seq<string>): Result<Restacked, string>
    requires StackOrder(columns, timeIndex, seriesIdValues, order)
  {
    var ids := if seriesIdValues.None? then OtherColumns(columns, timeIndex, SeriesIdOf) else seriesIdValues.value;
    if |ids| == 0 then Failure(NO_SERIES_IDS_ERROR)
    else if timeIndex !in columns then Failure(KeyError(timeIndex))
    else if |order| == 0 then
      if nRows == 0 then Failure(INDEX_ERROR)
      else
        StringLessIsStrictTotalOrder();
        var sorted := SortedSet(ids, Strings.LessThan);
        var names := if timeIndex == seriesIdName then [timeIndex] else [timeIndex, seriesIdName];
        Success(Restacked(names, StackedLabels(nRows, sorted)))
    else
      var parts := StackGroups(sel, order, columns, timeIndex, nRows, seriesIdName);
      if parts.Failure? then Failure(parts.error)
      else if MaxRows(parts.value) != nRows * CountDistinct(ids) then Failure(LENGTH_MISMATCH_ERROR)
      else
        var names := ConcatColumns(parts.value);
        Success(Restacked(if timeIndex in names then names else names + [timeIndex], parts.value[0].seriesIds))
  }

  /** An exception in one `stack_data` call ends the loop. */
  lemma {:induction false} StackGroupsFailurePersists(sel: Selection, order: seq<string>, k: nat,
                                                      columns: seq<string>, timeIndex: string, nRows: nat,
                                                      seriesIdName: string)
    requires k <= |order| && StackGroups(sel, order[..k], columns, timeIndex, nRows, seriesIdName).Failure?
    ensures StackGroups(sel, order, columns, timeIndex, nRows, seriesIdName)
            == StackGroups(sel, order[..k], columns, timeIndex, nRows, seriesIdName)
    decreases |order|
  {
    if k < |order| {
      var init := order[..|order| - 1];
      assert init[..k] == order[..k];
      StackGroupsFailurePersists(sel, init, k, columns, timeIndex, nRows, seriesIdName);
    } else {
      assert order[..k] == order;
    }
  }

  /** The loop of `stack_X` collecting, from every column but the time
      index, its base name and its series id. */
  method CollectOriginals(columns: seq<string>, timeIndex: string)
    returns (originals: seq<string>, ids: seq<string>)
    ensures originals == OtherColumns(columns, timeIndex, BaseName)
    ensures ids == OtherColumns(columns, timeIndex, SeriesIdOf)
  {
    originals, ids := [], [];
    var j := 0;
    while j < |columns|
      invariant 0 <= j <= |columns|
      invariant originals == OtherColumns(columns[..j], timeIndex, BaseName)
      invariant ids == OtherColumns(columns[..j], timeIndex, SeriesIdOf)
    {
      assert columns[..j + 1][..j] == columns[..j];
      if columns[j] != timeIndex {
        originals := originals + [BaseName(columns[j])];
        ids := ids + [SeriesIdOf(columns[j])];
      }
      j := j + 1;
    }
    assert columns[..j] == columns;
  }

  /** The loop of `stack_X` calling `stack_data` on the group of each
      original column, picked by the substring test as the source does. */
  method StackEach(order: seq<string>, columns: seq<string>, timeIndex: string, nRows: nat,
                   seriesIdName: string) returns (r: Result<seq<Stacked>, string>)
    ensures r == StackGroups(BySubstring, order, columns, timeIndex, nRows, seriesIdName)
  {
    var parts: seq<Stacked> := [];
    var i := 0;
    while i < |order|
      invariant 0 <= i <= |order|
      invariant StackGroups(BySubstring, order[..i], columns, timeIndex, nRows, seriesIdName) == Success(parts)
    {
      assert order[..i + 1][..i] == order[..i];
      var part := GroupPart(BySubstring, columns, timeIndex, nRows, seriesIdName, order[i], i == 0);
      if part.Failure? {
        StackGroupsFailurePersists(BySubstring, order, i + 1, columns, timeIndex, nRows, seriesIdName);
        return Failure(part.error);
      }
      parts := parts + [part.value];
      i := i + 1;
    }
    assert order[..i] == order;
    return Success(parts);
  }

  /** `stack_X`, on names, as the source performs it. */
  method RestackColumns(columns: seq<string>, nRows: nat, seriesIdName: string, timeIndex: string,
                        seriesIdValues: Option<seq<string>>, order: seq<string>)
    returns (r: Result<Restacked, string>)
    requires StackOrder(columns, timeIndex, seriesIdValues, order)
    ensures r == StackX(BySubstring, columns, nRows, seriesIdName, timeIndex, seriesIdValues, order)
  {
    var originals: seq<string> := [];
    var ids: seq<string>;
    if seriesIdValues.None? {
      originals, ids := CollectOriginals(columns, timeIndex);
    } else {
      ids := seriesIdValues.value;
    }
    if |ids| == 0 {
      return Failure(NO_SERIES_IDS_ERROR);
    }
    if timeIndex !in columns {
      return Failure(KeyError(timeIndex));
    }
    assert |originals| == 0 <==> |order| == 0 by {
      if |originals| > 0 {
        assert originals[0] in order;
      }
      if |order| > 0 {
        assert order[0] in order;
      }
    }
    if |originals| == 0 {
      if nRows == 0 {
        return Failure(INDEX_ERROR);
      }
      StringLessIsStrictTotalOrder();
      var sorted := SortedSet(ids, Strings.LessThan);
      var names := if timeIndex == seriesIdName then [timeIndex] else [timeIndex, seriesIdName];
      return Success(Restacked(names, StackedLabels(nRows, sorted)));
    }
    var parts := StackEach(order, columns, timeIndex, nRows, seriesIdName);
    if parts.Failure? {
      return Failure(parts.error);
    }
    if MaxRows(parts.value) != nRows * |set s | s in ids| {
      return Failure(LENGTH_MISMATCH_ERROR);
    }
    var names := ConcatColumns(parts.value);
    r := Success(Restacked(if timeIndex in names then names else names + [timeIndex], parts.value[0].seriesIds));
  }

  /** The loop's list exists exactly when no `stack_data` call raises. */
  lemma {:induction false} StackGroupsSucceed(sel: Selection, order: seq<string>, columns: seq<string>,
                                              timeIndex: string, nRows: nat, seriesIdName: string)
    ensures StackGroups(sel, order, columns, timeIndex, nRows, seriesIdName).Success?
            <==> forall k :: 0 <= k < |order| ==>
                   GroupPart(sel, columns, timeIndex, nRows, seriesIdName, order[k], k == 0).Success?
    decreases |order|
  {
    if |order| > 0 {
      var n := |order| - 1;
      var init := order[..n];
      StackGroupsSucceed(sel, init, columns, timeIndex, nRows, seriesIdName);
      assert forall k :: 0 <= k < n ==> init[k] == order[k];
      if StackGroups(sel, init, columns, timeIndex, nRows, seriesIdName).Failure? {
        var k :| 0 <= k < n && GroupPart(sel, columns, timeIndex, nRows, seriesIdName, init[k], k == 0).Failure?;
        assert order[k] == init[k];
      }
    }
  }

  /** The loop's list holds, position by position, the `stack_data` result
      of each original column, and it exists exactly when none of them
      raises. */
  lemma {:induction false} StackGroupsAt(sel: Selection, order: seq<string>, columns: seq<string>,
                                         timeIndex: string, nRows: nat, seriesIdName: string)
    ensures var r := StackGroups(sel, order, columns, timeIndex, nRows, seriesIdName);
            && (r.Success? <==> forall k :: 0 <= k < |order| ==>
                                  GroupPart(sel, columns, timeIndex, nRows, seriesIdName, order[k], k == 0).Success?)
            && (r.Success? ==> forall k :: 0 <= k < |order| ==>
                                 GroupPart(sel, columns, timeIndex, nRows, seriesIdName, order[k], k == 0)
                                 == Success(r.value[k]))
    decreases |order|
  {
    StackGroupsSucceed(sel, order, columns, timeIndex, nRows, seriesIdName);
    var r := StackGroups(sel, order, columns, timeIndex, nRows, seriesIdName);
    if |order| > 0 && r.Success? {
      var n := |order| - 1;
      var init := order[..n];
      StackGroupsAt(sel, init, columns, timeIndex, nRows, seriesIdName);
      var ri := StackGroups(sel, init, columns, timeIndex, nRows, seriesIdName);
      var last := GroupPart(sel, columns, timeIndex, nRows, seriesIdName, order[n], n == 0);
      assert r == Success(ri.value + [last.value]);
      forall k | 0 <= k < |order|
        ensures GroupPart(sel, columns, timeIndex, nRows, seriesIdName, order[k], k == 0) == Success(r.value[k])
      {
        if k < n {
          assert init[k] == order[k] && r.value[k] == ri.value[k];
        }
      }
    }
  }

  /** The group of an original column present among the columns is not
      empty and stacks into the base name of its first column, after the
      series id column for the first group; its series ids are read off
      the group's columns. */
  lemma GroupPartColumns(sel: Selection, columns: seq<string>, timeIndex: string, nRows: nat,
                         seriesIdName: string, original: string, first: bool)
    requires nRows > 0 && original in OtherColumns(columns, timeIndex, BaseName)
    ensures var g := Group(sel, columns, timeIndex, original);
            var p := GroupPart(sel, columns, timeIndex, nRows, seriesIdName, original, first);
            && |g| > 0
            && p.Success?
            && p.value.columns == (if first then [SeriesIdColumnName(Some(seriesIdName))] else []) + [BaseName(g[0])]
            && forall s :: s in p.value.seriesIds ==> exists c :: c in g && s == SeriesIdOf(c)
  {
    var g := Group(sel, columns, timeIndex, original);
    OtherColumnsMembers(columns, timeIndex, BaseName, original);
    var c :| c in columns && c != timeIndex && BaseName(c) == original;
    InGroup(sel, columns, timeIndex, original, c);
    StackDataCases(nRows, g, first, Some(seriesIdName));
  }

  /** The name each original column's group stacks into: the base name of
      the group's first column. */
  function StackedNames(sel: Selection, columns: seq<string>, timeIndex: string, order: seq<string>)
    : (r: seq<string>)
    ensures |r| == |order|
  {
    seq(|order|, k requires 0 <= k < |order| =>
          var g := Group(sel, columns, timeIndex, order[k]);
          if |g| > 0 then BaseName(g[0]) else "")
  }

  /** Under the base-name selection each original column present among the
      columns stacks into its own name. */
  lemma IntendedNames(columns: seq<string>, timeIndex: string, order: seq<string>)
    requires forall o :: o in order ==> o in OtherColumns(columns, timeIndex, BaseName)
    ensures StackedNames(ByBaseName, columns, timeIndex, order) == order
  {
    forall k | 0 <= k < |order| ensures StackedNames(ByBaseName, columns, timeIndex, order)[k] == order[k] {
      var g := GroupColumns(columns, timeIndex, order[k]);
      OtherColumnsMembers(columns, timeIndex, BaseName, order[k]);
      var c :| c in columns && c != timeIndex && BaseName(c) == order[k];
      assert c in g && g[0] in g;
    }
  }

  /** Concatenating a first part with two columns and single-column parts
      after it gives the first part's leading column and then one column per
      part. */
  lemma {:induction false} ConcatFirstThenSingles(parts: seq<Stacked>, head: string, names: seq<string>)
    requires |parts| == |names| > 0
    requires parts[0].columns == [head, names[0]]
    requires forall k :: 0 < k < |parts| ==> parts[k].columns == [names[k]]
    ensures ConcatColumns(parts) == [head] + names
    decreases |parts|
  {
    var n := |parts| - 1;
    if n > 0 {
      ConcatFirstThenSingles(parts[..n], head, names[..n]);
      assert names == names[..n] + [names[n]];
    } else {
      assert parts[..0] == [];
    }
  }

  /** With rows and each original column present among the columns, every
      `stack_data` call succeeds: the concatenation names the series id
      column and then what each group stacks into, in enumeration order,
      and the series ids of the first are read off that group's columns. */
  lemma StackGroupsNames(sel: Selection, order: seq<string>, columns: seq<string>, timeIndex: string,
                         nRows: nat, seriesIdName: string)
    requires nRows > 0
    requires forall o :: o in order ==> o in OtherColumns(columns, timeIndex, BaseName)
    ensures var r := StackGroups(sel, order, columns, timeIndex, nRows, seriesIdName);
            && r.Success?
            && (|order| > 0 ==>
                  && ConcatColumns(r.value)
                     == [SeriesIdColumnName(Some(seriesIdName))] + StackedNames(sel, columns, timeIndex, order)
                  && forall s :: s in r.value[0].seriesIds ==>
                       exists c :: c in Group(sel, columns, timeIndex, order[0]) && s == SeriesIdOf(c))
  {
    var names := StackedNames(sel, columns, timeIndex, order);
    forall k | 0 <= k < |order|
      ensures var p := GroupPart(sel, columns, timeIndex, nRows, seriesIdName, order[k], k == 0);
              && p.Success?
              && p.value.columns == (if k == 0 then [SeriesIdColumnName(Some(seriesIdName))] else []) + [names[k]]
              && forall s :: s in p.value.seriesIds ==>
                   exists c :: c in Group(sel, columns, timeIndex, order[k]) && s == SeriesIdOf(c)
    {
      GroupPartColumns(sel, columns, timeIndex, nRows, seriesIdName, order[k], k == 0);
    }
    StackGroupsAt(sel, order, columns, timeIndex, nRows, seriesIdName);
    if |order| > 0 {
      var parts := StackGroups(sel, order, columns, timeIndex, nRows, seriesIdName).value;
      ConcatFirstThenSingles(parts, SeriesIdColumnName(Some(seriesIdName)), names);
    }
  }

  /** `stack_X` raises a ValueError without series ids, then a KeyError
      without the time index column, then an IndexError on a frame without
      rows, then the length mismatch when the widest group and the number of
      distinct series ids differ; otherwise it succeeds. Without series id
      values, there are no series ids exactly when every column is the time
      index. */
  lemma StackXErrors(sel: Selection, columns: seq<string>, nRows: nat, seriesIdName: string, timeIndex: string,
                     seriesIdValues: Option<seq<string>>, order: seq<string>)
    requires StackOrder(columns, timeIndex, seriesIdValues, order)
    ensures var ids := if seriesIdValues.None? then OtherColumns(columns, timeIndex, SeriesIdOf)
                       else seriesIdValues.value;
            var r := StackX(sel, columns, nRows, seriesIdName, timeIndex, seriesIdValues, order);
            && (|ids| == 0 ==> r == Failure(NO_SERIES_IDS_ERROR))
            && (|ids| > 0 && timeIndex !in columns ==> r == Failure(KeyError(timeIndex)))
            && (|ids| > 0 && timeIndex in columns && nRows == 0 ==> r == Failure(INDEX_ERROR))
            && (|ids| > 0 && timeIndex in columns && nRows > 0 && |order| > 0
                && MaxWidth(sel, order, columns, timeIndex) != CountDistinct(ids)
                ==> r == Failure(LENGTH_MISMATCH_ERROR))
            && (|ids| > 0 && timeIndex in columns && nRows > 0
                && (|order| == 0 || MaxWidth(sel, order, columns, timeIndex) == CountDistinct(ids))
                ==> r.Success?)
            && (seriesIdValues.None? ==> (|ids| == 0 <==> forall c :: c in columns ==> c == timeIndex))
  {
    var ids := if seriesIdValues.None? then OtherColumns(columns, timeIndex, SeriesIdOf) else seriesIdValues.value;
    if seriesIdValues.None? {
      if exists c :: c in columns && c != timeIndex {
        var c :| c in columns && c != timeIndex;
        OtherColumnsMembers(columns, timeIndex, SeriesIdOf, SeriesIdOf(c));
      }
      if |ids| > 0 {
        OtherColumnsMembers(columns, timeIndex, SeriesIdOf, ids[0]);
      }
    }
    if |ids| > 0 && timeIndex in columns && |order| > 0 {
      if nRows == 0 {
        StackDataCases(0, Group(sel, columns, timeIndex, order[0]), true, Some(seriesIdName));
        assert order[..1][..0] == [];
        StackGroupsFailurePersists(sel, order, 1, columns, timeIndex, nRows, seriesIdName);
      } else {
        StackGroupsNames(sel, order, columns, timeIndex, nRows, seriesIdName);
        MaxRowsIsWidth(sel, order, columns, timeIndex, nRows, seriesIdName);
        MulMonotone(nRows, MaxWidth(sel, order, columns, timeIndex), CountDistinct(ids));
      }
    }
  }

  /** Without series id values, `stack_X` raises the length mismatch when
      the widest group and the number of distinct series ids differ, and
      otherwise gives the series id column, what each original column's
      group stacks into, in enumeration order, and the time index column
      last unless one of those already has its name; every series id it
      reports is read off a column of the first group. */
  lemma StackXGrouped(sel: Selection, columns: seq<string>, nRows: nat, seriesIdName: string,
                      timeIndex: string, order: seq<string>)
    requires StackOrder(columns, timeIndex, None, order)
    requires timeIndex in columns && nRows > 0 && |order| > 0
    ensures var r := StackX(sel, columns, nRows, seriesIdName, timeIndex, None, order);
            var names := [SeriesIdColumnName(Some(seriesIdName))] + StackedNames(sel, columns, timeIndex, order);
            var fits := MaxWidth(sel, order, columns, timeIndex) == CountDistinct(OtherColumns(columns, timeIndex, SeriesIdOf));
            && (!fits ==> r == Failure(LENGTH_MISMATCH_ERROR))
            && (fits ==> r.Success?)
            && (r.Success? ==> r.value.columns == (if timeIndex in names then names else names + [timeIndex]))
            && (r.Success? ==> forall s :: s in r.value.seriesIds ==>
                 exists c :: c in Group(sel, columns, timeIndex, order[0]) && s == SeriesIdOf(c))
  {
    assert order[0] in order;
    OtherColumnsMembers(columns, timeIndex, BaseName, order[0]);
    var c :| c in columns && c != timeIndex && BaseName(c) == order[0];
    OtherColumnsMembers(columns, timeIndex, SeriesIdOf, SeriesIdOf(c));
    StackXErrors(sel, columns, nRows, seriesIdName, timeIndex, None, order);
    var r := StackX(sel, columns, nRows, seriesIdName, timeIndex, None, order);
    if r.Success? {
      StackGroupsNames(sel, order, columns, timeIndex, nRows, seriesIdName);
      StackXGroupedValue(sel, columns, nRows, seriesIdName, timeIndex, order);
    }
  }

  /** A successful `stack_X` without series id values concatenates the
      parts, sets the time index last unless a part has its name, and takes
      the first part's series ids. */
  lemma StackXGroupedValue(sel: Selection, columns: seq<string>, nRows: nat, seriesIdName: string,
                           timeIndex: string, order: seq<string>)
    requires StackOrder(columns, timeIndex, None, order) && |order| > 0
    requires StackX(sel, columns, nRows, seriesIdName, timeIndex, None, order).Success?
    ensures var parts := StackGroups(sel, order, columns, timeIndex, nRows, seriesIdName);
            var names := ConcatColumns(parts.value);
            && parts.Success?
            && StackX(sel, columns, nRows, seriesIdName, timeIndex, None, order)
               == Success(Restacked(if timeIndex in names then names else names + [timeIndex], parts.value[0].seriesIds))
  {
  }

  /** Under the base-name selection, `stack_X` without series id values
      raises the length mismatch when some original column's columns and
      the distinct series ids differ in number, and otherwise gives the
      series id column, each original column once in enumeration order, and
      the time index column last unless one of those already has its name;
      every series id it reports is read off a column other than the time
      index. */
  lemma StackXGroupedIntended(columns: seq<string>, nRows: nat, seriesIdName: string, timeIndex: string,
                              order: seq<string>)
    requires StackOrder(columns, timeIndex, None, order)
    requires timeIndex in columns && nRows > 0 && |order| > 0
    ensures var r := StackX(ByBaseName, columns, nRows, seriesIdName, timeIndex, None, order);
            var names := [SeriesIdColumnName(Some(seriesIdName))] + order;
            var fits := MaxWidth(ByBaseName, order, columns, timeIndex)
                        == CountDistinct(OtherColumns(columns, timeIndex, SeriesIdOf));
            && (!fits ==> r == Failure(LENGTH_MISMATCH_ERROR))
            && (fits ==> r.Success?)
            && (r.Success? ==> r.value.columns == (if timeIndex in names then names else names + [timeIndex]))
            && (r.Success? ==> forall s :: s in r.value.seriesIds ==> s in OtherColumns(columns, timeIndex, SeriesIdOf))
  {
    StackXGrouped(ByBaseName, columns, nRows, seriesIdName, timeIndex, order);
    IntendedNames(columns, timeIndex, order);
    var r := StackX(ByBaseName, columns, nRows, seriesIdName, timeIndex, None, order);
    if r.Success? {
      forall s | s in r.value.seriesIds ensures s in OtherColumns(columns, timeIndex, SeriesIdOf) {
        var c :| c in GroupColumns(columns, timeIndex, order[0]) && s == SeriesIdOf(c);
        OtherColumnsMembers(columns, timeIndex, SeriesIdOf, s);
      }
    }
  }

  /** With series id values given, `stack_X` keeps only the time index and
      the series id column, whatever other columns the frame has; the series
      id column lists, row after row, the given ids once each in increasing
      order. */
  lemma StackXWithValues(sel: Selection, columns: seq<string>, nRows: nat, seriesIdName: string,
                         timeIndex: string, values: seq<string>, sorted: seq<string>)
    requires |values| > 0 && timeIndex in columns && nRows > 0
    requires StrictlyIncreasing(sorted, Strings.LessThan) && forall s :: s in sorted <==> s in values
    ensures StackOrder(columns, timeIndex, Some(values), [])
    ensures StackX(sel, columns, nRows, seriesIdName, timeIndex, Some(values), [])
            == Success(Restacked(if timeIndex == seriesIdName then [timeIndex] else [timeIndex, seriesIdName],
                                 StackedLabels(nRows, sorted)))
  {
    StringLessIsStrictTotalOrder();
    StrictlyIncreasingUnique(SortedSet(values, Strings.LessThan), sorted, Strings.LessThan);
  }

  /* ---------------- the two selections ---------------- */

  /** Two comprehensions over the same sequence whose conditions agree on
      its elements give the same list. */
  lemma {:induction false} FilterAgrees(s: seq<string>, p: string -> bool, q: string -> bool)
    requires forall x :: x in s ==> (p(x) <==> q(x))
    ensures Filter(s, p) == Filter(s, q)
    decreases |s|
  {
    if |s| > 0 {
      var init := s[..|s| - 1];
      assert forall x :: x in init ==> x in s;
      FilterAgrees(init, p, q);
    }
  }

  /** No original column occurs inside a column other than those of its own
      group: the only columns containing it are not the time index and have
      it as their base name. */
  predicate NoOverlap(columns: seq<string>, timeIndex: string, order: seq<string>)
  {
    forall o, c :: o in order && c in columns && IsSubstring(o, c) ==> c != timeIndex && BaseName(c) == o
  }

  lemma {:induction false} StackGroupsAgree(order: seq<string>, columns: seq<string>, timeIndex: string,
                                            nRows: nat, seriesIdName: string)
    requires forall k :: 0 <= k < |order| ==>
               Group(BySubstring, columns, timeIndex, order[k]) == Group(ByBaseName, columns, timeIndex, order[k])
    ensures StackGroups(BySubstring, order, columns, timeIndex, nRows, seriesIdName)
            == StackGroups(ByBaseName, order, columns, timeIndex, nRows, seriesIdName)
    decreases |order|
  {
    if |order| > 0 {
      var init := order[..|order| - 1];
      assert forall k :: 0 <= k < |init| ==> init[k] == order[k];
      StackGroupsAgree(init, columns, timeIndex, nRows, seriesIdName);
    }
  }

  /** When no original column overlaps another column's name, the substring
      test picks exactly the intended groups and `stack_X` as written
      agrees with the intended restacking. */
  lemma SelectionsAgree(columns: seq<string>, nRows: nat, seriesIdName: string, timeIndex: string,
                        seriesIdValues: Option<seq<string>>, order: seq<string>)
    requires StackOrder(columns, timeIndex, seriesIdValues, order)
    requires NoOverlap(columns, timeIndex, order)
    ensures StackX(BySubstring, columns, nRows, seriesIdName, timeIndex, seriesIdValues, order)
            == StackX(ByBaseName, columns, nRows, seriesIdName, timeIndex, seriesIdValues, order)
  {
    forall k | 0 <= k < |order|
      ensures Group(BySubstring, columns, timeIndex, order[k]) == Group(ByBaseName, columns, timeIndex, order[k])
    {
      assert order[k] in order;
      GroupsAgree(columns, timeIndex, order, order[k]);
    }
    StackGroupsAgree(order, columns, timeIndex, nRows, seriesIdName);
  }

  /** The same for one original column. */
  lemma GroupsAgree(columns: seq<string>, timeIndex: string, order: seq<string>, o: string)
    requires NoOverlap(columns, timeIndex, order) && o in order
    ensures Group(BySubstring, columns, timeIndex, o) == Group(ByBaseName, columns, timeIndex, o)
  {
    forall c | c in columns ensures IsSubstring(o, c) <==> c != timeIndex && BaseName(c) == o {
      if c != timeIndex && BaseName(c) == o {
        BaseNameIsSubstring(c);
      }
    }
    FilterAgrees(columns, c => IsSubstring(o, c), c => c != timeIndex && BaseName(c) == o);
  }

  /** When every `stack_data` call succeeds, the concatenation has a row
      for every row of the frame and column of the widest group. */
  lemma {:induction false} MaxRowsIsWidth(sel: Selection, order: seq<string>, columns: seq<string>,
                                          timeIndex: string, nRows: nat, seriesIdName: string)
    requires StackGroups(sel, order, columns, timeIndex, nRows, seriesIdName).Success?
    ensures MaxRows(StackGroups(sel, order, columns, timeIndex, nRows, seriesIdName).value)
            == nRows * MaxWidth(sel, order, columns, timeIndex)
    decreases |order|
  {
    if |order| > 0 {
      var n := |order| - 1;
      var init := order[..n];
      var parts := StackGroups(sel, order, columns, timeIndex, nRows, seriesIdName).value;
      var prev := StackGroups(sel, init, columns, timeIndex, nRows, seriesIdName).value;
      var last := GroupPart(sel, columns, timeIndex, nRows, seriesIdName, order[n], n == 0);
      var g, w := |Group(sel, columns, timeIndex, order[n])|, MaxWidth(sel, init, columns, timeIndex);
      assert MaxWidth(sel, order, columns, timeIndex) == if g <= w then w else g;
      assert MaxRows(parts) == if last.value.rows <= MaxRows(prev) then MaxRows(prev) else last.value.rows by {
        assert parts == prev + [last.value];
        assert parts[..n] == prev && parts[n] == last.value;
      }
      assert MaxRows(prev) == nRows * w by {
        MaxRowsIsWidth(sel, init, columns, timeIndex, nRows, seriesIdName);
      }
      assert last.value.rows == nRows * g by {
        StackDataCases(nRows, Group(sel, columns, timeIndex, order[n]), n == 0, Some(seriesIdName));
      }
      MaxOfScaled(nRows, g, w);
    }
  }

  /** Scaling by a count keeps the larger of two numbers the larger. */
  lemma MaxOfScaled(n: nat, a: nat, b: nat)
    ensures (if n * a <= n * b then n * b else n * a) == n * (if a <= b then b else a)
  {
    MulMonotone(n, a, b);
    MulMonotone(n, b, a);
  }

  lemma MulMonotone(n: nat, a: nat, b: nat)
    ensures a <= b ==> n * a <= n * b
    ensures n > 0 && a < b ==> n * a < n * b
    ensures n > 0 && a != b ==> n * a != n * b
  {
    if a <= b {
      assert n * b == n * a + n * (b - a);
    } else {
      assert n * a == n * b + n * (a - b);
    }
  }

  /* ---------------- unstack, then stack_X ---------------- */

  /** Of the columns `unstack_multiseries` produces, the base names are the
      unstacked features, when no series id holds an underscore and the time
      index is not one of the unstacked names. */
  lemma UnstackedOriginals(columns: seq<string>, seriesValues: seq<string>, seriesIdName: string,
                           timeIndex: string, targetName: string, x: string)
    requires UnstackMultiseries(columns, seriesValues, seriesIdName, timeIndex, targetName).Success?
    requires forall s :: s in seriesValues ==> '_' !in s
    requires timeIndex !in UnstackMultiseries(columns, seriesValues, seriesIdName, timeIndex, targetName).value.xColumns[1..]
    ensures var xs := UnstackMultiseries(columns, seriesValues, seriesIdName, timeIndex, targetName).value.xColumns;
            x in OtherColumns(xs, timeIndex, BaseName) <==> x in Features(DataColumns(columns, timeIndex, seriesIdName), targetName)
  {
    var xs := UnstackMultiseries(columns, seriesValues, seriesIdName, timeIndex, targetName).value.xColumns;
    assert xs == [timeIndex] + xs[1..];
    OtherColumnsMembers(xs, timeIndex, BaseName, x);
    UnstackedNames(columns, seriesValues, seriesIdName, timeIndex, targetName, x);
    if x in OtherColumns(xs, timeIndex, BaseName) {
      var c :| c in xs && c != timeIndex && BaseName(c) == x;
      assert c in xs[1..];
      UnstackedNames(columns, seriesValues, seriesIdName, timeIndex, targetName, c);
    }
    if x in Features(DataColumns(columns, timeIndex, seriesIdName), targetName) {
      assert Unique(seriesValues) != [];
      var s0 := seriesValues[0];
      assert s0 in seriesValues;
      NamingRoundTrip(x, s0);
      assert ColumnName(x, s0) in xs;
    }
  }

  /** Of the same columns, the series ids are the series, provided some
      feature was unstacked at all. */
  lemma UnstackedIds(columns: seq<string>, seriesValues: seq<string>, seriesIdName: string,
                     timeIndex: string, targetName: string, x: string)
    requires UnstackMultiseries(columns, seriesValues, seriesIdName, timeIndex, targetName).Success?
    requires forall s :: s in seriesValues ==> '_' !in s
    requires timeIndex !in UnstackMultiseries(columns, seriesValues, seriesIdName, timeIndex, targetName).value.xColumns[1..]
    ensures var xs := UnstackMultiseries(columns, seriesValues, seriesIdName, timeIndex, targetName).value.xColumns;
            var features := Features(DataColumns(columns, timeIndex, seriesIdName), targetName);
            x in OtherColumns(xs, timeIndex, SeriesIdOf) <==> x in seriesValues && |features| > 0
  {
    var xs := UnstackMultiseries(columns, seriesValues, seriesIdName, timeIndex, targetName).value.xColumns;
    var features := Features(DataColumns(columns, timeIndex, seriesIdName), targetName);
    assert xs == [timeIndex] + xs[1..];
    OtherColumnsMembers(xs, timeIndex, SeriesIdOf, x);
    if x in OtherColumns(xs, timeIndex, SeriesIdOf) {
      var c :| c in xs && c != timeIndex && SeriesIdOf(c) == x;
      assert c in xs[1..];
      UnstackedNames(columns, seriesValues, seriesIdName, timeIndex, targetName, c);
    }
    if x in seriesValues && |features| > 0 {
      var f0 := features[0];
      assert f0 in features;
      UnstackedNames(columns, seriesValues, seriesIdName, timeIndex, targetName, x);
      NamingRoundTrip(f0, x);
      assert ColumnName(f0, x) in xs;
    }
  }

  /** Of the same columns, the group of a feature is exactly that feature's
      column in each series. */
  lemma UnstackedGroup(columns: seq<string>, seriesValues: seq<string>, seriesIdName: string,
                       timeIndex: string, targetName: string, f: string, x: string)
    requires UnstackMultiseries(columns, seriesValues, seriesIdName, timeIndex, targetName).Success?
    requires forall s :: s in seriesValues ==> '_' !in s
    requires timeIndex !in UnstackMultiseries(columns, seriesValues, seriesIdName, timeIndex, targetName).value.xColumns[1..]
    requires f in Features(DataColumns(columns, timeIndex, seriesIdName), targetName)
    ensures var xs := UnstackMultiseries(columns, seriesValues, seriesIdName, timeIndex, targetName).value.xColumns;
            x in GroupColumns(xs, timeIndex, f) <==> exists s :: s in seriesValues && x == ColumnName(f, s)
  {
    var xs := UnstackMultiseries(columns, seriesValues, seriesIdName, timeIndex, targetName).value.xColumns;
    assert xs == [timeIndex] + xs[1..];
    UnstackedNames(columns, seriesValues, seriesIdName, timeIndex, targetName, x);
    if x in GroupColumns(xs, timeIndex, f) {
      assert x in xs[1..];
    }
    if exists s :: s in seriesValues && x == ColumnName(f, s) {
      var s :| s in seriesValues && x == ColumnName(f, s);
      NamingRoundTrip(f, s);
      assert x in xs[1..];
    }
  }

  /** In one series' block of duplicate-free columns, a test that holds
      for the name of exactly one column keeps one name. */
  lemma {:induction false} FilterBlockOne(cols: seq<string>, sid: string, p: string -> bool, f: string)
    requires Distinct(cols) && f in cols
    requires forall c :: c in cols ==> (p(ColumnName(c, sid)) <==> c == f)
    ensures |Filter(SeriesBlock(cols, sid), p)| == 1
    decreases |cols|
  {
    var n := |cols| - 1;
    var init, last := cols[..n], cols[n];
    var block, block' := SeriesBlock(cols, sid), SeriesBlock(init, sid);
    assert block[..n] == block' && block[n] == ColumnName(last, sid);
    assert cols == init + [last];
    assert Distinct(init);
    if last == f {
      assert f !in init;
      forall x | x in block' ensures !p(x) {
        var j :| 0 <= j < |init| && block'[j] == x;
        assert init[j] in cols && init[j] != f;
      }
      EmptyIffNoMembers(Filter(block', p));
    } else {
      FilterBlockOne(init, sid, p, f);
    }
  }

  /** Across the blocks of every series, such a test keeps one name per
      series. */
  lemma {:induction false} FilterBlocksWidth(sids: seq<string>, cols: seq<string>, p: string -> bool, f: string)
    requires Distinct(cols) && f in cols
    requires forall c, s :: c in cols && s in sids ==> (p(ColumnName(c, s)) <==> c == f)
    ensures |Filter(Blocks(sids, cols), p)| == |sids|
    decreases |sids|
  {
    if |sids| > 0 {
      var n := |sids| - 1;
      var init := sids[..n];
      var last := sids[n];
      assert forall s :: s in init ==> s in sids;
      assert last in sids;
      assert Blocks(sids, cols) == Blocks(init, cols) + SeriesBlock(cols, last);
      FilterBlocksWidth(init, cols, p, f);
      FilterAppend(Blocks(init, cols), SeriesBlock(cols, last), p);
      assert forall c :: c in cols ==> (p(ColumnName(c, last)) <==> c == f);
      FilterBlockOne(cols, last, p, f);
    }
  }

  /** A frame whose column labels are distinct has distinct features. */
  lemma FeaturesDistinct(columns: seq<string>, timeIndex: string, seriesIdName: string, targetName: string)
    requires Distinct(columns)
    ensures Distinct(Features(DataColumns(columns, timeIndex, seriesIdName), targetName))
  {
    var kept := DataColumns(columns, timeIndex, seriesIdName);
    FilterKeepsOrder(columns, c => c != timeIndex && c != seriesIdName);
    SubsequenceDistinct(kept, columns);
    FilterKeepsOrder(kept, c => c != targetName);
    SubsequenceDistinct(Features(kept, targetName), kept);
  }

  /** Of the columns `unstack_multiseries` produces from a frame whose
      column labels are distinct, the base-name group of every feature has
      one column per series. */
  lemma UnstackedGroupWidth(columns: seq<string>, seriesValues: seq<string>, seriesIdName: string,
                            timeIndex: string, targetName: string, f: string)
    requires UnstackMultiseries(columns, seriesValues, seriesIdName, timeIndex, targetName).Success?
    requires forall s :: s in seriesValues ==> '_' !in s
    requires timeIndex !in UnstackMultiseries(columns, seriesValues, seriesIdName, timeIndex, targetName).value.xColumns[1..]
    requires Distinct(columns)
    requires f in Features(DataColumns(columns, timeIndex, seriesIdName), targetName)
    ensures var xs := UnstackMultiseries(columns, seriesValues, seriesIdName, timeIndex, targetName).value.xColumns;
            |GroupColumns(xs, timeIndex, f)| == |Unique(seriesValues)|
  {
    var xs := UnstackMultiseries(columns, seriesValues, seriesIdName, timeIndex, targetName).value.xColumns;
    var sids := Unique(seriesValues);
    var features := Features(DataColumns(columns, timeIndex, seriesIdName), targetName);
    FeaturesDistinct(columns, timeIndex, seriesIdName, targetName);
    var p := (c: string) => c != timeIndex && BaseName(c) == f;
    assert xs == [timeIndex] + Blocks(sids, features);
    FilterAppend([timeIndex], Blocks(sids, features), p);
    assert Filter([timeIndex], p) == [] by {
      assert [timeIndex][..0] == [];
    }
    UnstackedBaseNameTest(columns, seriesValues, seriesIdName, timeIndex, targetName, f);
    FilterBlocksWidth(sids, features, p, f);
  }

  /** Among the unstacked columns, a feature's column in a series is not
      the time index and has the base name `f` exactly when it is `f`'s. */
  lemma UnstackedBaseNameTest(columns: seq<string>, seriesValues: seq<string>, seriesIdName: string,
                              timeIndex: string, targetName: string, f: string)
    requires UnstackMultiseries(columns, seriesValues, seriesIdName, timeIndex, targetName).Success?
    requires forall s :: s in seriesValues ==> '_' !in s
    requires timeIndex !in UnstackMultiseries(columns, seriesValues, seriesIdName, timeIndex, targetName).value.xColumns[1..]
    ensures forall c, s ::
              c in Features(DataColumns(columns, timeIndex, seriesIdName), targetName) && s in Unique(seriesValues) ==>
                (ColumnName(c, s) != timeIndex && BaseName(ColumnName(c, s)) == f <==> c == f)
  {
    var features := Features(DataColumns(columns, timeIndex, seriesIdName), targetName);
    forall c, s | c in features && s in Unique(seriesValues)
      ensures ColumnName(c, s) != timeIndex && BaseName(ColumnName(c, s)) == f <==> c == f
    {
      NamingRoundTrip(c, s);
      UnstackedNames(columns, seriesValues, seriesIdName, timeIndex, targetName, ColumnName(c, s));
    }
  }

  /** Of the same columns, the distinct series ids are as many as the
      series, provided some feature was unstacked. */
  lemma UnstackedIdCount(columns: seq<string>, seriesValues: seq<string>, seriesIdName: string,
                         timeIndex: string, targetName: string)
    requires UnstackMultiseries(columns, seriesValues, seriesIdName, timeIndex, targetName).Success?
    requires forall s :: s in seriesValues ==> '_' !in s
    requires timeIndex !in UnstackMultiseries(columns, seriesValues, seriesIdName, timeIndex, targetName).value.xColumns[1..]
    requires |Features(DataColumns(columns, timeIndex, seriesIdName), targetName)| > 0
    ensures var xs := UnstackMultiseries(columns, seriesValues, seriesIdName, timeIndex, targetName).value.xColumns;
            CountDistinct(OtherColumns(xs, timeIndex, SeriesIdOf)) == |Unique(seriesValues)|
  {
    var xs := UnstackMultiseries(columns, seriesValues, seriesIdName, timeIndex, targetName).value.xColumns;
    var sids := Unique(seriesValues);
    var ids := OtherColumns(xs, timeIndex, SeriesIdOf);
    forall x ensures x in ids <==> x in sids {
      UnstackedIds(columns, seriesValues, seriesIdName, timeIndex, targetName, x);
    }
    assert (set x | x in ids) == (set x | x in sids);
    DistinctCard(sids);
  }

  /** Of the same columns, the widest base-name group of the features has
      as many columns as there are distinct series ids. */
  lemma UnstackedFits(columns: seq<string>, seriesValues: seq<string>, seriesIdName: string,
                      timeIndex: string, targetName: string, order: seq<string>)
    requires UnstackMultiseries(columns, seriesValues, seriesIdName, timeIndex, targetName).Success?
    requires Distinct(columns)
    requires forall s :: s in seriesValues ==> '_' !in s
    requires timeIndex !in UnstackMultiseries(columns, seriesValues, seriesIdName, timeIndex, targetName).value.xColumns[1..]
    requires |order| > 0
    requires forall o :: o in order ==> o in Features(DataColumns(columns, timeIndex, seriesIdName), targetName)
    ensures var xs := UnstackMultiseries(columns, seriesValues, seriesIdName, timeIndex, targetName).value.xColumns;
            MaxWidth(ByBaseName, order, xs, timeIndex) == CountDistinct(OtherColumns(xs, timeIndex, SeriesIdOf))
  {
    var xs := UnstackMultiseries(columns, seriesValues, seriesIdName, timeIndex, targetName).value.xColumns;
    forall k | 0 <= k < |order|
      ensures |Group(ByBaseName, xs, timeIndex, order[k])| == |Unique(seriesValues)|
    {
      assert order[k] in order;
      UnstackedGroupWidth(columns, seriesValues, seriesIdName, timeIndex, targetName, order[k]);
    }
    assert order[0] in order;
    UnstackedIdCount(columns, seriesValues, seriesIdName, timeIndex, targetName);
    var w := MaxWidth(ByBaseName, order, xs, timeIndex);
    MaxWidthBounds(ByBaseName, order, xs, timeIndex);
    var k :| 0 <= k < |order| && |Group(ByBaseName, xs, timeIndex, order[k])| == w;
  }

  /** Unstacking a frame with distinct column labels and then restacking
      the features by base name, with the features enumerated in any order,
      gives the series id column, every feature once, and the time index
      column last, and reads back only the original series; there is
      nothing to restack without features. */
  lemma UnstackThenStack(columns: seq<string>, seriesValues: seq<string>, seriesIdName: string,
                         timeIndex: string, targetName: string, nRows: nat, order: seq<string>)
    requires UnstackMultiseries(columns, seriesValues, seriesIdName, timeIndex, targetName).Success?
    requires Distinct(columns)
    requires forall s :: s in seriesValues ==> '_' !in s
    requires timeIndex !in UnstackMultiseries(columns, seriesValues, seriesIdName, timeIndex, targetName).value.xColumns[1..]
    requires Distinct(order)
    requires forall o :: o in order <==> o in Features(DataColumns(columns, timeIndex, seriesIdName), targetName)
    requires nRows > 0 && timeIndex != SeriesIdColumnName(Some(seriesIdName))
    ensures var xs := UnstackMultiseries(columns, seriesValues, seriesIdName, timeIndex, targetName).value.xColumns;
            && StackOrder(xs, timeIndex, None, order)
            && var r := StackX(ByBaseName, xs, nRows, seriesIdName, timeIndex, None, order);
            && (|order| == 0 ==> r == Failure(NO_SERIES_IDS_ERROR))
            && (|order| > 0 ==>
                  && r.Success?
                  && r.value.columns == [SeriesIdColumnName(Some(seriesIdName))] + order + [timeIndex]
                  && forall s :: s in r.value.seriesIds ==> s in seriesValues)
  {
    var xs := UnstackMultiseries(columns, seriesValues, seriesIdName, timeIndex, targetName).value.xColumns;
    var features := Features(DataColumns(columns, timeIndex, seriesIdName), targetName);
    forall x ensures (x in OtherColumns(xs, timeIndex, BaseName) <==> x in features)
                     && (x in OtherColumns(xs, timeIndex, SeriesIdOf) <==> x in seriesValues && |features| > 0)
    {
      UnstackedOriginals(columns, seriesValues, seriesIdName, timeIndex, targetName, x);
      UnstackedIds(columns, seriesValues, seriesIdName, timeIndex, targetName, x);
    }
    assert xs[0] == timeIndex;
    if |order| == 0 {
      EmptyIffNoMembers(features);
      EmptyIffNoMembers(OtherColumns(xs, timeIndex, SeriesIdOf));
    } else {
      UnstackedFits(columns, seriesValues, seriesIdName, timeIndex, targetName, order);
      StackXGroupedIntended(xs, nRows, seriesIdName, timeIndex, order);
      assert timeIndex !in features;
      var names := [SeriesIdColumnName(Some(seriesIdName))] + order;
      assert timeIndex !in names;
    }
  }

  /** `stack_X` as written restores the same when no feature occurs inside
      an unstacked column name other than its own. */
  lemma UnstackThenStackAsWritten(columns: seq<string>, seriesValues: seq<string>, seriesIdName: string,
                                  timeIndex: string, targetName: string, nRows: nat, order: seq<string>)
    requires UnstackMultiseries(columns, seriesValues, seriesIdName, timeIndex, targetName).Success?
    requires Distinct(columns)
    requires forall s :: s in seriesValues ==> '_' !in s
    requires timeIndex !in UnstackMultiseries(columns, seriesValues, seriesIdName, timeIndex, targetName).value.xColumns[1..]
    requires Distinct(order)
    requires forall o :: o in order <==> o in Features(DataColumns(columns, timeIndex, seriesIdName), targetName)
    requires nRows > 0 && timeIndex != SeriesIdColumnName(Some(seriesIdName))
    requires NoOverlap(UnstackMultiseries(columns, seriesValues, seriesIdName, timeIndex, targetName).value.xColumns,
                       timeIndex, order)
    ensures var xs := UnstackMultiseries(columns, seriesValues, seriesIdName, timeIndex, targetName).value.xColumns;
            && StackOrder(xs, timeIndex, None, order)
            && var r := StackX(BySubstring, xs, nRows, seriesIdName, timeIndex, None, order);
            && (|order| == 0 ==> r == Failure(NO_SERIES_IDS_ERROR))
            && (|order| > 0 ==>
                  && r.Success?
                  && r.value.columns == [SeriesIdColumnName(Some(seriesIdName))] + order + [timeIndex]
                  && forall s :: s in r.value.seriesIds ==> s in seriesValues)
  {
    var xs := UnstackMultiseries(columns, seriesValues, seriesIdName, timeIndex, targetName).value.xColumns;
    UnstackThenStack(columns, seriesValues, seriesIdName, timeIndex, targetName, nRows, order);
    SelectionsAgree(xs, nRows, seriesIdName, timeIndex, None, order);
  }

  /** Otherwise `stack_X` as written raises the length mismatch: a feature
      occurring inside another unstacked name (another feature's column or
      the time index) has a substring group with more columns than there
      are series. */
  lemma UnstackThenStackOverlapRaises(columns: seq<string>, seriesValues: seq<string>, seriesIdName: string,
                                      timeIndex: string, targetName: string, nRows: nat, order: seq<string>)
    requires UnstackMultiseries(columns, seriesValues, seriesIdName, timeIndex, targetName).Success?
    requires Distinct(columns)
    requires forall s :: s in seriesValues ==> '_' !in s
    requires timeIndex !in UnstackMultiseries(columns, seriesValues, seriesIdName, timeIndex, targetName).value.xColumns[1..]
    requires Distinct(order)
    requires forall o :: o in order <==> o in Features(DataColumns(columns, timeIndex, seriesIdName), targetName)
    requires nRows > 0 && timeIndex != SeriesIdColumnName(Some(seriesIdName))
    requires !NoOverlap(UnstackMultiseries(columns, seriesValues, seriesIdName, timeIndex, targetName).value.xColumns,
                        timeIndex, order)
    ensures var xs := UnstackMultiseries(columns, seriesValues, seriesIdName, timeIndex, targetName).value.xColumns;
            && StackOrder(xs, timeIndex, None, order)
            && StackX(BySubstring, xs, nRows, seriesIdName, timeIndex, None, order) == Failure(LENGTH_MISMATCH_ERROR)
  {
    var xs := UnstackMultiseries(columns, seriesValues, seriesIdName, timeIndex, targetName).value.xColumns;
    UnstackThenStack(columns, seriesValues, seriesIdName, timeIndex, targetName, nRows, order);
    var o, c :| o in order && c in xs && IsSubstring(o, c) && !(c != timeIndex && BaseName(c) == o);
    var k :| 0 <= k < |order| && order[k] == o;
    OverlapWidensGroup(columns, seriesValues, seriesIdName, timeIndex, targetName, o, c);
    UnstackedIdCount(columns, seriesValues, seriesIdName, timeIndex, targetName);
    MaxWidthBounds(BySubstring, order, xs, timeIndex);
    assert xs[0] == timeIndex;
    StackXErrors(BySubstring, xs, nRows, seriesIdName, timeIndex, None, order);
  }

  /** A feature occurring inside an unstacked name other than its own
      columns has a substring group wider than the number of series: the
      group holds the feature's column in every series and that name. */
  lemma OverlapWidensGroup(columns: seq<string>, seriesValues: seq<string>, seriesIdName: string,
                           timeIndex: string, targetName: string, o: string, c: string)
    requires UnstackMultiseries(columns, seriesValues, seriesIdName, timeIndex, targetName).Success?
    requires Distinct(columns)
    requires forall s :: s in seriesValues ==> '_' !in s
    requires timeIndex !in UnstackMultiseries(columns, seriesValues, seriesIdName, timeIndex, targetName).value.xColumns[1..]
    requires o in Features(DataColumns(columns, timeIndex, seriesIdName), targetName)
    requires var xs := UnstackMultiseries(columns, seriesValues, seriesIdName, timeIndex, targetName).value.xColumns;
             c in xs && IsSubstring(o, c) && !(c != timeIndex && BaseName(c) == o)
    ensures var xs := UnstackMultiseries(columns, seriesValues, seriesIdName, timeIndex, targetName).value.xColumns;
            |Group(BySubstring, xs, timeIndex, o)| > |Unique(seriesValues)|
  {
    var xs := UnstackMultiseries(columns, seriesValues, seriesIdName, timeIndex, targetName).value.xColumns;
    UnstackedGroupWidth(columns, seriesValues, seriesIdName, timeIndex, targetName, o);
    forall x | x in xs && x != timeIndex && BaseName(x) == o ensures IsSubstring(o, x) {
      BaseNameIsSubstring(x);
    }
    FilterWeaker(xs, x => x != timeIndex && BaseName(x) == o, x => IsSubstring(o, x));
  }

  /** The source's substring selection takes in other columns: unstacking
      a feature and a longer feature starting with it (such as "a" and "ab")
      in one series gives two columns ("a_0" and "ab_0"), and the group of
      the shorter feature picks both, although the second stacks back into
      the longer feature. */
  lemma GroupBySubstringOvercollects(timeIndex: string, original: string, ext: string, sid: string)
    requires '_' !in sid && !IsSubstring(original, timeIndex)
    ensures var c1, c2 := ColumnName(original, sid), ColumnName(original + ext, sid);
            && GroupColumnsAsWritten([timeIndex, c1, c2], original) == [c1, c2]
            && BaseName(c2) == original + ext
  {
    var c1, c2 := ColumnName(original, sid), ColumnName(original + ext, sid);
    var cols := [timeIndex, c1, c2];
    NamingRoundTrip(original + ext, sid);
    var p := (c: string) => IsSubstring(original, c);
    assert p(c1) by {
      assert c1 == original + ("_" + sid);
      PrefixIsSubstring(original, "_" + sid);
    }
    assert p(c2) by {
      assert c2 == original + (ext + "_" + sid);
      PrefixIsSubstring(original, ext + "_" + sid);
    }
    assert cols[..0] == [] && cols[..3] == cols;
    FilterStep(cols, p, 0);
    FilterStep(cols, p, 1);
    FilterStep(cols, p, 2);
  }

  /** On the same columns the base-name selection picks only the shorter
      feature's column. */
  lemma GroupByBaseNameExact(timeIndex: string, original: string, ext: string, sid: string)
    requires '_' !in sid && ext != "" && timeIndex != ColumnName(original, sid)
    ensures var c1, c2 := ColumnName(original, sid), ColumnName(original + ext, sid);
            GroupColumns([timeIndex, c1, c2], timeIndex, original) == [c1]
  {
    var c1, c2 := ColumnName(original, sid), ColumnName(original + ext, sid);
    var cols := [timeIndex, c1, c2];
    NamingRoundTrip(original, sid);
    NamingRoundTrip(original + ext, sid);
    assert |original + ext| > |original|;
    var q := (c: string) => c != timeIndex && BaseName(c) == original;
    assert cols[..0] == [] && cols[..3] == cols;
    FilterStep(cols, q, 0);
    FilterStep(cols, q, 1);
    FilterStep(cols, q, 2);
  }

  /** The two examples meet those conditions: "a" does not occur in the
      time index "t" but does occur in the time index "date". */
  lemma SubstringExamples()
    ensures !IsSubstring("a", "t") && IsSubstring("a", "date")
  {
    assert "t"[..1] == "t" && "t"[0] != "a"[0];
    assert "t"[1..] == [] && !IsPrefix("a", "t");
    assert !IsSubstring("a", []);
    assert "date"[1..] == "ate" && "ate"[..1] == "a";
  }

  /** The substring test can take in the time index: when an original
      column occurs inside the time index's name (as "a" does in "date"),
      its group is the time index and its own column, whose `stack_data`
      call stacks into a column with the empty name and reads the time index
      as a series id; that group is twice as wide as the one series id, so
      `stack_X` raises the length mismatch. */
  lemma StackXCapturesTimeIndex(timeIndex: string, original: string, sid: string, seriesIdName: string)
    requires '_' !in timeIndex && '_' !in sid && IsSubstring(original, timeIndex)
    ensures var columns := [timeIndex, ColumnName(original, sid)];
            && StackOrder(columns, timeIndex, None, [original])
            && Group(BySubstring, columns, timeIndex, original) == columns
            && GroupPart(BySubstring, columns, timeIndex, 1, seriesIdName, original, true)
               == Success(Stacked([SeriesIdColumnName(Some(seriesIdName)), ""], [timeIndex, sid], 2))
            && StackX(BySubstring, columns, 1, seriesIdName, timeIndex, None, [original])
               == Failure(LENGTH_MISMATCH_ERROR)
  {
    var columns := [timeIndex, ColumnName(original, sid)];
    OneColumnOrder(timeIndex, original, sid);
    CapturingPart(timeIndex, original, sid, seriesIdName);
    assert MaxWidth(BySubstring, [original], columns, timeIndex) == 2;
    StackXErrors(BySubstring, columns, 1, seriesIdName, timeIndex, None, [original]);
  }

  lemma CapturingPart(timeIndex: string, original: string, sid: string, seriesIdName: string)
    requires '_' !in timeIndex && '_' !in sid && IsSubstring(original, timeIndex)
    ensures Group(BySubstring, [timeIndex, ColumnName(original, sid)], timeIndex, original)
            == [timeIndex, ColumnName(original, sid)]
    ensures GroupPart(BySubstring, [timeIndex, ColumnName(original, sid)], timeIndex, 1, seriesIdName, original, true)
            == Success(Stacked([SeriesIdColumnName(Some(seriesIdName)), ""], [timeIndex, sid], 2))
  {
    var c := ColumnName(original, sid);
    var columns := [timeIndex, c];
    CapturingGroup(timeIndex, original, sid);
    NameDecomposes(timeIndex);
    NamingRoundTrip(original, sid);
    StackDataOneRow(columns, Some(seriesIdName));
    assert SeriesIds(columns) == [timeIndex, sid];
  }

  lemma CapturingGroup(timeIndex: string, original: string, sid: string)
    requires IsSubstring(original, timeIndex)
    ensures Group(BySubstring, [timeIndex, ColumnName(original, sid)], timeIndex, original)
            == [timeIndex, ColumnName(original, sid)]
  {
    var c := ColumnName(original, sid);
    var columns := [timeIndex, c];
    assert c == original + ("_" + sid);
    PrefixIsSubstring(original, "_" + sid);
    var p := (x: string) => IsSubstring(original, x);
    assert columns[..0] == [] && columns[..2] == columns;
    FilterStep(columns, p, 0);
    FilterStep(columns, p, 1);
  }

  /** `stack_data` on one row with the series id: the base name of the
      first column, and each column's series id. */
  lemma StackDataOneRow(columns: seq<string>, seriesIdName: Option<string>)
    requires |columns| > 0
    ensures StackData(1, columns, true, seriesIdName)
            == Success(Stacked([SeriesIdColumnName(seriesIdName), BaseName(columns[0])], SeriesIds(columns), |columns|))
  {
    assert StackedLabels(1, columns) == columns by {
      assert StackedLabels(0, columns) == [];
    }
  }

  /** On the same columns the base-name selection stacks the original
      column's own column alone, back into that column. */
  lemma StackXIntendedKeepsTimeIndexOut(timeIndex: string, original: string, sid: string, seriesIdName: string)
    requires '_' !in timeIndex && '_' !in sid
    requires timeIndex != original && timeIndex != SeriesIdColumnName(Some(seriesIdName))
    ensures var columns := [timeIndex, ColumnName(original, sid)];
            && StackOrder(columns, timeIndex, None, [original])
            && StackX(ByBaseName, columns, 1, seriesIdName, timeIndex, None, [original])
               == Success(Restacked([SeriesIdColumnName(Some(seriesIdName)), original, timeIndex], [sid]))
  {
    var columns := [timeIndex, ColumnName(original, sid)];
    OneColumnOrder(timeIndex, original, sid);
    IntendedPart(timeIndex, original, sid, seriesIdName);
    assert timeIndex in columns;
    SingleGroupBack(columns, timeIndex, 1, seriesIdName, original, [sid]);
  }

  /** `stack_X` on a single original column whose group stacks back into
      that column, with one series id among the columns. */
  lemma SingleGroupBack(columns: seq<string>, timeIndex: string, nRows: nat, seriesIdName: string,
                        original: string, ids: seq<string>)
    requires StackOrder(columns, timeIndex, None, [original])
    requires |OtherColumns(columns, timeIndex, SeriesIdOf)| > 0 && timeIndex in columns
    requires CountDistinct(OtherColumns(columns, timeIndex, SeriesIdOf)) == 1
    requires GroupPart(ByBaseName, columns, timeIndex, nRows, seriesIdName, original, true)
             == Success(Stacked([SeriesIdColumnName(Some(seriesIdName)), original], ids, nRows))
    requires timeIndex != original && timeIndex != SeriesIdColumnName(Some(seriesIdName))
    ensures StackX(ByBaseName, columns, nRows, seriesIdName, timeIndex, None, [original])
            == Success(Restacked([SeriesIdColumnName(Some(seriesIdName)), original, timeIndex], ids))
  {
    var part := Stacked([SeriesIdColumnName(Some(seriesIdName)), original], ids, nRows);
    SingleGroupParts(ByBaseName, columns, timeIndex, nRows, seriesIdName, original, part);
    OnePart(part);
    assert part.columns + [timeIndex] == [SeriesIdColumnName(Some(seriesIdName)), original, timeIndex];
  }

  lemma IntendedPart(timeIndex: string, original: string, sid: string, seriesIdName: string)
    requires '_' !in timeIndex && '_' !in sid
    ensures Group(ByBaseName, [timeIndex, ColumnName(original, sid)], timeIndex, original)
            == [ColumnName(original, sid)]
    ensures |Group(ByBaseName, [timeIndex, ColumnName(original, sid)], timeIndex, original)| == 1
    ensures GroupPart(ByBaseName, [timeIndex, ColumnName(original, sid)], timeIndex, 1, seriesIdName, original, true)
            == Success(Stacked([SeriesIdColumnName(Some(seriesIdName)), original], [sid], 1))
  {
    var c := ColumnName(original, sid);
    var columns := [timeIndex, c];
    OneColumnOrder(timeIndex, original, sid);
    NamingRoundTrip(original, sid);
    var q := (x: string) => x != timeIndex && BaseName(x) == original;
    assert columns[..0] == [] && columns[..2] == columns;
    FilterStep(columns, q, 0);
    FilterStep(columns, q, 1);
    assert Group(ByBaseName, columns, timeIndex, original) == [c];
    assert StackedLabels(1, [c]) == [c] by {
      assert StackedLabels(0, [c]) == [];
    }
    assert SeriesIds([c]) == [sid];
  }

  /** The time index, without an underscore, and one unstacked column: the
      only original column is that column's, and the only series id its
      series. */
  lemma OneColumnOrder(timeIndex: string, original: string, sid: string)
    requires '_' !in timeIndex && '_' !in sid
    ensures var columns := [timeIndex, ColumnName(original, sid)];
            && timeIndex != ColumnName(original, sid)
            && OtherColumns(columns, timeIndex, BaseName) == [original]
            && OtherColumns(columns, timeIndex, SeriesIdOf) == [sid]
            && CountDistinct(OtherColumns(columns, timeIndex, SeriesIdOf)) == 1
            && StackOrder(columns, timeIndex, None, [original])
  {
    var c := ColumnName(original, sid);
    var columns := [timeIndex, c];
    NamingRoundTrip(original, sid);
    assert c[|original|] == '_';
    assert c != timeIndex;
    assert columns[..1] == [timeIndex] && [timeIndex][..0] == [];
    OneColumnOthers(timeIndex, c, BaseName);
    OneColumnOthers(timeIndex, c, SeriesIdOf);
    assert (set x | x in [sid]) == {sid};
  }

  lemma OneColumnOthers(timeIndex: string, c: string, f: string -> string)
    requires c != timeIndex
    ensures OtherColumns([timeIndex, c], timeIndex, f) == [f(c)]
  {
    var columns := [timeIndex, c];
    assert columns[..1] == [timeIndex] && [timeIndex][..0] == [];
    assert OtherColumns([timeIndex], timeIndex, f) == [];
  }

  /** The concatenation of a single part is that part. */
  lemma OnePart(part: Stacked)
    ensures ConcatColumns([part]) == part.columns && MaxRows([part]) == part.rows
  {
    assert [part][..0] == [];
  }

  lemma SingleGroupParts(sel: Selection, columns: seq<string>, timeIndex: string, nRows: nat,
                         seriesIdName: string, original: string, part: Stacked)
    requires GroupPart(sel, columns, timeIndex, nRows, seriesIdName, original, true) == Success(part)
    ensures StackGroups(sel, [original], columns, timeIndex, nRows, seriesIdName) == Success([part])
  {
    var order := [original];
    assert order[..0] == [];
    assert StackGroups(sel, order[..0], columns, timeIndex, nRows, seriesIdName) == Success([]);
    assert order[|order| - 1] == original;
    assert [] + [part] == [part];
  }
}
