/**
 * The chart callback of callbacks/charts.py: reduce the stored table to the
 * active columns, filter its rows by value and by year, and derive the data
 * of the map, bar and pie charts. The figures are the data a chart is drawn
 * from, not the drawing.
 */
module Charts {
  import opened Seqs
  import opened Frames
  import opened Helpers
  import opened Aggregate
  import opened Transforms

  /* ---------------- filters ---------------- */

  /**
   * `_subset_to_active(df, active_cols)`: `subset_to_active` with nothing
   * extra to keep; the active columns and, when both exist, the coordinates.
   */
  function SubsetActive(t: Table, active: seq<string>): (r: Table)
    requires WellFormed(t)
    ensures WellFormed(r)
    ensures (exists k :: 0 <= k < |t.columns| && Kept(t, active, [], t.columns[k].name)) ==>
      forall c :: HasColumn(r, c) <==> HasColumn(t, c) && (c in active || (HasCoordinates(t) && (c == LATITUDE || c == LONGITUDE)))
    ensures (forall k :: 0 <= k < |t.columns| ==> !Kept(t, active, [], t.columns[k].name)) ==> r.rows == []
  {
    SubsetToActiveMeaning(t, active, []);
    SubsetToActive(t, active, [])
  }

  /**
   * `_apply_year_filter(df, time_col, years)` AS WRITTEN: the same
   * one-argument `extract_years(df[time_col])` call, so it raises whenever
   * its guards pass; unlike services/transforms.py it has no "all" check.
   */
  function ApplyYearFilterAsWritten(t: Table, timeCol: Option<string>, years: YearsArg): (r: Result<Table>)
    ensures r.Failure? <==> Truthy(timeCol) && HasColumn(t, timeCol.value) && !YearsFalsy(years)
    ensures r.Success? ==> r.value == t
  {
    if !Truthy(timeCol) || !HasColumn(t, timeCol.value) || YearsFalsy(years) then Success(t)
    else Failure("TypeError: extract_years() missing 1 required positional argument: 'time_col'")
  }

  /** The entries of `years` that can equal an integer year; strings never do. */
  function IntYears(items: seq<YearItem>): (r: seq<int>)
    ensures forall y :: y in r <==> ItemInt(y) in items
  {
    if items == [] then []
    else
      assert forall i :: 0 <= i < |items[1..]| ==> items[1..][i] == items[i + 1];
      (if items[0].ItemInt? then [items[0].n] else []) + IntYears(items[1..])
  }

  /** Some row's time cell (column `j`) yields no year. */
  predicate SomeYearless(parse: string -> NumParse, t: Table, j: nat)
    requires WellFormed(t) && j < |t.columns|
  {
    exists i :: 0 <= i < |t.rows| && CellYear(parse, t.columns[j].dtype, t.rows[i][j]).None?
  }

  /**
   * `_apply_year_filter` with only the call repaired. `extract_years` drops
   * the cells without a year (and raises on a fractional number), so the
   * mask is then shorter than the frame and `df.loc` cannot align it: the
   * filter raises whenever some time cell yields no year. Otherwise it keeps
   * the rows whose year is among the years as given, with no "all" check.
   */
  function YearFilterCallFixed(parse: string -> NumParse, t: Table, timeCol: Option<string>, years: YearsArg): (r: Result<Table>)
    requires WellFormed(t)
    ensures r.Failure? <==>
      && Truthy(timeCol) && HasColumn(t, timeCol.value) && !YearsFalsy(years)
      && SomeYearless(parse, t, ColumnIndex(t, timeCol.value).value)
    ensures r.Success? ==> WellFormed(r.value) && r.value.columns == t.columns
    ensures r.Success? ==> forall row :: row in r.value.rows ==> row in t.rows
  {
    if !Truthy(timeCol) || !HasColumn(t, timeCol.value) || YearsFalsy(years) then Success(t)
    else
      var j := ColumnIndex(t, timeCol.value).value;
      if SomeYearless(parse, t, j) then Failure("IndexingError: Unalignable boolean Series provided as indexer")
      else Success(Table(t.columns, Filter(t.rows, YearTest(parse, t.columns[j].dtype, j, IntYears(AsList(years))))))
  }

  /**
   * With the call repaired, choosing "All years" (the default the year menu
   * offers) never hands the frame back: it raises when a time cell has no
   * year and drops every row otherwise, where services/transforms.py keeps
   * the frame unchanged.
   */
  lemma AllYearsDropsEveryRow(parse: string -> NumParse, t: Table, timeCol: string)
    requires WellFormed(t) && timeCol != "" && HasColumn(t, timeCol)
    ensures var r := YearFilterCallFixed(parse, t, Some(timeCol), Many([ItemStr(ALL_SENTINEL)]));
      && (r.Failure? <==> SomeYearless(parse, t, ColumnIndex(t, timeCol).value))
      && (r.Success? ==> r.value.rows == [])
    ensures ApplyYearFilter(parse, t, Some(timeCol), Many([ItemStr(ALL_SENTINEL)])) == t
  {
    var j := ColumnIndex(t, timeCol).value;
    var years := Many([ItemStr(ALL_SENTINEL)]);
    assert IntYears(AsList(years)) == [];
    FilterExtremes(t.rows, YearTest(parse, t.columns[j].dtype, j, []));
  }

  /* ---------------- chart data ---------------- */

  /** A scatter map of the located rows, or the empty figure. */
  datatype MapFigure = EmptyMap | PointMap(points: seq<seq<Cell>>, hover: Option<string>)

  /** Bars of a mean per group, bars of a count per value, or the empty figure. */
  datatype BarFigure =
    | EmptyBar
    | MeanBars(x: string, y: string, means: seq<(Cell, Option<real>)>)
    | CountBars(x: string, counts: seq<(Cell, nat)>)

  /** A pie of a count per value, or the empty figure. */
  datatype PieFigure = EmptyPie | CountPie(names: string, counts: seq<(Cell, nat)>)

  datatype Figures = Figures(geo: MapFigure, bar: BarFigure, pie: PieFigure)

  const EMPTY_FIGURES: Figures := Figures(EmptyMap, EmptyBar, EmptyPie)

  /** `name in df.columns` for an optional name (None is never a column). */
  predicate Present(t: Table, name: Option<string>) {
    name.Some? && HasColumn(t, name.value)
  }

  /**
   * `_build_map(df, hover_col)`: the rows with both coordinates, hovering on
   * `hover_col` when it is a column; empty without both coordinate columns
   * or without a located row.
   */
  function BuildMap(t: Table, hover: Option<string>): (r: MapFigure)
    ensures r.PointMap? <==> HasCoordinates(t) && exists row :: row in t.rows && Located(t, row)
    ensures r.PointMap? ==> forall row :: row in r.points <==> row in t.rows && Located(t, row)
    ensures r.PointMap? ==> (r.hover.Some? <==> Present(t, hover))
  {
    if !HasCoordinates(t) then EmptyMap
    else
      var geo := GeoRows(t);
      if geo == [] then EmptyMap
      else
        assert geo[0] in geo;
        PointMap(geo, if Present(t, hover) then hover else None)
  }

  /**
   * `_build_bar(df, x_col, y_col)`: the mean of a numeric `y` per value of
   * `x` (nulls form a group), else the value counts of `x`, else empty.
   */
  function BuildBar(t: Table, x: Option<string>, y: Option<string>): (r: BarFigure)
    requires WellFormed(t)
    ensures r.MeanBars? <==> Present(t, x) && Present(t, y) && IsNumericColumn(t, y.value)
    ensures r.CountBars? <==> Present(t, x) && !(Present(t, y) && IsNumericColumn(t, y.value))
    ensures r.EmptyBar? <==> !Present(t, x)
  {
    if Present(t, x) && Present(t, y) && IsNumericColumn(t, y.value) then
      var xs := CellsNamed(t, x.value);
      MeanBars(x.value, y.value, GroupMeans(Dedup(xs), xs, Numbers(CellsNamed(t, y.value))))
    else if Present(t, x) then CountBars(x.value, ValueCounts(CellsNamed(t, x.value)))
    else EmptyBar
  }

  /**
   * The name pandas gives the Series `value_counts()` returns; `reset_index()`
   * cannot insert a column of that name beside it.
   */
  const COUNT_NAME: string := "count"

  /**
   * `_build_bar` as written. With one numeric column as both `x_col` and
   * `y_col`, the grouped mean is a Series named like its own index; in the
   * count branch, an `x_col` named `count` is the index of a Series named
   * `count`. Either way `reset_index()` cannot insert that name a second
   * time, and it raises.
   */
  function BuildBarAsWritten(t: Table, x: Option<string>, y: Option<string>): (r: Result<BarFigure>)
    requires WellFormed(t)
    ensures r.Failure? <==>
      && Present(t, x)
      && ((y == x && IsNumericColumn(t, x.value))
          || (!(Present(t, y) && IsNumericColumn(t, y.value)) && x.value == COUNT_NAME))
    ensures r.Success? ==> r.value == BuildBar(t, x, y)
  {
    if Present(t, x) && y == x && IsNumericColumn(t, x.value) then
      Failure("ValueError: cannot insert " + x.value + ", already exists")
    else if Present(t, x) && !(Present(t, y) && IsNumericColumn(t, y.value)) && x.value == COUNT_NAME then
      Failure("ValueError: cannot insert count, already exists")
    else Success(BuildBar(t, x, y))
  }

  /**
   * The evidently intended chart for one numeric column on both axes: each
   * bar stands at its own value, and a bar for a non-number has no mean.
   */
  lemma SameColumnBarsAreValues(t: Table, x: Option<string>, i: nat)
    requires WellFormed(t) && Present(t, x) && IsNumericColumn(t, x.value)
    requires i < |BuildBar(t, x, x).means|
    ensures var bar := BuildBar(t, x, x).means[i];
      bar.1 == (if bar.0.Number? then Some(bar.0.x) else None)
  {
    var xs := CellsNamed(t, x.value);
    var ys := Numbers(xs);
    var means := GroupMeans(Dedup(xs), xs, ys);
    assert BuildBar(t, x, x).means == means;
    assert means[i] == (Dedup(xs)[i], MeanOf(xs, ys, Dedup(xs)[i]));
    MeanOfOwnValues(xs, Dedup(xs)[i]);
  }

  /**
   * The mean bars list each value of `x` once, in order of first
   * occurrence, with the mean of `y` over its rows (None when none of them
   * has a number).
   */
  lemma MeanBarsMeaning(t: Table, x: Option<string>, y: Option<string>)
    requires WellFormed(t)
    requires BuildBar(t, x, y).MeanBars?
    ensures var r := BuildBar(t, x, y);
      var xs, ys := CellsNamed(t, x.value), Numbers(CellsNamed(t, y.value));
      && (forall i, k :: 0 <= i < k < |r.means| ==> r.means[i].0 != r.means[k].0)
      && (forall c :: c in xs <==> exists i :: 0 <= i < |r.means| && r.means[i].0 == c)
      && (forall i :: 0 <= i < |r.means| ==> r.means[i].1 == MeanOf(xs, ys, r.means[i].0))
  {
    var r := BuildBar(t, x, y);
    var xs := CellsNamed(t, x.value);
    forall c | c in xs ensures exists i :: 0 <= i < |r.means| && r.means[i].0 == c {
      var i :| 0 <= i < |Dedup(xs)| && Dedup(xs)[i] == c;
      assert r.means[i].0 == c;
    }
  }

  /** Each bar's mean lies between the smallest and the largest `y` of its group. */
  lemma MeanBarBetween(t: Table, x: Option<string>, y: Option<string>, i: nat, lo: real, hi: real)
    requires WellFormed(t)
    requires BuildBar(t, x, y).MeanBars? && i < |BuildBar(t, x, y).means|
    requires var r := BuildBar(t, x, y);
      var xs, ys := CellsNamed(t, x.value), Numbers(CellsNamed(t, y.value));
      forall n :: 0 <= n < |xs| && xs[n] == r.means[i].0 && ys[n].Some? ==> lo <= ys[n].value <= hi
    requires BuildBar(t, x, y).means[i].1.Some?
    ensures lo <= BuildBar(t, x, y).means[i].1.value <= hi
  {
    var r := BuildBar(t, x, y);
    MeanBetween(CellsNamed(t, x.value), Numbers(CellsNamed(t, y.value)), r.means[i].0, lo, hi);
  }

  /** The count bars count every row once, nulls included, and list every value of `x`. */
  lemma CountBarsMeaning(t: Table, x: Option<string>, y: Option<string>)
    requires WellFormed(t)
    requires BuildBar(t, x, y).CountBars?
    ensures var r := BuildBar(t, x, y);
      var xs := CellsNamed(t, x.value);
      && Total(r.counts) == |t.rows|
      && SortedBy(r.counts, ByCountDescending)
      && (forall e :: e in r.counts ==> e.0 in xs && e.1 == CountOf(xs, e.0))
      && (forall c :: c in xs ==> (c, CountOf(xs, c)) in r.counts)
  {
    ValueCountsMeaning(CellsNamed(t, x.value));
  }

  /** `_build_pie(df, pie_col)`: the value counts of the column, nulls included, or empty. */
  function BuildPie(t: Table, pie: Option<string>): (r: PieFigure)
    requires WellFormed(t)
    ensures r.CountPie? <==> Present(t, pie)
    ensures r.CountPie? ==> Total(r.counts) == |t.rows| && SortedBy(r.counts, ByCountDescending)
    ensures r.CountPie? ==> forall k :: k in CellsNamed(t, pie.value) ==> (k, CountOf(CellsNamed(t, pie.value), k)) in r.counts
  {
    if Present(t, pie) then
      ValueCountsMeaning(CellsNamed(t, pie.value));
      CountPie(pie.value, ValueCounts(CellsNamed(t, pie.value)))
    else EmptyPie
  }

  /**
   * `_build_pie` as written: the counts of a column named `count` form a
   * Series named `count` indexed by `count`, and `reset_index()` raises.
   */
  function BuildPieAsWritten(t: Table, pie: Option<string>): (r: Result<PieFigure>)
    requires WellFormed(t)
    ensures r.Failure? <==> Present(t, pie) && pie.value == COUNT_NAME
    ensures r.Success? ==> r.value == BuildPie(t, pie)
  {
    if Present(t, pie) && pie.value == COUNT_NAME then Failure("ValueError: cannot insert count, already exists")
    else Success(BuildPie(t, pie))
  }

  /* ---------------- the callback ---------------- */

  /** `df.empty`: no row or no column. */
  predicate IsEmpty(t: Table) {
    t.rows == [] || t.columns == []
  }

  /**
   * The table the charts of `render_figures` are drawn from: none without
   * data, without active columns or when the subset is empty; otherwise the
   * subset, filtered by value (the sentinel meaning "all") and then by year.
   * The year filter is the repaired one of services/transforms.py.
   */
  function ChartFrame(show: Cell -> string, parse: string -> NumParse, data: Option<Table>, active: seq<string>,
                      filterCol: Option<string>, filterVal: Option<string>, timeCol: Option<string>, years: YearsArg,
                      allSentinel: string): (r: Option<Table>)
    requires data.Some? ==> WellFormed(data.value)
    ensures data.None? || active == [] ==> r.None?
    ensures r.Some? ==> WellFormed(r.value)
    ensures r.Some? ==>
      var s := SubsetActive(data.value, active);
      && !IsEmpty(s) && r.value.columns == s.columns
      && forall row :: row in r.value.rows <==>
           && row in s.rows
           && (ValueFilterSkips(s, filterCol, filterVal, Some(allSentinel))
               || AsString(show, row[ColumnIndex(s, filterCol.value).value]) == filterVal.value)
           && (YearFilterSkips(s, timeCol, years)
               || (var j := ColumnIndex(s, timeCol.value).value;
                   var year := CellYear(parse, s.columns[j].dtype, row[j]);
                   year.Some? && year.value in DigitYears(AsList(years))))
  {
    if data.None? || active == [] then None
    else
      var s := SubsetActive(data.value, active);
      if IsEmpty(s) then None
      else
        FilteredRows(show, parse, s, filterCol, filterVal, timeCol, years, allSentinel);
        Some(ApplyYearFilter(parse, ApplyValueFilter(show, s, filterCol, filterVal, Some(allSentinel)), timeCol, years))
  }

  /** The value filter and then the year filter keep exactly the rows that pass both. */
  lemma FilteredRows(show: Cell -> string, parse: string -> NumParse, s: Table,
                     filterCol: Option<string>, filterVal: Option<string>, timeCol: Option<string>, years: YearsArg,
                     allSentinel: string)
    requires WellFormed(s)
    ensures var f := ApplyYearFilter(parse, ApplyValueFilter(show, s, filterCol, filterVal, Some(allSentinel)), timeCol, years);
      forall row :: row in f.rows <==>
        && row in s.rows
        && (ValueFilterSkips(s, filterCol, filterVal, Some(allSentinel))
            || AsString(show, row[ColumnIndex(s, filterCol.value).value]) == filterVal.value)
        && (YearFilterSkips(s, timeCol, years)
            || (var j := ColumnIndex(s, timeCol.value).value;
                var year := CellYear(parse, s.columns[j].dtype, row[j]);
                year.Some? && year.value in DigitYears(AsList(years))))
  {
    var v := ApplyValueFilter(show, s, filterCol, filterVal, Some(allSentinel));
    if !ValueFilterSkips(s, filterCol, filterVal, Some(allSentinel)) {
      ValueFilterMeaning(show, s, filterCol, filterVal, Some(allSentinel));
    }
    if !YearFilterSkips(v, timeCol, years) {
      YearFilterMeaning(parse, v, timeCol, years);
    }
  }

  /**
   * `render_figures(...)`: three empty figures when there is no table to
   * draw from; otherwise the map (hovering on `x_col`), bar and pie of it.
   */
  function RenderFigures(show: Cell -> string, parse: string -> NumParse, data: Option<Table>, active: seq<string>,
                         filterCol: Option<string>, filterVal: Option<string>, x: Option<string>, y: Option<string>,
                         pie: Option<string>, timeCol: Option<string>, years: YearsArg, allSentinel: string): (r: Figures)
    requires data.Some? ==> WellFormed(data.value)
    ensures data.None? || active == [] ==> r == EMPTY_FIGURES
    ensures var f := ChartFrame(show, parse, data, active, filterCol, filterVal, timeCol, years, allSentinel);
      f.Some? ==> r == Figures(BuildMap(f.value, x), BuildBar(f.value, x, y), BuildPie(f.value, pie))
  {
    match ChartFrame(show, parse, data, active, filterCol, filterVal, timeCol, years, allSentinel)
    case None => EMPTY_FIGURES
    case Some(f) => Figures(BuildMap(f, x), BuildBar(f, x, y), BuildPie(f, pie))
  }

  /** Every pie and count bar counts the rows left after both filters, each once. */
  lemma RenderCountsFilteredRows(show: Cell -> string, parse: string -> NumParse, data: Option<Table>, active: seq<string>,
                                 filterCol: Option<string>, filterVal: Option<string>, x: Option<string>, y: Option<string>,
                                 pie: Option<string>, timeCol: Option<string>, years: YearsArg, allSentinel: string)
    requires data.Some? ==> WellFormed(data.value)
    ensures var f := ChartFrame(show, parse, data, active, filterCol, filterVal, timeCol, years, allSentinel);
      var r := RenderFigures(show, parse, data, active, filterCol, filterVal, x, y, pie, timeCol, years, allSentinel);
      && (r.bar.CountBars? ==> f.Some? && Total(r.bar.counts) == |f.value.rows|)
      && (r.pie.CountPie? ==> f.Some? && Total(r.pie.counts) == |f.value.rows|)
  {
    var f := ChartFrame(show, parse, data, active, filterCol, filterVal, timeCol, years, allSentinel);
    if f.Some? && BuildBar(f.value, x, y).CountBars? {
      CountBarsMeaning(f.value, x, y);
    }
  }
}
