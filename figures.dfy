/**
 * The data and decisions behind the figures of services/figures.py: which
 * figure is drawn from which rows, the grouped means and counts, the
 * year-axis heuristic, the bar sizing rules, the histogram bin count and the
 * colour mode of the map. Plotly itself is not modelled; each builder
 * returns the data and the choices it hands to Plotly.
 */
module Figures {
  import opened Seqs
  import opened Text
  import opened Frames
  import opened Helpers
  import opened Aggregate

  /* ---------------- numbers ---------------- */

  /** `round(0)` of a float: the nearest integer, ties to the even one. */
  function RoundHalfEven(x: real): (r: int)
    ensures x - 0.5 <= r as real <= x + 0.5
    ensures (r as real == x - 0.5 || r as real == x + 0.5) ==> r % 2 == 0
    ensures IsWhole(x) ==> r == x.Floor
  {
    var f := x.Floor;
    var d := x - f as real;
    if d < 0.5 then f
    else if d > 0.5 then f + 1
    else if f % 2 == 0 then f
    else f + 1
  }

  /** `astype(int)` of a float: truncation toward zero. */
  function Truncate(x: real): (r: int)
    ensures x >= 0.0 ==> 0 <= r && r as real <= x < r as real + 1.0
    ensures x < 0.0 ==> r <= 0 && r as real - 1.0 < x <= r as real
  {
    if x >= 0.0 then x.Floor else -((-x).Floor)
  }

  /** `pd.to_numeric(s, errors="coerce").dropna().astype(int)`, given the coerced values. */
  function Truncated(nums: seq<Option<real>>): (r: seq<int>)
    ensures forall y :: y in r <==> exists i :: 0 <= i < |nums| && nums[i].Some? && Truncate(nums[i].value) == y
  {
    if nums == [] then []
    else
      var init, last := nums[..|nums| - 1], nums[|nums| - 1];
      assert forall i :: 0 <= i < |init| ==> init[i] == nums[i];
      Truncated(init) + (if last.Some? then [Truncate(last.value)] else [])
  }

  /** `str(y)` of each integer, in order. */
  function Rendered(ys: seq<int>): (r: seq<string>)
    ensures |r| == |ys| && forall i :: 0 <= i < |ys| ==> r[i] == IntToString(ys[i])
  {
    seq(|ys|, i requires 0 <= i < |ys| => IntToString(ys[i]))
  }

  predicate InYearRange(y: int) {
    1800 <= y <= 2100
  }

  /**
   * `_lock_year_axis(fig, x_series)`: when the truncated numeric values of
   * the axis are not empty and all lie in [1800, 2100], the axis becomes
   * categorical with the distinct years, ascending, as its categories.
   */
  function LockYearAxis(nums: seq<Option<real>>): (r: Option<seq<string>>)
    ensures r.Some? <==> Truncated(nums) != [] && forall y :: y in Truncated(nums) ==> InYearRange(y)
  {
    var ys := Truncated(nums);
    if ys != [] && forall y :: y in ys ==> InYearRange(y) then Some(Rendered(SortUnique(ys, IntLess)))
    else None
  }

  /**
   * The categories are the decimal renderings of the distinct truncated
   * years, each once, in ascending order of the years they read back as.
   */
  lemma LockYearAxisMeaning(nums: seq<Option<real>>)
    requires LockYearAxis(nums).Some?
    ensures var cats, ys := LockYearAxis(nums).value, Truncated(nums);
      && (forall i :: 0 <= i < |cats| ==> IsDigits(cats[i]) && DigitsValue(cats[i]) in ys)
      && (forall y :: y in ys ==> NatToString(y) in cats)
      && (forall i, j :: 0 <= i < j < |cats| ==> DigitsValue(cats[i]) < DigitsValue(cats[j]))
  {
    var ys := Truncated(nums);
    var sorted := SortUnique(ys, IntLess);
    var cats := Rendered(sorted);
    IntLessIsStrictTotalOrder();
    SortUniqueSorted(ys, IntLess);
    forall i | 0 <= i < |cats| ensures IsDigits(cats[i]) && DigitsValue(cats[i]) == sorted[i] {
      assert sorted[i] in ys;
      NatToStringRoundTrip(sorted[i]);
    }
    forall y | y in ys ensures NatToString(y) in cats {
      var i :| 0 <= i < |sorted| && sorted[i] == y;
      assert cats[i] == NatToString(y);
    }
  }

  /* ---------------- bar chart ---------------- */

  const BAR_BASE_H: int := 360
  const BAR_PER_CAT: int := 22
  const BAR_MAX_H: int := 1600
  const BAR_TILT_TH: int := 12
  const BAR_HIDE_TXT: int := 28

  /** `min(_BAR_MAX_H, _BAR_BASE_H + _BAR_PER_CAT * n_cats)`. */
  function BarHeight(nCats: nat): (r: int)
    ensures BAR_BASE_H <= r <= BAR_MAX_H
    ensures r == BAR_MAX_H <==> nCats >= 57
    ensures nCats < 57 ==> r == BAR_BASE_H + BAR_PER_CAT * nCats
  {
    if BAR_BASE_H + BAR_PER_CAT * nCats < BAR_MAX_H then BAR_BASE_H + BAR_PER_CAT * nCats else BAR_MAX_H
  }

  /** More categories never make the bar chart shorter. */
  lemma BarHeightMonotone(a: nat, b: nat)
    requires a <= b
    ensures BarHeight(a) <= BarHeight(b)
  {
  }

  /**
   * The x column as the bar chart groups it: a numeric column without nulls
   * and with some value in [1800, 2100] becomes rounded whole-year text,
   * any other column `str` of each cell.
   */
  function BarKeys(show: Cell -> string, t: Table, x: string): (r: seq<string>)
    requires WellFormed(t)
    ensures |r| == |t.rows|
  {
    var cells := CellsNamed(t, x);
    if IsNumericColumn(t, x) && YearLike(cells) then
      seq(|cells|, i requires 0 <= i < |cells| => IntToString(RoundHalfEven(cells[i].x)))
    else
      seq(|cells|, i requires 0 <= i < |cells| => AsString(show, cells[i]))
  }

  /** `x_num.notna().all() and x_num.between(1800, 2100).any()` on a numeric column. */
  predicate YearLike(cells: seq<Cell>) {
    (forall i :: 0 <= i < |cells| ==> cells[i].Number?)
    && exists i :: 0 <= i < |cells| && 1800.0 <= cells[i].x <= 2100.0
  }

  /** Means of `y` per x text, or counts per x text. */
  datatype BarSeries = Means(means: seq<(string, Option<real>)>) | Counts(counts: seq<(string, nat)>)

  /**
   * What `build_bar` draws: the series, its number of categories, the
   * height, whether the x labels are tilted and the value labels hidden,
   * and the category axis `_lock_year_axis` forces, if any.
   */
  datatype BarFigure =
    | NoBar
    | Bar(series: BarSeries, nCats: nat, height: int, tilt: bool, hideValues: bool, yearAxis: Option<seq<string>>)

  /** The x texts of the bars, in drawing order. */
  function BarLabels(s: BarSeries): (r: seq<string>)
    ensures s.Means? ==> |r| == |s.means| && forall i :: 0 <= i < |r| ==> r[i] == s.means[i].0
    ensures s.Counts? ==> |r| == |s.counts| && forall i :: 0 <= i < |r| ==> r[i] == s.counts[i].0
  {
    match s
    case Means(ms) => seq(|ms|, i requires 0 <= i < |ms| => ms[i].0)
    case Counts(cs) => seq(|cs|, i requires 0 <= i < |cs| => cs[i].0)
  }

  /** How `pd.to_numeric` reads each bar label. */
  function ParsedLabels(parse: string -> NumParse, labels: seq<string>): (r: seq<Option<real>>)
    ensures |r| == |labels| && forall i :: 0 <= i < |r| ==> r[i] == ToNumeric(parse, Str(labels[i]))
  {
    seq(|labels|, i requires 0 <= i < |labels| => ToNumeric(parse, Str(labels[i])))
  }

  /**
   * `build_bar(df, x_col, y_col)`: nothing without an x column. Otherwise
   * the x column is turned into text (`BarKeys`); a numeric `y` other than
   * the x column itself gives the mean of `y` per x text, in ascending text
   * order; otherwise the counts per x text, larger counts first.
   */
  function BuildBar(show: Cell -> string, parse: string -> NumParse, t: Table, x: Option<string>, y: Option<string>): (r: BarFigure)
    requires WellFormed(t)
    ensures r.NoBar? <==> !Truthy(x) || !HasColumn(t, x.value)
    ensures r.Bar? ==> (r.series.Means? <==> y.Some? && y != x && IsNumericColumn(t, y.value))
    ensures r.Bar? ==>
      && r.nCats == |Dedup(BarKeys(show, t, x.value))|
      && r.height == BarHeight(r.nCats)
      && (r.tilt <==> r.nCats > BAR_TILT_TH)
      && (r.hideValues <==> r.nCats > BAR_HIDE_TXT)
      && r.yearAxis == LockYearAxis(ParsedLabels(parse, BarLabels(r.series)))
  {
    if !Truthy(x) || !HasColumn(t, x.value) then NoBar
    else
      var keys := BarKeys(show, t, x.value);
      var series :=
        if y.Some? && y != x && IsNumericColumn(t, y.value) then
          var groups := SortUnique(keys, LexLess);
          Means(GroupMeans(groups, keys, Numbers(CellsNamed(t, y.value))))
        else Counts(ValueCounts(keys));
      var nCats := |Dedup(keys)|;
      Bar(series, nCats, BarHeight(nCats), nCats > BAR_TILT_TH, nCats > BAR_HIDE_TXT,
          LockYearAxis(ParsedLabels(parse, BarLabels(series))))
  }
  /**
   * `build_bar` as written: in the count branch, an `x_col` named `count`
   * is the index of the Series `value_counts()` names `count`, and
   * `reset_index()` cannot insert that name a second time.
   */
  function BuildBarAsWritten(show: Cell -> string, parse: string -> NumParse, t: Table, x: Option<string>, y: Option<string>): (r: Result<BarFigure>)
    requires WellFormed(t)
    ensures r.Failure? <==>
      && Truthy(x) && HasColumn(t, x.value) && x.value == "count"
      && !(y.Some? && y != x && IsNumericColumn(t, y.value))
    ensures r.Success? ==> r.value == BuildBar(show, parse, t, x, y)
  {
    if Truthy(x) && HasColumn(t, x.value) && x.value == "count" && !(y.Some? && y != x && IsNumericColumn(t, y.value)) then
      Failure("ValueError: cannot insert count, already exists")
    else Success(BuildBar(show, parse, t, x, y))
  }


  /**
   * Mean bars: one per distinct x text, as many as the category count, in
   * strictly ascending text order, each with the mean of `y` over the rows
   * with that text.
   */
  lemma MeanBarsMeaning(show: Cell -> string, parse: string -> NumParse, t: Table, x: Option<string>, y: Option<string>)
    requires WellFormed(t)
    requires BuildBar(show, parse, t, x, y).Bar? && BuildBar(show, parse, t, x, y).series.Means?
    ensures var r := BuildBar(show, parse, t, x, y);
      var keys := BarKeys(show, t, x.value);
      && |BarLabels(r.series)| == r.nCats
      && (forall k :: k in keys <==> k in BarLabels(r.series))
      && StrictlySorted(BarLabels(r.series), LexLess)
      && forall i :: 0 <= i < |r.series.means| ==>
           r.series.means[i].1 == MeanOf(keys, Numbers(CellsNamed(t, y.value)), r.series.means[i].0)
  {
    var r := BuildBar(show, parse, t, x, y);
    var keys := BarKeys(show, t, x.value);
    var groups := SortUnique(keys, LexLess);
    LexLessIsStrictTotalOrder();
    SortUniqueSorted(keys, LexLess);
    assert BarLabels(r.series) == groups;
    SameElementsSameLength(groups, Dedup(keys));
  }

  /**
   * Count bars: one per distinct x text, as many as the category count,
   * larger counts first, adding up to the number of rows.
   */
  lemma CountBarsMeaning(show: Cell -> string, parse: string -> NumParse, t: Table, x: Option<string>, y: Option<string>)
    requires WellFormed(t)
    requires BuildBar(show, parse, t, x, y).Bar? && BuildBar(show, parse, t, x, y).series.Counts?
    ensures var r := BuildBar(show, parse, t, x, y);
      var keys := BarKeys(show, t, x.value);
      && |BarLabels(r.series)| == r.nCats
      && (forall k :: k in keys <==> k in BarLabels(r.series))
      && SortedBy(r.series.counts, ByCountDescending)
      && Total(r.series.counts) == |t.rows|
  {
    var r := BuildBar(show, parse, t, x, y);
    var keys := BarKeys(show, t, x.value);
    var counts := r.series.counts;
    var labels := BarLabels(r.series);
    ValueCountsMeaning(keys);
    forall k | k in keys ensures k in labels {
      var i :| 0 <= i < |counts| && counts[i] == (k, CountOf(keys, k));
      assert labels[i] == k;
    }
    forall k | k in labels ensures k in keys {
      var i :| 0 <= i < |labels| && labels[i] == k;
      assert counts[i] in counts;
    }
  }

  /** A year-like numeric x makes every bar text the rendering of a whole year. */
  lemma YearLikeKeys(show: Cell -> string, t: Table, x: string)
    requires WellFormed(t) && IsNumericColumn(t, x) && YearLike(CellsNamed(t, x))
    ensures forall k :: k in BarKeys(show, t, x) ==>
      exists i :: 0 <= i < |t.rows| && k == IntToString(RoundHalfEven(CellsNamed(t, x)[i].x))
  {
    var keys := BarKeys(show, t, x);
    forall k | k in keys ensures exists i :: 0 <= i < |t.rows| && k == IntToString(RoundHalfEven(CellsNamed(t, x)[i].x)) {
      var i :| 0 <= i < |keys| && keys[i] == k;
    }
  }

  /** Labels are hidden only on charts whose labels are tilted. */
  lemma HiddenValuesAreTilted(show: Cell -> string, parse: string -> NumParse, t: Table, x: Option<string>, y: Option<string>)
    requires WellFormed(t)
    requires BuildBar(show, parse, t, x, y).Bar? && BuildBar(show, parse, t, x, y).hideValues
    ensures BuildBar(show, parse, t, x, y).tilt
    ensures BuildBar(show, parse, t, x, y).height >= BAR_BASE_H + BAR_PER_CAT * 29
  {
  }

  /* ---------------- histogram ---------------- */

  /** `int(np.sqrt(n))`: the integer square root. */
  function ISqrt(n: nat): (r: nat)
    ensures r * r <= n < (r + 1) * (r + 1)
  {
    if n == 0 then 0
    else
      var s := ISqrt(n - 1);
      if (s + 1) * (s + 1) <= n then s + 1 else s
  }

  /** `max(5, min(60, n, n_unique))`. */
  function HistBins(count: nat, distinct: nat): (r: nat)
    ensures 5 <= r <= 60
    ensures distinct >= 5 && ISqrt(count) >= 5 ==> r <= distinct && r <= ISqrt(count)
  {
    var m := if 60 <= ISqrt(count) then 60 else ISqrt(count);
    var m2 := if m <= distinct then m else distinct;
    if m2 < 5 then 5 else m2
  }

  lemma {:induction false} MulLe(a: nat, b: nat, c: nat)
    requires a <= b
    ensures a * c <= b * c
  {
    if c > 0 {
      MulLe(a, b, c - 1);
      assert a * c == a * (c - 1) + a && b * c == b * (c - 1) + b;
    }
  }

  lemma SquareMono(a: nat, b: nat)
    requires a <= b
    ensures a * a <= b * b
  {
    MulLe(a, b, a);
    MulLe(a, b, b);
  }

  /** Enough values, all distinct enough, reach the cap of 60 bins; few distinct values keep the floor of 5. */
  lemma HistBinsExtremes(count: nat, distinct: nat)
    ensures count >= 3600 && distinct >= 60 ==> HistBins(count, distinct) == 60
    ensures distinct <= 5 ==> HistBins(count, distinct) == 5
  {
    var s := ISqrt(count);
    if count >= 3600 && s < 60 {
      SquareMono(s + 1, 60);
      assert false;
    }
  }

  /** The finite numeric values of a column (`pd.to_numeric(...)` then `np.isfinite`). */
  function FiniteValues(parse: string -> NumParse, cells: seq<Cell>): (r: seq<real>)
    ensures |r| <= |cells|
    ensures forall v :: v in r <==> exists i :: 0 <= i < |cells| && ToNumeric(parse, cells[i]) == Some(v)
  {
    if cells == [] then []
    else
      var init, last := cells[..|cells| - 1], cells[|cells| - 1];
      assert forall i :: 0 <= i < |init| ==> init[i] == cells[i];
      FiniteValues(parse, init) + (match ToNumeric(parse, last) case Some(v) => [v] case None => [])
  }

  /** What `build_hist` draws: the values and the number of bins. */
  datatype Histogram = NoHist | Hist(values: seq<real>, bins: nat)

  /**
   * `build_hist(df, col)`: nothing without the column or without a finite
   * value; otherwise the finite values with `HistBins` of their number and
   * of their number of distinct values.
   */
  function BuildHist(parse: string -> NumParse, t: Table, col: Option<string>): (r: Histogram)
    requires WellFormed(t)
    ensures r.NoHist? <==> !Truthy(col) || !HasColumn(t, col.value) || FiniteValues(parse, CellsNamed(t, col.value)) == []
    ensures r.Hist? ==> 5 <= r.bins <= 60 && r.values == FiniteValues(parse, CellsNamed(t, col.value))
    ensures r.Hist? ==> r.bins == HistBins(|r.values|, |Dedup(r.values)|)
  {
    if !Truthy(col) || !HasColumn(t, col.value) then NoHist
    else
      var vs := FiniteValues(parse, CellsNamed(t, col.value));
      if vs == [] then NoHist else Hist(vs, HistBins(|vs|, |Dedup(vs)|))
  }

  /** The bins never outnumber the distinct values unless the floor of 5 applies. */
  lemma HistBinsAtMostDistinct(parse: string -> NumParse, t: Table, col: Option<string>)
    requires WellFormed(t)
    requires BuildHist(parse, t, col).Hist?
    ensures var h := BuildHist(parse, t, col);
      h.bins <= |h.values| || h.bins == 5
    ensures var h := BuildHist(parse, t, col);
      h.bins > 5 ==> h.bins <= |Dedup(h.values)| && h.bins * h.bins <= |h.values|
  {
    var h := BuildHist(parse, t, col);
    var s := ISqrt(|h.values|);
    if h.bins > 5 {
      SquareMono(h.bins, s);
      MulLe(1, s, s);
    }
  }

  /* ---------------- box plot ---------------- */

  /** What `build_box` draws: every row, `y` against `x`. */
  datatype BoxFigure = NoBox | Box(x: string, y: string, rows: seq<seq<Cell>>)

  /** `build_box(df, x_col, y_col)`: both columns present and `y` numeric, or nothing. */
  function BuildBox(t: Table, x: Option<string>, y: Option<string>): (r: BoxFigure)
    ensures r.Box? <==> Truthy(x) && HasColumn(t, x.value) && Truthy(y) && HasColumn(t, y.value) && IsNumericColumn(t, y.value)
    ensures r.Box? ==> r.rows == t.rows && r.x == x.value && r.y == y.value
  {
    if !Truthy(x) || !HasColumn(t, x.value) || !Truthy(y) || !HasColumn(t, y.value) then NoBox
    else if !IsNumericColumn(t, y.value) then NoBox
    else Box(x.value, y.value, t.rows)
  }

  /* ---------------- line chart ---------------- */

  /** The month of a timestamp as one number, so that months order as they follow each other. */
  function MonthIndex(d: Date): int {
    d.year * 12 + (d.month - 1)
  }

  /**
   * The time key of a row: its month for a datetime column
   * (`dt.to_period("M")`, NaT has none), otherwise its value rounded to a
   * whole year (`to_numeric(...).round(0)`, null when it does not parse).
   */
  function TimeKey(parse: string -> NumParse, d: DType, c: Cell): (r: Option<int>)
    ensures d == DateTimeType ==> (r.Some? <==> c.Stamp?) && (c.Stamp? ==> r.value == MonthIndex(c.date))
    ensures d != DateTimeType ==> (r.Some? <==> ToNumeric(parse, c).Some?)
    ensures d != DateTimeType && r.Some? ==> r.value == RoundHalfEven(ToNumeric(parse, c).value)
  {
    if d == DateTimeType then (if c.Stamp? then Some(MonthIndex(c.date)) else None)
    else match ToNumeric(parse, c)
      case Some(x) => Some(RoundHalfEven(x))
      case None => None
  }

  function TimeKeys(parse: string -> NumParse, d: DType, cells: seq<Cell>): (r: seq<Option<int>>)
    ensures |r| == |cells| && forall i :: 0 <= i < |cells| ==> r[i] == TimeKey(parse, d, cells[i])
  {
    seq(|cells|, i requires 0 <= i < |cells| => TimeKey(parse, d, cells[i]))
  }

  /** The keys that are present, in row order (`dropna(subset=["__year"])`). */
  function PresentKeys(keys: seq<Option<int>>): (r: seq<int>)
    ensures forall k :: k in r <==> Some(k) in keys
  {
    if keys == [] then []
    else
      var init, last := keys[..|keys| - 1], keys[|keys| - 1];
      assert keys == init + [last];
      PresentKeys(init) + (if last.Some? then [last.value] else [])
  }

  /** What `build_line` draws: the mean of `y` per time key, in ascending key order. */
  datatype LineFigure = NoLine | Line(monthly: bool, points: seq<(int, Option<real>)>, yearAxis: Option<seq<string>>)

  /** The time keys of the points, in drawing order. */
  function PointKeys(points: seq<(int, Option<real>)>): (r: seq<int>)
    ensures |r| == |points| && forall i :: 0 <= i < |r| ==> r[i] == points[i].0
  {
    seq(|points|, i requires 0 <= i < |points| => points[i].0)
  }

  /**
   * `build_line(df, t_col, y_col)`: both columns present and `y` numeric,
   * or nothing. The rows are grouped by their time key (rows without one
   * are dropped) and each group gets the mean of `y`. The year-axis lock
   * sees the year labels read back as numbers and the month labels
   * (`2009-01`) as not numbers.
   */
  function BuildLine(parse: string -> NumParse, t: Table, tc: Option<string>, y: Option<string>): (r: LineFigure)
    requires WellFormed(t)
    ensures r.Line? <==> Truthy(tc) && HasColumn(t, tc.value) && Truthy(y) && HasColumn(t, y.value) && IsNumericColumn(t, y.value)
    ensures r.Line? ==> (r.monthly <==> DTypeOf(t, tc.value) == Some(DateTimeType))
    ensures r.Line? && r.monthly ==> r.yearAxis.None?
  {
    if !Truthy(tc) || !HasColumn(t, tc.value) || !Truthy(y) || !HasColumn(t, y.value) then NoLine
    else if !IsNumericColumn(t, y.value) then NoLine
    else
      var d := DTypeOf(t, tc.value).value;
      var keys := TimeKeys(parse, d, CellsNamed(t, tc.value));
      var groups := SortUnique(PresentKeys(keys), IntLess);
      var ys := Numbers(CellsNamed(t, y.value));
      var points := seq(|groups|, i requires 0 <= i < |groups| => (groups[i], MeanOf(keys, ys, Some(groups[i]))));
      var monthly := d == DateTimeType;
      Line(monthly, points, if monthly then None else LockYearAxis(seq(|groups|, i requires 0 <= i < |groups| => Some(groups[i] as real))))
  }

  /**
   * The points come in strictly ascending key order, one per key some row
   * has, each with the mean of `y` over the rows with that key.
   */
  lemma BuildLineMeaning(parse: string -> NumParse, t: Table, tc: Option<string>, y: Option<string>)
    requires WellFormed(t)
    requires BuildLine(parse, t, tc, y).Line?
    ensures var r := BuildLine(parse, t, tc, y);
      var keys := TimeKeys(parse, DTypeOf(t, tc.value).value, CellsNamed(t, tc.value));
      && (forall i, j :: 0 <= i < j < |r.points| ==> r.points[i].0 < r.points[j].0)
      && (forall k :: (exists i :: 0 <= i < |t.rows| && keys[i] == Some(k)) <==> k in PointKeys(r.points))
      && (forall i :: 0 <= i < |r.points| ==> r.points[i].1 == MeanOf(keys, Numbers(CellsNamed(t, y.value)), Some(r.points[i].0)))
  {
    var r := BuildLine(parse, t, tc, y);
    var keys := TimeKeys(parse, DTypeOf(t, tc.value).value, CellsNamed(t, tc.value));
    var groups := SortUnique(PresentKeys(keys), IntLess);
    IntLessIsStrictTotalOrder();
    SortUniqueSorted(PresentKeys(keys), IntLess);
    assert PointKeys(r.points) == groups;
  }

  /* ---------------- map colouring ---------------- */

  /**
   * How `build_map` colours the points: not at all, binary with the fixed
   * green/red map, on the continuous scale, or by category with or without
   * the fixed map.
   */
  datatype ColorMode = NoColor | BinaryFixed | Continuous | CategoryFixed | CategoryDefault

  /** The distinct numbers of a numeric column (`pd.unique(s.dropna())`). */
  function DistinctNumbers(cells: seq<Cell>): (r: seq<real>)
    ensures Distinct(r)
    ensures forall v :: v in r <==> Number(v) in cells
  {
    Dedup(NumbersPresent(cells))
  }

  function NumbersPresent(cells: seq<Cell>): (r: seq<real>)
    ensures forall v :: v in r <==> Number(v) in cells
  {
    if cells == [] then []
    else
      var init, last := cells[..|cells| - 1], cells[|cells| - 1];
      assert cells == init + [last];
      NumbersPresent(init) + (if last.Number? then [last.x] else [])
  }

  predicate ZeroOrOne(v: real) {
    v == 0.0 || v == 1.0
  }

  /**
   * The colour mode for column `color` of the located rows: binary when
   * the column is numeric with at most two distinct values, all 0 or 1;
   * continuous for any other numeric column; for any other column, the
   * fixed map when every non-null value reads "0" or "1".
   */
  function ColorModeOf(show: Cell -> string, geo: Table, color: Option<string>): (r: ColorMode)
    requires WellFormed(geo)
    ensures r.NoColor? <==> !Truthy(color) || !HasColumn(geo, color.value)
    ensures r.BinaryFixed? || r.Continuous? ==> IsNumericColumn(geo, color.value)
    ensures r.CategoryFixed? ==> forall c :: c in CellsNamed(geo, color.value) && !c.Missing? ==> AsString(show, c) in {"0", "1"}
  {
    if !Truthy(color) || !HasColumn(geo, color.value) then NoColor
    else
      var cells := CellsNamed(geo, color.value);
      if IsNumericColumn(geo, color.value) then
        var uniq := DistinctNumbers(cells);
        if |uniq| <= 2 && forall v :: v in uniq ==> ZeroOrOne(v) then BinaryFixed else Continuous
      else if forall c :: c in cells && !c.Missing? ==> AsString(show, c) in {"0", "1"} then CategoryFixed
      else CategoryDefault
  }

  /** A duplicate-free list of zeros and ones has at most two entries. */
  lemma ZeroOneAtMostTwo(vs: seq<real>)
    requires Distinct(vs) && forall v :: v in vs ==> ZeroOrOne(v)
    ensures |vs| <= 2
  {
    DistinctCardinality(vs);
    var elems := set v | v in vs;
    forall v | v in elems ensures v in {0.0, 1.0} {
      assert ZeroOrOne(v);
    }
    SetSizeMonotone(elems, {0.0, 1.0});
  }

  /**
   * A numeric colour column is drawn binary exactly when every non-null
   * value is 0 or 1, and on the continuous scale otherwise.
   */
  lemma NumericColorMode(show: Cell -> string, geo: Table, color: string)
    requires WellFormed(geo) && color != "" && HasColumn(geo, color) && IsNumericColumn(geo, color)
    ensures ColorModeOf(show, geo, Some(color)).BinaryFixed? <==>
      forall v :: Number(v) in CellsNamed(geo, color) ==> ZeroOrOne(v)
    ensures ColorModeOf(show, geo, Some(color)).Continuous? <==>
      exists v :: Number(v) in CellsNamed(geo, color) && !ZeroOrOne(v)
  {
    var uniq := DistinctNumbers(CellsNamed(geo, color));
    if forall v :: v in uniq ==> ZeroOrOne(v) {
      ZeroOneAtMostTwo(uniq);
    }
  }

  /** What `build_map` draws: the located rows, the hover column and the colour mode. */
  datatype MapFigure = NoMap | PointMap(points: seq<seq<Cell>>, hover: Option<string>, color: ColorMode)

  /**
   * `build_map(df, hover_col, color_col)`: nothing without both coordinate
   * columns or without a row that has both; otherwise the located rows,
   * coloured by `ColorModeOf` over them.
   */
  function BuildMap(show: Cell -> string, t: Table, hover: Option<string>, color: Option<string>): (r: MapFigure)
    requires WellFormed(t)
    ensures r.PointMap? <==> HasCoordinates(t) && exists row :: row in t.rows && Located(t, row)
    ensures r.PointMap? ==> forall row :: row in r.points <==> row in t.rows && Located(t, row)
    ensures r.PointMap? ==> (r.hover.Some? <==> hover.Some? && HasColumn(t, hover.value))
    ensures r.PointMap? ==> (r.color.NoColor? <==> !Truthy(color) || !HasColumn(t, color.value))
  {
    if !HasCoordinates(t) then NoMap
    else
      var rows := GeoRows(t);
      if rows == [] then NoMap
      else
        assert rows[0] in rows;
        var geo := Table(t.columns, rows);
        PointMap(rows, if hover.Some? && HasColumn(t, hover.value) then hover else None, ColorModeOf(show, geo, color))
  }
}
