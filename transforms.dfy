/**
 * The row and column filters of services/transforms.py, applied to a table
 * before charts are drawn: keep the active columns, keep the rows whose
 * value in one column equals a chosen text, keep the rows whose year is one
 * of the chosen years.
 */
module Transforms {
  import opened Seqs
  import opened Text
  import opened Frames
  import opened Helpers

  /* ---------------- column subsetting ---------------- */

  /**
   * A column name `subset_to_active` keeps: an active column, a column of
   * `also_keep` that the table has, or a coordinate column when the table
   * has both.
   */
  predicate Kept(t: Table, active: seq<string>, alsoKeep: seq<string>, name: string) {
    || name in active
    || (HasCoordinates(t) && (name == LATITUDE || name == LONGITUDE))
    || (name in alsoKeep && HasColumn(t, name))
  }

  function KeepTest(t: Table, active: seq<string>, alsoKeep: seq<string>): nat -> bool {
    (k: nat) => k < |t.columns| && Kept(t, active, alsoKeep, t.columns[k].name)
  }

  /** The positions of the kept columns, in table order. */
  function KeptPositions(t: Table, active: seq<string>, alsoKeep: seq<string>): (ks: seq<nat>)
    ensures forall m :: 0 <= m < |ks| ==> ks[m] < |t.columns| && Kept(t, active, alsoKeep, t.columns[ks[m]].name)
    ensures forall k :: 0 <= k < |t.columns| && Kept(t, active, alsoKeep, t.columns[k].name) ==> k in ks
    ensures forall a, b :: 0 <= a < b < |ks| ==> ks[a] < ks[b]
  {
    IndicesWhere(|t.columns|, KeepTest(t, active, alsoKeep))
  }

  /**
   * `subset_to_active(df, active_cols, also_keep)`: the kept columns in table
   * order with every row; when no column is kept, every column with no row
   * (`df.iloc[0:0]`). A missing `active_cols` or `also_keep` is the empty list.
   */
  function SubsetToActive(t: Table, active: seq<string>, alsoKeep: seq<string>): (r: Table)
    requires WellFormed(t)
    ensures WellFormed(r)
    ensures KeptPositions(t, active, alsoKeep) == [] ==> r == Table(t.columns, [])
    ensures var ks := KeptPositions(t, active, alsoKeep);
      ks != [] ==>
        && |r.rows| == |t.rows| && |r.columns| == |ks|
        && (forall m :: 0 <= m < |ks| ==> r.columns[m] == t.columns[ks[m]])
        && (forall i, m :: 0 <= i < |t.rows| && 0 <= m < |ks| ==> r.rows[i][m] == t.rows[i][ks[m]])
  {
    var ks := KeptPositions(t, active, alsoKeep);
    if ks == [] then Table(t.columns, []) else SelectColumns(t, ks)
  }

  /** Selecting exactly the positions whose name passes `keep` selects exactly those names. */
  lemma SelectedNames(t: Table, ks: seq<nat>, keep: string -> bool)
    requires WellFormed(t)
    requires forall m :: 0 <= m < |ks| ==> ks[m] < |t.columns| && keep(t.columns[ks[m]].name)
    requires forall k :: 0 <= k < |t.columns| && keep(t.columns[k].name) ==> k in ks
    ensures forall c :: HasColumn(SelectColumns(t, ks), c) <==> HasColumn(t, c) && keep(c)
  {
    var r := SelectColumns(t, ks);
    forall c | HasColumn(r, c) ensures HasColumn(t, c) && keep(c) {
      var m :| 0 <= m < |r.columns| && r.columns[m].name == c;
      assert t.columns[ks[m]].name == c;
    }
    forall c | HasColumn(t, c) && keep(c) ensures HasColumn(r, c) {
      var k :| 0 <= k < |t.columns| && t.columns[k].name == c;
      var m :| 0 <= m < |ks| && ks[m] == k;
      assert r.columns[m].name == c;
    }
  }

  /**
   * When some column is kept, the result has exactly the kept columns; when
   * none is, it has no row. Active columns and, when both exist, the
   * coordinate columns always survive.
   */
  lemma SubsetToActiveMeaning(t: Table, active: seq<string>, alsoKeep: seq<string>)
    requires WellFormed(t)
    ensures var r := SubsetToActive(t, active, alsoKeep);
      && ((exists k :: 0 <= k < |t.columns| && Kept(t, active, alsoKeep, t.columns[k].name)) ==>
            forall c :: HasColumn(r, c) <==> HasColumn(t, c) && Kept(t, active, alsoKeep, c))
      && ((forall k :: 0 <= k < |t.columns| ==> !Kept(t, active, alsoKeep, t.columns[k].name)) ==> r.rows == [])
      && (forall c :: c in active && HasColumn(t, c) ==> HasColumn(r, c))
      && (HasCoordinates(t) ==> HasCoordinates(r))
  {
    var ks := KeptPositions(t, active, alsoKeep);
    if ks != [] {
      SelectedNames(t, ks, name => Kept(t, active, alsoKeep, name));
      assert Kept(t, active, alsoKeep, t.columns[ks[0]].name);
      assert forall c :: c in active ==> Kept(t, active, alsoKeep, c);
      if HasCoordinates(t) {
        assert Kept(t, active, alsoKeep, LATITUDE) && Kept(t, active, alsoKeep, LONGITUDE);
      }
    } else {
      forall c | HasColumn(t, c) ensures !Kept(t, active, alsoKeep, c) {
        var k :| 0 <= k < |t.columns| && t.columns[k].name == c;
        assert k !in ks;
      }
    }
  }

  /* ---------------- value filter ---------------- */

  /** The row's cell at position `j`, as text, equals `v` (`df[col].astype(str) == str(val)`). */
  function ValueTest(show: Cell -> string, j: nat, v: string): seq<Cell> -> bool {
    row => j < |row| && AsString(show, row[j]) == v
  }

  /** The cases in which `apply_value_filter` hands the table back unchanged. */
  predicate ValueFilterSkips(t: Table, col: Option<string>, val: Option<string>, allToken: Option<string>) {
    !Truthy(col) || val.None? || !HasColumn(t, col.value) || (allToken.Some? && val == allToken)
  }

  /**
   * `apply_value_filter(df, col, val, all_token)`: the rows whose `col` cell
   * reads as `val`, unless there is no column, no value, or the value is the
   * "all" token.
   */
  function ApplyValueFilter(show: Cell -> string, t: Table, col: Option<string>, val: Option<string>, allToken: Option<string>): (r: Table)
    requires WellFormed(t)
    ensures WellFormed(r) && r.columns == t.columns
    ensures ValueFilterSkips(t, col, val, allToken) ==> r == t
  {
    if !Truthy(col) || val.None? || !HasColumn(t, col.value) then t
    else if allToken.Some? && val.value == allToken.value then t
    else Table(t.columns, Filter(t.rows, ValueTest(show, ColumnIndex(t, col.value).value, val.value)))
  }

  /**
   * Otherwise the result keeps, in their order, exactly the rows whose cell
   * in the first column called `col` reads as `val`.
   */
  lemma ValueFilterMeaning(show: Cell -> string, t: Table, col: Option<string>, val: Option<string>, allToken: Option<string>)
    requires WellFormed(t)
    requires !ValueFilterSkips(t, col, val, allToken)
    ensures var r := ApplyValueFilter(show, t, col, val, allToken);
      var j := ColumnIndex(t, col.value).value;
      && SubsequenceOf(r.rows, t.rows)
      && (forall row :: row in r.rows <==> row in t.rows && AsString(show, row[j]) == val.value)
  {
    var j := ColumnIndex(t, col.value).value;
    var test := ValueTest(show, j, val.value);
    FilterSubsequence(t.rows, test);
    FilterComplete(t.rows, test);
  }

  /** Filtering again by the same value changes nothing. */
  lemma ValueFilterIdempotent(show: Cell -> string, t: Table, col: Option<string>, val: Option<string>, allToken: Option<string>)
    requires WellFormed(t)
    ensures var r := ApplyValueFilter(show, t, col, val, allToken);
      ApplyValueFilter(show, r, col, val, allToken) == r
  {
    if !ValueFilterSkips(t, col, val, allToken) {
      var j := ColumnIndex(t, col.value).value;
      FilterIdempotent(t.rows, ValueTest(show, j, val.value));
    }
  }

  /* ---------------- year filter ---------------- */

  /** One entry of the `years` argument: a number or a string. */
  datatype YearItem = ItemInt(n: int) | ItemStr(s: string)

  /** The `years` argument: None, a single value, or a list of values. */
  datatype YearsArg = NoYears | Single(item: YearItem) | Many(items: seq<YearItem>)

  /** `not years`: None, the empty list, the number 0 and the empty string are falsy. */
  predicate YearsFalsy(years: YearsArg) {
    match years
    case NoYears => true
    case Many(items) => items == []
    case Single(ItemInt(n)) => n == 0
    case Single(ItemStr(s)) => s == ""
  }

  /** `isinstance(years, list) and ALL_SENTINEL in years`: only a list can select "all". */
  predicate SelectsAll(years: YearsArg) {
    years.Many? && ItemStr(ALL_SENTINEL) in years.items
  }

  /** `if not isinstance(years, list): years = [years]` (None, being falsy, never gets here). */
  function AsList(years: YearsArg): (r: seq<YearItem>)
    ensures years.Many? ==> r == years.items
    ensures years.Single? ==> r == [years.item]
  {
    match years
    case NoYears => [ItemStr("None")]
    case Single(item) => [item]
    case Many(items) => items
  }

  /** `int(y) if str(y).isdigit()`: non-negative numbers and ASCII digit strings. */
  function ItemYear(item: YearItem): (r: Option<int>)
    ensures r.Some? ==> r.value >= 0
  {
    match item
    case ItemInt(n) => if n >= 0 then Some(n) else None
    case ItemStr(s) => if IsDigits(s) then Some(DigitsValue(s) as int) else None
  }

  /** `[int(y) for y in years if str(y).isdigit()]`. */
  function DigitYears(items: seq<YearItem>): (r: seq<int>)
    ensures |r| <= |items|
    ensures forall y :: y in r <==> exists i :: 0 <= i < |items| && ItemYear(items[i]) == Some(y)
  {
    if items == [] then []
    else
      var rest := DigitYears(items[1..]);
      assert forall i :: 0 <= i < |items[1..]| ==> items[1..][i] == items[i + 1];
      match ItemYear(items[0])
      case Some(y) => [y] + rest
      case None => rest
  }

  /** A year written out in decimal is read back as that year. */
  lemma DigitYearsReadsRendered(y: nat)
    ensures DigitYears([ItemStr(NatToString(y))]) == [y]
  {
    NatToStringRoundTrip(y);
    assert [ItemStr(NatToString(y))][1..] == [];
  }

  /**
   * The year a row's time cell stands for, as `extract_years` derives it: the
   * year of a timestamp in a datetime column, otherwise the cell as a number
   * when it is a whole number; None when it has no year.
   */
  function CellYear(parse: string -> NumParse, d: DType, c: Cell): (r: Option<int>)
    ensures d == DateTimeType ==> (r.Some? <==> c.Stamp?)
    ensures d != DateTimeType ==> (r.Some? <==> ToNumeric(parse, c).Some? && IsWhole(ToNumeric(parse, c).value))
    ensures d != DateTimeType && r.Some? ==> ToNumeric(parse, c) == Some(r.value as real)
  {
    if d == DateTimeType then (if c.Stamp? then Some(c.date.year) else None)
    else match ToNumeric(parse, c)
      case Some(x) => if IsWhole(x) then Some(x.Floor) else None
      case None => None
  }

  /**
   * When `extract_years` succeeds on the column, the years it lists are
   * exactly the years of the column's cells.
   */
  lemma CellYearAgreesWithExtractYears(parse: string -> NumParse, t: Table, name: string)
    requires WellFormed(t) && HasColumn(t, name)
    requires ExtractYears(parse, t, name).Success?
    ensures var j := ColumnIndex(t, name).value;
      forall y :: y in ExtractYears(parse, t, name).value <==>
        exists i :: 0 <= i < |t.rows| && CellYear(parse, t.columns[j].dtype, t.rows[i][j]) == Some(y)
  {
    var j := ColumnIndex(t, name).value;
    var d := t.columns[j].dtype;
    var cells := CellsNamed(t, name);
    if d != DateTimeType {
      NumericYearsMeaning(parse, cells);
      forall i | 0 <= i < |t.rows| && ToNumeric(parse, cells[i]).Some?
        ensures CellYear(parse, d, t.rows[i][j]) == Some(ToNumeric(parse, cells[i]).value.Floor)
      {
        assert IsWhole(ToNumeric(parse, cells[i]).value);
      }
    }
  }

  /** The row's year at position `j` is one of `wanted`. */
  function YearTest(parse: string -> NumParse, d: DType, j: nat, wanted: seq<int>): seq<Cell> -> bool {
    row => j < |row| && CellYear(parse, d, row[j]).Some? && CellYear(parse, d, row[j]).value in wanted
  }

  /** The cases in which `apply_year_filter` hands the table back unchanged. */
  predicate YearFilterSkips(t: Table, timeCol: Option<string>, years: YearsArg) {
    !Truthy(timeCol) || !HasColumn(t, timeCol.value) || YearsFalsy(years) || SelectsAll(years)
  }

  /**
   * `apply_year_filter(df, time_col, years)` AS WRITTEN: once its guards pass,
   * it calls `extract_years(df[time_col])`, one argument short of the
   * helper's `(df, time_col)`, and so raises instead of filtering.
   */
  function ApplyYearFilterAsWritten(t: Table, timeCol: Option<string>, years: YearsArg): (r: Result<Table>)
    ensures r.Failure? <==> !YearFilterSkips(t, timeCol, years)
    ensures r.Success? ==> r.value == t
  {
    if !Truthy(timeCol) || !HasColumn(t, timeCol.value) || YearsFalsy(years) then Success(t)
    else if SelectsAll(years) then Success(t)
    else Failure("TypeError: extract_years() missing 1 required positional argument: 'time_col'")
  }

  /**
   * `apply_year_filter` as intended: the rows whose year (by `CellYear`) is
   * one of the digit years given; a row with no year is dropped.
   */
  function ApplyYearFilter(parse: string -> NumParse, t: Table, timeCol: Option<string>, years: YearsArg): (r: Table)
    requires WellFormed(t)
    ensures WellFormed(r) && r.columns == t.columns
    ensures YearFilterSkips(t, timeCol, years) ==> r == t
  {
    if !Truthy(timeCol) || !HasColumn(t, timeCol.value) || YearsFalsy(years) then t
    else if SelectsAll(years) then t
    else
      var wanted := DigitYears(AsList(years));
      var j := ColumnIndex(t, timeCol.value).value;
      Table(t.columns, Filter(t.rows, YearTest(parse, t.columns[j].dtype, j, wanted)))
  }

  /**
   * Otherwise the result keeps, in order, exactly the rows whose year is one
   * of the digit years; when no entry is a digit year, no row survives.
   */
  lemma YearFilterMeaning(parse: string -> NumParse, t: Table, timeCol: Option<string>, years: YearsArg)
    requires WellFormed(t)
    requires !YearFilterSkips(t, timeCol, years)
    ensures var r := ApplyYearFilter(parse, t, timeCol, years);
      var j := ColumnIndex(t, timeCol.value).value;
      var wanted := DigitYears(AsList(years));
      && SubsequenceOf(r.rows, t.rows)
      && (forall row :: row in r.rows <==>
            row in t.rows && CellYear(parse, t.columns[j].dtype, row[j]).Some?
            && CellYear(parse, t.columns[j].dtype, row[j]).value in wanted)
      && (wanted == [] ==> r.rows == [])
  {
    var j := ColumnIndex(t, timeCol.value).value;
    var wanted := DigitYears(AsList(years));
    var test := YearTest(parse, t.columns[j].dtype, j, wanted);
    FilterSubsequence(t.rows, test);
    FilterComplete(t.rows, test);
    FilterExtremes(t.rows, test);
  }

  /** The value filter and the year filter give the same rows in either order. */
  lemma FiltersCommute(show: Cell -> string, parse: string -> NumParse, t: Table,
                       col: Option<string>, val: Option<string>, allToken: Option<string>,
                       timeCol: Option<string>, years: YearsArg)
    requires WellFormed(t)
    ensures ApplyYearFilter(parse, ApplyValueFilter(show, t, col, val, allToken), timeCol, years)
         == ApplyValueFilter(show, ApplyYearFilter(parse, t, timeCol, years), col, val, allToken)
  {
    if !ValueFilterSkips(t, col, val, allToken) && !YearFilterSkips(t, timeCol, years) {
      var p := ValueTest(show, ColumnIndex(t, col.value).value, val.value);
      var j := ColumnIndex(t, timeCol.value).value;
      var q := YearTest(parse, t.columns[j].dtype, j, DigitYears(AsList(years)));
      FilterCommute(t.rows, p, q);
    }
  }
}
