/**
 * The table model shared by every component: a table is an ordered list of
 * named, typed columns and a list of rows of cells that share a positional
 * index. Behaviour that belongs to pandas or Python's libraries and is not
 * part of this model (how `str()` renders a value, how `pd.to_numeric` reads
 * one string, how a date string is parsed, the pyproj transform) enters the
 * model as function parameters.
 */
module Frames {
  import opened Seqs
  import opened Text

  datatype Result<T> = Success(value: T) | Failure(error: string)

  /** The pandas dtypes the model distinguishes. */
  datatype DType = IntType | FloatType | BoolType | StringType | ObjectType | DateTimeType

  datatype Date = Date(year: int, month: int, day: int)

  /** One cell: a null (`NaN`, `None`, `pd.NA`, `NaT`), a string, a finite number or a timestamp. */
  datatype Cell = Missing | Str(s: string) | Number(x: real) | Stamp(date: Date)

  datatype Column = Column(name: string, dtype: DType)

  datatype Table = Table(columns: seq<Column>, rows: seq<seq<Cell>>)

  /** What `pd.to_numeric` makes of one string: an error, NaN, or a finite number. */
  datatype NumParse = Unparseable | NaN | Finite(x: real)

  /** The value the UI uses for "no filtering" (`IDS.ALL_SENTINEL`). */
  const ALL_SENTINEL: string := "__ALL__"

  const LATITUDE: string := "latitude"
  const LONGITUDE: string := "longitude"

  /** Every row has one cell per column. */
  predicate WellFormed(t: Table) {
    forall r :: r in t.rows ==> |r| == |t.columns|
  }

  function Names(t: Table): (r: seq<string>)
    ensures |r| == |t.columns|
    ensures forall j :: 0 <= j < |r| ==> r[j] == t.columns[j].name
  {
    seq(|t.columns|, j requires 0 <= j < |t.columns| => t.columns[j].name)
  }

  /** `name in df.columns`. */
  predicate HasColumn(t: Table, name: string) {
    exists j :: 0 <= j < |t.columns| && t.columns[j].name == name
  }

  /** Both coordinate columns are in the table (`{"latitude", "longitude"}.issubset(df.columns)`). */
  predicate HasCoordinates(t: Table) {
    HasColumn(t, LATITUDE) && HasColumn(t, LONGITUDE)
  }

  /** The position of the first column called `name`. */
  function ColumnIndex(t: Table, name: string): (r: Option<nat>)
    ensures r.Some? <==> HasColumn(t, name)
    ensures r.Some? ==> r.value < |t.columns| && t.columns[r.value].name == name
    ensures r.Some? ==> forall j :: 0 <= j < r.value ==> t.columns[j].name != name
  {
    FirstIndex(t.columns, name, 0)
  }

  function FirstIndex(cols: seq<Column>, name: string, from: nat): (r: Option<nat>)
    requires from <= |cols|
    ensures r.Some? <==> exists j :: from <= j < |cols| && cols[j].name == name
    ensures r.Some? ==> from <= r.value < |cols| && cols[r.value].name == name
    ensures r.Some? ==> forall j :: from <= j < r.value ==> cols[j].name != name
    decreases |cols| - from
  {
    if from == |cols| then None
    else if cols[from].name == name then Some(from)
    else FirstIndex(cols, name, from + 1)
  }

  /** The cells of column `j`, one per row. */
  function ColumnCells(t: Table, j: nat): (r: seq<Cell>)
    requires WellFormed(t) && j < |t.columns|
    ensures |r| == |t.rows|
    ensures forall i :: 0 <= i < |t.rows| ==> r[i] == t.rows[i][j]
  {
    seq(|t.rows|, i requires 0 <= i < |t.rows| => (assert t.rows[i] in t.rows; t.rows[i][j]))
  }

  /** `pd.api.types.is_numeric_dtype` (booleans count as numeric). */
  predicate IsNumericDType(d: DType) {
    d == IntType || d == FloatType || d == BoolType
  }

  /** `pd.api.types.is_string_dtype`: the string dtype and the generic object dtype. */
  predicate IsStringDType(d: DType) {
    d == StringType || d == ObjectType
  }

  /** `pd.to_numeric(..., errors="coerce")` of one cell; None stands for NaN. */
  function ToNumeric(parse: string -> NumParse, c: Cell): (r: Option<real>)
    ensures c.Number? ==> r == Some(c.x)
    ensures c.Missing? ==> r == None
  {
    match c
    case Number(x) => Some(x)
    case Str(s) => (match parse(s) case Finite(x) => Some(x) case _ => None)
    case _ => None
  }

  /** A name that is set and not empty (`if name:`). */
  predicate Truthy(o: Option<string>) {
    o.Some? && o.value != ""
  }

  /** `df[name]`: the cells of the first column called `name` (nulls when there is none). */
  function CellsNamed(t: Table, name: string): (r: seq<Cell>)
    requires WellFormed(t)
    ensures |r| == |t.rows|
    ensures HasColumn(t, name) ==> r == ColumnCells(t, ColumnIndex(t, name).value)
  {
    match ColumnIndex(t, name)
    case Some(j) => ColumnCells(t, j)
    case None => Nulls(|t.rows|)
  }

  /** `dropna()` of one column. */
  function NonMissing(cells: seq<Cell>): (r: seq<Cell>)
    ensures |r| <= |cells|
    ensures forall c :: c in r <==> c in cells && !c.Missing?
  {
    if cells == [] then []
    else if cells[0].Missing? then NonMissing(cells[1..])
    else [cells[0]] + NonMissing(cells[1..])
  }

  /** `str(value)` of a non-null cell: a string is itself, anything else as `show` renders it. */
  function AsString(show: Cell -> string, c: Cell): string {
    match c
    case Str(s) => s
    case _ => show(c)
  }

  /* ---------------- building tables ---------------- */

  /** A column of `n` nulls. */
  function Nulls(n: nat): (r: seq<Cell>)
    ensures |r| == n && forall i :: 0 <= i < n ==> r[i] == Missing
  {
    seq(n, i => Missing)
  }

  /** The table whose column `k` holds `cells[k]` (a column-wise constructor). */
  function Tabulate(cols: seq<Column>, cells: seq<seq<Cell>>, height: nat): (r: Table)
    requires |cells| == |cols|
    requires forall k :: 0 <= k < |cells| ==> |cells[k]| == height
    ensures WellFormed(r) && r.columns == cols && |r.rows| == height
    ensures forall i, k :: 0 <= i < height && 0 <= k < |cols| ==> r.rows[i][k] == cells[k][i]
  {
    Table(cols, seq(height, i requires 0 <= i < height =>
      seq(|cols|, k requires 0 <= k < |cols| => cells[k][i])))
  }

  /** The table with its column names replaced, position by position. */
  function Rename(t: Table, names: seq<string>): (r: Table)
    requires |names| == |t.columns|
    ensures r.rows == t.rows && Names(r) == names
    ensures forall k :: 0 <= k < |names| ==> r.columns[k].dtype == t.columns[k].dtype
  {
    Table(seq(|names|, k requires 0 <= k < |names| => Column(names[k], t.columns[k].dtype)), t.rows)
  }

  /** `pd.concat([df, new], axis=1)` with one new column. */
  function AppendColumn(t: Table, col: Column, cells: seq<Cell>): (r: Table)
    requires WellFormed(t) && |cells| == |t.rows|
    ensures WellFormed(r) && r.columns == t.columns + [col] && |r.rows| == |t.rows|
    ensures forall i :: 0 <= i < |t.rows| ==> r.rows[i] == t.rows[i] + [cells[i]]
  {
    Table(t.columns + [col], seq(|t.rows|, i requires 0 <= i < |t.rows| => t.rows[i] + [cells[i]]))
  }

  /** The positions `k < n` with `p(k)`, ascending. */
  function IndicesWhere(n: nat, p: nat -> bool): (r: seq<nat>)
    ensures forall m :: 0 <= m < |r| ==> r[m] < n && p(r[m])
    ensures forall k :: 0 <= k < n && p(k) ==> k in r
    ensures forall a, b :: 0 <= a < b < |r| ==> r[a] < r[b]
    ensures |r| <= n
  {
    if n == 0 then []
    else if p(n - 1) then IndicesWhere(n - 1, p) + [n - 1]
    else IndicesWhere(n - 1, p)
  }

  /** The table restricted to the columns at positions `ks`, in that order. */
  function SelectColumns(t: Table, ks: seq<nat>): (r: Table)
    requires WellFormed(t)
    requires forall m :: 0 <= m < |ks| ==> ks[m] < |t.columns|
    ensures WellFormed(r) && |r.columns| == |ks| && |r.rows| == |t.rows|
    ensures forall m :: 0 <= m < |ks| ==> r.columns[m] == t.columns[ks[m]]
    ensures forall i, m :: 0 <= i < |t.rows| && 0 <= m < |ks| ==> r.rows[i][m] == t.rows[i][ks[m]]
  {
    Table(seq(|ks|, m requires 0 <= m < |ks| => t.columns[ks[m]]),
      seq(|t.rows|, i requires 0 <= i < |t.rows| =>
        assert t.rows[i] in t.rows;
        seq(|ks|, m requires 0 <= m < |ks| => t.rows[i][ks[m]])))
  }
}
