/**
 * The preprocessing pipeline (`preprocess_dataframe`) and its helpers:
 * header normalisation, the date-name heuristic, casting objects to
 * strings, numeric coercion of string columns, the coordinate step,
 * empty-token normalisation and dropping all-null rows and columns.
 */
module Preprocessing {
  import opened Seqs
  import opened Text
  import opened Frames
  import opened HeaderNames

  const DATE_KEYWORDS: seq<string> := ["date", "pvm", "päivä", "timestamp", "datetime"]
  const EMPTY_TOKENS: seq<string> := ["", " ", "-", "NA", "N/A", "nan", "NaN"]
  const LAT_NAMES: seq<string> := ["lat", "latitude"]
  const LON_NAMES: seq<string> := ["lon", "long", "lng", "longitude"]
  const KKJ_X_TOKENS: seq<string> := ["kkjx", "kkj_x", "kkjx_coordinate"]
  const KKJ_Y_TOKENS: seq<string> := ["kkjy", "kkj_y", "kkjy_coordinate"]

  /** How many non-null values `_coerce_numbers_from_str` probes. */
  const SAMPLE_SIZE: nat := 200

  /**
   * `probe.notna().mean() >= thr` with the default `thr = 0.8`, stated
   * without division: at least four fifths of the sample parsed.
   */
  predicate ReachesThreshold(parsed: nat, sampled: nat) {
    5 * parsed >= 4 * sampled
  }

  /**
   * The library behaviour the pipeline calls: `_parse_dates` on one cell,
   * `str()` of a non-string value, `pd.to_numeric` of one string, whether
   * `pd.to_numeric` reads that string as an integer rather than a float, and the
   * EPSG:2393 to EPSG:4326 transform, mapping `(x, y)` to `(lon, lat)` or to
   * None for a non-finite result; `project` is None when building the
   * Transformer fails.
   */
  datatype Env = Env(
    parseDate: Cell -> Option<Date>,
    show: Cell -> string,
    parse: string -> NumParse,
    integral: string -> bool,
    project: Option<(real, real) -> Option<(real, real)>>)

  /* ---------------- the date-name heuristic ---------------- */

  /** `_is_likely_date`: the lower-cased name contains a date keyword. */
  function IsLikelyDate(name: string): (r: bool)
    ensures r <==> exists w :: w in DATE_KEYWORDS && Contains(Lower(name), w)
  {
    AnyContains(Lower(name), DATE_KEYWORDS)
  }

  lemma LowerAppend(a: string, b: string)
    ensures Lower(a + b) == Lower(a) + Lower(b)
  {
  }

  lemma ContainsExtends(s: string, w: string, u: string)
    requires Contains(s, w)
    ensures Contains(s + u, w) && Contains(u + s, w)
  {
    var i: nat :| i <= |s| && OccursAt(w, s, i);
    assert (s + u)[i..i + |w|] == s[i..i + |w|];
    assert OccursAt(w, s + u, i);
    assert (u + s)[|u| + i..|u| + i + |w|] == s[i..i + |w|];
    assert OccursAt(w, u + s, |u| + i);
  }

  /** Adding characters around a name never removes its date hint. */
  lemma LikelyDateExtends(name: string, prefix: string, suffix: string)
    requires IsLikelyDate(name)
    ensures IsLikelyDate(prefix + name + suffix)
  {
    var w :| w in DATE_KEYWORDS && Contains(Lower(name), w);
    LowerAppend(prefix, name);
    LowerAppend(prefix + name, suffix);
    ContainsExtends(Lower(name), w, Lower(prefix));
    ContainsExtends(Lower(prefix) + Lower(name), w, Lower(suffix));
  }

  /* ---------------- per-column steps ---------------- */

  /** One cell of `_parse_dates(series)`: nulls stay null, unparseable values become `NaT`. */
  function ParseDateCell(env: Env, c: Cell): Cell {
    if c.Missing? then Missing
    else match env.parseDate(c)
      case Some(d) => Stamp(d)
      case None => Missing
  }

  /** One cell of `astype(str)` / `astype("string")`: strings stay, nulls stay null. */
  function Render(env: Env, c: Cell): string {
    AsString(env.show, c)
  }

  function CastCell(env: Env, c: Cell): Cell {
    if c.Missing? then Missing else Str(Render(env, c))
  }

  /**
   * `_parse_dates(series)` with `errors="coerce"`: a null stays null, a value
   * the parser reads becomes that timestamp, and any other value becomes `NaT`.
   */
  function ParseDateCells(env: Env, cells: seq<Cell>): (r: seq<Cell>)
    ensures |r| == |cells|
    ensures forall i :: 0 <= i < |cells| ==> r[i].Missing? || r[i].Stamp?
    ensures forall i :: 0 <= i < |cells| && cells[i].Missing? ==> r[i] == Missing
    ensures forall i :: 0 <= i < |cells| && !cells[i].Missing? ==>
      r[i] == (if env.parseDate(cells[i]).Some? then Stamp(env.parseDate(cells[i]).value) else Missing)
  {
    seq(|cells|, i requires 0 <= i < |cells| => ParseDateCell(env, cells[i]))
  }

  /**
   * `astype("string")`: a null stays null, a string stays the same string,
   * and any other value becomes the string `str()` gives for it.
   */
  function CastCells(env: Env, cells: seq<Cell>): (r: seq<Cell>)
    ensures |r| == |cells|
    ensures forall i :: 0 <= i < |cells| ==> r[i].Missing? || r[i].Str?
    ensures forall i :: 0 <= i < |cells| ==> (r[i] == Missing <==> cells[i] == Missing)
    ensures forall i :: 0 <= i < |cells| && cells[i].Str? ==> r[i] == cells[i]
    ensures forall i :: 0 <= i < |cells| && !cells[i].Missing? && !cells[i].Str? ==> r[i] == Str(env.show(cells[i]))
  {
    seq(|cells|, i requires 0 <= i < |cells| => CastCell(env, cells[i]))
  }

  /** `col.dropna().astype(str).head(200)`. */
  function Sample(env: Env, cells: seq<Cell>): (r: seq<string>)
    ensures |r| <= SAMPLE_SIZE && |r| <= |NonMissing(cells)|
    ensures |r| == 0 <==> NonMissing(cells) == []
    ensures forall i :: 0 <= i < |r| ==> r[i] == Render(env, NonMissing(cells)[i])
  {
    var present := NonMissing(cells);
    var head := if |present| <= SAMPLE_SIZE then present else present[..SAMPLE_SIZE];
    seq(|head|, i requires 0 <= i < |head| => Render(env, head[i]))
  }

  /** `pd.to_numeric` of one value after `str.replace(",", ".")`. */
  function Probe(env: Env, s: string): NumParse {
    env.parse(ReplaceChar(s, ',', '.'))
  }

  function CountFinite(ps: seq<NumParse>): (r: nat)
    ensures r <= |ps|
  {
    if ps == [] then 0 else (if ps[0].Finite? then 1 else 0) + CountFinite(ps[1..])
  }

  /** One cell of `pd.to_numeric(col.str.replace(",", "."), errors="coerce")`. */
  function ConvertCell(env: Env, c: Cell): Cell {
    match c
    case Str(s) => (match Probe(env, s) case Finite(x) => Number(x) case _ => Missing)
    case _ => Missing
  }

  function ConvertCells(env: Env, cells: seq<Cell>): (r: seq<Cell>)
    ensures |r| == |cells| && forall i :: 0 <= i < |cells| ==> r[i] == ConvertCell(env, cells[i])
  {
    seq(|cells|, i requires 0 <= i < |cells| => ConvertCell(env, cells[i]))
  }

  function Probes(env: Env, sample: seq<string>): (r: seq<NumParse>)
    ensures |r| == |sample| && forall i :: 0 <= i < |sample| ==> r[i] == Probe(env, sample[i])
  {
    seq(|sample|, i requires 0 <= i < |sample| => Probe(env, sample[i]))
  }

  /** `pd.to_numeric(sample)` raises: some probed value does not parse. */
  predicate AnyUnparseable(probe: seq<NumParse>) {
    exists i :: 0 <= i < |probe| && probe[i].Unparseable?
  }

  /** A value `pd.to_numeric` reads as a finite float rather than as an integer. */
  predicate ReadsAsFloat(env: Env, c: Cell) {
    c.Str? && Probe(env, c.s).Finite? && !env.integral(ReplaceChar(c.s, ',', '.'))
  }

  /**
   * The dtype of `pd.to_numeric(..., errors="coerce")`: an integer column
   * unless some value reads as a float. From the nullable `string` dtype the
   * nulls are masked (`Int64`); from the `object` dtype a null forces floats.
   */
  function ConvertedDType(env: Env, dtype: DType, cells: seq<Cell>): (r: DType)
    ensures IsNumericDType(r) && r != BoolType
  {
    if exists i :: 0 <= i < |cells| && ReadsAsFloat(env, cells[i]) then FloatType
    else if dtype == ObjectType && exists i :: 0 <= i < |cells| && ConvertCell(env, cells[i]) == Missing then FloatType
    else IntType
  }

  /** The column `_coerce_numbers_from_str` returns when it converts. */
  function Converted(env: Env, col: Column, cells: seq<Cell>): (r: (Column, seq<Cell>))
    ensures r.0.name == col.name && IsNumericDType(r.0.dtype) && |r.1| == |cells|
    ensures forall i :: 0 <= i < |cells| ==> r.1[i].Missing? || r.1[i].Number?
  {
    (Column(col.name, ConvertedDType(env, col.dtype, cells)), ConvertCells(env, cells))
  }

  /**
   * `_coerce_numbers_from_str(col)`: the early returns for a non-string
   * column, an empty sample and a sample `pd.to_numeric` rejects, then the
   * share test that converts the whole column.
   */
  function CoerceNumbersFromStr(env: Env, col: Column, cells: seq<Cell>): (r: (Column, seq<Cell>))
    ensures r.0.name == col.name && |r.1| == |cells|
  {
    if !IsStringDType(col.dtype) then (col, cells)
    else
      var sample := Sample(env, cells);
      if sample == [] then (col, cells)
      else
        var probe := Probes(env, sample);
        if AnyUnparseable(probe) then (col, cells)
        else if ReachesThreshold(CountFinite(probe), |sample|) then
          Converted(env, col, cells)
        else (col, cells)
  }

  /** `{t.strip() for t in EMPTY_TOKENS}`, as a list. */
  function StripAll(ts: seq<string>): (r: seq<string>)
    ensures |r| == |ts| && forall i :: 0 <= i < |ts| ==> r[i] == Strip(ts[i])
  {
    seq(|ts|, i requires 0 <= i < |ts| => Strip(ts[i]))
  }

  /** `normalize_value`: a string whose stripped value is an empty token becomes null. */
  function NormalizeValue(c: Cell): (r: Cell)
    ensures r == Missing <==> c == Missing || (c.Str? && exists t :: t in EMPTY_TOKENS && Strip(c.s) == Strip(t))
    ensures r != Missing ==> r == c
  {
    var tokens := StripAll(EMPTY_TOKENS);
    assert forall t :: t in EMPTY_TOKENS ==> Strip(t) in tokens by {
      forall t | t in EMPTY_TOKENS ensures Strip(t) in tokens {
        var i :| 0 <= i < |EMPTY_TOKENS| && EMPTY_TOKENS[i] == t;
        assert tokens[i] == Strip(t);
      }
    }
    if c.Str? && Strip(c.s) in tokens then Missing else c
  }

  function NormalizeCells(cells: seq<Cell>): (r: seq<Cell>)
    ensures |r| == |cells| && forall i :: 0 <= i < |cells| ==> r[i] == NormalizeValue(cells[i])
  {
    seq(|cells|, i requires 0 <= i < |cells| => NormalizeValue(cells[i]))
  }

  /** The pipeline steps that rewrite every column on its own. */
  datatype Step = ParseDates | CastObjects | CoerceNumbers | NormalizeEmpty

  /** What one step does to one column. */
  function Transform(step: Step, env: Env, col: Column, cells: seq<Cell>): (r: (Column, seq<Cell>))
    ensures r.0.name == col.name && |r.1| == |cells|
  {
    match step
    case ParseDates =>
      if IsLikelyDate(col.name) then
        (Column(col.name, DateTimeType), ParseDateCells(env, cells))
      else (col, cells)
    case CastObjects =>
      if col.dtype == ObjectType then
        (Column(col.name, StringType), CastCells(env, cells))
      else (col, cells)
    case CoerceNumbers =>
      CoerceNumbersFromStr(env, col, cells)
    case NormalizeEmpty =>
      if IsStringDType(col.dtype) then
        (col, NormalizeCells(cells))
      else (col, cells)
  }

  /** A rewrite of one column that keeps its name and its height, as every step does. */
  ghost predicate KeepsShape(f: (Column, seq<Cell>) -> (Column, seq<Cell>)) {
    forall col, cells :: f(col, cells).0.name == col.name && |f(col, cells).1| == |cells|
  }

  /** The step as a function of one column. */
  function StepFn(step: Step, env: Env): (r: (Column, seq<Cell>) -> (Column, seq<Cell>))
    ensures KeepsShape(r)
  {
    (col, cells) => Transform(step, env, col, cells)
  }

  /** The column `k` of `t` after `f`, for `k < j`, and as it is otherwise. */
  function StepColumn(f: (Column, seq<Cell>) -> (Column, seq<Cell>), t: Table, j: nat, k: nat): (r: (Column, seq<Cell>))
    requires KeepsShape(f) && WellFormed(t) && k < |t.columns|
    ensures r.0.name == t.columns[k].name && |r.1| == |t.rows|
  {
    if k < j then f(t.columns[k], ColumnCells(t, k)) else (t.columns[k], ColumnCells(t, k))
  }

  /** The table whose first `j` columns have been rewritten by `f`. */
  function StepPrefix(f: (Column, seq<Cell>) -> (Column, seq<Cell>), t: Table, j: nat): (r: Table)
    requires KeepsShape(f) && WellFormed(t)
    ensures WellFormed(r) && |r.columns| == |t.columns| && |r.rows| == |t.rows|
    ensures forall k :: 0 <= k < |t.columns| ==> r.columns[k] == StepColumn(f, t, j, k).0
    ensures forall i, k :: 0 <= i < |t.rows| && 0 <= k < |t.columns| ==>
      r.rows[i][k] == StepColumn(f, t, j, k).1[i]
  {
    var res := seq(|t.columns|, k requires 0 <= k < |t.columns| => StepColumn(f, t, j, k));
    Tabulate(seq(|res|, k requires 0 <= k < |res| => res[k].0),
             seq(|res|, k requires 0 <= k < |res| => res[k].1), |t.rows|)
  }

  /** The table after `step` has rewritten every column. */
  function ApplyStep(step: Step, env: Env, t: Table): (r: Table)
    requires WellFormed(t)
    ensures WellFormed(r) && |r.columns| == |t.columns| && |r.rows| == |t.rows|
    ensures Names(r) == Names(t)
    ensures forall k :: 0 <= k < |t.columns| ==> r.columns[k] == Transform(step, env, t.columns[k], ColumnCells(t, k)).0
    ensures forall i, k :: 0 <= i < |t.rows| && 0 <= k < |t.columns| ==>
      r.rows[i][k] == Transform(step, env, t.columns[k], ColumnCells(t, k)).1[i]
  {
    StepPrefix(StepFn(step, env), t, |t.columns|)
  }

  lemma SameTable(a: Table, b: Table)
    requires WellFormed(a) && WellFormed(b) && a.columns == b.columns && |a.rows| == |b.rows|
    requires forall i, k :: 0 <= i < |a.rows| && 0 <= k < |a.columns| ==> a.rows[i][k] == b.rows[i][k]
    ensures a == b
  {
    forall i | 0 <= i < |a.rows| ensures a.rows[i] == b.rows[i] {
      assert a.rows[i] in a.rows && b.rows[i] in b.rows;
    }
  }

  lemma StepPrefixZero(f: (Column, seq<Cell>) -> (Column, seq<Cell>), t: Table)
    requires KeepsShape(f) && WellFormed(t)
    ensures StepPrefix(f, t, 0) == t
  {
    SameTable(StepPrefix(f, t, 0), t);
  }

  /** `df[c] = step(df[c])`: replace column `j` by its transformed version. */
  function ReplaceColumn(t: Table, j: nat, col: Column, cells: seq<Cell>): (r: Table)
    requires WellFormed(t) && j < |t.columns| && |cells| == |t.rows|
    ensures WellFormed(r) && r.columns == t.columns[j := col] && |r.rows| == |t.rows|
    ensures forall i :: 0 <= i < |t.rows| ==> r.rows[i] == t.rows[i][j := cells[i]]
  {
    Table(t.columns[j := col], seq(|t.rows|, i requires 0 <= i < |t.rows| =>
      assert t.rows[i] in t.rows;
      t.rows[i][j := cells[i]]))
  }

  lemma StepPrefixNext(f: (Column, seq<Cell>) -> (Column, seq<Cell>), t: Table, j: nat)
    requires KeepsShape(f) && WellFormed(t) && j < |t.columns|
    ensures var p := StepPrefix(f, t, j);
      var out := f(p.columns[j], ColumnCells(p, j));
      ReplaceColumn(p, j, out.0, out.1) == StepPrefix(f, t, j + 1)
  {
    var p := StepPrefix(f, t, j);
    assert ColumnCells(p, j) == ColumnCells(t, j);
    var out := f(t.columns[j], ColumnCells(t, j));
    var a := ReplaceColumn(p, j, out.0, out.1);
    var b := StepPrefix(f, t, j + 1);
    forall k | 0 <= k < |t.columns| ensures a.columns[k] == b.columns[k] {
    }
    SameTable(a, b);
  }

  /**
   * The column loop the source runs for numeric coercion (`for c in
   * df.columns: df[c] = ...`) and for `_normalize_empty_strings`: each
   * column is replaced in turn, and the result is the step applied to
   * every column.
   */
  method RewriteColumns(step: Step, env: Env, t: Table) returns (r: Table)
    requires WellFormed(t)
    ensures r == ApplyStep(step, env, t)
  {
    var f := StepFn(step, env);
    r := RewriteEach(f, t);
  }

  /** `for c in df.columns: df[c] = f(df[c])`. */
  method RewriteEach(f: (Column, seq<Cell>) -> (Column, seq<Cell>), t: Table) returns (r: Table)
    requires KeepsShape(f) && WellFormed(t)
    ensures r == StepPrefix(f, t, |t.columns|)
  {
    r := t;
    StepPrefixZero(f, t);
    for j := 0 to |t.columns|
      invariant r == StepPrefix(f, t, j)
    {
      r := RewriteColumn(f, t, j, r);
    }
  }

  /** One turn of the column loop: `df[c] = f(df[c])` for the `j`-th column. */
  method RewriteColumn(f: (Column, seq<Cell>) -> (Column, seq<Cell>), t: Table, j: nat, r0: Table) returns (r: Table)
    requires KeepsShape(f) && WellFormed(t) && j < |t.columns| && r0 == StepPrefix(f, t, j)
    ensures r == StepPrefix(f, t, j + 1)
  {
    StepPrefixNext(f, t, j);
    var out := f(r0.columns[j], ColumnCells(r0, j));
    r := ReplaceColumn(r0, j, out.0, out.1);
  }

  /* ---------------- numeric coercion: properties ---------------- */


  /** Some probed value fails to parse exactly when some sampled string does. */
  lemma UnparseableSample(env: Env, sample: seq<string>)
    ensures AnyUnparseable(Probes(env, sample)) <==> exists s :: s in sample && Probe(env, s).Unparseable?
  {
    var probe := Probes(env, sample);
    if exists s :: s in sample && Probe(env, s).Unparseable? {
      var s :| s in sample && Probe(env, s).Unparseable?;
      var i :| 0 <= i < |sample| && sample[i] == s;
      assert probe[i].Unparseable?;
    }
    if AnyUnparseable(probe) {
      var i :| 0 <= i < |probe| && probe[i].Unparseable?;
      assert sample[i] in sample;
    }
  }

  lemma {:induction false} CountFiniteAll(ps: seq<NumParse>)
    requires forall i :: 0 <= i < |ps| ==> ps[i].Finite?
    ensures CountFinite(ps) == |ps|
  {
    if ps != [] {
      CountFiniteAll(ps[1..]);
    }
  }

  /**
   * A string column whose every non-null value is a string that parses to
   * a finite number (after `,` becomes `.`), with at least one such value,
   * is converted: each value becomes its number and each null stays null.
   * The new column holds integers unless some value reads as a float, and,
   * from the `object` dtype, unless some value is null.
   */
  lemma CoerceAllNumeric(env: Env, col: Column, cells: seq<Cell>)
    requires IsStringDType(col.dtype)
    requires exists i :: 0 <= i < |cells| && !cells[i].Missing?
    requires forall i :: 0 <= i < |cells| && !cells[i].Missing? ==>
      cells[i].Str? && Probe(env, cells[i].s).Finite?
    ensures var r := CoerceNumbersFromStr(env, col, cells);
      && r.0.name == col.name
      && (r.0.dtype == IntType || r.0.dtype == FloatType)
      && (col.dtype == StringType ==>
            (r.0.dtype == IntType <==> forall i :: 0 <= i < |cells| ==> !ReadsAsFloat(env, cells[i])))
      && (col.dtype == ObjectType ==>
            (r.0.dtype == IntType <==>
               forall i :: 0 <= i < |cells| ==> !ReadsAsFloat(env, cells[i]) && !cells[i].Missing?))
      && forall i :: 0 <= i < |cells| ==>
        (cells[i].Missing? ==> r.1[i] == Missing) &&
        (!cells[i].Missing? ==> r.1[i] == Number(Probe(env, cells[i].s).x))
  {
    var present := NonMissing(cells);
    var i :| 0 <= i < |cells| && !cells[i].Missing?;
    assert cells[i] in present;
    var sample := Sample(env, cells);
    assert |sample| > 0;
    var probe := Probes(env, sample);
    forall m | 0 <= m < |sample| ensures probe[m].Finite? {
      var c := present[m];
      assert c in present;
      var k :| 0 <= k < |cells| && cells[k] == c;
      assert c.Str? && sample[m] == c.s;
    }
    assert !AnyUnparseable(probe);
    CountFiniteAll(probe);
  }

  /** `_normalize_empty_strings` nulls exactly the empty-token strings of text columns and keeps every other cell. */
  lemma NormalizeEmptyCells(env: Env, t: Table)
    requires WellFormed(t)
    ensures var r := ApplyStep(NormalizeEmpty, env, t);
      && r.columns == t.columns
      && forall i, k :: 0 <= i < |t.rows| && 0 <= k < |t.columns| ==>
        r.rows[i][k] == if IsStringDType(t.columns[k].dtype) then NormalizeValue(t.rows[i][k]) else t.rows[i][k]
  {
    var r := ApplyStep(NormalizeEmpty, env, t);
    forall k | 0 <= k < |t.columns| ensures r.columns[k] == t.columns[k] {
    }
  }

  /* ---------------- coordinate detection ---------------- */

  function LowerNames(t: Table): (r: seq<string>)
    ensures |r| == |t.columns|
  {
    seq(|t.columns|, k requires 0 <= k < |t.columns| => Lower(t.columns[k].name))
  }

  /** The first name satisfying `p`. */
  function FirstName(names: seq<string>, p: string -> bool): (r: Option<string>)
    ensures r.None? <==> forall k :: 0 <= k < |names| ==> !p(names[k])
    ensures r.Some? ==>
      exists k :: 0 <= k < |names| && names[k] == r.value && p(r.value) && forall j :: 0 <= j < k ==> !p(names[j])
  {
    match FirstIndexWhere(names, p)
    case Some(k) => Some(names[k])
    case None => None
  }

  /** A Python value on the left of `in`: a string or a list of strings. */
  datatype PyValue = PyStr(s: string) | PyList(items: seq<string>)

  /** `v in names` for a list of strings: `v` equals one of its strings. */
  predicate InStrings(v: PyValue, names: seq<string>) {
    exists n :: n in names && v == PyStr(n)
  }

  /**
   * `_find_lat_lon` as written: the condition tests the whole list of
   * lower-cased names for membership in the name lists, not the column.
   */
  function FindLatLon(t: Table): (Option<string>, Option<string>) {
    var lowerCols := PyList(LowerNames(t));
    (FirstName(Names(t), c => InStrings(lowerCols, LAT_NAMES)),
     FirstName(Names(t), c => InStrings(lowerCols, LON_NAMES)))
  }

  /** As written, `_find_lat_lon` never finds a column, so the named branch never runs. */
  lemma FindLatLonNeverFinds(t: Table)
    ensures FindLatLon(t) == (None, None)
  {
    var lowerCols := PyList(LowerNames(t));
    assert !InStrings(lowerCols, LAT_NAMES) && !InStrings(lowerCols, LON_NAMES);
  }

  /** `_find_lat_lon` as intended: the first column whose lower-cased name is in each list. */
  function FindLatLonIntended(t: Table): (Option<string>, Option<string>) {
    (FirstName(Names(t), c => Lower(c) in LAT_NAMES), FirstName(Names(t), c => Lower(c) in LON_NAMES))
  }

  /**
   * The corrected lookup finds a latitude (longitude) column exactly when
   * some column's lower-cased name is in `LAT_NAMES` (`LON_NAMES`), and it
   * returns the first such column.
   */
  lemma FindLatLonIntendedFinds(t: Table)
    ensures var (lat, lon) := FindLatLonIntended(t);
      && (lat.Some? <==> exists k :: 0 <= k < |t.columns| && Lower(t.columns[k].name) in LAT_NAMES)
      && (lon.Some? <==> exists k :: 0 <= k < |t.columns| && Lower(t.columns[k].name) in LON_NAMES)
      && (lat.Some? ==> Lower(lat.value) in LAT_NAMES && HasColumn(t, lat.value))
      && (lon.Some? ==> Lower(lon.value) in LON_NAMES && HasColumn(t, lon.value))
  {
    var names := Names(t);
    var (lat, lon) := FindLatLonIntended(t);
    if lat.Some? {
      var k :| 0 <= k < |names| && names[k] == lat.value && Lower(lat.value) in LAT_NAMES;
      assert t.columns[k].name == lat.value;
    }
    if lon.Some? {
      var k :| 0 <= k < |names| && names[k] == lon.value && Lower(lon.value) in LON_NAMES;
      assert t.columns[k].name == lon.value;
    }
    if exists k :: 0 <= k < |t.columns| && Lower(t.columns[k].name) in LAT_NAMES {
      var k :| 0 <= k < |t.columns| && Lower(t.columns[k].name) in LAT_NAMES;
      assert Lower(names[k]) in LAT_NAMES;
    }
    if exists k :: 0 <= k < |t.columns| && Lower(t.columns[k].name) in LON_NAMES {
      var k :| 0 <= k < |t.columns| && Lower(t.columns[k].name) in LON_NAMES;
      assert Lower(names[k]) in LON_NAMES;
    }
  }

  /** The position of `key` among the keys of `items`. */
  function KeyIndex(items: seq<(string, string)>, key: string): (r: Option<nat>)
    ensures r.None? <==> forall i :: 0 <= i < |items| ==> items[i].0 != key
    ensures r.Some? ==> r.value < |items| && items[r.value].0 == key
  {
    if items == [] then None
    else if items[0].0 == key then Some(0)
    else match KeyIndex(items[1..], key)
      case None => None
      case Some(i) => Some(i + 1)
  }

  /** The items of a dict after `d[key] = value`: an existing key keeps its place. */
  function DictSet(items: seq<(string, string)>, key: string, value: string): (r: seq<(string, string)>)
    ensures forall p :: p in r ==> p in items || p == (key, value)
    ensures (key, value) in r
    ensures KeyIndex(items, key).None? ==> r == items + [(key, value)]
  {
    match KeyIndex(items, key)
    case Some(i) =>
      var r := items[i := (key, value)];
      assert r[i] == (key, value);
      r
    case None => items + [(key, value)]
  }

  /** `{str(c).lower(): c for c in cols}` as its items in insertion order. */
  function ColMap(names: seq<string>): (r: seq<(string, string)>)
    ensures forall p :: p in r ==> p.0 == Lower(p.1) && p.1 in names
  {
    if names == [] then []
    else
      var last := names[|names| - 1];
      var r := DictSet(ColMap(names[..|names| - 1]), Lower(last), last);
      assert forall p :: p in ColMap(names[..|names| - 1]) ==> p.1 in names;
      r
  }

  /** `find_one(candidates)`: the column of the first key containing a candidate token. */
  function FindOne(items: seq<(string, string)>, tokens: seq<string>): (r: Option<string>)
    ensures r.Some? ==> exists i :: 0 <= i < |items| && items[i].1 == r.value && AnyContains(items[i].0, tokens)
  {
    if items == [] then None
    else if AnyContains(items[0].0, tokens) then Some(items[0].1)
    else
      var r := FindOne(items[1..], tokens);
      assert r.Some? ==> exists i :: 0 <= i < |items[1..]| && items[1..][i].1 == r.value && AnyContains(items[1..][i].0, tokens);
      r
  }

  /** `_has_kkj_xy`: the easting and northing columns. */
  function HasKkjXy(t: Table): (r: (Option<string>, Option<string>))
    ensures r.0.Some? ==> HasColumn(t, r.0.value) && AnyContains(Lower(r.0.value), KKJ_X_TOKENS)
    ensures r.1.Some? ==> HasColumn(t, r.1.value) && AnyContains(Lower(r.1.value), KKJ_Y_TOKENS)
  {
    var items := ColMap(Names(t));
    var r := (FindOne(items, KKJ_X_TOKENS), FindOne(items, KKJ_Y_TOKENS));
    NamesHaveColumns(t);
    assert forall p :: p in items ==> p.0 == Lower(p.1) && p.1 in Names(t);
    r
  }

  lemma NamesHaveColumns(t: Table)
    ensures forall c :: c in Names(t) ==> HasColumn(t, c)
  {
    forall c | c in Names(t) ensures HasColumn(t, c) {
      var k :| 0 <= k < |Names(t)| && Names(t)[k] == c;
      assert t.columns[k].name == c;
    }
  }

  function Pairs(names: seq<string>): (r: seq<(string, string)>)
    ensures |r| == |names| && forall k :: 0 <= k < |names| ==> r[k] == (Lower(names[k]), names[k])
  {
    seq(|names|, k requires 0 <= k < |names| => (Lower(names[k]), names[k]))
  }

  /** The items of `ColMap` when no two names lower-case alike: one per name, in order. */
  lemma {:induction false} ColMapDistinct(names: seq<string>)
    requires forall a, b :: 0 <= a < b < |names| ==> Lower(names[a]) != Lower(names[b])
    ensures ColMap(names) == Pairs(names)
  {
    if names != [] {
      var init := names[..|names| - 1];
      ColMapDistinct(init);
      var last := names[|names| - 1];
      assert KeyIndex(Pairs(init), Lower(last)).None?;
      assert Pairs(init) + [(Lower(last), last)] == Pairs(names);
    }
  }

  /** `name` is the first of `names` whose lower-cased form contains a token (or there is none). */
  predicate FirstMatching(names: seq<string>, tokens: seq<string>, r: Option<string>) {
    && (r.None? <==> forall k :: 0 <= k < |names| ==> !AnyContains(Lower(names[k]), tokens))
    && (r.Some? ==>
          exists k :: 0 <= k < |names| && names[k] == r.value && AnyContains(Lower(names[k]), tokens)
            && forall j :: 0 <= j < k ==> !AnyContains(Lower(names[j]), tokens))
  }

  lemma {:induction false} FindOnePairs(names: seq<string>, tokens: seq<string>)
    ensures FirstMatching(names, tokens, FindOne(Pairs(names), tokens))
  {
    if names != [] {
      FindOnePairs(names[1..], tokens);
      assert Pairs(names)[1..] == Pairs(names[1..]);
      FirstMatchingCons(names, tokens, FindOne(Pairs(names[1..]), tokens));
    }
  }

  /** The first match of a non-empty list: its head if that matches, else the first match of its tail. */
  lemma FirstMatchingCons(names: seq<string>, tokens: seq<string>, r: Option<string>)
    requires names != [] && FirstMatching(names[1..], tokens, r)
    ensures FirstMatching(names, tokens, if AnyContains(Lower(names[0]), tokens) then Some(names[0]) else r)
  {
    if r.Some? && !AnyContains(Lower(names[0]), tokens) {
      var k :| 0 <= k < |names[1..]| && names[1..][k] == r.value
        && AnyContains(Lower(names[1..][k]), tokens)
        && forall j :: 0 <= j < k ==> !AnyContains(Lower(names[1..][j]), tokens);
      assert names[k + 1] == r.value;
      assert forall j :: 0 <= j < k + 1 ==> !AnyContains(Lower(names[j]), tokens);
    }
    if r.None? && !AnyContains(Lower(names[0]), tokens) {
      assert forall k :: 0 < k < |names| ==> names[k] == names[1..][k - 1];
    }
  }

  /**
   * With no two column names equal after lower-casing, `_has_kkj_xy` returns
   * the first column whose lower-cased name contains an easting token and
   * the first one containing a northing token.
   */
  lemma KkjFirstMatch(t: Table)
    requires forall a, b :: 0 <= a < b < |t.columns| ==> Lower(t.columns[a].name) != Lower(t.columns[b].name)
    ensures FirstMatching(Names(t), KKJ_X_TOKENS, HasKkjXy(t).0)
    ensures FirstMatching(Names(t), KKJ_Y_TOKENS, HasKkjXy(t).1)
  {
    var names := Names(t);
    ColMapDistinct(names);
    FindOnePairs(names, KKJ_X_TOKENS);
    FindOnePairs(names, KKJ_Y_TOKENS);
  }

  /* ---------------- coordinate conversion ---------------- */

  /** `s.where(s.between(lo, hi))` for one value: out-of-range values and NaN become null. */
  function Between(lo: real, hi: real, v: Option<real>): (r: Cell)
    ensures r == Missing || (r.Number? && lo <= r.x <= hi)
    ensures v.Some? && lo <= v.value <= hi ==> r == Number(v.value)
  {
    if v.Some? && lo <= v.value <= hi then Number(v.value) else Missing
  }

  /** A cell that is null or a number in `[lo, hi]`. */
  predicate InRange(lo: real, hi: real, c: Cell) {
    c.Missing? || (c.Number? && lo <= c.x <= hi)
  }

  /** `tf.transform(x, y)` for one row after `pd.to_numeric(..., errors="coerce")`: `(lon, lat)`. */
  function Projected(env: Env, f: (real, real) -> Option<(real, real)>, east: Cell, north: Cell): Option<(real, real)> {
    match (ToNumeric(env.parse, east), ToNumeric(env.parse, north))
    case (Some(x), Some(y)) => f(x, y)
    case _ => None
  }

  function Lat(p: Option<(real, real)>): Option<real> {
    if p.Some? then Some(p.value.1) else None
  }

  function Lon(p: Option<(real, real)>): Option<real> {
    if p.Some? then Some(p.value.0) else None
  }

  /**
   * `_kkj_to_wgs84(easting, northing)`: `(lat, lon)` per row, each masked to
   * its own range; all null when the transform cannot be built.
   */
  function KkjToWgs84(env: Env, east: seq<Cell>, north: seq<Cell>): (r: (seq<Cell>, seq<Cell>))
    requires |east| == |north|
    ensures |r.0| == |east| && |r.1| == |east|
    ensures forall i :: 0 <= i < |east| ==> InRange(-90.0, 90.0, r.0[i]) && InRange(-180.0, 180.0, r.1[i])
  {
    match env.project
    case None => (Nulls(|east|), Nulls(|east|))
    case Some(f) =>
      (seq(|east|, i requires 0 <= i < |east| => Between(-90.0, 90.0, Lat(Projected(env, f, east[i], north[i])))),
       seq(|east|, i requires 0 <= i < |east| => Between(-180.0, 180.0, Lon(Projected(env, f, east[i], north[i])))))
  }

  /**
   * The ranges are applied per coordinate: a projected point whose latitude
   * is in range keeps it even when its longitude is not, and the other way
   * round; a row whose easting or northing is not numeric gets nulls; with
   * no transform every row gets nulls.
   */
  lemma KkjMasksPerCoordinate(env: Env, east: seq<Cell>, north: seq<Cell>, i: nat)
    requires |east| == |north| && i < |east|
    ensures env.project.None? ==> KkjToWgs84(env, east, north).0[i] == Missing && KkjToWgs84(env, east, north).1[i] == Missing
    ensures env.project.Some? ==>
      var p := Projected(env, env.project.value, east[i], north[i]);
      && (p.Some? && -90.0 <= p.value.1 <= 90.0 ==> KkjToWgs84(env, east, north).0[i] == Number(p.value.1))
      && (p.Some? && -180.0 <= p.value.0 <= 180.0 ==> KkjToWgs84(env, east, north).1[i] == Number(p.value.0))
      && (p.None? ==> KkjToWgs84(env, east, north).0[i] == Missing && KkjToWgs84(env, east, north).1[i] == Missing)
    ensures ToNumeric(env.parse, east[i]).None? || ToNumeric(env.parse, north[i]).None? ==>
      KkjToWgs84(env, east, north).0[i] == Missing && KkjToWgs84(env, east, north).1[i] == Missing
  {
  }

  /** Which `_find_lat_lon` the coordinate step uses: the code as written, or the corrected lookup. */
  datatype LatLonLookup = AsWritten | Intended

  function FindLatLonBy(lookup: LatLonLookup, t: Table): (Option<string>, Option<string>) {
    match lookup
    case AsWritten => FindLatLon(t)
    case Intended => FindLatLonIntended(t)
  }

  /** `r` extends `t` by columns on the right and keeps everything of `t`. */
  ghost predicate KeepsPrefix(t: Table, r: Table)
    requires WellFormed(t) && WellFormed(r)
  {
    && |r.rows| == |t.rows|
    && |t.columns| <= |r.columns|
    && r.columns[..|t.columns|] == t.columns
    && forall i, k :: 0 <= i < |t.rows| && 0 <= k < |t.columns| ==> r.rows[i][k] == t.rows[i][k]
  }

  /** Column `k` is a float `latitude` column within [-90, 90] or a float `longitude` column within [-180, 180]. */
  ghost predicate CoordinateColumn(r: Table, k: nat)
    requires WellFormed(r) && k < |r.columns|
  {
    && r.columns[k].dtype == FloatType
    && (r.columns[k].name == LATITUDE || r.columns[k].name == LONGITUDE)
    && forall i :: 0 <= i < |r.rows| ==>
         if r.columns[k].name == LATITUDE then InRange(-90.0, 90.0, r.rows[i][k])
         else InRange(-180.0, 180.0, r.rows[i][k])
  }

  /** The coordinate columns appended after the columns of `t`, each within its range. */
  ghost predicate AppendsCoordinates(t: Table, r: Table)
    requires WellFormed(t) && WellFormed(r)
  {
    && KeepsPrefix(t, r)
    && |r.columns| <= |t.columns| + 2
    && forall k :: |t.columns| <= k < |r.columns| ==> CoordinateColumn(r, k)
  }

  function OptCell(o: Option<seq<Cell>>, i: nat): seq<Cell>
    requires o.Some? ==> i < |o.value|
  {
    if o.Some? then [o.value[i]] else []
  }

  function OptColumn(o: Option<seq<Cell>>, name: string): seq<Column> {
    if o.Some? then [Column(name, FloatType)] else []
  }

  /** `pd.concat([df, pd.DataFrame(new_cols)], axis=1)` for a latitude and a longitude column, each optional. */
  function AppendLatLon(t: Table, lat: Option<seq<Cell>>, lon: Option<seq<Cell>>): (r: Table)
    requires WellFormed(t)
    requires lat.Some? ==> |lat.value| == |t.rows|
    requires lon.Some? ==> |lon.value| == |t.rows|
    ensures WellFormed(r) && |r.rows| == |t.rows|
    ensures r.columns == t.columns + OptColumn(lat, LATITUDE) + OptColumn(lon, LONGITUDE)
    ensures forall i :: 0 <= i < |t.rows| ==> r.rows[i] == t.rows[i] + OptCell(lat, i) + OptCell(lon, i)
  {
    var t1 := if lat.Some? then AppendColumn(t, Column(LATITUDE, FloatType), lat.value) else t;
    if lon.Some? then AppendColumn(t1, Column(LONGITUDE, FloatType), lon.value) else t1
  }

  lemma AppendLatLonPrefix(t: Table, lat: Option<seq<Cell>>, lon: Option<seq<Cell>>)
    requires WellFormed(t)
    requires lat.Some? ==> |lat.value| == |t.rows|
    requires lon.Some? ==> |lon.value| == |t.rows|
    ensures KeepsPrefix(t, AppendLatLon(t, lat, lon))
  {
    var r := AppendLatLon(t, lat, lon);
    assert r.columns[..|t.columns|] == t.columns;
    var a := seq(|t.rows|, i requires 0 <= i < |t.rows| => OptCell(lat, i));
    var b := seq(|t.rows|, i requires 0 <= i < |t.rows| => OptCell(lon, i));
    ExtendsPrefix(t, r, a, b);
  }

  /** Cells appended at the end of every row leave the old cells where they were. */
  lemma ExtendsPrefix(t: Table, r: Table, a: seq<seq<Cell>>, b: seq<seq<Cell>>)
    requires WellFormed(t) && WellFormed(r)
    requires |r.rows| == |t.rows| == |a| == |b|
    requires |t.columns| <= |r.columns| && r.columns[..|t.columns|] == t.columns
    requires forall i :: 0 <= i < |t.rows| ==> r.rows[i] == t.rows[i] + a[i] + b[i]
    ensures KeepsPrefix(t, r)
  {
    forall i, k | 0 <= i < |t.rows| && 0 <= k < |t.columns| ensures r.rows[i][k] == t.rows[i][k] {
      assert t.rows[i] in t.rows;
      assert k < |t.rows[i]|;
    }
  }

  lemma AppendLatLonColumn(t: Table, lat: Option<seq<Cell>>, lon: Option<seq<Cell>>, k: nat)
    requires WellFormed(t)
    requires lat.Some? ==> |lat.value| == |t.rows| && forall i :: 0 <= i < |t.rows| ==> InRange(-90.0, 90.0, lat.value[i])
    requires lon.Some? ==> |lon.value| == |t.rows| && forall i :: 0 <= i < |t.rows| ==> InRange(-180.0, 180.0, lon.value[i])
    requires |t.columns| <= k < |AppendLatLon(t, lat, lon).columns|
    ensures CoordinateColumn(AppendLatLon(t, lat, lon), k)
  {
    var r := AppendLatLon(t, lat, lon);
    var n := |t.columns|;
    var fromLat := lat.Some? && k == n;
    assert fromLat ==> r.columns[k] == Column(LATITUDE, FloatType);
    assert !fromLat ==> lon.Some? && r.columns[k] == Column(LONGITUDE, FloatType);
    forall i | 0 <= i < |r.rows|
      ensures if fromLat then InRange(-90.0, 90.0, r.rows[i][k]) else InRange(-180.0, 180.0, r.rows[i][k])
    {
      assert t.rows[i] in t.rows;
      assert r.rows[i] == t.rows[i] + (OptCell(lat, i) + OptCell(lon, i));
      assert fromLat ==> r.rows[i][k] == lat.value[i];
      assert !fromLat ==> r.rows[i][k] == lon.value[i];
    }
  }

  lemma AppendLatLonCoordinates(t: Table, lat: Option<seq<Cell>>, lon: Option<seq<Cell>>)
    requires WellFormed(t)
    requires lat.Some? ==> |lat.value| == |t.rows| && forall i :: 0 <= i < |t.rows| ==> InRange(-90.0, 90.0, lat.value[i])
    requires lon.Some? ==> |lon.value| == |t.rows| && forall i :: 0 <= i < |t.rows| ==> InRange(-180.0, 180.0, lon.value[i])
    ensures AppendsCoordinates(t, AppendLatLon(t, lat, lon))
  {
    AppendLatLonPrefix(t, lat, lon);
    forall k | |t.columns| <= k < |AppendLatLon(t, lat, lon).columns|
      ensures CoordinateColumn(AppendLatLon(t, lat, lon), k)
    {
      AppendLatLonColumn(t, lat, lon, k);
    }
  }

  /** `pd.to_numeric(df[name], errors="coerce").where(between(lo, hi))`. */
  function MaskedColumn(env: Env, t: Table, name: string, lo: real, hi: real): (r: seq<Cell>)
    requires WellFormed(t)
    ensures |r| == |t.rows|
    ensures forall i :: 0 <= i < |t.rows| ==> r[i] == Between(lo, hi, ToNumeric(env.parse, CellsNamed(t, name)[i]))
    ensures forall i :: 0 <= i < |t.rows| ==> InRange(lo, hi, r[i])
  {
    var cells := CellsNamed(t, name);
    seq(|t.rows|, i requires 0 <= i < |t.rows| => Between(lo, hi, ToNumeric(env.parse, cells[i])))
  }

  /**
   * The named branch of step 5: the latitude and longitude columns found by
   * name, range-masked, each added only when no column of that name exists.
   */
  function NamedStep(env: Env, t: Table, latName: string, lonName: string): (r: Table)
    requires WellFormed(t)
    ensures WellFormed(r) && AppendsCoordinates(t, r)
    ensures r == AppendLatLon(t,
      if HasColumn(t, LATITUDE) then None else Some(MaskedColumn(env, t, latName, -90.0, 90.0)),
      if HasColumn(t, LONGITUDE) then None else Some(MaskedColumn(env, t, lonName, -180.0, 180.0)))
  {
    var latCol := if HasColumn(t, LATITUDE) then None else Some(MaskedColumn(env, t, latName, -90.0, 90.0));
    var lonCol := if HasColumn(t, LONGITUDE) then None else Some(MaskedColumn(env, t, lonName, -180.0, 180.0));
    AppendLatLonCoordinates(t, latCol, lonCol);
    AppendLatLon(t, latCol, lonCol)
  }

  /**
   * Step 5 of `preprocess_dataframe`: the named latitude/longitude branch
   * when the lookup finds both columns, otherwise the KKJ branch when
   * `_has_kkj_xy` finds both columns (always added), otherwise nothing.
   */
  function AddCoordinates(env: Env, lookup: LatLonLookup, t: Table): (r: Table)
    requires WellFormed(t)
    ensures WellFormed(r) && AppendsCoordinates(t, r)
  {
    var (latName, lonName) := FindLatLonBy(lookup, t);
    if Truthy(latName) && Truthy(lonName) then NamedStep(env, t, latName.value, lonName.value)
    else KkjStep(env, t)
  }

  /** The KKJ branch of step 5. */
  function KkjStep(env: Env, t: Table): (r: Table)
    requires WellFormed(t)
    ensures WellFormed(r) && AppendsCoordinates(t, r)
  {
    var (kx, ky) := HasKkjXy(t);
    if Truthy(kx) && Truthy(ky) then
      var (lat, lon) := KkjToWgs84(env, CellsNamed(t, kx.value), CellsNamed(t, ky.value));
      AppendLatLonCoordinates(t, Some(lat), Some(lon));
      AppendLatLon(t, Some(lat), Some(lon))
    else t
  }

  /** As written, the coordinate step is the KKJ branch alone. */
  lemma AsWrittenIsKkjOnly(env: Env, t: Table)
    requires WellFormed(t)
    ensures AddCoordinates(env, AsWritten, t) == KkjStep(env, t)
  {
    FindLatLonNeverFinds(t);
  }

  /**
   * With the corrected lookup finding both columns and no `latitude` or
   * `longitude` column yet, both are added after the existing columns.
   */
  lemma NamedBranchAddsBoth(env: Env, t: Table)
    requires WellFormed(t)
    requires Truthy(FindLatLonIntended(t).0) && Truthy(FindLatLonIntended(t).1)
    requires !HasColumn(t, LATITUDE) && !HasColumn(t, LONGITUDE)
    ensures AddCoordinates(env, Intended, t).columns ==
      t.columns + [Column(LATITUDE, FloatType)] + [Column(LONGITUDE, FloatType)]
  {
    var (latName, lonName) := FindLatLonIntended(t);
    var lat := MaskedColumn(env, t, latName.value, -90.0, 90.0);
    var lon := MaskedColumn(env, t, lonName.value, -180.0, 180.0);
    assert FindLatLonBy(Intended, t) == (latName, lonName);
    var r := AddCoordinates(env, Intended, t);
    assert r == NamedStep(env, t, latName.value, lonName.value);
  }

  /**
   * The added latitude of each row is the found latitude column's value,
   * read as a number, when it lies in [-90, 90], and null otherwise.
   */
  lemma NamedBranchLatitude(env: Env, t: Table, i: nat)
    requires WellFormed(t) && i < |t.rows|
    requires Truthy(FindLatLonIntended(t).0) && Truthy(FindLatLonIntended(t).1)
    requires !HasColumn(t, LATITUDE)
    ensures AddCoordinates(env, Intended, t).rows[i][|t.columns|] ==
      Between(-90.0, 90.0, ToNumeric(env.parse, CellsNamed(t, FindLatLonIntended(t).0.value)[i]))
  {
    var (latName, lonName) := FindLatLonIntended(t);
    var lat := MaskedColumn(env, t, latName.value, -90.0, 90.0);
    var lonCol := if HasColumn(t, LONGITUDE) then None else Some(MaskedColumn(env, t, lonName.value, -180.0, 180.0));
    assert FindLatLonBy(Intended, t) == (latName, lonName);
    var r := AddCoordinates(env, Intended, t);
    assert r == NamedStep(env, t, latName.value, lonName.value);
    assert t.rows[i] in t.rows;
    assert r.rows[i] == t.rows[i] + [lat[i]] + OptCell(lonCol, i);
  }

  /* ---------------- dropping empty rows and columns ---------------- */

  /** The row holds at least one non-null cell. */
  predicate HasValue(row: seq<Cell>) {
    exists k :: 0 <= k < |row| && !row[k].Missing?
  }

  /** Some row holds a non-null cell in column `k`. */
  predicate ColumnHasValue(rows: seq<seq<Cell>>, k: nat) {
    exists i :: 0 <= i < |rows| && k < |rows[i]| && !rows[i][k].Missing?
  }

  /** `df.dropna(axis=0, how="all")`: the rows with a value. */
  function KeptRows(t: Table): (r: seq<seq<Cell>>)
    requires WellFormed(t)
    ensures WellFormed(Table(t.columns, r))
    ensures forall row :: row in r ==> HasValue(row)
  {
    Filter(t.rows, HasValue)
  }

  /** The positions of the columns `dropna(axis=1, how="all")` keeps. */
  function KeptColumns(t: Table): (r: seq<nat>)
    requires WellFormed(t)
    ensures forall m :: 0 <= m < |r| ==> r[m] < |t.columns| && ColumnHasValue(KeptRows(t), r[m])
    ensures forall k :: 0 <= k < |t.columns| && ColumnHasValue(KeptRows(t), k) ==> k in r
  {
    var rows := KeptRows(t);
    IndicesWhere(|t.columns|, (k: nat) => ColumnHasValue(rows, k))
  }

  /** `df.dropna(axis=0, how="all").dropna(axis=1, how="all")`. */
  function DropEmpty(t: Table): (r: Table)
    requires WellFormed(t)
    ensures WellFormed(r)
    ensures forall m :: 0 <= m < |r.columns| ==> r.columns[m] in t.columns
  {
    SelectColumns(Table(t.columns, KeptRows(t)), KeptColumns(t))
  }

  /** After dropping, every row holds a value. */
  lemma DropEmptyRows(t: Table)
    requires WellFormed(t)
    ensures forall row :: row in DropEmpty(t).rows ==> HasValue(row)
  {
    var rows := KeptRows(t);
    var keep := KeptColumns(t);
    var r := DropEmpty(t);
    forall row | row in r.rows ensures HasValue(row) {
      var i :| 0 <= i < |r.rows| && r.rows[i] == row;
      assert rows[i] in rows;
      assert HasValue(rows[i]);
      var k :| 0 <= k < |rows[i]| && !rows[i][k].Missing?;
      assert ColumnHasValue(rows, k);
      assert k in keep;
      var m :| 0 <= m < |keep| && keep[m] == k;
      assert row[m] == rows[i][k];
    }
  }

  /** After dropping, every column holds a value. */
  lemma DropEmptyColumns(t: Table)
    requires WellFormed(t)
    ensures forall m :: 0 <= m < |DropEmpty(t).columns| ==> ColumnHasValue(DropEmpty(t).rows, m)
  {
    var rows := KeptRows(t);
    var keep := KeptColumns(t);
    var r := DropEmpty(t);
    forall m | 0 <= m < |r.columns| ensures ColumnHasValue(r.rows, m) {
      assert ColumnHasValue(rows, keep[m]);
      var i :| 0 <= i < |rows| && keep[m] < |rows[i]| && !rows[i][keep[m]].Missing?;
      assert r.rows[i][m] == rows[i][keep[m]];
    }
  }

  /* ---------------- the pipeline ---------------- */

  /** `df.columns = _norm_cols(df.columns.tolist())`. */
  function NormalizeHeaders(t: Table): (r: Table)
    requires WellFormed(t)
    ensures WellFormed(r) && Names(r) == NormCols(Names(t))
  {
    Rename(t, NormCols(Names(t)))
  }

  /**
   * `preprocess_dataframe`: normalise the headers, parse date-like columns,
   * cast object columns to strings, coerce numeric-looking string columns,
   * add coordinates, normalise empty tokens, drop all-null rows and then
   * all-null columns.
   */
  function Preprocess(env: Env, lookup: LatLonLookup, t: Table): (r: Table)
    requires WellFormed(t)
    ensures WellFormed(r)
  {
    var t1 := NormalizeHeaders(t);
    var t2 := ApplyStep(ParseDates, env, t1);
    var t3 := ApplyStep(CastObjects, env, t2);
    var t4 := ApplyStep(CoerceNumbers, env, t3);
    var t5 := AddCoordinates(env, lookup, t4);
    var t6 := ApplyStep(NormalizeEmpty, env, t5);
    DropEmpty(t6)
  }

  /** The pipeline as the source runs it, rebinding the frame step by step. */
  method PreprocessDataframe(env: Env, lookup: LatLonLookup, df: Table) returns (r: Table)
    requires WellFormed(df)
    ensures r == Preprocess(env, lookup, df)
  {
    var names := NormalizeColumnNames(Names(df));
    r := Rename(df, names);
    r := ApplyStep(ParseDates, env, r);
    r := ApplyStep(CastObjects, env, r);
    r := RewriteColumns(CoerceNumbers, env, r);
    r := AddCoordinates(env, lookup, r);
    r := RewriteColumns(NormalizeEmpty, env, r);
    r := DropEmpty(r);
  }

  lemma LatLonCanonical()
    ensures Canonical(LATITUDE) && Canonical(LONGITUDE)
  {
    assert forall c :: c in LATITUDE ==> 'a' <= c <= 'z';
    assert forall c :: c in LONGITUDE ==> 'a' <= c <= 'z';
  }

  predicate AllCanonical(t: Table) {
    forall k :: 0 <= k < |t.columns| ==> Canonical(t.columns[k].name)
  }

  lemma StepKeepsCanonical(step: Step, env: Env, t: Table)
    requires WellFormed(t) && AllCanonical(t)
    ensures AllCanonical(ApplyStep(step, env, t))
  {
    var r := ApplyStep(step, env, t);
    forall k | 0 <= k < |r.columns| ensures Canonical(r.columns[k].name) {
      assert Names(r)[k] == Names(t)[k];
    }
  }

  lemma CoordinatesKeepCanonical(env: Env, lookup: LatLonLookup, t: Table)
    requires WellFormed(t) && AllCanonical(t)
    ensures AllCanonical(AddCoordinates(env, lookup, t))
  {
    AppendsKeepCanonical(t, AddCoordinates(env, lookup, t));
  }

  lemma AppendsKeepCanonical(t: Table, r: Table)
    requires WellFormed(t) && WellFormed(r) && AllCanonical(t) && AppendsCoordinates(t, r)
    ensures AllCanonical(r)
  {
    LatLonCanonical();
    forall k | 0 <= k < |r.columns| ensures Canonical(r.columns[k].name) {
      if k < |t.columns| {
        assert r.columns[k] == r.columns[..|t.columns|][k];
      } else {
        assert CoordinateColumn(r, k);
      }
    }
  }

  lemma HeadersCanonical(t: Table)
    requires WellFormed(t)
    ensures AllCanonical(NormalizeHeaders(t))
  {
    var r := NormalizeHeaders(t);
    NormColsUnique(Names(t));
    forall k | 0 <= k < |r.columns| ensures Canonical(r.columns[k].name) {
      assert Names(r)[k] in NormCols(Names(t));
    }
  }

  /**
   * The result has no all-null row and no all-null column, and every
   * column name is non-empty, made of alphanumerics and `_`, and neither
   * starts nor ends with `_`.
   */
  lemma PreprocessShape(env: Env, lookup: LatLonLookup, t: Table)
    requires WellFormed(t)
    ensures var r := Preprocess(env, lookup, t);
      && (forall row :: row in r.rows ==> HasValue(row))
      && (forall k :: 0 <= k < |r.columns| ==> ColumnHasValue(r.rows, k))
      && (forall c :: c in r.columns ==> Canonical(c.name))
  {
    var t1 := NormalizeHeaders(t);
    HeadersCanonical(t);
    var t2 := ApplyStep(ParseDates, env, t1);
    StepKeepsCanonical(ParseDates, env, t1);
    var t3 := ApplyStep(CastObjects, env, t2);
    StepKeepsCanonical(CastObjects, env, t2);
    var t4 := ApplyStep(CoerceNumbers, env, t3);
    StepKeepsCanonical(CoerceNumbers, env, t3);
    var t5 := AddCoordinates(env, lookup, t4);
    CoordinatesKeepCanonical(env, lookup, t4);
    var t6 := ApplyStep(NormalizeEmpty, env, t5);
    StepKeepsCanonical(NormalizeEmpty, env, t5);
    var r := DropEmpty(t6);
    assert r == Preprocess(env, lookup, t);
    DropEmptyRows(t6);
    DropEmptyColumns(t6);
    forall c | c in r.columns ensures Canonical(c.name) {
      var m :| 0 <= m < |r.columns| && r.columns[m] == c;
      assert c in t6.columns;
      var k :| 0 <= k < |t6.columns| && t6.columns[k] == c;
    }
  }
}
