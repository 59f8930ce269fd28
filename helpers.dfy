/**
 * The column and option helpers of utils/helpers.py: flattening a category
 * map into its distinct columns, dropdown options, the split of columns by
 * dtype and the extraction of years from a time-like column.
 */
module Helpers {
  import opened Seqs
  import opened Text
  import opened Frames

  /** A category map as the classifier produces it: ordered (category, columns) entries. */
  type Meta = seq<(string, seq<string>)>

  /** The column lists of a category map, in entry order (`meta.values()`). */
  function Values(meta: Meta): (r: seq<seq<string>>)
    ensures |r| == |meta| && forall e :: 0 <= e < |meta| ==> r[e] == meta[e].1
  {
    seq(|meta|, e requires 0 <= e < |meta| => meta[e].1)
  }

  /** Every column of every category, in map order, repetitions included. */
  function AllColumns(meta: Meta): (r: seq<string>)
    ensures forall c :: c in r <==> exists e :: 0 <= e < |meta| && c in meta[e].1
  {
    Flatten(Values(meta))
  }

  /** The columns the `seen` set has recorded are exactly the ones in `out`. */
  ghost predicate Mirrors(seen: set<string>, out: seq<string>) {
    forall c :: c in seen <==> c in out
  }

  /**
   * The inner loop of `flatten_unique`: append each column of `cols` not yet
   * seen. `done` is what the outer loop has visited so far.
   */
  method AddUnseen(cols: seq<string>, ghost done: seq<string>, unique0: seq<string>, seen0: set<string>)
    returns (unique: seq<string>, seen: set<string>)
    requires unique0 == Dedup(done) && Mirrors(seen0, unique0)
    ensures unique == Dedup(done + cols) && Mirrors(seen, unique)
  {
    unique, seen := unique0, seen0;
    var j := 0;
    assert done + cols[..0] == done;
    while j < |cols|
      invariant 0 <= j <= |cols|
      invariant unique == Dedup(done + cols[..j])
      invariant Mirrors(seen, unique)
    {
      var column := cols[j];
      SeenStep(done + cols[..j], column, unique, seen);
      SnocPrefix(done, cols, j);
      if column !in seen {
        unique := unique + [column];
        seen := seen + {column};
      }
      j := j + 1;
    }
    assert cols[..j] == cols;
  }

  /** One step of the inner loop keeps `unique` the de-duplicated prefix and `seen` its mirror. */
  lemma SeenStep(prefix: seq<string>, column: string, unique: seq<string>, seen: set<string>)
    requires unique == Dedup(prefix) && Mirrors(seen, unique)
    ensures column in seen ==> Dedup(prefix + [column]) == unique
    ensures column !in seen ==> Dedup(prefix + [column]) == unique + [column] && Mirrors(seen + {column}, unique + [column])
  {
    DedupSnoc(prefix, column);
  }

  lemma SnocPrefix(done: seq<string>, cols: seq<string>, j: nat)
    requires j < |cols|
    ensures done + cols[..j + 1] == (done + cols[..j]) + [cols[j]]
  {
    assert cols[..j + 1] == cols[..j] + [cols[j]];
  }

  /**
   * `flatten_unique(meta)`: every categorised column once, in the order of its
   * first appearance. callbacks/menus.py repeats the same loop as
   * `_flatten_unique`.
   */
  method FlattenUnique(meta: Meta) returns (unique: seq<string>)
    ensures unique == Dedup(AllColumns(meta))
  {
    var lists := Values(meta);
    var seen: set<string> := {};
    unique := [];
    var e := 0;
    while e < |lists|
      invariant 0 <= e <= |lists|
      invariant unique == Dedup(Flatten(lists[..e]))
      invariant Mirrors(seen, unique)
    {
      unique, seen := AddUnseen(lists[e], Flatten(lists[..e]), unique, seen);
      assert lists[..e + 1] == lists[..e] + [lists[e]];
      FlattenAppend(lists[..e], [lists[e]]);
      assert [lists[e]][..0] == [];
      e := e + 1;
    }
    assert lists[..e] == lists;
  }

  /** `flatten_unique` leaves out no column and lists none twice. */
  lemma FlattenUniqueComplete(meta: Meta, unique: seq<string>)
    requires unique == Dedup(AllColumns(meta))
    ensures Distinct(unique)
    ensures forall c :: c in unique <==> exists e :: 0 <= e < |meta| && c in meta[e].1
    ensures forall i, j :: 0 <= i < j < |unique| ==>
      IndexOf(AllColumns(meta), unique[i]) < IndexOf(AllColumns(meta), unique[j])
  {
    DedupFirstOccurrenceOrder(AllColumns(meta));
  }

  /* ---------------- dropdown options ---------------- */

  /** The value of a dropdown option: a column name or text, or a year. */
  datatype OptionValue = Name(name: string) | Year(year: int)

  /** A Dash dropdown option `{"label": ..., "value": ...}` (the label is `caption` here). */
  datatype Choice = Choice(caption: string, value: OptionValue)

  /** `make_options(values)`: one option per string, labelled and valued by it. */
  function MakeOptions(values: seq<string>): (r: seq<Choice>)
    ensures |r| == |values|
    ensures forall i :: 0 <= i < |values| ==> r[i].caption == values[i] && r[i].value == Name(values[i])
  {
    seq(|values|, i requires 0 <= i < |values| => Choice(values[i], Name(values[i])))
  }

  /** The names a list of options offers, in order. */
  function OptionNames(opts: seq<Choice>): (r: seq<string>)
    ensures |r| <= |opts|
  {
    if opts == [] then []
    else (if opts[0].value.Name? then [opts[0].value.name] else []) + OptionNames(opts[1..])
  }

  /** The options made from a list give that list back, in order and in full. */
  lemma {:induction false} MakeOptionsNames(values: seq<string>)
    ensures OptionNames(MakeOptions(values)) == values
  {
    if values != [] {
      MakeOptionsNames(values[1..]);
      assert MakeOptions(values)[1..] == MakeOptions(values[1..]);
    }
  }

  /* ---------------- columns by dtype ---------------- */

  /** `df[name].dtype` for the first column called `name`. */
  function DTypeOf(t: Table, name: string): (r: Option<DType>)
    ensures r.Some? <==> HasColumn(t, name)
  {
    match ColumnIndex(t, name)
    case Some(j) => Some(t.columns[j].dtype)
    case None => None
  }

  /** `df[c].dtype == "string"`: the pandas string dtype only, not `object`. */
  predicate IsStringColumn(t: Table, name: string) {
    DTypeOf(t, name) == Some(StringType)
  }

  /** `pd.api.types.is_numeric_dtype(df[c])`. */
  predicate IsNumericColumn(t: Table, name: string) {
    DTypeOf(t, name).Some? && IsNumericDType(DTypeOf(t, name).value)
  }

  /** `typed_lists(df, cols)`: the present columns split into (string, numeric) ones. */
  function TypedLists(t: Table, cols: seq<string>): (r: (seq<string>, seq<string>))
  {
    var present := Filter(cols, c => HasColumn(t, c));
    (Filter(present, c => IsStringColumn(t, c)), Filter(present, c => IsNumericColumn(t, c)))
  }

  /**
   * Both lists keep the order of `cols` and hold exactly the present columns
   * of their kind; no column is in both.
   */
  lemma TypedListsSplit(t: Table, cols: seq<string>)
    ensures var (strs, nums) := TypedLists(t, cols);
      && SubsequenceOf(strs, Filter(cols, c => HasColumn(t, c)))
      && SubsequenceOf(nums, Filter(cols, c => HasColumn(t, c)))
      && (forall c :: c in strs <==> c in cols && HasColumn(t, c) && DTypeOf(t, c) == Some(StringType))
      && (forall c :: c in nums <==> c in cols && HasColumn(t, c) && IsNumericDType(DTypeOf(t, c).value))
      && (forall c :: !(c in strs && c in nums))
  {
    var has := c => HasColumn(t, c);
    var present := Filter(cols, has);
    var isStr := c => IsStringColumn(t, c);
    var isNum := c => IsNumericColumn(t, c);
    assert TypedLists(t, cols) == (Filter(present, isStr), Filter(present, isNum));
    FilterSubsequence(present, isStr);
    FilterSubsequence(present, isNum);
    FilterComplete(cols, has);
    FilterComplete(present, isStr);
    FilterComplete(present, isNum);
  }

  /* ---------------- years ---------------- */

  /** Whether a real number is a whole number (`float.is_integer()`). */
  predicate IsWhole(x: real) {
    x == x.Floor as real
  }

  /** The years of the non-null timestamps, in row order (`s.dropna().dt.year`). */
  function StampYears(cells: seq<Cell>): (r: seq<int>)
    ensures forall y :: y in r <==> exists i :: 0 <= i < |cells| && cells[i].Stamp? && cells[i].date.year == y
  {
    if cells == [] then []
    else
      var init, last := cells[..|cells| - 1], cells[|cells| - 1];
      assert forall i :: 0 <= i < |init| ==> init[i] == cells[i];
      StampYears(init) + (if last.Stamp? then [last.date.year] else [])
  }

  /**
   * `pd.to_numeric(s, errors="coerce").dropna().astype("Int64")`: the
   * coercible values as integers, or an error when one of them has a
   * fractional part (pandas refuses to cast it).
   */
  function NumericYears(parse: string -> NumParse, cells: seq<Cell>): (r: Result<seq<int>>)
  {
    if cells == [] then Success([])
    else
      var init, last := cells[..|cells| - 1], cells[|cells| - 1];
      match NumericYears(parse, init)
      case Failure(e) => Failure(e)
      case Success(ys) =>
        match ToNumeric(parse, last)
        case None => Success(ys)
        case Some(x) => if IsWhole(x) then Success(ys + [x.Floor]) else Failure("cannot safely cast non-equivalent float64 to int64")
  }

  /** The numeric years are the coercible values; the cast fails iff one of them is fractional. */
  lemma {:induction false} NumericYearsMeaning(parse: string -> NumParse, cells: seq<Cell>)
    ensures NumericYears(parse, cells).Failure? <==>
      exists i :: 0 <= i < |cells| && ToNumeric(parse, cells[i]).Some? && !IsWhole(ToNumeric(parse, cells[i]).value)
    ensures NumericYears(parse, cells).Success? ==> forall y :: y in NumericYears(parse, cells).value <==>
      exists i :: 0 <= i < |cells| && ToNumeric(parse, cells[i]) == Some(y as real)
  {
    if cells != [] {
      var init, last := cells[..|cells| - 1], cells[|cells| - 1];
      NumericYearsMeaning(parse, init);
      assert forall i :: 0 <= i < |init| ==> init[i] == cells[i];
      match ToNumeric(parse, last)
      case None =>
      case Some(x) =>
        if IsWhole(x) {
          assert x.Floor as real == x;
        }
    }
  }

  /**
   * `extract_years(df, time_col)`: the years of a datetime column, or else
   * the numerically coercible values as integers; nulls and unparseable
   * values are dropped. Selecting a column that does not exist is an error.
   */
  function ExtractYears(parse: string -> NumParse, t: Table, timeCol: string): (r: Result<seq<int>>)
    requires WellFormed(t)
    ensures !HasColumn(t, timeCol) ==> r.Failure?
    ensures DTypeOf(t, timeCol) == Some(DateTimeType) ==> r == Success(StampYears(CellsNamed(t, timeCol)))
  {
    if !HasColumn(t, timeCol) then Failure("KeyError")
    else if DTypeOf(t, timeCol) == Some(DateTimeType) then Success(StampYears(CellsNamed(t, timeCol)))
    else NumericYears(parse, CellsNamed(t, timeCol))
  }
}
