/**
 * The menu and selector logic of callbacks/menus.py: the category dropdown,
 * the greedy preselection of "keep" columns, the cap on active columns, the
 * selector lists, the filter values with the "All" entry first, the ranked
 * time-column suggestions, the year values and the line-chart time selector.
 * The Dash callback wiring is not modelled; each callback is a function or
 * method of its inputs. A missing (None) list input is the empty list, and
 * the uploaded data is `None` when no file has been loaded.
 */
module Menus {
  import opened Seqs
  import opened Text
  import opened Frames
  import opened Helpers

  /** How many columns of one category the preselection takes. */
  const MAX_PER_CAT: nat := 4
  /** The hard cap on preselected and active columns. */
  const MAX_KEEP: nat := 30
  /** The categories the preselection visits first, in priority order. */
  const CATEGORY_ORDER: seq<string> := ["Coordinates", "Time", "Boolean-like", "Region or area", "Species",
    "Site type", "Counts", "Lengths", "Numeric", "Text", "Other"]

  /* ---------------- category dropdown ---------------- */

  /** The caption `f"{cat} ({len(cols)})"`. */
  function CountCaption(cat: string, n: nat): string {
    cat + " (" + NatToString(n) + ")"
  }

  /** The category names of a map, in order. */
  function Keys(meta: Meta): (r: seq<string>)
    ensures |r| == |meta| && forall e :: 0 <= e < |meta| ==> r[e] == meta[e].0
  {
    seq(|meta|, e requires 0 <= e < |meta| => meta[e].0)
  }

  /** `fill_categories(meta)`: one option per category with its column count, the first selected. */
  function FillCategories(meta: Meta): (r: (seq<Choice>, Option<string>))
    ensures |r.0| == |meta|
    ensures forall e :: 0 <= e < |meta| ==>
      r.0[e].value == Name(meta[e].0) && r.0[e].caption == CountCaption(meta[e].0, |meta[e].1|)
    ensures r.1.Some? <==> meta != []
    ensures meta != [] ==> r.1 == Some(meta[0].0)
  {
    if meta == [] then ([], None)
    else
      var options := seq(|meta|, e requires 0 <= e < |meta| =>
        Choice(CountCaption(meta[e].0, |meta[e].1|), Name(meta[e].0)));
      (options, Some(options[0].value.name))
  }

  /** The category dropdown offers exactly the categories, and its default is one of them. */
  lemma {:induction false} FillCategoriesOffersKeys(meta: Meta)
    ensures OptionNames(FillCategories(meta).0) == Keys(meta)
    ensures FillCategories(meta).1.Some? ==> FillCategories(meta).1.value in OptionNames(FillCategories(meta).0)
  {
    if meta != [] {
      FillCategoriesOffersKeys(meta[1..]);
      assert FillCategories(meta).0[1..] == FillCategories(meta[1..]).0;
      assert Keys(meta) == [meta[0].0] + Keys(meta[1..]);
    }
  }

  /** The count in a caption can be read back: distinct counts give distinct captions. */
  lemma CountCaptionInjective(cat: string, a: nat, b: nat)
    requires CountCaption(cat, a) == CountCaption(cat, b)
    ensures a == b
  {
    var pre := cat + " (";
    assert CountCaption(cat, a) == pre + NatToString(a) + ")";
    assert CountCaption(cat, b) == pre + NatToString(b) + ")";
    assert |NatToString(a)| == |NatToString(b)|;
    assert NatToString(a) == CountCaption(cat, a)[|pre|..|pre| + |NatToString(a)|];
    assert NatToString(b) == CountCaption(cat, b)[|pre|..|pre| + |NatToString(b)|];
    NatToStringInjective(a, b);
  }

  /* ---------------- greedy preselection ---------------- */

  /** `meta.get(cat, [])`: the columns of the first entry for `cat`, or none. */
  function Lookup(meta: Meta, cat: string): (r: seq<string>)
    ensures forall c :: c in r ==> c in AllColumns(meta)
  {
    if meta == [] then []
    else if meta[0].0 == cat then meta[0].1
    else
      assert forall e :: 0 <= e < |meta[1..]| ==> meta[1..][e] == meta[e + 1];
      Lookup(meta[1..], cat)
  }

  /** `meta.get` finds the first entry for `cat`, and nothing when no entry has that name. */
  lemma {:induction false} LookupMeaning(meta: Meta, cat: string, e: int)
    requires 0 <= e < |meta| && meta[e].0 == cat && forall d :: 0 <= d < e ==> meta[d].0 != cat
    ensures Lookup(meta, cat) == meta[e].1
  {
    if e > 0 {
      LookupMeaning(meta[1..], cat, e - 1);
    }
  }

  lemma {:induction false} LookupMissing(meta: Meta, cat: string)
    requires forall e :: 0 <= e < |meta| ==> meta[e].0 != cat
    ensures Lookup(meta, cat) == []
  {
    if meta != [] {
      LookupMissing(meta[1..], cat);
    }
  }

  /**
   * `show_columns(meta, selected_category)`: the columns listed for the
   * chosen category, or `None` for the "No columns found" text.
   */
  function ShowColumns(meta: Meta, selected: Option<string>): (r: Option<seq<string>>)
    ensures r.None? <==> meta == [] || !Truthy(selected)
    ensures r.Some? ==> forall c :: c in r.value ==> c in AllColumns(meta)
  {
    if meta == [] || !Truthy(selected) then None else Some(Lookup(meta, selected.value))
  }

  /** Phase 1: the coordinates, when both are present. */
  function CoordinateCandidates(t: Table): seq<string> {
    if HasCoordinates(t) then [LATITUDE, LONGITUDE] else []
  }

  /** Phase 2: the first `MAX_PER_CAT` columns of each category, in priority order. */
  function PriorityLists(meta: Meta): (r: seq<seq<string>>)
    ensures |r| == |CATEGORY_ORDER|
    ensures forall k :: 0 <= k < |r| ==> r[k] == Take(Lookup(meta, CATEGORY_ORDER[k]), MAX_PER_CAT)
  {
    seq(|CATEGORY_ORDER|, k requires 0 <= k < |CATEGORY_ORDER| =>
      Take(Lookup(meta, CATEGORY_ORDER[k]), MAX_PER_CAT))
  }

  /** Every column the preselection looks at, in the order it looks at them (phase 3 is the whole map). */
  function Candidates(meta: Meta, t: Table): seq<string> {
    CoordinateCandidates(t) + Flatten(PriorityLists(meta)) + AllColumns(meta)
  }

  /** The preselection: the first `MAX_KEEP` distinct candidates. */
  function KeepSelection(meta: Meta, t: Table): (r: seq<string>)
    ensures |r| <= MAX_KEEP
  {
    Take(Dedup(Candidates(meta, t)), MAX_KEEP)
  }

  /** One step of the greedy loops: a new column is appended while there is room. */
  function Pick(picked: seq<string>, c: string): seq<string> {
    if |picked| >= MAX_KEEP || c in picked then picked else picked + [c]
  }

  /** The greedy loops run over `cs`, starting from `picked`. */
  function Feed(picked: seq<string>, cs: seq<string>): seq<string> {
    if cs == [] then picked else Pick(Feed(picked, cs[..|cs| - 1]), cs[|cs| - 1])
  }

  lemma FeedSnoc(picked: seq<string>, cs: seq<string>, c: string)
    ensures Feed(picked, cs + [c]) == Pick(Feed(picked, cs), c)
  {
    assert (cs + [c])[..|cs + [c]| - 1] == cs;
  }

  lemma {:induction false} FeedAppend(picked: seq<string>, a: seq<string>, b: seq<string>)
    ensures Feed(picked, a + b) == Feed(Feed(picked, a), b)
    decreases |b|
  {
    if b == [] {
      assert a + b == a;
    } else {
      var init, last := b[..|b| - 1], b[|b| - 1];
      assert a + b == (a + init) + [last];
      FeedAppend(picked, a, init);
      FeedSnoc(picked, a + init, last);
    }
  }

  /** Once the cap is reached, nothing more is picked. */
  lemma {:induction false} FeedFull(picked: seq<string>, cs: seq<string>)
    requires |picked| >= MAX_KEEP
    ensures Feed(picked, cs) == picked
  {
    if cs != [] {
      FeedFull(picked, cs[..|cs| - 1]);
    }
  }

  /** The greedy loops from nothing pick the first `MAX_KEEP` distinct columns. */
  lemma {:induction false} FeedTakesDistinct(cs: seq<string>)
    ensures Feed([], cs) == Take(Dedup(cs), MAX_KEEP)
  {
    if cs != [] {
      var init, last := cs[..|cs| - 1], cs[|cs| - 1];
      FeedTakesDistinct(init);
      assert cs == init + [last];
      DedupSnoc(init, last);
      var d := Dedup(init);
      if |d| >= MAX_KEEP {
        DedupPrefix(init, [last]);
      }
    }
  }

  /**
   * The inner loop of one phase of `init_keep_cols`: append each column not
   * yet seen, and stop as soon as `MAX_KEEP` are picked.
   */
  method PickColumns(cols: seq<string>, picked0: seq<string>, seen0: set<string>)
    returns (picked: seq<string>, seen: set<string>)
    requires |picked0| < MAX_KEEP && Mirrors(seen0, picked0)
    ensures picked == Feed(picked0, cols) && Mirrors(seen, picked)
  {
    picked, seen := picked0, seen0;
    var j := 0;
    while j < |cols|
      invariant 0 <= j <= |cols|
      invariant picked == Feed(picked0, cols[..j]) && Mirrors(seen, picked)
      invariant |picked| < MAX_KEEP
    {
      var c := cols[j];
      FeedSnoc(picked0, cols[..j], c);
      assert cols[..j + 1] == cols[..j] + [c];
      if c !in seen {
        picked := picked + [c];
        seen := seen + {c};
      }
      j := j + 1;
      if |picked| >= MAX_KEEP {
        FeedAppend(picked0, cols[..j], cols[j..]);
        assert cols[..j] + cols[j..] == cols;
        FeedFull(picked, cols[j..]);
        return;
      }
    }
    assert cols[..j] == cols;
  }

  /** `Flatten` of a list of lists, one more list at the end. */
  lemma FlattenSnoc(lists: seq<seq<string>>, cols: seq<string>)
    ensures Flatten(lists + [cols]) == Flatten(lists) + cols
  {
    assert (lists + [cols])[..|lists|] == lists;
  }

  /**
   * One phase of `init_keep_cols`: the nested loops over `lists`, stopping
   * as soon as `MAX_KEEP` columns are picked.
   */
  method PickFrom(lists: seq<seq<string>>, picked0: seq<string>, seen0: set<string>)
    returns (picked: seq<string>, seen: set<string>)
    requires |picked0| < MAX_KEEP && Mirrors(seen0, picked0)
    ensures picked == Feed(picked0, Flatten(lists)) && Mirrors(seen, picked)
  {
    picked, seen := picked0, seen0;
    var k := 0;
    while k < |lists|
      invariant 0 <= k <= |lists|
      invariant picked == Feed(picked0, Flatten(lists[..k])) && Mirrors(seen, picked)
      invariant |picked| < MAX_KEEP
    {
      picked, seen := PickColumns(lists[k], picked, seen);
      FeedListStep(picked0, lists, k);
      k := k + 1;
      if |picked| >= MAX_KEEP {
        FeedListsFull(picked0, lists, k, picked);
        return;
      }
    }
    assert lists[..k] == lists;
  }

  /** Feeding one more list of the phase. */
  lemma FeedListStep(picked0: seq<string>, lists: seq<seq<string>>, k: nat)
    requires k < |lists|
    ensures Feed(picked0, Flatten(lists[..k + 1])) == Feed(Feed(picked0, Flatten(lists[..k])), lists[k])
  {
    FlattenSnoc(lists[..k], lists[k]);
    assert lists[..k + 1] == lists[..k] + [lists[k]];
    FeedAppend(picked0, Flatten(lists[..k]), lists[k]);
  }

  /** Once the cap is reached after `k` lists, the remaining lists pick nothing. */
  lemma FeedListsFull(picked0: seq<string>, lists: seq<seq<string>>, k: nat, picked: seq<string>)
    requires k <= |lists| && picked == Feed(picked0, Flatten(lists[..k])) && |picked| >= MAX_KEEP
    ensures Feed(picked0, Flatten(lists)) == picked
  {
    FlattenAppend(lists[..k], lists[k..]);
    assert lists[..k] + lists[k..] == lists;
    FeedAppend(picked0, Flatten(lists[..k]), Flatten(lists[k..]));
    FeedFull(picked, Flatten(lists[k..]));
  }

  /** The first loop of `init_keep_cols`: `latitude` then `longitude`, each once, with no cap. */
  method PickCoordinates() returns (picked: seq<string>, seen: set<string>)
    ensures picked == Feed([], [LATITUDE, LONGITUDE]) && Mirrors(seen, picked) && |picked| <= 2
  {
    var coords := [LATITUDE, LONGITUDE];
    picked, seen := [], {};
    var i := 0;
    while i < |coords|
      invariant 0 <= i <= |coords|
      invariant picked == Feed([], coords[..i]) && Mirrors(seen, picked) && |picked| <= i
    {
      var c := coords[i];
      FeedSnoc([], coords[..i], c);
      assert coords[..i + 1] == coords[..i] + [c];
      if c !in seen {
        picked := picked + [c];
        seen := seen + {c};
      }
      i := i + 1;
    }
    assert coords[..i] == coords;
  }

  /**
   * `init_keep_cols(meta, data)`: the options are every categorised column
   * once; the preselection takes the coordinates when both exist, then up to
   * `MAX_PER_CAT` columns per category in `CATEGORY_ORDER`, then fills up in
   * map order, never more than `MAX_KEEP` and never a column twice.
   */
  method InitKeepCols(meta: Meta, data: Option<Table>) returns (options: seq<Choice>, picked: seq<string>)
    ensures meta == [] || data.None? ==> options == [] && picked == []
    ensures meta != [] && data.Some? ==>
      options == MakeOptions(Dedup(AllColumns(meta))) && picked == KeepSelection(meta, data.value)
  {
    if meta == [] || data.None? {
      return [], [];
    }
    var df := data.value;
    var allCols := FlattenUnique(meta);
    options := MakeOptions(allCols);
    picked := [];
    var seen: set<string> := {};
    var coords := CoordinateCandidates(df);
    if HasColumn(df, LATITUDE) && HasColumn(df, LONGITUDE) {
      picked, seen := PickCoordinates();
    }
    var priority := PriorityLists(meta);
    picked, seen := PickFrom(priority, picked, seen);
    FeedAppend([], coords, Flatten(priority));
    var rest := Values(meta);
    if |picked| < MAX_KEEP {
      picked, seen := PickFrom(rest, picked, seen);
    } else {
      FeedFull(picked, Flatten(rest));
    }
    FeedAppend([], coords + Flatten(priority), Flatten(rest));
    FeedTakesDistinct(Candidates(meta, df));
  }

  /** The preselection is duplicate-free, capped, and picks only categorised columns or coordinates. */
  lemma KeepSelectionBounded(meta: Meta, t: Table)
    ensures Distinct(KeepSelection(meta, t)) && |KeepSelection(meta, t)| <= MAX_KEEP
    ensures forall c :: c in KeepSelection(meta, t) ==>
      c in AllColumns(meta) || (HasCoordinates(t) && (c == LATITUDE || c == LONGITUDE))
  {
    var d := Dedup(Candidates(meta, t));
    var r := KeepSelection(meta, t);
    assert r == d[..|r|];
    forall c | c in r
      ensures c in AllColumns(meta) || (HasCoordinates(t) && (c == LATITUDE || c == LONGITUDE))
    {
      assert c in Candidates(meta, t);
      if c in Flatten(PriorityLists(meta)) {
        var k :| 0 <= k < |PriorityLists(meta)| && c in PriorityLists(meta)[k];
        assert c in Lookup(meta, CATEGORY_ORDER[k]);
      }
    }
  }

  /** Two different elements in front come out first, in their order. */
  lemma DedupPairFirst(a: string, b: string, rest: seq<string>)
    requires a != b
    ensures |Dedup([a, b] + rest)| >= 2 && Dedup([a, b] + rest)[0] == a && Dedup([a, b] + rest)[1] == b
  {
    DedupPrefix([a, b], rest);
    DedupSnoc([a], b);
    DedupSnoc([], a);
    assert [] + [a] == [a];
    assert [a] + [b] == [a, b];
  }

  /** When both coordinates exist they are the first two picked columns. */
  lemma CoordinatesFirst(meta: Meta, t: Table)
    requires HasCoordinates(t)
    ensures |KeepSelection(meta, t)| >= 2
    ensures KeepSelection(meta, t)[0] == LATITUDE && KeepSelection(meta, t)[1] == LONGITUDE
  {
    var rest := Flatten(PriorityLists(meta)) + AllColumns(meta);
    assert Candidates(meta, t) == [LATITUDE, LONGITUDE] + rest;
    assert |LATITUDE| != |LONGITUDE|;
    DedupPairFirst(LATITUDE, LONGITUDE, rest);
  }

  /**
   * When the coordinates and the first `MAX_PER_CAT` columns of every
   * priority category fit under the cap, they are all picked, first and in
   * that order.
   */
  lemma PriorityPicksFirst(meta: Meta, t: Table)
    requires |Dedup(CoordinateCandidates(t) + Flatten(PriorityLists(meta)))| <= MAX_KEEP
    ensures var first := Dedup(CoordinateCandidates(t) + Flatten(PriorityLists(meta)));
      |first| <= |KeepSelection(meta, t)| && KeepSelection(meta, t)[..|first|] == first
  {
    DedupPrefix(CoordinateCandidates(t) + Flatten(PriorityLists(meta)), AllColumns(meta));
  }

  /**
   * When the map holds at most `MAX_KEEP` distinct columns and the
   * coordinates, when both exist, are among them (as they are for a map
   * built from the table), every categorised column is picked.
   */
  lemma AllPickedWhenFew(meta: Meta, t: Table)
    requires |Dedup(AllColumns(meta))| <= MAX_KEEP
    requires HasCoordinates(t) ==> LATITUDE in AllColumns(meta) && LONGITUDE in AllColumns(meta)
    ensures forall c :: c in AllColumns(meta) ==> c in KeepSelection(meta, t)
  {
    var cands := Candidates(meta, t);
    forall c | c in cands ensures c in AllColumns(meta) {
      if c in Flatten(PriorityLists(meta)) {
        var k :| 0 <= k < |PriorityLists(meta)| && c in PriorityLists(meta)[k];
        assert c in Lookup(meta, CATEGORY_ORDER[k]);
      }
    }
    SameElementsSameLength(Dedup(cands), Dedup(AllColumns(meta)));
  }

  /* ---------------- active columns ---------------- */

  /** `update_active_cols(selected)`: the first `MAX_KEEP` kept columns (`[]` for None). */
  function ActiveCols(selected: Option<seq<string>>): (r: seq<string>)
    ensures |r| <= MAX_KEEP
    ensures selected.None? ==> r == []
    ensures selected.Some? ==> |r| <= |selected.value| && r == selected.value[..|r|]
    ensures selected.Some? && |selected.value| <= MAX_KEEP ==> r == selected.value
    ensures selected.Some? && |selected.value| > MAX_KEEP ==> |r| == MAX_KEEP
  {
    match selected
    case None => []
    case Some(s) => Take(s, MAX_KEEP)
  }

  /** The preselection passes to the active columns unchanged, and capping twice changes nothing. */
  lemma ActiveColsKeepPreselection(meta: Meta, t: Table, selected: Option<seq<string>>)
    ensures ActiveCols(Some(KeepSelection(meta, t))) == KeepSelection(meta, t)
    ensures ActiveCols(Some(ActiveCols(selected))) == ActiveCols(selected)
  {
  }

  /* ---------------- chart selectors ---------------- */

  /**
   * The three option lists `fill_selectors` hands out: every active present
   * column (the filter), the categorical choice (x, pie, box x, scatter
   * colour) and the numeric choice (y, hist, box y, line y, scatter x and y).
   */
  datatype Selectors = Selectors(all: seq<Choice>, categorical: seq<Choice>, numeric: seq<Choice>)

  /** `a or b` on lists. */
  function OrElse(a: seq<string>, b: seq<string>): seq<string> {
    if a != [] then a else b
  }

  /** `fill_selectors(active_cols, data)`. */
  function FillSelectors(active: seq<string>, data: Option<Table>): (r: Selectors)
    ensures active == [] || data.None? ==> r == Selectors([], [], [])
  {
    if active == [] || data.None? then Selectors([], [], [])
    else
      var t := data.value;
      var cols := Filter(active, c => HasColumn(t, c));
      var (strs, nums) := TypedLists(t, cols);
      Selectors(MakeOptions(cols), MakeOptions(OrElse(strs, cols)), MakeOptions(OrElse(nums, cols)))
  }

  /**
   * Every selector offers only active columns present in the table; the
   * categorical and numeric ones offer only string (resp. numeric) columns
   * whenever the active columns include one.
   */
  lemma FillSelectorsOffer(active: seq<string>, t: Table)
    ensures var r := FillSelectors(active, Some(t));
      && (forall c :: c in OptionNames(r.all) <==> c in active && HasColumn(t, c))
      && (forall c :: c in OptionNames(r.categorical) ==> c in active && HasColumn(t, c))
      && (forall c :: c in OptionNames(r.numeric) ==> c in active && HasColumn(t, c))
      && ((exists c :: c in active && IsStringColumn(t, c)) ==>
            forall c :: c in OptionNames(r.categorical) ==> IsStringColumn(t, c))
      && ((exists c :: c in active && IsNumericColumn(t, c)) ==>
            forall c :: c in OptionNames(r.numeric) ==> IsNumericColumn(t, c))
  {
    var has := c => HasColumn(t, c);
    var cols := Filter(active, has);
    FilterComplete(active, has);
    TypedListsSplit(t, cols);
    var (strs, nums) := TypedLists(t, cols);
    if active != [] {
      assert FillSelectors(active, Some(t)) ==
        Selectors(MakeOptions(cols), MakeOptions(OrElse(strs, cols)), MakeOptions(OrElse(nums, cols)));
    }
    MakeOptionsNames(cols);
    MakeOptionsNames(OrElse(strs, cols));
    MakeOptionsNames(OrElse(nums, cols));
    if exists c :: c in active && IsStringColumn(t, c) {
      var c :| c in active && IsStringColumn(t, c);
      assert c in strs;
    }
    if exists c :: c in active && IsNumericColumn(t, c) {
      var c :| c in active && IsNumericColumn(t, c);
      assert c in nums;
    }
  }

  /* ---------------- filter values ---------------- */

  /** `.dropna().astype(str)` of one column: the non-null cells rendered as strings. */
  function Shown(show: Cell -> string, cells: seq<Cell>): (r: seq<string>)
    ensures forall v :: v in r <==> exists c :: c in cells && !c.Missing? && AsString(show, c) == v
  {
    var present := NonMissing(cells);
    var r := seq(|present|, i requires 0 <= i < |present| => AsString(show, present[i]));
    assert forall c :: c in present ==> AsString(show, c) in r by {
      forall c | c in present ensures AsString(show, c) in r {
        var i :| 0 <= i < |present| && present[i] == c;
        assert r[i] == AsString(show, c);
      }
    }
    r
  }

  /**
   * `fill_filter_values(selected_col, data, active_cols)`: "All" first, then
   * the distinct non-null values of the column as strings in ascending
   * order, with "All" selected; nothing when the column is unset, not active
   * or not in the table.
   */
  function FillFilterValues(show: Cell -> string, selected: Option<string>, data: Option<Table>, active: seq<string>)
    : (r: (seq<Choice>, Option<string>))
    requires data.Some? ==> WellFormed(data.value)
    ensures !Truthy(selected) || data.None? || active == [] ==> r == ([], None)
    ensures Truthy(selected) && data.Some? && (selected.value !in active || !HasColumn(data.value, selected.value)) ==>
      r == ([], None)
  {
    if !Truthy(selected) || data.None? || active == [] then ([], None)
    else
      var t, col := data.value, selected.value;
      if col !in active || !HasColumn(t, col) then ([], None)
      else
        var vals := SortUnique(Shown(show, CellsNamed(t, col)), LexLess);
        ([Choice("All", Name(ALL_SENTINEL))] + MakeOptions(vals), Some(ALL_SENTINEL))
  }

  /**
   * For an active column in the table, the "All" option comes first and is
   * the default; the values after it are strictly ascending and are exactly
   * the string forms of the column's non-null cells.
   */
  lemma FilterValuesMeaning(show: Cell -> string, col: string, t: Table, active: seq<string>)
    requires WellFormed(t) && col != "" && col in active && HasColumn(t, col)
    ensures var (opts, value) := FillFilterValues(show, Some(col), Some(t), active);
      && opts != [] && opts[0] == Choice("All", Name(ALL_SENTINEL)) && value == Some(ALL_SENTINEL)
      && StrictlySorted(OptionNames(opts[1..]), LexLess)
      && forall v :: v in OptionNames(opts[1..]) <==>
           exists c :: c in CellsNamed(t, col) && !c.Missing? && AsString(show, c) == v
  {
    var vals := SortUnique(Shown(show, CellsNamed(t, col)), LexLess);
    var opts := [Choice("All", Name(ALL_SENTINEL))] + MakeOptions(vals);
    assert FillFilterValues(show, Some(col), Some(t), active) == (opts, Some(ALL_SENTINEL));
    assert opts[1..] == MakeOptions(vals);
    MakeOptionsNames(vals);
    LexLessIsStrictTotalOrder();
    SortUniqueSorted(Shown(show, CellsNamed(t, col)), LexLess);
  }

  /* ---------------- time columns ---------------- */

  /** The sort key of `fill_time_column_options`: datetime, then integer, then string, then the rest. */
  function TimeRank(t: Table, c: string): (r: int)
    ensures 0 <= r <= 3
  {
    match DTypeOf(t, c)
    case Some(DateTimeType) => 0
    case Some(IntType) => 1
    case Some(d) => if IsStringDType(d) then 2 else 3
    case None => 3
  }

  /** The Time columns that are active and present, in map order. */
  function TimeCandidates(meta: Meta, active: seq<string>, t: Table): (r: seq<string>) {
    Filter(Lookup(meta, "Time"), c => c in active && HasColumn(t, c))
  }

  /**
   * `fill_time_column_options(meta, active_cols, data)`: the candidates
   * stable-sorted by rank, the first one selected.
   */
  function FillTimeColumnOptions(meta: Meta, active: seq<string>, data: Option<Table>)
    : (r: (seq<Choice>, Option<string>))
    ensures meta == [] || active == [] || data.None? ==> r == ([], None)
    ensures r.1.Some? <==> r.0 != []
    ensures r.1.Some? ==> r.0[0].value == Name(r.1.value)
  {
    if meta == [] || active == [] || data.None? then ([], None)
    else
      var t := data.value;
      var sorted := SortBy(TimeCandidates(meta, active, t), c => TimeRank(t, c));
      (MakeOptions(sorted), if sorted != [] then Some(sorted[0]) else None)
  }

  /**
   * The suggestions are the active, present Time columns, each once as
   * often as listed, in rank order, with equal ranks in map order.
   */
  lemma TimeOptionsMeaning(meta: Meta, active: seq<string>, t: Table, k: int)
    requires meta != [] && active != []
    ensures var names := OptionNames(FillTimeColumnOptions(meta, active, Some(t)).0);
      var rank := c => TimeRank(t, c);
      && multiset(names) == multiset(TimeCandidates(meta, active, t))
      && SortedBy(names, rank)
      && WithKey(names, rank, k) == WithKey(TimeCandidates(meta, active, t), rank, k)
      && forall c :: c in names ==> c in active && HasColumn(t, c) && c in Lookup(meta, "Time")
  {
    var rank := c => TimeRank(t, c);
    var cands := TimeCandidates(meta, active, t);
    var sorted := SortBy(cands, rank);
    assert FillTimeColumnOptions(meta, active, Some(t)).0 == MakeOptions(sorted);
    MakeOptionsNames(sorted);
    SortByPermutes(cands, rank);
    SortByStable(cands, rank, k);
    forall c | c in sorted ensures c in cands {
      assert c in multiset(sorted);
    }
  }

  /* ---------------- year values ---------------- */

  /** One option per year: captioned by its decimal form, valued by the number. */
  function YearChoices(years: seq<int>): (r: seq<Choice>)
    ensures |r| == |years|
    ensures forall i :: 0 <= i < |years| ==> r[i] == Choice(IntToString(years[i]), Year(years[i]))
  {
    seq(|years|, i requires 0 <= i < |years| => Choice(IntToString(years[i]), Year(years[i])))
  }

  /** The years a list of options offers, in order. */
  function OptionYears(opts: seq<Choice>): (r: seq<int>) {
    if opts == [] then []
    else (if opts[0].value.Year? then [opts[0].value.year] else []) + OptionYears(opts[1..])
  }

  lemma {:induction false} YearChoicesYears(years: seq<int>)
    ensures OptionYears(YearChoices(years)) == years
  {
    if years != [] {
      YearChoicesYears(years[1..]);
      assert YearChoices(years)[1..] == YearChoices(years[1..]);
    }
  }

  /**
   * `fill_year_values(time_col, data)`: "All years" and then every distinct
   * year in ascending order, with "All years" selected; nothing for an
   * unset or unknown column or when no year can be read. The extraction's
   * error propagates.
   */
  function FillYearValues(parse: string -> NumParse, timeCol: Option<string>, data: Option<Table>)
    : (r: Result<(seq<Choice>, seq<OptionValue>)>)
    requires data.Some? ==> WellFormed(data.value)
    ensures !Truthy(timeCol) || data.None? ==> r == Success(([], []))
    ensures Truthy(timeCol) && data.Some? && !HasColumn(data.value, timeCol.value) ==> r == Success(([], []))
  {
    if !Truthy(timeCol) || data.None? then Success(([], []))
    else
      var t, col := data.value, timeCol.value;
      if !HasColumn(t, col) then Success(([], []))
      else
        match ExtractYears(parse, t, col)
        case Failure(e) => Failure(e)
        case Success(years) =>
          if years == [] then Success(([], []))
          else
            var uniq := SortUnique(years, IntLess);
            Success(([Choice("All years", Name(ALL_SENTINEL))] + YearChoices(uniq), [Name(ALL_SENTINEL)]))
  }

  /**
   * When years were extracted, the options are "All years" followed by the
   * distinct years in strictly ascending order, and the default is "All".
   */
  lemma YearValuesMeaning(parse: string -> NumParse, col: string, t: Table)
    requires WellFormed(t) && col != "" && HasColumn(t, col)
    requires ExtractYears(parse, t, col).Success? && ExtractYears(parse, t, col).value != []
    ensures var r := FillYearValues(parse, Some(col), Some(t));
      var years := ExtractYears(parse, t, col).value;
      && r.Success?
      && r.value.0 != [] && r.value.0[0] == Choice("All years", Name(ALL_SENTINEL))
      && r.value.1 == [Name(ALL_SENTINEL)]
      && StrictlySorted(OptionYears(r.value.0[1..]), IntLess)
      && forall y :: y in OptionYears(r.value.0[1..]) <==> y in years
  {
    var years := ExtractYears(parse, t, col).value;
    var uniq := SortUnique(years, IntLess);
    var opts := [Choice("All years", Name(ALL_SENTINEL))] + YearChoices(uniq);
    assert FillYearValues(parse, Some(col), Some(t)) == Success((opts, [Name(ALL_SENTINEL)]));
    assert opts[1..] == YearChoices(uniq);
    YearChoicesYears(uniq);
    IntLessIsStrictTotalOrder();
    SortUniqueSorted(years, IntLess);
  }

  /* ---------------- line-chart time selector ---------------- */

  /** `sync_line_time_selector(time_opts, time_val)`: the same options; the value only when there are options. */
  function SyncLineTimeSelector(timeOpts: seq<Choice>, timeVal: Option<string>): (r: (seq<Choice>, Option<string>))
    ensures r.0 == timeOpts
    ensures r.1.Some? ==> timeOpts != [] && r.1 == timeVal
  {
    (timeOpts, if timeOpts != [] then timeVal else None)
  }

  /** Syncing the time-column suggestions copies them exactly, default included. */
  lemma SyncCopiesTimeOptions(meta: Meta, active: seq<string>, data: Option<Table>)
    ensures var (opts, value) := FillTimeColumnOptions(meta, active, data);
      SyncLineTimeSelector(opts, value) == (opts, value)
  {
  }
}
