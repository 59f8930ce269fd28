/**
 * `preprocessing/column_classifier.py`: every column is put into the first
 * category of an ordered rule table whose keywords its trimmed, lower-cased
 * name contains (or equals, for whole-word keywords); a column no rule
 * matches falls back to Numeric, Text or Other by its dtype. The result
 * lists the non-empty categories in the fixed category order, each with its
 * columns in table order.
 */
module Classifier {
  import opened Seqs
  import opened Text
  import opened Frames

  /** One entry of `CAT_RULES`: its substring keywords and its whole-name keywords. */
  datatype Rule = Rule(category: string, containsAny: seq<string>, wholeWord: seq<string>)

  const TIME_RULE: Rule := Rule("Time",
    ["date", "time", "aika", "päivä", "kuukausi", "viikko", "vmi", "vuosi", "timestamp", "datetime", "created", "modified"],
    ["pvm", "pp", "dd", "kk", "mm", "yyyy", "vvvv", "vko"])

  const COORDINATES_RULE: Rule := Rule("Coordinates",
    ["lat", "latitude", "lon", "long", "lng", "longitude", "koord", "coord", "x_", "y_"],
    ["x", "y"])

  const REGION_RULE: Rule := Rule("Region or area",
    ["maakunta", "region", "county", "province", "country", "block", "stand", "plot", "pinta-ala", "area", "pinta_ala"],
    ["site"])

  const SPECIES_RULE: Rule := Rule("Species", ["species"], ["puulaji"])

  const SITE_TYPE_RULE: Rule := Rule("Site type",
    ["metsätyypp", "metsa", "forest type", "site", "soil", "maaperä", "ground type"],
    ["site.type", "site_type", "maan_laji", "maalaji", "maa_laji"])

  const COUNTS_RULE: Rule :=
    Rule("Counts", ["count", "number", "quantity", "määrä", "lukumäärä", "no", "lkm", "kpl", "qty"], [])

  const LENGTHS_RULE: Rule := Rule("Lengths", ["length", "pituus", "height", "korkeus", "diameter", "läpimitta"], [])

  /** `CAT_RULES`, in its declaration order (the order in which rules are tried). */
  const CAT_RULES: seq<Rule> :=
    [TIME_RULE, COORDINATES_RULE, REGION_RULE, SPECIES_RULE, SITE_TYPE_RULE, COUNTS_RULE, LENGTHS_RULE]

  lemma RuleOrder()
    ensures |CAT_RULES| == 7
    ensures CAT_RULES[0] == TIME_RULE && CAT_RULES[1] == COORDINATES_RULE && CAT_RULES[2] == REGION_RULE
    ensures CAT_RULES[5] == COUNTS_RULE
  {
  }

  /** The names of the three dtype fallbacks, after the rule categories. */
  const FALLBACKS: seq<string> := ["Numeric", "Text", "Other"]

  /**
   * The keys of `cats`: the rule categories in table order, then the
   * fallbacks. The model takes the rule table as a parameter; `CAT_RULES`
   * is the table the application uses.
   */
  function Categories(rules: seq<Rule>): (r: seq<string>)
    ensures |r| == |rules| + 3
    ensures forall k :: 0 <= k < |rules| ==> r[k] == rules[k].category
    ensures r[|rules|..] == FALLBACKS
  {
    seq(|rules|, k requires 0 <= k < |rules| => rules[k].category) + FALLBACKS
  }

  /** `str(colname).strip().lower()`. */
  function Trimmed(colname: string): string {
    Lower(Strip(colname))
  }

  /** `any(w.lower() in name for w in ws)`. */
  predicate ContainsKeyword(name: string, ws: seq<string>) {
    ws != [] && (Contains(name, Lower(ws[0])) || ContainsKeyword(name, ws[1..]))
  }

  /** `any(name == w.lower() for w in ws)`. */
  predicate EqualsKeyword(name: string, ws: seq<string>) {
    ws != [] && (name == Lower(ws[0]) || EqualsKeyword(name, ws[1..]))
  }

  /** `match_category`: the two keyword loops, substring keywords first. */
  predicate MatchCategory(colname: string, rule: Rule) {
    var name := Trimmed(colname);
    ContainsKeyword(name, rule.containsAny) || EqualsKeyword(name, rule.wholeWord)
  }

  lemma {:induction false} ContainsKeywordMeaning(name: string, ws: seq<string>)
    ensures ContainsKeyword(name, ws) <==> exists w :: w in ws && Contains(name, Lower(w))
  {
    if ws != [] {
      ContainsKeywordMeaning(name, ws[1..]);
      assert forall w :: w in ws <==> w == ws[0] || w in ws[1..];
    }
  }

  lemma {:induction false} EqualsKeywordMeaning(name: string, ws: seq<string>)
    ensures EqualsKeyword(name, ws) <==> exists w :: w in ws && name == Lower(w)
  {
    if ws != [] {
      EqualsKeywordMeaning(name, ws[1..]);
      assert forall w :: w in ws <==> w == ws[0] || w in ws[1..];
    }
  }

  /**
   * A column name matches a rule exactly when its trimmed, lower-cased form
   * contains one of the rule's substring keywords or equals one of its
   * whole-word keywords (each keyword lower-cased).
   */
  lemma MatchCategoryMeaning(colname: string, rule: Rule)
    ensures MatchCategory(colname, rule) <==>
      || (exists w :: w in rule.containsAny && Contains(Trimmed(colname), Lower(w)))
      || (exists w :: w in rule.wholeWord && Trimmed(colname) == Lower(w))
  {
    ContainsKeywordMeaning(Trimmed(colname), rule.containsAny);
    EqualsKeywordMeaning(Trimmed(colname), rule.wholeWord);
  }

  /** The position of the first rule the name matches. */
  function FirstMatch(colname: string, rules: seq<Rule>): (r: Option<nat>)
    ensures r.Some? ==> r.value < |rules| && MatchCategory(colname, rules[r.value])
    ensures r.Some? ==> forall j :: 0 <= j < r.value ==> !MatchCategory(colname, rules[j])
    ensures r.None? ==> forall j :: 0 <= j < |rules| ==> !MatchCategory(colname, rules[j])
  {
    if rules == [] then None
    else if MatchCategory(colname, rules[0]) then Some(0)
    else match FirstMatch(colname, rules[1..])
      case None => None
      case Some(k) => Some(k + 1)
  }

  /** The position in `Categories(rules)` of the category a column is put into. */
  function CategoryIndex(rules: seq<Rule>, col: Column): (r: nat)
    ensures r < |rules| + 3
  {
    match FirstMatch(col.name, rules)
    case Some(k) => k
    case None =>
      if IsNumericDType(col.dtype) then |rules|
      else if IsStringDType(col.dtype) then |rules| + 1
      else |rules| + 2
  }

  /**
   * A column goes to the first rule its name matches; a column no rule
   * matches goes to Numeric for a numeric dtype, else Text for a string
   * dtype, else Other.
   */
  lemma CategoryIndexMeaning(rules: seq<Rule>, col: Column)
    ensures var r := CategoryIndex(rules, col);
      && (r < |rules| ==> MatchCategory(col.name, rules[r]))
      && (forall j :: 0 <= j < r && j < |rules| ==> !MatchCategory(col.name, rules[j]))
      && (r == |rules| <==> r >= |rules| && IsNumericDType(col.dtype))
      && (r == |rules| + 1 <==> r >= |rules| && !IsNumericDType(col.dtype) && IsStringDType(col.dtype))
      && (r == |rules| + 2 <==> r >= |rules| && !IsNumericDType(col.dtype) && !IsStringDType(col.dtype))
  {
  }

  /** The first rule the name matches decides its category. */
  lemma FirstMatchWins(rules: seq<Rule>, col: Column, k: nat)
    requires k < |rules| && MatchCategory(col.name, rules[k])
    requires forall j :: 0 <= j < k ==> !MatchCategory(col.name, rules[j])
    ensures CategoryIndex(rules, col) == k
  {
    CategoryIndexMeaning(rules, col);
  }

  /** The category of every column, in table order. */
  function Labels(rules: seq<Rule>, cols: seq<Column>): (r: seq<nat>)
    ensures |r| == |cols|
    ensures forall i :: 0 <= i < |cols| ==> r[i] == CategoryIndex(rules, cols[i])
  {
    seq(|cols|, i requires 0 <= i < |cols| => CategoryIndex(rules, cols[i]))
  }

  /** The names labelled `k`, in table order (`cats[category].append(col)`). */
  function Bucket(names: seq<string>, labels: seq<nat>, k: nat): (r: seq<string>)
    requires |names| == |labels|
    ensures |r| <= |names|
  {
    if names == [] then []
    else
      var n := |names| - 1;
      Bucket(names[..n], labels[..n], k) + (if labels[n] == k then [names[n]] else [])
  }

  /**
   * The positions labelled `k`, ascending: bucket `k` lists exactly the
   * names at those positions, in table order.
   */
  function BucketPositions(names: seq<string>, labels: seq<nat>, k: nat): (r: seq<nat>)
    requires |names| == |labels|
    ensures |r| == |Bucket(names, labels, k)|
    ensures forall m :: 0 <= m < |r| ==> r[m] < |names| && labels[r[m]] == k
    ensures forall m :: 0 <= m < |r| ==> Bucket(names, labels, k)[m] == names[r[m]]
    ensures forall a, b :: 0 <= a < b < |r| ==> r[a] < r[b]
    ensures forall i :: 0 <= i < |names| && labels[i] == k ==> i in r
  {
    if names == [] then []
    else
      var n := |names| - 1;
      var p := BucketPositions(names[..n], labels[..n], k);
      if labels[n] == k then p + [n] else p
  }

  /** A name is listed under `k` exactly when some column of that name has category `k`. */
  lemma BucketMembers(names: seq<string>, labels: seq<nat>, k: nat, name: string)
    requires |names| == |labels|
    ensures name in Bucket(names, labels, k) <==> exists i :: 0 <= i < |names| && names[i] == name && labels[i] == k
  {
    var p := BucketPositions(names, labels, k);
    var b := Bucket(names, labels, k);
    if name in b {
      var m :| 0 <= m < |b| && b[m] == name;
      assert names[p[m]] == name;
    }
    if exists i :: 0 <= i < |names| && names[i] == name && labels[i] == k {
      var i :| 0 <= i < |names| && names[i] == name && labels[i] == k;
      var m :| 0 <= m < |p| && p[m] == i;
      assert b[m] == name;
    }
  }

  /** Every category's list, empty ones included: `cats` after the loops. */
  function Buckets(names: seq<string>, labels: seq<nat>, n: nat): (r: seq<seq<string>>)
    requires |names| == |labels|
    ensures |r| == n && forall k :: 0 <= k < n ==> r[k] == Bucket(names, labels, k)
  {
    seq(n, k requires 0 <= k < n => Bucket(names, labels, k))
  }

  /** The positions of the non-empty lists among the first `n`, ascending. */
  function NonEmptyKeys(buckets: seq<seq<string>>, n: nat): (r: seq<nat>)
    requires n <= |buckets|
    ensures forall m :: 0 <= m < |r| ==> r[m] < n
  {
    if n == 0 then []
    else if buckets[n - 1] != [] then NonEmptyKeys(buckets, n - 1) + [n - 1]
    else NonEmptyKeys(buckets, n - 1)
  }

  /** The keys are exactly the positions of the non-empty lists, ascending. */
  lemma {:induction false} NonEmptyKeysMeaning(buckets: seq<seq<string>>, n: nat)
    requires n <= |buckets|
    ensures var keys := NonEmptyKeys(buckets, n);
      && (forall m :: 0 <= m < |keys| ==> buckets[keys[m]] != [])
      && (forall k :: 0 <= k < n && buckets[k] != [] ==> k in keys)
      && (forall a, b :: 0 <= a < b < |keys| ==> keys[a] < keys[b])
  {
    if n > 0 {
      NonEmptyKeysMeaning(buckets, n - 1);
      var keys := NonEmptyKeys(buckets, n - 1);
      if buckets[n - 1] != [] {
        var keys' := keys + [n - 1];
        assert NonEmptyKeys(buckets, n) == keys';
        assert forall m :: 0 <= m < |keys| ==> keys'[m] == keys[m];
      } else {
        assert NonEmptyKeys(buckets, n) == keys;
      }
    }
  }

  /** The first `n` categories whose lists are non-empty, each with its list. */
  function NonEmpty(categories: seq<string>, buckets: seq<seq<string>>, n: nat): (r: seq<(string, seq<string>)>)
    requires n <= |categories| && n <= |buckets|
    ensures |r| <= n
    ensures forall m :: 0 <= m < |r| ==> r[m].1 != []
  {
    if n == 0 then []
    else NonEmpty(categories, buckets, n - 1) + (if buckets[n - 1] != [] then [(categories[n - 1], buckets[n - 1])] else [])
  }

  /** The `m`-th entry kept is the `m`-th non-empty list with its category. */
  lemma {:induction false} NonEmptyAtKeys(categories: seq<string>, buckets: seq<seq<string>>, n: nat)
    requires n <= |categories| && n <= |buckets|
    ensures var kept, keys := NonEmpty(categories, buckets, n), NonEmptyKeys(buckets, n);
      && |kept| == |keys|
      && forall m :: 0 <= m < |keys| ==> kept[m] == (categories[keys[m]], buckets[keys[m]])
  {
    if n > 0 {
      NonEmptyAtKeys(categories, buckets, n - 1);
      var kept, keys := NonEmpty(categories, buckets, n - 1), NonEmptyKeys(buckets, n - 1);
      if buckets[n - 1] != [] {
        var kept', keys' := kept + [(categories[n - 1], buckets[n - 1])], keys + [n - 1];
        assert NonEmptyKeys(buckets, n) == keys' && NonEmpty(categories, buckets, n) == kept';
        forall m | 0 <= m < |keys'| ensures kept'[m] == (categories[keys'[m]], buckets[keys'[m]]) {
          if m < |keys| {
            assert kept'[m] == kept[m] && keys'[m] == keys[m];
          }
        }
      } else {
        assert NonEmptyKeys(buckets, n) == keys && NonEmpty(categories, buckets, n) == kept;
      }
    }
  }

  /** `categorize_columns(df)`: `{k: v for k, v in cats.items() if v}`. */
  function Categorize(rules: seq<Rule>, t: Table): seq<(string, seq<string>)> {
    NonEmpty(Categories(rules), Buckets(Names(t), Labels(rules, t.columns), |rules| + 3), |rules| + 3)
  }

  /**
   * The result lists the non-empty categories, in the fixed category
   * order, each with its bucket: no empty category appears, and every
   * non-empty one does.
   */
  lemma CategorizeShape(rules: seq<Rule>, t: Table)
    ensures var names := Names(t);
      var labels := Labels(rules, t.columns);
      var keys := NonEmptyKeys(Buckets(names, labels, |rules| + 3), |rules| + 3);
      && |Categorize(rules, t)| == |keys|
      && (forall m :: 0 <= m < |keys| ==>
            && Categorize(rules, t)[m] == (Categories(rules)[keys[m]], Bucket(names, labels, keys[m]))
            && Categorize(rules, t)[m].1 != [])
      && (forall a, b :: 0 <= a < b < |keys| ==> keys[a] < keys[b])
      && (forall k :: 0 <= k < |rules| + 3 && Bucket(names, labels, k) != [] ==> k in keys)
  {
    var buckets := Buckets(Names(t), Labels(rules, t.columns), |rules| + 3);
    NonEmptyAtKeys(Categories(rules), buckets, |rules| + 3);
    NonEmptyKeysMeaning(buckets, |rules| + 3);
  }

  /**
   * With distinct column names the buckets partition the columns: each
   * column is listed in the bucket of its own category and in no other,
   * and every listed name is a column of the table.
   */
  lemma BucketsPartition(rules: seq<Rule>, t: Table, k: nat)
    requires forall a, b :: 0 <= a < b < |t.columns| ==> t.columns[a].name != t.columns[b].name
    ensures forall i :: 0 <= i < |t.columns| ==>
      (t.columns[i].name in Bucket(Names(t), Labels(rules, t.columns), k) <==> k == CategoryIndex(rules, t.columns[i]))
  {
    var names := Names(t);
    var labels := Labels(rules, t.columns);
    forall i | 0 <= i < |t.columns|
      ensures names[i] in Bucket(names, labels, k) <==> k == labels[i]
    {
      BucketMembers(names, labels, k, names[i]);
      if names[i] in Bucket(names, labels, k) {
        var j :| 0 <= j < |names| && names[j] == names[i] && labels[j] == k;
        assert j == i;
      }
    }
  }

  /** Every listed name is a column of the table. */
  lemma BucketNamesAreColumns(rules: seq<Rule>, t: Table, k: nat)
    ensures forall name :: name in Bucket(Names(t), Labels(rules, t.columns), k) ==> HasColumn(t, name)
  {
    var names := Names(t);
    var labels := Labels(rules, t.columns);
    forall name | name in Bucket(names, labels, k) ensures HasColumn(t, name) {
      BucketMembers(names, labels, k, name);
      var j :| 0 <= j < |names| && names[j] == name && labels[j] == k;
      assert t.columns[j].name == name;
    }
  }

  lemma BucketStep(names: seq<string>, labels: seq<nat>, i: nat, k: nat)
    requires |names| == |labels| && i < |names|
    ensures Bucket(names[..i + 1], labels[..i + 1], k) ==
      Bucket(names[..i], labels[..i], k) + (if labels[i] == k then [names[i]] else [])
  {
    assert names[..i + 1][..i] == names[..i];
    assert labels[..i + 1][..i] == labels[..i];
  }

  /** The category of one column, found the way the inner `for ... else` loop does. */
  method RuleFor(rules: seq<Rule>, col: Column) returns (k: nat)
    ensures k == CategoryIndex(rules, col)
  {
    k := 0;
    while k < |rules| && !MatchCategory(col.name, rules[k])
      invariant k <= |rules|
      invariant forall j :: 0 <= j < k ==> !MatchCategory(col.name, rules[j])
    {
      k := k + 1;
    }
    if k == |rules| {
      CategoryIndexMeaning(rules, col);
      if IsNumericDType(col.dtype) {
        k := |rules|;
      } else if IsStringDType(col.dtype) {
        k := |rules| + 1;
      } else {
        k := |rules| + 2;
      }
    } else {
      FirstMatchWins(rules, col, k);
    }
  }

  /** The nested loop of `categorize_columns`: each column appended to its category's list. */
  method FillBuckets(rules: seq<Rule>, t: Table) returns (buckets: seq<seq<string>>)
    ensures |buckets| == |rules| + 3
    ensures forall k :: 0 <= k < |rules| + 3 ==> buckets[k] == Bucket(Names(t), Labels(rules, t.columns), k)
  {
    var names := Names(t);
    ghost var labels := Labels(rules, t.columns);
    buckets := seq(|rules| + 3, _ => []);
    for i := 0 to |names|
      invariant |buckets| == |rules| + 3
      invariant forall k :: 0 <= k < |rules| + 3 ==> buckets[k] == Bucket(names[..i], labels[..i], k)
    {
      var k := RuleFor(rules, t.columns[i]);
      var next := buckets[k := buckets[k] + [names[i]]];
      BucketsStep(buckets, names, labels, i, k, next);
      buckets := next;
    }
    assert names[..|names|] == names && labels[..|names|] == labels;
  }

  /** Appending the `i`-th name to the list of its label keeps every list equal to its bucket. */
  lemma BucketsStep(buckets: seq<seq<string>>, names: seq<string>, labels: seq<nat>, i: nat, k: nat, next: seq<seq<string>>)
    requires |names| == |labels| && i < |names| && k == labels[i] && k < |buckets|
    requires forall j :: 0 <= j < |buckets| ==> buckets[j] == Bucket(names[..i], labels[..i], j)
    requires next == buckets[k := buckets[k] + [names[i]]]
    ensures forall j :: 0 <= j < |next| ==> next[j] == Bucket(names[..i + 1], labels[..i + 1], j)
  {
    forall j | 0 <= j < |next|
      ensures next[j] == Bucket(names[..i + 1], labels[..i + 1], j)
    {
      BucketStep(names, labels, i, j);
    }
  }

  /** `categorize_columns(df)`: fill the lists, then keep the non-empty ones in category order. */
  method CategorizeColumns(rules: seq<Rule>, t: Table) returns (cats: seq<(string, seq<string>)>)
    ensures cats == Categorize(rules, t)
  {
    var buckets := FillBuckets(rules, t);
    assert buckets == Buckets(Names(t), Labels(rules, t.columns), |rules| + 3);
    cats := KeepNonEmpty(Categories(rules), buckets);
  }

  /** The closing comprehension: each non-empty list with its category, in category order. */
  method KeepNonEmpty(categories: seq<string>, buckets: seq<seq<string>>) returns (cats: seq<(string, seq<string>)>)
    requires |buckets| == |categories|
    ensures cats == NonEmpty(categories, buckets, |categories|)
  {
    cats := [];
    for k := 0 to |categories|
      invariant cats == NonEmpty(categories, buckets, k)
    {
      if buckets[k] != [] {
        cats := cats + [(categories[k], buckets[k])];
      }
    }
  }

  /* ---------------- consequences of the rule order ---------------- */

  /** Every keyword of the rule table is already lower-case, so `w.lower()` is `w`. */
  predicate IsLowercase(w: string) {
    forall i :: 0 <= i < |w| ==> LowerChar(w[i]) == w[i]
  }

  lemma LowercaseLower(w: string)
    requires IsLowercase(w)
    ensures Lower(w) == w
  {
  }

  /** A name containing `no` matches the Counts rule. */
  lemma NoMatchesCounts(colname: string)
    requires Contains(Trimmed(colname), "no")
    ensures MatchCategory(colname, COUNTS_RULE)
  {
    assert "no" in COUNTS_RULE.containsAny;
    assert LowerChar('n') == 'n' && LowerChar('o') == 'o';
    assert Lower("no") == "no";
    MatchCategoryMeaning(colname, COUNTS_RULE);
  }

  /** A name the Time, Coordinates, Region or area, Species and Site type rules all miss and that contains `no` is a Counts column. */
  lemma ContainsNoIsCounts(col: Column)
    requires forall j :: 0 <= j < 5 ==> !MatchCategory(col.name, CAT_RULES[j])
    requires Contains(Trimmed(col.name), "no")
    ensures var k := CategoryIndex(CAT_RULES, col);
      k < |CAT_RULES| && CAT_RULES[k].category == "Counts"
  {
    NoMatchesCounts(col.name);
    RuleOrder();
    FirstMatchWins(CAT_RULES, col, 5);
  }

  /** No window of `s` long enough to hold `w` starts with `w`'s lower-cased first letter. */
  predicate KeywordClear(s: string, w: string) {
    |w| > 0 && forall i :: 0 <= i && i + |w| <= |s| ==> s[i] != LowerChar(w[0])
  }

  predicate KeywordsClear(s: string, ws: seq<string>, from: nat)
    decreases |ws| - from
  {
    from >= |ws| || (KeywordClear(s, ws[from]) && KeywordsClear(s, ws, from + 1))
  }

  /** `w` differs from `s` in length or in its lower-cased first letter. */
  predicate WordClear(s: string, w: string) {
    |w| != |s| || (|w| > 0 && LowerChar(w[0]) != s[0])
  }

  predicate WordsClear(s: string, ws: seq<string>, from: nat)
    decreases |ws| - from
  {
    from >= |ws| || (WordClear(s, ws[from]) && WordsClear(s, ws, from + 1))
  }

  lemma {:induction false} KeywordsAbsent(s: string, ws: seq<string>, from: nat)
    requires from <= |ws| && KeywordsClear(s, ws, from)
    ensures !ContainsKeyword(s, ws[from..])
    decreases |ws| - from
  {
    if from < |ws| {
      NotContainsByFirst(s, Lower(ws[from]));
      KeywordsAbsent(s, ws, from + 1);
      assert ws[from..][1..] == ws[from + 1..];
    }
  }

  lemma {:induction false} WordsAbsent(s: string, ws: seq<string>, from: nat)
    requires from <= |ws| && WordsClear(s, ws, from)
    ensures !EqualsKeyword(s, ws[from..])
    decreases |ws| - from
  {
    if from < |ws| {
      WordsAbsent(s, ws, from + 1);
      assert ws[from..][1..] == ws[from + 1..];
    }
  }

  /** A name that no keyword of the rule can occur in or equal does not match the rule. */
  lemma RuleMissed(s: string, rule: Rule)
    requires KeywordsClear(s, rule.containsAny, 0) && WordsClear(s, rule.wholeWord, 0)
    ensures !ContainsKeyword(s, rule.containsAny) && !EqualsKeyword(s, rule.wholeWord)
  {
    KeywordsAbsent(s, rule.containsAny, 0);
    WordsAbsent(s, rule.wholeWord, 0);
    assert rule.containsAny[0..] == rule.containsAny;
    assert rule.wholeWord[0..] == rule.wholeWord;
  }

  lemma StripSite()
    ensures Strip("site") == "site"
  {
    StripByUnchanged("site", IsSpace);
  }

  lemma LowerSite()
    ensures Lower("site") == "site"
  {
    assert LowerChar('s') == 's' && LowerChar('i') == 'i' && LowerChar('t') == 't' && LowerChar('e') == 'e';
  }

  lemma TrimmedSite()
    ensures Trimmed("site") == "site"
  {
    StripSite();
    LowerSite();
  }

  lemma SiteClearOfTime()
    ensures KeywordsClear("site", TIME_RULE.containsAny, 0) && WordsClear("site", TIME_RULE.wholeWord, 0)
  {
  }

  lemma SiteClearOfCoordinates()
    ensures KeywordsClear("site", COORDINATES_RULE.containsAny, 0) && WordsClear("site", COORDINATES_RULE.wholeWord, 0)
  {
  }

  lemma SiteMissesTime(colname: string)
    requires Trimmed(colname) == "site"
    ensures !MatchCategory(colname, TIME_RULE)
  {
    SiteClearOfTime();
    RuleMissed(Trimmed(colname), TIME_RULE);
  }

  lemma SiteMissesCoordinates(colname: string)
    requires Trimmed(colname) == "site"
    ensures !MatchCategory(colname, COORDINATES_RULE)
  {
    SiteClearOfCoordinates();
    RuleMissed(Trimmed(colname), COORDINATES_RULE);
  }

  lemma SiteMatchesRegion(colname: string)
    requires Trimmed(colname) == "site"
    ensures MatchCategory(colname, REGION_RULE)
  {
    LowerSite();
    assert REGION_RULE.wholeWord == ["site"];
    assert EqualsKeyword(Trimmed(colname), REGION_RULE.wholeWord);
  }

  /** The name matches none of the first `k` rules, checked one rule at a time. */
  predicate MissesFirst(colname: string, rules: seq<Rule>, k: nat)
    requires k <= |rules|
  {
    k == 0 || (!MatchCategory(colname, rules[k - 1]) && MissesFirst(colname, rules, k - 1))
  }

  lemma {:induction false} MissesFirstAll(colname: string, rules: seq<Rule>, k: nat)
    requires k <= |rules| && MissesFirst(colname, rules, k)
    ensures forall j :: 0 <= j < k ==> !MatchCategory(colname, rules[j])
  {
    if k > 0 {
      MissesFirstAll(colname, rules, k - 1);
    }
  }

  /**
   * A column whose trimmed, lower-cased name is `site` is a Region or area
   * column, whatever its dtype: that rule's whole word `site` is tried
   * before the Site type rule's substring `site`.
   */
  lemma SiteIsRegion(col: Column)
    requires Trimmed(col.name) == "site"
    ensures var k := CategoryIndex(CAT_RULES, col);
      k < |CAT_RULES| && CAT_RULES[k].category == "Region or area"
  {
    SiteMissesTime(col.name);
    SiteMissesCoordinates(col.name);
    SiteMatchesRegion(col.name);
    RuleOrder();
    assert MissesFirst(col.name, CAT_RULES, 1);
    assert MissesFirst(col.name, CAT_RULES, 2);
    MissesFirstAll(col.name, CAT_RULES, 2);
    FirstMatchWins(CAT_RULES, col, 2);
  }

  /** In particular a column named exactly `site`. */
  lemma ExactSiteIsRegion(d: DType)
    ensures var k := CategoryIndex(CAT_RULES, Column("site", d));
      k < |CAT_RULES| && CAT_RULES[k].category == "Region or area"
  {
    var col := Column("site", d);
    TrimmedSite();
    SiteIsRegion(col);
  }
}
