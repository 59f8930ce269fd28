/**
 * Header normalisation (`_norm_cols`): every column name is cleaned
 * character by character and the cleaned names are made unique by
 * appending `__1`, `__2`, ... to later duplicates.
 */
module HeaderNames {
  import opened Seqs
  import opened Text

  /** A character `clean` keeps as it is. */
  predicate Allowed(c: char) {
    IsAlnum(c) || c == '_'
  }

  predicate IsUnderscore(c: char) { c == '_' }

  /**
   * The character loop of `clean`: an allowed character is kept, and a
   * disallowed one becomes `_` unless the previous kept character was `_`.
   * `prev` is the `prev_was_underscore` flag.
   */
  function CleanChars(s: string, prev: bool): string {
    if s == [] then []
    else if Allowed(s[0]) then [s[0]] + CleanChars(s[1..], s[0] == '_')
    else if !prev then "_" + CleanChars(s[1..], true)
    else CleanChars(s[1..], true)
  }

  /** `clean(name)`: strip white space, clean the characters, strip `_`, fall back to `col`. */
  function Clean(name: string): string {
    var cleaned := StripBy(CleanChars(Strip(name), false), IsUnderscore);
    if cleaned == [] then "col" else cleaned
  }

  /** The shape of every name `_norm_cols` produces. */
  predicate Canonical(y: string) {
    && |y| > 0
    && (forall c :: c in y ==> Allowed(c))
    && y[0] != '_' && y[|y| - 1] != '_'
  }

  /** `f"{base}__{k}"`. */
  function Suffixed(base: string, k: nat): string {
    base + "__" + NatToString(k)
  }

  /** The set of `base__1` ... `base__k`. */
  function SuffixSet(base: string, k: nat): set<string> {
    if k == 0 then {} else SuffixSet(base, k - 1) + {Suffixed(base, k)}
  }

  lemma SuffixedInjective(base: string, a: nat, b: nat)
    requires Suffixed(base, a) == Suffixed(base, b)
    ensures a == b
  {
    var n := |base| + 2;
    assert Suffixed(base, a)[n..] == NatToString(a);
    assert Suffixed(base, b)[n..] == NatToString(b);
    NatToStringInjective(a, b);
  }

  /** `base__m` is not among `base__1` ... `base__k` when `m > k`. */
  lemma {:induction false} SuffixSetBelow(base: string, k: nat, m: nat)
    requires m > k
    ensures Suffixed(base, m) !in SuffixSet(base, k)
  {
    if k > 0 {
      SuffixSetBelow(base, k - 1, m);
      if Suffixed(base, k) == Suffixed(base, m) {
        SuffixedInjective(base, k, m);
      }
    }
  }

  lemma {:induction false} SuffixSetSize(base: string, k: nat)
    ensures |SuffixSet(base, k)| == k
  {
    if k > 0 {
      SuffixSetSize(base, k - 1);
      SuffixSetBelow(base, k - 1, k);
    }
  }

  lemma {:induction false} SuffixSetTaken(base: string, seen: set<string>, k: nat)
    requires forall j :: 1 <= j <= k ==> Suffixed(base, j) in seen
    ensures SuffixSet(base, k) <= seen
  {
    if k > 0 {
      SuffixSetTaken(base, seen, k - 1);
    }
  }

  /** If `base__1` ... `base__k` are all taken, there are at least k taken names. */
  lemma SuffixesBounded(base: string, seen: set<string>, k: nat)
    requires forall j :: 1 <= j <= k ==> Suffixed(base, j) in seen
    ensures k <= |seen|
  {
    SuffixSetSize(base, k);
    SuffixSetTaken(base, seen, k);
    SetSizeMonotone(SuffixSet(base, k), seen);
  }

  /** The smallest `j >= k` for which `base__j` is not taken (the `while` loop of `_norm_cols`). */
  function FreshSuffix(base: string, seen: set<string>, k: nat): (r: nat)
    requires k >= 1
    requires forall j :: 1 <= j < k ==> Suffixed(base, j) in seen
    ensures r >= k && Suffixed(base, r) !in seen
    ensures forall j :: 1 <= j < r ==> Suffixed(base, j) in seen
    decreases |seen| + 1 - k
  {
    if Suffixed(base, k) !in seen then k
    else
      SuffixesBounded(base, seen, k);
      FreshSuffix(base, seen, k + 1)
  }

  /** The name given to `base` when the names in `seen` are taken. */
  function Unique(base: string, seen: set<string>): (r: string)
    ensures r !in seen
  {
    if base in seen then Suffixed(base, FreshSuffix(base, seen, 1)) else base
  }

  /** The main loop of `_norm_cols` from some point on, with `seen` already taken. */
  function NormFrom(cols: seq<string>, seen: set<string>): (r: seq<string>)
    ensures |r| == |cols|
  {
    if cols == [] then []
    else
      var name := Unique(Clean(cols[0]), seen);
      [name] + NormFrom(cols[1..], seen + {name})
  }

  /** `_norm_cols(cols)`. */
  function NormCols(cols: seq<string>): (r: seq<string>)
    ensures |r| == |cols|
  {
    NormFrom(cols, {})
  }

  /* ---------------- the imperative code ---------------- */

  lemma CleanCharsAt(s: string, i: nat, prev: bool)
    requires i < |s|
    ensures CleanChars(s[i..], prev) ==
      if Allowed(s[i]) then [s[i]] + CleanChars(s[i + 1..], s[i] == '_')
      else if !prev then "_" + CleanChars(s[i + 1..], true)
      else CleanChars(s[i + 1..], true)
  {
    assert s[i..][1..] == s[i + 1..];
  }

  /** The inner function `clean`, as the character loop the source runs. */
  method CleanName(name: string) returns (r: string)
    ensures r == Clean(name)
  {
    var s := Strip(name);
    var cleaned: string := [];
    var prev := false;
    for i := 0 to |s|
      invariant cleaned + CleanChars(s[i..], prev) == CleanChars(s, false)
    {
      CleanCharsAt(s, i, prev);
      var ch := s[i];
      ghost var rest := CleanChars(s[i + 1..], true);
      if Allowed(ch) {
        rest := CleanChars(s[i + 1..], ch == '_');
        AppendAssoc(cleaned, [ch], rest);
        cleaned := cleaned + [ch];
        prev := ch == '_';
      } else if !prev {
        AppendAssoc(cleaned, "_", rest);
        cleaned := cleaned + "_";
        prev := true;
      }
    }
    assert s[|s|..] == [];
    assert cleaned == CleanChars(s, false);
    r := StripBy(cleaned, IsUnderscore);
    if r == [] {
      r := "col";
    }
  }

  lemma NormFromAt(cols: seq<string>, i: nat, seen: set<string>)
    requires i < |cols|
    ensures NormFrom(cols[i..], seen) ==
      [Unique(Clean(cols[i]), seen)] + NormFrom(cols[i + 1..], seen + {Unique(Clean(cols[i]), seen)})
  {
    assert cols[i..][1..] == cols[i + 1..];
  }

  /** `_norm_cols`: clean every name and make the names unique, left to right. */
  method NormalizeColumnNames(cols: seq<string>) returns (normalized: seq<string>)
    ensures normalized == NormCols(cols)
  {
    var seen: set<string> := {};
    normalized := [];
    for i := 0 to |cols|
      invariant normalized + NormFrom(cols[i..], seen) == NormCols(cols)
    {
      var cleaned := CleanName(cols[i]);
      var base := cleaned;
      if cleaned in seen {
        var suffix := LeastFreeSuffix(cleaned, seen);
        base := Suffixed(cleaned, suffix);
      }
      assert base == Unique(cleaned, seen);
      ghost var rest := NormFrom(cols[i + 1..], seen + {base});
      NormFromAt(cols, i, seen);
      assert NormFrom(cols[i..], seen) == [base] + rest;
      AppendAssoc(normalized, [base], rest);
      seen := seen + {base};
      normalized := normalized + [base];
    }
    assert cols[|cols|..] == [];
  }

  /** The `while f"{base}__{k}" in seen: k += 1` search of `_norm_cols`. */
  method LeastFreeSuffix(base: string, seen: set<string>) returns (suffix: nat)
    ensures suffix == FreshSuffix(base, seen, 1)
  {
    suffix := 1;
    while Suffixed(base, suffix) in seen
      invariant suffix >= 1
      invariant forall j :: 1 <= j < suffix ==> Suffixed(base, j) in seen
      decreases |seen| + 1 - suffix
    {
      SuffixesBounded(base, seen, suffix);
      suffix := suffix + 1;
    }
    FreshSuffixLeast(base, seen, 1, suffix);
  }

  /** The suffix search finds the least free suffix. */
  lemma {:induction false} FreshSuffixLeast(base: string, seen: set<string>, k: nat, m: nat)
    requires 1 <= k <= m
    requires forall j :: 1 <= j < m ==> Suffixed(base, j) in seen
    requires Suffixed(base, m) !in seen
    ensures FreshSuffix(base, seen, k) == m
    decreases m - k
  {
    if k < m {
      assert Suffixed(base, k) in seen;
      SuffixesBounded(base, seen, k);
      FreshSuffixLeast(base, seen, k + 1, m);
    }
  }

  /* ---------------- properties ---------------- */

  lemma {:induction false} CleanCharsAllowed(s: string, prev: bool)
    ensures forall c :: c in CleanChars(s, prev) ==> Allowed(c)
  {
    if s != [] {
      CleanCharsAllowed(s[1..], if Allowed(s[0]) then s[0] == '_' else true);
    }
  }

  /** A string of allowed characters passes the character loop unchanged. */
  lemma {:induction false} CleanCharsKeepsAllowed(s: string, prev: bool)
    requires forall c :: c in s ==> Allowed(c)
    ensures CleanChars(s, prev) == s
  {
    if s != [] {
      assert s[0] in s;
      CleanCharsKeepsAllowed(s[1..], s[0] == '_');
    }
  }

  /**
   * A run of disallowed characters becomes a single `_`, or nothing when the
   * previous kept character was `_`.
   */
  lemma {:induction false} CleanCharsRun(run: string, rest: string, prev: bool)
    requires |run| > 0 && forall c :: c in run ==> !Allowed(c)
    ensures CleanChars(run + rest, prev) == (if prev then "" else "_") + CleanChars(rest, true)
  {
    assert run[0] in run;
    assert (run + rest)[1..] == run[1..] + rest;
    if |run| > 1 {
      CleanCharsRun(run[1..], rest, true);
    } else {
      assert run[1..] + rest == rest;
    }
  }

  /** Every cleaned name is non-empty, uses only alphanumerics and `_`, and neither starts nor ends with `_`. */
  lemma CleanIsCanonical(name: string)
    ensures Canonical(Clean(name))
  {
    CleanCharsAllowed(Strip(name), false);
    StripByFacts(CleanChars(Strip(name), false), IsUnderscore);
  }

  lemma AllowedIsNotSpace(c: char)
    requires Allowed(c)
    ensures !IsSpace(c)
  {
  }

  /** A canonical name is its own cleaned form. */
  lemma CleanFixesCanonical(y: string)
    requires Canonical(y)
    ensures Clean(y) == y
  {
    assert y[0] in y && y[|y| - 1] in y;
    StripByUnchanged(y, IsSpace);
    CleanCharsKeepsAllowed(y, false);
    StripByUnchanged(y, IsUnderscore);
  }

  lemma SuffixedCanonical(base: string, k: nat)
    requires Canonical(base)
    ensures Canonical(Suffixed(base, k))
  {
    var d := NatToString(k);
    var y := Suffixed(base, k);
    assert y == base + "__" + d;
    assert d[|d| - 1] in d;
    forall c | c in y ensures Allowed(c) {
      if c in d {
        assert IsDigit(c);
      } else if c !in base {
        assert c in "__";
      }
    }
  }

  lemma UniqueCanonical(base: string, seen: set<string>)
    requires Canonical(base)
    ensures Canonical(Unique(base, seen))
  {
    if base in seen {
      SuffixedCanonical(base, FreshSuffix(base, seen, 1));
    }
  }

  /** The names produced from `seen` on are canonical, pairwise distinct and not in `seen`. */
  lemma {:induction false} NormFromUnique(cols: seq<string>, seen: set<string>)
    ensures forall y :: y in NormFrom(cols, seen) ==> Canonical(y) && y !in seen
    ensures forall i, j :: 0 <= i < j < |cols| ==> NormFrom(cols, seen)[i] != NormFrom(cols, seen)[j]
  {
    if cols != [] {
      var name := Unique(Clean(cols[0]), seen);
      CleanIsCanonical(cols[0]);
      UniqueCanonical(Clean(cols[0]), seen);
      NormFromUnique(cols[1..], seen + {name});
      var r := NormFrom(cols, seen);
      assert r == [name] + NormFrom(cols[1..], seen + {name});
      forall i, j | 0 <= i < j < |cols| ensures r[i] != r[j] {
        assert r[j] in NormFrom(cols[1..], seen + {name});
      }
    }
  }

  /**
   * `_norm_cols` keeps the length and returns pairwise-distinct names, each
   * non-empty, made of alphanumerics and `_`, not starting or ending with `_`.
   */
  lemma NormColsUnique(cols: seq<string>)
    ensures |NormCols(cols)| == |cols|
    ensures forall y :: y in NormCols(cols) ==> Canonical(y)
    ensures forall i, j :: 0 <= i < j < |cols| ==> NormCols(cols)[i] != NormCols(cols)[j]
  {
    NormFromUnique(cols, {});
  }

  /** The first occurrence of a cleaned name keeps it; a later duplicate gets the least free `__k`. */
  lemma NormFromStep(cols: seq<string>, seen: set<string>)
    requires cols != []
    ensures Clean(cols[0]) !in seen ==> NormFrom(cols, seen)[0] == Clean(cols[0])
    ensures Clean(cols[0]) in seen ==>
      exists k :: k >= 1 && NormFrom(cols, seen)[0] == Suffixed(Clean(cols[0]), k)
        && Suffixed(Clean(cols[0]), k) !in seen
        && forall j :: 1 <= j < k ==> Suffixed(Clean(cols[0]), j) in seen
  {
    var base := Clean(cols[0]);
    if base in seen {
      var k := FreshSuffix(base, seen, 1);
      assert NormFrom(cols, seen)[0] == Suffixed(base, k);
    }
  }

  /** A list of distinct canonical names not in `seen` passes the main loop unchanged. */
  lemma {:induction false} NormFromFixes(ys: seq<string>, seen: set<string>)
    requires forall y :: y in ys ==> Canonical(y) && y !in seen
    requires forall i, j :: 0 <= i < j < |ys| ==> ys[i] != ys[j]
    ensures NormFrom(ys, seen) == ys
  {
    if ys != [] {
      assert ys[0] in ys;
      CleanFixesCanonical(ys[0]);
      forall y | y in ys[1..] ensures Canonical(y) && y !in seen + {ys[0]} {
        var k :| 0 <= k < |ys[1..]| && ys[1..][k] == y;
        assert ys[k + 1] == y;
      }
      NormFromFixes(ys[1..], seen + {ys[0]});
    }
  }

  /** Idempotence: normalising already normalised names changes nothing. */
  lemma NormColsIdempotent(cols: seq<string>)
    ensures NormCols(NormCols(cols)) == NormCols(cols)
  {
    NormColsUnique(cols);
    NormFromFixes(NormCols(cols), {});
  }

  /** Two headers that clean to the same name: the first keeps it, the second gets `__1`. */
  lemma DuplicatePair(a: string, b: string)
    requires Clean(a) == Clean(b)
    ensures NormCols([a, b]) == [Clean(a), Suffixed(Clean(a), 1)]
  {
    var c := Clean(a);
    CleanIsCanonical(a);
    SuffixedCanonical(c, 1);
    assert Suffixed(c, 1) != c by {
      assert |Suffixed(c, 1)| > |c|;
    }
    assert FreshSuffix(c, {c}, 1) == 1;
    assert Unique(c, {c}) == Suffixed(c, 1);
    assert [a, b][1..] == [b];
    assert Unique(c, {}) == c;
    assert NormFrom([b], {c}) == [Suffixed(c, 1)];
    assert NormFrom([a, b], {}) == [c] + NormFrom([b], {c});
  }
}
