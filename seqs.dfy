/**
 * Sequence building blocks shared by the model: filtering a sequence, the
 * first element with a property (`next(...)` over a generator),
 * duplicate-free sorting under a strict total order (what `sorted(set(...))`
 * and `list.sort()` give on distinct values) and a stable sort by an integer
 * key (what `list.sort(key=...)` gives).
 */
module Seqs {

  datatype Option<T> = None | Some(value: T)

  /** A strict total order on T. */
  ghost predicate StrictTotalOrder<T(!new)>(less: (T, T) -> bool) {
    && (forall a :: !less(a, a))
    && (forall a, b, c :: less(a, b) && less(b, c) ==> less(a, c))
    && (forall a, b :: a != b ==> less(a, b) || less(b, a))
  }

  predicate StrictlySorted<T>(s: seq<T>, less: (T, T) -> bool) {
    forall i, j :: 0 <= i < j < |s| ==> less(s[i], s[j])
  }

  predicate Distinct<T(==)>(s: seq<T>) {
    forall i, j :: 0 <= i < j < |s| ==> s[i] != s[j]
  }

  /** The elements of `xs` that satisfy `p`, in their original order. */
  function Filter<T>(xs: seq<T>, p: T -> bool): (r: seq<T>)
    ensures |r| <= |xs|
    ensures forall x :: x in r ==> x in xs && p(x)
  {
    if xs == [] then []
    else (if p(xs[0]) then [xs[0]] else []) + Filter(xs[1..], p)
  }

  lemma {:induction false} FilterAppend<T>(a: seq<T>, b: seq<T>, p: T -> bool)
    ensures Filter(a + b, p) == Filter(a, p) + Filter(b, p)
  {
    if a == [] {
      assert a + b == b;
    } else {
      assert (a + b)[1..] == a[1..] + b;
      FilterAppend(a[1..], b, p);
    }
  }

  lemma {:induction false} FilterComplete<T>(xs: seq<T>, p: T -> bool)
    ensures forall x :: x in xs && p(x) ==> x in Filter(xs, p)
  {
    if xs != [] {
      FilterComplete(xs[1..], p);
      forall x | x in xs && p(x) ensures x in Filter(xs, p) {
        if x != xs[0] {
          assert x in xs[1..];
        }
      }
    }
  }

  lemma {:induction false} FilterDistinct<T>(xs: seq<T>, p: T -> bool)
    requires Distinct(xs)
    ensures Distinct(Filter(xs, p))
  {
    if xs != [] {
      FilterDistinct(xs[1..], p);
      assert forall k :: 0 <= k < |xs[1..]| ==> xs[1..][k] == xs[k + 1];
      assert xs[0] !in xs[1..];
    }
  }

  /** Filtering twice by the same test keeps what filtering once kept. */
  lemma {:induction false} FilterIdempotent<T>(xs: seq<T>, p: T -> bool)
    ensures Filter(Filter(xs, p), p) == Filter(xs, p)
  {
    if xs != [] {
      FilterIdempotent(xs[1..], p);
      if p(xs[0]) {
        var r := Filter(xs, p);
        assert r[0] == xs[0] && r[1..] == Filter(xs[1..], p);
        assert Filter(r, p) == [r[0]] + Filter(r[1..], p);
      } else {
        assert Filter(xs, p) == Filter(xs[1..], p);
      }
    }
  }

  /** Two filters can be applied in either order. */
  lemma {:induction false} FilterCommute<T>(xs: seq<T>, p: T -> bool, q: T -> bool)
    ensures Filter(Filter(xs, p), q) == Filter(Filter(xs, q), p)
  {
    if xs != [] {
      var x, rest := xs[0], xs[1..];
      FilterCommute(rest, p, q);
      var pr, qr := Filter(rest, p), Filter(rest, q);
      assert xs == [x] + rest;
      FilterCons(x, rest, p);
      FilterCons(x, rest, q);
      var left := if p(x) then [x] + pr else pr;
      var right := if q(x) then [x] + qr else qr;
      assert Filter(xs, p) == left && Filter(xs, q) == right;
      if p(x) {
        FilterCons(x, pr, q);
      }
      if q(x) {
        FilterCons(x, qr, p);
      }
      assert Filter(left, q) == (if p(x) && q(x) then [x] else []) + Filter(pr, q);
      assert Filter(right, p) == (if p(x) && q(x) then [x] else []) + Filter(qr, p);
    }
  }

  lemma FilterCons<T>(x: T, s: seq<T>, p: T -> bool)
    ensures Filter([x] + s, p) == (if p(x) then [x] else []) + Filter(s, p)
  {
    assert ([x] + s)[1..] == s;
  }

  /** A test every element passes keeps the whole sequence; one none passes keeps nothing. */
  lemma {:induction false} FilterExtremes<T>(xs: seq<T>, p: T -> bool)
    ensures (forall i :: 0 <= i < |xs| ==> p(xs[i])) ==> Filter(xs, p) == xs
    ensures (forall i :: 0 <= i < |xs| ==> !p(xs[i])) ==> Filter(xs, p) == []
  {
    if xs != [] {
      FilterExtremes(xs[1..], p);
      assert forall i :: 0 <= i < |xs[1..]| ==> xs[1..][i] == xs[i + 1];
      assert xs == [xs[0]] + xs[1..];
    }
  }

  /* ---------------- duplicate-free sorting ---------------- */

  /** The position `next((x for x in xs if p(x)), None)` picks: the first element satisfying `p`. */
  function FirstIndexWhere<T>(xs: seq<T>, p: T -> bool): (r: Option<nat>)
    ensures r.None? <==> forall i :: 0 <= i < |xs| ==> !p(xs[i])
    ensures r.Some? ==> r.value < |xs| && p(xs[r.value]) && forall j :: 0 <= j < r.value ==> !p(xs[j])
  {
    if xs == [] then None
    else if p(xs[0]) then Some(0)
    else
      match FirstIndexWhere(xs[1..], p)
      case None => None
      case Some(i) => Some(i + 1)
  }

  /** Inserts `x` into a strictly sorted sequence, dropping it when already present. */
  function InsertUnique<T(==,!new)>(x: T, s: seq<T>, less: (T, T) -> bool): (r: seq<T>)
    ensures forall y :: y in r <==> y == x || y in s
  {
    if s == [] then [x]
    else if x == s[0] then s
    else if less(x, s[0]) then [x] + s
    else [s[0]] + InsertUnique(x, s[1..], less)
  }

  /** The distinct elements of `xs` in ascending order. */
  function SortUnique<T(==,!new)>(xs: seq<T>, less: (T, T) -> bool): (r: seq<T>)
    ensures forall y :: y in r <==> y in xs
  {
    if xs == [] then []
    else
      var r := InsertUnique(xs[|xs| - 1], SortUnique(xs[..|xs| - 1], less), less);
      assert forall y :: y in xs <==> y in xs[..|xs| - 1] || y == xs[|xs| - 1] by {
        assert xs == xs[..|xs| - 1] + [xs[|xs| - 1]];
      }
      r
  }

  lemma {:induction false} InsertUniqueSorted<T(!new)>(x: T, s: seq<T>, less: (T, T) -> bool)
    requires StrictTotalOrder(less)
    requires StrictlySorted(s, less)
    ensures StrictlySorted(InsertUnique(x, s, less), less)
  {
    if s != [] && x != s[0] && !less(x, s[0]) {
      assert StrictlySorted(s[1..], less);
      InsertUniqueSorted(x, s[1..], less);
      var tail := InsertUnique(x, s[1..], less);
      assert less(s[0], x);
      forall y | y in tail ensures less(s[0], y) {
        if y != x {
          var k :| 0 <= k < |s[1..]| && s[1..][k] == y;
          assert s[k + 1] == y;
        }
      }
      var r := [s[0]] + tail;
      forall i, j | 0 <= i < j < |r| ensures less(r[i], r[j]) {
        if i == 0 {
          assert r[j] in tail;
        } else {
          assert r[i] == tail[i - 1] && r[j] == tail[j - 1];
        }
      }
    } else if s != [] && x != s[0] {
      var r := [x] + s;
      forall i, j | 0 <= i < j < |r| ensures less(r[i], r[j]) {
        if i == 0 && j > 1 {
          assert less(s[0], s[j - 1]);
        }
      }
    }
  }

  /** The result of SortUnique is strictly ascending; hence it has no duplicates. */
  lemma {:induction false} SortUniqueSorted<T(!new)>(xs: seq<T>, less: (T, T) -> bool)
    requires StrictTotalOrder(less)
    ensures StrictlySorted(SortUnique(xs, less), less)
    ensures Distinct(SortUnique(xs, less))
  {
    if xs != [] {
      SortUniqueSorted(xs[..|xs| - 1], less);
      InsertUniqueSorted(xs[|xs| - 1], SortUnique(xs[..|xs| - 1], less), less);
    }
  }

  /** Two strictly ascending sequences with the same elements are equal. */
  lemma {:induction false} SortedUniqueDeterminate<T(!new)>(a: seq<T>, b: seq<T>, less: (T, T) -> bool)
    requires StrictTotalOrder(less)
    requires StrictlySorted(a, less) && StrictlySorted(b, less)
    requires forall y :: y in a <==> y in b
    ensures a == b
  {
    HeadIn(a);
    HeadIn(b);
    if a != [] && b != [] {
      var a0, b0 := a[0], b[0];
      SortedHeadIsLeast(b, less, a0);
      SortedHeadIsLeast(a, less, b0);
      assert a0 == b0;
      forall y ensures y in a[1..] <==> y in b[1..] {
        SortedTail(a, less, y);
        SortedTail(b, less, y);
      }
      SortedUniqueDeterminate(a[1..], b[1..], less);
      assert a == [a[0]] + a[1..] && b == [b[0]] + b[1..];
    }
  }

  /** Concatenation is associative; stated generically so that proofs over long element types stay cheap. */
  lemma AppendAssoc<T>(a: seq<T>, b: seq<T>, c: seq<T>)
    ensures (a + b) + c == a + (b + c)
  {
  }

  lemma HeadIn<T>(s: seq<T>)
    ensures s != [] ==> s[0] in s
  {
  }

  /** The head of a strictly ascending sequence is below every other element. */
  lemma SortedHeadIsLeast<T(!new)>(s: seq<T>, less: (T, T) -> bool, y: T)
    requires StrictlySorted(s, less)
    requires y in s
    ensures y == s[0] || less(s[0], y)
  {
    var k :| 0 <= k < |s| && s[k] == y;
    assert k == 0 || less(s[0], s[k]);
  }

  /** In a strictly ascending sequence, the tail holds exactly the elements other than the head. */
  lemma SortedTail<T(!new)>(s: seq<T>, less: (T, T) -> bool, y: T)
    requires StrictTotalOrder(less)
    requires StrictlySorted(s, less) && s != []
    ensures y in s[1..] <==> y in s && y != s[0]
  {
    if y in s && y != s[0] {
      var k :| 0 <= k < |s| && s[k] == y;
      assert s[1..][k - 1] == y;
    }
    if y in s[1..] {
      var k :| 0 <= k < |s[1..]| && s[1..][k] == y;
      assert less(s[0], s[k + 1]);
    }
  }

  /* ---------------- stable sort by an integer key ---------------- */

  /** Inserts `x` after every element whose key is not larger than its own. */
  function InsertBy<T(!new)>(x: T, s: seq<T>, key: T -> int): (r: seq<T>)
    ensures |r| == |s| + 1
    ensures forall y :: y in r <==> y == x || y in s
  {
    if s == [] then [x]
    else if key(x) < key(s[0]) then [x] + s
    else [s[0]] + InsertBy(x, s[1..], key)
  }

  /** `list.sort(key=key)`: a stable sort, ascending by key. */
  function SortBy<T(!new)>(xs: seq<T>, key: T -> int): (r: seq<T>)
    ensures |r| == |xs|
  {
    if xs == [] then []
    else InsertBy(xs[|xs| - 1], SortBy(xs[..|xs| - 1], key), key)
  }

  predicate SortedBy<T>(s: seq<T>, key: T -> int) {
    forall i, j :: 0 <= i < j < |s| ==> key(s[i]) <= key(s[j])
  }

  /** The elements of `xs` whose key is `k`, in their original order. */
  function WithKey<T>(xs: seq<T>, key: T -> int, k: int): seq<T> {
    Filter(xs, y => key(y) == k)
  }

  lemma {:induction false} InsertByPermutes<T(!new)>(x: T, s: seq<T>, key: T -> int)
    ensures multiset(InsertBy(x, s, key)) == multiset(s) + multiset{x}
  {
    if s != [] && key(x) >= key(s[0]) {
      InsertByPermutes(x, s[1..], key);
      assert s == [s[0]] + s[1..];
    }
  }

  lemma {:induction false} InsertBySorted<T(!new)>(x: T, s: seq<T>, key: T -> int)
    requires SortedBy(s, key)
    ensures SortedBy(InsertBy(x, s, key), key)
  {
    if s != [] {
      SortedByHeadLeast(s, key);
      if key(x) >= key(s[0]) {
        assert SortedBy(s[1..], key);
        InsertBySorted(x, s[1..], key);
        assert forall y :: y in s[1..] ==> y in s;
        ConsSortedBy(s[0], InsertBy(x, s[1..], key), key);
      } else {
        ConsSortedBy(x, s, key);
      }
    }
  }

  lemma SortedByHeadLeast<T>(s: seq<T>, key: T -> int)
    requires s != [] && SortedBy(s, key)
    ensures forall y :: y in s ==> key(s[0]) <= key(y)
  {
    forall y | y in s ensures key(s[0]) <= key(y) {
      var k :| 0 <= k < |s| && s[k] == y;
      if k > 0 {
        assert key(s[0]) <= key(s[k]);
      }
    }
  }

  lemma ConsSortedBy<T>(a: T, s: seq<T>, key: T -> int)
    requires SortedBy(s, key) && forall y :: y in s ==> key(a) <= key(y)
    ensures SortedBy([a] + s, key)
  {
    var r := [a] + s;
    forall i, j | 0 <= i < j < |r| ensures key(r[i]) <= key(r[j]) {
      assert r[j] == s[j - 1] && r[j] in s;
      if i > 0 {
        assert r[i] == s[i - 1];
      }
    }
  }

  lemma {:induction false} NoneWithKey<T>(s: seq<T>, key: T -> int, k: int)
    requires SortedBy(s, key)
    requires s != [] ==> k < key(s[0])
    ensures WithKey(s, key, k) == []
  {
    if s != [] {
      assert SortedBy(s[1..], key);
      assert |s| > 1 ==> key(s[0]) <= key(s[1]);
      NoneWithKey(s[1..], key, k);
    }
  }

  /** Elements with key k keep their relative order when `x` is inserted. */
  lemma {:induction false} InsertByStable<T(!new)>(x: T, s: seq<T>, key: T -> int, k: int)
    requires SortedBy(s, key)
    ensures WithKey(InsertBy(x, s, key), key, k) == WithKey(s, key, k) + (if key(x) == k then [x] else [])
  {
    if s == [] {
    } else if key(x) < key(s[0]) {
      if key(x) == k {
        NoneWithKey(s, key, k);
      }
    } else {
      assert SortedBy(s[1..], key);
      InsertByStable(x, s[1..], key, k);
    }
  }

  /** The stable sort is a permutation of its input and is ascending by key. */
  lemma {:induction false} SortByPermutes<T(!new)>(xs: seq<T>, key: T -> int)
    ensures multiset(SortBy(xs, key)) == multiset(xs)
    ensures SortedBy(SortBy(xs, key), key)
  {
    if xs != [] {
      var init, last := xs[..|xs| - 1], xs[|xs| - 1];
      SortByPermutes(init, key);
      InsertByPermutes(last, SortBy(init, key), key);
      InsertBySorted(last, SortBy(init, key), key);
      assert xs == init + [last];
    }
  }

  /** Stability: for every key value, the elements with that key keep their original order. */
  lemma {:induction false} SortByStable<T(!new)>(xs: seq<T>, key: T -> int, k: int)
    ensures WithKey(SortBy(xs, key), key, k) == WithKey(xs, key, k)
  {
    if xs != [] {
      var init, last := xs[..|xs| - 1], xs[|xs| - 1];
      SortByStable(init, key, k);
      SortByPermutes(init, key);
      InsertByStable(last, SortBy(init, key), key, k);
      assert xs == init + [last];
      FilterAppend(init, [last], y => key(y) == k);
    }
  }

  /* ---------------- flattening, first-occurrence de-duplication, slicing ---------------- */

  /** The lists of `xss` one after the other. */
  function Flatten<T(!new)>(xss: seq<seq<T>>): (r: seq<T>)
    ensures forall x :: x in r <==> exists k :: 0 <= k < |xss| && x in xss[k]
  {
    if xss == [] then []
    else
      var init := xss[..|xss| - 1];
      assert forall k :: 0 <= k < |init| ==> init[k] == xss[k];
      Flatten(init) + xss[|xss| - 1]
  }

  lemma {:induction false} FlattenAppend<T(!new)>(a: seq<seq<T>>, b: seq<seq<T>>)
    ensures Flatten(a + b) == Flatten(a) + Flatten(b)
    decreases |b|
  {
    if b == [] {
      assert a + b == a;
    } else {
      var init, last := b[..|b| - 1], b[|b| - 1];
      assert b == init + [last];
      assert a + b == (a + init) + [last];
      FlattenAppend(a, init);
      FlattenSnoc(a + init, last);
      FlattenSnoc(init, last);
    }
  }

  lemma FlattenSnoc<T(!new)>(xss: seq<seq<T>>, ys: seq<T>)
    ensures Flatten(xss + [ys]) == Flatten(xss) + ys
  {
    assert (xss + [ys])[..|xss|] == xss;
  }

  /** The elements of `xs` in the order of their first occurrence, each once. */
  function Dedup<T(==,!new)>(xs: seq<T>): (r: seq<T>)
    ensures forall x :: x in r <==> x in xs
    ensures Distinct(r)
    ensures |r| <= |xs|
  {
    if xs == [] then []
    else
      var init, last := xs[..|xs| - 1], xs[|xs| - 1];
      assert xs == init + [last];
      var d := Dedup(init);
      if last in d then d else d + [last]
  }

  lemma DedupSnoc<T(!new)>(xs: seq<T>, x: T)
    ensures Dedup(xs + [x]) == if x in xs then Dedup(xs) else Dedup(xs) + [x]
  {
    assert (xs + [x])[..|xs + [x]| - 1] == xs;
  }

  /** What is already de-duplicated stays in front when more elements follow. */
  lemma {:induction false} DedupPrefix<T(!new)>(a: seq<T>, b: seq<T>)
    ensures |Dedup(a)| <= |Dedup(a + b)| && Dedup(a + b)[..|Dedup(a)|] == Dedup(a)
    decreases |b|
  {
    if b == [] {
      assert a + b == a;
    } else {
      var init, last := b[..|b| - 1], b[|b| - 1];
      assert a + b == (a + init) + [last];
      DedupPrefix(a, init);
      DedupSnoc(a + init, last);
    }
  }

  /** The position of the first occurrence of `x` in `xs`. */
  function IndexOf<T(==)>(xs: seq<T>, x: T): (r: nat)
    requires x in xs
    ensures r < |xs| && xs[r] == x && x !in xs[..r]
  {
    if xs[0] == x then 0
    else
      assert x in xs[1..];
      var k := IndexOf(xs[1..], x);
      assert xs[..k + 1] == [xs[0]] + xs[1..][..k];
      k + 1
  }

  lemma IndexOfAppend<T>(a: seq<T>, b: seq<T>, x: T)
    requires x in a
    ensures IndexOf(a + b, x) == IndexOf(a, x)
  {
    var i, j := IndexOf(a + b, x), IndexOf(a, x);
    forall k | 0 <= k < i ensures (a + b)[k] != x {
      assert (a + b)[..i][k] == (a + b)[k];
    }
    forall k | 0 <= k < j ensures a[k] != x {
      assert a[..j][k] == a[k];
    }
    assert (a + b)[j] == x;
  }

  /** The output of `Dedup` follows the order of first occurrence in the input. */
  lemma {:induction false} DedupFirstOccurrenceOrder<T(!new)>(xs: seq<T>)
    ensures forall i, j :: 0 <= i < j < |Dedup(xs)| ==> IndexOf(xs, Dedup(xs)[i]) < IndexOf(xs, Dedup(xs)[j])
  {
    if xs != [] {
      var init, last := xs[..|xs| - 1], xs[|xs| - 1];
      assert xs == init + [last];
      DedupFirstOccurrenceOrder(init);
      DedupSnoc(init, last);
      forall y | y in init ensures IndexOf(xs, y) == IndexOf(init, y) {
        IndexOfAppend(init, [last], y);
      }
      if last in init {
        DedupOrderKept(init, xs);
      } else {
        assert IndexOf(xs, last) == |init| by {
          assert xs[..|init|] == init;
        }
        DedupOrderNew(init, xs);
      }
    }
  }

  lemma DedupOrderKept<T(!new)>(init: seq<T>, xs: seq<T>)
    requires Dedup(xs) == Dedup(init)
    requires forall y :: y in init ==> y in xs && IndexOf(xs, y) == IndexOf(init, y)
    requires forall i, j :: 0 <= i < j < |Dedup(init)| ==> IndexOf(init, Dedup(init)[i]) < IndexOf(init, Dedup(init)[j])
    ensures forall i, j :: 0 <= i < j < |Dedup(xs)| ==> IndexOf(xs, Dedup(xs)[i]) < IndexOf(xs, Dedup(xs)[j])
  {
    var d := Dedup(init);
    forall i, j | 0 <= i < j < |d| ensures IndexOf(xs, d[i]) < IndexOf(xs, d[j]) {
      assert d[i] in init && d[j] in init;
    }
  }

  lemma DedupOrderNew<T(!new)>(init: seq<T>, xs: seq<T>)
    requires xs != [] && xs[..|xs| - 1] == init && xs[|xs| - 1] !in init
    requires Dedup(xs) == Dedup(init) + [xs[|xs| - 1]]
    requires IndexOf(xs, xs[|xs| - 1]) == |init|
    requires forall y :: y in init ==> y in xs && IndexOf(xs, y) == IndexOf(init, y)
    requires forall i, j :: 0 <= i < j < |Dedup(init)| ==> IndexOf(init, Dedup(init)[i]) < IndexOf(init, Dedup(init)[j])
    ensures forall i, j :: 0 <= i < j < |Dedup(xs)| ==> IndexOf(xs, Dedup(xs)[i]) < IndexOf(xs, Dedup(xs)[j])
  {
    var d, r := Dedup(init), Dedup(xs);
    forall i, j | 0 <= i < j < |r| ensures IndexOf(xs, r[i]) < IndexOf(xs, r[j]) {
      assert r[i] == d[i] && d[i] in init;
      if j < |d| {
        assert r[j] == d[j] && d[j] in init;
      }
    }
  }

  /** The number of distinct elements of a duplicate-free sequence is its length. */
  lemma {:induction false} DistinctCardinality<T>(xs: seq<T>)
    requires Distinct(xs)
    ensures |set x | x in xs| == |xs|
  {
    if xs != [] {
      var init, last := xs[..|xs| - 1], xs[|xs| - 1];
      DistinctCardinality(init);
      assert (set x | x in xs) == (set x | x in init) + {last} by {
        assert xs == init + [last];
      }
      assert last !in init;
    }
  }

  /** Two duplicate-free sequences with the same elements have the same length. */
  lemma SameElementsSameLength<T>(a: seq<T>, b: seq<T>)
    requires Distinct(a) && Distinct(b)
    requires forall x :: x in a <==> x in b
    ensures |a| == |b|
  {
    DistinctCardinality(a);
    DistinctCardinality(b);
    assert (set x | x in a) == (set x | x in b);
  }

  /** `xs[:n]`. */
  function Take<T>(xs: seq<T>, n: nat): (r: seq<T>)
    ensures |r| == if |xs| <= n then |xs| else n
    ensures r == xs[..|r|]
  {
    if |xs| <= n then xs else xs[..n]
  }

  /** `a` is `b` with some elements left out, the rest in order. */
  predicate SubsequenceOf<T(==)>(a: seq<T>, b: seq<T>) {
    a == [] || (b != [] && ((a[0] == b[0] && SubsequenceOf(a[1..], b[1..])) || SubsequenceOf(a, b[1..])))
  }

  lemma {:induction false} FilterSubsequence<T>(xs: seq<T>, p: T -> bool)
    ensures SubsequenceOf(Filter(xs, p), xs)
  {
    if xs != [] {
      FilterSubsequence(xs[1..], p);
      var r := Filter(xs, p);
      if p(xs[0]) {
        assert r[0] == xs[0] && r[1..] == Filter(xs[1..], p);
      } else {
        assert r == Filter(xs[1..], p);
      }
    }
  }

  /** A subset is never larger than the set holding it. */
  lemma SetSizeMonotone<T>(a: set<T>, b: set<T>)
    requires a <= b
    ensures |a| <= |b|
  {
    assert b == a + (b - a);
  }
}
