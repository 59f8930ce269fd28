/**
 * The table summaries the chart builders ask pandas for: `value_counts`
 * with nulls counted, the mean of a numeric column per group, and the rows
 * that carry both coordinates (`dropna(subset=["latitude", "longitude"])`).
 * Keys are generic: the raw cells in callbacks/charts.py, their string
 * forms in services/figures.py.
 */
module Aggregate {
  import opened Seqs
  import opened Frames

  /* ---------------- counting ---------------- */

  /** How many times `k` occurs in `keys`. */
  function CountOf<K(==)>(keys: seq<K>, k: K): (r: nat)
    ensures r <= |keys|
    ensures r > 0 <==> k in keys
  {
    if keys == [] then 0
    else
      var init, last := keys[..|keys| - 1], keys[|keys| - 1];
      assert keys == init + [last];
      CountOf(init, k) + (if last == k then 1 else 0)
  }

  /** Each distinct key with its number of occurrences, in order of first occurrence. */
  function Tallies<K(==,!new)>(keys: seq<K>): (r: seq<(K, nat)>)
    ensures |r| == |Dedup(keys)|
    ensures forall i :: 0 <= i < |r| ==> r[i] == (Dedup(keys)[i], CountOf(keys, Dedup(keys)[i]))
  {
    var d := Dedup(keys);
    seq(|d|, i requires 0 <= i < |d| => (d[i], CountOf(keys, d[i])))
  }

  /** The sum of the counts of a tally. */
  function Total<K>(ts: seq<(K, nat)>): nat {
    if ts == [] then 0 else Total(ts[..|ts| - 1]) + ts[|ts| - 1].1
  }

  /** The sort key of `value_counts`: larger counts first. */
  function ByCountDescending<K>(e: (K, nat)): int {
    -(e.1 as int)
  }

  /**
   * `series.value_counts(dropna=False)`: each distinct value (nulls
   * included) with its count, larger counts first; equal counts keep the
   * order of first occurrence.
   */
  function ValueCounts<K(==,!new)>(keys: seq<K>): (r: seq<(K, nat)>)
    ensures |r| == |Dedup(keys)|
  {
    SortBy(Tallies(keys), ByCountDescending)
  }

  lemma TotalSnoc<K>(ts: seq<(K, nat)>, e: (K, nat))
    ensures Total(ts + [e]) == Total(ts) + e.1
  {
    assert (ts + [e])[..|ts|] == ts;
  }

  /** Raising one count by one raises the total by one. */
  lemma {:induction false} TotalBump<K>(a: seq<(K, nat)>, b: seq<(K, nat)>, i: nat)
    requires |a| == |b| && i < |a|
    requires forall j :: 0 <= j < |a| && j != i ==> a[j].1 == b[j].1
    requires b[i].1 == a[i].1 + 1
    ensures Total(b) == Total(a) + 1
  {
    var n := |a| - 1;
    if i == n {
      assert forall j :: 0 <= j < n ==> a[..n][j].1 == b[..n][j].1;
      TotalSame(a[..n], b[..n]);
    } else {
      TotalBump(a[..n], b[..n], i);
    }
  }

  lemma {:induction false} TotalSame<K>(a: seq<(K, nat)>, b: seq<(K, nat)>)
    requires |a| == |b| && forall j :: 0 <= j < |a| ==> a[j].1 == b[j].1
    ensures Total(a) == Total(b)
  {
    if a != [] {
      TotalSame(a[..|a| - 1], b[..|b| - 1]);
    }
  }

  /** Removing one entry lowers the total by its count. */
  lemma {:induction false} TotalRemove<K>(s: seq<(K, nat)>, i: nat)
    requires i < |s|
    ensures Total(s) == Total(s[..i] + s[i + 1..]) + s[i].1
  {
    var n := |s| - 1;
    if i < n {
      TotalRemove(s[..n], i);
      assert s[..n][..i] == s[..i];
      assert s[..i] + s[i + 1..] == (s[..n][..i] + s[..n][i + 1..]) + [s[n]];
      TotalSnoc(s[..n][..i] + s[..n][i + 1..], s[n]);
    } else {
      assert s[..i] + s[i + 1..] == s[..n];
    }
  }

  /** A permutation keeps the total. */
  lemma {:induction false} TotalPermutation<K>(a: seq<(K, nat)>, b: seq<(K, nat)>)
    requires multiset(a) == multiset(b)
    ensures Total(a) == Total(b)
    decreases |a|
  {
    if a != [] {
      var n := |a| - 1;
      var x := a[n];
      assert a == a[..n] + [x];
      assert x in multiset(b);
      var i :| 0 <= i < |b| && b[i] == x;
      assert b == b[..i] + [x] + b[i + 1..];
      assert multiset(b) == multiset(b[..i] + b[i + 1..]) + multiset{x};
      assert multiset(a) == multiset(a[..n]) + multiset{x};
      assert multiset(a[..n]) == multiset(a) - multiset{x};
      assert multiset(b[..i] + b[i + 1..]) == multiset(b) - multiset{x};
      TotalPermutation(a[..n], b[..i] + b[i + 1..]);
      TotalRemove(b, i);
    }
  }

  /** The counts of the first-occurrence tally add up to the number of keys. */
  lemma {:induction false} TalliesTotal<K(!new)>(keys: seq<K>)
    ensures Total(Tallies(keys)) == |keys|
  {
    if keys != [] {
      var init, c := keys[..|keys| - 1], keys[|keys| - 1];
      assert keys == init + [c];
      TalliesTotal(init);
      TalliesSnoc(init, c);
    }
  }

  lemma CountSnoc<K>(keys: seq<K>, c: K, k: K)
    ensures CountOf(keys + [c], k) == CountOf(keys, k) + (if c == k then 1 else 0)
  {
    assert (keys + [c])[..|keys|] == keys;
  }

  /** One more key raises the total of the tally by one. */
  lemma TalliesSnoc<K(!new)>(init: seq<K>, c: K)
    ensures Total(Tallies(init + [c])) == Total(Tallies(init)) + 1
  {
    DedupSnoc(init, c);
    var a, b := Tallies(init), Tallies(init + [c]);
    var d := Dedup(init);
    forall j | 0 <= j < |d| ensures b[j].1 == a[j].1 + (if d[j] == c then 1 else 0) {
      CountSnoc(init, c, d[j]);
    }
    if c in init {
      var i :| 0 <= i < |d| && d[i] == c;
      forall j | 0 <= j < |d| && j != i ensures a[j].1 == b[j].1 {
        assert d[j] != d[i];
      }
      TotalBump(a, b, i);
    } else {
      CountSnoc(init, c, c);
      assert b == a + [(c, 1)];
      TotalSnoc(a, (c, 1));
    }
  }

  /**
   * The value counts list every key with its number of occurrences, each
   * distinct key once, in order of falling count, and add up to the number
   * of rows.
   */
  lemma ValueCountsMeaning<K(!new)>(keys: seq<K>)
    ensures SortedBy(ValueCounts(keys), ByCountDescending)
    ensures multiset(ValueCounts(keys)) == multiset(Tallies(keys))
    ensures forall e :: e in ValueCounts(keys) ==> e.0 in keys && e.1 == CountOf(keys, e.0) && e.1 > 0
    ensures forall k :: k in keys ==> (k, CountOf(keys, k)) in ValueCounts(keys)
    ensures Total(ValueCounts(keys)) == |keys|
  {
    var t := Tallies(keys);
    var r := ValueCounts(keys);
    SortByPermutes(t, ByCountDescending);
    TalliesTotal(keys);
    TotalPermutation(r, t);
    forall e | e in r ensures e.0 in keys && e.1 == CountOf(keys, e.0) && e.1 > 0 {
      assert e in multiset(t);
    }
    forall k | k in keys ensures (k, CountOf(keys, k)) in r {
      var d := Dedup(keys);
      var i :| 0 <= i < |d| && d[i] == k;
      assert t[i] == (k, CountOf(keys, k));
      assert t[i] in multiset(r);
    }
  }

  /* ---------------- grouped means ---------------- */

  /** The numeric value of a cell of a numeric column (None for a null). */
  function NumberOf(c: Cell): (r: Option<real>)
    ensures r.Some? <==> c.Number?
  {
    if c.Number? then Some(c.x) else None
  }

  function Numbers(cells: seq<Cell>): (r: seq<Option<real>>)
    ensures |r| == |cells| && forall i :: 0 <= i < |cells| ==> r[i] == NumberOf(cells[i])
  {
    seq(|cells|, i requires 0 <= i < |cells| => NumberOf(cells[i]))
  }

  /** The sum of the numeric values of the rows whose key is `k`. */
  function SumOf<K(==)>(keys: seq<K>, ys: seq<Option<real>>, k: K): real
    requires |keys| == |ys|
  {
    if keys == [] then 0.0
    else
      var n := |keys| - 1;
      SumOf(keys[..n], ys[..n], k) + (if keys[n] == k && ys[n].Some? then ys[n].value else 0.0)
  }

  /** How many rows with key `k` have a numeric value. */
  function NumOf<K(==)>(keys: seq<K>, ys: seq<Option<real>>, k: K): nat
    requires |keys| == |ys|
  {
    if keys == [] then 0
    else
      var n := |keys| - 1;
      NumOf(keys[..n], ys[..n], k) + (if keys[n] == k && ys[n].Some? then 1 else 0)
  }

  /** A group holding a row with a number has a number to average. */
  lemma {:induction false} NumOfPositive<K>(keys: seq<K>, ys: seq<Option<real>>, k: K, i: nat)
    requires |keys| == |ys| && i < |keys| && keys[i] == k && ys[i].Some?
    ensures NumOf(keys, ys, k) > 0
  {
    var n := |keys| - 1;
    if i < n {
      NumOfPositive(keys[..n], ys[..n], k, i);
    }
  }

  /** A group none of whose rows holds a number has nothing to average. */
  lemma {:induction false} NumOfZero<K>(keys: seq<K>, ys: seq<Option<real>>, k: K)
    requires |keys| == |ys|
    requires forall i :: 0 <= i < |keys| && keys[i] == k ==> ys[i].None?
    ensures NumOf(keys, ys, k) == 0
  {
    if keys != [] {
      var n := |keys| - 1;
      NumOfZero(keys[..n], ys[..n], k);
    }
  }

  /** `groupby(...)[y].mean()` of one group: NaN (None) when it has no numeric value. */
  function MeanOf<K(==)>(keys: seq<K>, ys: seq<Option<real>>, k: K): (r: Option<real>)
    requires |keys| == |ys|
    ensures r.Some? <==> NumOf(keys, ys, k) > 0
  {
    var n := NumOf(keys, ys, k);
    if n == 0 then None else Some(SumOf(keys, ys, k) / n as real)
  }

  /** Averaging a column's numbers grouped by that same column gives each value itself. */
  lemma MeanOfOwnValues(keys: seq<Cell>, c: Cell)
    requires c in keys
    ensures MeanOf(keys, Numbers(keys), c) == (if c.Number? then Some(c.x) else None)
  {
    var ys := Numbers(keys);
    if c.Number? {
      var n :| 0 <= n < |keys| && keys[n] == c;
      NumOfPositive(keys, ys, c, n);
      MeanBetween(keys, ys, c, c.x, c.x);
    } else {
      NumOfZero(keys, ys, c);
    }
  }

  /** One row per group, in the order given, with the group's mean. */
  function GroupMeans<K(==)>(groups: seq<K>, keys: seq<K>, ys: seq<Option<real>>): (r: seq<(K, Option<real>)>)
    requires |keys| == |ys|
    ensures |r| == |groups|
    ensures forall i :: 0 <= i < |groups| ==> r[i] == (groups[i], MeanOf(keys, ys, groups[i]))
  {
    seq(|groups|, i requires 0 <= i < |groups| => (groups[i], MeanOf(keys, ys, groups[i])))
  }

  /** `sum` lies between `count` times `lo` and `count` times `hi`. */
  ghost predicate Within(lo: real, hi: real, count: nat, sum: real) {
    lo * count as real <= sum <= hi * count as real
  }

  /** The sum of a group lies between its count times the smallest and the largest value. */
  lemma {:induction false} SumBetween<K>(keys: seq<K>, ys: seq<Option<real>>, k: K, lo: real, hi: real)
    requires |keys| == |ys|
    requires forall i :: 0 <= i < |keys| && keys[i] == k && ys[i].Some? ==> lo <= ys[i].value <= hi
    ensures Within(lo, hi, NumOf(keys, ys, k), SumOf(keys, ys, k))
  {
    if keys != [] {
      var n := |keys| - 1;
      SumBetween(keys[..n], ys[..n], k, lo, hi);
      if keys[n] == k && ys[n].Some? {
        AddBetween(NumOf(keys[..n], ys[..n], k), SumOf(keys[..n], ys[..n], k), ys[n].value, lo, hi,
          NumOf(keys, ys, k), SumOf(keys, ys, k));
      } else {
        assert NumOf(keys, ys, k) == NumOf(keys[..n], ys[..n], k);
        assert SumOf(keys, ys, k) == SumOf(keys[..n], ys[..n], k);
      }
    }
  }

  lemma AddBetween(c: nat, s: real, v: real, lo: real, hi: real, count: nat, sum: real)
    requires Within(lo, hi, c, s) && lo <= v <= hi
    requires count == c + 1 && sum == s + v
    ensures Within(lo, hi, count, sum)
  { assert lo * (c as real + 1.0) == lo * c as real + lo && hi * (c as real + 1.0) == hi * c as real + hi; }

  /** A group's mean lies between the smallest and the largest of its values. */
  lemma MeanBetween<K>(keys: seq<K>, ys: seq<Option<real>>, k: K, lo: real, hi: real)
    requires |keys| == |ys|
    requires forall i :: 0 <= i < |keys| && keys[i] == k && ys[i].Some? ==> lo <= ys[i].value <= hi
    requires MeanOf(keys, ys, k).Some?
    ensures lo <= MeanOf(keys, ys, k).value <= hi
  {
    SumBetween(keys, ys, k, lo, hi);
    DivBetween(SumOf(keys, ys, k), NumOf(keys, ys, k), lo, hi);
  }

  /** An average of `count` values within [`lo`, `hi`] is within [`lo`, `hi`]. */
  lemma DivBetween(sum: real, count: nat, lo: real, hi: real)
    requires count > 0 && Within(lo, hi, count, sum)
    ensures lo <= sum / count as real <= hi
  {
    var n := count as real;
    assert sum / n * n == sum;
  }

  /* ---------------- rows with coordinates ---------------- */

  /** The row has a value in both coordinate columns. */
  predicate Located(t: Table, row: seq<Cell>)
    requires HasCoordinates(t)
  {
    var la, lo := ColumnIndex(t, LATITUDE).value, ColumnIndex(t, LONGITUDE).value;
    la < |row| && lo < |row| && !row[la].Missing? && !row[lo].Missing?
  }

  function LocatedTest(t: Table): seq<Cell> -> bool
    requires HasCoordinates(t)
  {
    row => Located(t, row)
  }

  /** `df.dropna(subset=["latitude", "longitude"])` of a table with both columns. */
  function GeoRows(t: Table): (r: seq<seq<Cell>>)
    requires HasCoordinates(t)
    ensures forall row :: row in r <==> row in t.rows && Located(t, row)
    ensures SubsequenceOf(r, t.rows)
  {
    FilterComplete(t.rows, LocatedTest(t));
    FilterSubsequence(t.rows, LocatedTest(t));
    Filter(t.rows, LocatedTest(t))
  }
}
