/**
 * Python `str` behaviour that the model relies on: character classes
 * (`isalnum`, `isspace`), `lower`, `strip`, substring tests, `str(int)`,
 * `isdigit`/`int(...)` and the code-point ordering used by `sorted`.
 * Character classes cover ASCII and Latin-1; `isspace` also covers the
 * other Unicode white-space code points.
 */
module Text {
  import opened Seqs

  /** `c.isalnum()` for ASCII and Latin-1 characters. */
  predicate IsAlnum(c: char) {
    var n := c as int;
    || ('a' <= c <= 'z') || ('A' <= c <= 'Z') || ('0' <= c <= '9')
    || n == 0xAA || n == 0xB2 || n == 0xB3 || n == 0xB5 || n == 0xB9 || n == 0xBA
    || (0xBC <= n <= 0xBE)
    || (0xC0 <= n <= 0xFF && n != 0xD7 && n != 0xF7)
  }

  /** `c.isspace()`: the characters `str.strip()` removes. */
  predicate IsSpace(c: char) {
    var n := c as int;
    || (0x09 <= n <= 0x0D) || (0x1C <= n <= 0x20) || n == 0x85 || n == 0xA0
    || n == 0x1680 || (0x2000 <= n <= 0x200A) || n == 0x2028 || n == 0x2029
    || n == 0x202F || n == 0x205F || n == 0x3000
  }

  /** `c.lower()` for ASCII and Latin-1 upper-case letters; other characters are unchanged. */
  function LowerChar(c: char): (r: char)
    ensures IsAlnum(c) <==> IsAlnum(r)
    ensures r == '_' <==> c == '_'
  {
    var n := c as int;
    if ('A' <= c <= 'Z') || (0xC0 <= n <= 0xDE && n != 0xD7) then (n + 32) as char else c
  }

  /** `s.lower()`. */
  function Lower(s: string): (r: string)
    ensures |r| == |s|
    ensures forall i :: 0 <= i < |s| ==> r[i] == LowerChar(s[i])
  {
    seq(|s|, i requires 0 <= i < |s| => LowerChar(s[i]))
  }

  /** `s.lstrip(chars)`, with `drop` telling the stripped characters. */
  function StripLeft(s: string, drop: char -> bool): (r: string)
    ensures |r| <= |s|
  {
    if s != [] && drop(s[0]) then StripLeft(s[1..], drop) else s
  }

  /** `s.rstrip(chars)`. */
  function StripRight(s: string, drop: char -> bool): (r: string)
    ensures |r| <= |s|
  {
    if s != [] && drop(s[|s| - 1]) then StripRight(s[..|s| - 1], drop) else s
  }

  /** `s.strip(chars)`: drops every leading and trailing character that `drop` accepts. */
  function StripBy(s: string, drop: char -> bool): (r: string)
    ensures |r| <= |s|
  {
    StripRight(StripLeft(s, drop), drop)
  }

  /** `s.strip()`. */
  function Strip(s: string): string {
    StripBy(s, IsSpace)
  }

  /** Left stripping removes a prefix of dropped characters and stops at a kept one. */
  lemma {:induction false} StripLeftFacts(s: string, drop: char -> bool)
    ensures var r := StripLeft(s, drop);
      && r == s[|s| - |r|..]
      && (r != [] ==> !drop(r[0]))
      && (forall i :: 0 <= i < |s| - |r| ==> drop(s[i]))
  {
    if s != [] && drop(s[0]) {
      StripLeftFacts(s[1..], drop);
      var r := StripLeft(s, drop);
      assert s[1..][|s| - 1 - |r|..] == s[|s| - |r|..];
      forall i | 1 <= i < |s| - |r| ensures drop(s[i]) {
        assert s[1..][i - 1] == s[i];
      }
    }
  }

  /** Right stripping removes a suffix of dropped characters and stops at a kept one. */
  lemma {:induction false} StripRightFacts(s: string, drop: char -> bool)
    ensures var r := StripRight(s, drop);
      && r == s[..|r|]
      && (r != [] ==> !drop(r[|r| - 1]))
      && (forall i :: |r| <= i < |s| ==> drop(s[i]))
  {
    if s != [] && drop(s[|s| - 1]) {
      StripRightFacts(s[..|s| - 1], drop);
      var r := StripRight(s, drop);
      assert s[..|s| - 1][..|r|] == s[..|r|];
      forall i | |r| <= i < |s| - 1 ensures drop(s[i]) {
        assert s[..|s| - 1][i] == s[i];
      }
    }
  }

  /** The stripped string neither starts nor ends with a dropped character and keeps only characters of `s`. */
  lemma StripByFacts(s: string, drop: char -> bool)
    ensures var r := StripBy(s, drop);
      && (r != [] ==> !drop(r[0]) && !drop(r[|r| - 1]))
      && (forall c :: c in r ==> c in s)
  {
    var l := StripLeft(s, drop);
    var r := StripBy(s, drop);
    StripLeftFacts(s, drop);
    StripRightFacts(l, drop);
    if r != [] {
      assert r[0] == l[0];
    }
    forall c | c in r ensures c in s {
      var i :| 0 <= i < |r| && r[i] == c;
      assert l[i] == c;
      assert s[|s| - |l| + i] == c;
    }
  }

  /** A string whose ends `drop` rejects is left as it is. */
  lemma StripByUnchanged(s: string, drop: char -> bool)
    requires s != [] ==> !drop(s[0]) && !drop(s[|s| - 1])
    ensures StripBy(s, drop) == s
  {
  }

  /** `w` occurs in `s` starting at position `i`. */
  predicate OccursAt(w: string, s: string, i: nat) {
    i + |w| <= |s| && s[i..i + |w|] == w
  }

  /** Python's `w in s` on strings. */
  predicate Contains(s: string, w: string) {
    exists i: nat :: i <= |s| && OccursAt(w, s, i)
  }

  /** `any(w in s for w in ws)`. */
  function AnyContains(s: string, ws: seq<string>): (r: bool)
    ensures r <==> exists w :: w in ws && Contains(s, w)
  {
    if ws == [] then false
    else Contains(s, ws[0]) || AnyContains(s, ws[1..])
  }

  /** No window of `s` as long as `w` starts with `w`'s first character, so `w` does not occur in `s`. */
  lemma NotContainsByFirst(s: string, w: string)
    requires |w| > 0
    requires forall i :: 0 <= i && i + |w| <= |s| ==> s[i] != w[0]
    ensures !Contains(s, w)
  {
    forall i: nat | i <= |s| ensures !OccursAt(w, s, i) {
      if i + |w| <= |s| {
        assert s[i..i + |w|][0] == s[i];
      }
    }
  }

  /** `s.replace(a, b)` for single characters. */
  function ReplaceChar(s: string, a: char, b: char): (r: string)
    ensures |r| == |s|
    ensures forall i :: 0 <= i < |s| ==> r[i] == if s[i] == a then b else s[i]
  {
    seq(|s|, i requires 0 <= i < |s| => if s[i] == a then b else s[i])
  }

  /* ---------------- decimal integers ---------------- */

  predicate IsDigit(c: char) { '0' <= c <= '9' }

  /** `s.isdigit()` for ASCII digits. */
  predicate IsDigits(s: string) {
    |s| > 0 && forall c :: c in s ==> IsDigit(c)
  }

  /** `int(s)` for a string of ASCII digits. */
  function DigitsValue(s: string): nat
    requires IsDigits(s)
  {
    assert s[|s| - 1] in s;
    var d := (s[|s| - 1] as int - '0' as int) as nat;
    if |s| == 1 then d
    else
      assert IsDigits(s[..|s| - 1]) by {
        forall c | c in s[..|s| - 1] ensures IsDigit(c) { assert c in s; }
      }
      DigitsValue(s[..|s| - 1]) * 10 + d
  }

  /** `str(n)` for a natural number. */
  function NatToString(n: nat): (r: string)
    ensures |r| >= 1
    ensures IsDigits(r)
  {
    var c := ('0' as int + n % 10) as char;
    if n < 10 then [c] else NatToString(n / 10) + [c]
  }

  /** `str(i)` for an integer. */
  function IntToString(i: int): (r: string)
    ensures |r| >= 1
  {
    if i < 0 then "-" + NatToString(-i) else NatToString(i)
  }

  /** `int(str(n)) == n`: the decimal rendering reads back as the number. */
  lemma {:induction false} NatToStringRoundTrip(n: nat)
    ensures DigitsValue(NatToString(n)) == n
  {
    if n >= 10 {
      var p := NatToString(n / 10);
      var s := p + [('0' as int + n % 10) as char];
      assert s[..|s| - 1] == p;
      NatToStringRoundTrip(n / 10);
    }
  }

  /** Distinct numbers have distinct decimal renderings. */
  lemma NatToStringInjective(a: nat, b: nat)
    requires NatToString(a) == NatToString(b)
    ensures a == b
  {
    NatToStringRoundTrip(a);
    NatToStringRoundTrip(b);
  }

  /* ---------------- ordering ---------------- */

  /** Python's `a < b` on strings: lexicographic by code point, a proper prefix first. */
  predicate LexLess(a: string, b: string) {
    |b| > 0 && (|a| == 0 || a[0] < b[0] || (a[0] == b[0] && LexLess(a[1..], b[1..])))
  }

  lemma {:induction false} LexLessIrreflexive(a: string)
    ensures !LexLess(a, a)
  {
    if |a| > 0 {
      LexLessIrreflexive(a[1..]);
    }
  }

  lemma {:induction false} LexLessTransitive(a: string, b: string, c: string)
    requires LexLess(a, b) && LexLess(b, c)
    ensures LexLess(a, c)
  {
    if |a| > 0 && a[0] == b[0] && b[0] == c[0] {
      LexLessTransitive(a[1..], b[1..], c[1..]);
    }
  }

  lemma {:induction false} LexLessTotal(a: string, b: string)
    requires a != b
    ensures LexLess(a, b) || LexLess(b, a)
  {
    if |a| > 0 && |b| > 0 && a[0] == b[0] {
      assert a == [a[0]] + a[1..] && b == [b[0]] + b[1..];
      LexLessTotal(a[1..], b[1..]);
    }
  }

  lemma LexLessIsStrictTotalOrder()
    ensures StrictTotalOrder(LexLess)
  {
    forall a ensures !LexLess(a, a) { LexLessIrreflexive(a); }
    forall a, b, c | LexLess(a, b) && LexLess(b, c) ensures LexLess(a, c) {
      LexLessTransitive(a, b, c);
    }
    forall a, b | a != b ensures LexLess(a, b) || LexLess(b, a) { LexLessTotal(a, b); }
  }

  /** `a < b` on integers, as a function value for the sorting helpers. */
  predicate IntLess(a: int, b: int) { a < b }

  lemma IntLessIsStrictTotalOrder()
    ensures StrictTotalOrder(IntLess)
  {
  }
}
