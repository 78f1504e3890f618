/** Character and string operations that the pipeline borrows from Python's `str` and `re`. */
module Text {

  // ---------------------------------------------------------------------------
  // Decimal digits and numerals
  // ---------------------------------------------------------------------------

  /** A character matched by the regular-expression class `\d` (ASCII digits only). */
  predicate IsDigit(c: char) {
    '0' <= c <= '9'
  }

  predicate AllDigits(s: string) {
    forall i | 0 <= i < |s| :: IsDigit(s[i])
  }

  function DigitOf(c: char): nat
    requires IsDigit(c)
  {
    (c as int) - ('0' as int)
  }

  function DigitChar(d: nat): (c: char)
    requires d < 10
    ensures IsDigit(c) && DigitOf(c) == d
  {
    ('0' as int + d) as char
  }

  function Pow10(k: nat): (p: nat)
    ensures p >= 1
  {
    if k == 0 then 1 else 10 * Pow10(k - 1)
  }

  /**
   * The number a string of decimal digits denotes (Python's `float(m)` of a regex match, exactly):
   * `k` digits denote less than `10^k`.
   */
  function DecimalValue(ds: string): (v: nat)
    requires AllDigits(ds)
    ensures v < Pow10(|ds|)
  {
    if ds == [] then 0
    else
      DecimalValue(ds[..|ds| - 1]) * 10 + DigitOf(ds[|ds| - 1])
  }

  /** Python's `str(n)` for a non-negative integer: decimal, no leading zeros. */
  function NatToString(n: nat): (s: string)
    ensures |s| > 0 && AllDigits(s)
    ensures DecimalValue(s) == n
    ensures s[0] == '0' ==> n == 0 && |s| == 1
  {
    if n < 10 then [DigitChar(n)]
    else
      var prefix := NatToString(n / 10);
      var s := prefix + [DigitChar(n % 10)];
      assert s[..|s| - 1] == prefix;
      s
  }

  /**
   * Python's `str(i)` (and the `{i}` of an f-string) for any integer: the decimal digits of `|i|`
   * without leading zeros, after a minus sign when `i` is negative.
   */
  function IntToString(i: int): (s: string)
    ensures |s| > 0
    ensures i >= 0 ==> AllDigits(s) && DecimalValue(s) == i && (s[0] == '0' ==> |s| == 1)
    ensures i < 0 ==> |s| >= 2 && s[0] == '-' && s[1] != '0'
    ensures i < 0 ==> AllDigits(s[1..]) && DecimalValue(s[1..]) == -i
  {
    if i < 0 then
      var digits := NatToString(-i);
      var s := "-" + digits;
      assert s[1..] == digits;
      s
    else NatToString(i)
  }

  /** Distinct integers render as distinct strings, so the rendering can be read back. */
  lemma IntToStringInjective(i: int, j: int)
    requires IntToString(i) == IntToString(j)
    ensures i == j
  {
    assert i >= 0 <==> IsDigit(IntToString(i)[0]);
    assert j >= 0 <==> IsDigit(IntToString(j)[0]);
  }

  // ---------------------------------------------------------------------------
  // Lower-casing and stripping (pandas `.str.lower()` and `.str.strip()`)
  // ---------------------------------------------------------------------------

  predicate IsUpper(c: char) {
    'A' <= c <= 'Z'
  }

  function LowerChar(c: char): (l: char)
    ensures !IsUpper(l)
    ensures !IsUpper(c) ==> l == c
  {
    if IsUpper(c) then (c as int + 32) as char else c
  }

  function Lower(s: string): (l: string)
    ensures |l| == |s|
    ensures forall i | 0 <= i < |s| :: l[i] == LowerChar(s[i])
  {
    seq(|s|, i requires 0 <= i < |s| => LowerChar(s[i]))
  }

  predicate IsLowerCase(s: string) {
    forall i | 0 <= i < |s| :: !IsUpper(s[i])
  }

  /** The whitespace that Python's `str.strip()` removes (the characters for which `str.isspace()` holds). */
  predicate IsSpace(c: char) {
    var k := c as int;
    (9 <= k <= 13) || (28 <= k <= 32) || k == 0x85 || k == 0xA0 || k == 0x1680
    || (0x2000 <= k <= 0x200A) || k == 0x2028 || k == 0x2029 || k == 0x202F
    || k == 0x205F || k == 0x3000
  }

  /** The index of the first non-whitespace character at or after `i`, or `|s|`. */
  function FirstNonSpace(s: string, i: nat): (n: nat)
    requires i <= |s|
    ensures i <= n <= |s|
    ensures forall k | i <= k < n :: IsSpace(s[k])
    ensures n < |s| ==> !IsSpace(s[n])
    decreases |s| - i
  {
    if i < |s| && IsSpace(s[i]) then FirstNonSpace(s, i + 1) else i
  }

  /** The end of `s[lo..j]` once its trailing whitespace is removed. */
  function EndOfText(s: string, lo: nat, j: nat): (e: nat)
    requires lo <= j <= |s|
    ensures lo <= e <= j
    ensures forall k | e <= k < j :: IsSpace(s[k])
    ensures e > lo ==> !IsSpace(s[e - 1])
  {
    if j > lo && IsSpace(s[j - 1]) then EndOfText(s, lo, j - 1) else j
  }

  predicate IsStripped(s: string) {
    s == [] || (!IsSpace(s[0]) && !IsSpace(s[|s| - 1]))
  }

  /** `r` is `s` with the characters before index `i` and after `r` removed, all of them whitespace. */
  predicate TrimmedAt(r: string, s: string, i: nat) {
    && i + |r| <= |s|
    && s[i..i + |r|] == r
    && (forall k | 0 <= k < i :: IsSpace(s[k]))
    && (forall k | i + |r| <= k < |s| :: IsSpace(s[k]))
  }

  /** `r` is what stripping `s` gives: `s` less its surrounding whitespace, with none left at either end. */
  ghost predicate IsStripOf(r: string, s: string) {
    IsStripped(r) && exists i: nat :: TrimmedAt(r, s, i)
  }

  /** Python's `str.strip()`: `s` without its leading and trailing whitespace. */
  function Strip(s: string): (r: string)
    ensures IsStripped(r)
    ensures exists i: nat :: TrimmedAt(r, s, i)
  {
    var i := FirstNonSpace(s, 0);
    var e := EndOfText(s, i, |s|);
    assert TrimmedAt(s[i..e], s, i);
    s[i..e]
  }

  /** Stripping a string without leading or trailing whitespace changes nothing. */
  lemma StripIdempotent(s: string)
    requires IsStripped(s)
    ensures Strip(s) == s
  {
    assert FirstNonSpace(s, 0) == 0;
    assert s[0..|s|] == s;
  }

  /** Lower-casing then stripping, as `.str.lower().str.strip()` does, gives a fixed point. */
  lemma StripLowerIdempotent(s: string)
    ensures var t := Strip(Lower(s)); IsLowerCase(t) && IsStripped(t) && Strip(Lower(t)) == t
  {
    var t := Strip(Lower(s));
    StripKeepsLowerCase(Lower(s));
    LowerOfLowerCase(t);
    StripIdempotent(t);
  }

  lemma StripKeepsLowerCase(l: string)
    requires IsLowerCase(l)
    ensures IsLowerCase(Strip(l))
  {
    var t := Strip(l);
    var i: nat :| TrimmedAt(t, l, i);
    forall k | 0 <= k < |t| ensures !IsUpper(t[k]) {
      assert t[k] == l[i + k];
    }
  }

  lemma LowerOfLowerCase(t: string)
    requires IsLowerCase(t)
    ensures Lower(t) == t
  {
  }

  // ---------------------------------------------------------------------------
  // Splitting and substrings
  // ---------------------------------------------------------------------------

  /** Python's `s.split(sep)` for a one-character separator: the pieces between separators, empty ones kept. */
  function Split(s: string, sep: char): (pieces: seq<string>)
    ensures |pieces| >= 1
    ensures forall k | 0 <= k < |pieces| :: sep !in pieces[k]
  {
    if s == [] then [""]
    else
      var rest := Split(s[1..], sep);
      if s[0] == sep then [""] + rest else [[s[0]] + rest[0]] + rest[1..]
  }

  /** Python's `sep.join(pieces)`, the inverse of `Split`. */
  function Join(pieces: seq<string>, sep: char): string
    requires |pieces| >= 1
  {
    if |pieces| == 1 then pieces[0] else pieces[0] + [sep] + Join(pieces[1..], sep)
  }

  lemma {:induction false} SplitJoin(s: string, sep: char)
    ensures Join(Split(s, sep), sep) == s
  {
    if s != [] {
      var rest := Split(s[1..], sep);
      SplitJoin(s[1..], sep);
      if s[0] == sep {
        assert Split(s, sep) == [""] + rest;
        assert ([""] + rest)[1..] == rest;
      } else {
        var pieces := [[s[0]] + rest[0]] + rest[1..];
        assert Split(s, sep) == pieces;
        if |rest| == 1 {
          assert Join(rest, sep) == rest[0];
        } else {
          assert pieces[1..] == rest[1..];
          assert Join(rest, sep) == rest[0] + [sep] + Join(rest[1..], sep);
        }
      }
    }
  }

  predicate IsPrefix(p: string, s: string) {
    |p| <= |s| && s[..|p|] == p
  }

  /** Python's `needle in hay` on strings (the empty string is in every string). */
  predicate IsSubstring(needle: string, hay: string)
    decreases |hay|
  {
    IsPrefix(needle, hay) || (hay != [] && IsSubstring(needle, hay[1..]))
  }

  lemma {:induction false} SubstringIff(needle: string, hay: string)
    ensures IsSubstring(needle, hay) <==> exists k | 0 <= k <= |hay| :: IsPrefix(needle, hay[k..])
    decreases |hay|
  {
    if IsSubstring(needle, hay) {
      if !IsPrefix(needle, hay) {
        SubstringIff(needle, hay[1..]);
        var k :| 0 <= k <= |hay| - 1 && IsPrefix(needle, hay[1..][k..]);
        assert hay[1..][k..] == hay[k + 1..];
      } else {
        assert hay[0..] == hay;
      }
    }
    if exists k | 0 <= k <= |hay| :: IsPrefix(needle, hay[k..]) {
      var k :| 0 <= k <= |hay| && IsPrefix(needle, hay[k..]);
      if k > 0 {
        assert hay[1..][k - 1..] == hay[k..];
        SubstringIff(needle, hay[1..]);
      } else {
        assert hay[0..] == hay;
      }
    }
  }

  // ---------------------------------------------------------------------------
  // Code-point order on strings (Python's `<` on `str`) and sorted sets
  // ---------------------------------------------------------------------------

  /** `a < b` in Python: lexicographic by code point, a proper prefix first. */
  predicate Below(a: string, b: string) {
    if a == [] then b != []
    else if b == [] then false
    else if a[0] != b[0] then a[0] < b[0]
    else Below(a[1..], b[1..])
  }

  lemma {:induction false} BelowIrreflexive(a: string)
    ensures !Below(a, a)
  {
    if a != [] {
      BelowIrreflexive(a[1..]);
    }
  }

  lemma {:induction false} BelowTransitive(a: string, b: string, c: string)
    requires Below(a, b) && Below(b, c)
    ensures Below(a, c)
  {
    if a != [] && b != [] && c != [] && a[0] == b[0] && b[0] == c[0] {
      BelowTransitive(a[1..], b[1..], c[1..]);
    }
  }

  lemma {:induction false} BelowTotal(a: string, b: string)
    ensures a == b || Below(a, b) || Below(b, a)
  {
    if a != [] && b != [] && a[0] == b[0] {
      BelowTotal(a[1..], b[1..]);
      if a[1..] == b[1..] {
        assert a == [a[0]] + a[1..] && b == [b[0]] + b[1..];
      }
    }
  }

  predicate StrictlySorted(xs: seq<string>) {
    forall i, j | 0 <= i < j < |xs| :: Below(xs[i], xs[j])
  }

  /** Inserts `x` into a strictly sorted list unless it is there already. */
  function InsertSorted(xs: seq<string>, x: string): (r: seq<string>)
    requires StrictlySorted(xs)
    ensures StrictlySorted(r)
    ensures forall y :: y in r <==> y in xs || y == x
  {
    if xs == [] then [x]
    else if x == xs[0] then xs
    else if Below(x, xs[0]) then
      assert forall j | 0 < j < |xs| :: Below(x, xs[j]) by {
        forall j | 0 < j < |xs| ensures Below(x, xs[j]) {
          BelowTransitive(x, xs[0], xs[j]);
        }
      }
      [x] + xs
    else
      BelowTotal(x, xs[0]);
      var tail := InsertSorted(xs[1..], x);
      assert forall y | y in tail :: Below(xs[0], y);
      var r := [xs[0]] + tail;
      assert forall i, j | 0 < i < j < |r| :: Below(r[i], r[j]) by {
        forall i, j | 0 < i < j < |r| ensures Below(r[i], r[j]) {
          assert r[i] == tail[i - 1] && r[j] == tail[j - 1];
        }
      }
      assert forall j | 0 < j < |r| :: r[j] in tail;
      r
  }

  /** Python's `sorted(set(xs))` for strings: the distinct elements in ascending order. */
  function SortedUnique(xs: seq<string>): (r: seq<string>)
    ensures StrictlySorted(r)
    ensures forall y :: y in r <==> y in xs
  {
    if xs == [] then []
    else InsertSorted(SortedUnique(xs[..|xs| - 1]), xs[|xs| - 1])
  }

  lemma SortedMeansDistinct(xs: seq<string>)
    requires StrictlySorted(xs)
    ensures forall i, j | 0 <= i < j < |xs| :: xs[i] != xs[j]
  {
    forall i, j | 0 <= i < j < |xs| ensures xs[i] != xs[j] {
      BelowIrreflexive(xs[i]);
    }
  }
}
