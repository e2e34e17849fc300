/**
 * The .NET string primitives the core relies on: character classes, ordinal case-insensitive
 * comparison, int.TryParse, int.ToString and the ordinal order of strings that Lucene's term
 * ranges use. Strings are sequences of Unicode scalar values; a C# `null` string is modelled
 * as "" (every use of a string in the core treats the two alike).
 */
module Text {
  import opened Wrappers

  // ----- ASCII digits -----

  /** The regex class `\d` and char.IsDigit, restricted to ASCII. */
  predicate IsDigit(c: char) { '0' <= c <= '9' }

  function DigitValue(c: char): (n: nat)
    requires IsDigit(c)
    ensures n < 10
  {
    c as int - '0' as int
  }

  function DigitChar(n: nat): (c: char)
    requires n < 10
    ensures IsDigit(c) && DigitValue(c) == n
  {
    ('0' as int + n) as char
  }

  predicate AllDigits(s: string) { forall i :: 0 <= i < |s| ==> IsDigit(s[i]) }

  /** The number a string of decimal digits denotes (leading zeros allowed). */
  function DigitsValue(s: string): nat
    requires AllDigits(s)
  {
    if |s| == 0 then 0 else DigitsValue(s[..|s| - 1]) * 10 + DigitValue(s[|s| - 1])
  }

  lemma DigitsValueSnoc(s: string, c: char)
    requires AllDigits(s) && IsDigit(c)
    ensures AllDigits(s + [c]) && DigitsValue(s + [c]) == DigitsValue(s) * 10 + DigitValue(c)
  {
    assert (s + [c])[..|s|] == s;
  }

  // ----- white space -----

  /**
   * char.IsWhiteSpace, which is also the class `\s` of .NET regular expressions: the Unicode
   * White_Space characters U+0009..U+000D, U+0020, U+0085, U+00A0, U+1680, U+2000..U+200A,
   * U+2028, U+2029, U+202F, U+205F and U+3000.
   */
  predicate IsWhiteSpace(c: char) {
    ('\t' <= c <= '\r') || c == ' ' || c == '\U{85}' || c == '\U{A0}' || c == '\U{1680}'
    || ('\U{2000}' <= c <= '\U{200A}') || c == '\U{2028}' || c == '\U{2029}'
    || c == '\U{202F}' || c == '\U{205F}' || c == '\U{3000}'
  }

  /** string.IsNullOrWhiteSpace. */
  predicate IsBlank(s: string) { forall i :: 0 <= i < |s| ==> IsWhiteSpace(s[i]) }

  // ----- ordinal case-insensitive comparison -----

  /** The case folding of StringComparison.OrdinalIgnoreCase, on ASCII letters. */
  function FoldChar(c: char): char {
    if 'a' <= c <= 'z' then (c as int - 32) as char else c
  }

  predicate EqualsIgnoreCase(a: string, b: string) {
    |a| == |b| && forall i :: 0 <= i < |a| ==> FoldChar(a[i]) == FoldChar(b[i])
  }

  /** s.EndsWith(suffix, StringComparison.OrdinalIgnoreCase). */
  predicate EndsWithIgnoreCase(s: string, suffix: string) {
    |suffix| <= |s| && EqualsIgnoreCase(s[|s| - |suffix|..], suffix)
  }

  /** s.Contains(part, StringComparison.OrdinalIgnoreCase). */
  predicate ContainsIgnoreCase(s: string, part: string) {
    exists i :: 0 <= i <= |s| - |part| && OccursAt(s, part, i)
  }

  /** part occurs in s at index i, case-insensitively. */
  predicate OccursAt(s: string, part: string, i: int) {
    0 <= i <= |s| - |part| && EqualsIgnoreCase(s[i..i + |part|], part)
  }

  // ----- int.TryParse with NumberStyles.Integer -----

  /** The white space NumberStyles.AllowLeadingWhite / AllowTrailingWhite skip. */
  predicate IsNumberWhite(c: char) { ('\t' <= c <= '\r') || c == ' ' }

  function TrimStartNumberWhite(s: string): string {
    if |s| > 0 && IsNumberWhite(s[0]) then TrimStartNumberWhite(s[1..]) else s
  }

  function TrimEndNumberWhite(s: string): string {
    if |s| > 0 && IsNumberWhite(s[|s| - 1]) then TrimEndNumberWhite(s[..|s| - 1]) else s
  }

  /** int.TryParse without the 32-bit range check: [white][sign]digits[white]. */
  function TryParseInteger(s: string): Option<int> {
    var t := TrimEndNumberWhite(TrimStartNumberWhite(s));
    if |t| > 0 && (t[0] == '+' || t[0] == '-') then
      if |t| > 1 && AllDigits(t[1..]) then
        Some(if t[0] == '-' then -(DigitsValue(t[1..]) as int) else DigitsValue(t[1..]))
      else None
    else if |t| > 0 && AllDigits(t) then Some(DigitsValue(t))
    else None
  }

  const Int32Min: int := -0x8000_0000
  const Int32Max: int := 0x7fff_ffff

  /** int.TryParse(s, out int v): the value when s is an integer within the range of int; see TryParseInt32Spec. */
  function TryParseInt32(s: string): Option<int> {
    match TryParseInteger(s)
    case Some(v) => if Int32Min <= v <= Int32Max then Some(v) else None
    case None => None
  }

  predicate AllNumberWhite(s: string) { forall k :: 0 <= k < |s| ==> IsNumberWhite(s[k]) }

  /** `[+-]?\d+`: the text NumberStyles.Integer accepts between the white space. */
  predicate IsIntegerText(t: string) {
    (|t| > 1 && (t[0] == '+' || t[0] == '-') && AllDigits(t[1..])) || (|t| > 0 && AllDigits(t))
  }

  /** The value an integer text denotes. */
  function IntegerTextValue(t: string): int
    requires IsIntegerText(t)
  {
    if AllDigits(t) then DigitsValue(t) else if t[0] == '-' then -(DigitsValue(t[1..]) as int) else DigitsValue(t[1..])
  }

  /** s is white space, then an integer text at s[i..j], then white space. */
  predicate NumberAt(s: string, i: int, j: int) {
    0 <= i <= j <= |s| && AllNumberWhite(s[..i]) && IsIntegerText(s[i..j]) && AllNumberWhite(s[j..])
  }

  /**
   * int.TryParse with NumberStyles.Integer: s parses exactly when it is white space, an
   * optionally signed run of digits, and white space, and then to that number when it lies
   * within the range of int.
   */
  lemma TryParseInt32Spec(s: string)
    ensures TryParseInt32(s).Some? ==>
      exists i, j :: NumberAt(s, i, j) && TryParseInt32(s).value == IntegerTextValue(s[i..j])
    ensures forall i, j :: NumberAt(s, i, j) ==>
      TryParseInt32(s) == (if Int32Min <= IntegerTextValue(s[i..j]) <= Int32Max then Some(IntegerTextValue(s[i..j])) else None)
  {
    if TryParseInt32(s).Some? {
      TryParseFound(s);
    }
    forall a, b | NumberAt(s, a, b)
      ensures TryParseInt32(s) == (if Int32Min <= IntegerTextValue(s[a..b]) <= Int32Max then Some(IntegerTextValue(s[a..b])) else None)
    {
      TrimmedNumber(s, a, b);
      TryParseText(s, s[a..b]);
    }
  }

  /** What TryParseInteger reads is the trimmed text, and it reads it as that text's value. */
  lemma TryParseText(s: string, t: string)
    requires TrimEndNumberWhite(TrimStartNumberWhite(s)) == t
    ensures TryParseInteger(s).Some? <==> IsIntegerText(t)
    ensures IsIntegerText(t) ==> TryParseInteger(s) == Some(IntegerTextValue(t))
  {
    if |t| > 0 && (t[0] == '+' || t[0] == '-') {
      assert !AllDigits(t);
    }
  }

  /** Around an integer text, the trims remove exactly the white space on either side. */
  lemma TrimmedNumber(s: string, a: int, b: int)
    requires NumberAt(s, a, b)
    ensures TrimEndNumberWhite(TrimStartNumberWhite(s)) == s[a..b]
  {
    var t := s[a..b];
    assert t[0] == s[a] && t[b - a - 1] == s[b - 1];
    TrimStartOf(s, a);
    TrimEndOf(s[a..], b - a);
    assert s[a..][..b - a] == t && s[a..][b - a..] == s[b..];
  }

  /** A string that parses is white space, an integer text, and white space. */
  lemma TryParseFound(s: string)
    requires TryParseInt32(s).Some?
    ensures exists i, j :: NumberAt(s, i, j) && TryParseInt32(s).value == IntegerTextValue(s[i..j])
  {
    var i := TrimStartSplit(s);
    var u := s[i..];
    var j := TrimEndSplit(u);
    assert s[i..i + j] == u[..j] && s[i + j..] == u[j..];
    TryParseText(s, s[i..i + j]);
    assert NumberAt(s, i, i + j);
  }

  /** TrimStart removes exactly the leading white space. */
  lemma {:induction false} TrimStartSplit(s: string) returns (i: nat)
    ensures i <= |s| && TrimStartNumberWhite(s) == s[i..] && AllNumberWhite(s[..i])
    ensures i < |s| ==> !IsNumberWhite(s[i])
  {
    if |s| > 0 && IsNumberWhite(s[0]) {
      var k := TrimStartSplit(s[1..]);
      i := k + 1;
      assert s[1..][k..] == s[i..];
      assert forall m :: 0 <= m < k ==> s[1..][..k][m] == s[m + 1];
    } else {
      i := 0;
    }
  }

  /** TrimEnd removes exactly the trailing white space. */
  lemma {:induction false} TrimEndSplit(u: string) returns (j: nat)
    ensures j <= |u| && TrimEndNumberWhite(u) == u[..j] && AllNumberWhite(u[j..])
    ensures j > 0 ==> !IsNumberWhite(u[j - 1])
    decreases |u|
  {
    if |u| > 0 && IsNumberWhite(u[|u| - 1]) {
      var p := u[..|u| - 1];
      j := TrimEndSplit(p);
      assert p[..j] == u[..j];
      assert forall m :: j <= m < |u| - 1 ==> u[m] == p[m];
    } else {
      j := |u|;
    }
  }

  lemma {:induction false} TrimStartOf(s: string, i: nat)
    requires i < |s| && AllNumberWhite(s[..i]) && !IsNumberWhite(s[i])
    ensures TrimStartNumberWhite(s) == s[i..]
    decreases i
  {
    if i > 0 {
      assert IsNumberWhite(s[..i][0]);
      assert s[1..][i - 1] == s[i] && s[1..][i - 1..] == s[i..];
      var w, t := s[..i], s[1..][..i - 1];
      forall m | 0 <= m < |t| ensures IsNumberWhite(t[m]) { assert t[m] == w[m + 1]; }
      TrimStartOf(s[1..], i - 1);
    }
  }

  lemma {:induction false} TrimEndOf(u: string, j: nat)
    requires 0 < j <= |u| && AllNumberWhite(u[j..]) && !IsNumberWhite(u[j - 1])
    ensures TrimEndNumberWhite(u) == u[..j]
    decreases |u| - j
  {
    if j < |u| {
      var p := u[..|u| - 1];
      assert IsNumberWhite(u[j..][|u| - 1 - j]);
      assert p[j - 1] == u[j - 1] && p[..j] == u[..j];
      assert forall m :: 0 <= m < |p| - j ==> p[j..][m] == u[j..][m];
      TrimEndOf(p, j);
    } else {
      assert u[..j] == u;
    }
  }

  /** A run of digits, with no sign and no white space, parses to what it denotes. */
  lemma TryParseDigits(s: string)
    requires |s| > 0 && AllDigits(s)
    ensures TryParseInteger(s) == Some(DigitsValue(s))
  {
    assert TrimStartNumberWhite(s) == s;
    assert TrimEndNumberWhite(s) == s;
  }

  // ----- int.ToString -----

  /** The decimal digits of n, without leading zeros. */
  function NatToString(n: nat): (s: string)
    ensures |s| > 0 && AllDigits(s)
    ensures s[0] == '0' ==> n == 0
  {
    if n < 10 then [DigitChar(n)] else NatToString(n / 10) + [DigitChar(n % 10)]
  }

  /** int.ToString() under a culture whose negative sign is "-". */
  function IntToString(i: int): string {
    if i < 0 then "-" + NatToString(-i) else NatToString(i)
  }

  lemma {:induction false} NatToStringValue(n: nat)
    ensures DigitsValue(NatToString(n)) == n
  {
    if n >= 10 {
      NatToStringValue(n / 10);
      DigitsValueSnoc(NatToString(n / 10), DigitChar(n % 10));
    }
  }

  /** int.TryParse reads back what int.ToString writes. */
  lemma IntToStringRoundTrip(i: int)
    ensures TryParseInteger(IntToString(i)) == Some(i)
  {
    var digits := NatToString(if i < 0 then -i else i);
    NatToStringValue(if i < 0 then -i else i);
    if i < 0 {
      var t := "-" + digits;
      assert TrimStartNumberWhite(t) == t;
      assert TrimEndNumberWhite(t) == t;
      assert t[1..] == digits;
    } else {
      TryParseDigits(digits);
    }
  }

  /** Distinct numbers have distinct decimal strings. */
  lemma NatToStringInjective(m: nat, n: nat)
    requires NatToString(m) == NatToString(n)
    ensures m == n
  {
    NatToStringValue(m);
    NatToStringValue(n);
  }

  // ----- ordinal order -----

  /**
   * Ordinal order of strings, code point by code point, a proper prefix first. For the ASCII
   * values the index stores it is the byte order Lucene's TermRangeQuery compares terms in.
   */
  predicate OrdinalLe(a: string, b: string)
    decreases |a|
  {
    if |a| == 0 then true
    else if |b| == 0 then false
    else if a[0] != b[0] then a[0] < b[0]
    else OrdinalLe(a[1..], b[1..])
  }

  /** Comparing two fixed-width fields followed by the rest: the first field decides unless equal. */
  lemma {:induction false} OrdinalLeConcat(x1: string, x2: string, y1: string, y2: string)
    requires |x1| == |y1|
    ensures OrdinalLe(x1 + x2, y1 + y2) <==> (x1 != y1 && OrdinalLe(x1, y1)) || (x1 == y1 && OrdinalLe(x2, y2))
    decreases |x1|
  {
    if |x1| > 0 {
      assert (x1 + x2)[0] == x1[0] && (y1 + y2)[0] == y1[0];
      assert (x1 + x2)[1..] == x1[1..] + x2;
      assert (y1 + y2)[1..] == y1[1..] + y2;
      OrdinalLeConcat(x1[1..], x2, y1[1..], y2);
      if x1[0] == y1[0] {
        assert x1 == y1 <==> x1[1..] == y1[1..] by {
          if x1[1..] == y1[1..] { assert x1 == [x1[0]] + x1[1..]; assert y1 == [y1[0]] + y1[1..]; }
        }
      }
    } else {
      assert x1 + x2 == x2 && y1 + y2 == y2;
    }
  }

  /** A string is ordinally at most another of the same length that is pointwise no smaller. */
  lemma {:induction false} OrdinalLePointwise(a: string, b: string)
    requires |a| == |b|
    requires forall i :: 0 <= i < |a| ==> a[i] <= b[i]
    ensures OrdinalLe(a, b)
    decreases |a|
  {
    if |a| > 0 && a[0] == b[0] {
      OrdinalLePointwise(a[1..], b[1..]);
    }
  }
}
