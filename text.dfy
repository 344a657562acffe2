/**
 * The Kotlin string operations the screens rely on: case-insensitive
 * `contains`, `isBlank`, `String.compareTo`, `String.toIntOrNull` and
 * `Int.toString`.
 */
module Text {
  import opened Base

  // ---------------------------------------------------------------------
  // contains(query, ignoreCase = true)
  // ---------------------------------------------------------------------

  /** Lower-case folding, restricted to the ASCII letters. */
  function LowerAscii(c: char): char {
    if 'A' <= c <= 'Z' then (c as int + 32) as char else c
  }

  /** `Char.equals(other, ignoreCase = true)` over the ASCII fold. */
  predicate SameIgnoringCase(a: char, b: char) {
    a == b || LowerAscii(a) == LowerAscii(b)
  }

  /** `text` begins with `prefix`, ignoring case. */
  predicate StartsWithIgnoringCase(text: string, prefix: string) {
    |prefix| <= |text| &&
    forall i :: 0 <= i < |prefix| ==> SameIgnoringCase(text[i], prefix[i])
  }

  /** `text.contains(query, ignoreCase = true)`: some suffix of `text` starts with `query`. */
  predicate ContainsIgnoringCase(text: string, query: string)
    decreases |text|
  {
    StartsWithIgnoringCase(text, query) ||
    (|text| > 0 && ContainsIgnoringCase(text[1..], query))
  }

  /** The recursive search agrees with the positional definition of a match. */
  lemma {:induction false} ContainsIgnoringCaseAt(text: string, query: string)
    ensures ContainsIgnoringCase(text, query) <==>
            exists i :: 0 <= i <= |text| && StartsWithIgnoringCase(text[i..], query)
    decreases |text|
  {
    if ContainsIgnoringCase(text, query) {
      if StartsWithIgnoringCase(text, query) {
        assert text[0..] == text;
      } else {
        ContainsIgnoringCaseAt(text[1..], query);
        var j :| 0 <= j <= |text[1..]| && StartsWithIgnoringCase(text[1..][j..], query);
        assert text[1..][j..] == text[j + 1..];
      }
    }
    if exists i :: 0 <= i <= |text| && StartsWithIgnoringCase(text[i..], query) {
      var i :| 0 <= i <= |text| && StartsWithIgnoringCase(text[i..], query);
      if i == 0 {
        assert text[0..] == text;
      } else {
        assert text[1..][i - 1..] == text[i..];
        ContainsIgnoringCaseAt(text[1..], query);
      }
    }
  }

  /** Every text contains the empty query, and every text contains itself. */
  lemma ContainsIgnoringCaseTrivial(text: string)
    ensures ContainsIgnoringCase(text, "")
    ensures ContainsIgnoringCase(text, text)
  {
  }

  // ---------------------------------------------------------------------
  // isBlank
  // ---------------------------------------------------------------------

  /**
   * Kotlin's `Char.isWhitespace()` on the JVM: Java's `isWhitespace` or
   * `isSpaceChar`, written out as the code points they accept.
   */
  predicate IsWhitespace(c: char) {
    ('\t' <= c <= '\r') || ('\U{1C}' <= c <= ' ') || c == '\U{A0}' || c == '\U{1680}' ||
    ('\U{2000}' <= c <= '\U{200A}') || c == '\U{2028}' || c == '\U{2029}' ||
    c == '\U{202F}' || c == '\U{205F}' || c == '\U{3000}'
  }

  /** `String.isBlank()`: empty, or whitespace only. */
  predicate IsBlank(s: string) {
    forall i :: 0 <= i < |s| ==> IsWhitespace(s[i])
  }

  // ---------------------------------------------------------------------
  // String.compareTo: lexicographic, a proper prefix first
  // ---------------------------------------------------------------------

  /** `a.compareTo(b) <= 0`. */
  predicate StrLe(a: string, b: string)
    decreases |a|
  {
    if a == [] then true
    else if b == [] then false
    else if a[0] != b[0] then a[0] < b[0]
    else StrLe(a[1..], b[1..])
  }

  lemma {:induction false} StrLeTotal(a: string, b: string)
    ensures StrLe(a, b) || StrLe(b, a)
    decreases |a|
  {
    if a != [] && b != [] && a[0] == b[0] {
      StrLeTotal(a[1..], b[1..]);
    }
  }

  lemma {:induction false} StrLeTransitive(a: string, b: string, c: string)
    requires StrLe(a, b) && StrLe(b, c)
    ensures StrLe(a, c)
    decreases |a|
  {
    if a != [] && b != [] && c != [] && a[0] == b[0] && b[0] == c[0] {
      StrLeTransitive(a[1..], b[1..], c[1..]);
    }
  }

  lemma {:induction false} StrLeAntisymmetric(a: string, b: string)
    requires StrLe(a, b) && StrLe(b, a)
    ensures a == b
    decreases |a|
  {
    if a != [] {
      StrLeAntisymmetric(a[1..], b[1..]);
      assert a == [a[0]] + a[1..] && b == [b[0]] + b[1..];
    }
  }

  // ---------------------------------------------------------------------
  // String.toIntOrNull() and Int.toString()
  // ---------------------------------------------------------------------

  predicate IsDigit(c: char) {
    '0' <= c <= '9'
  }

  predicate AllDigits(s: string) {
    forall i :: 0 <= i < |s| ==> IsDigit(s[i])
  }

  function DigitValue(c: char): nat
    requires IsDigit(c)
  {
    c as int - '0' as int
  }

  function DigitChar(d: nat): char
    requires d < 10
  {
    ('0' as int + d) as char
  }

  /** The decimal value of a string of digits, most significant first. */
  function DigitsValue(s: string): nat
    requires AllDigits(s)
    decreases |s|
  {
    if s == [] then 0 else 10 * DigitsValue(s[..|s| - 1]) + DigitValue(s[|s| - 1])
  }

  /**
   * `String.toIntOrNull()`: an optional sign ('-' or '+') and at least one
   * digit; null for anything else and for a value outside the `Int` range.
   */
  function ParseInt(s: string): (r: Option<Int32>)
    ensures r.Some? ==> s != [] && !IsBlank(s)
  {
    if s == [] then None
    else
      var signed := s[0] < '0';
      if signed && (|s| == 1 || (s[0] != '-' && s[0] != '+')) then None
      else
        var digits := if signed then s[1..] else s;
        if !AllDigits(digits) then None
        else
          var magnitude: int := DigitsValue(digits);
          var v: int := if s[0] == '-' then -magnitude else magnitude;
          if MinInt <= v <= MaxInt then Some(v) else None
  }

  /** `Int.toString()` of a non-negative value: its digits, without leading zeros. */
  function NatToString(n: nat): string
    decreases n
  {
    if n < 10 then [DigitChar(n)] else NatToString(n / 10) + [DigitChar(n % 10)]
  }

  /** `Int.toString()`. */
  function IntToString(n: int): string {
    if n < 0 then "-" + NatToString(-n) else NatToString(n)
  }

  lemma {:induction false} NatToStringDigits(n: nat)
    ensures NatToString(n) != [] && AllDigits(NatToString(n))
    ensures DigitsValue(NatToString(n)) == n
    decreases n
  {
    if n >= 10 {
      NatToStringDigits(n / 10);
      var s := NatToString(n);
      assert s[..|s| - 1] == NatToString(n / 10);
    }
  }

  /** Parsing the text of an `Int` gives the `Int` back. */
  lemma ParseIntToString(n: Int32)
    ensures ParseInt(IntToString(n)) == Some(n)
  {
    var s := IntToString(n);
    if n < 0 {
      NatToStringDigits(-(n as int));
      assert s[1..] == NatToString(-(n as int));
    } else {
      NatToStringDigits(n);
    }
  }
}
