/** The Kotlin string operations the core relies on: `trim()`, `equals(…, ignoreCase = true)`,
    `toIntOrNull()`, `Int.toString()`, `split(" ").first()`, `filter { it.isDigit() }`,
    `replace` and `uppercase()`. Strings are sequences of Unicode scalar values; Kotlin's are
    UTF-16 code units. The two differ in `length` and `compareTo` only on characters outside the
    Basic Multilingual Plane, which the core never compares. */
module Text {
  import opened Wrappers

  /** The range of Kotlin's 32-bit `Int`. */
  const IntMin: int := -0x8000_0000
  const IntMax: int := 0x7fff_ffff

  /** Kotlin's `Long.toInt()`: the low 32 bits, read as a two's-complement `Int`. */
  function ToInt32(v: int): (r: int)
    ensures IntMin <= r <= IntMax
    ensures (v - r) % 0x1_0000_0000 == 0
    ensures IntMin <= v <= IntMax ==> r == v
  {
    (v - IntMin) % 0x1_0000_0000 + IntMin
  }

  predicate IsDigit(c: char) { '0' <= c <= '9' }

  predicate AllDigits(s: string) { forall i :: 0 <= i < |s| ==> IsDigit(s[i]) }

  /** Kotlin's `Char.isWhitespace()`: Java's whitespace controls (tab, line feed, vertical tab,
      form feed, carriage return, the four information separators) plus every Unicode space,
      line and paragraph separator (categories Zs, Zl, Zp). */
  predicate IsWhitespace(c: char) {
    || c == '\t' || c == '\n' || c == '\U{B}' || c == '\U{C}' || c == '\r'
    || ('\U{1C}' <= c <= '\U{1F}')
    || c == ' ' || c == '\U{A0}' || c == '\U{1680}' || ('\U{2000}' <= c <= '\U{200A}')
    || c == '\U{2028}' || c == '\U{2029}' || c == '\U{202F}' || c == '\U{205F}' || c == '\U{3000}'
  }

  /** Drops leading whitespace: the result is the longest suffix that does not start with whitespace. */
  function TrimStart(s: string): (r: string)
    ensures |r| <= |s| && r == s[|s| - |r|..]
    ensures forall i :: 0 <= i < |s| - |r| ==> IsWhitespace(s[i])
    ensures r != [] ==> !IsWhitespace(r[0])
  {
    if s != [] && IsWhitespace(s[0]) then TrimStart(s[1..]) else s
  }

  /** Drops trailing whitespace: the result is the longest prefix that does not end with whitespace. */
  function TrimEnd(s: string): (r: string)
    ensures |r| <= |s| && r == s[..|r|]
    ensures forall i :: |r| <= i < |s| ==> IsWhitespace(s[i])
    ensures r != [] ==> !IsWhitespace(r[|r| - 1])
  {
    if s != [] && IsWhitespace(s[|s| - 1]) then TrimEnd(s[..|s| - 1]) else s
  }

  /** Kotlin's `String.trim()`: the slice of `s` left once whitespace is removed from both ends. */
  function Trim(s: string): (r: string)
    ensures var start := |s| - |TrimStart(s)|;
            && start + |r| <= |s| && r == s[start..start + |r|]
            && (forall i :: 0 <= i < start ==> IsWhitespace(s[i]))
            && (forall i :: start + |r| <= i < |s| ==> IsWhitespace(s[i]))
    ensures r != [] ==> !IsWhitespace(r[0]) && !IsWhitespace(r[|r| - 1])
  {
    var t := TrimStart(s);
    var r := TrimEnd(t);
    assert r == s[|s| - |t|..|s| - |t| + |r|];
    r
  }

  predicate AllWhitespace(s: string) { forall i :: 0 <= i < |s| ==> IsWhitespace(s[i]) }

  lemma {:induction false} TrimStartPadded(pre: string, u: string)
    requires AllWhitespace(pre) && (u == [] || !IsWhitespace(u[0]))
    ensures TrimStart(pre + u) == u
  {
    if pre != [] {
      assert (pre + u)[1..] == pre[1..] + u;
      TrimStartPadded(pre[1..], u);
    }
  }

  lemma {:induction false} TrimEndPadded(u: string, post: string)
    requires AllWhitespace(post) && (u == [] || !IsWhitespace(u[|u| - 1]))
    ensures TrimEnd(u + post) == u
  {
    if post != [] {
      assert (u + post)[..|u + post| - 1] == u + post[..|post| - 1];
      TrimEndPadded(u, post[..|post| - 1]);
    }
  }

  /** Surrounding whitespace is exactly what `trim()` removes: padding a text that neither starts
      nor ends with whitespace on both sides and trimming gives the text back. */
  lemma TrimPadded(pre: string, t: string, post: string)
    requires AllWhitespace(pre) && AllWhitespace(post)
    requires t != [] && !IsWhitespace(t[0]) && !IsWhitespace(t[|t| - 1])
    ensures Trim(pre + t + post) == t
  {
    assert pre + t + post == pre + (t + post);
    TrimStartPadded(pre, t + post);
    TrimEndPadded(t, post);
  }

  function AsciiLower(c: char): char {
    if 'A' <= c <= 'Z' then (c as int + 32) as char else c
  }

  function AsciiUpper(c: char): char {
    if 'a' <= c <= 'z' then (c as int - 32) as char else c
  }

  predicate IsAsciiLetter(c: char) { 'a' <= c <= 'z' || 'A' <= c <= 'Z' }

  /** Java's case-insensitive comparison of a character with an ASCII letter `t`: the letter in
      either case, and the non-ASCII characters whose upper case or whose upper case's lower
      case is that letter (U+0130 and U+0131 for i, the Kelvin sign for k, the long s for s). */
  predicate MatchesLetterIgnoreCase(c: char, t: char)
    requires IsAsciiLetter(t)
  {
    var l := AsciiLower(t);
    || c == l || c == AsciiUpper(l)
    || (l == 'i' && (c == '\U{130}' || c == '\U{131}'))
    || (l == 'k' && c == '\U{212A}')
    || (l == 's' && c == '\U{17F}')
  }

  /** Kotlin's `s.equals(word, ignoreCase = true)` for a word made of ASCII letters. */
  predicate EqualsIgnoreCase(s: string, word: string)
    requires forall i :: 0 <= i < |word| ==> IsAsciiLetter(word[i])
  {
    |s| == |word| && forall i :: 0 <= i < |s| ==> MatchesLetterIgnoreCase(s[i], word[i])
  }

  function DigitValue(c: char): (d: nat)
    requires IsDigit(c)
    ensures d < 10
  {
    (c as int) - ('0' as int)
  }

  function DigitChar(d: nat): (c: char)
    requires d < 10
    ensures IsDigit(c) && DigitValue(c) == d
  {
    ('0' as int + d) as char
  }

  /** The number a string of decimal digits denotes, most significant digit first. */
  function DigitsValue(s: string): nat
    requires AllDigits(s)
  {
    if s == [] then 0 else DigitsValue(s[..|s| - 1]) * 10 + DigitValue(s[|s| - 1])
  }

  /** Kotlin's `String.toIntOrNull()`: an optional '+' or '-' followed by at least one decimal
      digit, whose value fits in a 32-bit `Int`; anything else gives null. */
  function ParseInt(s: string): (r: Option<int>)
    ensures r.Some? ==> IntMin <= r.value <= IntMax
    ensures r.Some? ==> exists i :: 0 <= i < |s| && IsDigit(s[i])
  {
    if s == [] then None
    else
      var signed := s[0] == '-' || s[0] == '+';
      var digits := if signed then s[1..] else s;
      if digits == [] || !AllDigits(digits) then None
      else
        var magnitude := DigitsValue(digits);
        var v: int := if s[0] == '-' then 0 - magnitude else magnitude;
        assert IsDigit(s[|s| - 1]);
        if IntMin <= v <= IntMax then Some(v) else None
  }

  /** Decimal digits of a natural number, without leading zeros. */
  function NatToString(n: nat): (r: string)
    ensures r != [] && AllDigits(r) && DigitsValue(r) == n
    ensures r[0] == '0' ==> n == 0
  {
    if n < 10 then [DigitChar(n)]
    else
      var prefix := NatToString(n / 10);
      var r := prefix + [DigitChar(n % 10)];
      assert r[..|r| - 1] == prefix;
      r
  }

  /** Kotlin's `Int.toString()`; `ParseInt` reads back every 32-bit value it writes. */
  function IntToString(n: int): (r: string)
    ensures IntMin <= n <= IntMax ==> ParseInt(r) == Some(n)
    ensures r != [] && (IsDigit(r[0]) || r[0] == '-') && IsDigit(r[|r| - 1])
  {
    if n < 0 then
      var r := "-" + NatToString(-n);
      assert r[1..] == NatToString(-n);
      r
    else NatToString(n)
  }

  /** Distinct numbers are written differently. */
  lemma IntToStringInjective(a: int, b: int)
    requires IntToString(a) == IntToString(b)
    ensures a == b
  {
    var sa, sb := IntToString(a), IntToString(b);
    if a < 0 && b < 0 {
      assert sa[1..] == NatToString(-a) && sb[1..] == NatToString(-b);
    }
  }

  /** The digits of a string of digits read back as an `Int` (when it fits). */
  lemma {:induction false} ParseIntOfDigits(s: string)
    requires s != [] && AllDigits(s) && DigitsValue(s) <= IntMax
    ensures ParseInt(s) == Some(DigitsValue(s))
  {
    assert IsDigit(s[0]);
  }

  /** Kotlin's `s.split(" ").first()`: the text before the first space (all of `s` when it has none). */
  function FirstWord(s: string): (r: string)
    ensures |r| <= |s| && r == s[..|r|]
    ensures ' ' !in r
    ensures |r| < |s| ==> s[|r|] == ' '
  {
    if s == [] || s[0] == ' ' then [] else [s[0]] + FirstWord(s[1..])
  }

  /** The first word is everything before the first space. */
  lemma {:induction false} FirstWordAt(w: string, rest: string)
    requires ' ' !in w && rest != [] && rest[0] == ' '
    ensures FirstWord(w + rest) == w
  {
    if w != [] {
      assert (w + rest)[1..] == w[1..] + rest;
      FirstWordAt(w[1..], rest);
    }
  }

  /** Kotlin's `s.filter { it.isDigit() }`, for ASCII digits. */
  function DigitsOnly(s: string): (r: string)
    ensures AllDigits(r) && |r| <= |s|
    ensures AllDigits(s) ==> r == s
  {
    if s == [] then []
    else if IsDigit(s[0]) then [s[0]] + DigitsOnly(s[1..])
    else DigitsOnly(s[1..])
  }

  /** Kotlin's `s.replace(from, to)` for single-character strings, followed by `uppercase()` on ASCII. */
  function ReplaceAndUpper(s: string, from: char, to: char): (r: string)
    ensures |r| == |s|
    ensures forall i :: 0 <= i < |s| ==> r[i] == AsciiUpper(if s[i] == from then to else s[i])
  {
    if s == [] then [] else [AsciiUpper(if s[0] == from then to else s[0])] + ReplaceAndUpper(s[1..], from, to)
  }

  /** `w` occurs in `s` starting at index `i`. */
  predicate OccursAt(s: string, w: string, i: int) {
    0 <= i && i + |w| <= |s| && s[i..i + |w|] == w
  }

  /** Kotlin's `s.contains(w)`. */
  function Contains(s: string, w: string): (r: bool)
    ensures r <==> exists i :: OccursAt(s, w, i)
  {
    if |s| < |w| then false
    else if s[..|w|] == w then assert OccursAt(s, w, 0); true
    else
      var r := Contains(s[1..], w);
      assert forall i :: OccursAt(s[1..], w, i) <==> OccursAt(s, w, i + 1) by {
        forall i ensures OccursAt(s[1..], w, i) <==> OccursAt(s, w, i + 1) {
          if 0 <= i && i + |w| <= |s| - 1 { assert s[1..][i..i + |w|] == s[i + 1..i + 1 + |w|]; }
        }
      }
      assert !OccursAt(s, w, 0);
      assert r ==> exists i :: OccursAt(s, w, i) by {
        if r { var i :| OccursAt(s[1..], w, i); assert OccursAt(s, w, i + 1); }
      }
      assert (exists i :: OccursAt(s, w, i)) ==> r by {
        if exists i :: OccursAt(s, w, i) {
          var i :| OccursAt(s, w, i);
          assert OccursAt(s[1..], w, i - 1);
        }
      }
      r
  }

  lemma NotContainsWithoutFirst(s: string, w: string)
    requires w != [] && w[0] !in s
    ensures !Contains(s, w)
  {
  }
}
