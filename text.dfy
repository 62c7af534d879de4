/** The handful of Python string operations the parsers rely on:
    str.strip, str.split with a one-character separator, str.join,
    str.lower, str.startswith, str.replace(pattern, ''), float() and int(). */
module Text {
  import opened Wrappers

  /** The characters Python's str.isspace accepts, which str.strip() removes. */
  predicate IsSpace(c: char) {
    || c == ' ' || '\t' <= c <= '\r' || '\U{1C}' <= c <= '\U{1F}' || c == '\U{85}' || c == '\U{A0}'
    || c == '\U{1680}' || '\U{2000}' <= c <= '\U{200A}' || c == '\U{2028}' || c == '\U{2029}'
    || c == '\U{202F}' || c == '\U{205F}' || c == '\U{3000}'
  }

  predicate AllSpace(s: string) {
    forall i :: 0 <= i < |s| ==> IsSpace(s[i])
  }

  /** str.lstrip(): drop the leading whitespace. */
  function StripLeft(s: string): (r: string)
    ensures |r| <= |s| && r == s[|s| - |r|..]
    ensures AllSpace(s[..|s| - |r|])
    ensures r == [] || !IsSpace(r[0])
  {
    if |s| > 0 && IsSpace(s[0]) then
      var r := StripLeft(s[1..]);
      assert s[..|s| - |r|] == [s[0]] + s[1..][..|s| - 1 - |r|];
      r
    else s
  }

  /** str.rstrip(): drop the trailing whitespace. */
  function StripRight(s: string): (r: string)
    ensures |r| <= |s| && r == s[..|r|]
    ensures AllSpace(s[|r|..])
    ensures r == [] || !IsSpace(r[|r| - 1])
  {
    if |s| > 0 && IsSpace(s[|s| - 1]) then
      var r := StripRight(s[..|s| - 1]);
      assert s[|r|..] == s[..|s| - 1][|r|..] + [s[|s| - 1]];
      r
    else s
  }

  /** str.strip(): drop the leading and the trailing whitespace. */
  function Strip(s: string): (r: string)
    ensures |r| <= |s|
    ensures r == [] || (!IsSpace(r[0]) && !IsSpace(r[|r| - 1]))
  {
    StripRight(StripLeft(s))
  }

  /** What strip removes is whitespace, on both sides of what it keeps. */
  lemma StripDecomposes(s: string)
    ensures var r := Strip(s);
      exists i :: 0 <= i <= |s| - |r| && r == s[i..i + |r|] && AllSpace(s[..i]) && AllSpace(s[i + |r|..])
  {
    var l := StripLeft(s);
    var r := StripRight(l);
    var i := |s| - |l|;
    SuffixSlices(s, i, |r|);
    assert l == s[i..];
    assert r == s[i..i + |r|];
    assert s[i + |r|..] == l[|r|..];
    assert AllSpace(s[..i]) && AllSpace(s[i + |r|..]);
    assert Strip(s) == r;
  }

  lemma SuffixSlices(s: string, i: nat, m: nat)
    requires i + m <= |s|
    ensures s[i..i + m] == s[i..][..m] && s[i + m..] == s[i..][m..]
  {
  }

  /** A string without surrounding whitespace is its own strip. */
  lemma StripNoSpace(s: string)
    requires s == [] || (!IsSpace(s[0]) && !IsSpace(s[|s| - 1]))
    ensures Strip(s) == s
  {
  }

  /** str.join with a one-character separator. */
  function Join(parts: seq<string>, sep: char): string {
    if |parts| == 0 then ""
    else if |parts| == 1 then parts[0]
    else parts[0] + [sep] + Join(parts[1..], sep)
  }

  lemma JoinKeepsFirst(parts: seq<string>, sep: char)
    requires |parts| >= 1
    ensures |Join(parts, sep)| >= |parts[0]|
  {
  }

  /** A character other than the separator that no part contains is not in the join. */
  lemma {:induction false} JoinAvoids(parts: seq<string>, sep: char, c: char)
    requires c != sep && forall p <- parts :: c !in p
    ensures c !in Join(parts, sep)
  {
    if |parts| > 1 {
      JoinAvoids(parts[1..], sep, c);
    }
  }

  /** str.split(sep) for a one-character separator: the pieces between the
      separators, so there is always at least one piece, none contains the
      separator, and joining them back with the separator gives s again. */
  function Split(s: string, sep: char): (parts: seq<string>)
    ensures |parts| >= 1
    ensures forall p <- parts :: sep !in p
    ensures Join(parts, sep) == s
    decreases |s|
  {
    if |s| == 0 then [""]
    else
      var rest := Split(s[1..], sep);
      if s[0] == sep then
        assert s == [sep] + s[1..];
        [""] + rest
      else
        var parts := [[s[0]] + rest[0]] + rest[1..];
        assert parts[1..] == rest[1..];
        assert s == [s[0]] + s[1..];
        parts
  }

  /** [item.strip() for item in s.split(sep)] */
  function StrippedItems(s: string, sep: char): (items: seq<string>)
    ensures |items| == |Split(s, sep)|
    ensures forall i :: 0 <= i < |items| ==> items[i] == Strip(Split(s, sep)[i])
  {
    seq(|Split(s, sep)|, i requires 0 <= i < |Split(s, sep)| => Strip(Split(s, sep)[i]))
  }

  /** The inverse round trip: splitting a join of separator-free pieces gives the pieces back. */
  lemma {:induction false} SplitJoin(parts: seq<string>, sep: char)
    requires |parts| >= 1
    requires forall p <- parts :: sep !in p
    ensures Split(Join(parts, sep), sep) == parts
    decreases |Join(parts, sep)|, |parts|
  {
    if |parts| == 1 {
      SplitNoSeparator(parts[0], sep);
    } else {
      var rest := parts[1..];
      SplitJoin(rest, sep);
      SplitPrefix(parts[0], Join(rest, sep), sep);
    }
  }

  lemma {:induction false} SplitNoSeparator(s: string, sep: char)
    requires sep !in s
    ensures Split(s, sep) == [s]
    decreases |s|
  {
    if |s| > 0 {
      SplitNoSeparator(s[1..], sep);
      assert s == [s[0]] + s[1..];
    }
  }

  lemma {:induction false} SplitPrefix(w: string, rest: string, sep: char)
    requires sep !in w
    ensures Split(w + [sep] + rest, sep) == [w] + Split(rest, sep)
    decreases |w|
  {
    var s := w + [sep] + rest;
    if |w| == 0 {
      assert s[1..] == rest;
    } else {
      assert s[1..] == w[1..] + [sep] + rest;
      SplitPrefix(w[1..], rest, sep);
      assert [w[0]] + w[1..] == w;
    }
  }

  /** Python's str.lower() restricted to ASCII letters. */
  function LowerChar(c: char): char {
    if 'A' <= c <= 'Z' then (c as int + 32) as char else c
  }

  function Lower(s: string): (r: string)
    ensures |r| == |s| && forall i :: 0 <= i < |s| ==> r[i] == LowerChar(s[i])
  {
    seq(|s|, i requires 0 <= i < |s| => LowerChar(s[i]))
  }

  lemma LowerIdempotent(s: string)
    ensures Lower(Lower(s)) == Lower(s)
  {
    forall i | 0 <= i < |s|
      ensures Lower(Lower(s))[i] == Lower(s)[i]
    {
      assert LowerChar(LowerChar(s[i])) == LowerChar(s[i]);
    }
  }

  predicate StartsWith(s: string, prefix: string) {
    |prefix| <= |s| && s[..|prefix|] == prefix
  }

  /** An occurrence of the pattern starts at index i of s. */
  predicate OccursAt(s: string, pattern: string, i: int) {
    0 <= i && i + |pattern| <= |s| && s[i..i + |pattern|] == pattern
  }

  /** No occurrence of the pattern starts anywhere in s. */
  predicate Avoids(s: string, pattern: string) {
    forall i :: 0 <= i <= |s| ==> !OccursAt(s, pattern, i)
  }

  /** str.replace(pattern, ''): delete every occurrence of the pattern, scanning
      left to right without re-scanning what is left behind. Text without the
      pattern comes back unchanged. */
  function RemoveAll(s: string, pattern: string): (r: string)
    requires |pattern| > 0
    ensures |r| <= |s|
    ensures Avoids(s, pattern) ==> r == s
    decreases |s|
  {
    if |s| < |pattern| then s
    else if s[..|pattern|] == pattern then
      assert !Avoids(s, pattern) by {
        assert s[0..0 + |pattern|] == pattern;
        assert OccursAt(s, pattern, 0);
      }
      RemoveAll(s[|pattern|..], pattern)
    else
      var rest := RemoveAll(s[1..], pattern);
      assert Avoids(s, pattern) ==> Avoids(s[1..], pattern) by {
        if Avoids(s, pattern) {
          forall i | 0 <= i <= |s[1..]|
            ensures !OccursAt(s[1..], pattern, i)
          {
            if 0 <= i && i + |pattern| <= |s[1..]| {
              assert s[1..][i..i + |pattern|] == s[i + 1..i + 1 + |pattern|];
              assert !OccursAt(s, pattern, i + 1);
            }
          }
        }
      }
      assert Avoids(s, pattern) ==> [s[0]] + s[1..] == s;
      [s[0]] + rest
  }

  /** Removing a leading pattern from text that otherwise avoids it gives the
      rest: "file://" followed by a path without "file://" gives the path. */
  lemma RemoveLeading(pattern: string, rest: string)
    requires |pattern| > 0 && Avoids(rest, pattern)
    ensures RemoveAll(pattern + rest, pattern) == rest
  {
    assert (pattern + rest)[..|pattern|] == pattern;
    assert (pattern + rest)[|pattern|..] == rest;
  }

  // ---------------------------------------------------------------------------
  // Numbers written as text

  predicate IsDigit(c: char) { '0' <= c <= '9' }

  predicate AllDigits(s: string) { forall i :: 0 <= i < |s| ==> IsDigit(s[i]) }

  function DigitsValue(s: string): nat
    requires AllDigits(s)
  {
    if |s| == 0 then 0 else 10 * DigitsValue(s[..|s| - 1]) + (s[|s| - 1] as int - '0' as int)
  }

  function Pow10(e: nat): (r: nat)
    ensures r >= 1
  {
    if e == 0 then 1 else 10 * Pow10(e - 1)
  }

  /** An optional leading '+' or '-': whether it was '-', and the rest. */
  function Sign(s: string): (bool, string) {
    if |s| > 0 && (s[0] == '+' || s[0] == '-') then (s[0] == '-', s[1..]) else (false, s)
  }

  /** digits, digits '.', '.' digits or digits '.' digits: at least one digit. */
  function ParseMantissa(s: string): Option<real> {
    var pieces := Split(s, '.');
    if |pieces| > 2 then None
    else
      var whole := pieces[0];
      var fraction := if |pieces| == 2 then pieces[1] else "";
      if !AllDigits(whole) || !AllDigits(fraction) || |whole| + |fraction| == 0 then None
      else Some(DecimalValue(whole, fraction))
  }

  /** The value of the digits `whole` '.' `fraction`. */
  function DecimalValue(whole: string, fraction: string): real
    requires AllDigits(whole) && AllDigits(fraction)
  {
    DigitsValue(whole) as real + DigitsValue(fraction) as real / Pow10(|fraction|) as real
  }

  function ParseExponent(s: string): Option<int> {
    var (negative, digits) := Sign(s);
    if |digits| == 0 || !AllDigits(digits) then None
    else
      var magnitude: int := DigitsValue(digits);
      Some(if negative then -magnitude else magnitude)
  }

  function Scale10(x: real, e: int): real {
    if e >= 0 then x * Pow10(e) as real else x / Pow10(-e) as real
  }

  /** A mantissa with an optional exponent ('e' or 'E', an optional sign, digits). */
  function ParseUnsignedReal(body: string): Option<real> {
    var pieces := Split(Lower(body), 'e');
    if |pieces| > 2 then None
    else
      var mantissa :- ParseMantissa(pieces[0]);
      var exponent :- if |pieces| == 2 then ParseExponent(pieces[1]) else Some(0);
      Some(Scale10(mantissa, exponent))
  }

  /** Python's float() on decimal text: surrounding whitespace, an optional sign,
      a mantissa with an optional decimal point, an optional exponent. */
  function ParseReal(s: string): Option<real> {
    var signed := Sign(Strip(s));
    var magnitude :- ParseUnsignedReal(signed.1);
    Some(if signed.0 then -magnitude else magnitude)
  }

  /** Python's int() on decimal text: surrounding whitespace, an optional sign, digits. */
  function ParseInt(s: string): Option<int> {
    var (negative, digits) := Sign(Strip(s));
    if |digits| == 0 || !AllDigits(digits) then None
    else
      var magnitude: int := DigitsValue(digits);
      Some(if negative then -magnitude else magnitude)
  }

  /** The decimal text of a natural number, as str(n) writes it. */
  function DecimalText(n: nat): (s: string)
    ensures |s| >= 1 && AllDigits(s)
  {
    var d := ['0' + (n % 10) as char];
    if n < 10 then d else DecimalText(n / 10) + d
  }

  lemma {:induction false} DecimalTextValue(n: nat)
    ensures DigitsValue(DecimalText(n)) == n
  {
    var s := DecimalText(n);
    if n >= 10 {
      DecimalTextValue(n / 10);
      assert s[..|s| - 1] == DecimalText(n / 10);
    }
  }

  lemma DigitsHaveNoSpace(s: string)
    requires |s| >= 1 && AllDigits(s)
    ensures Strip(s) == s
  {
    assert IsDigit(s[0]) && IsDigit(s[|s| - 1]);
    StripNoSpace(s);
  }

  lemma DigitsHaveNo(s: string, c: char)
    requires AllDigits(s) && !IsDigit(c)
    ensures c !in s
  {
  }

  lemma SignOfDigits(s: string)
    requires |s| >= 1 && AllDigits(s)
    ensures Sign(Strip(s)) == (false, s)
  {
    DigitsHaveNoSpace(s);
    SignOfDigitsUnstripped(s);
  }

  lemma SignOfDigitsUnstripped(s: string)
    requires |s| >= 1 && AllDigits(s)
    ensures Sign(s) == (false, s)
  {
    assert IsDigit(s[0]);
  }

  lemma ParseIntDigits(s: string)
    requires |s| >= 1 && AllDigits(s)
    ensures ParseInt(s) == Some(DigitsValue(s) as int)
  {
    SignOfDigits(s);
  }

  lemma LowerDigits(s: string)
    requires AllDigits(s)
    ensures Lower(s) == s
  {
  }

  lemma MantissaOfDigits(s: string)
    requires |s| >= 1 && AllDigits(s)
    ensures ParseMantissa(s) == Some(DigitsValue(s) as real)
  {
    DigitsHaveNo(s, '.');
    SplitNoSeparator(s, '.');
    assert Split(s, '.')[0] == s;
    WholeValue(s);
  }

  lemma WholeValue(s: string)
    requires AllDigits(s)
    ensures DecimalValue(s, "") == DigitsValue(s) as real
  {
    assert DigitsValue("") == 0 && Pow10(0) == 1;
  }

  lemma UnsignedRealOfDigits(s: string)
    requires |s| >= 1 && AllDigits(s)
    ensures ParseUnsignedReal(s) == Some(DigitsValue(s) as real)
  {
    LowerDigits(s);
    DigitsHaveNo(s, 'e');
    SplitNoSeparator(s, 'e');
    var pieces := Split(Lower(s), 'e');
    assert pieces == [s];
    MantissaOfDigits(pieces[0]);
    Scale10Zero(DigitsValue(s) as real);
  }

  lemma Scale10Zero(x: real)
    ensures Scale10(x, 0) == x
  {
    assert Pow10(0) == 1;
  }

  lemma ParseRealDigits(s: string)
    requires |s| >= 1 && AllDigits(s)
    ensures ParseReal(s) == Some(DigitsValue(s) as real)
  {
    SignOfDigits(s);
    UnsignedRealOfDigits(s);
  }

  /** int() reads back what str() writes. */
  lemma ParseIntDecimal(n: nat)
    ensures ParseInt(DecimalText(n)) == Some(n)
  {
    ParseIntDigits(DecimalText(n));
    DecimalTextValue(n);
  }

  /** float() reads the decimal text of a natural number as that number. */
  lemma ParseRealDecimal(n: nat)
    ensures ParseReal(DecimalText(n)) == Some(n as real)
  {
    ParseRealDigits(DecimalText(n));
    DecimalTextValue(n);
  }
}
