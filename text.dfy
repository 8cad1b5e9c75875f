/**
 * The JavaScript string primitives the editor relies on: `String(n)` of an
 * integer, `padStart`, `trim`, the regular-expression classes `\s` and `\w`,
 * and `toLowerCase`. Strings are sequences of Unicode scalar values.
 */
module Text {
  import opened Lists

  /** The characters JavaScript's `trim` removes, which are also the regular-expression class `\s`. */
  predicate IsJsWhitespace(c: char) {
    || c == ' ' || c == '\t' || c == '\n' || c == '\U{B}' || c == '\U{C}' || c == '\r'
    || c == '\U{A0}' || c == '\U{1680}'
    || ('\U{2000}' <= c <= '\U{200A}')
    || c == '\U{2028}' || c == '\U{2029}' || c == '\U{202F}' || c == '\U{205F}'
    || c == '\U{3000}' || c == '\U{FEFF}'
  }

  /** The regular-expression class `\w` without the `u` flag: `[A-Za-z0-9_]`. */
  predicate IsWordChar(c: char) {
    ('a' <= c <= 'z') || ('A' <= c <= 'Z') || ('0' <= c <= '9') || c == '_'
  }

  /** `s.trim()` is falsy exactly when `s` is made of whitespace only. */
  predicate IsBlank(s: string) {
    forall i :: 0 <= i < |s| ==> IsJsWhitespace(s[i])
  }

  function Digit(n: int): (c: char)
    requires 0 <= n < 10
    ensures '0' <= c <= '9'
  {
    "0123456789"[n]
  }

  predicate IsDigit(c: char) {
    '0' <= c <= '9'
  }

  function DigitValue(c: char): (n: int)
    requires IsDigit(c)
    ensures 0 <= n < 10 && Digit(n) == c
  {
    (c as int) - ('0' as int)
  }

  /** Reading a digit back gives the number it was written from. */
  lemma DigitRoundTrip(n: int)
    requires 0 <= n < 10
    ensures DigitValue(Digit(n)) == n
  {
    assert "0123456789"[n] as int == '0' as int + n by {
      if n < 5 {
        assert n == 0 || n == 1 || n == 2 || n == 3 || n == 4;
      } else {
        assert n == 5 || n == 6 || n == 7 || n == 8 || n == 9;
      }
    }
  }

  /** Decimal notation of a natural number, most significant digit first, no leading zeros. */
  function NatToString(n: nat): string
    decreases n
  {
    if n < 10 then [Digit(n)] else NatToString(n / 10) + [Digit(n % 10)]
  }

  /** `String(n)` has only digits, as many as the number needs. */
  lemma {:induction false} NatToStringDigits(n: nat)
    ensures 1 <= |NatToString(n)|
    ensures forall i :: 0 <= i < |NatToString(n)| ==> IsDigit(NatToString(n)[i])
    ensures n < 10 <==> |NatToString(n)| == 1
    decreases n
  {
    if n >= 10 {
      NatToStringDigits(n / 10);
    }
  }

  /** `String(n)` for an integer `n`: a leading minus sign for negative numbers. */
  function IntToString(n: int): string {
    if n < 0 then "-" + NatToString(-n) else NatToString(n)
  }

  /** `s.padStart(width, fill)` with a one-character fill string. */
  function PadStart(s: string, width: nat, fill: char): string
    decreases width - |s|
  {
    if |s| < width then PadStart([fill] + s, width, fill) else s
  }

  /** JavaScript's `a % b` for a positive divisor: the remainder takes the sign of `a`. */
  function JsRem(a: int, b: int): int
    requires b > 0
  {
    if a >= 0 then a % b else -((-a) % b)
  }

  /** `String(n).padStart(2, '0')` for 0 <= n < 100 is exactly the two decimal digits of `n`. */
  lemma PadTwoDigits(n: int)
    requires 0 <= n < 100
    ensures PadStart(IntToString(n), 2, '0') == [Digit(n / 10), Digit(n % 10)]
  {
    if n < 10 {
      assert PadStart(IntToString(n), 2, '0') == PadStart(['0', Digit(n)], 2, '0');
    } else {
      assert NatToString(n) == NatToString(n / 10) + [Digit(n % 10)];
      assert NatToString(n / 10) == [Digit(n / 10)];
    }
  }

  function TrimStart(s: string): (r: string)
    ensures |r| <= |s| && r == s[|s| - |r|..]
    ensures |r| > 0 ==> !IsJsWhitespace(r[0])
    ensures forall i :: 0 <= i < |s| - |r| ==> IsJsWhitespace(s[i])
    decreases |s|
  {
    if |s| > 0 && IsJsWhitespace(s[0]) then TrimStart(s[1..]) else s
  }

  function TrimEnd(s: string): (r: string)
    ensures |r| <= |s| && r == s[..|r|]
    ensures |r| > 0 ==> !IsJsWhitespace(r[|r| - 1])
    ensures forall i :: |r| <= i < |s| ==> IsJsWhitespace(s[i])
    decreases |s|
  {
    if |s| > 0 && IsJsWhitespace(s[|s| - 1]) then TrimEnd(s[..|s| - 1]) else s
  }

  /** Leading whitespace of `a + b` lies in `a` when `a` has a character that is not whitespace. */
  lemma {:induction false} TrimStartConcat(a: string, b: string)
    requires !IsBlank(a)
    ensures TrimStart(a + b) == TrimStart(a) + b
    decreases |a|
  {
    assert (a + b)[0] == a[0] && (a + b)[1..] == a[1..] + b;
    if IsJsWhitespace(a[0]) {
      assert forall i :: 1 <= i < |a| ==> a[1..][i - 1] == a[i];
      TrimStartConcat(a[1..], b);
    }
  }

  /** A prefix made of whitespace only is trimmed away entirely. */
  lemma {:induction false} TrimStartBlank(a: string, b: string)
    requires IsBlank(a)
    ensures TrimStart(a + b) == TrimStart(b)
    decreases |a|
  {
    if a == [] {
      assert a + b == b;
    } else {
      assert (a + b)[0] == a[0] && (a + b)[1..] == a[1..] + b;
      assert forall i :: 1 <= i < |a| ==> a[1..][i - 1] == a[i];
      TrimStartBlank(a[1..], b);
    }
  }

  /** `s.trim()`. */
  function Trim(s: string): string {
    TrimEnd(TrimStart(s))
  }

  /** `s.trim()` is the empty string exactly when `s` is made of whitespace only. */
  lemma TrimEmptyIffBlank(s: string)
    ensures Trim(s) == "" <==> IsBlank(s)
  {
  }

  /** A string with no whitespace in it is its own trim. */
  lemma {:induction false} TrimWithoutWhitespace(s: string)
    requires forall i :: 0 <= i < |s| ==> !IsJsWhitespace(s[i])
    ensures Trim(s) == s
  {
    assert TrimStart(s) == s;
    assert TrimEnd(s) == s;
  }

  /**
   * `toLowerCase` of one character. The ASCII capitals, U+0130 (which becomes
   * `i` and a combining dot) and the Kelvin sign U+212A (which becomes `k`)
   * are lower-cased; every other character is kept as it is. That is exact
   * except on the other non-ASCII characters with a different lower case,
   * and neither those characters nor their lower cases lie in
   * `[A-Za-z0-9_]` or `\s`.
   */
  function LowerChar(c: char): (r: string)
    ensures forall i :: 0 <= i < |r| ==> !('A' <= r[i] <= 'Z')
    ensures 'A' <= c <= 'Z' ==> r == [(c as int + 32) as char]
    ensures !('A' <= c <= 'Z') && c != '\U{130}' && c != '\U{212A}' ==> r == [c]
    ensures c == '\U{130}' ==> r == "i\U{307}"
    ensures c == '\U{212A}' ==> r == "k"
    ensures c != '\U{130}' ==> |r| == 1
  {
    if 'A' <= c <= 'Z' then [((c as int) - ('A' as int) + ('a' as int)) as char]
    else if c == '\U{130}' then "i\U{307}"
    else if c == '\U{212A}' then "k"
    else [c]
  }

  /**
   * `s.toLowerCase()`, character by character. Unless U+0130 widens the
   * string, position `i` of the result is the lower case of position `i`.
   */
  function Lower(s: string): (r: string)
    ensures forall i :: 0 <= i < |r| ==> !('A' <= r[i] <= 'Z')
    ensures (forall i :: 0 <= i < |s| ==> s[i] != '\U{130}') ==>
      |r| == |s| && forall i :: 0 <= i < |s| ==> [r[i]] == LowerChar(s[i])
    decreases |s|
  {
    if s == [] then []
    else
      assert forall i :: 1 <= i < |s| ==> s[1..][i - 1] == s[i];
      LowerChar(s[0]) + Lower(s[1..])
  }

  /** Lower-casing works piece by piece, whatever the characters. */
  lemma {:induction false} LowerConcat(a: string, b: string)
    ensures Lower(a + b) == Lower(a) + Lower(b)
    decreases |a|
  {
    if a == [] {
      assert a + b == b;
    } else {
      assert (a + b)[0] == a[0] && (a + b)[1..] == a[1..] + b;
      LowerConcat(a[1..], b);
      ConcatAssoc(LowerChar(a[0]), Lower(a[1..]), Lower(b));
    }
  }

  /** Lower-casing leaves a string alone when it has no character lower-casing changes. */
  lemma {:induction false} LowerUnchanged(s: string)
    requires forall i :: 0 <= i < |s| ==> !('A' <= s[i] <= 'Z') && s[i] != '\U{130}' && s[i] != '\U{212A}'
    ensures Lower(s) == s
    decreases |s|
  {
    if s != [] {
      LowerUnchanged(s[1..]);
    }
  }
}
