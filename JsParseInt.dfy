/** JavaScript's global `parseInt(string)` with no radix argument. `None` stands
    for `NaN`. */
module JsParseInt {
  import opened Wrappers

  /** StrWhiteSpaceChar of ECMAScript: WhiteSpace (TAB, VT, FF, ZWNBSP and the
      space separators of category Zs) and LineTerminator (LF, CR, LS, PS). */
  predicate IsJsWhiteSpace(c: char)
  {
    c == '\t' || c == '\U{000B}' || c == '\U{000C}' || c == '\U{FEFF}'
    || c == ' ' || c == '\U{00A0}' || c == '\U{1680}' || ('\U{2000}' <= c <= '\U{200A}')
    || c == '\U{202F}' || c == '\U{205F}' || c == '\U{3000}'
    || c == '\n' || c == '\r' || c == '\U{2028}' || c == '\U{2029}'
  }

  function TrimStart(s: string): string
  {
    if s != [] && IsJsWhiteSpace(s[0]) then TrimStart(s[1..]) else s
  }

  /** What is dropped is white space, and what is left is a suffix that starts
      with no white space. */
  lemma {:induction false} TrimStartMeans(s: string)
    ensures var t := TrimStart(s);
      |t| <= |s| && t == s[|s| - |t|..] && (t == [] || !IsJsWhiteSpace(t[0]))
      && forall k :: 0 <= k < |s| - |t| ==> IsJsWhiteSpace(s[k])
  {
    if s != [] && IsJsWhiteSpace(s[0]) {
      TrimStartMeans(s[1..]);
      var t := TrimStart(s);
      forall k | 0 < k < |s| - |t| ensures IsJsWhiteSpace(s[k]) {
        assert s[k] == s[1..][k - 1];
      }
    }
  }

  /** The value of `c` as a digit of base `radix` (10 or 16), or -1. */
  function DigitValue(c: char, radix: int): int
  {
    if '0' <= c <= '9' then c as int - '0' as int
    else if radix == 16 && 'a' <= c <= 'f' then c as int - 'a' as int + 10
    else if radix == 16 && 'A' <= c <= 'F' then c as int - 'A' as int + 10
    else -1
  }

  /** The longest prefix of `s` made of base-`radix` digits. */
  function DigitPrefix(s: string, radix: int): string
  {
    if s != [] && DigitValue(s[0], radix) >= 0 then [s[0]] + DigitPrefix(s[1..], radix) else []
  }

  /** The prefix is made of digits and stops at the first non-digit (if any). */
  lemma {:induction false} DigitPrefixMeans(s: string, radix: int)
    ensures var d := DigitPrefix(s, radix);
      && d <= s
      && (forall k :: 0 <= k < |d| ==> DigitValue(d[k], radix) >= 0)
      && (|d| < |s| ==> DigitValue(s[|d|], radix) < 0)
  {
    if s != [] && DigitValue(s[0], radix) >= 0 {
      DigitPrefixMeans(s[1..], radix);
    }
  }

  /** The number a string of base-`radix` digits denotes. */
  function DigitsValue(d: string, radix: int): int
  {
    if d == [] then 0 else DigitsValue(d[..|d| - 1], radix) * radix + DigitValue(d[|d| - 1], radix)
  }

  /** Leading white space is skipped, then one optional sign; a `0x`/`0X` prefix
      selects base 16; the longest run of digits is read; no digits gives NaN. */
  function ParseInt(s: string): Option<int>
  {
    var t := TrimStart(s);
    var sign := if t != [] && t[0] == '-' then -1 else 1;
    var u := if t != [] && (t[0] == '-' || t[0] == '+') then t[1..] else t;
    var hex := |u| >= 2 && u[0] == '0' && (u[1] == 'x' || u[1] == 'X');
    var radix := if hex then 16 else 10;
    var digits := DigitPrefix(if hex then u[2..] else u, radix);
    if digits == [] then None else Some(sign * DigitsValue(digits, radix))
  }

  predicate IsDecimalDigit(c: char)
  {
    '0' <= c <= '9'
  }

  /** Three decimal digits parse to the number they spell. */
  lemma ThreeDigits(s: string)
    requires |s| == 3 && IsDecimalDigit(s[0]) && IsDecimalDigit(s[1]) && IsDecimalDigit(s[2])
    ensures ParseInt(s) == Some(100 * (s[0] as int - '0' as int) + 10 * (s[1] as int - '0' as int) + (s[2] as int - '0' as int))
  {
    assert !IsJsWhiteSpace(s[0]);
    assert TrimStart(s) == s;
    assert !(s[1] == 'x' || s[1] == 'X');
    AllDigits(s);
    ThreeDigitsValue(s);
    assert DigitPrefix(s, 10) != [];
  }

  lemma AllDigits(s: string)
    requires forall k :: 0 <= k < |s| ==> IsDecimalDigit(s[k])
    ensures DigitPrefix(s, 10) == s
  {
    if s != [] {
      AllDigits(s[1..]);
    }
  }

  lemma ThreeDigitsValue(s: string)
    requires |s| == 3 && IsDecimalDigit(s[0]) && IsDecimalDigit(s[1]) && IsDecimalDigit(s[2])
    ensures DigitsValue(s, 10) == 100 * (s[0] as int - '0' as int) + 10 * (s[1] as int - '0' as int) + (s[2] as int - '0' as int)
  {
    var d0, d1, d2 := DigitValue(s[0], 10), DigitValue(s[1], 10), DigitValue(s[2], 10);
    assert s[..2][..1] == s[..1];
    assert s[..1][..0] == [];
    assert DigitsValue(s[..1], 10) == d0;
    assert DigitsValue(s[..2], 10) == d0 * 10 + d1;
    assert DigitsValue(s, 10) == (d0 * 10 + d1) * 10 + d2;
  }

  /** A string whose first non-blank character is neither a sign nor a digit is NaN. */
  lemma NoDigitIsNaN(s: string)
    requires var t := TrimStart(s); t == [] || (t[0] != '-' && t[0] != '+' && !IsDecimalDigit(t[0]))
    ensures ParseInt(s) == None
  {
  }
}
