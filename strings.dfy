/** Strings as JavaScript and SQLite see them: decimal numerals (template
    literals, `parseInt`, `Number`), `trim`, `startsWith`, `includes`,
    `join`, UTF-16 `length`, and the BINARY collation SQLite uses for
    `ORDER BY` on a TEXT column. */
module Strings {

  datatype Option<+T> = None | Some(value: T) {
    function GetOr(default: T): T {
      match this
      case Some(v) => v
      case None => default
    }
  }

  // ---------------------------------------------------------------------
  // Whitespace and trimming

  /** The characters `String.prototype.trim` removes: ECMAScript WhiteSpace
      (TAB, VT, FF, SP, NBSP, ZWNBSP and the Zs category) and LineTerminator. */
  predicate IsJsSpace(c: char) {
    || c == ' ' || c == '\t' || c == '\n' || c == '\r'
    || c == '\U{000B}' || c == '\U{000C}' || c == '\U{00A0}' || c == '\U{1680}'
    || ('\U{2000}' <= c <= '\U{200A}')
    || c == '\U{2028}' || c == '\U{2029}' || c == '\U{202F}' || c == '\U{205F}'
    || c == '\U{3000}' || c == '\U{FEFF}'
  }

  predicate IsBlank(s: string) {
    forall i :: 0 <= i < |s| ==> IsJsSpace(s[i])
  }

  /** `s.trimStart()`: the longest suffix of `s` that does not start with whitespace. */
  function TrimStart(s: string): (r: string)
    ensures |r| <= |s| && r == s[|s| - |r|..]
    ensures r == [] || !IsJsSpace(r[0])
    ensures forall i :: 0 <= i < |s| - |r| ==> IsJsSpace(s[i])
  {
    if s != [] && IsJsSpace(s[0]) then TrimStart(s[1..]) else s
  }

  /** `s.trimEnd()`: the longest prefix of `s` that does not end with whitespace. */
  function TrimEnd(s: string): (r: string)
    ensures |r| <= |s| && r == s[..|r|]
    ensures r == [] || !IsJsSpace(r[|r| - 1])
    ensures forall i :: |r| <= i < |s| ==> IsJsSpace(s[i])
  {
    if s != [] && IsJsSpace(s[|s| - 1]) then TrimEnd(s[..|s| - 1]) else s
  }

  /** `s.trim()`. */
  function Trim(s: string): string {
    TrimEnd(TrimStart(s))
  }

  /** A string trims to `''` exactly when every character is whitespace. */
  lemma TrimEmptyIffBlank(s: string)
    ensures Trim(s) == "" <==> IsBlank(s)
  {
  }

  // ---------------------------------------------------------------------
  // UTF-16 length

  /** `s.length` in JavaScript: UTF-16 code units, two for a character above U+FFFF. */
  function Utf16Length(s: string): (n: nat)
    ensures |s| <= n <= 2 * |s|
  {
    if s == [] then 0 else (if s[0] as int > 0xFFFF then 2 else 1) + Utf16Length(s[1..])
  }

  /** On the Basic Multilingual Plane the JavaScript length is the character count. */
  lemma {:induction false} Utf16LengthBmp(s: string)
    requires forall i :: 0 <= i < |s| ==> s[i] as int <= 0xFFFF
    ensures Utf16Length(s) == |s|
  {
    if s != [] {
      Utf16LengthBmp(s[1..]);
    }
  }

  // ---------------------------------------------------------------------
  // Decimal numerals

  predicate IsDigit(c: char) {
    '0' <= c <= '9'
  }

  predicate AllDigits(s: string) {
    forall i :: 0 <= i < |s| ==> IsDigit(s[i])
  }

  function Digit(d: nat): (c: char)
    requires d < 10
    ensures IsDigit(c)
  {
    ('0' as int + d) as char
  }

  function DigitValue(c: char): (d: nat)
    requires IsDigit(c)
    ensures d < 10 && Digit(d) == c
  {
    c as int - '0' as int
  }

  /** The decimal text of a natural number, without leading zeros. */
  function NatToString(n: nat): (s: string)
    ensures |s| > 0 && AllDigits(s)
    ensures s[0] == '0' <==> n == 0
  {
    if n < 10 then [Digit(n)] else NatToString(n / 10) + [Digit(n % 10)]
  }

  /** `${n}` for an integer `n`. */
  function IntToString(n: int): (s: string)
    ensures |s| > 0
    ensures (s[0] == '-') <==> n < 0
  {
    if n < 0 then "-" + NatToString(-n) else NatToString(n)
  }

  /** The value of a run of decimal digits (the empty run is 0). */
  function DigitsValue(s: string): nat
    requires AllDigits(s)
  {
    if s == [] then 0 else 10 * DigitsValue(s[..|s| - 1]) + DigitValue(s[|s| - 1])
  }

  /** Reading back the decimal text of `n` gives `n`. */
  lemma {:induction false} DigitsValueOfNat(n: nat)
    ensures DigitsValue(NatToString(n)) == n
  {
    if n >= 10 {
      var s := NatToString(n);
      assert s[..|s| - 1] == NatToString(n / 10);
      DigitsValueOfNat(n / 10);
    }
  }

  /** An optionally signed, non-empty run of decimal digits and nothing else. */
  function SignedDigits(s: string): Option<int> {
    if |s| >= 2 && (s[0] == '-' || s[0] == '+') && AllDigits(s[1..]) then
      var v: int := DigitsValue(s[1..]);
      Some(if s[0] == '-' then -v else v)
    else if |s| >= 1 && AllDigits(s) then
      Some(DigitsValue(s))
    else
      None
  }

  lemma SignedDigitsOfIntToString(n: int)
    ensures SignedDigits(IntToString(n)) == Some(n)
  {
    if n < 0 {
      SignedDigitsOfNegative(n);
    } else {
      DigitsValueOfNat(n);
    }
  }

  lemma SignedDigitsOfNegative(n: int)
    requires n < 0
    ensures SignedDigits(IntToString(n)) == Some(n)
  {
    var m: nat := -n;
    DigitsValueOfNat(m);
    SignedDigitsOfMinus(IntToString(n), NatToString(m));
  }

  lemma SignedDigitsOfMinus(s: string, d: string)
    requires s == "-" + d && d != [] && AllDigits(d)
    ensures SignedDigits(s) == Some(-(DigitsValue(d) as int))
  {
    assert s[1..] == d;
  }

  /** The decimal text of an integer has no leading whitespace... */
  lemma TrimStartIntToString(n: int)
    ensures TrimStart(IntToString(n)) == IntToString(n)
  {
    var s := IntToString(n);
    assert !IsJsSpace(s[0]) by {
      if n >= 0 { assert IsDigit(s[0]); }
    }
  }

  /** ...and none at all. */
  lemma TrimIntToString(n: int)
    ensures Trim(IntToString(n)) == IntToString(n)
  {
    var s := IntToString(n);
    TrimStartIntToString(n);
    assert !IsJsSpace(s[|s| - 1]) by {
      var t := NatToString(if n < 0 then -n else n);
      assert s[|s| - 1] == t[|t| - 1];
      assert IsDigit(t[|t| - 1]);
    }
  }

  /** The longest run of digits at the start of `s`. */
  function DigitPrefix(s: string): (p: string)
    ensures p <= s && AllDigits(p)
    ensures |p| < |s| ==> !IsDigit(s[|p|])
  {
    if s != [] && IsDigit(s[0]) then [s[0]] + DigitPrefix(s[1..]) else []
  }

  lemma {:induction false} DigitPrefixOfDigits(s: string)
    requires AllDigits(s)
    ensures DigitPrefix(s) == s
  {
    if s != [] {
      DigitPrefixOfDigits(s[1..]);
    }
  }

  predicate IsHexDigit(c: char) {
    IsDigit(c) || 'a' <= c <= 'f' || 'A' <= c <= 'F'
  }

  function HexDigitValue(c: char): (d: nat)
    requires IsHexDigit(c)
    ensures d < 16
  {
    if IsDigit(c) then DigitValue(c) else if 'a' <= c <= 'f' then c as int - 'a' as int + 10 else c as int - 'A' as int + 10
  }

  predicate AllHexDigits(s: string) {
    forall i :: 0 <= i < |s| ==> IsHexDigit(s[i])
  }

  /** The value of a run of hexadecimal digits (the empty run is 0). */
  function HexValue(s: string): nat
    requires AllHexDigits(s)
  {
    if s == [] then 0 else 16 * HexValue(s[..|s| - 1]) + HexDigitValue(s[|s| - 1])
  }

  /** The longest run of hexadecimal digits at the start of `s`. */
  function HexPrefix(s: string): (p: string)
    ensures p <= s && AllHexDigits(p)
    ensures |p| < |s| ==> !IsHexDigit(s[|p|])
  {
    if s != [] && IsHexDigit(s[0]) then [s[0]] + HexPrefix(s[1..]) else []
  }

  /** A numeral that `parseInt` without a radix reads in base 16. */
  predicate HexPrefixed(s: string) {
    |s| >= 2 && s[0] == '0' && (s[1] == 'x' || s[1] == 'X')
  }

  /** `parseInt(s)` with no radix argument: leading whitespace, an optional
      sign, then either `0x`/`0X` and as many hexadecimal digits as there are,
      or as many decimal digits as there are; `None` stands for `NaN` (no
      digits at all). */
  function ParseInt(s: string): Option<int> {
    var t := TrimStart(s);
    var signed := t != [] && (t[0] == '-' || t[0] == '+');
    var body := if signed then t[1..] else t;
    var magnitude: Option<nat> :=
      if HexPrefixed(body) then
        var h := HexPrefix(body[2..]);
        if h == [] then None else Some(HexValue(h))
      else
        var d := DigitPrefix(body);
        if d == [] then None else Some(DigitsValue(d));
    if magnitude.None? then None
    else Some(if signed && t[0] == '-' then -(magnitude.value as int) else magnitude.value)
  }

  /** `parseInt` of `0x` followed by nothing but hexadecimal digits... */
  lemma ParseIntOfHex(s: string, x: char, h: string)
    requires s == ['0', x] + h && (x == 'x' || x == 'X') && TrimStart(s) == s
    requires h != [] && HexPrefix(h) == h
    ensures ParseInt(s) == Some(HexValue(h) as int)
  {
    assert s[2..] == h;
  }

  /** ...and of the same after a minus sign. */
  lemma ParseIntOfMinusHex(s: string, x: char, h: string)
    requires s == ['-', '0', x] + h && (x == 'x' || x == 'X') && TrimStart(s) == s
    requires h != [] && HexPrefix(h) == h
    ensures ParseInt(s) == Some(-(HexValue(h) as int))
  {
    assert s[1..] == ['0', x] + h;
    assert s[1..][2..] == h;
  }

  /** `0x` with no digits after it is `NaN`. */
  lemma ParseIntOfBareHex(s: string, x: char)
    requires s == ['0', x] && (x == 'x' || x == 'X') && TrimStart(s) == s
    ensures ParseInt(s) == None
  {
    assert s[2..] == [];
  }

  /** A `0x` numeral is read in base 16, with its sign; `0x` alone is `NaN`. */
  lemma ParseIntHex()
    ensures ParseInt("0x10") == Some(16)
    ensures ParseInt("-0X1f") == Some(-31)
    ensures ParseInt("0x") == None
  {
    HexLiterals();
    ParseIntOfHex("0x10", 'x', "10");
    ParseIntOfMinusHex("-0X1f", 'X', "1f");
    ParseIntOfBareHex("0x", 'x');
  }

  lemma HexLiterals()
    ensures HexPrefix("10") == "10" && HexValue("10") == 16
    ensures HexPrefix("1f") == "1f" && HexValue("1f") == 31
    ensures "0x10" == ['0', 'x'] + "10" && "-0X1f" == ['-', '0', 'X'] + "1f"
    ensures TrimStart("0x10") == "0x10" && TrimStart("-0X1f") == "-0X1f"
    ensures "0x" == ['0', 'x'] && TrimStart("0x") == "0x"
  {
    HexTen();
    HexThirtyOne();
    HexNumerals();
  }

  lemma HexTen()
    ensures HexPrefix("10") == "10" && HexValue("10") == 16
  {
    var s := "10";
    assert s[1..] == "0" && s[1..][1..] == "";
    assert s[..1] == "1" && s[..1][..0] == "";
  }

  lemma HexThirtyOne()
    ensures HexPrefix("1f") == "1f" && HexValue("1f") == 31
  {
    var s := "1f";
    assert s[1..] == "f" && s[1..][1..] == "";
    assert s[..1] == "1" && s[..1][..0] == "";
  }

  lemma HexNumerals()
    ensures "0x10" == ['0', 'x'] + "10" && "-0X1f" == ['-', '0', 'X'] + "1f"
    ensures TrimStart("0x10") == "0x10" && TrimStart("-0X1f") == "-0X1f"
    ensures "0x" == ['0', 'x'] && TrimStart("0x") == "0x"
  {
  }

  /** `parseInt` reads back every integer's decimal text. */
  lemma ParseIntOfIntToString(n: int)
    ensures ParseInt(IntToString(n)) == Some(n)
  {
    if n < 0 {
      ParseIntOfNegative(n);
    } else {
      ParseIntOfNat(n);
    }
  }

  lemma ParseIntOfNat(n: int)
    requires n >= 0
    ensures ParseInt(IntToString(n)) == Some(n)
  {
    TrimStartIntToString(n);
    DigitPrefixOfDigits(NatToString(n));
    DigitsValueOfNat(n);
  }

  lemma ParseIntOfNegative(n: int)
    requires n < 0
    ensures ParseInt(IntToString(n)) == Some(n)
  {
    var m: nat := -n;
    var d := NatToString(m);
    TrimStartIntToString(n);
    DigitPrefixOfDigits(d);
    DigitsValueOfNat(m);
    ParseIntOfMinus(IntToString(n), d);
  }

  /** `parseInt` of a minus sign followed by nothing but digits. */
  lemma ParseIntOfMinus(s: string, d: string)
    requires s == "-" + d && TrimStart(s) == s && d != [] && DigitPrefix(d) == d && d[0] != '0'
    ensures ParseInt(s) == Some(-(DigitsValue(d) as int))
  {
    assert s[1..] == d;
  }

  // ---------------------------------------------------------------------
  // Searching and joining

  predicate StartsWith(s: string, prefix: string) {
    |prefix| <= |s| && s[..|prefix|] == prefix
  }

  /** `s.includes(t)`. */
  predicate Contains(s: string, t: string)
    decreases |s|
  {
    StartsWith(s, t) || (s != [] && Contains(s[1..], t))
  }

  /** Whatever is written between two strings can be found in the whole. */
  lemma {:induction false} ContainsMiddle(a: string, b: string, c: string)
    ensures Contains(a + b + c, b)
  {
    if a == [] {
      assert (a + b + c)[..|b|] == b;
    } else {
      assert (a + b + c)[1..] == a[1..] + b + c;
      ContainsMiddle(a[1..], b, c);
    }
  }

  lemma ContainsSelf(s: string)
    ensures Contains(s, s)
  {
    assert s[..|s|] == s;
  }

  lemma ContainsStart(a: string, b: string)
    ensures Contains(a + b, a)
  {
    assert (a + b)[..|a|] == a;
  }

  lemma {:induction false} ContainsAppendLeft(a: string, b: string, t: string)
    requires Contains(a, t)
    ensures Contains(a + b, t)
  {
    if StartsWith(a, t) {
      assert (a + b)[..|t|] == a[..|t|];
    } else {
      assert (a + b)[1..] == a[1..] + b;
      ContainsAppendLeft(a[1..], b, t);
    }
  }

  lemma {:induction false} ContainsAppendRight(a: string, b: string, t: string)
    requires Contains(b, t)
    ensures Contains(a + b, t)
  {
    if a == [] {
      assert a + b == b;
    } else {
      assert (a + b)[1..] == a[1..] + b;
      ContainsAppendRight(a[1..], b, t);
    }
  }

  lemma {:induction false} ContainsThroughPrefix(s: string, t: string, u: string)
    requires StartsWith(s, t) && Contains(t, u)
    ensures Contains(s, u)
    decreases |t|
  {
    if StartsWith(t, u) {
      assert s[..|u|] == t[..|u|];
    } else {
      assert s[1..][..|t| - 1] == t[1..];
      ContainsThroughPrefix(s[1..], t[1..], u);
    }
  }

  /** What is found in a part of a string is found in the string. */
  lemma {:induction false} ContainsTransitive(s: string, t: string, u: string)
    requires Contains(s, t) && Contains(t, u)
    ensures Contains(s, u)
    decreases |s|
  {
    if StartsWith(s, t) {
      ContainsThroughPrefix(s, t, u);
    } else {
      ContainsTransitive(s[1..], t, u);
    }
  }

  /** A string that contains `t` is at least as long as `t`. */
  lemma {:induction false} ContainsLength(s: string, t: string)
    requires Contains(s, t)
    ensures |t| <= |s|
  {
    if !StartsWith(s, t) {
      ContainsLength(s[1..], t);
    }
  }

  /** `xs.join(sep)`. */
  function Join(xs: seq<string>, sep: string): string {
    if |xs| == 0 then "" else if |xs| == 1 then xs[0] else xs[0] + sep + Join(xs[1..], sep)
  }

  /** A join with a non-empty separator is empty only for `[]` and `['']`. */
  lemma JoinEmpty(xs: seq<string>, sep: string)
    requires sep != ""
    ensures Join(xs, sep) == "" <==> xs == [] || xs == [""]
  {
  }

  /** `c.toLowerCase()` for ASCII; other characters are kept. */
  function LowerAscii(c: char): (d: char)
    ensures 'A' <= c <= 'Z' ==> d as int == c as int + 32
    ensures !('A' <= c <= 'Z') ==> d == c
  {
    if 'A' <= c <= 'Z' then (c as int + 32) as char else c
  }

  // ---------------------------------------------------------------------
  // SQLite BINARY collation (code point order)

  /** `a <= b` in code point order, which for UTF-8 text is SQLite's `memcmp` order. */
  predicate LexLe(a: string, b: string)
    decreases |a|
  {
    a == [] || (b != [] && (a[0] < b[0] || (a[0] == b[0] && LexLe(a[1..], b[1..]))))
  }

  lemma {:induction false} LexLeTotal(a: string, b: string)
    ensures LexLe(a, b) || LexLe(b, a)
    decreases |a|
  {
    if a != [] && b != [] && a[0] == b[0] {
      LexLeTotal(a[1..], b[1..]);
    }
  }

  lemma {:induction false} LexLeTransitive(a: string, b: string, c: string)
    requires LexLe(a, b) && LexLe(b, c)
    ensures LexLe(a, c)
    decreases |a|
  {
    if a != [] && a[0] == b[0] && b[0] == c[0] {
      LexLeTransitive(a[1..], b[1..], c[1..]);
    }
  }

  lemma {:induction false} LexLeAntisymmetric(a: string, b: string)
    requires LexLe(a, b) && LexLe(b, a)
    ensures a == b
    decreases |a|
  {
    if a != [] {
      LexLeAntisymmetric(a[1..], b[1..]);
      assert a == [a[0]] + a[1..];
      assert b == [b[0]] + b[1..];
    }
  }
}
