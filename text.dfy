/**
 * The JavaScript string operations the bridge relies on: String.prototype.trim,
 * parseInt with no radix, the decimal rendering of an integer inside a template
 * literal, and the prefix and separator helpers used to read protocol lines.
 * Strings are `seq<char>`, one Unicode scalar value per element; JavaScript indexes
 * UTF-16 code units, which differs only outside the Basic Multilingual Plane.
 */
module Text {
  import opened Wrappers

  /** The characters String.prototype.trim removes: WhiteSpace and LineTerminator of ECMAScript. */
  predicate IsJsWhitespace(c: char) {
    || c == '\t' || c == '\n' || c == '\U{B}' || c == '\U{C}' || c == '\r' || c == ' '
    || c == '\U{A0}' || c == '\U{1680}' || ('\U{2000}' <= c <= '\U{200A}')
    || c == '\U{2028}' || c == '\U{2029}' || c == '\U{202F}' || c == '\U{205F}'
    || c == '\U{3000}' || c == '\U{FEFF}'
  }

  predicate AllWhitespace(s: string) {
    forall i :: 0 <= i < |s| ==> IsJsWhitespace(s[i])
  }

  /** Drops leading whitespace; the result is the longest suffix that starts with a non-whitespace character. */
  function TrimStart(s: string): (r: string)
    ensures |r| <= |s| && r == s[|s| - |r|..]
    ensures r == [] || !IsJsWhitespace(r[0])
    ensures AllWhitespace(s[..|s| - |r|])
  {
    if |s| > 0 && IsJsWhitespace(s[0]) then
      var r := TrimStart(s[1..]);
      assert s[..|s| - |r|] == [s[0]] + s[1..][..|s| - 1 - |r|];
      r
    else s
  }

  /** Drops trailing whitespace; the result is the longest prefix that ends with a non-whitespace character. */
  function TrimEnd(s: string): (r: string)
    ensures |r| <= |s| && r == s[..|r|]
    ensures r == [] || !IsJsWhitespace(r[|r| - 1])
    ensures AllWhitespace(s[|r|..])
  {
    if |s| > 0 && IsJsWhitespace(s[|s| - 1]) then
      var r := TrimEnd(s[..|s| - 1]);
      assert s[|r|..] == s[..|s| - 1][|r|..] + [s[|s| - 1]];
      r
    else s
  }

  /** String.prototype.trim. */
  function Trim(s: string): (r: string)
    ensures |r| <= |s|
    ensures r == [] || (!IsJsWhitespace(r[0]) && !IsJsWhitespace(r[|r| - 1]))
  {
    TrimEnd(TrimStart(s))
  }

  lemma {:induction false} TrimStartPadded(pre: string, core: string)
    requires AllWhitespace(pre)
    requires core == [] || !IsJsWhitespace(core[0])
    ensures TrimStart(pre + core) == core
  {
    if pre != [] {
      assert (pre + core)[1..] == pre[1..] + core;
      TrimStartPadded(pre[1..], core);
    }
  }

  lemma {:induction false} TrimEndPadded(core: string, post: string)
    requires AllWhitespace(post)
    requires core == [] || !IsJsWhitespace(core[|core| - 1])
    ensures TrimEnd(core + post) == core
  {
    if post != [] {
      assert (core + post)[..|core + post| - 1] == core + post[..|post| - 1];
      TrimEndPadded(core, post[..|post| - 1]);
    }
  }

  /** Trimming a text surrounded by whitespace gives back the text. */
  lemma TrimPadded(pre: string, core: string, post: string)
    requires AllWhitespace(pre) && AllWhitespace(post)
    requires core == [] || (!IsJsWhitespace(core[0]) && !IsJsWhitespace(core[|core| - 1]))
    ensures Trim(pre + core + post) == core
  {
    if core == [] {
      assert pre + core + post == pre + post;
      assert AllWhitespace(pre + post);
      TrimStartPadded(pre + post, []);
    } else {
      assert pre + core + post == pre + (core + post);
      TrimStartPadded(pre, core + post);
      TrimEndPadded(core, post);
    }
  }

  predicate HasPrefix(s: string, p: string) {
    |p| <= |s| && s[..|p|] == p
  }

  /** Index of the first occurrence of `c` in `s`, or |s| when there is none. */
  function IndexOf(s: string, c: char): (i: nat)
    ensures i <= |s|
    ensures i < |s| ==> s[i] == c
    ensures forall j :: 0 <= j < i ==> s[j] != c
  {
    if s == [] then 0 else if s[0] == c then 0 else 1 + IndexOf(s[1..], c)
  }

  /** `s.split(sep)[1]`: the field between the first and second separator; undefined without one. */
  function SecondField(s: string, sep: char): (f: string)
    requires IndexOf(s, sep) < |s|
    ensures sep !in f
    ensures var rest := s[IndexOf(s, sep) + 1..];
      |f| <= |rest| && f == rest[..|f|] && (|f| == |rest| || rest[|f|] == sep)
  {
    var rest := s[IndexOf(s, sep) + 1..];
    rest[..IndexOf(rest, sep)]
  }

  // ---- digits ----------------------------------------------------------------

  predicate IsAlnum(c: char) {
    ('0' <= c <= '9') || ('a' <= c <= 'z') || ('A' <= c <= 'Z')
  }

  /** The value of a digit in any radix up to 36, as parseInt reads it. */
  function CharValue(c: char): (v: nat)
    requires IsAlnum(c)
    ensures v < 36
  {
    if '0' <= c <= '9' then c as int - '0' as int
    else if 'a' <= c <= 'z' then c as int - 'a' as int + 10
    else c as int - 'A' as int + 10
  }

  predicate IsRadixDigit(c: char, radix: nat) {
    IsAlnum(c) && CharValue(c) < radix
  }

  predicate AllRadixDigits(s: string, radix: nat) {
    forall i :: 0 <= i < |s| ==> IsRadixDigit(s[i], radix)
  }

  predicate IsDecimalDigit(c: char) {
    '0' <= c <= '9'
  }

  /** The value of a run of digits, most significant first. */
  function DigitsValue(s: string, radix: nat): nat
    requires AllRadixDigits(s, radix)
  {
    if s == [] then 0 else DigitsValue(s[..|s| - 1], radix) * radix + CharValue(s[|s| - 1])
  }

  /** The longest prefix of `s` made of digits of `radix`. */
  function DigitRun(s: string, radix: nat): (r: string)
    ensures |r| <= |s| && r == s[..|r|]
    ensures AllRadixDigits(r, radix)
    ensures |r| == |s| || !IsRadixDigit(s[|r|], radix)
  {
    if s != [] && IsRadixDigit(s[0], radix) then [s[0]] + DigitRun(s[1..], radix) else []
  }

  // ---- rendering -------------------------------------------------------------

  function DigitChar(d: nat): (c: char)
    requires d < 10
    ensures IsDecimalDigit(c) && IsRadixDigit(c, 10) && CharValue(c) == d
  {
    ('0' as int + d) as char
  }

  /** Decimal rendering of a natural number without leading zeros. */
  function NatToString(n: nat): (s: string)
    ensures |s| > 0
    ensures forall i :: 0 <= i < |s| ==> IsDecimalDigit(s[i]) && IsRadixDigit(s[i], 10)
  {
    if n < 10 then [DigitChar(n)] else NatToString(n / 10) + [DigitChar(n % 10)]
  }

  /** How a template literal writes an integral number: an optional '-' and its decimal digits. */
  function IntToString(n: int): (s: string)
    ensures |s| > 0 && (s[0] == '-' <==> n < 0)
    ensures forall i :: 0 <= i < |s| ==> s[i] == '-' || IsDecimalDigit(s[i])
  {
    if n < 0 then "-" + NatToString(-n) else NatToString(n)
  }

  lemma {:induction false} NatToStringValue(n: nat)
    ensures DigitsValue(NatToString(n), 10) == n
  {
    if n >= 10 {
      var s := NatToString(n);
      assert s[..|s| - 1] == NatToString(n / 10);
      NatToStringValue(n / 10);
    }
  }

  // ---- parsing ---------------------------------------------------------------

  /** Reads back exactly what IntToString writes: an optional '-' followed by decimal digits. */
  function ParseDecimal(s: string): Option<int> {
    if |s| > 1 && s[0] == '-' && AllRadixDigits(s[1..], 10) then
      var v: int := DigitsValue(s[1..], 10); Some(-v)
    else if |s| > 0 && AllRadixDigits(s, 10) then Some(DigitsValue(s, 10) as int)
    else None
  }

  lemma DecimalRoundTrip(n: int)
    ensures ParseDecimal(IntToString(n)) == Some(n)
  {
    if n < 0 {
      assert IntToString(n)[1..] == NatToString(-n);
      NatToStringValue(-n);
    } else {
      NatToStringValue(n);
    }
  }

  /**
   * The digits part of parseInt: a "0x"/"0X" prefix switches to base 16, then the
   * longest run of digits of the base is read. None when that run is empty.
   */
  function ParseUnsigned(u: string): Option<nat> {
    var hex := |u| >= 2 && u[0] == '0' && (u[1] == 'x' || u[1] == 'X');
    var radix := if hex then 16 else 10;
    var z := DigitRun(if hex then u[2..] else u, radix);
    if z == [] then None else Some(DigitsValue(z, radix))
  }

  /**
   * parseInt(s) with no radix: skip leading whitespace, an optional sign, then
   * ParseUnsigned. None stands for NaN.
   */
  function ParseIntJs(s: string): (r: Option<int>)
    ensures r.Some? ==> var t := TrimStart(s);
      && t != []
      && (IsDecimalDigit(t[0]) || ((t[0] == '-' || t[0] == '+') && |t| > 1 && IsDecimalDigit(t[1])))
    ensures r.Some? && r.value < 0 ==> TrimStart(s) != [] && TrimStart(s)[0] == '-'
  {
    var t := TrimStart(s);
    var negative := |t| > 0 && t[0] == '-';
    var u := if |t| > 0 && (t[0] == '-' || t[0] == '+') then t[1..] else t;
    assert ParseUnsigned(u).Some? ==> u != [] && IsDecimalDigit(u[0]) by {
      if u != [] && !IsDecimalDigit(u[0]) {
        assert !IsRadixDigit(u[0], 10);
        assert DigitRun(u, 10) == [];
      }
    }
    match ParseUnsigned(u)
    case None => None
    case Some(m) =>
      var v: int := m;
      Some(if negative then -v else v)
  }

  lemma ParseUnsignedOfDigits(m: nat)
    ensures ParseUnsigned(NatToString(m)) == Some(m)
  {
    var u := NatToString(m);
    assert !(|u| >= 2 && u[0] == '0' && (u[1] == 'x' || u[1] == 'X')) by {
      if |u| >= 2 { assert IsDecimalDigit(u[1]); }
    }
    assert DigitRun(u, 10) == u;
    NatToStringValue(m);
  }

  lemma TrimStartNoLeadingSpace(s: string)
    requires s != [] && !IsJsWhitespace(s[0])
    ensures TrimStart(s) == s
  {
  }

  /** parseInt of a text starting with a digit is its unsigned reading. */
  lemma ParseIntJsUnsigned(u: string, m: nat)
    requires u != [] && IsDecimalDigit(u[0]) && ParseUnsigned(u) == Some(m)
    ensures ParseIntJs(u) == Some(m)
  {
    TrimStartNoLeadingSpace(u);
  }

  /** parseInt of '-' followed by a text starting with a digit is the negated unsigned reading. */
  lemma ParseIntJsNegative(u: string, m: nat)
    requires u != [] && IsDecimalDigit(u[0]) && ParseUnsigned(u) == Some(m)
    ensures ParseIntJs("-" + u) == Some(-(m as int))
  {
    var t := "-" + u;
    TrimStartNoLeadingSpace(t);
    assert t[1..] == u;
  }

  /** parseInt reads back every integer a template literal writes. */
  lemma ParseIntJsRoundTrip(n: int)
    ensures ParseIntJs(IntToString(n)) == Some(n)
  {
    var m: nat := if n < 0 then -n else n;
    var u := NatToString(m);
    ParseUnsignedOfDigits(m);
    if n < 0 {
      ParseIntJsNegative(u, m);
    } else {
      ParseIntJsUnsigned(u, m);
    }
  }
}
