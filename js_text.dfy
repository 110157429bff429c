/** The pieces of JavaScript's string semantics that the components use:
    the white-space class shared by `\s`, `String.prototype.trim` and
    `parseInt`; `parseInt` without a radix; the decimal text of an integer
    (what a template literal `${n}` produces); `toLowerCase` and `includes`;
    and the element order of the default `Array.prototype.sort`. */
module JsText {
  import opened Common

  /** WhiteSpace and LineTerminator of the ECMAScript grammar: the characters
      that `\s` matches and that `trim` and `parseInt` skip. */
  predicate IsSpace(c: char) {
    c == '\t' || c == '\n' || c == '\U{000B}' || c == '\U{000C}' || c == '\r' ||
    c == ' ' || c == '\U{00A0}' || c == '\U{1680}' || ('\U{2000}' <= c <= '\U{200A}') ||
    c == '\U{2028}' || c == '\U{2029}' || c == '\U{202F}' || c == '\U{205F}' ||
    c == '\U{3000}' || c == '\U{FEFF}'
  }

  /** `s.trim() !== ''`: the text has a character that is not white space. */
  predicate NotBlank(s: string) {
    exists i :: 0 <= i < |s| && !IsSpace(s[i])
  }

  function TrimStart(s: string): (r: string)
    ensures |r| <= |s| && r == s[|s| - |r|..]
    ensures r == [] || !IsSpace(r[0])
    ensures s != [] && !IsSpace(s[0]) ==> r == s
    ensures forall i :: 0 <= i < |s| - |r| ==> IsSpace(s[i])
    decreases |s|
  {
    if s != [] && IsSpace(s[0]) then TrimStart(s[1..]) else s
  }

  // ---------------------------------------------------------------- numbers

  predicate IsDecimalDigit(c: char) { '0' <= c <= '9' }

  function DigitChar(d: nat): (c: char)
    requires d < 10
    ensures IsDecimalDigit(c)
  {
    ('0' as int + d) as char
  }

  /** The decimal digits of `n`, most significant first, without leading zeros. */
  function NatDigits(n: nat): (r: string)
    ensures |r| > 0
    ensures forall i :: 0 <= i < |r| ==> IsDecimalDigit(r[i])
    decreases n
  {
    if n < 10 then [DigitChar(n)] else NatDigits(n / 10) + [DigitChar(n % 10)]
  }

  /** `${n}` for an integer-valued number. */
  function Show(n: int): (r: string)
    ensures r != [] && (r[0] == '-' || IsDecimalDigit(r[0]))
    ensures r[0] == '-' <==> n < 0
    ensures forall i :: 0 < i < |r| ==> IsDecimalDigit(r[i])
  {
    if n < 0 then "-" + NatDigits(-n) else NatDigits(n)
  }

  /** The value of `c` as a digit in base `radix` (2..36), if it is one. */
  function DigitValue(c: char, radix: nat): (r: Option<nat>)
    ensures r.Some? ==> r.value < radix
  {
    var v :=
      if '0' <= c <= '9' then c as int - '0' as int
      else if 'a' <= c <= 'z' then c as int - 'a' as int + 10
      else if 'A' <= c <= 'Z' then c as int - 'A' as int + 10
      else 36;
    if v < radix then Some(v) else None
  }

  /** The longest prefix of `s` made of base-`radix` digits. */
  function DigitPrefix(s: string, radix: nat): (r: string)
    ensures |r| <= |s| && r == s[..|r|]
    ensures forall i :: 0 <= i < |r| ==> DigitValue(r[i], radix).Some?
    ensures |r| < |s| ==> DigitValue(s[|r|], radix).None?
    decreases |s|
  {
    if s != [] && DigitValue(s[0], radix).Some? then [s[0]] + DigitPrefix(s[1..], radix) else []
  }

  /** The number that a string of base-`radix` digits denotes. */
  function DigitsValue(z: string, radix: nat): nat
    requires forall i :: 0 <= i < |z| ==> DigitValue(z[i], radix).Some?
    decreases |z|
  {
    if z == [] then 0
    else
      var init := z[..|z| - 1];
      assert forall i :: 0 <= i < |init| ==> init[i] == z[i];
      var high: nat := DigitsValue(init, radix);
      var low: nat := DigitValue(z[|z| - 1], radix).value;
      MulNat(high, radix);
      high * radix + low
  }

  lemma MulNat(a: nat, b: nat)
    ensures a * b >= 0
  {
  }

  /** `parseInt(s)` with no radix: skip leading white space, take one sign,
      read base 16 after `0x`/`0X` and base 10 otherwise, and stop at the
      first character that is not a digit. `None` stands for `NaN`, the
      result when no digit follows. */
  function ParseInt(s: string): (r: Option<int>)
    ensures TrimStart(s) == [] ==> r.None?
    ensures var t := TrimStart(s);
      t != [] && t[0] != '-' && t[0] != '+' && !IsDecimalDigit(t[0]) ==> r.None?
    ensures var t := TrimStart(s);
      t != [] && IsDecimalDigit(t[0]) && !(|t| >= 2 && t[0] == '0' && (t[1] == 'x' || t[1] == 'X')) ==>
        r.Some? && r.value >= 0
    ensures r.Some? && r.value < 0 ==> TrimStart(s) != [] && TrimStart(s)[0] == '-'
  {
    var t := TrimStart(s);
    if t != [] && t[0] == '-' then
      match ParseUnsigned(t[1..])
      case None => None
      case Some(v) => Some(-v)
    else if t != [] && t[0] == '+' then ParseUnsigned(t[1..])
    else ParseUnsigned(t)
  }

  /** The unsigned part of `parseInt`: base 16 after `0x`/`0X`, base 10
      otherwise, up to the first character that is not a digit. */
  function ParseUnsigned(u: string): (r: Option<int>)
    ensures r.Some? ==> r.value >= 0
  {
    if |u| >= 2 && u[0] == '0' && (u[1] == 'x' || u[1] == 'X') then ParseDigits(u[2..], 16)
    else ParseDigits(u, 10)
  }

  /** The value of the leading base-`radix` digits of `s`; `None` when there are none. */
  function ParseDigits(s: string, radix: nat): Option<int> {
    var z := DigitPrefix(s, radix);
    if z == [] then None else Some(DigitsValue(z, radix))
  }

  /** A character that ends a decimal number and cannot turn a leading `0`
      into the hexadecimal prefix `0x`. */
  predicate EndsNumber(rest: string) {
    rest == [] || (!IsDecimalDigit(rest[0]) && rest[0] != 'x' && rest[0] != 'X')
  }

  lemma {:induction false} DigitPrefixOfDigits(d: string, rest: string)
    requires forall i :: 0 <= i < |d| ==> IsDecimalDigit(d[i])
    requires EndsNumber(rest)
    ensures DigitPrefix(d + rest, 10) == d
    decreases |d|
  {
    if d != [] {
      assert (d + rest)[1..] == d[1..] + rest;
      DigitPrefixOfDigits(d[1..], rest);
    } else {
      assert d + rest == rest;
    }
  }

  lemma {:induction false} NatDigitsValue(n: nat)
    ensures DigitsValue(NatDigits(n), 10) == n
    decreases n
  {
    var r := NatDigits(n);
    if n >= 10 {
      NatDigitsValue(n / 10);
      assert r[..|r| - 1] == NatDigits(n / 10);
    }
  }

  /** The digits of `m` followed by a non-digit read back as `m`. */
  lemma UnsignedDigitsParse(m: nat, rest: string)
    requires EndsNumber(rest)
    ensures ParseUnsigned(NatDigits(m) + rest) == Some(m)
  {
    var d := NatDigits(m);
    var u := d + rest;
    DigitPrefixOfDigits(d, rest);
    NatDigitsValue(m);
    assert ParseDigits(u, 10) == Some(m);
    if |u| >= 2 && u[0] == '0' {
      if |d| >= 2 {
        assert u[1] == d[1] && IsDecimalDigit(d[1]);
      } else {
        assert u[1] == rest[0];
      }
    }
  }

  /** `parseInt` reads back the decimal text of an integer, also when other
      text follows it: `parseInt(`${n}` + rest) === n` for a `rest` that does
      not continue the number. */
  lemma ParseShow(n: int, rest: string)
    requires EndsNumber(rest)
    ensures ParseInt(Show(n) + rest) == Some(n)
  {
    var m: nat := if n < 0 then -n else n;
    var d := NatDigits(m);
    UnsignedDigitsParse(m, rest);
    var s := Show(n) + rest;
    if n < 0 {
      assert s == ['-'] + (d + rest);
      TrimStartKeeps(s);
      assert s[1..] == d + rest;
      assert ParseUnsigned(s[1..]) == Some(m);
      ParseIntNegative(s);
    } else {
      assert s == d + rest;
      TrimStartKeeps(s);
      ParseIntUnsigned(s);
    }
  }

  lemma ParseIntNegative(s: string)
    requires s != [] && s[0] == '-'
    ensures ParseInt(s) == match ParseUnsigned(s[1..]) case None => None case Some(v) => Some(-v)
  {
    TrimStartKeeps(s);
  }

  lemma ParseIntUnsigned(s: string)
    requires s != [] && IsDecimalDigit(s[0])
    ensures ParseInt(s) == ParseUnsigned(s)
  {
    TrimStartKeeps(s);
  }

  lemma TrimStartKeeps(s: string)
    requires s != [] && (s[0] == '-' || IsDecimalDigit(s[0]))
    ensures TrimStart(s) == s
  {
    assert !IsSpace(s[0]);
  }

  // ---------------------------------------------------------------- text search

  /** `s.toLowerCase()` on the letters A-Z. */
  function ToLower(s: string): (r: string)
    ensures |r| == |s|
    ensures forall i :: 0 <= i < |s| ==> !('A' <= r[i] <= 'Z')
    ensures forall i :: 0 <= i < |s| && !('A' <= s[i] <= 'Z') ==> r[i] == s[i]
    ensures forall i :: 0 <= i < |s| && 'A' <= s[i] <= 'Z' ==> r[i] == (s[i] as int - 'A' as int + 'a' as int) as char
  {
    seq(|s|, i requires 0 <= i < |s| =>
      if 'A' <= s[i] <= 'Z' then (s[i] as int - 'A' as int + 'a' as int) as char else s[i])
  }

  /** `s.includes(needle)`. */
  predicate Contains(s: string, needle: string) {
    exists i :: 0 <= i <= |s| - |needle| && OccursAt(s, needle, i)
  }

  predicate OccursAt(s: string, needle: string, i: nat)
    requires i + |needle| <= |s|
  {
    s[i..i + |needle|] == needle
  }

  // ---------------------------------------------------------------- sort order

  /** The order of the default `sort()` on strings: lexicographic on
      character codes, a proper prefix first. */
  predicate Less(a: string, b: string)
    decreases |a|
  {
    if a == [] then b != []
    else b != [] && (a[0] < b[0] || (a[0] == b[0] && Less(a[1..], b[1..])))
  }

  lemma {:induction false} LessIrreflexive(a: string)
    ensures !Less(a, a)
    decreases |a|
  {
    if a != [] { LessIrreflexive(a[1..]); }
  }

  lemma {:induction false} LessTransitive(a: string, b: string, c: string)
    requires Less(a, b) && Less(b, c)
    ensures Less(a, c)
    decreases |a|
  {
    if a != [] && a[0] == b[0] && b[0] == c[0] {
      LessTransitive(a[1..], b[1..], c[1..]);
    }
  }

  lemma {:induction false} LessTotal(a: string, b: string)
    requires a != b
    ensures Less(a, b) || Less(b, a)
    decreases |a|
  {
    if a != [] && b != [] && a[0] == b[0] {
      assert a == [a[0]] + a[1..] && b == [b[0]] + b[1..];
      LessTotal(a[1..], b[1..]);
    }
  }
}
