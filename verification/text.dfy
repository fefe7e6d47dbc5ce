/** The JavaScript string built-ins the components rely on: `parseInt` (one argument, so radix 10
    unless the text starts with `0x`), `String.prototype.toLowerCase` and `String.prototype.includes`. */
module Text {
  import opened Wrappers

  // ----- toLowerCase -----

  /** Lower-case mapping of one character: ASCII `A`-`Z` and the Latin-1 capitals
      `À`-`Þ` (except `×`) move up by 32; every other character is kept. */
  function LowerChar(c: char): char {
    if 'A' <= c <= 'Z' then (c as int + 32) as char
    else if 0xC0 <= c as int <= 0xDE && c as int != 0xD7 then (c as int + 32) as char
    else c
  }

  function ToLower(s: string): (r: string)
    ensures |r| == |s|
    ensures forall i :: 0 <= i < |s| ==> r[i] == LowerChar(s[i])
  {
    if |s| == 0 then "" else [LowerChar(s[0])] + ToLower(s[1..])
  }

  /** Lower-casing is idempotent, so a term typed in lower case is searched for unchanged. */
  lemma ToLowerIdempotent(s: string)
    ensures ToLower(ToLower(s)) == ToLower(s)
  {
    var t := ToLower(s);
    assert forall i :: 0 <= i < |t| ==> LowerChar(t[i]) == t[i];
  }

  /** Lower-casing commutes with taking a slice. */
  lemma ToLowerSlice(s: string, i: nat, j: nat)
    requires i <= j <= |s|
    ensures ToLower(s)[i..j] == ToLower(s[i..j])
  {
  }

  // ----- includes -----

  /** `t` occurs in `s` starting at index `i`. */
  predicate OccursAt(s: string, t: string, i: int) {
    0 <= i <= |s| - |t| && s[i..i + |t|] == t
  }

  /** `s.includes(t)`: `t` occurs in `s` as a contiguous piece. */
  predicate HasSubstring(s: string, t: string) {
    exists i | 0 <= i <= |s| - |t| :: OccursAt(s, t, i)
  }

  /** The empty string occurs in every string. */
  lemma EmptyIsSubstring(s: string)
    ensures HasSubstring(s, "")
  {
    assert OccursAt(s, "", 0);
  }

  /** A substring match survives lower-casing both sides: search is case-insensitive
      in the direction that matters to a user typing part of a name. */
  lemma HasSubstringToLower(s: string, t: string)
    requires HasSubstring(s, t)
    ensures HasSubstring(ToLower(s), ToLower(t))
  {
    var i :| 0 <= i <= |s| - |t| && OccursAt(s, t, i);
    var j := i + |t|;
    assert s[i..j] == t;
    ToLowerSlice(s, i, j);
    assert ToLower(s)[i..j] == ToLower(t);
    assert OccursAt(ToLower(s), ToLower(t), i);
  }

  // ----- parseInt -----

  /** The code points JavaScript strips at the start of `parseInt`'s argument: white space
      (including U+FEFF and the space separators) and line terminators. */
  predicate IsJsSpace(c: char) {
    var n := c as int;
    n == 0x09 || n == 0x0A || n == 0x0B || n == 0x0C || n == 0x0D || n == 0x20 || n == 0xA0
    || n == 0x1680 || (0x2000 <= n <= 0x200A) || n == 0x2028 || n == 0x2029 || n == 0x202F
    || n == 0x205F || n == 0x3000 || n == 0xFEFF
  }

  function TrimStart(s: string): (r: string)
    ensures |r| <= |s| && r == s[|s| - |r|..]
    ensures |r| == 0 || !IsJsSpace(r[0])
    ensures forall i :: 0 <= i < |s| - |r| ==> IsJsSpace(s[i])
  {
    if |s| > 0 && IsJsSpace(s[0]) then TrimStart(s[1..]) else s
  }

  /** The value of a digit character in bases up to 16, or -1. */
  function DigitValue(c: char): int {
    if '0' <= c <= '9' then c as int - '0' as int
    else if 'a' <= c <= 'f' then c as int - 'a' as int + 10
    else if 'A' <= c <= 'F' then c as int - 'A' as int + 10
    else -1
  }

  predicate IsDigit(c: char, radix: nat) {
    0 <= DigitValue(c) < radix
  }

  /** The longest prefix of `s` made of digits of the given radix. */
  function DigitPrefix(s: string, radix: nat): (r: string)
    ensures |r| <= |s| && r == s[..|r|]
    ensures forall i :: 0 <= i < |r| ==> IsDigit(r[i], radix)
    ensures |r| < |s| ==> !IsDigit(s[|r|], radix)
  {
    if |s| == 0 || !IsDigit(s[0], radix) then "" else [s[0]] + DigitPrefix(s[1..], radix)
  }

  /** The number a digit string denotes in the given radix. */
  function DigitsValue(ds: string, radix: nat): nat
    requires forall i :: 0 <= i < |ds| ==> IsDigit(ds[i], radix)
  {
    if |ds| == 0 then 0
    else
      var init, last := ds[..|ds| - 1], ds[|ds| - 1];
      assert forall i :: 0 <= i < |init| ==> init[i] == ds[i];
      assert IsDigit(last, radix);
      var v := DigitsValue(init, radix);
      MulNonNegative(v, radix);
      v * radix + DigitValue(last)
  }

  lemma MulNonNegative(a: nat, b: nat)
    ensures a * b >= 0
  {
  }

  /** The unsigned part of `parseInt`: a `0x`/`0X` prefix switches to base 16, and the longest
      run of digits that follows is the value; no digits at all is `NaN` (absent). */
  function UnsignedValue(u: string): Option<nat> {
    var hex := |u| >= 2 && u[0] == '0' && (u[1] == 'x' || u[1] == 'X');
    var radix := if hex then 16 else 10;
    var z := DigitPrefix(if hex then u[2..] else u, radix);
    if |z| == 0 then None else Some(DigitsValue(z, radix))
  }

  /** One-argument `parseInt`; absent stands for `NaN`. Leading white space is skipped, then one
      optional sign, then the unsigned part. Minus zero is 0. */
  function ParseInt(s: string): Option<int> {
    var t := TrimStart(s);
    if |t| > 0 && t[0] == '-' then
      match UnsignedValue(t[1..])
      case None => None
      case Some(v) => Some(-(v as int))
    else if |t| > 0 && t[0] == '+' then
      match UnsignedValue(t[1..])
      case None => None
      case Some(v) => Some(v)
    else
      match UnsignedValue(t)
      case None => None
      case Some(v) => Some(v)
  }

  /** `parseInt(text) || fallback`: `NaN` and 0 both give way to the fallback. */
  function ParseIntOr(s: string, fallback: int): (r: int)
    ensures r == fallback <==> ParseInt(s).None? || ParseInt(s) == Some(0) || ParseInt(s) == Some(fallback)
    ensures r != fallback ==> ParseInt(s) == Some(r)
  {
    match ParseInt(s)
    case None => fallback
    case Some(n) => if n == 0 then fallback else n
  }

  // ----- the decimal text of an integer (what a number input shows) -----

  function DigitChar(d: nat): (c: char)
    requires d < 10
    ensures IsDigit(c, 10) && DigitValue(c) == d
  {
    ('0' as int + d) as char
  }

  /** Decimal digits of a natural number, most significant first, no leading zero. */
  function NatDigits(n: nat): (r: string)
    ensures |r| >= 1
    ensures forall i :: 0 <= i < |r| ==> IsDigit(r[i], 10)
    ensures n > 0 ==> r[0] != '0'
    ensures n == 0 ==> r == "0"
  {
    if n < 10 then [DigitChar(n)] else NatDigits(n / 10) + [DigitChar(n % 10)]
  }

  /** `String(n)` for an integer. */
  function DecimalString(n: int): string {
    if n < 0 then "-" + NatDigits(-n) else NatDigits(n)
  }

  lemma {:induction false} NatDigitsValue(n: nat)
    ensures DigitsValue(NatDigits(n), 10) == n
  {
    if n >= 10 {
      var ds := NatDigits(n);
      assert ds[..|ds| - 1] == NatDigits(n / 10);
      NatDigitsValue(n / 10);
    }
  }

  /** What may follow a numeral without changing how `parseInt` reads it: nothing, or a
      character that is neither a decimal digit nor the `x` of a hex prefix (a `.`, a space,
      a unit). */
  predicate EndsNumeral(rest: string) {
    |rest| == 0 || (!IsDigit(rest[0], 10) && rest[0] != 'x' && rest[0] != 'X')
  }

  /** The digit prefix stops at the first non-digit. */
  lemma {:induction false} DigitPrefixStops(ds: string, rest: string, radix: nat)
    requires forall i :: 0 <= i < |ds| ==> IsDigit(ds[i], radix)
    requires |rest| == 0 || !IsDigit(rest[0], radix)
    ensures DigitPrefix(ds + rest, radix) == ds
  {
    if |ds| > 0 {
      assert (ds + rest)[1..] == ds[1..] + rest;
      DigitPrefixStops(ds[1..], rest, radix);
    } else {
      assert ds + rest == rest;
    }
  }

  lemma NatDigitsUnsigned(n: nat, rest: string)
    requires EndsNumeral(rest)
    ensures UnsignedValue(NatDigits(n) + rest) == Some(n)
  {
    var ds := NatDigits(n);
    var u := ds + rest;
    NatDigitsValue(n);
    DigitPrefixStops(ds, rest, 10);
    assert u[0] == ds[0];
    if |u| >= 2 && u[0] == '0' {
      assert n == 0 && u[1] == rest[0];
    }
  }

  /** A text starting with a decimal digit is parsed by its unsigned part alone. */
  lemma ParseIntFromDigit(s: string)
    requires |s| > 0 && IsDigit(s[0], 10)
    ensures UnsignedValue(s).Some? ==> ParseInt(s) == Some(UnsignedValue(s).value)
  {
    assert !IsJsSpace(s[0]);
    assert TrimStart(s) == s;
    assert s[0] != '-' && s[0] != '+';
  }

  lemma ParseIntNatDigits(m: nat, rest: string)
    requires EndsNumeral(rest)
    ensures ParseInt(NatDigits(m) + rest) == Some(m)
  {
    NatDigitsUnsigned(m, rest);
    ParseIntFromDigit(NatDigits(m) + rest);
  }

  /** A text starting with a minus sign is parsed as the negated unsigned part after it. */
  lemma ParseIntFromMinus(s: string)
    requires |s| > 0 && s[0] == '-'
    ensures UnsignedValue(s[1..]).Some? ==> ParseInt(s) == Some(-(UnsignedValue(s[1..]).value as int))
  {
    assert !IsJsSpace(s[0]);
    assert TrimStart(s) == s;
  }

  lemma ParseIntNegatedDigits(m: nat, rest: string)
    requires EndsNumeral(rest)
    ensures ParseInt("-" + NatDigits(m) + rest) == Some(-(m as int))
  {
    var s := "-" + NatDigits(m) + rest;
    assert s[1..] == NatDigits(m) + rest;
    NatDigitsUnsigned(m, rest);
    ParseIntFromMinus(s);
  }

  /** `parseInt` reads a decimal numeral followed by anything that ends it as the numeral's
      value. */
  lemma ParseIntDecimalPrefix(n: int, rest: string)
    requires EndsNumeral(rest)
    ensures ParseInt(DecimalString(n) + rest) == Some(n)
  {
    if n < 0 {
      ParseIntNegatedDigits(-n, rest);
    } else {
      ParseIntNatDigits(n, rest);
    }
  }

  /** `parseInt(String(n)) === n`: a number shown in an input and submitted unchanged is
      stored unchanged. */
  lemma ParseIntDecimalString(n: int)
    ensures ParseInt(DecimalString(n)) == Some(n)
  {
    ParseIntDecimalPrefix(n, "");
    assert DecimalString(n) + "" == DecimalString(n);
  }

  /** An empty input is `NaN`. */
  lemma ParseIntEmpty()
    ensures ParseInt("") == None
  {
  }

  /** A point ends a numeral. */
  lemma DotEndsNumeral(fraction: string)
    ensures EndsNumeral("." + fraction)
  {
    assert ("." + fraction)[0] == '.';
  }

  /** The fractional part of a decimal input is dropped: `parseInt(n + "." + digits)` is `n`
      whatever follows the point. */
  lemma ParseIntDropsFraction(n: int, fraction: string)
    ensures ParseInt(DecimalString(n) + ("." + fraction)) == Some(n)
  {
    DotEndsNumeral(fraction);
    ParseIntDecimalPrefix(n, "." + fraction);
  }

  /** An instance: `parseInt("12.5")` is 12. */
  lemma ParseIntTwelveAndAHalf()
    ensures ParseInt("12.5") == Some(12)
  {
    assert DigitChar(1) == '1' && DigitChar(2) == '2';
    assert NatDigits(12) == NatDigits(1) + [DigitChar(2)] == "12";
    assert DecimalString(12) == "12";
    ParseIntDropsFraction(12, "5");
    assert "12" + ("." + "5") == "12.5";
  }
}
