/** The global `parseInt(s)` with no radix, on the integers: leading white
    space is skipped, one sign is read, a `0x`/`0X` prefix selects base 16,
    and the longest run of digits of the base that follows is the value;
    with no such digit the result is NaN (here `None`). */
module IntParsing {
  import opened Wrappers
  import opened Text

  /** The value of `c` as a digit of some base up to 36 (`0-9`, `a-z`, `A-Z`). */
  function CharValue(c: char): (r: Option<nat>)
    ensures r.Some? ==> r.value < 36
    ensures IsDigit(c) ==> r == Some(DigitValue(c))
  {
    if '0' <= c <= '9' then Some((c - '0') as nat)
    else if 'a' <= c <= 'z' then Some((c - 'a') as nat + 10)
    else if 'A' <= c <= 'Z' then Some((c - 'A') as nat + 10)
    else None
  }

  predicate IsRadixDigit(c: char, radix: nat) {
    CharValue(c).Some? && CharValue(c).value < radix
  }

  /** For base 10 the digits are exactly `0` to `9`. */
  lemma DecimalDigits(c: char)
    ensures IsRadixDigit(c, 10) <==> IsDigit(c)
  {
  }

  /** The longest prefix of `s` made of digits of the base. */
  function DigitPrefix(s: string, radix: nat): (r: string)
    ensures |r| <= |s| && r == s[..|r|]
    ensures forall i :: 0 <= i < |r| ==> IsRadixDigit(r[i], radix)
    ensures |r| < |s| ==> !IsRadixDigit(s[|r|], radix)
  {
    if s != [] && IsRadixDigit(s[0], radix) then [s[0]] + DigitPrefix(s[1..], radix) else []
  }

  /** The value of a run of digits of the base, most significant first
      (applied only to runs of digits). */
  function DigitsValue(s: string, radix: nat): nat {
    if s == [] then 0 else DigitsValue(s[..|s| - 1], radix) * radix + CharValue(s[|s| - 1]).GetOr(0)
  }

  /** In base 10 the digit value agrees with the decimal reading. */
  lemma {:induction false} DigitsValueDecimal(s: string)
    requires AllDigits(s)
    ensures DigitsValue(s, 10) == DecimalValue(s)
  {
    if s != [] {
      DigitsValueDecimal(s[..|s| - 1]);
    }
  }

  /** `s` starts with `0x` or `0X`. */
  predicate HasHexPrefix(s: string) {
    |s| >= 2 && s[0] == '0' && (s[1] == 'x' || s[1] == 'X')
  }

  /** `parseInt(s)`. */
  function ParseInt(s: string): Option<int> {
    var t := TrimStart(s);
    var negative := t != [] && t[0] == '-';
    var unsigned := if t != [] && (t[0] == '-' || t[0] == '+') then t[1..] else t;
    var radix := if HasHexPrefix(unsigned) then 16 else 10;
    var body := if HasHexPrefix(unsigned) then unsigned[2..] else unsigned;
    var digits := DigitPrefix(body, radix);
    if digits == [] then None
    else
      var v: int := DigitsValue(digits, radix);
      Some(if negative then -v else v)
  }

  /** Reading back the decimal rendering of a non-negative integer gives
      the integer: the string a number input holds for a whole number parses
      to that number. */
  lemma ParseIntRoundTrip(n: nat)
    ensures ParseInt(NatToString(n)) == Some(n)
  {
    var s := NatToString(n);
    assert !IsSpace(s[0]);
    assert TrimStart(s) == s;
    assert !HasHexPrefix(s);
    DigitsValueDecimal(s);
    AllDigitsPrefix(s);
    NatToStringRoundTrip(n);
  }

  /** A string of decimal digits is its own longest digit prefix. */
  lemma AllDigitsPrefix(s: string)
    requires AllDigits(s)
    ensures DigitPrefix(s, 10) == s
  {
    var r := DigitPrefix(s, 10);
    if |r| < |s| {
      DecimalDigits(s[|r|]);
    }
  }

  /** The digit run of `d + [c] + rest` is `d` when `c` is not a digit. */
  lemma DigitPrefixStops(d: string, c: char, rest: string)
    requires AllDigits(d) && !IsDigit(c)
    ensures DigitPrefix(d + [c] + rest, 10) == d
  {
    var s := d + [c] + rest;
    var r := DigitPrefix(s, 10);
    DecimalDigits(c);
    assert s[|d|] == c;
    forall i | 0 <= i < |d| ensures IsRadixDigit(s[i], 10) {
      assert s[i] == d[i];
      DecimalDigits(d[i]);
    }
  }

  /** Parsing stops at the first character that is not a digit, so `"16.5"`
      and `"16 yosh"` read as 16, unless the digits are a lone `0` followed
      by `x` or `X`, which switches to base 16. */
  lemma ParseIntStopsAtNonDigit(d: string, c: char, rest: string)
    requires d != [] && AllDigits(d) && !IsDigit(c)
    requires !(d == "0" && (c == 'x' || c == 'X'))
    ensures ParseInt(d + [c] + rest) == Some(DecimalValue(d))
  {
    var s := d + [c] + rest;
    assert s[0] == d[0] && IsDigit(d[0]);
    assert !IsSpace(s[0]);
    assert TrimStart(s) == s;
    assert !HasHexPrefix(s) by {
      if |d| >= 2 {
        assert s[1] == d[1];
      }
    }
    DigitPrefixStops(d, c, rest);
    DigitsValueDecimal(d);
  }

  /** A blank string is NaN. */
  lemma ParseIntBlank(s: string)
    requires AllSpace(s)
    ensures ParseInt(s) == None
  {
  }
}
