/**
 * JavaScript numbers as far as the application uses them: the integers
 * `Number.parseInt` produces, plus `NaN`, and their `toString()` form.
 */
module Numbers {
  import opened Strings

  /** A JavaScript number that is an integer or `NaN`. */
  datatype Num = Int(value: int) | NaN

  /** `c` is a digit in base `radix` (10 or 16), in either letter case. */
  predicate IsDigit(c: char, radix: nat) {
    ('0' <= c <= '9') || (radix == 16 && (('a' <= c <= 'f') || ('A' <= c <= 'F')))
  }

  /** The character for digit `d` (below 16); letters in upper case when `upper`. */
  function DigitChar(d: nat, upper: bool): char
    requires d < 16
  {
    if d < 10 then ('0' as int + d) as char
    else if upper then ('A' as int + d - 10) as char
    else ('a' as int + d - 10) as char
  }

  /** The value of a digit character: the digit whose character, in the same letter case, is `c`. */
  function DigitValue(c: char, radix: nat): (d: nat)
    requires IsDigit(c, radix)
    ensures d < (if radix == 16 then 16 else 10)
    ensures DigitChar(d, 'A' <= c <= 'F') == c
  {
    if '0' <= c <= '9' then c as int - '0' as int
    else if 'a' <= c <= 'f' then c as int - 'a' as int + 10
    else c as int - 'A' as int + 10
  }

  /** Every character of `s` is a digit in base `radix`. */
  predicate AllDigits(s: string, radix: nat) {
    forall i :: 0 <= i < |s| ==> IsDigit(s[i], radix)
  }

  /** The longest prefix of `s` made of digits in base `radix`. */
  function DigitPrefix(s: string, radix: nat): (p: string)
    ensures |p| <= |s| && p == s[..|p|]
    ensures AllDigits(p, radix)
    ensures |p| < |s| ==> !IsDigit(s[|p|], radix)
  {
    if s == [] || !IsDigit(s[0], radix) then [] else [s[0]] + DigitPrefix(s[1..], radix)
  }

  /** The value of a digit string in base `radix`, most significant digit first. */
  function DigitsValue(ds: string, radix: nat): nat
    requires AllDigits(ds, radix)
  {
    if ds == [] then 0
    else DigitsValue(ds[..|ds| - 1], radix) * radix + DigitValue(ds[|ds| - 1], radix)
  }

  /** `u` starts with `0x` or `0X`. */
  predicate HexPrefix(u: string) {
    |u| >= 2 && u[0] == '0' && (u[1] == 'x' || u[1] == 'X')
  }

  /**
   * `Number.parseInt` after the sign: a `0x` or `0X` prefix selects base
   * 16, and the longest run of digits that follows is the value; with no
   * digit the result is `NaN`.
   */
  function ParseDigits(u: string): (r: Num)
    ensures r.Int? ==> r.value >= 0
  {
    var hex := HexPrefix(u);
    var radix := if hex then 16 else 10;
    var ds := DigitPrefix(if hex then u[2..] else u, radix);
    if ds == [] then NaN else Int(DigitsValue(ds, radix))
  }

  /** Unary minus on an integer or `NaN`; `-0` is not distinguished from `0`. */
  function Negate(x: Num): (r: Num)
    ensures r.NaN? <==> x.NaN?
    ensures r.Int? ==> r.value + x.value == 0
  {
    match x
    case Int(n) => Int(-n)
    case NaN => NaN
  }

  /**
   * `Number.parseInt(s)` with no radix: leading whitespace is skipped, one
   * `+` or `-` is taken as the sign, and the rest is read by `ParseDigits`.
   */
  function ParseInt(s: string): Num {
    var t := s[SkipSpace(s, 0)..];
    if |t| > 0 && t[0] == '-' then Negate(ParseDigits(t[1..]))
    else if |t| > 0 && t[0] == '+' then ParseDigits(t[1..])
    else ParseDigits(t)
  }

  /** The decimal digits of `n`, without leading zeros. */
  function Decimal(n: nat): (s: string)
    ensures |s| > 0 && AllDigits(s, 10)
    ensures |s| > 1 ==> s[0] != '0'
  {
    if n < 10 then [('0' as int + n) as char]
    else Decimal(n / 10) + [('0' as int + n % 10) as char]
  }

  /** `x.toString()` for an integer or `NaN` (exponent notation for huge values is not modelled). */
  function NumToString(x: Num): (s: string)
    ensures s != []
  {
    match x
    case NaN => "NaN"
    case Int(n) => if n < 0 then "-" + Decimal(-n) else Decimal(n)
  }

  /** Reading back the decimal digits of `n` gives `n`. */
  lemma {:induction false} DecimalValue(n: nat)
    ensures DigitsValue(Decimal(n), 10) == n
  {
    if n >= 10 {
      DecimalValue(n / 10);
      var s := Decimal(n);
      assert s[..|s| - 1] == Decimal(n / 10);
    }
  }

  /** The digit prefix of an all-digit string is the whole string. */
  lemma {:induction false} DigitPrefixOfDigits(s: string, radix: nat)
    requires AllDigits(s, radix)
    ensures DigitPrefix(s, radix) == s
  {
    if s != [] {
      DigitPrefixOfDigits(s[1..], radix);
    }
  }

  /** A decimal digit string without a sign is read in base 10, in full. */
  lemma ParseDigitsOfDigits(s: string)
    requires s != [] && AllDigits(s, 10)
    ensures ParseDigits(s) == Int(DigitsValue(s, 10))
  {
    assert |s| >= 2 ==> s[1] != 'x' && s[1] != 'X' by {
      if |s| >= 2 { assert IsDigit(s[1], 10); }
    }
    DigitPrefixOfDigits(s, 10);
  }

  /** `parseInt` of a string that starts with a digit reads it without a sign. */
  lemma ParseIntOfUnsigned(s: string)
    requires s != [] && IsDigit(s[0], 10)
    ensures ParseInt(s) == ParseDigits(s)
  {
    assert SkipSpace(s, 0) == 0 by { assert !IsWhitespace(s[0]); }
    assert s[0..] == s;
  }

  /** `parseInt` of a non-empty decimal digit string is its decimal value. */
  lemma ParseIntOfDigits(s: string)
    requires s != [] && AllDigits(s, 10)
    ensures ParseInt(s) == Int(DigitsValue(s, 10))
  {
    ParseIntOfUnsigned(s);
    ParseDigitsOfDigits(s);
  }

  /** `parseInt` reads back what `toString` writes, for integers and `NaN`. */
  lemma ParseIntOfToString(x: Num)
    ensures ParseInt(NumToString(x)) == x
  {
    match x
    case NaN =>
      var s := NumToString(x);
      assert SkipSpace(s, 0) == 0 by { assert !IsWhitespace(s[0]); }
      assert s[0..] == s;
    case Int(n) =>
      var d := Decimal(if n < 0 then -n else n);
      DecimalValue(if n < 0 then -n else n);
      ParseDigitsOfDigits(d);
      if n < 0 {
        var s := "-" + d;
        assert SkipSpace(s, 0) == 0 by { assert !IsWhitespace(s[0]); }
        assert s[0..] == s && s[1..] == d;
      } else {
        ParseIntOfUnsigned(d);
      }
  }

  /** A whitespace run that ends at the first non-whitespace character is what `SkipSpace` skips. */
  lemma SkipSpaceUnique(s: string, i: nat, n: nat)
    requires i <= n <= |s|
    requires forall k :: i <= k < n ==> IsWhitespace(s[k])
    requires n < |s| ==> !IsWhitespace(s[n])
    ensures SkipSpace(s, i) == n
  {
    var m := SkipSpace(s, i);
    if m < n {
      assert false;
    } else if m > n {
      assert false;
    }
  }

  /** Leading whitespace does not change what `parseInt` reads. */
  lemma ParseIntSkipsWhitespace(w: string, s: string)
    requires AllWhitespace(w)
    ensures ParseInt(w + s) == ParseInt(s)
  {
    var m := SkipSpace(s, 0);
    var x := w + s;
    forall k | 0 <= k < |w| + m
      ensures IsWhitespace(x[k])
    {
      if k < |w| { assert x[k] == w[k]; } else { assert x[k] == s[k - |w|]; }
    }
    if |w| + m < |x| {
      assert x[|w| + m] == s[m];
    }
    SkipSpaceUnique(x, 0, |w| + m);
    assert x[|w| + m..] == s[m..];
  }

  /** A leading `-` negates what follows it. */
  lemma ParseIntOfMinus(u: string)
    ensures ParseInt("-" + u) == Negate(ParseDigits(u))
  {
    var s := "-" + u;
    assert SkipSpace(s, 0) == 0 by { assert !IsWhitespace(s[0]); }
    assert s[0..] == s && s[1..] == u;
  }

  /** A leading `+` is dropped. */
  lemma ParseIntOfPlus(u: string)
    ensures ParseInt("+" + u) == ParseDigits(u)
  {
    var s := "+" + u;
    assert SkipSpace(s, 0) == 0 by { assert !IsWhitespace(s[0]); }
    assert s[0..] == s && s[1..] == u;
  }

  /** The digit prefix of digits followed by a non-digit is those digits. */
  lemma {:induction false} DigitPrefixStops(ds: string, rest: string, radix: nat)
    requires AllDigits(ds, radix)
    requires rest == [] || !IsDigit(rest[0], radix)
    ensures DigitPrefix(ds + rest, radix) == ds
  {
    if ds == [] {
      assert ds + rest == rest;
    } else {
      DigitPrefixStops(ds[1..], rest, radix);
      assert (ds + rest)[1..] == ds[1..] + rest;
      assert (ds + rest)[0] == ds[0];
    }
  }

  /** Decimal digits followed by anything that is not a digit: the digits are read and the rest ignored. */
  lemma ParseDigitsStopsAtJunk(ds: string, rest: string)
    requires ds != [] && AllDigits(ds, 10)
    requires rest == [] || !IsDigit(rest[0], 10)
    requires !HexPrefix(ds + rest)
    ensures ParseDigits(ds + rest) == Int(DigitsValue(ds, 10))
  {
    DigitPrefixStops(ds, rest, 10);
  }

  /** After `0x`, hexadecimal digits are read in base 16 up to the first non-hex character. */
  lemma ParseDigitsOfHex(x: char, ds: string, rest: string)
    requires x == 'x' || x == 'X'
    requires ds != [] && AllDigits(ds, 16)
    requires rest == [] || !IsDigit(rest[0], 16)
    ensures ParseDigits(['0', x] + ds + rest) == Int(DigitsValue(ds, 16))
  {
    var u := ['0', x] + ds + rest;
    assert u[2..] == ds + rest;
    DigitPrefixStops(ds, rest, 16);
  }

  /** With no digit where one is expected, the result is `NaN`. */
  lemma ParseDigitsNoDigit(u: string)
    requires !HexPrefix(u) && (u == [] || !IsDigit(u[0], 10))
    ensures ParseDigits(u) == NaN
  {
    DigitPrefixStops([], u, 10);
    assert [] + u == u;
  }

  /**
   * Leading whitespace, a `-`, decimal digits and then text that is not a
   * digit (as in `" -12px"`): the digits are read, negated, and the text ignored.
   */
  lemma ParseIntOfNegativePrefix(w: string, ds: string, rest: string)
    requires AllWhitespace(w)
    requires ds != [] && AllDigits(ds, 10)
    requires rest == [] || !IsDigit(rest[0], 10)
    requires !HexPrefix(ds + rest)
    ensures ParseInt(w + "-" + ds + rest) == Int(-(DigitsValue(ds, 10) as int))
  {
    assert w + "-" + ds + rest == w + ("-" + (ds + rest));
    ParseIntSkipsWhitespace(w, "-" + (ds + rest));
    ParseIntOfMinus(ds + rest);
    ParseDigitsStopsAtJunk(ds, rest);
  }
}
