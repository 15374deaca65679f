/**
 * Decimal text for integers: what `std::ostream << int` writes, and what
 * `std::stol(s)` (base 10) reads back.
 */
module Decimal {
  import opened Wrappers
  import opened Native

  predicate IsDigit(c: char) { '0' <= c <= '9' }

  /** The characters `isspace` accepts in the "C" locale: space, \t, \n, \v, \f, \r. */
  predicate IsSpace(c: char) { c == ' ' || '\t' <= c <= '\r' }

  predicate AllDigits(s: string) { forall i :: 0 <= i < |s| ==> IsDigit(s[i]) }

  function DigitChar(d: nat): (c: char)
    requires d < 10
    ensures IsDigit(c)
  {
    (48 + d) as char
  }

  function DigitValue(c: char): (d: nat)
    requires IsDigit(c)
    ensures d < 10 && DigitChar(d) == c
  {
    (c as int) - 48
  }

  /** Shortest decimal spelling of a natural number, most significant digit first. */
  function NatToString(n: nat): (r: string)
    ensures |r| > 0 && AllDigits(r)
    ensures |r| > 1 ==> r[0] != '0'
    decreases n
  {
    if n < 10 then [DigitChar(n)] else NatToString(n / 10) + [DigitChar(n % 10)]
  }

  /** What `std::ostream << x` writes for an integer x. */
  function IntToString(x: int): (r: string)
    ensures |r| > 0
    ensures forall i :: 0 <= i < |r| ==> IsDigit(r[i]) || (i == 0 && r[i] == '-')
    ensures x >= 0 ==> AllDigits(r)
  {
    if x < 0 then "-" + NatToString(-x) else NatToString(x)
  }

  /** Value of a run of decimal digits. */
  function DigitsValue(s: string): nat
    requires AllDigits(s)
    decreases |s|
  {
    if |s| == 0 then 0 else DigitsValue(s[..|s| - 1]) * 10 + DigitValue(s[|s| - 1])
  }

  /** Length of the run of digits that starts `s`. */
  function DigitRun(s: string): (n: nat)
    ensures n <= |s| && AllDigits(s[..n])
    ensures n < |s| ==> !IsDigit(s[n])
    decreases |s|
  {
    if |s| > 0 && IsDigit(s[0]) then 1 + DigitRun(s[1..]) else 0
  }

  /** `s` without its leading white space. */
  function SkipSpaces(s: string): (r: string)
    ensures |r| <= |s| && r == s[|s| - |r|..]
    ensures |r| > 0 ==> !IsSpace(r[0])
    ensures forall i :: 0 <= i < |s| - |r| ==> IsSpace(s[i])
    decreases |s|
  {
    if |s| > 0 && IsSpace(s[0]) then SkipSpaces(s[1..]) else s
  }

  /** The two ways `std::stol` fails: `invalid_argument` and `out_of_range`. */
  datatype StolError = NoConversion | OutOfRange

  /**
   * `std::stol(s)`: leading white space is skipped, one optional sign is
   * read, then the longest run of decimal digits; text after the digits is
   * ignored.  No digit at all is `invalid_argument`; a value outside the
   * 64-bit `long` is `out_of_range`.
   */
  function Stol(s: string): (r: Result<int64, StolError>)
    ensures r.Failure? && r.error == NoConversion <==> DigitRun(SignStripped(SkipSpaces(s)).1) == 0
  {
    var (neg, u) := SignStripped(SkipSpaces(s));
    var n := DigitRun(u);
    if n == 0 then Failure(NoConversion)
    else
      var mag := DigitsValue(u[..n]);
      var v: int := if neg then 0 - (mag as int) else mag as int;
      if IsInt64(v) then Success(v) else Failure(OutOfRange)
  }

  /** An optional leading '+' or '-': whether it was '-', and the rest. */
  function SignStripped(t: string): (r: (bool, string))
    ensures r.1 == t || (|t| > 0 && r.1 == t[1..] && (t[0] == '+' || t[0] == '-'))
    ensures r.0 ==> |t| > 0 && t[0] == '-'
  {
    if |t| > 0 && (t[0] == '-' || t[0] == '+') then (t[0] == '-', t[1..]) else (false, t)
  }

  lemma {:induction false} DigitsValueOfNatToString(n: nat)
    ensures DigitsValue(NatToString(n)) == n
    decreases n
  {
    var s := NatToString(n);
    if n >= 10 {
      DigitsValueOfNatToString(n / 10);
      assert s[..|s| - 1] == NatToString(n / 10);
    }
  }

  lemma {:induction false} DigitRunOfDigits(d: string, rest: string)
    requires AllDigits(d)
    requires rest == [] || !IsDigit(rest[0])
    ensures DigitRun(d + rest) == |d|
    decreases |d|
  {
    if |d| > 0 {
      assert (d + rest)[1..] == d[1..] + rest;
      DigitRunOfDigits(d[1..], rest);
    }
  }

  /** `std::stol` reads back a printed natural number followed by text that does not continue its digits. */
  lemma StolOfNatText(m: nat, rest: string)
    requires m < TWO_63
    requires rest == [] || !IsDigit(rest[0])
    ensures Stol(NatToString(m) + rest) == Success(m)
  {
    var d := NatToString(m);
    var u := d + rest;
    assert u[0] == d[0];
    assert SkipSpaces(u) == u;
    assert SignStripped(u) == (false, u);
    DigitRunOfDigits(d, rest);
    assert u[..|d|] == d;
    DigitsValueOfNatToString(m);
  }

  /** The same after a '-': the number is read negated. */
  lemma StolOfNegatedNatText(m: nat, rest: string)
    requires 0 < m <= TWO_63
    requires rest == [] || !IsDigit(rest[0])
    ensures Stol("-" + (NatToString(m) + rest)) == Success(0 - m)
  {
    var d := NatToString(m);
    var u := d + rest;
    var s := "-" + u;
    assert SkipSpaces(s) == s;
    assert SignStripped(s) == (true, u);
    DigitRunOfDigits(d, rest);
    assert u[..|d|] == d;
    DigitsValueOfNatToString(m);
  }

  /**
   * Reading back what `<<` wrote: `std::stol` returns the integer, whatever
   * follows the digits, as long as it does not start with a digit.
   */
  lemma StolOfIntToString(x: int64, rest: string)
    requires rest == [] || !IsDigit(rest[0])
    ensures Stol(IntToString(x) + rest) == Success(x)
  {
    var m: nat := if x < 0 then -(x as int) else x as int;
    var text := IntToString(x) + rest;
    if x < 0 {
      assert text == "-" + (NatToString(m) + rest);
      StolOfNegatedNatText(m, rest);
    } else {
      assert text == NatToString(m) + rest;
      StolOfNatText(m, rest);
    }
  }

  /** A character that is neither a digit nor '-' never appears in a printed integer. */
  lemma IntToStringAvoids(x: int, c: char)
    requires !IsDigit(c) && c != '-'
    ensures c !in IntToString(x)
  {
  }
}
