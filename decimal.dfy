/** Decimal text for unsigned integers, as Go's `strconv.FormatUint(n, 10)` writes it and
    `strconv.ParseUint(s, 10, 32)` reads it. */
module Decimal {
  import opened Base

  /** The largest value `ParseUint(s, 10, 32)` accepts. */
  const MaxUint32: nat := 0xFFFF_FFFF

  predicate IsDigit(c: char) {
    '0' <= c <= '9'
  }

  predicate AllDigits(s: string) {
    forall i :: 0 <= i < |s| ==> IsDigit(s[i])
  }

  function DigitValue(c: char): nat
    requires IsDigit(c)
  {
    c as int - '0' as int
  }

  function DigitChar(d: nat): (c: char)
    requires d < 10
    ensures IsDigit(c) && DigitValue(c) == d
  {
    ('0' as int + d) as char
  }

  /** The number denoted by the digits `s` written after the number `acc`. */
  function Accumulate(acc: nat, s: string): nat
    requires AllDigits(s)
    decreases |s|
  {
    if s == [] then acc else Accumulate(acc * 10 + DigitValue(s[0]), s[1..])
  }

  /** The number a string of decimal digits denotes. */
  function Value(s: string): nat
    requires AllDigits(s)
  {
    Accumulate(0, s)
  }

  /** `strconv.FormatUint(n, 10)`: the decimal digits of `n`, with no leading zero. */
  function FormatUint(n: nat): (s: string)
    ensures s != [] && AllDigits(s)
    ensures |s| > 1 ==> s[0] != '0'
  {
    if n < 10 then [DigitChar(n)] else FormatUint(n / 10) + [DigitChar(n % 10)]
  }

  /** The digit loop of `strconv.ParseUint` with bit size 32: it stops at the first character
      that is not a digit, and at the first step whose value would exceed 2^32 - 1. */
  function ParseDigits(s: string, acc: nat): (r: Option<nat>)
    requires acc <= MaxUint32
    decreases |s|
    ensures r.Some? <==> AllDigits(s) && Accumulate(acc, s) <= MaxUint32
    ensures r.Some? ==> r.value == Accumulate(acc, s)
  {
    if s == [] then Some(acc)
    else if !IsDigit(s[0]) then None
    else
      var next := acc * 10 + DigitValue(s[0]);
      if next > MaxUint32 then
        (if AllDigits(s[1..]) then AccumulateGrows(next, s[1..]); None else None)
      else ParseDigits(s[1..], next)
  }

  /** `strconv.ParseUint(s, 10, 32)`; its syntax and range errors are both `None`. No sign,
      no underscore and no base prefix is accepted; leading zeros are. */
  function ParseUint32(s: string): (r: Option<nat>)
    ensures r.Some? <==> s != [] && AllDigits(s) && Value(s) <= MaxUint32
    ensures r.Some? ==> r.value == Value(s)
  {
    if s == [] then None else ParseDigits(s, 0)
  }

  // ---------------------------------------------------------------------------------------

  lemma {:induction false} AccumulateGrows(acc: nat, s: string)
    requires AllDigits(s)
    ensures Accumulate(acc, s) >= acc
    decreases |s|
  {
    if s != [] {
      AccumulateGrows(acc * 10 + DigitValue(s[0]), s[1..]);
    }
  }

  lemma {:induction false} AccumulateSnoc(acc: nat, s: string, c: char)
    requires AllDigits(s) && IsDigit(c)
    ensures AllDigits(s + [c])
    ensures Accumulate(acc, s + [c]) == Accumulate(acc, s) * 10 + DigitValue(c)
    decreases |s|
  {
    if s == [] {
      assert s + [c] == [c];
    } else {
      assert (s + [c])[0] == s[0];
      assert (s + [c])[1..] == s[1..] + [c];
      AccumulateSnoc(acc * 10 + DigitValue(s[0]), s[1..], c);
    }
  }

  /** Reading back the decimal text of `n` gives `n`. */
  lemma {:induction false} ValueOfFormat(n: nat)
    ensures Value(FormatUint(n)) == n
  {
    if n >= 10 {
      var high, low := FormatUint(n / 10), DigitChar(n % 10);
      assert FormatUint(n) == high + [low];
      ValueOfFormat(n / 10);
      AccumulateSnoc(0, high, low);
      assert Value(high + [low]) == (n / 10) * 10 + n % 10;
    } else {
      var d := [DigitChar(n)];
      assert Accumulate(0, d) == Accumulate(n, d[1..]);
    }
  }

  /** Different numbers have different decimal texts. */
  lemma FormatUintInjective(a: nat, b: nat)
    requires FormatUint(a) == FormatUint(b)
    ensures a == b
  {
    ValueOfFormat(a);
    ValueOfFormat(b);
  }

  /** `ParseUint(FormatUint(n, 10), 10, 32)` gives back every 32-bit value. */
  lemma ParseFormatRoundTrip(n: nat)
    requires n <= MaxUint32
    ensures ParseUint32(FormatUint(n)) == Some(n)
  {
    ValueOfFormat(n);
  }
}
