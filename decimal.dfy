/**
  Decimal text of unsigned integers, as produced by Rust's `to_string` on `u8`/`u32`
  and read back by `str::parse::<u8>()` / `str::parse::<u32>()`.

  The parser accepts an optional leading `+`, then one or more ASCII digits (leading
  zeros allowed), and fails on empty text, any other character, or a value above the
  type's maximum.
*/
module Decimal {
  import opened Wrappers

  const U8Max: nat := 0xFF
  const U32Max: nat := 0xFFFF_FFFF

  type U8 = x: nat | x <= U8Max
  type U32 = x: nat | x <= U32Max

  predicate IsDigit(c: char) { '0' <= c <= '9' }

  predicate AllDigits(s: string) { forall i :: 0 <= i < |s| ==> IsDigit(s[i]) }

  function DigitChar(d: nat): (c: char)
    requires d < 10
    ensures IsDigit(c) && c as int - '0' as int == d
  {
    ('0' as int + d) as char
  }

  /** The number a run of digits denotes, most significant digit first. */
  function DigitsValue(s: string): nat
    requires AllDigits(s)
  {
    if s == [] then 0 else DigitsValue(s[..|s| - 1]) * 10 + (s[|s| - 1] as int - '0' as int)
  }

  /** `n.to_string()`: shortest decimal text, no sign, no leading zero. */
  function ToDecimal(n: nat): (s: string)
    ensures |s| >= 1 && AllDigits(s)
    ensures DigitsValue(s) == n
    ensures |s| > 1 ==> s[0] != '0'
  {
    if n < 10 then [DigitChar(n)]
    else
      var prefix := ToDecimal(n / 10);
      var s := prefix + [DigitChar(n % 10)];
      assert s[..|s| - 1] == prefix;
      s
  }

  /** The digits after the optional `+` sign. */
  function Unsigned(s: string): string
  {
    if |s| > 0 && s[0] == '+' then s[1..] else s
  }

  /** `s.parse::<T>()` for an unsigned integer type whose largest value is `max`. */
  function ParseUnsigned(s: string, max: nat): (r: Option<nat>)
    ensures r.Some? ==> r.value <= max
  {
    var digits := Unsigned(s);
    if digits == [] || !AllDigits(digits) then None
    else if DigitsValue(digits) > max then None
    else Some(DigitsValue(digits))
  }

  /** `'0'` repeated `z` times. */
  function Zeros(z: nat): (s: string)
    ensures |s| == z && forall i :: 0 <= i < z ==> s[i] == '0'
  {
    seq(z, _ => '0')
  }

  /** `s` is a spelling of `n` the parser accepts: an optional `+`, any leading zeros, then `n.to_string()`. */
  ghost predicate Spells(s: string, n: nat)
  {
    exists z: nat :: s == Zeros(z) + ToDecimal(n) || s == "+" + Zeros(z) + ToDecimal(n)
  }

  /** Leading zeros change neither digit-ness nor value. */
  lemma {:induction false} LeadingZeros(z: nat, d: string)
    requires AllDigits(d)
    ensures AllDigits(Zeros(z) + d) && DigitsValue(Zeros(z) + d) == DigitsValue(d)
    decreases |d|, z
  {
    var t := Zeros(z) + d;
    if d == [] {
      assert t == Zeros(z);
      if z > 0 {
        assert t[..|t| - 1] == Zeros(z - 1) + [];
        LeadingZeros(z - 1, []);
      }
    } else {
      assert t[..|t| - 1] == Zeros(z) + d[..|d| - 1];
      assert t[|t| - 1] == d[|d| - 1];
      LeadingZeros(z, d[..|d| - 1]);
    }
  }

  /** Digits without a leading zero are the decimal text of their value, which is positive. */
  lemma {:induction false} Canonical(d: string)
    requires AllDigits(d) && |d| >= 1 && d[0] != '0'
    ensures DigitsValue(d) > 0 && d == ToDecimal(DigitsValue(d))
    decreases |d|
  {
    var init := d[..|d| - 1];
    var c := d[|d| - 1] as int - '0' as int;
    if |d| == 1 {
      assert init == [];
    } else {
      assert init[0] == d[0];
      Canonical(init);
      var v := DigitsValue(d);
      assert v / 10 == DigitsValue(init) && v % 10 == c;
      assert ToDecimal(v) == ToDecimal(v / 10) + [DigitChar(v % 10)];
      assert d == init + [d[|d| - 1]];
    }
  }

  /** Any non-empty run of digits is some leading zeros followed by the decimal text of its value. */
  lemma {:induction false} StripZeros(d: string) returns (z: nat)
    requires AllDigits(d) && |d| >= 1
    ensures d == Zeros(z) + ToDecimal(DigitsValue(d))
    decreases |d|
  {
    if d[0] != '0' {
      Canonical(d);
      z := 0;
      assert Zeros(0) + d == d;
    } else if |d| == 1 {
      assert d[..0] == [];
      assert d == ToDecimal(0);
      z := 0;
      assert Zeros(0) + d == d;
    } else {
      var rest := d[1..];
      var z' := StripZeros(rest);
      assert d == Zeros(1) + rest;
      LeadingZeros(1, rest);
      z := z' + 1;
      assert Zeros(z) == Zeros(1) + Zeros(z');
    }
  }

  /** For one value: the parser yields `n` exactly when `n` is in range and `s` spells it. */
  lemma ParseUnsignedSpells(s: string, max: nat, n: nat)
    ensures ParseUnsigned(s, max) == Some(n) <==> n <= max && Spells(s, n)
  {
    var digits := Unsigned(s);
    if ParseUnsigned(s, max) == Some(n) {
      var z := StripZeros(digits);
      if |s| > 0 && s[0] == '+' {
        assert s == "+" + digits;
      }
    }
    if n <= max && Spells(s, n) {
      var t := ToDecimal(n);
      var z: nat :| s == Zeros(z) + t || s == "+" + Zeros(z) + t;
      LeadingZeros(z, t);
      if s == Zeros(z) + t {
        assert IsDigit(s[0]);
        assert digits == Zeros(z) + t;
      } else {
        assert digits == Zeros(z) + t;
      }
    }
  }

  /**
    The text `parse` accepts: it yields `n` exactly when `n <= max` and the text is
    `n.to_string()` behind an optional `+` and any number of leading zeros.
  */
  lemma ParseUnsignedAccepts(s: string, max: nat)
    ensures forall n: nat :: ParseUnsigned(s, max) == Some(n) <==> n <= max && Spells(s, n)
  {
    forall n: nat ensures ParseUnsigned(s, max) == Some(n) <==> n <= max && Spells(s, n) {
      ParseUnsignedSpells(s, max, n);
    }
  }

  function ParseU8(s: string): (r: Option<U8>)
    ensures r.Some? <==> ParseUnsigned(s, U8Max).Some?
    ensures r.Some? ==> r.value == ParseUnsigned(s, U8Max).value
    ensures r.Some? ==> Spells(s, r.value)
    ensures forall n: nat :: n <= U8Max && Spells(s, n) ==> r == Some(n)
  {
    ParseUnsignedAccepts(s, U8Max);
    match ParseUnsigned(s, U8Max)
    case None => None
    case Some(v) => Some(v)
  }

  function ParseU32(s: string): (r: Option<U32>)
    ensures r.Some? <==> ParseUnsigned(s, U32Max).Some?
    ensures r.Some? ==> r.value == ParseUnsigned(s, U32Max).value
    ensures r.Some? ==> Spells(s, r.value)
    ensures forall n: nat :: n <= U32Max && Spells(s, n) ==> r == Some(n)
  {
    ParseUnsignedAccepts(s, U32Max);
    match ParseUnsigned(s, U32Max)
    case None => None
    case Some(v) => Some(v)
  }

  /** Decimal text of any value in range parses back to that value. */
  lemma ParseToDecimal(n: nat, max: nat)
    requires n <= max
    ensures ParseUnsigned(ToDecimal(n), max) == Some(n)
  {
    assert Unsigned(ToDecimal(n)) == ToDecimal(n) by {
      assert IsDigit(ToDecimal(n)[0]);
    }
  }

  /** Decimal text of a value above the maximum is rejected (overflow). */
  lemma ParseToDecimalOutOfRange(n: nat, max: nat)
    requires n > max
    ensures ParseUnsigned(ToDecimal(n), max) == None
  {
    assert Unsigned(ToDecimal(n)) == ToDecimal(n) by {
      assert IsDigit(ToDecimal(n)[0]);
    }
  }

  lemma U8RoundTrip(n: U8)
    ensures ParseU8(ToDecimal(n)) == Some(n)
  {
    ParseToDecimal(n, U8Max);
  }

  lemma U32RoundTrip(n: U32)
    ensures ParseU32(ToDecimal(n)) == Some(n)
  {
    ParseToDecimal(n, U32Max);
  }

  /** The one-digit-longer text of 256 overflows a `u8`; 2^32 overflows a `u32`. */
  lemma OutOfRangeExamples()
    ensures ParseU8(ToDecimal(U8Max + 1)) == None
    ensures ParseU32(ToDecimal(U32Max + 1)) == None
  {
    ParseToDecimalOutOfRange(U8Max + 1, U8Max);
    ParseToDecimalOutOfRange(U32Max + 1, U32Max);
  }

  /** Text that is empty, a bare sign, or holds a non-digit never parses. */
  lemma ParseRejectsNonNumerals(s: string, max: nat)
    requires Unsigned(s) == [] || exists i :: 0 <= i < |Unsigned(s)| && !IsDigit(Unsigned(s)[i])
    ensures ParseUnsigned(s, max) == None
  {
  }

  /** A negative sign is not accepted for unsigned types; a leading `+` and leading zeros are. */
  lemma SignExamples()
    ensures ParseU8("-1") == None
    ensures ParseU8("+7") == Some(7)
    ensures ParseU8("007") == Some(7)
  {
    assert !IsDigit("-1"[0]);
    assert Unsigned("+7") == "7";
    assert "7"[..0] == [];
    assert DigitsValue("7") == 7;
    assert "007"[..2] == "00" && "00"[..1] == "0" && "0"[..0] == [];
    assert DigitsValue("007") == 7;
  }
}
