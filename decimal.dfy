/**
 * Decimal text of a Swift `Int`, which is 64 bits wide on the app's targets:
 * the parse done by `Int(_:)` on the repeat-count field, and the rendering done
 * by string interpolation of an HTTP status code.
 */
module Decimal {
  import opened Common

  const INT_MIN: int := -0x8000_0000_0000_0000
  const INT_MAX: int := 0x7FFF_FFFF_FFFF_FFFF

  /** `Int(_:)` with radix 10 accepts the ASCII digits only. */
  predicate IsDigit(c: char) { '0' <= c <= '9' }

  predicate AllDigits(s: string) { forall i :: 0 <= i < |s| ==> IsDigit(s[i]) }

  function DigitChar(d: nat): (c: char)
    requires d < 10
    ensures IsDigit(c) && c as int - '0' as int == d
  {
    ('0' as int + d) as char
  }

  /** The value of a run of decimal digits, most significant digit first. */
  function DigitsValue(s: string): nat
    requires AllDigits(s)
  {
    if s == [] then 0 else DigitsValue(s[..|s| - 1]) * 10 + (s[|s| - 1] as int - '0' as int)
  }

  /** The shortest decimal numeral of `n`: never empty, digits only. */
  function NatToString(n: nat): (s: string)
    ensures |s| >= 1 && AllDigits(s)
    ensures n >= 10 ==> s[0] != '0'
  {
    if n < 10 then [DigitChar(n)] else NatToString(n / 10) + [DigitChar(n % 10)]
  }

  /** String interpolation `"\(i)"` of an `Int`: a minus sign for negatives, then the digits. */
  function IntToString(i: int): string
  {
    if i < 0 then "-" + NatToString(-i) else NatToString(i)
  }

  /**
   * `Int(_ text: String)`: an optional leading '+' or '-', then one or more
   * ASCII digits and nothing else; the value must fit in 64 bits, otherwise
   * the result is nil.
   */
  function ParseInt(s: string): (r: Option<int>)
    ensures r.Some? ==> INT_MIN <= r.value <= INT_MAX
    ensures r.Some? ==> |s| >= 1 && (IsDigit(s[0]) || s[0] == '+' || s[0] == '-')
  {
    if s == [] then None
    else
      var digits := if s[0] == '+' || s[0] == '-' then s[1..] else s;
      if digits == [] || !AllDigits(digits) then None
      else
        var v: int := if s[0] == '-' then -(DigitsValue(digits) as int) else DigitsValue(digits);
        if INT_MIN <= v <= INT_MAX then Some(v) else None
  }

  /** Reading back the numeral of `n` gives `n`. */
  lemma {:induction false} NatToStringValue(n: nat)
    ensures DigitsValue(NatToString(n)) == n
  {
    if n >= 10 {
      var prefix := NatToString(n / 10);
      NatToStringValue(n / 10);
      assert (prefix + [DigitChar(n % 10)])[..|prefix|] == prefix;
    }
  }

  /** Every 64-bit `Int` survives interpolation followed by `Int(_:)`. */
  lemma ParseIntRoundTrip(i: int)
    requires INT_MIN <= i <= INT_MAX
    ensures ParseInt(IntToString(i)) == Some(i)
  {
    if i < 0 {
      var digits := NatToString(-i);
      NatToStringValue(-i);
      var s := "-" + digits;
      assert s[0] == '-' && s[1..] == digits;
      assert DigitsValue(digits) == -i;
    } else {
      var digits := NatToString(i);
      NatToStringValue(i);
      assert IsDigit(digits[0]);
      assert DigitsValue(digits) == i;
    }
  }

  /**
   * One or more ASCII digits parse to their value, leading zeros included,
   * when it fits in 64 bits, and to nil otherwise.
   */
  lemma ParseIntOfDigits(digits: string)
    requires |digits| >= 1 && AllDigits(digits)
    ensures ParseInt(digits) == if DigitsValue(digits) <= INT_MAX then Some(DigitsValue(digits) as int) else None
  {
    assert IsDigit(digits[0]);
  }

  /**
   * A '+' or '-' followed by one or more ASCII digits parses to the signed
   * value when it fits in 64 bits, and to nil otherwise.
   */
  lemma ParseIntOfSignedDigits(sign: char, digits: string)
    requires sign == '+' || sign == '-'
    requires |digits| >= 1 && AllDigits(digits)
    ensures sign == '+' ==>
      ParseInt([sign] + digits) == if DigitsValue(digits) <= INT_MAX then Some(DigitsValue(digits) as int) else None
    ensures sign == '-' ==>
      ParseInt([sign] + digits) == if DigitsValue(digits) <= -INT_MIN then Some(-(DigitsValue(digits) as int)) else None
  {
    var s := [sign] + digits;
    assert s[1..] == digits;
    if sign == '+' {
      assert s != [] && s[0] == '+';
    } else {
      assert s != [] && s[0] == '-';
    }
  }

  /** Every string `Int(_:)` accepts is an optional sign followed by ASCII digits, read in base 10. */
  lemma ParseIntAcceptsSignedDigits(s: string)
    requires ParseInt(s).Some?
    ensures IsDigit(s[0]) ==> AllDigits(s) && ParseInt(s).value == DigitsValue(s)
    ensures s[0] == '+' ==> |s| >= 2 && AllDigits(s[1..]) && ParseInt(s).value == DigitsValue(s[1..])
    ensures s[0] == '-' ==> |s| >= 2 && AllDigits(s[1..]) && ParseInt(s).value == -(DigitsValue(s[1..]) as int)
  {
  }

  /** `Int(_:)` on a few texts a user may type into the repeat-count field. */
  lemma ParseIntExamples()
    ensures ParseInt("+3") == Some(3) && ParseInt("03") == Some(3) && ParseInt("-12") == Some(-12)
    ensures ParseInt("3a") == None && ParseInt("+") == None && ParseInt("") == None
  {
    ParseIntOfSignedDigits('+', "3");
    assert ['+'] + "3" == "+3";
    ParseIntOfDigits("03");
    ParseIntOfSignedDigits('-', "12");
    assert ['-'] + "12" == "-12";
    assert "3a"[1] == 'a' && !IsDigit("3a"[1]);
    if ParseInt("3a").Some? {
      ParseIntAcceptsSignedDigits("3a");
    }
  }
}
