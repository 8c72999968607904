/**
 * Decimal text for Java's 32-bit int: the rendering of "%d" and Integer.parseInt in radix 10.
 */
module Decimal {
  import opened Wrappers

  const MIN_INT: int := -0x8000_0000
  const MAX_INT: int := 0x7fff_ffff

  /** Java's int. */
  type Int32 = x: int | MIN_INT <= x <= MAX_INT

  predicate IsDigit(c: char) {
    '0' <= c <= '9'
  }

  predicate AllDigits(s: string) {
    forall k :: 0 <= k < |s| ==> IsDigit(s[k])
  }

  function DigitChar(d: nat): (c: char)
    requires d < 10
    ensures IsDigit(c)
  {
    ('0' as int + d) as char
  }

  function DigitValue(c: char): (d: nat)
    requires IsDigit(c)
    ensures d < 10 && DigitChar(d) == c
  {
    c as int - '0' as int
  }

  /** The decimal digits of n, most significant first, without leading zeros. */
  function NatToString(n: nat): (s: string)
    ensures |s| >= 1 && AllDigits(s)
    ensures n == 0 <==> s == "0"
    ensures s[0] == '0' ==> n == 0
    decreases n
  {
    if n < 10 then [DigitChar(n)] else NatToString(n / 10) + [DigitChar(n % 10)]
  }

  /** The value of a string of decimal digits (leading zeros allowed). */
  function ParseNat(s: string): nat
    requires AllDigits(s)
  {
    if s == [] then 0 else ParseNat(s[..|s| - 1]) * 10 + DigitValue(s[|s| - 1])
  }

  /** The "%d" rendering of an int: a minus sign for negative values, then the digits. */
  function IntToString(i: int): string {
    if i < 0 then "-" + NatToString(-i) else NatToString(i)
  }

  /**
   * Integer.parseInt(s) in radix 10: an optional sign, then at least one digit, and a value
   * that fits in 32 bits; None stands for NumberFormatException.
   */
  function ParseInt(s: string): (r: Option<Int32>)
    ensures r.Some? ==> |s| >= 1
    ensures r.Some? && IsDigit(s[0]) ==> AllDigits(s) && r.value == ParseNat(s)
    ensures r.Some? && !IsDigit(s[0]) ==>
              (s[0] == '-' || s[0] == '+') && |s| >= 2 && AllDigits(s[1..]) &&
              r.value == (if s[0] == '-' then -(ParseNat(s[1..]) as int) else ParseNat(s[1..]))
    ensures |s| >= 1 && AllDigits(s) && ParseNat(s) <= MAX_INT ==> r == Some(ParseNat(s))
    ensures |s| >= 2 && (s[0] == '-' || s[0] == '+') && AllDigits(s[1..]) &&
            MIN_INT <= (if s[0] == '-' then -(ParseNat(s[1..]) as int) else ParseNat(s[1..])) <= MAX_INT ==>
              r.Some?
  {
    if |s| == 0 then None
    else if s[0] == '-' || s[0] == '+' then
      if |s| == 1 || !AllDigits(s[1..]) then None
      else
        var v := if s[0] == '-' then -(ParseNat(s[1..]) as int) else ParseNat(s[1..]);
        if MIN_INT <= v <= MAX_INT then Some(v) else None
    else if !AllDigits(s) || ParseNat(s) > MAX_INT then None
    else Some(ParseNat(s))
  }

  /** parseInt is more lenient than "%d": a plus sign, leading zeros and "-0" are accepted. */
  lemma ParseIntLenient()
    ensures ParseInt("+5") == Some(5)
    ensures ParseInt("007") == Some(7)
    ensures ParseInt("-0") == Some(0)
    ensures ParseInt("") == None && ParseInt("-") == None && ParseInt("1a") == None
  {
    assert AllDigits("5") && ParseNat("5") == 5;
    assert "+5"[1..] == "5";
    assert "007"[..2] == "00" && "00"[..1] == "0" && ParseNat("0") == 0 && ParseNat("00") == 0;
    assert "-0"[1..] == "0";
    assert !IsDigit("1a"[1]);
  }

  /** Digits with no leading zero, "0" itself excepted. */
  predicate CanonicalDigits(s: string) {
    |s| >= 1 && AllDigits(s) && (s[0] == '0' ==> s == "0")
  }

  /** The texts that "%d" produces for some int. */
  predicate CanonicalInt(s: string) {
    || (CanonicalDigits(s) && ParseNat(s) <= MAX_INT)
    || (|s| >= 2 && s[0] == '-' && CanonicalDigits(s[1..]) && s[1..] != "0" && ParseNat(s[1..]) <= -MIN_INT)
  }

  lemma {:induction false} ParseNatToString(n: nat)
    ensures ParseNat(NatToString(n)) == n
    decreases n
  {
    if n >= 10 {
      var s := NatToString(n);
      ParseNatToString(n / 10);
      assert s[..|s| - 1] == NatToString(n / 10);
    }
  }

  lemma {:induction false} ParseNatPositive(s: string)
    requires CanonicalDigits(s) && s != "0"
    ensures ParseNat(s) >= 1
    decreases |s|
  {
    if |s| > 1 {
      ParseNatPositive(s[..|s| - 1]);
    }
  }

  lemma {:induction false} NatToStringParse(s: string)
    requires CanonicalDigits(s)
    ensures NatToString(ParseNat(s)) == s
    decreases |s|
  {
    if |s| > 1 {
      var pre := s[..|s| - 1];
      ParseNatPositive(pre);
      NatToStringParse(pre);
      var n := ParseNat(s);
      assert n / 10 == ParseNat(pre) && n % 10 == DigitValue(s[|s| - 1]);
      assert s == pre + [s[|s| - 1]];
    }
  }

  /** Integer.parseInt reads back every "%d" rendering. */
  lemma ParseIntToString(i: Int32)
    ensures ParseInt(IntToString(i)) == Some(i)
  {
    var s := IntToString(i);
    if i < 0 {
      assert s[1..] == NatToString(-(i as int));
      ParseNatToString(-(i as int));
    } else {
      ParseNatToString(i);
    }
  }

  /** "%d" produces only canonical texts. */
  lemma IntToStringCanonical(i: Int32)
    ensures CanonicalInt(IntToString(i))
  {
    var s := IntToString(i);
    if i < 0 {
      assert s[1..] == NatToString(-(i as int));
      ParseNatToString(-(i as int));
    } else {
      ParseNatToString(i);
    }
  }

  /** A canonical text is parsed to the int whose rendering it is. */
  lemma CanonicalIntRoundTrip(s: string)
    requires CanonicalInt(s)
    ensures ParseInt(s).Some? && IntToString(ParseInt(s).value) == s
  {
    if CanonicalDigits(s) && ParseNat(s) <= MAX_INT {
      NatToStringParse(s);
    } else {
      NatToStringParse(s[1..]);
      ParseNatPositive(s[1..]);
      assert s == "-" + s[1..];
    }
  }
}
