/**
 * Decimal conversion as the 64-bit Go runtime does it: `strconv.Atoi` (optional sign,
 * at least one ASCII digit, value inside the int64 range) and `strconv.Itoa`.
 */
module Strconv {
  import opened Wrappers

  const MinInt64: int := -0x8000_0000_0000_0000
  const MaxInt64: int :=  0x7FFF_FFFF_FFFF_FFFF

  predicate IsDigit(c: char) { '0' <= c <= '9' }

  predicate AllDigits(s: string) { forall i :: 0 <= i < |s| ==> IsDigit(s[i]) }

  function DigitValue(c: char): (d: nat)
    requires IsDigit(c)
    ensures d < 10
  {
    c as int - '0' as int
  }

  function DigitChar(d: nat): (c: char)
    requires d < 10
    ensures IsDigit(c) && DigitValue(c) == d
  {
    ('0' as int + d) as char
  }

  /** The value of a string of decimal digits, most significant first. */
  function DigitsValue(s: string): nat
    requires AllDigits(s)
  {
    if s == [] then 0 else DigitsValue(s[..|s| - 1]) * 10 + DigitValue(s[|s| - 1])
  }

  /** The shortest decimal rendering of `n` (no leading zeros). */
  function NatDigits(n: nat): (s: string)
    ensures |s| > 0 && AllDigits(s)
    ensures n > 0 ==> s[0] != '0'
  {
    if n < 10 then [DigitChar(n)] else NatDigits(n / 10) + [DigitChar(n % 10)]
  }

  /** strconv.Itoa: a '-' exactly for a negative number, then decimal digits. */
  function Itoa(n: int): (s: string)
    ensures |s| > 0 && (s[0] == '-' <==> n < 0)
    ensures AllDigits(if n < 0 then s[1..] else s)
  {
    if n < 0 then "-" + NatDigits(-n) else NatDigits(n)
  }

  /** strconv.Atoi: `None` stands for the returned syntax or range error. */
  function Atoi(s: string): (r: Option<int>)
    ensures r.Some? ==> MinInt64 <= r.value <= MaxInt64
    ensures r.Some? ==> s != "" && s != "-" && s != "+"
  {
    if |s| == 0 then None
    else
      var digits := if s[0] == '-' || s[0] == '+' then s[1..] else s;
      if |digits| == 0 || !AllDigits(digits) then None
      else
        var v: int := if s[0] == '-' then 0 - DigitsValue(digits) as int else DigitsValue(digits);
        if MinInt64 <= v <= MaxInt64 then Some(v) else None
  }

  /** Reading back the rendering of a natural number gives that number. */
  lemma {:induction false} DigitsRoundTrip(n: nat)
    ensures DigitsValue(NatDigits(n)) == n
  {
    if n >= 10 {
      var s := NatDigits(n / 10) + [DigitChar(n % 10)];
      assert s[..|s| - 1] == NatDigits(n / 10);
      DigitsRoundTrip(n / 10);
    }
  }

  /** Atoi inverts Itoa on every 64-bit integer. */
  lemma AtoiItoa(n: int)
    requires MinInt64 <= n <= MaxInt64
    ensures Atoi(Itoa(n)) == Some(n)
  {
    var s := Itoa(n);
    if n < 0 {
      var d := NatDigits(-n);
      assert s == "-" + d;
      assert s[0] == '-' && s[1..] == d;
      DigitsRoundTrip(-n);
    } else {
      var d := NatDigits(n);
      assert s == d && IsDigit(s[0]);
      DigitsRoundTrip(n);
    }
  }

  /** Distinct integers render as distinct strings (so distinct statuses get distinct labels). */
  lemma ItoaInjective(a: int, b: int)
    requires Itoa(a) == Itoa(b)
    ensures a == b
  {
    assert Itoa(a)[0] == Itoa(b)[0];
    assert a < 0 <==> b < 0;
    if a < 0 {
      assert Itoa(a)[1..] == NatDigits(-a);
      assert Itoa(b)[1..] == NatDigits(-b);
      DigitsRoundTrip(-a);
      DigitsRoundTrip(-b);
    } else {
      DigitsRoundTrip(a);
      DigitsRoundTrip(b);
    }
  }
}
