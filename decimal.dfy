/** Python's rendering of an integer as text (`str(n)`, `f"{n}"`): an optional
    minus sign followed by decimal digits with no leading zero. `Parse` is the
    reading back, used to state that the rendering loses nothing. */
module Decimal {
  import opened Py

  predicate IsDigit(c: char) {
    '0' <= c <= '9'
  }

  predicate AllDigits(s: string) {
    forall i :: 0 <= i < |s| ==> IsDigit(s[i])
  }

  function DigitChar(d: nat): (c: char)
    requires d < 10
    ensures IsDigit(c) && c as int - '0' as int == d
  {
    ('0' as int + d) as char
  }

  function DigitValue(c: char): (d: nat)
    requires IsDigit(c)
    ensures d < 10 && DigitChar(d) == c
  {
    c as int - '0' as int
  }

  /** The decimal digits of `n`, most significant first, without leading zeros. */
  function FromNat(n: nat): (s: string)
    ensures |s| >= 1 && AllDigits(s)
    ensures s[0] == '0' ==> s == "0"
    decreases n
  {
    if n < 10 then [DigitChar(n)] else FromNat(n / 10) + [DigitChar(n % 10)]
  }

  /** `str(n)` for a Python `int`. */
  function FromInt(n: int): (s: string)
    ensures |s| >= 1
    ensures s[0] == '-' <==> n < 0
    ensures n >= 0 ==> AllDigits(s) && (s[0] == '0' ==> s == "0")
    ensures n < 0 ==> |s| >= 2 && AllDigits(s[1..]) && s[1] != '0'
  {
    if n < 0 then "-" + FromNat(-n) else FromNat(n)
  }

  /** The number a non-empty string of digits denotes. */
  function DigitsValue(s: string): nat
    requires AllDigits(s)
    decreases |s|
  {
    if s == [] then 0 else DigitsValue(s[..|s| - 1]) * 10 + DigitValue(s[|s| - 1])
  }

  /** Reads back an optional minus sign followed by at least one digit. */
  function Parse(s: string): (r: Option<int>)
    ensures r.Some? ==> |s| >= 1
  {
    if |s| >= 2 && s[0] == '-' && AllDigits(s[1..]) then Some(0 - DigitsValue(s[1..]) as int)
    else if |s| >= 1 && AllDigits(s) then Some(DigitsValue(s))
    else None
  }

  lemma {:induction false} DigitsOfFromNat(n: nat)
    ensures DigitsValue(FromNat(n)) == n
    decreases n
  {
    if n >= 10 {
      DigitsOfFromNat(n / 10);
      var s := FromNat(n / 10) + [DigitChar(n % 10)];
      assert s[..|s| - 1] == FromNat(n / 10);
    }
  }

  /** Rendering an integer and reading it back gives the integer: `FromInt` is injective,
      so distinct counts always produce distinct texts. */
  lemma ParseFromInt(n: int)
    ensures Parse(FromInt(n)) == Some(n)
  {
    if n < 0 {
      DigitsOfFromNat(-n);
      assert FromInt(n)[1..] == FromNat(-n);
    } else {
      DigitsOfFromNat(n);
    }
  }

  lemma FromIntInjective(m: int, n: int)
    requires FromInt(m) == FromInt(n)
    ensures m == n
  {
    ParseFromInt(m);
    ParseFromInt(n);
  }
}
