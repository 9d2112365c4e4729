/**
  Decimal text of integers, as `strconv.Itoa` produces it: an optional '-'
  followed by the decimal digits of the magnitude, with no leading zero.
  The numeric fields of a payload are written with it.
*/
module Decimal {
  import opened Wrappers
  import opened Bytes

  const ZERO: byte := 0x30
  const MINUS: byte := 0x2d

  predicate IsDigit(b: byte)
  {
    ZERO <= b <= ZERO + 9
  }

  predicate AllDigits(s: seq<byte>)
  {
    forall k :: 0 <= k < |s| ==> IsDigit(s[k])
  }

  /** The decimal digits of n, most significant first; "0" for zero. */
  function Digits(n: nat): (r: seq<byte>)
    ensures |r| >= 1 && AllDigits(r)
    ensures r[0] == ZERO <==> n == 0
    ensures r[0] == ZERO ==> |r| == 1
  {
    if n < 10 then [ZERO + n] else Digits(n / 10) + [ZERO + n % 10]
  }

  /** The number a string of digits stands for. */
  function DigitsValue(s: seq<byte>): nat
    requires AllDigits(s)
  {
    if s == [] then 0 else DigitsValue(s[..|s| - 1]) * 10 + (s[|s| - 1] - ZERO)
  }

  /** Reading the digits back gives the number. */
  lemma {:induction false} DigitsInverse(n: nat)
    ensures DigitsValue(Digits(n)) == n
  {
    if n >= 10 {
      var s := Digits(n);
      assert s[..|s| - 1] == Digits(n / 10);
      DigitsInverse(n / 10);
    }
  }

  /** `strconv.Itoa(n)`. */
  function Itoa(n: int): (r: seq<byte>)
    ensures |r| >= 1 && NulFree(r)
    ensures r[0] == MINUS <==> n < 0
    ensures n < 0 ==> |r| >= 2 && AllDigits(r[1..]) && r[1] != ZERO
    ensures n >= 0 ==> AllDigits(r) && (r[0] == ZERO <==> n == 0) && (r[0] == ZERO ==> |r| == 1)
  {
    if n < 0 then [MINUS] + Digits(-n) else Digits(n)
  }

  /**
    A parser for the text Itoa writes: an optional '-' and at least one digit.
    Anything else is rejected.
  */
  function ParseInt(s: seq<byte>): Option<int>
  {
    if |s| >= 2 && s[0] == MINUS && AllDigits(s[1..]) then Some(0 - DigitsValue(s[1..]) as int)
    else if |s| >= 1 && AllDigits(s) then Some(DigitsValue(s))
    else None
  }

  /** Parsing the text of n gives n back. */
  lemma ItoaInverse(n: int)
    ensures ParseInt(Itoa(n)) == Some(n)
  {
    if n < 0 {
      NegativeInverse(n);
    } else {
      DigitsInverse(n);
      DigitsNotSigned(n);
    }
  }

  lemma NegativeInverse(n: int)
    requires n < 0
    ensures ParseInt(Itoa(n)) == Some(n)
  {
    var d := Digits(-n);
    var s := [MINUS] + d;
    assert s[1..] == d;
    DigitsInverse(-n);
    assert ParseInt(s) == Some(0 - DigitsValue(d));
  }

  /** Decimal digits never start with a minus sign. */
  lemma DigitsNotSigned(n: nat)
    ensures Digits(n)[0] != MINUS
  {
  }

  /** Different numbers have different texts. */
  lemma ItoaInjective(a: int, b: int)
    requires Itoa(a) == Itoa(b)
    ensures a == b
  {
    ItoaInverse(a);
    ItoaInverse(b);
  }
}
