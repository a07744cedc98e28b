/** Decimal text: padded and plain numbers, and reading them back as Go does. */
module Text {
  import opened Int64

  /** A parser's result: a value, or a syntax or range error. */
  datatype Parse<+T> = Got(value: T) | Bad

  predicate IsDigit(c: char) { '0' <= c <= '9' }

  predicate AllDigits(s: string) { forall i :: 0 <= i < |s| ==> IsDigit(s[i]) }

  function Digit(d: int): (c: char)
    requires 0 <= d < 10
    ensures IsDigit(c) && DigitValue(c) == d
  {
    ('0' as int + d) as char
  }

  function DigitValue(c: char): (d: nat)
    requires IsDigit(c)
    ensures d < 10
  {
    c as int - '0' as int
  }

  function Value(s: string): nat
    requires AllDigits(s)
  {
    if s == [] then 0 else Value(s[..|s| - 1]) * 10 + DigitValue(s[|s| - 1])
  }

  function Pow10(k: nat): (p: nat)
    ensures p >= 1
  {
    if k == 0 then 1 else 10 * Pow10(k - 1)
  }

  /** The last `w` decimal digits of `n`. */
  function Pad(n: nat, w: nat): (s: string)
    ensures |s| == w && AllDigits(s)
  {
    if w == 0 then "" else Pad(n / 10, w - 1) + [Digit(n % 10)]
  }

  lemma ValueSnoc(s: string, d: nat)
    requires AllDigits(s) && d < 10
    ensures AllDigits(s + [Digit(d)]) && Value(s + [Digit(d)]) == Value(s) * 10 + d
  {
    assert (s + [Digit(d)])[..|s|] == s;
  }

  lemma {:induction false} PadValue(n: nat, w: nat)
    requires n < Pow10(w)
    ensures Value(Pad(n, w)) == n
  {
    if w > 0 {
      PadValue(n / 10, w - 1);
      ValueSnoc(Pad(n / 10, w - 1), n % 10);
    }
  }

  /** strconv.FormatInt(n, 10). */
  function Decimal(n: int): string
    decreases if n < 0 then 1 - n else n
  {
    if n < 0 then "-" + Decimal(-n)
    else (if n < 10 then "" else Decimal(n / 10)) + [Digit(n % 10)]
  }

  lemma {:induction false} DecimalValue(n: nat)
    ensures Decimal(n) != [] && AllDigits(Decimal(n)) && Value(Decimal(n)) == n
  {
    if n >= 10 {
      DecimalValue(n / 10);
    }
    ValueSnoc(if n < 10 then "" else Decimal(n / 10), n % 10);
  }

  lemma {:induction false} DecimalLength(n: nat, w: nat)
    requires w >= 1 && n >= Pow10(w)
    ensures |Decimal(n)| > w
  {
    if w > 1 {
      DecimalLength(n / 10, w - 1);
    }
  }

  /** strconv.ParseInt(s, 10, 64): an optional sign, at least one digit, and the range of int64. */
  function ParseInt(s: string): Parse<I64> {
    var signed := s != [] && (s[0] == '-' || s[0] == '+');
    var digits := if signed then s[1..] else s;
    if digits == [] || !AllDigits(digits) then Bad
    else
      var v := if s[0] == '-' then 0 - Value(digits) else Value(digits);
      if InRange(v) then Got(v) else Bad
  }

  lemma ParseDecimal(n: I64)
    ensures ParseInt(Decimal(n)) == Got(n)
  {
    if n < 0 {
      DecimalValue(0 - n);
      var s, d := Decimal(n), Decimal(0 - n);
      assert s[0] == '-' && s[1..] == d;
      assert ParseInt(s) == Got(n);
    } else {
      DecimalValue(n);
      assert IsDigit(Decimal(n)[0]);
    }
  }

  /** A number of two digits, zero-padded, and of four. */
  function Two(n: nat): (s: string)
    requires n < 100
    ensures |s| == 2 && AllDigits(s)
  {
    [Digit(n / 10), Digit(n % 10)]
  }

  function Four(n: nat): (s: string)
    requires n < 10_000
    ensures |s| == 4 && AllDigits(s)
  {
    Two(n / 100) + Two(n % 100)
  }
}
