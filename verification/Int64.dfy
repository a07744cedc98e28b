/** Go's `int64` arithmetic: values wrap modulo 2^64. */
module Int64 {

  const TWO_63: int := 0x8000_0000_0000_0000
  const TWO_64: int := 0x1_0000_0000_0000_0000

  predicate InRange(x: int) {
    -TWO_63 <= x < TWO_63
  }

  /** Sixty-four bits, two's complement. */
  lemma RangeIs(x: int)
    ensures InRange(x) <==> -9_223_372_036_854_775_808 <= x <= 9_223_372_036_854_775_807
    ensures TWO_64 == 2 * TWO_63
  {
  }

  type I64 = x: int | -TWO_63 <= x < TWO_63 witness 0

  /** The `int64` that a Go expression with exact value `x` evaluates to. */
  function Wrap(x: int): (r: I64)
    ensures InRange(x) ==> r == x
    ensures (x - r) % TWO_64 == 0
  {
    var m := x % TWO_64;
    if m < TWO_63 then m else m - TWO_64
  }

  /** Go's unary minus; the smallest value is its own negation. */
  function Negate(x: I64): (r: I64)
    ensures x != -TWO_63 ==> r == 0 - x
    ensures x == -TWO_63 ==> r == x
  {
    assert x != -TWO_63 ==> InRange(0 - x);
    Wrap(0 - x)
  }

  /** `Wrap` is the only value in range that is congruent to its argument. */
  lemma WrapUnique(x: int, y: int)
    requires (x - y) % TWO_64 == 0
    ensures Wrap(x) == Wrap(y)
  {
    var k := (x - y) / TWO_64;
    assert x == y + k * TWO_64;
    ModShift(y, k);
  }

  lemma ModShift(y: int, k: int)
    ensures (y + k * TWO_64) % TWO_64 == y % TWO_64
  {
    var q := y / TWO_64;
    assert y + k * TWO_64 == (q + k) * TWO_64 + y % TWO_64;
  }

  /** Wrapping at every addition is the same as wrapping once at the end. */
  lemma WrapAdd(x: int, y: int)
    ensures Wrap(Wrap(x) + y) == Wrap(x + y)
  {
    var k := (x - Wrap(x)) / TWO_64;
    assert x + y - (Wrap(x) + y) == k * TWO_64;
    WrapUnique(x + y, Wrap(x) + y);
  }
}
