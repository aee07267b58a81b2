/** Amounts in whole cents and Python's round() on exact quotients. */
module Money {
  type Positive = n: nat | n > 0 witness 1

  /** n / d rounded to the nearest integer, halves to the even one. */
  function RoundHalfEven(n: int, d: Positive): int {
    var q, rest := n / d, n % d;
    if 2 * rest < d || (2 * rest == d && q % 2 == 0) then q else q + 1
  }

  /** The rounding error is at most half a unit, and at exactly half the result is even. */
  lemma RoundingError(n: int, d: Positive)
    ensures var error: int := 2 * (RoundHalfEven(n, d) * d - n);
      && 0 <= error + d && error <= d
      && (error == d || error + d == 0 ==> RoundHalfEven(n, d) % 2 == 0)
  {
    var q, rest := n / d, n % d;
    var r := RoundHalfEven(n, d);
    if r == q {
      assert r * d - n == -rest;
    } else {
      assert r * d - n == d - rest by {
        assert r * d == q * d + d;
      }
    }
  }

  /** A half is rounded to the even zero: the result is at least one only above a half. */
  lemma AtLeastOne(n: int, d: Positive)
    ensures RoundHalfEven(n, d) >= 1 <==> 2 * n > d
  {
    var q: int := n / d;
    var rest: int := n % d;
    assert n == q * d + rest;
    if q >= 1 {
      Times(q, 1, d);
    } else if q < 0 {
      Times(-1, q, d);
    }
  }

  lemma Times(a: int, b: int, d: Positive)
    requires a >= b
    ensures a * d >= b * d
  {}
}
