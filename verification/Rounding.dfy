/** Python's `round(x, 2)` over exact reals: to the nearest hundredth, ties to even. */
module Rounding {

  /** The integer nearest to 100x; of two equally near ones, the even one. */
  function Cents(x: real): (c: int)
    ensures -0.5 <= x * 100.0 - c as real <= 0.5
    ensures x * 100.0 - c as real == 0.5 || x * 100.0 - c as real == -0.5 ==> c % 2 == 0
  {
    var y := x * 100.0;
    var f := y.Floor;
    var d := y - f as real;
    if d < 0.5 || (d == 0.5 && f % 2 == 0) then f else f + 1
  }

  function Round2(x: real): (r: real)
    ensures -0.005 <= x - r <= 0.005
  {
    Cents(x) as real / 100.0
  }

  /** The two facts in the contract of `Cents` single it out. */
  lemma CentsUnique(x: real, c: int)
    requires -0.5 <= x * 100.0 - c as real <= 0.5
    requires x * 100.0 - c as real == 0.5 || x * 100.0 - c as real == -0.5 ==> c % 2 == 0
    ensures c == Cents(x)
  {
  }

  /** `x` rounds to at most `c` hundredths. */
  predicate RoundsTo(x: real, c: int) {
    x * 100.0 - c as real <= 0.5 && (x * 100.0 - c as real == 0.5 ==> c % 2 == 0)
  }

  lemma RoundsToMeans(x: real, c: int)
    ensures RoundsTo(x, c) <==> Cents(x) <= c
  {
  }

  lemma CentsMonotone(x: real, y: real)
    requires x <= y
    ensures Cents(x) <= Cents(y)
  {
    if x < y {
      var c, d := Cents(x), Cents(y);
      assert c as real < (d + 1) as real;
    }
  }

  lemma RoundMonotone(x: real, y: real)
    requires x <= y
    ensures Round2(x) <= Round2(y)
  {
    CentsMonotone(x, y);
  }

  /** A whole number of hundredths is left alone. */
  lemma RoundExact(n: int)
    ensures Round2(n as real / 100.0) == n as real / 100.0
  {
    CentsUnique(n as real / 100.0, n);
  }

  lemma RoundBetween(x: real, lo: int, hi: int)
    requires lo as real <= x <= hi as real
    ensures lo as real <= Round2(x) <= hi as real
  {
    RoundExact(100 * lo);
    RoundExact(100 * hi);
    RoundMonotone(lo as real, x);
    RoundMonotone(x, hi as real);
  }
}
