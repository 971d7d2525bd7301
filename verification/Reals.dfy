/** Facts about real quotients, and rounding to the nearest integer with halves away from zero. */
module Reals {

  lemma Scaled(a: real, b: real, s: real)
    requires s > 0.0
    ensures a <= b <==> a * s <= b * s
  {
    if a < b { assert (b - a) * s > 0.0; }
    if b < a { assert (a - b) * s > 0.0; }
  }

  lemma Divided(a: real, s: real)
    requires s > 0.0
    ensures a / s * s == a
  {
  }

  lemma QuotientOrder(a: real, b: real, s: real)
    requires s > 0.0
    ensures a <= b / s <==> a * s <= b
    ensures b / s <= a <==> b <= a * s
  {
    Divided(b, s);
    Scaled(a, b / s, s);
    Scaled(b / s, a, s);
  }

  lemma QuotientSum(a: real, b: real, s: real)
    requires s > 0.0
    ensures (a + b) / s == a / s + b / s
  {
    Divided(a, s);
    Divided(b, s);
    assert (a / s + b / s) * s == a + b;
    QuotientOrder(a / s + b / s, a + b, s);
  }

  function Round(r: real): (n: int)
    ensures n as real - 0.5 <= r <= n as real + 0.5
    ensures r > 0.0 ==> r < n as real + 0.5
    ensures r < 0.0 ==> n as real - 0.5 < r
  {
    if r >= 0.0 then (r + 0.5).Floor else -(-r + 0.5).Floor
  }

  /** Rounding two parts moves their sum by at most one from the rounded sum. */
  lemma RoundedParts(a: real, b: real)
    ensures -1 <= Round(a) + Round(b) - Round(a + b) <= 1
  {
  }

  lemma RoundKeepsWhole(r: real, n: int)
    ensures n as real <= r ==> n <= Round(r)
    ensures r == n as real ==> Round(r) == n
  {
  }

  function Frac(r: real): (f: real)
    ensures 0.0 <= f < 1.0
  {
    r - r.Floor as real
  }

  /** Rounding goes up to the next integer: beyond a half, and on a half of a number that is not negative. */
  predicate RoundsUp(r: real) { Frac(r) > 0.5 || (Frac(r) == 0.5 && r >= 0.0) }

  lemma RoundIs(r: real)
    ensures Round(r) == r.Floor + (if RoundsUp(r) then 1 else 0)
  {
  }

  lemma FloorSum(a: real, b: real)
    ensures (a + b).Floor == a.Floor + b.Floor + (if Frac(a) + Frac(b) >= 1.0 then 1 else 0)
    ensures Frac(a + b) == Frac(a) + Frac(b) - (if Frac(a) + Frac(b) >= 1.0 then 1.0 else 0.0)
  {
  }

  /** The rounded parts of a sum that is not negative exceed the rounded sum exactly when both are rounded up and
      the sum is not. */
  lemma PartsExceed(a: real, b: real)
    requires a + b >= 0.0
    ensures Round(a) + Round(b) > Round(a + b) <==> RoundsUp(a) && RoundsUp(b) && Frac(a) + Frac(b) < 1.5
  {
    RoundIs(a);
    RoundIs(b);
    RoundIs(a + b);
    FloorSum(a, b);
  }

  lemma NegativeParts(a: real, b: real)
    requires a + b < 0.0
    ensures Round(a) + Round(b) <= 0
  {
  }
}
