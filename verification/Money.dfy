/**
 Rounding of money and of display quantities (chic/aggregate/money.py).

 `Decimal` amounts are modelled as exact reals; what is kept is the rounding
 itself: half away from zero, to whole units or to cents.
 */
module Money {

  function Abs(x: real): real { if x >= 0.0 then x else -x }

  function Min(x: real, y: real): real { if y < x then y else x }

  /** Python's `int(x)`: truncation toward zero. */
  function Trunc(x: real): (n: int)
    ensures Abs(n as real) <= Abs(x) < Abs(n as real) + 1.0
    ensures x >= 0.0 ==> n >= 0
    ensures x <= 0.0 ==> n <= 0
  {
    if x >= 0.0 then x.Floor else -((-x).Floor)
  }

  /** Python's `math.ceil`: the least integer not below `x`. */
  function Ceil(x: real): (n: int)
    ensures x <= n as real < x + 1.0
  {
    -((-x).Floor)
  }

  /** The nearest integer, a tie going to the neighbour farther from zero. */
  function RoundHalfAway(x: real): (n: int)
    ensures -0.5 <= n as real - x <= 0.5
    ensures Abs(n as real - x) == 0.5 ==> Abs(n as real) > Abs(x)
  {
    if x >= 0.0 then (x + 0.5).Floor else Ceil(x - 0.5)
  }

  function Cents(v: real): int { RoundHalfAway(v * 100.0) }

  function MoneyRound(v: real): real { Cents(v) as real / 100.0 }

  function MinorToMajor(minor: real): real { MoneyRound(RoundHalfAway(minor) as real / 100.0) }

  function Round2(v: real): real { RoundHalfAway(v * 100.0) as real / 100.0 }

  /** `v` is a whole number of cents. */
  ghost predicate WholeCents(v: real) { MoneyRound(v) == v }

  /** The two clauses of `RoundHalfAway` leave no choice. */
  lemma RoundHalfAwayUnique(x: real, n: int)
    requires -0.5 <= n as real - x <= 0.5
    requires Abs(n as real - x) == 0.5 ==> Abs(n as real) > Abs(x)
    ensures n == RoundHalfAway(x)
  {
    var m := RoundHalfAway(x);
    assert n < m ==> n as real <= m as real - 1.0;
    assert m < n ==> m as real <= n as real - 1.0;
  }

  lemma RoundedInteger(k: int)
    ensures RoundHalfAway(k as real) == k
  {
    RoundHalfAwayUnique(k as real, k);
  }

  /** A rounded amount is a whole number of cents, at most half a cent away. */
  lemma MoneyRoundNear(v: real)
    ensures Abs(MoneyRound(v) - v) <= 0.005
    ensures WholeCents(MoneyRound(v))
  {
    RoundedInteger(Cents(v));
    assert MoneyRound(v) * 100.0 == Cents(v) as real;
  }

  lemma Round2Near(v: real)
    ensures Abs(Round2(v) - v) <= 0.005
  {
  }

  lemma CentsExact(k: int)
    ensures WholeCents(k as real / 100.0)
    ensures Cents(k as real / 100.0) == k
  {
    RoundedInteger(k);
    assert k as real / 100.0 * 100.0 == k as real;
  }

  /** Whole-cent amounts are closed under addition, subtraction and negation. */
  lemma WholeCentsClosed(v: real, w: real)
    requires WholeCents(v) && WholeCents(w)
    ensures WholeCents(v + w) && Cents(v + w) == Cents(v) + Cents(w)
    ensures WholeCents(v - w) && Cents(v - w) == Cents(v) - Cents(w)
    ensures WholeCents(-v) && Cents(-v) == -Cents(v)
  {
    CentsExact(Cents(v) + Cents(w));
    CentsExact(Cents(v) - Cents(w));
    CentsExact(-Cents(v));
    assert v + w == (Cents(v) + Cents(w)) as real / 100.0;
    assert v - w == (Cents(v) - Cents(w)) as real / 100.0;
    assert -v == (-Cents(v)) as real / 100.0;
  }

  lemma IsUnrounded(v: real)
    ensures WholeCents(v) ==> MoneyRound(v) == v
  {
  }

  /** Minor units reach the reports as whole cents: one rounding, of the minor unit. */
  lemma MinorToMajorWhole(minor: real)
    ensures WholeCents(MinorToMajor(minor))
    ensures Cents(MinorToMajor(minor)) == RoundHalfAway(minor)
    ensures MinorToMajor(minor) == RoundHalfAway(minor) as real / 100.0
  {
    CentsExact(RoundHalfAway(minor));
  }

  lemma RoundMonotone(x: real, y: real)
    requires x <= y
    ensures RoundHalfAway(x) <= RoundHalfAway(y)
  {
    if x < 0.0 <= y {
      assert RoundHalfAway(x) <= 0 <= RoundHalfAway(y);
    }
  }
}
