/** The odds calculator of frontend/public/index.js: `round2`, `floor2` and the
    three `computed` values, in exact real arithmetic. */
module Odds {

  const HOUSE_EDGE: real := 0.01
  const UNDER_MIN: real := 1.0
  const UNDER_MAX: real := 98.02
  const OVER_MIN: real := 1.97
  const OVER_MAX: real := 98.99

  /** The roll outcome space, 0.00 to 99.99. */
  const ROLL_SPACE_MAX: real := 99.99

  /** `x` is a whole number of hundredths. */
  predicate Cents(x: real)
  {
    (x * 100.0).Floor as real == x * 100.0
  }

  /** `round2`: `Math.round(x * 100) / 100`, rounding halves upward. */
  function Round2(x: real): (r: real)
    ensures Cents(r)
    ensures -0.005 < r - x <= 0.005
  {
    ((x * 100.0 + 0.5).Floor as real) / 100.0
  }

  /** `floor2`: `Math.floor(x * 100) / 100`, so never above `x`. */
  function Floor2(x: real): (r: real)
    ensures Cents(r)
    ensures r <= x < r + 0.01
  {
    ((x * 100.0).Floor as real) / 100.0
  }

  lemma Round2OfCents(x: real)
    requires Cents(x)
    ensures Round2(x) == x
  {
    var n := (x * 100.0).Floor;
    assert x * 100.0 + 0.5 == n as real + 0.5;
    assert (x * 100.0 + 0.5).Floor == n;
  }

  /** The complement of a hundredths value in the roll space is again a
      hundredths value, so rounding leaves it alone. */
  lemma ComplementOfCents(x: real)
    requires Cents(x)
    ensures Cents(ROLL_SPACE_MAX - x)
    ensures Round2(ROLL_SPACE_MAX - x) == ROLL_SPACE_MAX - x
  {
    var n := (x * 100.0).Floor;
    var m := 9999 - n;
    assert (ROLL_SPACE_MAX - x) * 100.0 == m as real;
    assert ((m as real).Floor) == m;
    Round2OfCents(ROLL_SPACE_MAX - x);
  }

  lemma Floor2Monotone(x: real, y: real)
    requires x <= y
    ensures Floor2(x) <= Floor2(y)
  {
    assert (x * 100.0).Floor <= (y * 100.0).Floor;
  }

  /** `computed.winChance`: the threshold itself when rolling under, its
      complement in the roll space when rolling over. */
  function WinChance(isUnder: bool, threshold: real): real
  {
    if isUnder then threshold else ROLL_SPACE_MAX - threshold
  }

  /** `computed.payout`: fair odds for the win chance, less the house edge. */
  function Payout(winChance: real): real
    requires winChance != 0.0
  {
    (1.0 / (winChance / 100.0)) * (1.0 - HOUSE_EDGE)
  }

  /** `computed.profit`: the winnings on `stake`, truncated to hundredths. */
  function Profit(stake: real, winChance: real): real
    requires winChance != 0.0
  {
    Floor2(stake * (Payout(winChance) - 1.0))
  }

  /** The fair-odds identity: payout times win chance is always 99%. */
  lemma FairOdds(winChance: real)
    requires winChance != 0.0
    ensures Payout(winChance) * winChance / 100.0 == 1.0 - HOUSE_EDGE
  {
    var q := winChance / 100.0;
    assert (1.0 / q) * q == 1.0;
  }

  /** The profit shown is a whole number of hundredths, never more than the
      exact winnings and less than one hundredth below them. */
  lemma ProfitBounds(stake: real, winChance: real)
    requires winChance != 0.0
    ensures Cents(Profit(stake, winChance))
    ensures Profit(stake, winChance) <= stake * (Payout(winChance) - 1.0) < Profit(stake, winChance) + 0.01
  {
    assert Profit(stake, winChance) == Floor2(stake * (Payout(winChance) - 1.0));
  }

  /** The payout is at least 1 exactly when the win chance is at most 99%. */
  lemma PayoutAtLeastOne(winChance: real)
    requires winChance > 0.0
    ensures Payout(winChance) >= 1.0 <==> winChance <= 99.0
  {
    var p := Payout(winChance);
    if p >= 1.0 {
      assert p * winChance >= winChance;
    } else {
      assert p * winChance < winChance;
    }
  }

  /** A larger stake never shows a smaller profit, as long as the payout is at
      least 1 (win chance at most 99%). */
  lemma ProfitMonotone(stake1: real, stake2: real, winChance: real)
    requires stake1 <= stake2
    requires 0.0 < winChance <= 99.0
    ensures Profit(stake1, winChance) <= Profit(stake2, winChance)
  {
    PayoutAtLeastOne(winChance);
    MulMonotone(stake1, stake2, Payout(winChance) - 1.0);
    Floor2Monotone(stake1 * (Payout(winChance) - 1.0), stake2 * (Payout(winChance) - 1.0));
  }

  lemma MulMonotone(x: real, y: real, m: real)
    requires x <= y && m >= 0.0
    ensures x * m <= y * m
  {
    assert y * m - x * m == (y - x) * m;
  }

  /** The default configuration: win chance 49.50 pays exactly 2, so a stake
      of 10 shows a profit of exactly 10. */
  lemma DefaultOdds()
    ensures Payout(49.5) == 2.0
    ensures Profit(10.0, 49.5) == 10.0
  {
    assert Payout(49.5) * 49.5 == 99.0;
    assert 10.0 * (Payout(49.5) - 1.0) * 100.0 == 1000.0;
  }
}
