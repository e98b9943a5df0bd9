/** Expected value of a single bet and the fractional Kelly stake
    (utils/calc_ev_outcome.py and utils/kelly.py). */
module SingleEv {
  import opened Wrappers

  /** `calculate_ev(prob, odds)`: the expected net return of a one-unit stake at decimal
      odds `odds` that wins with probability `prob` (win `odds - 1`, lose the stake). */
  function CalculateEv(prob: real, odds: real): (ev: real)
    ensures ev == prob * odds - 1.0
    ensures ev > 0.0 <==> prob * odds > 1.0
    ensures ev == 0.0 <==> prob * odds == 1.0
  {
    prob * (odds - 1.0) - (1.0 - prob)
  }

  /** At odds 0 every bet loses its stake. */
  lemma EvAtZeroOdds(prob: real)
    ensures CalculateEv(prob, 0.0) == -1.0
  {
  }

  /** The EV grows strictly with the probability when the odds are positive. */
  lemma EvIncreasingInProbability(p1: real, p2: real, odds: real)
    requires odds > 0.0 && p1 < p2
    ensures CalculateEv(p1, odds) < CalculateEv(p2, odds)
  {
    assert (p2 - p1) * odds > 0.0;
  }

  /** The EV grows strictly with the odds when the probability is positive. */
  lemma EvIncreasingInOdds(prob: real, o1: real, o2: real)
    requires prob > 0.0 && o1 < o2
    ensures CalculateEv(prob, o1) < CalculateEv(prob, o2)
  {
    assert prob * (o2 - o1) > 0.0;
  }

  /** `kelly_criterion(probability, odds, multiplier)`: 0 when the odds are `None`,
      otherwise `multiplier * (probability * odds - (1 - probability)) / odds`. The
      division is unguarded, so odds of exactly 0 are excluded. */
  function Kelly(probability: real, odds: Option<real>, multiplier: real): (stake: real)
    requires odds != Some(0.0)
    ensures odds.None? ==> stake == 0.0
    ensures odds.Some? ==>
      stake * odds.value == multiplier * (probability * odds.value - (1.0 - probability))
  {
    match odds
    case None => 0.0
    case Some(b) => multiplier * ((probability * b - (1.0 - probability)) / b)
  }

  /** The stake is linear in the multiplier, and multiplier 0 stakes nothing. */
  lemma KellyLinear(probability: real, odds: Option<real>, m1: real, m2: real, c: real)
    requires odds != Some(0.0)
    ensures Kelly(probability, odds, m1 + m2) == Kelly(probability, odds, m1) + Kelly(probability, odds, m2)
    ensures Kelly(probability, odds, c * m1) == c * Kelly(probability, odds, m1)
    ensures Kelly(probability, odds, 0.0) == 0.0
  {
    if odds.Some? {
      var b := odds.value;
      var f := (probability * b - (1.0 - probability)) / b;
      assert Kelly(probability, odds, m1 + m2) == (m1 + m2) * f;
      assert Kelly(probability, odds, c * m1) == (c * m1) * f;
    }
  }

  /** For positive odds and multiplier the stake is positive exactly when
      `probability * (odds + 1) > 1`, a weaker condition than a positive EV. */
  lemma KellyPositiveIff(probability: real, odds: real, multiplier: real)
    requires odds > 0.0 && multiplier > 0.0
    ensures Kelly(probability, Some(odds), multiplier) > 0.0 <==> probability * (odds + 1.0) > 1.0
  {
    var k := Kelly(probability, Some(odds), multiplier);
    var edge := probability * odds - (1.0 - probability);
    assert k * odds == multiplier * edge;
    assert edge == probability * (odds + 1.0) - 1.0;
    if k > 0.0 {
      assert k * odds > 0.0;
      assert multiplier * edge > 0.0;
    }
    if edge > 0.0 {
      assert multiplier * edge > 0.0;
      assert k * odds > 0.0;
    }
  }

  /** A positive EV gives a positive stake whenever the probability is not negative. */
  lemma KellyPositiveWhenEvPositive(probability: real, odds: real, multiplier: real)
    requires probability >= 0.0 && multiplier > 0.0
    requires CalculateEv(probability, odds) > 0.0
    ensures odds > 0.0
    ensures Kelly(probability, Some(odds), multiplier) > 0.0
  {
    assert probability * odds > 1.0;
    KellyPositiveIff(probability, odds, multiplier);
    assert probability * (odds + 1.0) == probability * odds + probability;
  }

  /** The stake can be positive on a bet whose EV is negative: p = 0.4 at odds 2.0. */
  lemma KellyStakesNegativeEv()
    ensures CalculateEv(0.4, 2.0) == -0.2
    ensures Kelly(0.4, Some(2.0), 1.0) == 0.1
  {
  }

  /** The worked example: an even-money-plus bet at p = 0.5, odds 2.0 stakes a quarter. */
  lemma KellyExample()
    ensures Kelly(0.5, Some(2.0), 1.0) == 0.25
    ensures Kelly(0.5, None, 1.0) == 0.0
  {
  }
}
