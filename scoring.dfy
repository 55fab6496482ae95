/**
 * The arithmetic shared by the hospital and pharmacy rankers: the travel-time base
 * score, the off-policy importance weight and the discounted long-term term.
 * Scores are exact reals; floating-point rounding is not modelled.
 */
module Scoring {

  /** `gamma`: the discount applied to the long-term reward. */
  const Gamma: real := 0.99
  /** `K`: how many facilities a recommendation returns. */
  const TopCount: nat := 15
  /** The `1e-8` added to a policy probability before inverting it. */
  const Epsilon: real := 0.00000001

  /** `h*3600 + m*60 + s` */
  function TravelSeconds(h: nat, m: nat, s: nat): nat {
    h * 3600 + m * 60 + s
  }

  /** `calculate_base_score`: `1 / (1 + travel seconds)`, so shorter trips score higher. */
  function BaseScore(h: nat, m: nat, s: nat): (b: real)
    ensures 0.0 < b <= 1.0
    ensures b == 1.0 <==> TravelSeconds(h, m, s) == 0
    ensures b * (1 + TravelSeconds(h, m, s)) as real == 1.0
  {
    var d := (1 + TravelSeconds(h, m, s)) as real;
    var b := 1.0 / d;
    assert b * d == 1.0 && d >= 1.0;
    assert b > 0.0;
    assert b <= b * d;
    assert b == 1.0 ==> d == 1.0;
    b
  }

  /** A strictly longer trip gets a strictly lower base score. */
  lemma BaseScoreDecreasing(h1: nat, m1: nat, s1: nat, h2: nat, m2: nat, s2: nat)
    requires TravelSeconds(h1, m1, s1) < TravelSeconds(h2, m2, s2)
    ensures BaseScore(h1, m1, s1) > BaseScore(h2, m2, s2)
  {
    ReciprocalDecreasing((1 + TravelSeconds(h1, m1, s1)) as real, (1 + TravelSeconds(h2, m2, s2)) as real);
  }

  /** No travel at all gets the best base score, 1.0. */
  lemma ZeroTravelScoresOne()
    ensures BaseScore(0, 0, 0) == 1.0
  {
    assert TravelSeconds(0, 0, 0) == 0;
  }

  lemma ReciprocalDecreasing(d1: real, d2: real)
    requires 0.0 < d1 < d2
    ensures 1.0 / d1 > 1.0 / d2
  {
    var b1, b2 := 1.0 / d1, 1.0 / d2;
    assert b1 * d1 == 1.0 && b2 * d2 == 1.0;
    assert b2 > 0.0;
    assert b2 * d1 < b2 * d2;
    assert (b1 - b2) * d1 == b1 * d1 - b2 * d1;
  }

  /** `(similarity + 1) / 2`: a cosine in [-1, 1] rescaled to [0, 1]. */
  function ContentScore(cosine: real): (c: real)
    requires -1.0 <= cosine <= 1.0
    ensures 0.0 <= c <= 1.0
    ensures cosine == 2.0 * c - 1.0
  {
    (cosine + 1.0) / 2.0
  }

  /** `1 / (p + 1e-8)`: positive, and at most 1e8 for any probability. */
  function ImportanceWeight(p: real): (w: real)
    requires p >= 0.0
    ensures 0.0 < w <= 100000000.0
    ensures w * (p + Epsilon) == 1.0
  {
    var d := p + Epsilon;
    var w := 1.0 / d;
    assert w * d == 1.0 && w > 0.0;
    assert w * Epsilon <= w * d;
    assert w == (w * Epsilon) * 100000000.0;
    w
  }

  /** A less likely choice is weighted more. */
  lemma ImportanceWeightDecreasing(p: real, q: real)
    requires 0.0 <= p < q
    ensures ImportanceWeight(p) > ImportanceWeight(q)
  {
    var wp, wq := ImportanceWeight(p), ImportanceWeight(q);
    assert wq * (p + Epsilon) < wq * (q + Epsilon);
    assert (wp - wq) * (p + Epsilon) == wp * (p + Epsilon) - wq * (p + Epsilon);
    assert (wp - wq) * (p + Epsilon) > 0.0;
  }

  function Min(a: real, b: real): real { if a <= b then a else b }

  /**
   * The reward with the long-term part: `immediate + gamma * min(long_term, 1.0)` when the
   * member has feedback, otherwise exactly `immediate`.
   */
  function WithLongTerm(immediate: real, hasFeedback: bool, longTerm: real): (r: real)
    ensures !hasFeedback ==> r == immediate
    ensures hasFeedback ==> r - immediate == Gamma * Min(longTerm, 1.0)
    ensures hasFeedback && 0.0 <= longTerm ==> immediate <= r <= immediate + Gamma
  {
    if hasFeedback then immediate + Gamma * Min(longTerm, 1.0) else immediate
  }

  /** The value `nlargest` ranks on: `reward * importance_weight`, after any log bonus. */
  function FinalScore(reward: real, bonus: real, weight: real): real {
    (reward + bonus) * weight
  }

  /** The log bonus of a row: its entry in the bonus map, if its name is a key. */
  function BonusFor(bonus: map<string, real>, name: string): (b: real)
    ensures name !in bonus ==> b == 0.0
  {
    if name in bonus then bonus[name] else 0.0
  }

  /** A reward that already holds its bonus, times the weight, is the final score. */
  lemma ProductOfSum(total: real, reward: real, bonus: real, weight: real)
    requires total == reward + bonus
    ensures total * weight == FinalScore(reward, bonus, weight)
  {
  }

  /** Since the weight is positive, a non-negative bonus never lowers the final score. */
  lemma BonusNeverLowers(reward: real, bonus: real, weight: real)
    requires bonus >= 0.0 && weight > 0.0
    ensures FinalScore(reward, bonus, weight) >= FinalScore(reward, 0.0, weight)
    ensures bonus > 0.0 ==> FinalScore(reward, bonus, weight) > FinalScore(reward, 0.0, weight)
  {
    assert (reward + bonus) * weight == reward * weight + bonus * weight;
  }

  /** What `update_from_feedback` (and `update_policy`) does. */
  datatype UpdateOutcome =
    | NoUpdate                              // returns None before looking at any row
    | NoStep                                // returns 0: no row earned a reward
    | Stepped(batchSize: nat, avgLoss: real) // one optimizer step on the mean loss
}
