/**
 * The sentiment-to-discount rule: the compound sentiment score picks a tier, and the
 * tier's closed range bounds the random discount drawn once per session.
 */
module Discount {

  datatype Tier = Positive | Neutral | Negative

  /** The tier of a compound score, tested in the order the submit branch of `app.py` tests them. */
  function Classify(score: real): (t: Tier)
    ensures t == Positive <==> score > 0.5
    ensures t == Neutral <==> 0.0 <= score <= 0.5
    ensures t == Negative <==> score < 0.0
  {
    if score > 0.5 then Positive
    else if 0.0 <= score <= 0.5 then Neutral
    else Negative
  }

  /** Lower bound of the tier's range, the first argument to `random.randint`. */
  function Low(t: Tier): int {
    match t
    case Positive => 30
    case Neutral => 10
    case Negative => 5
  }

  /** Upper bound of the tier's range, the second argument to `random.randint`. */
  function High(t: Tier): int {
    match t
    case Positive => 50
    case Neutral => 30
    case Negative => 15
  }

  predicate InRange(t: Tier, d: int) {
    Low(t) <= d <= High(t)
  }

  /**
   * `random.randint(Low(t), High(t))`, with the random source made an input: `draw` is
   * any natural number the environment supplies, and every value of the closed range
   * is the result of some draw.
   */
  function Pick(t: Tier, draw: nat): (d: int)
    ensures InRange(t, d)
    ensures 5 <= d <= 50
  {
    Low(t) + draw % (High(t) - Low(t) + 1)
  }

  /** Every value of the tier's closed range can be drawn. */
  lemma PickCoversRange(t: Tier, d: int)
    requires InRange(t, d)
    ensures Pick(t, d - Low(t)) == d
  {
  }

  /** The discount a first valid offer fixes, from its sentiment score. */
  function InitialDiscount(score: real, draw: nat): (d: int)
    ensures score > 0.5 ==> 30 <= d <= 50
    ensures 0.0 <= score <= 0.5 ==> 10 <= d <= 30
    ensures score < 0.0 ==> 5 <= d <= 15
  {
    Pick(Classify(score), draw)
  }

  /** Scores at and just past the tier thresholds. */
  lemma ClassifyBoundaries()
    ensures Classify(0.5) == Neutral
    ensures Classify(0.0) == Neutral
    ensures Classify(-0.0001) == Negative
    ensures Classify(0.5001) == Positive
  {
  }
}
