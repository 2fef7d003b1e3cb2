/**
 * JavaScript's Math.round and the percentage the application computes as
 * (score / total) * 100, both on exact rationals. The application uses
 * IEEE doubles; see the README for where the two can differ.
 */
module Numbers {

  /** Math.round: the nearest integer, halves rounded towards +infinity. */
  function JsRound(x: real): (r: int)
    ensures x - 0.5 < r as real <= x + 0.5
  {
    (x + 0.5).Floor
  }

  lemma JsRoundMonotonic(x: real, y: real)
    requires x <= y
    ensures JsRound(x) <= JsRound(y)
  {
  }

  lemma JsRoundOfInt(n: int)
    ensures JsRound(n as real) == n
  {
  }

  /** (score / total) * 100 for a non-zero total. */
  function Percentage(score: int, total: int): real
    requires total != 0
  {
    (score as real / total as real) * 100.0
  }

  /** The comparison `percentage < bound` is the integer comparison `score * 100 < bound * total`. */
  lemma PercentageBelow(score: int, total: int, bound: int)
    requires total > 0
    ensures Percentage(score, total) < bound as real <==> score * 100 < bound * total
  {
    var t := total as real;
    var p := score as real / t;
    assert p * t == score as real;
    assert (score * 100) as real == p * 100.0 * t;
    assert (bound * total) as real == bound as real * t;
  }

  /** The percentage of a score within [0, total] lies within [0, 100]. */
  lemma PercentageInRange(score: int, total: int)
    requires 0 <= score <= total && total > 0
    ensures 0.0 <= Percentage(score, total) <= 100.0
  {
    PercentageBelow(score, total, 0);
    var t := total as real;
    var p := score as real / t;
    assert p * t == score as real;
    assert p <= 1.0;
  }
}
