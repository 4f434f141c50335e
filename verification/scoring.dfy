/**
 Scoring at the end of a game: an accuracy bonus that dominates, a linear bonus
 per match and a penalty quadratic in the number of misses. The score is not
 clamped and can be negative.
 */
module Scoring {

  /** Points per percent of accuracy. */
  const AccuracyMaxValue: nat := 1000
  /** Accuracy is expressed in percent. */
  const Percent: nat := 100
  /** Points per successful match. */
  const MatchValue: nat := 100
  /** Points per squared miss. */
  const BaseMissPenalty: nat := 20

  /** The bonus for a perfect game: 100 percent at 1000 points per percent. */
  const MaxAccuracyBonus: nat := Percent * AccuracyMaxValue

  /** The four figures reported at the end of a game. */
  datatype ScoreBreakdown = ScoreBreakdown(accuracyBonus: int, matchBonus: int, missPenalty: int, total: int)

  /** The accuracy bonus, `matches / rounds · 100 · 1000` rounded up, computed
      exactly: it is the least integer whose product with `rounds` reaches
      `matches · 100000`. */
  function AccuracyBonus(matches: nat, rounds: nat): (bonus: nat)
    requires rounds >= 1
    ensures bonus * rounds >= matches * MaxAccuracyBonus
    ensures (bonus - 1) * rounds < matches * MaxAccuracyBonus
  {
    var scaled := matches * MaxAccuracyBonus;
    var q := (scaled + rounds - 1) / rounds;
    assert scaled + rounds - 1 == q * rounds + (scaled + rounds - 1) % rounds;
    assert (q - 1) * rounds == q * rounds - rounds;
    q
  }

  /** The end-of-game figures for the final counters after `rounds` rounds; the
      total is the accuracy bonus plus the match bonus minus the miss penalty. */
  function Score(matches: nat, misses: nat, rounds: nat): ScoreBreakdown
    requires rounds >= 1
  {
    var accuracyBonus := AccuracyBonus(matches, rounds);
    var matchBonus := matches * MatchValue;
    var missPenalty := misses * misses * BaseMissPenalty;
    ScoreBreakdown(accuracyBonus, matchBonus, missPenalty, accuracyBonus + matchBonus - missPenalty)
  }

  /** A ceiling is determined by its two bounds. */
  lemma CeilingUnique(x: int, rounds: nat, b: int, c: int)
    requires rounds >= 1
    requires b * rounds >= x && (b - 1) * rounds < x
    requires c * rounds >= x && (c - 1) * rounds < x
    ensures b == c
  {
  }

  /** No match gives no accuracy bonus and a perfect game gives the full 100000;
      any game with at most as many matches as rounds lies in between. */
  lemma AccuracyBonusRange(matches: nat, rounds: nat)
    requires 1 <= rounds && matches <= rounds
    ensures matches == 0 ==> AccuracyBonus(matches, rounds) == 0
    ensures matches == rounds ==> AccuracyBonus(matches, rounds) == MaxAccuracyBonus
    ensures AccuracyBonus(matches, rounds) <= MaxAccuracyBonus
  {
    var b := AccuracyBonus(matches, rounds);
    var x := matches * MaxAccuracyBonus;
    if matches == 0 {
      CeilingUnique(x, rounds, b, 0);
    }
    if matches == rounds {
      assert x == MaxAccuracyBonus * rounds;
      CeilingUnique(x, rounds, b, MaxAccuracyBonus);
    }
  }

  /** More matches never lower the accuracy bonus. */
  lemma AccuracyBonusMonotone(m1: nat, m2: nat, rounds: nat)
    requires rounds >= 1 && m1 <= m2
    ensures AccuracyBonus(m1, rounds) <= AccuracyBonus(m2, rounds)
  {
    var b1 := AccuracyBonus(m1, rounds);
    var b2 := AccuracyBonus(m2, rounds);
    MulMonotone(m1, m2, MaxAccuracyBonus, MaxAccuracyBonus);
    assert (b1 - 1) * rounds < b2 * rounds;
    FactorCancels(b1 - 1, b2, rounds);
  }

  /** A common positive factor can be cancelled from a strict inequality. */
  lemma FactorCancels(a: int, b: int, r: nat)
    requires r >= 1 && a * r < b * r
    ensures a < b
  {
  }

  /** One more match raises the total; one more miss lowers it. */
  lemma ScoreMonotone(matches: nat, misses: nat, rounds: nat)
    requires rounds >= 1
    ensures Score(matches + 1, misses, rounds).total > Score(matches, misses, rounds).total
    ensures Score(matches, misses + 1, rounds).total < Score(matches, misses, rounds).total
  {
    AccuracyBonusMonotone(matches, matches + 1, rounds);
    assert (misses + 1) * (misses + 1) == misses * misses + 2 * misses + 1;
  }

  /** Over a game of `rounds` rounds (so at most `rounds` matches and three misses
      per round) the total never exceeds the perfect game, which scores the full
      accuracy bonus plus 100 per round; it never falls below the penalty for three
      misses in every round; and it is not clamped: a game with misses and no
      match scores below zero. */
  lemma ScoreBounds(matches: nat, misses: nat, rounds: nat)
    requires 1 <= rounds && matches <= rounds && misses <= 3 * rounds
    ensures Score(matches, misses, rounds).total <= Score(rounds, 0, rounds).total
    ensures Score(rounds, 0, rounds).total == MaxAccuracyBonus + MatchValue * rounds
    ensures Score(matches, misses, rounds).total >= -(BaseMissPenalty * (3 * rounds) * (3 * rounds))
    ensures matches == 0 && misses > 0 ==> Score(matches, misses, rounds).total < 0
  {
    AccuracyBonusRange(matches, rounds);
    AccuracyBonusRange(rounds, rounds);
    AccuracyBonusRange(0, rounds);
    MulMonotone(matches, rounds, MatchValue, MatchValue);
    MulMonotone(misses, 3 * rounds, misses, 3 * rounds);
  }

  /** With at most 3454 rounds (so at most 10362 misses) every figure and every
      running sum of the score fits the signed 32-bit integers the game uses, so
      computing with unbounded integers changes nothing. */
  lemma ScoreFitsInt32(matches: nat, misses: nat, rounds: nat)
    requires 1 <= rounds <= 3454 && matches <= rounds && misses <= 3 * rounds
    ensures var s := Score(matches, misses, rounds);
            && 0 <= s.accuracyBonus <= MaxAccuracyBonus
            && 0 <= s.matchBonus <= s.accuracyBonus + s.matchBonus < 0x8000_0000
            && 0 <= s.missPenalty < 0x8000_0000
            && -0x8000_0000 <= s.total < 0x8000_0000
  {
    AccuracyBonusRange(matches, rounds);
    MulMonotone(misses, 10362, misses, 10362);
    MulMonotone(matches, 3454, MatchValue, MatchValue);
  }

  /** Products of naturals grow with both factors. */
  lemma MulMonotone(a: nat, b: nat, c: nat, d: nat)
    requires a <= b && c <= d
    ensures a * c <= b * d
  {
    assert a * c <= b * c;
  }

  /** A game of 10 rounds with 8 matches and 2 misses scores 80720. */
  lemma ScoreEightOfTen()
    ensures Score(8, 2, 10) == ScoreBreakdown(80000, 800, 80, 80720)
  {
    CeilingUnique(8 * MaxAccuracyBonus, 10, AccuracyBonus(8, 10), 80000);
  }

  /** A game of 5 rounds with no match and 5 misses scores -500. */
  lemma ScoreNoMatches()
    ensures Score(0, 5, 5) == ScoreBreakdown(0, 0, 500, -500)
  {
    AccuracyBonusRange(0, 5);
  }
}
