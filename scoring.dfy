/**
 * The first generation's scorer: a base score from the answer counts, a time bonus
 * measured against an optimal time per difficulty, and a difficulty multiplier.
 * The C# computes the two ratios and the multiplication in `double` and truncates
 * with `(int)`; here every step is exact integer arithmetic (all quantities that are
 * truncated are non-negative, so truncation is floor division).
 */
module Scoring {
  import opened Common
  import opened Models

  /** The completion time the bonus is measured against, in seconds. */
  function OptimalTime(d: Difficulty): (t: int)
    ensures t > 0
    ensures d.AtMost(Medium) ==> t <= 300
  {
    match d
    case Easy => 120
    case Medium => 300
    case Hard => 600
  }

  /** +100 per correct, -25 per wrong, -50 per missed answer, never below zero. */
  function BaseScore(correct: int, wrong: int, missed: int): (b: int)
    ensures b >= 0
    ensures b >= correct * 100 - wrong * 25 - missed * 50
    ensures b == 0 || b == correct * 100 - wrong * 25 - missed * 50
  {
    Max(0, correct * 100 - wrong * 25 - missed * 50)
  }

  /**
   * At or under the optimal time: `50 * (1 - t / opt)`, so up to 50 points;
   * over it: `25 * opt / t`, a bonus that decays toward zero.
   */
  function TimeBonus(timeTakenSeconds: int, d: Difficulty): (b: int)
    ensures b >= 0
  {
    var opt := OptimalTime(d);
    if timeTakenSeconds <= opt then (50 * (opt - timeTakenSeconds)) / opt
    else Max(0, (25 * opt) / timeTakenSeconds)
  }

  /** `(int)(x * multiplier)` for the multipliers 1, 1.5 and 2 and a non-negative `x`. */
  function ApplyMultiplier(x: int, d: Difficulty): (r: int)
    requires x >= 0
    ensures x <= r <= 2 * x
  {
    match d
    case Easy => x
    case Medium => (3 * x) / 2
    case Hard => 2 * x
  }

  /** `ScoringService.CalculateScore`. */
  function CalculateScore(correct: int, wrong: int, missed: int, timeTakenSeconds: int, d: Difficulty): (r: int)
    ensures r >= 0
    ensures r >= BaseScore(correct, wrong, missed) + TimeBonus(timeTakenSeconds, d)
  {
    var base := BaseScore(correct, wrong, missed);
    var bonus := TimeBonus(timeTakenSeconds, d);
    Max(0, ApplyMultiplier(base + bonus, d))
  }

  /** Within the optimal time the bonus lies in [0, 50]: 50 for an instant answer, 0 exactly at the optimal time. */
  lemma TimeBonusFastRange(t: int, d: Difficulty)
    requires 0 <= t <= OptimalTime(d)
    ensures 0 <= TimeBonus(t, d) <= 50
    ensures t == 0 ==> TimeBonus(t, d) == 50
    ensures t == OptimalTime(d) ==> TimeBonus(t, d) == 0
  {
    var opt := OptimalTime(d);
    DivBoundedByQuotient(50 * (opt - t), opt, 50);
  }

  /** Over the optimal time the bonus lies in [0, 24]; the division is by `t > opt > 0`. */
  lemma TimeBonusSlowRange(t: int, d: Difficulty)
    requires t > OptimalTime(d)
    ensures 0 <= TimeBonus(t, d) <= 24
  {
    var opt := OptimalTime(d);
    DivBoundedByQuotient(25 * opt, t, 24);
  }

  /** Crossing the optimal time the bonus jumps from 0 up to 24, so it is not monotone in time overall. */
  lemma TimeBonusJumpsAtOptimal(d: Difficulty)
    ensures TimeBonus(OptimalTime(d), d) == 0
    ensures TimeBonus(OptimalTime(d) + 1, d) == 24
  {
  }

  /** Within either regime, taking longer never raises the bonus. */
  lemma TimeBonusNonIncreasing(t1: int, t2: int, d: Difficulty)
    requires t1 <= t2
    requires t2 <= OptimalTime(d) || OptimalTime(d) < t1
    ensures TimeBonus(t2, d) <= TimeBonus(t1, d)
  {
    var opt := OptimalTime(d);
    if t2 <= opt {
      DivMonotoneInDividend(50 * (opt - t2), 50 * (opt - t1), opt);
    } else {
      DivAntitoneInDivisor(25 * opt, t1, t2);
    }
  }

  /** The multiplier preserves order. */
  lemma MultiplierMonotone(x: int, y: int, d: Difficulty)
    requires 0 <= x <= y
    ensures ApplyMultiplier(x, d) <= ApplyMultiplier(y, d)
  {
    if d == Medium {
      DivMonotoneInDividend(3 * x, 3 * y, 2);
    }
  }

  /** With everything else fixed, one more correct answer never lowers the score. */
  lemma MoreCorrectNeverLowers(c: int, w: int, m: int, t: int, d: Difficulty)
    ensures CalculateScore(c, w, m, t, d) <= CalculateScore(c + 1, w, m, t, d)
  {
    MultiplierMonotone(BaseScore(c, w, m) + TimeBonus(t, d), BaseScore(c + 1, w, m) + TimeBonus(t, d), d);
  }

  /** With everything else fixed, one more wrong answer never raises the score. */
  lemma MoreWrongNeverRaises(c: int, w: int, m: int, t: int, d: Difficulty)
    ensures CalculateScore(c, w + 1, m, t, d) <= CalculateScore(c, w, m, t, d)
  {
    MultiplierMonotone(BaseScore(c, w + 1, m) + TimeBonus(t, d), BaseScore(c, w, m) + TimeBonus(t, d), d);
  }

  /** With everything else fixed, one more missed answer never raises the score. */
  lemma MoreMissedNeverRaises(c: int, w: int, m: int, t: int, d: Difficulty)
    ensures CalculateScore(c, w, m + 1, t, d) <= CalculateScore(c, w, m, t, d)
  {
    MultiplierMonotone(BaseScore(c, w, m + 1) + TimeBonus(t, d), BaseScore(c, w, m) + TimeBonus(t, d), d);
  }

  /** Within either time regime, finishing sooner never lowers the score. */
  lemma FasterNeverLowersWithinRegime(c: int, w: int, m: int, t1: int, t2: int, d: Difficulty)
    requires t1 <= t2
    requires t2 <= OptimalTime(d) || OptimalTime(d) < t1
    ensures CalculateScore(c, w, m, t2, d) <= CalculateScore(c, w, m, t1, d)
  {
    TimeBonusNonIncreasing(t1, t2, d);
    MultiplierMonotone(BaseScore(c, w, m) + TimeBonus(t2, d), BaseScore(c, w, m) + TimeBonus(t1, d), d);
  }

  /** Three correct answers in 60 s on Easy: 300 + 25 = 325. */
  lemma PerfectEasyGameScore()
    ensures CalculateScore(3, 0, 0, 60, Easy) == 325
  {
  }

  /** Two correct, two wrong, one missed in 120 s on Easy: base 100 and no bonus. */
  lemma PenalisedEasyGameScore()
    ensures CalculateScore(2, 2, 1, 120, Easy) == 100
  {
  }

  /**
   * Five wrong and three missed in 300 s on Easy: the base is clamped to 0, but the
   * slow-regime bonus `25 * 120 / 300 = 10` is added after the clamp.
   */
  lemma AllWrongAnswersKeepSlowBonus()
    ensures CalculateScore(0, 5, 3, 300, Easy) == 10
  {
  }

  /** One correct answer on Medium: 240 s and three times that score the same (bonus 10 either way). */
  lemma MediumFastAndSlowTie()
    ensures CalculateScore(1, 0, 0, 240, Medium) == 165
    ensures CalculateScore(1, 0, 0, 720, Medium) == 165
  {
  }

  // Arithmetic facts about floor division by a positive divisor.

  lemma DivBoundedByQuotient(a: int, b: int, k: int)
    requires b > 0 && 0 <= a && a < (k + 1) * b
    ensures 0 <= a / b <= k
  {
    var q := a / b;
    assert a == q * b + a % b;
    assert (k + 1 - q) * b == (k + 1) * b - q * b;
    PositiveFactor(k + 1 - q, b);
  }

  lemma DivMonotoneInDividend(a: int, a': int, b: int)
    requires b > 0 && a <= a'
    ensures a / b <= a' / b
  {
    var q := a / b;
    assert a == q * b + a % b;
    QuotientUpperBound(q, a', b);
  }

  lemma DivAntitoneInDivisor(a: int, b: int, b': int)
    requires a >= 0 && 0 < b <= b'
    ensures a / b' <= a / b
  {
    var q := a / b';
    assert a == q * b' + a % b';
    assert q * b' - q * b == q * (b' - b);
    QuotientUpperBound(q, a, b);
  }

  lemma QuotientUpperBound(q: int, a: int, b: int)
    requires b > 0 && q * b <= a
    ensures q <= a / b
  {
    var r := a / b;
    assert a == r * b + a % b;
    assert (r + 1 - q) * b == (r + 1) * b - q * b;
    PositiveFactor(r + 1 - q, b);
  }

  lemma PositiveFactor(x: int, b: int)
    requires b > 0 && x * b > 0
    ensures x > 0
  {
  }
}
