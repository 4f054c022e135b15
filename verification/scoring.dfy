/** ScoringService: points from speed and streak, streak update, accuracy.
    The source computes in IEEE doubles; here the arithmetic is exact. */
module Scoring {

  const BASE_POINTS: int := 1000
  const MIN_POINTS: int := 200
  const STREAK_MULTIPLIER: real := 0.1
  const MAX_STREAK_MULTIPLIER: real := 2.0

  function MinReal(a: real, b: real): real { if a <= b then a else b }
  function MaxReal(a: real, b: real): real { if a >= b then a else b }

  /** Points for speed alone: BASE_POINTS minus a linear penalty over the time limit,
      with the elapsed time capped at the limit (but not raised to zero) and the
      result kept at or above MIN_POINTS. A negative limit always gives MIN_POINTS; a zero
      limit divides by zero (see Games.Adjudicate). */
  function SpeedPoints(timeLimit: int, timeElapsed: int): (r: real)
    requires timeLimit != 0
    ensures r >= MIN_POINTS as real
    ensures timeElapsed >= 0 ==> r <= BASE_POINTS as real
    ensures timeLimit > 0 && timeElapsed == 0 ==> r == BASE_POINTS as real
    ensures timeElapsed >= timeLimit ==> r == MIN_POINTS as real
    ensures timeLimit < 0 ==> r == MIN_POINTS as real
  {
    var limitSeconds := timeLimit as real / 1000.0;
    var elapsedSeconds := MinReal(timeElapsed as real / 1000.0, limitSeconds);
    var pointsPerSecond := (BASE_POINTS - MIN_POINTS) as real / limitSeconds;
    SpeedPointsAre(timeLimit, timeElapsed);
    MaxReal(BASE_POINTS as real - elapsedSeconds * pointsPerSecond, MIN_POINTS as real)
  }

  /** The decay term of SpeedPoints equals 800 times the elapsed fraction of the limit. */
  lemma SpeedPointsAre(timeLimit: int, timeElapsed: int)
    requires timeLimit != 0
    ensures var limitSeconds := timeLimit as real / 1000.0;
            MinReal(timeElapsed as real / 1000.0, limitSeconds) * ((BASE_POINTS - MIN_POINTS) as real / limitSeconds)
            == 800.0 * MinReal(timeElapsed as real, timeLimit as real) / timeLimit as real
  {
    var L := timeLimit as real;
    var e := timeElapsed as real;
    if e <= L {
      calc {
        (e / 1000.0) * (800.0 / (L / 1000.0));
        (e / 1000.0) * (800000.0 / L);
        800.0 * e / L;
      }
    } else {
      calc {
        (L / 1000.0) * (800.0 / (L / 1000.0));
        800.0;
        800.0 * L / L;
      }
    }
  }

  /** The streak bonus: 1 + 0.10 per streak step, capped at 2.0; no bonus without a streak. */
  function StreakMultiplier(currentStreak: int): (m: real)
    ensures 1.0 <= m <= MAX_STREAK_MULTIPLIER
    ensures currentStreak <= 0 ==> m == 1.0
    ensures currentStreak >= 10 ==> m == MAX_STREAK_MULTIPLIER
    ensures 0 < currentStreak <= 10 ==> m == 1.0 + currentStreak as real * STREAK_MULTIPLIER
  {
    if currentStreak > 0 then
      MinReal(1.0 + currentStreak as real * STREAK_MULTIPLIER, MAX_STREAK_MULTIPLIER)
    else 1.0
  }

  /** calculatePoints: the floor of the speed points times the streak bonus. */
  function CalculatePoints(timeLimit: int, timeElapsed: int, currentStreak: int): (r: int)
    requires timeLimit != 0
    ensures MIN_POINTS <= r
    ensures timeElapsed >= 0 ==> r <= 2 * BASE_POINTS
    ensures timeLimit < 0 ==> r == (MIN_POINTS as real * StreakMultiplier(currentStreak)).Floor
    ensures currentStreak <= 0 && timeLimit > 0 && timeElapsed == 0 ==> r == BASE_POINTS
    ensures currentStreak <= 0 && timeElapsed >= timeLimit ==> r == MIN_POINTS
  {
    Scaled(SpeedPoints(timeLimit, timeElapsed), StreakMultiplier(currentStreak))
  }

  /** The points as awarded: the floor of the speed points times the bonus. */
  function Scaled(speed: real, multiplier: real): int {
    (speed * multiplier).Floor
  }

  lemma MulNonNegative(a: real, b: real)
    requires a >= 0.0 && b >= 0.0
    ensures a * b >= 0.0
  {
  }

  lemma RatioAtMostOne(c: int, t: int)
    requires 0 <= c <= t && t > 0
    ensures 0.0 <= c as real / t as real <= 1.0
    ensures c == t ==> c as real / t as real == 1.0
  {
  }

  /** Floor is monotonic. */
  lemma FloorMonotonic(x: real, y: real, z: real)
    requires x <= y <= z
    ensures x.Floor <= z.Floor
  {
  }

  lemma DivMonotonic(a: real, b: real, d: real)
    requires a <= b && d > 0.0
    ensures a / d <= b / d
  {
    assert b / d - a / d == (b - a) / d;
  }

  /** Points are monotonic in both the speed points and the streak bonus. */
  lemma CalculatePointsMonotonic(timeLimit: int, e1: int, s1: int, e2: int, s2: int)
    requires timeLimit != 0
    requires SpeedPoints(timeLimit, e1) <= SpeedPoints(timeLimit, e2)
    requires StreakMultiplier(s1) <= StreakMultiplier(s2)
    ensures CalculatePoints(timeLimit, e1, s1) <= CalculatePoints(timeLimit, e2, s2)
  {
    ScaledMonotonic(SpeedPoints(timeLimit, e1), SpeedPoints(timeLimit, e2),
                            StreakMultiplier(s1), StreakMultiplier(s2));
  }

  /** Scaling up both non-negative factors, then flooring, keeps the order. */
  lemma ScaledMonotonic(p1: real, p2: real, m1: real, m2: real)
    requires 0.0 <= p1 <= p2 && 0.0 <= m1 <= m2
    ensures Scaled(p1, m1) <= Scaled(p2, m2)
  {
    assert p1 * m1 <= p2 * m1 by {
      MulNonNegative(p2 - p1, m1);
      assert p2 * m1 - p1 * m1 == (p2 - p1) * m1;
    }
    assert p2 * m1 <= p2 * m2 by {
      MulNonNegative(p2, m2 - m1);
      assert p2 * m2 - p2 * m1 == p2 * (m2 - m1);
    }
    FloorMonotonic(p1 * m1, p2 * m1, p2 * m2);
  }

  /** Speed points never grow with the elapsed time. */
  lemma SpeedPointsNonIncreasing(timeLimit: int, t1: int, t2: int)
    requires timeLimit > 0 && t1 <= t2
    ensures SpeedPoints(timeLimit, t2) <= SpeedPoints(timeLimit, t1)
  {
    var L := timeLimit as real;
    SpeedPointsAre(timeLimit, t1);
    SpeedPointsAre(timeLimit, t2);
    DivMonotonic(800.0 * MinReal(t1 as real, L), 800.0 * MinReal(t2 as real, L), L);
  }

  /** For a fixed limit and streak, answering later never earns more. */
  lemma {:induction false} PointsNonIncreasingInElapsed(timeLimit: int, t1: int, t2: int, currentStreak: int)
    requires timeLimit > 0 && t1 <= t2
    ensures CalculatePoints(timeLimit, t1, currentStreak) >= CalculatePoints(timeLimit, t2, currentStreak)
  {
    SpeedPointsNonIncreasing(timeLimit, t1, t2);
    CalculatePointsMonotonic(timeLimit, t2, currentStreak, t1, currentStreak);
  }

  /** For a fixed limit and elapsed time, a longer streak never earns less. */
  lemma {:induction false} PointsNonDecreasingInStreak(timeLimit: int, timeElapsed: int, s1: int, s2: int)
    requires timeLimit > 0 && s1 <= s2
    ensures CalculatePoints(timeLimit, timeElapsed, s1) <= CalculatePoints(timeLimit, timeElapsed, s2)
  {
    CalculatePointsMonotonic(timeLimit, timeElapsed, s1, timeElapsed, s2);
  }

  /** Every streak of 10 or more scores exactly what a streak of 10 scores. */
  lemma StreakCapped(timeLimit: int, timeElapsed: int, currentStreak: int)
    requires timeLimit > 0 && currentStreak >= 10
    ensures CalculatePoints(timeLimit, timeElapsed, currentStreak) == CalculatePoints(timeLimit, timeElapsed, 10)
  {
  }

  /** Math.round on an exact value: halves round up. */
  function JsRound(x: real): (r: int)
    ensures x - 0.5 < r as real <= x + 0.5
  {
    (x + 0.5).Floor
  }

  /** calculateAccuracy: 0 without answers, else the rounded percentage of correct answers. */
  function CalculateAccuracy(correctAnswers: int, totalAnswers: int): (r: int)
    ensures totalAnswers == 0 ==> r == 0
    ensures 0 <= correctAnswers <= totalAnswers ==> 0 <= r <= 100
    ensures 0 < correctAnswers == totalAnswers ==> r == 100
    ensures correctAnswers == 0 ==> r == 0
  {
    if totalAnswers == 0 then 0
    else
      var pct := correctAnswers as real / totalAnswers as real * 100.0;
      assert 0 <= correctAnswers <= totalAnswers ==> 0.0 <= pct <= 100.0 by {
        if 0 <= correctAnswers <= totalAnswers {
          RatioAtMostOne(correctAnswers, totalAnswers);
        }
      }
      assert 0 < correctAnswers == totalAnswers ==> pct == 100.0 by {
        if 0 < correctAnswers == totalAnswers {
          RatioAtMostOne(correctAnswers, totalAnswers);
        }
      }
      JsRound(pct)
  }

  /** updateStreak: one more on a correct answer, back to zero on a wrong one. */
  function UpdateStreak(currentStreak: int, isCorrect: bool): (r: int)
    ensures isCorrect ==> r == currentStreak + 1
    ensures !isCorrect ==> r == 0
  {
    if isCorrect then currentStreak + 1 else 0
  }

  /** The streak after a run of answers, starting from currentStreak. */
  function StreakAfter(currentStreak: int, answers: seq<bool>): int
    decreases |answers|
  {
    if answers == [] then currentStreak
    else StreakAfter(UpdateStreak(currentStreak, answers[0]), answers[1..])
  }

  /** The number of correct answers at the end of the run, after its last wrong answer. */
  function TrailingCorrect(answers: seq<bool>): nat
    decreases |answers|
  {
    if answers == [] then 0
    else if answers[|answers| - 1] then TrailingCorrect(answers[..|answers| - 1]) + 1
    else 0
  }

  predicate AllCorrect(answers: seq<bool>) {
    forall i :: 0 <= i < |answers| ==> answers[i]
  }

  /** Folding updateStreak over a run: a run without a miss adds its length, otherwise the
      streak is the number of correct answers since the last miss. */
  lemma {:induction false} StreakAfterRun(currentStreak: int, answers: seq<bool>)
    ensures StreakAfter(currentStreak, answers)
            == if AllCorrect(answers) then currentStreak + |answers| else TrailingCorrect(answers)
    decreases |answers|
  {
    if answers == [] {
    } else {
      var n := |answers|;
      var rest := answers[1..];
      StreakAfterRun(UpdateStreak(currentStreak, answers[0]), rest);
      if n > 1 {
        assert rest[..n - 2] == answers[1..n - 1];
        TrailingOfTail(answers);
      }
    }
  }

  /** Dropping the first answer of a run with a miss after it leaves the trailing count alone. */
  lemma {:induction false} TrailingOfTail(answers: seq<bool>)
    requires |answers| > 1
    ensures !AllCorrect(answers[1..]) ==> TrailingCorrect(answers[1..]) == TrailingCorrect(answers)
    ensures AllCorrect(answers[1..]) && !answers[0] ==> TrailingCorrect(answers) == |answers| - 1
    decreases |answers|
  {
    var n := |answers|;
    var rest := answers[1..];
    var init := answers[..n - 1];
    if answers[n - 1] {
      if n > 2 {
        assert init[1..] == rest[..n - 2];
        TrailingOfTail(init);
        assert AllCorrect(rest) ==> AllCorrect(init[1..]);
        assert !AllCorrect(rest) ==> !AllCorrect(init[1..]);
      } else {
        assert init == [answers[0]];
        assert rest[..0] == [];
      }
    }
  }

  /** Starting from zero, the streak is exactly the trailing run of correct answers. */
  lemma StreakCountsTrailingRun(answers: seq<bool>)
    ensures StreakAfter(0, answers) == TrailingCorrect(answers)
  {
    StreakAfterRun(0, answers);
    if AllCorrect(answers) {
      AllCorrectTrailing(answers);
    }
  }

  lemma {:induction false} AllCorrectTrailing(answers: seq<bool>)
    requires AllCorrect(answers)
    ensures TrailingCorrect(answers) == |answers|
    decreases |answers|
  {
    if answers != [] {
      AllCorrectTrailing(answers[..|answers| - 1]);
    }
  }
}
