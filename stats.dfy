/**
 * GET /quiz-stats: over a user's stored attempts, the number of attempts,
 * the average score as a percentage weighted by question count, the best
 * single-attempt percentage (both rounded as Math.round does) and the total
 * time spent. Percentages are exact rationals here.
 */
module Stats {
  import opened Wrappers
  import opened Numbers
  import opened Records

  datatype StatsReply = StatsReply(totalAttempts: nat, averageScore: int, bestScore: int, totalTimeSpent: int)

  function TotalScore(attempts: seq<AttemptRecord>): int {
    if attempts == [] then 0 else attempts[0].score + TotalScore(attempts[1..])
  }

  function TotalQuestions(attempts: seq<AttemptRecord>): int {
    if attempts == [] then 0 else attempts[0].totalQuestions + TotalQuestions(attempts[1..])
  }

  /** Time spent over all attempts; an attempt without a recorded time counts 0. */
  function TotalTime(attempts: seq<AttemptRecord>): int {
    if attempts == [] then 0 else attempts[0].timeTaken.GetOr(0) + TotalTime(attempts[1..])
  }

  /** One attempt's percentage; an attempt without questions counts 0. */
  function AttemptPercentage(a: AttemptRecord): real {
    if a.totalQuestions > 0 then Percentage(a.score, a.totalQuestions) else 0.0
  }

  /** Math.max over the attempts' percentages. */
  function BestPercentage(attempts: seq<AttemptRecord>): (r: real)
    requires attempts != []
    ensures forall k :: 0 <= k < |attempts| ==> AttemptPercentage(attempts[k]) <= r
    ensures exists k :: 0 <= k < |attempts| && r == AttemptPercentage(attempts[k])
  {
    if |attempts| == 1 then AttemptPercentage(attempts[0])
    else
      var rest := BestPercentage(attempts[1..]);
      var first := AttemptPercentage(attempts[0]);
      assert forall k :: 1 <= k < |attempts| ==> attempts[k] == attempts[1..][k - 1];
      if first >= rest then first else rest
  }

  /** The weighted average: total score over total questions, 0 without questions. */
  function AveragePercentage(attempts: seq<AttemptRecord>): real {
    var q := TotalQuestions(attempts);
    if q > 0 then Percentage(TotalScore(attempts), q) else 0.0
  }

  function QuizStats(attempts: seq<AttemptRecord>): StatsReply {
    if attempts == [] then StatsReply(0, 0, 0, 0)
    else StatsReply(|attempts|, JsRound(AveragePercentage(attempts)), JsRound(BestPercentage(attempts)), TotalTime(attempts))
  }

  /** A user without attempts gets zeros throughout. */
  lemma NoAttemptsAllZero()
    ensures QuizStats([]) == StatsReply(0, 0, 0, 0)
  {
  }

  /**
   * The best score is at least every attempt's rounded percentage and is the
   * rounded percentage of one of them.
   */
  lemma BestScoreIsMaximum(attempts: seq<AttemptRecord>)
    requires attempts != []
    ensures forall k :: 0 <= k < |attempts| ==> JsRound(AttemptPercentage(attempts[k])) <= QuizStats(attempts).bestScore
    ensures exists k :: 0 <= k < |attempts| && QuizStats(attempts).bestScore == JsRound(AttemptPercentage(attempts[k]))
  {
    var b := BestPercentage(attempts);
    forall k | 0 <= k < |attempts|
      ensures JsRound(AttemptPercentage(attempts[k])) <= JsRound(b)
    {
      JsRoundMonotonic(AttemptPercentage(attempts[k]), b);
    }
  }

  lemma {:induction false} WeightedBound(attempts: seq<AttemptRecord>, b: real)
    requires forall k :: 0 <= k < |attempts| ==> attempts[k].totalQuestions > 0 && AttemptPercentage(attempts[k]) <= b
    ensures TotalScore(attempts) as real * 100.0 <= b * TotalQuestions(attempts) as real
  {
    if attempts != [] {
      var a := attempts[0];
      var t := a.totalQuestions as real;
      assert AttemptPercentage(a) <= b;
      assert (a.score as real / t) * t == a.score as real;
      assert a.score as real * 100.0 <= b * t;
      assert forall k :: 0 <= k < |attempts| - 1 ==> attempts[1..][k] == attempts[k + 1];
      WeightedBound(attempts[1..], b);
    }
  }

  /**
   * When every attempt has questions, the weighted average never exceeds the
   * best attempt, so the reported average is at most the reported best.
   */
  lemma AverageAtMostBest(attempts: seq<AttemptRecord>)
    requires attempts != []
    requires forall k :: 0 <= k < |attempts| ==> attempts[k].totalQuestions > 0
    ensures AveragePercentage(attempts) <= BestPercentage(attempts)
    ensures QuizStats(attempts).averageScore <= QuizStats(attempts).bestScore
  {
    var b := BestPercentage(attempts);
    AverageAtMost(attempts, b);
    JsRoundMonotonic(AveragePercentage(attempts), b);
  }

  /** A bound on every attempt's percentage bounds the weighted average. */
  lemma AverageAtMost(attempts: seq<AttemptRecord>, b: real)
    requires attempts != []
    requires forall k :: 0 <= k < |attempts| ==> attempts[k].totalQuestions > 0 && AttemptPercentage(attempts[k]) <= b
    ensures AveragePercentage(attempts) <= b
  {
    WeightedBound(attempts, b);
    PositiveTotal(attempts);
    PercentageAtMost(TotalScore(attempts), TotalQuestions(attempts), b);
  }

  lemma PercentageAtMost(score: int, total: int, b: real)
    requires total > 0 && score as real * 100.0 <= b * total as real
    ensures Percentage(score, total) <= b
  {
    var t := total as real;
    var p := score as real / t;
    assert p * t == score as real;
    assert (p * 100.0) * t <= b * t;
  }

  lemma {:induction false} PositiveTotal(attempts: seq<AttemptRecord>)
    requires attempts != []
    requires forall k :: 0 <= k < |attempts| ==> attempts[k].totalQuestions > 0
    ensures TotalQuestions(attempts) > 0
  {
    if |attempts| > 1 {
      assert forall k :: 0 <= k < |attempts| - 1 ==> attempts[1..][k] == attempts[k + 1];
      PositiveTotal(attempts[1..]);
    }
  }

  /** Scores within [0, totalQuestions] give a best score within [0, 100]. */
  lemma BestScoreInRange(attempts: seq<AttemptRecord>)
    requires attempts != []
    requires forall k :: 0 <= k < |attempts| ==> 0 <= attempts[k].score <= attempts[k].totalQuestions
    ensures 0 <= QuizStats(attempts).bestScore <= 100
  {
    var k :| 0 <= k < |attempts| && BestPercentage(attempts) == AttemptPercentage(attempts[k]);
    if attempts[k].totalQuestions > 0 {
      PercentageInRange(attempts[k].score, attempts[k].totalQuestions);
    }
    JsRoundMonotonic(0.0, BestPercentage(attempts));
    JsRoundMonotonic(BestPercentage(attempts), 100.0);
    JsRoundOfInt(0);
    JsRoundOfInt(100);
  }

  /** The total time of two runs of attempts is the sum of their totals: order does not matter. */
  lemma {:induction false} TotalTimeAppend(a: seq<AttemptRecord>, b: seq<AttemptRecord>)
    ensures TotalTime(a + b) == TotalTime(a) + TotalTime(b)
  {
    if a == [] {
      assert a + b == b;
    } else {
      assert (a + b)[0] == a[0] && (a + b)[1..] == a[1..] + b;
      TotalTimeAppend(a[1..], b);
    }
  }

  function Attempt(score: int, total: int): AttemptRecord {
    AttemptRecord(0, 0, 0, score, total, [], None, None)
  }

  /**
   * The average weights by question count: 8/10 and 6/10 average to 70, while
   * 1/1 and 0/3 average to 25, not to the mean 50 of their percentages.
   */
  lemma AverageIsWeighted()
    ensures QuizStats([Attempt(8, 10), Attempt(6, 10)]).averageScore == 70
    ensures QuizStats([Attempt(8, 10), Attempt(6, 10)]).bestScore == 80
    ensures QuizStats([Attempt(1, 1), Attempt(0, 3)]).averageScore == 25
    ensures QuizStats([Attempt(1, 1), Attempt(0, 3)]).bestScore == 100
  {
    var s := [Attempt(8, 10), Attempt(6, 10)];
    assert s[1..] == [Attempt(6, 10)];
    assert TotalScore(s) == 14 && TotalQuestions(s) == 20;
    assert AveragePercentage(s) == 70.0;
    JsRoundOfInt(70);
    assert AttemptPercentage(s[0]) == 80.0 && AttemptPercentage(s[1]) == 60.0;
    JsRoundOfInt(80);
    var u := [Attempt(1, 1), Attempt(0, 3)];
    assert u[1..] == [Attempt(0, 3)];
    assert TotalScore(u) == 1 && TotalQuestions(u) == 4;
    assert AveragePercentage(u) == 25.0;
    JsRoundOfInt(25);
    assert AttemptPercentage(u[0]) == 100.0 && AttemptPercentage(u[1]) == 0.0;
    JsRoundOfInt(100);
  }
}
