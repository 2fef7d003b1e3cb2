/**
 * The templated analysis a session builds after a low score: the first three
 * incorrectly answered questions become weak areas ranked high, medium and low;
 * a lossy copy (topic strings only) is persisted, a richer one is displayed.
 */
module Analysis {
  import opened Wrappers
  import opened Text
  import opened Numbers
  import opened Scoring
  import Records

  /** score / total < 80%, in integers. */
  predicate NeedsAnalysis(score: int, total: int) {
    score * 100 < 80 * total
  }

  /**
   * The integer test is the percentage test whenever there are questions; with
   * none it is false, as `NaN < 80` is.
   */
  lemma NeedsAnalysisIsBelow80Percent(score: nat, total: nat)
    ensures total > 0 ==> (NeedsAnalysis(score, total) <==> Percentage(score, total) < 80.0)
    ensures total == 0 ==> !NeedsAnalysis(score, total)
  {
    if total > 0 {
      PercentageBelow(score, total, 80);
    }
  }

  predicate Incorrect(questions: seq<SessionQuestion>, answers: seq<int>, i: int) {
    0 <= i < |questions| && !Matches(questions, answers, i)
  }

  /** The incorrect positions from i on, in increasing order. */
  function IncorrectFrom(questions: seq<SessionQuestion>, answers: seq<int>, i: nat): (r: seq<nat>)
    requires i <= |questions|
    decreases |questions| - i
    ensures forall k :: 0 <= k < |r| ==> i <= r[k] && Incorrect(questions, answers, r[k])
    ensures forall k, l :: 0 <= k < l < |r| ==> r[k] < r[l]
    ensures forall j :: i <= j < |questions| && Incorrect(questions, answers, j) ==> j in r
  {
    if i == |questions| then []
    else if Incorrect(questions, answers, i) then [i] + IncorrectFrom(questions, answers, i + 1)
    else IncorrectFrom(questions, answers, i + 1)
  }

  function IncorrectPositions(questions: seq<SessionQuestion>, answers: seq<int>): seq<nat> {
    IncorrectFrom(questions, answers, 0)
  }

  /** The positions that become weak areas: the first three incorrect ones. */
  function WeakPositions(questions: seq<SessionQuestion>, answers: seq<int>): seq<nat> {
    var p := IncorrectPositions(questions, answers);
    if |p| <= 3 then p else p[..3]
  }

  datatype Priority = High | Medium | Low

  function PriorityName(p: Priority): string {
    match p
    case High => "high"
    case Medium => "medium"
    case Low => "low"
  }

  function RankPriority(rank: nat): Priority {
    if rank == 0 then High else if rank == 1 then Medium else Low
  }

  datatype WeakArea = WeakArea(topic: string, description: string, priority: Priority)

  datatype Recommendation = Recommendation(topic: string, tips: seq<string>, resources: seq<string>)

  /** The analysis shown right after the quiz. */
  datatype LocalAnalysis = LocalAnalysis(
    overallFeedback: string,
    weakAreas: seq<WeakArea>,
    studyRecommendations: seq<Recommendation>,
    nextSteps: seq<string>)

  /** The analysis sent for storage. */
  datatype AnalysisPayload = AnalysisPayload(
    quizAttemptId: Records.ObjectId,
    overallFeedback: string,
    weakAreas: seq<string>,
    studyRecommendations: seq<string>,
    nextSteps: seq<string>)

  const FallbackDescription: string := "Review this concept and try a few practice questions."
  const FallbackCategoryName: string := "This category"

  const PersistedRecommendations: seq<string> := [
    "Review explanations for incorrect answers",
    "Revisit notes for this category",
    "Practice 5\U{2013}10 more questions in this topic"
  ]

  const LocalTips: seq<string> := [
    "Re-read each explanation for your incorrect answers",
    "Summarize the core concept in your own words",
    "Do 5\U{2013}10 spaced-repetition practice questions"
  ]

  const NextSteps: seq<string> := [
    "Retake the quiz after review",
    "Aim for at least 80% on the next attempt"
  ]

  /** A question's explanation, or the fixed fallback when it has none (or an empty one). */
  function Description(q: SessionQuestion): string {
    if q.explanation.None? || q.explanation.value == "" then FallbackDescription else q.explanation.value
  }

  function WeakAreas(questions: seq<SessionQuestion>, answers: seq<int>): seq<WeakArea> {
    var w := WeakPositions(questions, answers);
    seq(|w|, k requires 0 <= k < |w| => WeakArea(questions[w[k]].text, Description(questions[w[k]]), RankPriority(k)))
  }

  function FeedbackText(score: nat, total: nat): string
    requires total > 0
  {
    "You scored " + NatToString(score) + "/" + NatToString(total)
    + " (" + IntToString(JsRound(Percentage(score, total))) + "%). Focus on the missed topics below."
  }

  function BuildLocalAnalysis(questions: seq<SessionQuestion>, answers: seq<int>, score: nat, categoryName: Option<string>): LocalAnalysis
    requires |questions| > 0
  {
    var topic := if categoryName.None? || categoryName.value == "" then FallbackCategoryName else categoryName.value;
    LocalAnalysis(FeedbackText(score, |questions|), WeakAreas(questions, answers),
                  [Recommendation(topic, LocalTips, [])], NextSteps)
  }

  function BuildPersistedAnalysis(attemptId: Records.ObjectId, questions: seq<SessionQuestion>, answers: seq<int>, score: nat): AnalysisPayload
    requires |questions| > 0
  {
    var w := WeakPositions(questions, answers);
    AnalysisPayload(attemptId, FeedbackText(score, |questions|),
                    seq(|w|, k requires 0 <= k < |w| => questions[w[k]].text),
                    PersistedRecommendations, NextSteps)
  }

  /** The weak positions are the first (at most) three incorrect positions, in order. */
  lemma WeakPositionsFirstIncorrect(questions: seq<SessionQuestion>, answers: seq<int>)
    ensures var w := WeakPositions(questions, answers);
      && |w| <= 3
      && (forall k :: 0 <= k < |w| ==> Incorrect(questions, answers, w[k]))
      && (forall k, l :: 0 <= k < l < |w| ==> w[k] < w[l])
      && (forall j :: 0 <= j < |questions| && Incorrect(questions, answers, j) && j !in w ==> |w| == 3 && w[2] < j)
  {
    var p := IncorrectPositions(questions, answers);
    var w := WeakPositions(questions, answers);
    assert w <= p && |w| == if |p| <= 3 then |p| else 3;
    forall j | 0 <= j < |questions| && Incorrect(questions, answers, j) && j !in w
      ensures |w| == 3 && w[2] < j
    {
      assert j in p;
      var m :| 0 <= m < |p| && p[m] == j;
      assert m >= |w|;
      assert |p| > 3;
      assert w[2] == p[2] && p[2] < p[m];
    }
  }

  /** Each weak area describes the question at its position, ranked by its place. */
  lemma WeakAreasDescribePositions(questions: seq<SessionQuestion>, answers: seq<int>)
    ensures var w := WeakPositions(questions, answers);
      var areas := WeakAreas(questions, answers);
      && |areas| == |w|
      && (forall k :: 0 <= k < |w| ==> areas[k].topic == questions[w[k]].text)
      && (forall k :: 0 <= k < |w| ==>
            areas[k].description == (if questions[w[k]].explanation.Some? && questions[w[k]].explanation.value != ""
                                     then questions[w[k]].explanation.value else FallbackDescription))
      && (forall k :: 0 <= k < |w| ==> areas[k].priority == RankPriority(k))
  {
  }

  /**
   * The weak areas are the first (at most) three incorrectly answered
   * questions in order, ranked high, medium and low, each described by its
   * explanation or the fallback text.
   */
  lemma WeakAreasAreFirstIncorrect(questions: seq<SessionQuestion>, answers: seq<int>)
    ensures var w := WeakPositions(questions, answers);
      var areas := WeakAreas(questions, answers);
      && |areas| == |w| <= 3
      && (forall k :: 0 <= k < |w| ==> Incorrect(questions, answers, w[k]))
      && (forall k, l :: 0 <= k < l < |w| ==> w[k] < w[l])
      && (forall j :: 0 <= j < |questions| && Incorrect(questions, answers, j) && j !in w ==> |w| == 3 && w[2] < j)
      && (forall k :: 0 <= k < |w| ==> areas[k].topic == questions[w[k]].text)
      && (forall k :: 0 <= k < |w| ==>
            areas[k].description == (if questions[w[k]].explanation.Some? && questions[w[k]].explanation.value != ""
                                     then questions[w[k]].explanation.value else FallbackDescription))
      && (|w| > 0 ==> areas[0].priority == High)
      && (|w| > 1 ==> areas[1].priority == Medium)
      && (|w| > 2 ==> areas[2].priority == Low)
  {
    WeakPositionsFirstIncorrect(questions, answers);
    WeakAreasDescribePositions(questions, answers);
  }

  /**
   * The persisted analysis keeps only the topics of the displayed weak areas,
   * in the same order, and the same feedback and next steps.
   */
  lemma PersistedKeepsTopicsOnly(attemptId: Records.ObjectId, questions: seq<SessionQuestion>, answers: seq<int>, score: nat, categoryName: Option<string>)
    requires |questions| > 0
    ensures var shown := BuildLocalAnalysis(questions, answers, score, categoryName);
      var stored := BuildPersistedAnalysis(attemptId, questions, answers, score);
      && |stored.weakAreas| == |shown.weakAreas|
      && (forall k :: 0 <= k < |stored.weakAreas| ==> stored.weakAreas[k] == shown.weakAreas[k].topic)
      && stored.overallFeedback == shown.overallFeedback
      && stored.nextSteps == shown.nextSteps
      && stored.quizAttemptId == attemptId
  {
  }

  /** The analysis a low score produces: one to three weak areas, stored as their topics. */
  lemma LowScoreAnalysisShape(attemptId: Records.ObjectId, questions: seq<SessionQuestion>, answers: seq<int>, score: nat, categoryName: Option<string>)
    requires |answers| == |questions| > 0
    requires score == Score(questions, answers) && NeedsAnalysis(score, |questions|)
    ensures var shown := BuildLocalAnalysis(questions, answers, score, categoryName);
      var stored := BuildPersistedAnalysis(attemptId, questions, answers, score);
      && stored.quizAttemptId == attemptId
      && 1 <= |stored.weakAreas| <= 3
      && |shown.weakAreas| == |stored.weakAreas|
      && (forall k :: 0 <= k < |shown.weakAreas| ==> shown.weakAreas[k].topic == stored.weakAreas[k])
  {
    LowScoreHasWeakArea(questions, answers);
    PersistedKeepsTopicsOnly(attemptId, questions, answers, score, categoryName);
  }

  lemma {:induction false} AllMatchFullScore(questions: seq<SessionQuestion>, answers: seq<int>, n: nat)
    requires n <= |answers| && n <= |questions|
    requires forall j :: 0 <= j < n ==> !Incorrect(questions, answers, j)
    ensures ScoreBelow(questions, answers, n) == n
  {
    if n > 0 {
      assert !Incorrect(questions, answers, n - 1);
      AllMatchFullScore(questions, answers, n - 1);
    }
  }

  /** A score low enough to trigger the analysis always yields at least one weak area. */
  lemma LowScoreHasWeakArea(questions: seq<SessionQuestion>, answers: seq<int>)
    requires |answers| == |questions|
    requires NeedsAnalysis(Score(questions, answers), |questions|)
    ensures |WeakAreas(questions, answers)| >= 1
  {
    var p := IncorrectPositions(questions, answers);
    if p == [] {
      AllMatchFullScore(questions, answers, |questions|);
    }
  }
}
