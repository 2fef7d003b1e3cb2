/**
 * What completing a quiz session guarantees: the final answer list, the
 * score, what is saved and when, what analysis is stored and shown, and how
 * the stored-attempt constraint treats the unanswered sentinel.
 */
module Outcomes {
  import opened Wrappers
  import opened Scoring
  import opened Analysis
  import opened Session
  import Records
  import Recorder

  /** Completion without a user does nothing; with one it always concludes. */
  lemma NoUserNoCompletion(questions: seq<SessionQuestion>, origin: Origin, startMs: int,
                           recorded: seq<int>, current: nat, pending: Option<int>, env: Environment)
    requires current <= |recorded| <= |questions|
    ensures CompletionOf(questions, origin, startMs, recorded, current, pending, env).NotSignedIn? <==> !env.signedIn
  {
  }

  /**
   * A finished quiz holds one answer per question (recorded, pending or the
   * sentinel), its score counts the exact matches and lies in [0, total], and
   * its time is the whole seconds since the start.
   */
  lemma FinishedScore(questions: seq<SessionQuestion>, origin: Origin, startMs: int,
                      recorded: seq<int>, current: nat, pending: Option<int>, env: Environment)
    requires current <= |recorded| <= |questions|
    ensures var c := CompletionOf(questions, origin, startMs, recorded, current, pending, env);
      c.Finished? ==>
        && |c.answers| == |questions|
        && (forall i :: 0 <= i < |questions| ==>
              c.answers[i] == if pending.Some? && i == current then pending.value
                              else if i < |recorded| then recorded[i] else Unanswered)
        && c.score == |MatchSet(questions, c.answers, |questions|)|
        && c.score <= |questions|
        && c.timeTaken == (env.nowMs - startMs) / 1000
  {
    if env.signedIn {
      var answers := FinalAnswers(recorded, current, pending, |questions|);
      ScoreIsMatchCount(questions, answers);
    }
  }

  /**
   * An attempt is sent exactly when a signed-in user completes a quiz from a
   * category with an identifier; a rejected save is the only way a signed-in
   * completion does not finish. The attempt carries the category, the score,
   * the number of questions, the time and one entry per question whose
   * isCorrect flag is the score's own test, so the flags count to the score.
   */
  lemma AttemptSentFromCategoryOnly(questions: seq<SessionQuestion>, origin: Origin, startMs: int,
                                    recorded: seq<int>, current: nat, pending: Option<int>, env: Environment)
    requires current <= |recorded| <= |questions|
    ensures var c := CompletionOf(questions, origin, startMs, recorded, current, pending, env);
      && (AttemptOf(c).Some? <==> env.signedIn && origin.FromCategory? && origin.categoryId != "")
      && (c.SaveFailed? <==> AttemptOf(c).Some? && !env.attemptSaved)
      && (env.signedIn && !c.SaveFailed? ==> c.Finished?)
      && (AttemptOf(c).Some? ==>
            var a := AttemptOf(c).value;
            var answers := FinalAnswers(recorded, current, pending, |questions|);
            && a.categoryId == origin.categoryId
            && a.totalQuestions == |questions|
            && a.score == |MatchSet(questions, answers, |questions|)|
            && a.timeTaken == (env.nowMs - startMs) / 1000
            && |a.answers| == |questions|
            && (forall i :: 0 <= i < |questions| ==>
                  && a.answers[i].questionKey == questions[i].key
                  && a.answers[i].selectedAnswer == answers[i]
                  && a.answers[i].isCorrect == (answers[i] == questions[i].correctAnswer))
            && CountCorrect(a.answers) == a.score)
  {
    if env.signedIn {
      var answers := FinalAnswers(recorded, current, pending, |questions|);
      ScoreIsMatchCount(questions, answers);
      EntriesAgreeWithScore(questions, answers);
    }
  }

  /**
   * An analysis is stored exactly for a saved attempt scoring below 80%, it
   * refers to the stored attempt and names one to three missed questions; it
   * is shown exactly when storing it succeeded, and the shown weak areas are
   * the stored topics.
   */
  lemma AnalysisBelow80Only(questions: seq<SessionQuestion>, origin: Origin, startMs: int,
                            recorded: seq<int>, current: nat, pending: Option<int>, env: Environment)
    requires current <= |recorded| <= |questions|
    ensures var c := CompletionOf(questions, origin, startMs, recorded, current, pending, env);
      c.Finished? ==>
        && (c.storedAnalysis.Some? <==> c.saved.Some? && c.score * 100 < 80 * |questions|)
        && (c.shownAnalysis.Some? <==> c.storedAnalysis.Some? && env.analysisSaved)
        && (c.storedAnalysis.Some? ==>
              && c.storedAnalysis.value.quizAttemptId == env.attemptId
              && 1 <= |c.storedAnalysis.value.weakAreas| <= 3)
        && (c.shownAnalysis.Some? ==>
              var stored := c.storedAnalysis.value.weakAreas;
              var shown := c.shownAnalysis.value.weakAreas;
              && |shown| == |stored|
              && forall k :: 0 <= k < |shown| ==> shown[k].topic == stored[k])
  {
    if env.signedIn {
      var answers := FinalAnswers(recorded, current, pending, |questions|);
      var score := Score(questions, answers);
      if origin.FromCategory? && origin.categoryId != "" && env.attemptSaved && NeedsAnalysis(score, |questions|) {
        LowScoreAnalysisShape(env.attemptId, questions, answers, score, origin.categoryName);
      }
    }
  }

  /** Answers drawn from the session's option indices fit the stored answer constraint, sentinel aside. */
  predicate StoredQuestions(questions: seq<SessionQuestion>) {
    forall i :: 0 <= i < |questions| ==> questions[i].key.StoredKey? && |questions[i].options| == 4
  }

  /** The session state completion starts from keeps its answers within the options. */
  predicate AnswersInRange(questions: seq<SessionQuestion>, recorded: seq<int>, current: nat, pending: Option<int>) {
    && current <= |recorded| <= |questions|
    && (forall i :: 0 <= i < |recorded| ==> AnswerInRange(questions[i], recorded[i]))
    && (pending.Some? && current < |questions| ==> AnswerInRange(questions[current], pending.value))
  }

  /** The attempt a signed-in completion of a category quiz sends. */
  lemma SentAttempt(questions: seq<SessionQuestion>, categoryId: string, categoryName: Option<string>,
                    startMs: int, recorded: seq<int>, current: nat, pending: Option<int>, env: Environment)
    requires current <= |recorded| <= |questions|
    requires categoryId != "" && env.signedIn
    ensures var c := CompletionOf(questions, FromCategory(categoryId, categoryName), startMs, recorded, current, pending, env);
      && AttemptOf(c).Some?
      && AttemptOf(c).value.categoryId == categoryId
      && AttemptOf(c).value.totalQuestions == |questions|
      && AttemptOf(c).value.timeTaken == ElapsedSeconds(startMs, env.nowMs)
      && AttemptOf(c).value.answers == AnswerEntries(questions, FinalAnswers(recorded, current, pending, |questions|))
      && (c.SaveFailed? <==> !env.attemptSaved)
  {
  }

  /** The stored form of one answer entry: a question identifier, the answer and a flag. */
  lemma EntryDocument(questions: seq<SessionQuestion>, answers: seq<int>, k: nat)
    requires |answers| <= |questions| && k < |answers| && questions[k].key.StoredKey?
    ensures var e := Recorder.AnswerDocument(AnswerEntries(questions, answers)[k]);
      e.questionId.Some? && e.selectedAnswer == Some(answers[k]) && e.isCorrect.Some?
  {
  }

  /** The document the recorder validates for a session's attempt, entry by entry. */
  lemma SentDocument(questions: seq<SessionQuestion>, categoryId: string, categoryName: Option<string>,
                     startMs: int, recorded: seq<int>, current: nat, pending: Option<int>,
                     env: Environment, userId: Records.ObjectId)
    requires current <= |recorded| <= |questions| && StoredQuestions(questions)
    requires categoryId != "" && env.signedIn
    ensures var c := CompletionOf(questions, FromCategory(categoryId, categoryName), startMs, recorded, current, pending, env);
      var answers := FinalAnswers(recorded, current, pending, |questions|);
      && AttemptOf(c).Some?
      && var d := Recorder.AttemptDocument(userId, env.nowMs, AttemptOf(c).value);
      && d.userId.Some?
      && d.categoryId == Records.ParseObjectId(categoryId)
      && d.score.Some? && d.score.value >= 0
      && d.totalQuestions == Some(|questions|)
      && d.timeTaken == Some(ElapsedSeconds(startMs, env.nowMs))
      && |d.answers| == |questions|
      && forall k :: 0 <= k < |questions| ==>
           d.answers[k].questionId.Some? && d.answers[k].selectedAnswer == Some(answers[k]) && d.answers[k].isCorrect.Some?
  {
    var c := CompletionOf(questions, FromCategory(categoryId, categoryName), startMs, recorded, current, pending, env);
    var answers := FinalAnswers(recorded, current, pending, |questions|);
    SentAttempt(questions, categoryId, categoryName, startMs, recorded, current, pending, env);
    var a := AttemptOf(c).value;
    var d := Recorder.AttemptDocument(userId, env.nowMs, a);
    forall k | 0 <= k < |questions|
      ensures d.answers[k].questionId.Some? && d.answers[k].selectedAnswer == Some(answers[k]) && d.answers[k].isCorrect.Some?
    {
      EntryDocument(questions, answers, k);
    }
  }

  /**
   * As written, the recorder stores a session's attempt exactly when no
   * position is left unanswered (for stored questions with four options, a
   * category identifier the store accepts and a non-negative time).
   */
  lemma RecordedIffFullyAnswered(questions: seq<SessionQuestion>, categoryId: string, categoryName: Option<string>,
                                 startMs: int, recorded: seq<int>, current: nat, pending: Option<int>,
                                 env: Environment, userId: Records.ObjectId)
    requires AnswersInRange(questions, recorded, current, pending) && StoredQuestions(questions)
    requires |questions| > 0 && categoryId != "" && Records.ParseObjectId(categoryId).Some?
    requires env.signedIn && env.nowMs >= startMs
    ensures var c := CompletionOf(questions, FromCategory(categoryId, categoryName), startMs, recorded, current, pending, env);
      var answers := FinalAnswers(recorded, current, pending, |questions|);
      && AttemptOf(c).Some?
      && (Recorder.RecordAttempt(env.attemptId, userId, env.nowMs, AttemptOf(c).value).Success?
          <==> forall i :: 0 <= i < |questions| ==> answers[i] != Unanswered)
  {
    var c := CompletionOf(questions, FromCategory(categoryId, categoryName), startMs, recorded, current, pending, env);
    var answers := FinalAnswers(recorded, current, pending, |questions|);
    FinalAnswersInRange(questions, recorded, current, pending);
    SentDocument(questions, categoryId, categoryName, startMs, recorded, current, pending, env, userId);
    var d := Recorder.AttemptDocument(userId, env.nowMs, AttemptOf(c).value);
    if forall i :: 0 <= i < |questions| ==> answers[i] != Unanswered {
      forall k | 0 <= k < |d.answers|
        ensures Records.AnswerInputValid(d.answers[k])
      {
        assert AnswerInRange(questions[k], answers[k]);
      }
      assert Records.AttemptInputValid(d);
    } else {
      var i :| 0 <= i < |questions| && answers[i] == Unanswered;
      Records.SentinelAnswerRejected(d, i);
    }
  }

  /**
   * The consequence: a quiz from a category that ends with a question never
   * answered (the timer ran out, say) is rejected by the recorder, so the
   * completion is a failed save and the quiz is never marked completed.
   */
  lemma UnansweredSessionNeverCompletes(questions: seq<SessionQuestion>, categoryId: string, categoryName: Option<string>,
                                        startMs: int, recorded: seq<int>, current: nat, pending: Option<int>,
                                        env: Environment, userId: Records.ObjectId, i: nat)
    requires current <= |recorded| <= |questions|
    requires categoryId != "" && env.signedIn
    requires |recorded| <= i < |questions| && !(pending.Some? && i == current)
    ensures var c := CompletionOf(questions, FromCategory(categoryId, categoryName), startMs, recorded, current, pending, env);
      && AttemptOf(c).Some?
      && Recorder.RecordAttempt(env.attemptId, userId, env.nowMs, AttemptOf(c).value).Failure?
      && (env.attemptSaved == Recorder.RecordAttempt(env.attemptId, userId, env.nowMs, AttemptOf(c).value).Success?
          ==> c.SaveFailed?)
  {
    var c := CompletionOf(questions, FromCategory(categoryId, categoryName), startMs, recorded, current, pending, env);
    var answers := FinalAnswers(recorded, current, pending, |questions|);
    SentAttempt(questions, categoryId, categoryName, startMs, recorded, current, pending, env);
    var a := AttemptOf(c).value;
    var d := Recorder.AttemptDocument(userId, env.nowMs, a);
    assert answers[i] == Unanswered;
    assert a.answers[i].selectedAnswer == Unanswered;
    assert d.answers[i] == Recorder.AnswerDocument(a.answers[i]);
    Records.SentinelAnswerRejected(d, i);
  }

  /**
   * Under the constraint that admits the sentinel, every such session's
   * attempt is stored, however many questions were left unanswered.
   */
  lemma SessionAttemptStoredIntended(questions: seq<SessionQuestion>, categoryId: string, categoryName: Option<string>,
                                     startMs: int, recorded: seq<int>, current: nat, pending: Option<int>,
                                     env: Environment, userId: Records.ObjectId)
    requires AnswersInRange(questions, recorded, current, pending) && StoredQuestions(questions)
    requires |questions| > 0 && categoryId != "" && Records.ParseObjectId(categoryId).Some?
    requires env.signedIn && env.nowMs >= startMs
    ensures var c := CompletionOf(questions, FromCategory(categoryId, categoryName), startMs, recorded, current, pending, env);
      && AttemptOf(c).Some?
      && Recorder.RecordAttemptIntended(env.attemptId, userId, env.nowMs, AttemptOf(c).value).Success?
  {
    var c := CompletionOf(questions, FromCategory(categoryId, categoryName), startMs, recorded, current, pending, env);
    var answers := FinalAnswers(recorded, current, pending, |questions|);
    FinalAnswersInRange(questions, recorded, current, pending);
    SentDocument(questions, categoryId, categoryName, startMs, recorded, current, pending, env, userId);
    var d := Recorder.AttemptDocument(userId, env.nowMs, AttemptOf(c).value);
    forall k | 0 <= k < |d.answers|
      ensures Records.AnswerInputValidIntended(d.answers[k])
    {
      assert AnswerInRange(questions[k], answers[k]);
    }
    assert Records.AttemptInputValidIntended(d);
  }
}
