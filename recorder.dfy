/**
 * The attempt and analysis recorders behind POST /quiz-attempts and
 * POST /ai-analysis: the body becomes a document stamped with the caller's
 * user id (and, for attempts, the completion time); the document is stored
 * when it passes the schema, and a failed validation is a 500 response.
 */
module Recorder {
  import opened Wrappers
  import opened Records
  import opened Text
  import Scoring
  import Session
  import Analysis

  datatype ServerError = InternalError

  /** A question key as the body carries it: generated keys ("ai-0", ...) are not castable to identifiers. */
  function AnswerDocument(e: Scoring.AnswerEntry): AnswerInput {
    AnswerInput(if e.questionKey.StoredKey? then Some(e.questionKey.id) else None,
                Some(e.selectedAnswer), Some(e.isCorrect))
  }

  /** The attempt document built from a request body. */
  function AttemptDocument(userId: ObjectId, nowMs: int, p: Session.AttemptPayload): (d: AttemptInput)
    ensures |d.answers| == |p.answers|
    ensures forall k :: 0 <= k < |p.answers| ==> d.answers[k] == AnswerDocument(p.answers[k])
  {
    AttemptInput(Some(userId), ParseObjectId(p.categoryId), Some(p.score), Some(p.totalQuestions),
                 seq(|p.answers|, k requires 0 <= k < |p.answers| => AnswerDocument(p.answers[k])),
                 Some(p.timeTaken), Some(nowMs))
  }

  /** Stores the attempt when its document passes the schema; the stored fields are the body's. */
  function RecordAttempt(id: ObjectId, userId: ObjectId, nowMs: int, p: Session.AttemptPayload): (r: Result<AttemptRecord, ServerError>)
    ensures r.Success? <==> AttemptInputValid(AttemptDocument(userId, nowMs, p))
    ensures r.Success? ==>
      && r.value.id == id && r.value.userId == userId
      && Some(r.value.categoryId) == ParseObjectId(p.categoryId)
      && r.value.score == p.score && r.value.totalQuestions == p.totalQuestions
      && r.value.timeTaken == Some(p.timeTaken) && r.value.completedAt == Some(nowMs)
      && |r.value.answers| == |p.answers|
  {
    var d := AttemptDocument(userId, nowMs, p);
    if AttemptInputValid(d) then
      Success(AttemptRecord(id, userId, d.categoryId.value, p.score, p.totalQuestions, d.answers, d.timeTaken, d.completedAt))
    else Failure(InternalError)
  }

  /** The same recorder under the constraint that admits the sentinel. */
  function RecordAttemptIntended(id: ObjectId, userId: ObjectId, nowMs: int, p: Session.AttemptPayload): (r: Result<AttemptRecord, ServerError>)
    ensures r.Success? <==> AttemptInputValidIntended(AttemptDocument(userId, nowMs, p))
    ensures r.Success? ==>
      && r.value.id == id && r.value.userId == userId
      && Some(r.value.categoryId) == ParseObjectId(p.categoryId)
      && r.value.score == p.score && r.value.totalQuestions == p.totalQuestions
      && r.value.timeTaken == Some(p.timeTaken) && r.value.completedAt == Some(nowMs)
  {
    var d := AttemptDocument(userId, nowMs, p);
    if AttemptInputValidIntended(d) then
      Success(AttemptRecord(id, userId, d.categoryId.value, p.score, p.totalQuestions, d.answers, d.timeTaken, d.completedAt))
    else Failure(InternalError)
  }

  function TrimAll(s: seq<string>): (r: seq<string>)
    ensures |r| == |s| && forall k :: 0 <= k < |s| ==> r[k] == Trim(s[k])
  {
    seq(|s|, k requires 0 <= k < |s| => Trim(s[k]))
  }

  /** Stores an analysis for the given attempt; its strings are trimmed. */
  function RecordAnalysis(id: ObjectId, userId: ObjectId, nowMs: int, p: Analysis.AnalysisPayload): (r: AnalysisRecord)
    ensures r.quizAttemptId == p.quizAttemptId && r.userId == userId && r.createdAt == nowMs
    ensures r.overallFeedback == Some(Trim(p.overallFeedback))
    ensures |r.weakAreas| == |p.weakAreas| && forall k :: 0 <= k < |p.weakAreas| ==> r.weakAreas[k] == Trim(p.weakAreas[k])
    ensures |r.studyRecommendations| == |p.studyRecommendations|
            && forall k :: 0 <= k < |p.studyRecommendations| ==> r.studyRecommendations[k] == Trim(p.studyRecommendations[k])
    ensures |r.nextSteps| == |p.nextSteps| && forall k :: 0 <= k < |p.nextSteps| ==> r.nextSteps[k] == Trim(p.nextSteps[k])
  {
    AnalysisRecord(id, userId, p.quizAttemptId, Some(Trim(p.overallFeedback)), TrimAll(p.weakAreas),
                   TrimAll(p.studyRecommendations), TrimAll(p.nextSteps), nowMs)
  }
}
