/**
 * The quiz session engine: the state a quiz page holds while a user works
 * through a question list, the handlers that change it (select, next,
 * previous, the one-second timer tick) and completion, which finalises the
 * answers, scores them and decides what is persisted.
 *
 * The network and the clock are parameters: an Environment says whether a
 * user is signed in, what time it is, whether the attempt and the analysis
 * were saved and which identifier the stored attempt received.
 */
module Session {
  import opened Wrappers
  import opened Scoring
  import opened Analysis
  import Records

  const InitialTimeLeft: nat := 300

  /** Where the questions came from: a stored category (whose name may not have loaded), or a generated quiz. */
  datatype Origin = FromCategory(categoryId: string, categoryName: Option<string>) | AiGenerated

  datatype Environment = Environment(
    signedIn: bool,
    nowMs: int,
    attemptSaved: bool,
    attemptId: Records.ObjectId,
    analysisSaved: bool)

  /** The attempt sent to the recorder. */
  datatype AttemptPayload = AttemptPayload(
    categoryId: string,
    score: nat,
    totalQuestions: nat,
    timeTaken: int,
    answers: seq<AnswerEntry>)

  datatype Completion =
    | NotSignedIn
    | SaveFailed(rejected: AttemptPayload)
    | Finished(
        score: nat,
        answers: seq<int>,
        timeTaken: int,
        saved: Option<AttemptPayload>,
        storedAnalysis: Option<AnalysisPayload>,
        shownAnalysis: Option<LocalAnalysis>)

  function AttemptOf(c: Completion): Option<AttemptPayload> {
    match c
    case NotSignedIn => None
    case SaveFailed(a) => Some(a)
    case Finished(_, _, _, a, _, _) => a
  }

  /**
   * The answers completion works with: the pending selection written at the
   * current position, then every position still without an answer filled
   * with the sentinel.
   */
  function FinalAnswers(recorded: seq<int>, current: nat, pending: Option<int>, total: nat): (r: seq<int>)
    requires current <= |recorded| <= total
    ensures |r| == total
    ensures forall i :: 0 <= i < total ==>
      r[i] == if pending.Some? && i == current then pending.value
              else if i < |recorded| then recorded[i]
              else Unanswered
  {
    var written := if pending.Some? && current < total then RecordAt(recorded, current, pending.value) else recorded;
    Padded(written, total)
  }

  /** Whole seconds since the session started (the divisor is positive, so this is the floor). */
  function ElapsedSeconds(startMs: int, nowMs: int): int {
    (nowMs - startMs) / 1000
  }

  /** What completing a session with these answers does, given its environment. */
  function CompletionOf(questions: seq<SessionQuestion>, origin: Origin, startMs: int,
                        recorded: seq<int>, current: nat, pending: Option<int>, env: Environment): Completion
    requires current <= |recorded| <= |questions|
  {
    if !env.signedIn then NotSignedIn
    else
      var answers := FinalAnswers(recorded, current, pending, |questions|);
      Conclude(questions, origin, ElapsedSeconds(startMs, env.nowMs), answers, Score(questions, answers), env)
  }

  /**
   * The decisions after scoring: only a session from a category is saved; a
   * failed save leaves the quiz unfinished; a saved one below 80% gets an
   * analysis, shown only when storing the analysis succeeded.
   */
  function Conclude(questions: seq<SessionQuestion>, origin: Origin, timeTaken: int,
                    answers: seq<int>, score: nat, env: Environment): Completion
    requires |answers| == |questions|
  {
    if !origin.FromCategory? || origin.categoryId == "" then
      Finished(score, answers, timeTaken, None, None, None)
    else
      var attempt := AttemptPayload(origin.categoryId, score, |questions|, timeTaken, AnswerEntries(questions, answers));
      if !env.attemptSaved then SaveFailed(attempt)
      else if !NeedsAnalysis(score, |questions|) then Finished(score, answers, timeTaken, Some(attempt), None, None)
      else
        var stored := BuildPersistedAnalysis(env.attemptId, questions, answers, score);
        var shown := if env.analysisSaved then Some(BuildLocalAnalysis(questions, answers, score, origin.categoryName)) else None;
        Finished(score, answers, timeTaken, Some(attempt), Some(stored), shown)
  }

  /** A recorded or pending answer is one of the question's option indices, or the sentinel. */
  predicate AnswerInRange(q: SessionQuestion, v: int) {
    v == Unanswered || 0 <= v < |q.options|
  }

  /** Finalising keeps every answer an option index of its question or the sentinel. */
  lemma FinalAnswersInRange(questions: seq<SessionQuestion>, recorded: seq<int>, current: nat, pending: Option<int>)
    requires current <= |recorded| <= |questions|
    requires forall i :: 0 <= i < |recorded| ==> AnswerInRange(questions[i], recorded[i])
    requires pending.Some? && current < |questions| ==> AnswerInRange(questions[current], pending.value)
    ensures var answers := FinalAnswers(recorded, current, pending, |questions|);
      forall i :: 0 <= i < |answers| ==> AnswerInRange(questions[i], answers[i])
  {
  }

  datatype TickOutcome = CountedDown | TimeUp(completion: Completion) | Idle

  class QuizSession {
    const questions: seq<SessionQuestion>
    const origin: Origin
    const startMs: int
    /** The page starts in timed mode and never leaves it. */
    const timed: bool

    var currentQuestion: nat
    var selectedAnswer: Option<int>
    var userAnswers: seq<int>
    var timeLeft: nat
    var quizCompleted: bool

    /**
     * Every position before the current one holds a recorded answer, no
     * answer lies beyond the question list, and every answer is an option
     * index of its question or the sentinel.
     */
    ghost predicate Valid()
      reads this
    {
      && currentQuestion <= |userAnswers| <= |questions|
      && (|questions| > 0 ==> currentQuestion < |questions|)
      && (forall i :: 0 <= i < |userAnswers| ==> AnswerInRange(questions[i], userAnswers[i]))
      && (selectedAnswer.Some? && currentQuestion < |questions| ==> AnswerInRange(questions[currentQuestion], selectedAnswer.value))
    }

    constructor (questions: seq<SessionQuestion>, origin: Origin, startMs: int)
      ensures Valid()
      ensures this.questions == questions && this.origin == origin && this.startMs == startMs && timed
      ensures currentQuestion == 0 && selectedAnswer.None? && userAnswers == []
      ensures timeLeft == InitialTimeLeft && !quizCompleted
    {
      this.questions := questions;
      this.origin := origin;
      this.startMs := startMs;
      timed := true;
      currentQuestion := 0;
      selectedAnswer := None;
      userAnswers := [];
      timeLeft := InitialTimeLeft;
      quizCompleted := false;
    }

    /** handleAnswerSelect: sets the pending answer and nothing else. */
    method SelectAnswer(answerIndex: int)
      requires Valid()
      requires currentQuestion < |questions| && 0 <= answerIndex < |questions[currentQuestion].options|
      modifies this`selectedAnswer
      ensures Valid()
      ensures selectedAnswer == Some(answerIndex)
    {
      selectedAnswer := Some(answerIndex);
    }

    /** handlePreviousQuestion: steps back one position and restores that position's answer. */
    method Previous()
      requires Valid()
      modifies this`currentQuestion, this`selectedAnswer
      ensures Valid()
      ensures old(currentQuestion) == 0 ==> currentQuestion == 0 && selectedAnswer == old(selectedAnswer)
      ensures old(currentQuestion) > 0 ==>
        && currentQuestion == old(currentQuestion) - 1
        && selectedAnswer == Some(userAnswers[currentQuestion])
    {
      if currentQuestion > 0 {
        currentQuestion := currentQuestion - 1;
        selectedAnswer := RecordedAt(userAnswers, currentQuestion);
      }
    }

    /**
     * handleQuizComplete: finalises the answers (the pending selection, then
     * sentinels up to the number of questions), scores them and, when the
     * attempt is not to be saved or was saved, marks the quiz completed and
     * keeps the final answers. Without a user it changes nothing.
     */
    method Complete(env: Environment) returns (completion: Completion)
      requires Valid()
      modifies this`userAnswers, this`quizCompleted
      ensures Valid()
      ensures completion == CompletionOf(questions, origin, startMs, old(userAnswers), currentQuestion, selectedAnswer, env)
      ensures userAnswers == if completion.Finished? then completion.answers else old(userAnswers)
      ensures quizCompleted == (old(quizCompleted) || completion.Finished?)
    {
      if !env.signedIn {
        return NotSignedIn;
      }
      var total := |questions|;
      var finalAnswers := userAnswers;
      if selectedAnswer.Some? && currentQuestion < total {
        finalAnswers := RecordAt(finalAnswers, currentQuestion, selectedAnswer.value);
      }
      finalAnswers := PadAnswers(finalAnswers, total);
      assert finalAnswers == FinalAnswers(userAnswers, currentQuestion, selectedAnswer, total);
      var score := CalculateScore(questions, finalAnswers);
      completion := Conclude(questions, origin, ElapsedSeconds(startMs, env.nowMs), finalAnswers, score, env);
      FinalAnswersInRange(questions, userAnswers, currentQuestion, selectedAnswer);
      if completion.Finished? {
        quizCompleted := true;
        userAnswers := finalAnswers;
      }
    }

    /**
     * handleNextQuestion: without a pending answer nothing happens; otherwise
     * the answer is recorded at the current position, and then either the
     * next position becomes current with its recorded answer restored, or,
     * on the last question, the quiz is completed.
     */
    method Next(env: Environment) returns (completion: Option<Completion>)
      requires Valid() && |questions| > 0
      modifies this
      ensures Valid()
      ensures old(selectedAnswer).None? ==>
        && completion.None?
        && currentQuestion == old(currentQuestion) && selectedAnswer == old(selectedAnswer)
        && userAnswers == old(userAnswers) && timeLeft == old(timeLeft) && quizCompleted == old(quizCompleted)
      ensures old(selectedAnswer).Some? && old(currentQuestion) < |questions| - 1 ==>
        && completion.None?
        && userAnswers == RecordAt(old(userAnswers), old(currentQuestion), old(selectedAnswer).value)
        && currentQuestion == old(currentQuestion) + 1
        && selectedAnswer == RecordedAt(old(userAnswers), old(currentQuestion) + 1)
        && timeLeft == old(timeLeft) && quizCompleted == old(quizCompleted)
      ensures old(selectedAnswer).Some? && old(currentQuestion) == |questions| - 1 ==>
        var written := RecordAt(old(userAnswers), old(currentQuestion), old(selectedAnswer).value);
        && completion == Some(CompletionOf(questions, origin, startMs, written, old(currentQuestion), old(selectedAnswer), env))
        && userAnswers == (if completion.value.Finished? then completion.value.answers else written)
        && quizCompleted == (old(quizCompleted) || completion.value.Finished?)
        && currentQuestion == old(currentQuestion) && selectedAnswer == old(selectedAnswer) && timeLeft == old(timeLeft)
    {
      completion := None;
      if selectedAnswer.Some? {
        var previous := userAnswers;
        userAnswers := RecordAt(userAnswers, currentQuestion, selectedAnswer.value);
        if currentQuestion < |questions| - 1 {
          currentQuestion := currentQuestion + 1;
          selectedAnswer := RecordedAt(previous, currentQuestion);
        } else {
          var c := Complete(env);
          completion := Some(c);
        }
      }
    }

    /** The timer keeps counting: timed, time left, not completed. */
    predicate Counting()
      reads this
    {
      timed && timeLeft > 0 && !quizCompleted
    }

    /**
     * One firing of the timer effect: while counting, one second less; at
     * zero, before completion, the quiz is completed; otherwise nothing.
     */
    method Tick(env: Environment) returns (outcome: TickOutcome)
      requires Valid()
      modifies this
      ensures Valid()
      ensures currentQuestion == old(currentQuestion) && selectedAnswer == old(selectedAnswer)
      ensures old(Counting()) ==>
        && outcome == CountedDown && timeLeft == old(timeLeft) - 1
        && userAnswers == old(userAnswers) && quizCompleted == old(quizCompleted)
      ensures !old(Counting()) && old(timeLeft) == 0 && !old(quizCompleted) ==>
        && outcome == TimeUp(CompletionOf(questions, origin, startMs, old(userAnswers), currentQuestion, selectedAnswer, env))
        && timeLeft == 0
        && userAnswers == (if outcome.completion.Finished? then outcome.completion.answers else old(userAnswers))
        && quizCompleted == outcome.completion.Finished?
      ensures !old(Counting()) && (old(timeLeft) != 0 || old(quizCompleted)) ==>
        && outcome == Idle
        && timeLeft == old(timeLeft) && userAnswers == old(userAnswers) && quizCompleted == old(quizCompleted)
    {
      if timed && timeLeft > 0 && !quizCompleted {
        timeLeft := timeLeft - 1;
        outcome := CountedDown;
      } else if timeLeft == 0 && !quizCompleted {
        var c := Complete(env);
        outcome := TimeUp(c);
      } else {
        outcome := Idle;
      }
    }
  }
}
