/**
 * The persisted records and the schema constraints the storage layer checks
 * before it writes one: questions, attempts with their answer entries,
 * analyses and categories. A `...Input` datatype is the document as written
 * by a caller (absent fields are None); validation either rejects it or
 * produces the stored record, with defaults applied and strings trimmed.
 */
module Records {
  import opened Wrappers
  import opened Text

  /** Object identifiers, by their 96-bit value. */
  type ObjectId = nat

  function HexValue(c: char): Option<nat> {
    if '0' <= c <= '9' then Some(c as int - '0' as int)
    else if 'a' <= c <= 'f' then Some(c as int - 'a' as int + 10)
    else if 'A' <= c <= 'F' then Some(c as int - 'A' as int + 10)
    else None
  }

  function ParseHex(s: string): Option<nat> {
    if s == [] then Some(0)
    else match (ParseHex(s[..|s| - 1]), HexValue(s[|s| - 1]))
      case (Some(high), Some(low)) => Some(high * 16 + low)
      case _ => None
  }

  /** The identifier a 24-digit hexadecimal string denotes; any other string is not castable to one. */
  function ParseObjectId(s: string): (r: Option<ObjectId>)
    ensures r.Some? ==> |s| == 24
  {
    if |s| == 24 then ParseHex(s) else None
  }

  // ---------------------------------------------------------------- questions

  datatype Difficulty = Easy | Medium | Hard

  function ParseDifficulty(s: string): Option<Difficulty> {
    if s == "easy" then Some(Easy)
    else if s == "medium" then Some(Medium)
    else if s == "hard" then Some(Hard)
    else None
  }

  function DifficultyName(d: Difficulty): string {
    match d
    case Easy => "easy"
    case Medium => "medium"
    case Hard => "hard"
  }

  datatype QuestionInput = QuestionInput(
    categoryId: Option<ObjectId>,
    question: Option<string>,
    options: Option<seq<string>>,
    correctAnswer: Option<int>,
    explanation: Option<string>,
    difficulty: Option<string>)

  /** A stored question's fields. */
  datatype Question = Question(
    categoryId: ObjectId,
    text: string,
    options: seq<string>,
    correctAnswer: int,
    explanation: Option<string>,
    difficulty: Difficulty)

  datatype QuestionRecord = QuestionRecord(id: ObjectId, fields: Question)

  /** What every stored question satisfies. */
  predicate WellFormedQuestion(q: Question) {
    && q.text != [] && IsTrimmed(q.text)
    && |q.options| == 4
    && 0 <= q.correctAnswer <= 3
    && (q.explanation.Some? ==> IsTrimmed(q.explanation.value))
  }

  datatype QuestionField = CategoryIdField | QuestionTextField | OptionsField | CorrectAnswerField | DifficultyField

  /** The fields whose constraint a question document violates. */
  function QuestionViolations(d: QuestionInput): set<QuestionField> {
    (if d.categoryId.None? then {CategoryIdField} else {})
    + (if d.question.None? || Trim(d.question.value) == [] then {QuestionTextField} else {})
    + (if d.options.None? || |d.options.value| != 4 then {OptionsField} else {})
    + (if d.correctAnswer.None? || !(0 <= d.correctAnswer.value <= 3) then {CorrectAnswerField} else {})
    + (if d.difficulty.Some? && ParseDifficulty(d.difficulty.value).None? then {DifficultyField} else {})
  }

  /**
   * Validation of a question document: it is stored exactly when every field
   * constraint holds; the stored text and explanation are trimmed and an absent
   * difficulty becomes Medium.
   */
  function ValidateQuestion(d: QuestionInput): (r: Result<Question, set<QuestionField>>)
    ensures r.Failure? ==> r.error != {}
    ensures r.Success? <==>
      && d.categoryId.Some?
      && d.question.Some? && Trim(d.question.value) != []
      && d.options.Some? && |d.options.value| == 4
      && d.correctAnswer.Some? && 0 <= d.correctAnswer.value <= 3
      && (d.difficulty.None? || d.difficulty.value in {"easy", "medium", "hard"})
    ensures r.Success? ==> WellFormedQuestion(r.value)
    ensures r.Success? ==>
      && r.value.categoryId == d.categoryId.value
      && r.value.text == Trim(d.question.value)
      && r.value.options == d.options.value
      && r.value.correctAnswer == d.correctAnswer.value
      && (d.explanation.None? ==> r.value.explanation.None?)
      && (d.explanation.Some? ==> r.value.explanation == Some(Trim(d.explanation.value)))
      && (d.difficulty.None? ==> r.value.difficulty == Medium)
      && (d.difficulty.Some? ==> DifficultyName(r.value.difficulty) == d.difficulty.value)
  {
    var violations := QuestionViolations(d);
    if violations != {} then Failure(violations)
    else
      var text := Trim(d.question.value);
      var explanation := if d.explanation.None? then None else Some(Trim(d.explanation.value));
      var difficulty := if d.difficulty.None? then Medium else ParseDifficulty(d.difficulty.value).value;
      Success(Question(d.categoryId.value, text, d.options.value, d.correctAnswer.value, explanation, difficulty))
  }

  /** The document that writes a question back unchanged. */
  function QuestionToInput(q: Question): QuestionInput {
    QuestionInput(Some(q.categoryId), Some(q.text), Some(q.options), Some(q.correctAnswer),
                  q.explanation, Some(DifficultyName(q.difficulty)))
  }

  /** A difficulty's name parses back to it. */
  lemma DifficultyNameRoundTrip(d: Difficulty)
    ensures DifficultyName(d) in {"easy", "medium", "hard"}
    ensures ParseDifficulty(DifficultyName(d)) == Some(d)
    ensures forall e :: DifficultyName(e) == DifficultyName(d) ==> e == d
  {
  }

  /** Every well-formed question passes validation and is stored as it is. */
  lemma ValidateQuestionRoundTrip(q: Question)
    requires WellFormedQuestion(q)
    ensures ValidateQuestion(QuestionToInput(q)).Success?
    ensures ValidateQuestion(QuestionToInput(q)).value == q
  {
    var d := QuestionToInput(q);
    TrimOfTrimmed(q.text);
    if q.explanation.Some? {
      TrimOfTrimmed(q.explanation.value);
    }
    DifficultyNameRoundTrip(q.difficulty);
    var r := ValidateQuestion(d);
    assert r.Success?;
    var v := r.value;
    assert v.categoryId == q.categoryId && v.text == q.text && v.options == q.options;
    assert v.correctAnswer == q.correctAnswer && v.explanation == q.explanation;
    assert v.difficulty == q.difficulty;
  }

  // ----------------------------------------------------------------- attempts

  datatype AnswerInput = AnswerInput(questionId: Option<ObjectId>, selectedAnswer: Option<int>, isCorrect: Option<bool>)

  datatype AttemptInput = AttemptInput(
    userId: Option<ObjectId>,
    categoryId: Option<ObjectId>,
    score: Option<int>,
    totalQuestions: Option<int>,
    answers: seq<AnswerInput>,
    timeTaken: Option<int>,
    completedAt: Option<int>)

  /** An answer entry needs a question, an isCorrect flag and a selected option in [0, 3]. */
  predicate AnswerInputValid(e: AnswerInput) {
    && e.questionId.Some?
    && e.selectedAnswer.Some? && 0 <= e.selectedAnswer.value <= 3
    && e.isCorrect.Some?
  }

  /** The attempt schema's constraints: nothing relates score, totalQuestions and the answers. */
  predicate AttemptInputValid(a: AttemptInput) {
    && a.userId.Some?
    && a.categoryId.Some?
    && a.score.Some? && a.score.value >= 0
    && a.totalQuestions.Some? && a.totalQuestions.value >= 1
    && (forall k :: 0 <= k < |a.answers| ==> AnswerInputValid(a.answers[k]))
    && (a.timeTaken.Some? ==> a.timeTaken.value >= 0)
  }

  /** An answer entry carrying the unanswered sentinel -1 makes the whole attempt invalid. */
  lemma SentinelAnswerRejected(a: AttemptInput, k: nat)
    requires k < |a.answers| && a.answers[k].selectedAnswer == Some(-1)
    ensures !AttemptInputValid(a)
  {
    assert !AnswerInputValid(a.answers[k]);
  }

  /** The schema admits a score above the number of questions. */
  lemma ScoreAboveTotalAccepted()
    ensures exists a :: AttemptInputValid(a) && a.score.value > a.totalQuestions.value
  {
    var a := AttemptInput(Some(1), Some(2), Some(5), Some(1), [], None, None);
    assert AttemptInputValid(a);
  }

  /**
   * The answer-entry constraint the quiz session evidently needs: a selected
   * option in [0, 3] or the unanswered sentinel -1.
   */
  predicate AnswerInputValidIntended(e: AnswerInput) {
    && e.questionId.Some?
    && e.selectedAnswer.Some? && -1 <= e.selectedAnswer.value <= 3
    && e.isCorrect.Some?
  }

  predicate AttemptInputValidIntended(a: AttemptInput) {
    && a.userId.Some?
    && a.categoryId.Some?
    && a.score.Some? && a.score.value >= 0
    && a.totalQuestions.Some? && a.totalQuestions.value >= 1
    && (forall k :: 0 <= k < |a.answers| ==> AnswerInputValidIntended(a.answers[k]))
    && (a.timeTaken.Some? ==> a.timeTaken.value >= 0)
  }

  /** The intended constraint only widens the schema by the sentinel. */
  lemma IntendedWidensSchema(a: AttemptInput)
    ensures AttemptInputValid(a) ==> AttemptInputValidIntended(a)
    ensures AttemptInputValidIntended(a) && (forall k :: 0 <= k < |a.answers| ==> a.answers[k].selectedAnswer != Some(-1))
            ==> AttemptInputValid(a)
  {
  }

  /** A stored attempt. */
  datatype AttemptRecord = AttemptRecord(
    id: ObjectId,
    userId: ObjectId,
    categoryId: ObjectId,
    score: int,
    totalQuestions: int,
    answers: seq<AnswerInput>,
    timeTaken: Option<int>,
    completedAt: Option<int>)

  // ------------------------------------------------- analyses and categories

  /** A stored analysis: weak areas, recommendations and next steps are plain strings. */
  datatype AnalysisRecord = AnalysisRecord(
    id: ObjectId,
    userId: ObjectId,
    quizAttemptId: ObjectId,
    overallFeedback: Option<string>,
    weakAreas: seq<string>,
    studyRecommendations: seq<string>,
    nextSteps: seq<string>,
    createdAt: int)

  datatype CategoryRecord = CategoryRecord(
    id: ObjectId,
    name: string,
    description: Option<string>,
    color: Option<string>,
    icon: Option<string>)
}
