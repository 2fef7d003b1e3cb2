# Quiz Lab core, modelled in Dafny

Quiz Lab is a quiz web application. The model covers its core:

- **the quiz session** (`src/pages/Quiz.tsx`). A user works through a question list one question at a time. They pick an answer, then move to the next or the previous question, while a 300-second timer counts down. Completion:
  - writes the pending answer;
  - pads the unanswered positions with the sentinel `-1`;
  - counts the exact matches;
  - saves the attempt, but only for a quiz from a stored category;
  - stores and shows a templated analysis when the score is below 80%. The analysis covers the first three missed questions, ranked high / medium / low.
- **the server's logic** (`server/index.ts`):
  - *question fetch*: a `count` read as `parseInt` reads it and clamped to [1, 100], and a `random` flag; the result is either the first `count` questions or a random sample;
  - *attempt and analysis recorders*: they stamp the user and the time on the document and validate it against the schema;
  - *history*: attempts newest first, each with its populated category and its latest analysis;
  - *statistics*: the weighted average and the best percentage, both rounded as `Math.round` does;
  - *quiz generation*: a fixed mock quiz on every failure path, otherwise the model's text with its Markdown code fence stripped, then parsed;
  - *find-or-create seeding*.
- **the schema validators** for questions (`QuizQuestion.ts`) and attempts (`QuizAttempt.ts`).
- **the history page helpers** (`src/components/QuizHistory.tsx`):
  - time formatting;
  - the score colour bands and the percentage text;
  - the priority colours and labels;
  - the recommendations panel;
  - the page states.

Each web or persistence operation is a function from the store's contents to a reply. The clock, the identifiers the store assigns, whether a network call succeeded, the model's reply and the JSON parser all become parameters.

The session is a class, `Session.QuizSession`. Its fields are the page's state variables, and its methods are the page's handlers. Each handler is proved against `Session.CompletionOf` and the helpers `FinalAnswers`, `RecordAt` and `RecordedAt`.

Seeding is a class as well, `Seeding.SeedStore`. Its loops are proved equal to the specification functions `CategoriesSeeded`, `QuestionsSeeded` and `Seeded`.

Numbers are modelled as follows:

- Percentages are exact rationals.
- `Math.round(x)` is `floor(x + 0.5)`.
- JavaScript's `%` on negative operands is written out explicitly as `HistoryView.JsRem`.

Where the model could follow either the code or a description of the code, it follows the code:

- Completion shows the local analysis only when storing the analysis succeeded. This is because the `setAiAnalysis` call sits inside the same `try` block as the store call.
- A session whose attempt fails to save is not marked completed.

Modules (one file each):

- `Wrappers`, `Text` and `Numbers` hold shared helpers.
- `Records` holds the stored documents and the schemas.
- `Scoring`, `Analysis`, `Session` and `Outcomes` cover the session engine.
- `Recorder`, `QuestionFetch`, `Stats`, `History`, `QuizGeneration` and `Seeding` cover the server routes.
- `HistoryView` covers the history page.

## Model

| member | source | states |
|---|---|---|
| Numbers.JsRound | server/index.ts:273-274 | the rounded value lies within half a unit of x, on the side Math.round picks for halves |
| Numbers.PercentageBelow | src/pages/Quiz.tsx:191-192 | with questions, (score / total) * 100 < b holds exactly when score * 100 < b * total |
| Numbers.PercentageInRange | server/index.ts:263-268 | a score within [0, total] gives a percentage within [0, 100] |
| Records.ValidateQuestion | src/integrations/mongodb/models/QuizQuestion.ts:14-52 | a question document is stored iff it has a category, a text that is non-empty once trimmed, exactly 4 options, a correct answer in [0, 3] and either no difficulty or one of easy / medium / hard; otherwise the set of violated fields is non-empty; the stored text and explanation are trimmed and an absent difficulty becomes medium |
| Records.ValidateQuestionRoundTrip | src/integrations/mongodb/models/QuizQuestion.ts:20-49 | every well-formed question, written back as a document, validates to itself |
| Records.SentinelAnswerRejected | src/integrations/mongodb/models/QuizAttempt.ts:46-51 | an attempt with any answer entry selecting -1 fails the attempt schema |
| Records.ScoreAboveTotalAccepted | src/integrations/mongodb/models/QuizAttempt.ts:30-39 | the schema accepts an attempt whose score exceeds its number of questions (nothing relates the two) |
| Records.IntendedWidensSchema | src/integrations/mongodb/models/QuizAttempt.ts:46-51 | the corrected answer constraint accepts everything the schema accepts, and agrees with it on attempts without the sentinel |
| Scoring.RecordedAt | src/pages/Quiz.tsx:145 | `userAnswers[i] ?? null`: an answer exactly for positions inside the list, and then the recorded one |
| Scoring.RecordAt | src/pages/Quiz.tsx:139-141 | writing position i overwrites it, or appends at the end; every other position keeps its answer |
| Scoring.Padded | src/pages/Quiz.tsx:168-170 | padding keeps the answers as a prefix and fills every new position with -1 up to the number of questions |
| Scoring.PadAnswers | src/pages/Quiz.tsx:168-170 | the padding loop returns the answers extended with -1 up to the number of questions |
| Scoring.ScoreIsMatchCount | src/pages/Quiz.tsx:285-293 | the score is the number of positions whose answer equals the question's correct option, and is at most the number of answers and of questions |
| Scoring.UnansweredCountsAsWrong | src/pages/Quiz.tsx:168-172 | replacing an answer with the sentinel removes exactly that position's point, if it had one |
| Scoring.CalculateScore | src/pages/Quiz.tsx:285-293 | the counting loop returns the score, the number of exact matches |
| Scoring.AnswerEntries | src/pages/Quiz.tsx:183-187 | one entry per answer: question i's key, the answer at i, and isCorrect exactly when the answer matches |
| Scoring.EntriesAgreeWithScore | src/pages/Quiz.tsx:183-187 | the number of entries flagged correct equals the score |
| Analysis.NeedsAnalysisIsBelow80Percent | src/pages/Quiz.tsx:191-192 | the analysis condition is percentage < 80 for a non-empty quiz and false for an empty one (NaN < 80) |
| Analysis.IncorrectFrom | src/pages/Quiz.tsx:196-198 | the result holds every incorrectly answered position from i on, only those, in increasing order |
| Analysis.WeakAreasAreFirstIncorrect | src/pages/Quiz.tsx:196-224 | the weak areas are the first (at most three) missed questions in order; each has its question text as topic and its explanation or the fixed fallback as description, and they are ranked high, medium, low |
| Analysis.PersistedKeepsTopicsOnly | src/pages/Quiz.tsx:201-246 | the stored analysis names the shown weak areas' topics in the same order, with the same feedback and next steps, for the saved attempt |
| Analysis.LowScoreHasWeakArea | src/pages/Quiz.tsx:191-201 | a score below 80% always yields at least one weak area |
| Session.FinalAnswers | src/pages/Quiz.tsx:162-170 | one answer per question: the pending selection at the current position, otherwise the recorded answer, otherwise -1 |
| Session.FinalAnswersInRange | src/pages/Quiz.tsx:162-170 | finalising keeps every answer an option index of its question or the sentinel |
| Session.QuizSession.constructor | src/pages/Quiz.tsx:42-48 | a fresh session is at question 0 with no selection and no answers, 300 seconds left, timed, not completed |
| Session.QuizSession.SelectAnswer | src/pages/Quiz.tsx:133-135 | sets the pending answer and nothing else |
| Session.QuizSession.Previous | src/pages/Quiz.tsx:152-157 | at question 0 nothing changes; otherwise steps back one and restores that position's recorded answer |
| Session.QuizSession.Next | src/pages/Quiz.tsx:137-150 | without a selection nothing changes; otherwise records it, then either advances and restores the next recorded answer or, on the last question, completes the quiz |
| Session.QuizSession.Complete | src/pages/Quiz.tsx:159-283 | returns CompletionOf for the current state; keeps the final answers and marks the quiz completed exactly when the completion finished |
| Session.QuizSession.Tick | src/pages/Quiz.tsx:124-131 | while counting, one second less; at zero before completion, completes the quiz; otherwise nothing changes |
| Outcomes.NoUserNoCompletion | src/pages/Quiz.tsx:160 | completion does nothing exactly when no user is signed in |
| Outcomes.FinishedScore | src/pages/Quiz.tsx:162-173 | a finished quiz has one answer per question (pending, recorded or -1), a score equal to the match count and at most the total, and the elapsed whole seconds as its time |
| Outcomes.AttemptSentFromCategoryOnly | src/pages/Quiz.tsx:175-188 | an attempt is sent iff a signed-in user completes a category quiz; a failed save is the only unfinished signed-in outcome; the attempt carries the category, the score, the total, the time and per-question entries whose flags count to the score |
| Outcomes.AnalysisBelow80Only | src/pages/Quiz.tsx:190-252 | an analysis is stored iff a saved attempt scored below 80%; it refers to the stored attempt and names one to three missed questions; it is shown iff storing it succeeded, with the same topics |
| Outcomes.RecordedIffFullyAnswered | src/pages/Quiz.tsx:168-188 | as written, a session's attempt is accepted by the recorder iff no position was left unanswered |
| Outcomes.UnansweredSessionNeverCompletes | src/pages/Quiz.tsx:168-170 | as written, a category quiz with an unanswered position is rejected by the recorder, so it ends as a failed save |
| Outcomes.SessionAttemptStoredIntended | src/pages/Quiz.tsx:168-188 | under the corrected constraint every such session's attempt is stored |
| Recorder.AttemptDocument | server/index.ts:179-190 | the document has one answer entry per sent entry, each carrying the question's identifier (generated keys have none), the selected answer and the flag |
| Recorder.RecordAttempt | server/index.ts:177-198 | the attempt is stored iff its document passes the attempt schema, and the stored fields are the body's, stamped with the user and the completion time; otherwise the reply is a 500 |
| Recorder.RecordAttemptIntended | src/integrations/mongodb/models/QuizAttempt.ts:46-51 | the recorder under the corrected constraint: stored iff that constraint holds, with the same fields |
| Recorder.RecordAnalysis | server/index.ts:284-306 | the stored analysis refers to the given attempt and user, is stamped with the time, and has its feedback, weak areas, study recommendations and next steps trimmed, one by one |
| QuestionFetch.ParseInt | server/index.ts:152 | parseInt(s, 10) is NaN exactly when no digit follows the leading white space and optional sign |
| QuestionFetch.ParseIntOfRendering | server/index.ts:152 | parseInt reads back every decimal rendering, with or without a minus sign |
| QuestionFetch.Clamp | server/index.ts:152 | the clamped count lies within [1, 100] and equals n when n does; below 1 gives 1, above 100 gives 100 |
| QuestionFetch.NormalizeCount | server/index.ts:150-152 | a missing or empty count means 10; a readable count is clamped to [1, 100]; an unreadable one is NaN |
| QuestionFetch.CountWithinBoundsKept | server/index.ts:152 | a decimal count within [1, 100] is taken as it is |
| QuestionFetch.InCategory | server/index.ts:166 | the result holds exactly the stored questions of the category, never more than the store |
| QuestionFetch.InCategoryInStorageOrder | server/index.ts:166 | the category's questions are the stored questions at the matching positions, taken in increasing storage position, each matching position exactly once |
| QuestionFetch.FirstInCategory | server/index.ts:166 | the result is a prefix of the category's questions, of length min(count, their number) |
| QuestionFetch.FetchStableUnderAppend | server/index.ts:166 | storing more questions never changes a fetch the category could already fill |
| QuestionFetch.SampleExists | server/index.ts:159-164 | a sample of min(count, pool size) distinct pool questions always exists |
| QuestionFetch.SampleFromPool | server/index.ts:159-164 | every sampled question is one of the category's |
| QuestionFetch.GetQuestions | server/index.ts:147-174 | an empty or "undefined" category gives no questions; an identifier that cannot be cast is a 500; otherwise the category's first `count` questions, or a sample of that size in random mode, all from that category |
| QuestionFetch.DefaultRequest | server/index.ts:150-153 | without parameters: count 10, not random, min(10, category size) questions |
| Stats.BestPercentage | server/index.ts:263-268 | the best percentage is at least every attempt's and equals one of them |
| Stats.NoAttemptsAllZero | server/index.ts:250-257 | a user without attempts gets zeros throughout |
| Stats.BestScoreIsMaximum | server/index.ts:263-274 | the reported best is at least every attempt's rounded percentage and is one of them |
| Stats.AverageAtMostBest | server/index.ts:259-274 | the weighted average never exceeds the best percentage, before or after rounding |
| Stats.BestScoreInRange | server/index.ts:263-274 | scores within [0, total] give a best score within [0, 100] |
| Stats.TotalTimeAppend | server/index.ts:269 | the total time of two runs of attempts is the sum of their totals |
| Stats.AverageIsWeighted | server/index.ts:259-262 | the average weights by question count: 8/10 and 6/10 give 70, while 1/1 and 0/3 give 25 and not 50 |
| History.Insert | server/index.ts:207 | inserting into a newest-first list keeps it newest first, and the contents become the old ones plus the new attempt |
| History.SortNewestFirst | server/index.ts:207 | the sorted attempts are newest first (a missing time last) and are a permutation of the input |
| History.OfUser | server/index.ts:204 | the result holds each of the user's attempts exactly as often as the store does, and no other attempt |
| History.FindCategory | server/index.ts:205 | the populated category has the attempt's identifier, or none exists |
| History.CategoryViewOf | server/index.ts:229-232 | the name and colour are the category's when present and non-empty, otherwise "Unknown Category" and "#6b7280" |
| History.LatestAnalysis | server/index.ts:211-214 | none iff the user stored no analysis for the attempt; otherwise one of theirs, created no earlier than any other |
| History.EntryOf | server/index.ts:223-234 | the entry keeps the attempt's identifier, score, size and times |
| History.HistoryNewestFirst | server/index.ts:204-207 | the history is ordered newest first, attempts without a completion time last |
| History.HistoryListsEveryAttempt | server/index.ts:204-235 | every attempt of the user appears as an entry |
| History.HistoryListsOnlyUsersAttempts | server/index.ts:204 | every entry is one of the user's attempts |
| History.HistoryLength | server/index.ts:204-235 | there is exactly one entry per attempt of the user: the entries describe, in order, a sequence holding each of the user's stored attempts exactly as often as the store does, and nothing else |
| History.EntryReferences | server/index.ts:209-233 | a missing category gives the fallbacks, a unique stored one gives its name and colour; the analysis is absent iff there is none, and is otherwise the latest one |
| History.NewerAnalysisWins | server/index.ts:211-214 | an analysis created after every earlier one for the same attempt is the one shown |
| History.RecordedAttemptListed | server/index.ts:177-235 | an attempt the recorder stored appears in the user's history with the score, size and time sent, the time it was recorded, the view of the category it names, and an analysis exactly when the user stored one for it |
| HistoryView.JsRem | src/components/QuizHistory.tsx:76 | the remainder takes the sign of the dividend and is smaller than the divisor in magnitude |
| HistoryView.FormatTimeRoundTrip | src/components/QuizHistory.tsx:74-78 | reading "{m}m {s}s" back gives the original non-negative number of seconds |
| HistoryView.FormatTimeInjective | src/components/QuizHistory.tsx:74-78 | distinct non-negative times render differently |
| HistoryView.ZeroTimeRendersStrayText | src/components/QuizHistory.tsx:142-144 | as written, a time of 0 renders the stray text "0", unlike a missing time |
| HistoryView.TimeSlotOf | src/components/QuizHistory.tsx:142-144 | corrected: the time line appears iff there is a non-zero time, showing that time formatted; otherwise nothing; it agrees with the code for every time other than 0 |
| HistoryView.ScoreColorBands | src/components/QuizHistory.tsx:80-85 | green iff at least 80%, yellow iff in [60%, 80%), red iff below 60% |
| HistoryView.ScoreColorMonotone | src/components/QuizHistory.tsx:80-85 | a better score never gets a worse colour |
| HistoryView.PriorityColorCases | src/components/QuizHistory.tsx:87-94 | high, medium and low get red, yellow and green, and every other value gets grey |
| HistoryView.PriorityLabel | src/components/QuizHistory.tsx:189 | the label is never empty: a non-empty priority upper-cased, otherwise "MEDIUM" |
| HistoryView.PriorityLabelOfName | src/components/QuizHistory.tsx:189 | the three priorities are labelled HIGH, MEDIUM and LOW |
| HistoryView.ShownTips | src/components/QuizHistory.tsx:214 | the shown tips are a prefix of the tips, of length min(2, n) |
| HistoryView.PanelOf | src/components/QuizHistory.tsx:159-240 | the panel appears iff the analysis exists and its feedback is non-empty; it has one badge per weak area, one tip list per recommendation, and the next steps numbered from 1 |
| HistoryView.CardOf | src/components/QuizHistory.tsx:131-200 | as written: a card always has a title and a colour (the category's when non-empty, otherwise the fallbacks); no time slot iff the time is missing, the stray "0" iff the time is 0, otherwise the formatted time; a panel iff the analysis has non-empty feedback |
| HistoryView.CardOfIntended | src/components/QuizHistory.tsx:142-144 | corrected card: never the stray "0"; for a time of 0 nothing where the page shows "0"; otherwise the same card the page renders |
| HistoryView.StoredAreasShowMedium | src/components/QuizHistory.tsx:186-217 | stored weak areas are strings, so every badge is the grey MEDIUM default and no tips are listed |
| HistoryView.Page | src/components/QuizHistory.tsx:43-129 | without a user, the log-in prompt; with one, the empty state iff there are no attempts; otherwise an "{n} attempts" label and one card per entry, in order |
| HistoryView.HistoryTitlesFromRoute | src/components/QuizHistory.tsx:136 | for the history route's entries, every card's title is the name the route sent, which is never empty |
| QuizGeneration.EffectiveDifficulty | server/index.ts:310 | an absent difficulty defaults to "medium", and a present one is kept |
| QuizGeneration.EffectiveQuestionCount | server/index.ts:310 | an absent question count defaults to 5, and a present one is kept |
| QuizGeneration.GeneratedText | server/index.ts:418-423 | text is found only in a readable body with a non-empty candidate list |
| QuizGeneration.DropOpening | server/index.ts:428 | removes the opening tag and at most one newline after it |
| QuizGeneration.DropClosing | server/index.ts:428 | the result is a prefix, unchanged unless the text ends with a fence |
| QuizGeneration.UnfencedTextTrimmed | server/index.ts:426-432 | text without a fence is only trimmed |
| QuizGeneration.JsonFenceRoundTrip | server/index.ts:426-432 | a ```json fence around unfenced text strips back to that text |
| QuizGeneration.PlainFenceRoundTrip | server/index.ts:426-432 | a plain ``` fence around any text strips back to that text |
| QuizGeneration.GenerateQuiz | server/index.ts:308-439 | the generated reply is returned iff the key is usable, the text exists and the stripped text parses, and it is then the parse; every other case is the mock quiz with the request's topic and difficulty |
| QuizGeneration.FailuresGiveMock | server/index.ts:340-421 | an unusable key, a failed fetch, a non-ok or unreadable reply, or no candidates give the mock quiz |
| QuizGeneration.MockQuizWellFormed | server/index.ts:316-336 | the mock quiz has three questions of four options each, with the correct answer among them |
| Seeding.CategorySeedsValid | server/index.ts:450-459 | the eight seed categories have non-empty, trimmed names |
| Seeding.FindCategoryNamed | server/index.ts:464 | the first category with that name, or none exists |
| Seeding.FindQuestion | server/index.ts:804-807 | the first question with that text in that category, or none exists |
| Seeding.AddCategory | server/index.ts:463-469 | one category step changes no question and only extends the categories |
| Seeding.AddQuestion | server/index.ts:803-811 | one question step changes no category and only extends the questions |
| Seeding.CategoriesAgree | server/index.ts:462-469 | after the category loop, every name in the map resolves in the store to the identifier in the map |
| Seeding.QuestionsFindable | server/index.ts:803-812 | after a successful question loop, every seed question is found by its text and category |
| Seeding.SeedTwiceNoChange | server/index.ts:447-813 | a second successful seeding run changes nothing |
| Seeding.SeedingStaysDistinct | server/index.ts:447-813 | seeding keeps category names distinct and (text, category) keys of questions distinct |
| Seeding.FailureStops | server/index.ts:803-817 | once a question fails, the rest of the loop changes nothing |
| Seeding.SeedStore.SeedCategories | server/index.ts:462-469 | the loop leaves the store and the name map its specification gives |
| Seeding.SeedStore.SeedQuestions | server/index.ts:803-812 | the loop leaves the store and the success flag its specification gives, stopping at the first failure |
| Seeding.SeedStore.SeedData | server/index.ts:447-818 | categories then questions, as the whole-run specification gives |

## Left out

- Authentication is left out: sign-up, sign-in, password hashing, JWT tokens and the middleware. A signed-in user is a flag, or the caller's identifier.
- Express routing, CORS, database connections, HTTP status plumbing and logging are left out. Replies are values, and the 500 replies are `Failure` or `Failed`.
- The generative model call and the JSON parser are left out, because they are foreign calls. The model's reply is a parameter and the parser is a function parameter. Generated JSON is returned unvalidated, as the code does.
- The store's random sampling (`$sample`) is a nondeterministic choice of a sample. Which sample is drawn is not modelled.
- Tie order in Mongo sorts (equal completion or creation times) is not modelled. The history proves only the newest-first order, and the latest analysis is any one with the greatest creation time.
- Populating `answers.questionId` in the history route is left out; the page never reads it.
- Timestamps (`createdAt`, `updatedAt`) are left out, except the analysis creation time the history sorts by.
- Records.ParseObjectId: only 24-digit hexadecimal strings cast to an identifier. Other strings the driver might cast, such as 12-byte strings, are treated as invalid.
- The client wrapper around the routes is left out. It drops the `count` and `random` options the page passes, so the page's request for 20 random questions is not modelled as reaching the server.
- Loading screens, toasts, navigation, `localStorage` and the progress bar of the quiz page are left out, because they are presentation only. Questions are a constructor parameter.
- The page's countdown formatter (`Quiz.tsx` lines 295-299) is left out, because it is display only.
- The history page's `formatDate` is left out, because it depends on the locale and the clock. Its React hook order is also left out.
- The answer explanations step is left out, because it is a no-op in the code.
- Session.QuizSession.Complete: a repeated completion (the timer and the last Next together) is not prevented, as in the code. The model does not capture the two runs overlapping in time.
- Numbers.JsRound: percentages are exact rationals, so floating-point rounding of `(score / total) * 100` is not modelled. For example, 29/200 rounds on the exact value.
- HistoryView.FormatTimeRoundTrip: the round trip is stated for non-negative times only. Stored times are never negative.
- Seeding.SeedStore.SeedData: the 24 transcribed seed questions are a parameter, not a constant. A seed question naming an unknown category counts as a failed create.
- Seeding.AddQuestion: the store's lookup with an undefined category identifier is treated as not found. Every seed question in the code names a seed category.
- Recorder.RecordAnalysis: the analysis route's 500 reply when storing fails (server/index.ts:300-303) is not modelled here. The recorder always succeeds; a failed save is the session's `env.analysisSaved` flag.
- HistoryView.PriorityLabel: upper-casing is ASCII only, whereas JavaScript's `toUpperCase` is full Unicode. The stored priorities high, medium and low are ASCII, so their labels agree.
- QuestionFetch.NormalizeCount: a NaN count reaching the database driver is modelled as a distinct reply, `UnreadableCount`. What the driver then does is not modelled.

## Findings

| source | as written | input that shows it | evidently intended | confidence | as-written member | corrected member |
|---|---|---|---|---|---|---|
| src/pages/Quiz.tsx:168-170 with src/integrations/mongodb/models/QuizAttempt.ts:46-51 | the session pads unanswered questions with -1, but the attempt schema requires every selectedAnswer in [0, 3], so saving fails and the quiz is never marked completed | a category quiz where the timer runs out with question 2 unanswered | unanswered positions are stored (the schema admits the sentinel -1) | not executed | Outcomes.UnansweredSessionNeverCompletes | Outcomes.SessionAttemptStoredIntended |
| src/components/QuizHistory.tsx:142-144 | `{quiz.time_taken && (...)}` renders the number itself when time_taken is 0 | an attempt with time_taken 0 shows a stray "0" in its card | nothing is shown for a zero time | not executed | HistoryView.CardOf | HistoryView.CardOfIntended |
