/**
 * Scoring of a quiz session: the answers a session records, the unanswered
 * sentinel, the score as the number of exact index matches, the per-question
 * answer entries sent to the attempt recorder, and the loop that counts.
 */
module Scoring {
  import opened Wrappers
  import Records

  /** The marker written for a question that was never answered. */
  const Unanswered: int := -1

  /** Questions come from the store (with their identifier) or from a generated quiz (by position). */
  datatype QuestionKey = StoredKey(id: Records.ObjectId) | GeneratedKey(index: nat)

  /** A question as the session holds it. */
  datatype SessionQuestion = SessionQuestion(
    key: QuestionKey,
    text: string,
    options: seq<string>,
    correctAnswer: int,
    explanation: Option<string>)

  /** The answer recorded at position i, if any (reading past the end gives none). */
  function RecordedAt(answers: seq<int>, i: int): (r: Option<int>)
    ensures r.Some? <==> 0 <= i < |answers|
    ensures r.Some? ==> r.value == answers[i]
  {
    if 0 <= i < |answers| then Some(answers[i]) else None
  }

  /**
   * Writing position i of an answer list: overwrites an existing entry or
   * appends one at the end; every other position keeps its entry.
   */
  function RecordAt(answers: seq<int>, i: nat, v: int): (r: seq<int>)
    requires i <= |answers|
    ensures |r| == if i < |answers| then |answers| else |answers| + 1
    ensures r[i] == v
    ensures forall j :: 0 <= j < |answers| && j != i ==> r[j] == answers[j]
  {
    if i < |answers| then answers[i := v] else answers + [v]
  }

  /** The answer list extended with the sentinel up to length n. */
  function Padded(answers: seq<int>, n: nat): (r: seq<int>)
    ensures |r| == if |answers| < n then n else |answers|
    ensures r[..|answers|] == answers
    ensures forall j :: |answers| <= j < |r| ==> r[j] == Unanswered
  {
    if |answers| < n then answers + seq(n - |answers|, _ => Unanswered) else answers
  }

  /** Whether position i holds the correct option of question i. */
  predicate Matches(questions: seq<SessionQuestion>, answers: seq<int>, i: int) {
    0 <= i < |questions| && i < |answers| && answers[i] == questions[i].correctAnswer
  }

  /** The number of matching positions below n. */
  function ScoreBelow(questions: seq<SessionQuestion>, answers: seq<int>, n: nat): nat
    requires n <= |answers|
  {
    if n == 0 then 0
    else ScoreBelow(questions, answers, n - 1) + (if Matches(questions, answers, n - 1) then 1 else 0)
  }

  /** The score: how many positions hold their question's correct option. */
  function Score(questions: seq<SessionQuestion>, answers: seq<int>): nat {
    ScoreBelow(questions, answers, |answers|)
  }

  /** The set of positions the score counts. */
  function MatchSet(questions: seq<SessionQuestion>, answers: seq<int>, n: nat): set<nat> {
    set i: nat | i < n && Matches(questions, answers, i)
  }

  lemma {:induction false} ScoreBelowIsMatchCount(questions: seq<SessionQuestion>, answers: seq<int>, n: nat)
    requires n <= |answers|
    ensures ScoreBelow(questions, answers, n) == |MatchSet(questions, answers, n)|
    ensures ScoreBelow(questions, answers, n) <= n
    ensures ScoreBelow(questions, answers, n) <= |questions|
  {
    if n > 0 {
      ScoreBelowIsMatchCount(questions, answers, n - 1);
      var below := MatchSet(questions, answers, n - 1);
      if Matches(questions, answers, n - 1) {
        assert MatchSet(questions, answers, n) == below + {n - 1};
      } else {
        assert MatchSet(questions, answers, n) == below;
      }
    }
  }

  /**
   * The score is the number of positions whose answer equals the question's
   * correct option, so it never exceeds the number of questions or answers.
   */
  lemma ScoreIsMatchCount(questions: seq<SessionQuestion>, answers: seq<int>)
    ensures Score(questions, answers) == |MatchSet(questions, answers, |answers|)|
    ensures 0 <= Score(questions, answers) <= |answers|
    ensures Score(questions, answers) <= |questions|
  {
    ScoreBelowIsMatchCount(questions, answers, |answers|);
  }

  lemma {:induction false} ScoreBelowChange(questions: seq<SessionQuestion>, answers: seq<int>, k: nat, v: int, n: nat)
    requires k < |answers| && n <= |answers|
    ensures var changed := answers[k := v];
      ScoreBelow(questions, changed, n) + (if k < n && Matches(questions, answers, k) then 1 else 0)
      == ScoreBelow(questions, answers, n) + (if k < n && Matches(questions, changed, k) then 1 else 0)
  {
    if n > 0 {
      ScoreBelowChange(questions, answers, k, v, n - 1);
    }
  }

  /**
   * Marking a position unanswered removes exactly that position's point, if it
   * had one: the sentinel never matches a correct option in [0, 3].
   */
  lemma UnansweredCountsAsWrong(questions: seq<SessionQuestion>, answers: seq<int>, k: nat)
    requires k < |answers| && k < |questions| && questions[k].correctAnswer >= 0
    ensures Score(questions, answers[k := Unanswered])
            == Score(questions, answers) - (if answers[k] == questions[k].correctAnswer then 1 else 0)
  {
    ScoreBelowChange(questions, answers, k, Unanswered, |answers|);
  }

  /** calculateScore: a counting loop over the answers, equal to Score. */
  method CalculateScore(questions: seq<SessionQuestion>, answers: seq<int>) returns (correct: nat)
    ensures correct == Score(questions, answers)
  {
    correct := 0;
    var index := 0;
    while index < |answers|
      invariant 0 <= index <= |answers|
      invariant correct == ScoreBelow(questions, answers, index)
    {
      if index < |questions| && answers[index] == questions[index].correctAnswer {
        correct := correct + 1;
      }
      index := index + 1;
    }
  }

  /** The padding loop of completion: appends the sentinel until there are n answers. */
  method PadAnswers(answers: seq<int>, n: nat) returns (r: seq<int>)
    ensures r == Padded(answers, n)
  {
    r := answers;
    while |r| < n
      invariant |answers| <= |r|
      invariant |r| > |answers| ==> |r| <= n
      invariant r[..|answers|] == answers
      invariant forall j :: |answers| <= j < |r| ==> r[j] == Unanswered
      decreases n - |r|
    {
      r := r + [Unanswered];
    }
    var p := Padded(answers, n);
    assert |r| == |p|;
    assert forall j :: 0 <= j < |r| ==> r[j] == p[j] by {
      forall j | 0 <= j < |r|
        ensures r[j] == p[j]
      {
        if j < |answers| {
          assert r[..|answers|][j] == p[..|answers|][j];
        }
      }
    }
  }

  /** One answer entry of the attempt payload. */
  datatype AnswerEntry = AnswerEntry(questionKey: QuestionKey, selectedAnswer: int, isCorrect: bool)

  /** The payload's answer entries: question i's key, the answer at i, and the same match test as the score. */
  function AnswerEntries(questions: seq<SessionQuestion>, answers: seq<int>): (r: seq<AnswerEntry>)
    requires |answers| <= |questions|
    ensures |r| == |answers|
    ensures forall i :: 0 <= i < |answers| ==>
      r[i].questionKey == questions[i].key && r[i].selectedAnswer == answers[i]
      && r[i].isCorrect == Matches(questions, answers, i)
  {
    seq(|answers|, i requires 0 <= i < |answers| => AnswerEntry(questions[i].key, answers[i], answers[i] == questions[i].correctAnswer))
  }

  function CountCorrect(entries: seq<AnswerEntry>): nat {
    if entries == [] then 0
    else CountCorrect(entries[..|entries| - 1]) + (if entries[|entries| - 1].isCorrect then 1 else 0)
  }

  /** The number of entries flagged correct is the score: both use the same test. */
  lemma {:induction false} EntriesAgreeWithScore(questions: seq<SessionQuestion>, answers: seq<int>)
    requires |answers| <= |questions|
    ensures CountCorrect(AnswerEntries(questions, answers)) == Score(questions, answers)
  {
    var entries := AnswerEntries(questions, answers);
    EntriesPrefix(questions, answers, |answers|);
    assert entries[..|answers|] == entries;
  }

  lemma {:induction false} EntriesPrefix(questions: seq<SessionQuestion>, answers: seq<int>, k: nat)
    requires |answers| <= |questions| && k <= |answers|
    ensures CountCorrect(AnswerEntries(questions, answers)[..k]) == ScoreBelow(questions, answers, k)
  {
    if k > 0 {
      var entries := AnswerEntries(questions, answers);
      assert entries[..k][..k - 1] == entries[..k - 1];
      EntriesPrefix(questions, answers, k - 1);
    }
  }
}
