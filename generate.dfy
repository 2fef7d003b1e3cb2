/**
 * POST /generate-quiz: without a usable API key, and whenever the model's
 * reply is missing, unsuccessful, malformed or unparsable, the reply is a
 * fixed three-question quiz echoing the requested topic and difficulty;
 * otherwise the reply's text, stripped of a Markdown code fence, is parsed
 * as JSON and returned as it is. The request to the model and the JSON
 * parser are parameters: the model's reply is a value, the parser a function.
 */
module QuizGeneration {
  import opened Wrappers
  import opened Text

  const DefaultDifficulty: string := "medium"
  const DefaultQuestionCount: int := 5
  const PlaceholderKey: string := "your-gemini-api-key-here"

  /** A request body's fields; None is an absent field. */
  datatype GenerateRequest = GenerateRequest(topic: Option<string>, difficulty: Option<string>, questionCount: Option<int>)

  /** The destructuring defaults apply only to absent fields. */
  function EffectiveDifficulty(r: GenerateRequest): (d: string)
    ensures r.difficulty.None? ==> d == DefaultDifficulty
    ensures r.difficulty.Some? ==> d == r.difficulty.value
  {
    r.difficulty.GetOr(DefaultDifficulty)
  }

  function EffectiveQuestionCount(r: GenerateRequest): (n: int)
    ensures r.questionCount.None? ==> n == DefaultQuestionCount
    ensures r.questionCount.Some? ==> n == r.questionCount.value
  {
    r.questionCount.GetOr(DefaultQuestionCount)
  }

  datatype QuizItem = QuizItem(question: string, options: seq<string>, correctAnswer: int, explanation: string)

  /** The fixed questions (the fourth option of the first is stored as "O(n" U+00C2 U+00B2 ")"). */
  const MockQuestions: seq<QuizItem> := [
    QuizItem("What is the time complexity of binary search?",
             ["O(1)", "O(log n)", "O(n)", "O(n\U{00C2}\U{00B2})"], 1,
             "Binary search has a time complexity of O(log n) because it divides the search space in half with each iteration."),
    QuizItem("Which data structure uses LIFO (Last In, First Out)?",
             ["Queue", "Stack", "Tree", "Graph"], 1,
             "A stack uses LIFO principle where the last element added is the first one to be removed."),
    QuizItem("What is the primary purpose of a hash table?",
             ["Sorting data", "Fast lookups", "Memory management", "Data compression"], 1,
             "Hash tables provide average O(1) time complexity for insertions and lookups, making them ideal for fast data retrieval.")
  ]

  /** A reply's content: the fixed quiz, or whatever the parser made of the model's text. */
  datatype Reply<J> = MockQuiz(questions: seq<QuizItem>, topic: Option<string>, difficulty: string) | Generated(data: J)

  // The model's HTTP reply, as far as the handler looks into it.
  datatype Part = Part(text: Option<string>)
  datatype Content = Content(parts: seq<Part>)
  datatype Candidate = Candidate(content: Option<Content>)
  datatype ModelReply =
    | FetchFailed
    | NotOk
    | BodyUnreadable
    | Body(candidates: Option<seq<Candidate>>)

  /** A missing, empty or placeholder key means the model is not called. */
  predicate UsableKey(key: Option<string>) {
    key.Some? && key.value != "" && key.value != PlaceholderKey
  }

  /** data.candidates[0].content.parts[0].text, when every step of that path exists. */
  function GeneratedText(reply: ModelReply): (r: Option<string>)
    ensures r.Some? ==> reply.Body? && reply.candidates.Some? && |reply.candidates.value| > 0
  {
    if !reply.Body? || reply.candidates.None? || |reply.candidates.value| == 0 then None
    else
      var first := reply.candidates.value[0];
      if first.content.None? || |first.content.value.parts| == 0 then None
      else first.content.value.parts[0].text
  }

  // -------------------------------------------------------------- fences

  const Fence: string := "```"
  const JsonFence: string := "```json"

  /** The first occurrence of /tag\n?/ removed from a string that starts with tag. */
  function DropOpening(s: string, tag: string): (r: string)
    requires StartsWith(s, tag)
    ensures r == s[|tag|..] || (|s| > |tag| && s[|tag|] == '\n' && r == s[|tag| + 1..])
  {
    var t := s[|tag|..];
    if t != [] && t[0] == '\n' then t[1..] else t
  }

  /** /\n?```$/ removed: a closing fence at the very end, with the newline before it. */
  function DropClosing(s: string): (r: string)
    ensures r <= s
    ensures !EndsWith(s, Fence) ==> r == s
  {
    if EndsWith(s, "\n" + Fence) then s[..|s| - 4]
    else if EndsWith(s, Fence) then s[..|s| - 3]
    else s
  }

  function StripFences(generated: string): (r: string) {
    var t0 := Trim(generated);
    var t1 := if StartsWith(t0, JsonFence) then DropClosing(DropOpening(t0, JsonFence)) else t0;
    if StartsWith(t1, Fence) then DropClosing(DropOpening(t1, Fence)) else t1
  }

  /** Text that does not start with a fence once trimmed is only trimmed. */
  lemma UnfencedTextTrimmed(generated: string)
    requires !StartsWith(Trim(generated), Fence)
    ensures StripFences(generated) == Trim(generated)
  {
    JsonFenceIsFence(Trim(generated));
  }

  /** Text opening with a JSON fence opens with a fence. */
  lemma JsonFenceIsFence(s: string)
    ensures StartsWith(s, JsonFence) ==> StartsWith(s, Fence)
  {
    if StartsWith(s, JsonFence) {
      assert s[..3] == s[..7][..3];
    }
  }

  /** A fence tag followed by a newline and a body, closed by a fence on its own line. */
  function Fenced(tag: string, x: string): string {
    tag + ("\n" + x + "\n" + Fence)
  }

  lemma FencedTrimmed(tag: string, x: string)
    requires StartsWith(tag, Fence)
    ensures Trim(Fenced(tag, x)) == Fenced(tag, x)
  {
    var s := Fenced(tag, x);
    assert s[0] == tag[0];
    assert s[|s| - 1] == '`';
    TrimOfTrimmed(s);
  }

  lemma FencedOpening(tag: string, x: string)
    ensures StartsWith(Fenced(tag, x), tag)
    ensures DropOpening(Fenced(tag, x), tag) == x + "\n" + Fence
  {
    var rest := "\n" + x + "\n" + Fence;
    var s := tag + rest;
    assert s[..|tag|] == tag;
    assert s[|tag|..] == rest;
    assert rest == "\n" + (x + "\n" + Fence);
  }

  lemma ClosingDropped(x: string)
    ensures DropClosing(x + "\n" + Fence) == x
  {
    var closed := x + ("\n" + Fence);
    assert closed == x + "\n" + Fence;
    assert closed[|x|..] == "\n" + Fence;
    assert closed[..|x|] == x;
  }

  lemma FencedParts(tag: string, x: string)
    requires StartsWith(tag, Fence)
    ensures var s := Fenced(tag, x);
      && Trim(s) == s
      && StartsWith(s, tag)
      && DropOpening(s, tag) == x + "\n" + Fence
      && DropClosing(x + "\n" + Fence) == x
  {
    FencedTrimmed(tag, x);
    FencedOpening(tag, x);
    ClosingDropped(x);
  }

  /** A JSON-tagged fence around text that is not itself fenced yields the text. */
  lemma JsonFenceRoundTrip(x: string)
    requires !StartsWith(x, Fence)
    ensures StripFences(Fenced(JsonFence, x)) == x
  {
    assert JsonFence[..3] == Fence;
    FencedParts(JsonFence, x);
  }

  lemma PlainFenceNotJson(x: string)
    ensures !StartsWith(Fenced(Fence, x), JsonFence)
  {
    var s := Fenced(Fence, x);
    assert s == Fence + ("\n" + x + "\n" + Fence);
    assert s[3] == '\n';
    assert |s| >= 7 && s[..7][3] == '\n' && JsonFence[3] == 'j';
    assert s[..7] != JsonFence;
  }

  /** A plain fence around any text yields the text. */
  lemma PlainFenceRoundTrip(x: string)
    ensures StripFences(Fenced(Fence, x)) == x
  {
    FencedParts(Fence, x);
    PlainFenceNotJson(x);
  }

  // ------------------------------------------------------------- handler

  /** The handler's reply, given the key, the model's reply and the JSON parser. */
  function GenerateQuiz<J>(request: GenerateRequest, key: Option<string>, reply: ModelReply, parse: string -> Option<J>): (r: Reply<J>)
    ensures r.MockQuiz? ==> r == MockQuiz(MockQuestions, request.topic, EffectiveDifficulty(request))
    ensures r.Generated? <==>
      && UsableKey(key)
      && GeneratedText(reply).Some?
      && parse(StripFences(GeneratedText(reply).value)).Some?
    ensures r.Generated? ==> Some(r.data) == parse(StripFences(GeneratedText(reply).value))
  {
    var mock := MockQuiz(MockQuestions, request.topic, EffectiveDifficulty(request));
    if !UsableKey(key) then mock
    else
      match GeneratedText(reply)
      case None => mock
      case Some(text) =>
        match parse(StripFences(text))
        case None => mock
        case Some(data) => Generated(data)
  }

  /** Every failure on the way to the model's text gives the fixed quiz. */
  lemma FailuresGiveMock<J>(request: GenerateRequest, key: Option<string>, reply: ModelReply, parse: string -> Option<J>)
    requires !UsableKey(key) || reply.FetchFailed? || reply.NotOk? || reply.BodyUnreadable?
             || (reply.Body? && (reply.candidates.None? || reply.candidates.value == []))
    ensures GenerateQuiz(request, key, reply, parse) == MockQuiz(MockQuestions, request.topic, EffectiveDifficulty(request))
  {
  }

  /** The fixed quiz is three questions of four options each, the correct one among them. */
  lemma MockQuizWellFormed()
    ensures |MockQuestions| == 3
    ensures forall k :: 0 <= k < |MockQuestions| ==>
      |MockQuestions[k].options| == 4 && 0 <= MockQuestions[k].correctAnswer < 4
  {
  }
}
