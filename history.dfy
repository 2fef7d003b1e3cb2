/**
 * GET /quiz-attempts: a user's stored attempts, newest first by completion
 * time, each shaped with its category's name and colour (with fallbacks for
 * a missing category) and the most recently created analysis of that
 * attempt by that user, if any.
 */
module History {
  import opened Wrappers
  import opened Records
  import Session
  import Recorder

  const UnknownCategoryName: string := "Unknown Category"
  const UnknownCategoryColor: string := "#6b7280"

  datatype CategoryView = CategoryView(name: string, color: string)

  datatype AnalysisView = AnalysisView(
    overallFeedback: Option<string>,
    weakAreas: seq<string>,
    studyRecommendations: seq<string>,
    nextSteps: seq<string>)

  datatype HistoryEntry = HistoryEntry(
    id: ObjectId,
    score: int,
    totalQuestions: int,
    completedAt: Option<int>,
    timeTaken: Option<int>,
    category: CategoryView,
    analysis: Option<AnalysisView>)

  // ------------------------------------------------------------------ order

  /**
   * Whether completion time x may precede y in a descending order; an attempt
   * without a completion time sorts as the smallest value.
   */
  predicate NotEarlier(x: Option<int>, y: Option<int>) {
    match (x, y)
    case (Some(a), Some(b)) => a >= b
    case (Some(_), None) => true
    case (None, None) => true
    case (None, Some(_)) => false
  }

  predicate NewestFirst(s: seq<AttemptRecord>) {
    forall i, j :: 0 <= i < j < |s| ==> NotEarlier(s[i].completedAt, s[j].completedAt)
  }

  /** x placed into a newest-first list before the first attempt it is not earlier than. */
  function Insert(x: AttemptRecord, s: seq<AttemptRecord>): (r: seq<AttemptRecord>)
    requires NewestFirst(s)
    ensures NewestFirst(r)
    ensures multiset(r) == multiset(s) + multiset{x}
    ensures r != [] && (r[0] == x || (s != [] && r[0] == s[0]))
  {
    if s == [] || NotEarlier(x.completedAt, s[0].completedAt) then
      [x] + s
    else
      var rest := Insert(x, s[1..]);
      assert s == [s[0]] + s[1..];
      HeadNotEarlier(s, x, rest);
      [s[0]] + rest
  }

  /** The head of a newest-first list is not earlier than anything inserted after it. */
  lemma HeadNotEarlier(s: seq<AttemptRecord>, x: AttemptRecord, rest: seq<AttemptRecord>)
    requires NewestFirst(s) && s != [] && !NotEarlier(x.completedAt, s[0].completedAt)
    requires multiset(rest) == multiset(s[1..]) + multiset{x}
    ensures forall k :: 0 <= k < |rest| ==> NotEarlier(s[0].completedAt, rest[k].completedAt)
  {
    forall k | 0 <= k < |rest|
      ensures NotEarlier(s[0].completedAt, rest[k].completedAt)
    {
      assert rest[k] in multiset(rest);
      if rest[k] != x {
        assert rest[k] in multiset(s[1..]);
        var m :| 0 <= m < |s[1..]| && s[1..][m] == rest[k];
        assert s[m + 1] == rest[k];
      }
    }
  }

  /** sort({ completedAt: -1 }): the attempts newest first, the same attempts as before. */
  function SortNewestFirst(s: seq<AttemptRecord>): (r: seq<AttemptRecord>)
    ensures NewestFirst(r)
    ensures multiset(r) == multiset(s)
  {
    if s == [] then []
    else
      assert s == [s[0]] + s[1..];
      Insert(s[0], SortNewestFirst(s[1..]))
  }

  /** find({ userId }): the user's attempts in storage order. */
  function OfUser(attempts: seq<AttemptRecord>, userId: ObjectId): (r: seq<AttemptRecord>)
    ensures forall a :: a in r <==> a in attempts && a.userId == userId
    ensures forall a :: multiset(r)[a] == if a.userId == userId then multiset(attempts)[a] else 0
  {
    if attempts == [] then []
    else
      var rest := OfUser(attempts[1..], userId);
      assert attempts == [attempts[0]] + attempts[1..];
      if attempts[0].userId == userId then [attempts[0]] + rest else rest
  }

  // ------------------------------------------------------------- references

  /** The populated category: the stored category with that identifier, if any. */
  function FindCategory(categories: seq<CategoryRecord>, id: ObjectId): (r: Option<CategoryRecord>)
    ensures r.Some? ==> r.value in categories && r.value.id == id
    ensures r.None? ==> forall c :: c in categories ==> c.id != id
  {
    if categories == [] then None
    else if categories[0].id == id then Some(categories[0])
    else FindCategory(categories[1..], id)
  }

  /** category?.name || 'Unknown Category', category?.color || '#6b7280'. */
  function CategoryViewOf(c: Option<CategoryRecord>): (r: CategoryView)
    ensures r.name == if c.Some? && c.value.name != "" then c.value.name else UnknownCategoryName
    ensures r.color == if c.Some? && c.value.color.Some? && c.value.color.value != "" then c.value.color.value else UnknownCategoryColor
  {
    var name := if c.None? || c.value.name == "" then UnknownCategoryName else c.value.name;
    var color := if c.None? || c.value.color.None? || c.value.color.value == "" then UnknownCategoryColor else c.value.color.value;
    CategoryView(name, color)
  }

  predicate AnalysisOf(a: AnalysisRecord, userId: ObjectId, attemptId: ObjectId) {
    a.userId == userId && a.quizAttemptId == attemptId
  }

  /**
   * findOne({ userId, quizAttemptId }).sort({ createdAt: -1 }): an analysis of
   * that attempt by that user created no earlier than any other, or none.
   */
  function LatestAnalysis(analyses: seq<AnalysisRecord>, userId: ObjectId, attemptId: ObjectId): (r: Option<AnalysisRecord>)
    ensures r.None? <==> forall a :: a in analyses ==> !AnalysisOf(a, userId, attemptId)
    ensures r.Some? ==> r.value in analyses && AnalysisOf(r.value, userId, attemptId)
    ensures r.Some? ==> forall a :: a in analyses && AnalysisOf(a, userId, attemptId) ==> a.createdAt <= r.value.createdAt
  {
    if analyses == [] then None
    else
      var rest := LatestAnalysis(analyses[1..], userId, attemptId);
      var first := analyses[0];
      assert analyses == [first] + analyses[1..];
      if !AnalysisOf(first, userId, attemptId) then rest
      else if rest.None? || rest.value.createdAt <= first.createdAt then Some(first)
      else rest
  }

  function ViewOf(a: AnalysisRecord): AnalysisView {
    AnalysisView(a.overallFeedback, a.weakAreas, a.studyRecommendations, a.nextSteps)
  }

  // ------------------------------------------------------------------ shape

  function EntryOf(a: AttemptRecord, categories: seq<CategoryRecord>, analyses: seq<AnalysisRecord>, userId: ObjectId): (r: HistoryEntry)
    ensures r.id == a.id && r.score == a.score && r.totalQuestions == a.totalQuestions
    ensures r.completedAt == a.completedAt && r.timeTaken == a.timeTaken
  {
    var analysis := LatestAnalysis(analyses, userId, a.id);
    HistoryEntry(a.id, a.score, a.totalQuestions, a.completedAt, a.timeTaken,
                 CategoryViewOf(FindCategory(categories, a.categoryId)),
                 if analysis.Some? then Some(ViewOf(analysis.value)) else None)
  }

  function ListHistory(attempts: seq<AttemptRecord>, categories: seq<CategoryRecord>, analyses: seq<AnalysisRecord>, userId: ObjectId): (r: seq<HistoryEntry>)
  {
    var sorted := SortNewestFirst(OfUser(attempts, userId));
    seq(|sorted|, k requires 0 <= k < |sorted| => EntryOf(sorted[k], categories, analyses, userId))
  }

  /** The history is newest first, those without a completion time last. */
  lemma HistoryNewestFirst(attempts: seq<AttemptRecord>, categories: seq<CategoryRecord>, analyses: seq<AnalysisRecord>, userId: ObjectId)
    ensures var r := ListHistory(attempts, categories, analyses, userId);
      forall i, j :: 0 <= i < j < |r| ==> NotEarlier(r[i].completedAt, r[j].completedAt)
  {
    var sorted := SortNewestFirst(OfUser(attempts, userId));
    var r := ListHistory(attempts, categories, analyses, userId);
    assert forall k :: 0 <= k < |r| ==> r[k].completedAt == sorted[k].completedAt;
  }

  /** Every attempt of the user is listed, with its own score, size and times. */
  lemma HistoryListsEveryAttempt(attempts: seq<AttemptRecord>, categories: seq<CategoryRecord>, analyses: seq<AnalysisRecord>, userId: ObjectId, a: AttemptRecord)
    requires a in attempts && a.userId == userId
    ensures var r := ListHistory(attempts, categories, analyses, userId);
      exists k :: 0 <= k < |r| && r[k] == EntryOf(a, categories, analyses, userId)
  {
    var mine := OfUser(attempts, userId);
    var sorted := SortNewestFirst(mine);
    var r := ListHistory(attempts, categories, analyses, userId);
    assert a in multiset(mine);
    assert a in multiset(sorted);
    var k :| 0 <= k < |sorted| && sorted[k] == a;
    assert r[k] == EntryOf(a, categories, analyses, userId);
  }

  /** Every listed entry is one of the user's attempts. */
  lemma HistoryListsOnlyUsersAttempts(attempts: seq<AttemptRecord>, categories: seq<CategoryRecord>, analyses: seq<AnalysisRecord>, userId: ObjectId, k: nat)
    requires k < |ListHistory(attempts, categories, analyses, userId)|
    ensures exists a :: a in attempts && a.userId == userId
                        && ListHistory(attempts, categories, analyses, userId)[k] == EntryOf(a, categories, analyses, userId)
  {
    var mine := OfUser(attempts, userId);
    var sorted := SortNewestFirst(mine);
    assert sorted[k] in multiset(sorted);
    assert sorted[k] in mine;
  }

  /**
   * The history has one entry per attempt of the user: its entries describe,
   * in order, a sequence holding each of the user's attempts exactly as often
   * as the store does, and nothing else.
   */
  lemma HistoryLength(attempts: seq<AttemptRecord>, categories: seq<CategoryRecord>, analyses: seq<AnalysisRecord>, userId: ObjectId)
    ensures var r := ListHistory(attempts, categories, analyses, userId);
      var sorted := SortNewestFirst(OfUser(attempts, userId));
      && |r| == |sorted|
      && (forall k :: 0 <= k < |r| ==> r[k] == EntryOf(sorted[k], categories, analyses, userId))
      && (forall a :: multiset(sorted)[a] == if a.userId == userId then multiset(attempts)[a] else 0)
  {
    var mine := OfUser(attempts, userId);
    assert multiset(SortNewestFirst(mine)) == multiset(mine);
  }

  /**
   * Each entry's category is the stored one's name and colour, or the
   * fallbacks when the category is gone; its analysis is the latest one the
   * user stored for that attempt, or none.
   */
  lemma EntryReferences(a: AttemptRecord, categories: seq<CategoryRecord>, analyses: seq<AnalysisRecord>, userId: ObjectId)
    ensures var e := EntryOf(a, categories, analyses, userId);
      && ((forall c :: c in categories ==> c.id != a.categoryId) ==>
            e.category == CategoryView(UnknownCategoryName, UnknownCategoryColor))
      && (forall c :: c in categories && c.id == a.categoryId && c.name != "" && c.color.Some? && c.color.value != ""
            && (forall d :: d in categories && d.id == a.categoryId ==> d == c)
            ==> e.category == CategoryView(c.name, c.color.value))
      && (e.analysis.None? <==> forall x :: x in analyses ==> !AnalysisOf(x, userId, a.id))
      && (e.analysis.Some? ==>
            exists x :: (&& x in analyses && AnalysisOf(x, userId, a.id) && e.analysis == Some(ViewOf(x))
                         && forall y :: y in analyses && AnalysisOf(y, userId, a.id) ==> y.createdAt <= x.createdAt))
  {
  }

  /** An analysis created after every earlier one for the same attempt is the one the history shows. */
  lemma NewerAnalysisWins(analyses: seq<AnalysisRecord>, b: AnalysisRecord)
    requires forall a :: a in analyses && AnalysisOf(a, b.userId, b.quizAttemptId) ==> a.createdAt < b.createdAt
    ensures LatestAnalysis(analyses + [b], b.userId, b.quizAttemptId) == Some(b)
  {
    assert b in analyses + [b];
  }

  /**
   * An attempt the recorder stored appears in its user's history with the
   * score, size and time the session sent, the time it was recorded, the
   * view of the category it names, and an analysis exactly when the user
   * stored one for it.
   */
  lemma RecordedAttemptListed(attempts: seq<AttemptRecord>, categories: seq<CategoryRecord>, analyses: seq<AnalysisRecord>,
                              id: ObjectId, userId: ObjectId, nowMs: int, p: Session.AttemptPayload)
    requires Recorder.RecordAttempt(id, userId, nowMs, p).Success?
    ensures var rec := Recorder.RecordAttempt(id, userId, nowMs, p).value;
      var r := ListHistory(attempts + [rec], categories, analyses, userId);
      && Some(rec.categoryId) == Records.ParseObjectId(p.categoryId)
      && exists k :: && 0 <= k < |r| && r[k] == EntryOf(rec, categories, analyses, userId)
                     && r[k].id == id && r[k].score == p.score && r[k].totalQuestions == p.totalQuestions
                     && r[k].timeTaken == Some(p.timeTaken) && r[k].completedAt == Some(nowMs)
                     && r[k].category == CategoryViewOf(FindCategory(categories, rec.categoryId))
                     && (r[k].analysis.None? <==> forall x :: x in analyses ==> !AnalysisOf(x, userId, id))
  {
    var rec := Recorder.RecordAttempt(id, userId, nowMs, p).value;
    assert rec in attempts + [rec];
    HistoryListsEveryAttempt(attempts + [rec], categories, analyses, userId, rec);
    EntryReferences(rec, categories, analyses, userId);
  }
}
