/**
 * POST /seed-data: find-or-create seeding. Each seed category is looked up
 * by name and created when missing, and its identifier is remembered by
 * name; then each seed question is looked up by its text and category and
 * created when missing. A question the schema rejects stops the run (the
 * writes before it stay). Identifiers come from a counter in the store.
 */
module Seeding {
  import opened Wrappers
  import opened Text
  import opened Records

  datatype CategorySeed = CategorySeed(name: string, description: string, color: string, icon: string)

  datatype QuestionSeed = QuestionSeed(
    categoryName: string,
    question: string,
    options: seq<string>,
    correctAnswer: int,
    explanation: string,
    difficulty: string)

  const CategorySeeds: seq<CategorySeed> := [
    CategorySeed("JavaScript", "Core JavaScript concepts", "#f7df1e", "Code"),
    CategorySeed("React", "React framework fundamentals", "#61dafb", "Brain"),
    CategorySeed("Node.js", "Server-side JavaScript", "#339933", "Server"),
    CategorySeed("Database", "Database concepts and SQL", "#336791", "Database"),
    CategorySeed("Web Security", "Web security best practices", "#ff6b6b", "Shield"),
    CategorySeed("API Design", "RESTful API design principles", "#4ecdc4", "Globe"),
    CategorySeed("Performance", "Web performance optimization", "#45b7d1", "Cpu"),
    CategorySeed("Testing", "Software testing methodologies", "#96ceb4", "Clock")
  ]

  /** The store's contents: categories and questions in insertion order, and the next fresh identifier. */
  datatype Catalog = Catalog(categories: seq<CategoryRecord>, questions: seq<QuestionRecord>, nextId: nat)

  /** Seed categories the store accepts and finds again by name: non-empty, trimmed names. */
  predicate ValidCategorySeeds(seed: seq<CategorySeed>) {
    forall k :: 0 <= k < |seed| ==> seed[k].name != [] && IsTrimmed(seed[k].name)
  }

  lemma CategorySeedsValid()
    ensures ValidCategorySeeds(CategorySeeds)
  {
  }

  // ------------------------------------------------------------ lookups

  /** findOne({ name }): the first category with that name. */
  function FindCategoryNamed(categories: seq<CategoryRecord>, name: string): (r: Option<CategoryRecord>)
    ensures r.Some? ==> r.value in categories && r.value.name == name
    ensures r.None? <==> forall c :: c in categories ==> c.name != name
  {
    if categories == [] then None
    else if categories[0].name == name then Some(categories[0])
    else FindCategoryNamed(categories[1..], name)
  }

  /** findOne({ question, categoryId }): the first question with that text in that category. */
  function FindQuestion(questions: seq<QuestionRecord>, text: string, categoryId: ObjectId): (r: Option<QuestionRecord>)
    ensures r.Some? ==> r.value in questions && r.value.fields.text == text && r.value.fields.categoryId == categoryId
    ensures r.None? <==> forall q :: q in questions ==> !(q.fields.text == text && q.fields.categoryId == categoryId)
  {
    if questions == [] then None
    else if questions[0].fields.text == text && questions[0].fields.categoryId == categoryId then Some(questions[0])
    else FindQuestion(questions[1..], text, categoryId)
  }

  lemma {:induction false} FindCategoryAppend(categories: seq<CategoryRecord>, more: seq<CategoryRecord>, name: string)
    requires FindCategoryNamed(categories, name).Some?
    ensures FindCategoryNamed(categories + more, name) == FindCategoryNamed(categories, name)
  {
    assert (categories + more)[0] == categories[0];
    if categories[0].name != name {
      assert (categories + more)[1..] == categories[1..] + more;
      FindCategoryAppend(categories[1..], more, name);
    }
  }

  lemma {:induction false} FindQuestionAppend(questions: seq<QuestionRecord>, more: seq<QuestionRecord>, text: string, categoryId: ObjectId)
    requires FindQuestion(questions, text, categoryId).Some?
    ensures FindQuestion(questions + more, text, categoryId) == FindQuestion(questions, text, categoryId)
  {
    assert (questions + more)[0] == questions[0];
    if !(questions[0].fields.text == text && questions[0].fields.categoryId == categoryId) {
      assert (questions + more)[1..] == questions[1..] + more;
      FindQuestionAppend(questions[1..], more, text, categoryId);
    }
  }

  // ------------------------------------------------------- one step each

  function NewCategory(id: ObjectId, d: CategorySeed): CategoryRecord {
    CategoryRecord(id, Trim(d.name), Some(Trim(d.description)), Some(Trim(d.color)), Some(Trim(d.icon)))
  }

  /** One category: found by name, or created with the next identifier. */
  function AddCategory(st: Catalog, d: CategorySeed): (r: (Catalog, ObjectId))
    ensures r.0.questions == st.questions && st.categories <= r.0.categories && st.nextId <= r.0.nextId
  {
    match FindCategoryNamed(st.categories, d.name)
    case Some(c) => (st, c.id)
    case None => (Catalog(st.categories + [NewCategory(st.nextId, d)], st.questions, st.nextId + 1), st.nextId)
  }

  /** The document a seed question is created from, its category resolved by name. */
  function QuestionDocument(d: QuestionSeed, categoryMap: map<string, ObjectId>): QuestionInput {
    QuestionInput(if d.categoryName in categoryMap then Some(categoryMap[d.categoryName]) else None,
                  Some(d.question), Some(d.options), Some(d.correctAnswer), Some(d.explanation), Some(d.difficulty))
  }

  /**
   * One question: found by text and category, or created; false when its
   * category is unknown or the schema rejects it.
   */
  function AddQuestion(st: Catalog, d: QuestionSeed, categoryMap: map<string, ObjectId>): (r: (Catalog, bool))
    ensures r.0.categories == st.categories && st.questions <= r.0.questions && st.nextId <= r.0.nextId
  {
    if d.categoryName !in categoryMap then (st, false)
    else
      var categoryId := categoryMap[d.categoryName];
      if FindQuestion(st.questions, d.question, categoryId).Some? then (st, true)
      else
        match ValidateQuestion(QuestionDocument(d, categoryMap))
        case Failure(_) => (st, false)
        case Success(q) => (Catalog(st.categories, st.questions + [QuestionRecord(st.nextId, q)], st.nextId + 1), true)
  }

  // ---------------------------------------------------- whole loops (spec)

  /** The category loop over a seed list: the store after it and the name-to-identifier map. */
  function CategoriesSeeded(st: Catalog, seed: seq<CategorySeed>): (r: (Catalog, map<string, ObjectId>))
    ensures r.0.questions == st.questions && st.categories <= r.0.categories && st.nextId <= r.0.nextId
  {
    if seed == [] then (st, map[])
    else
      var before := CategoriesSeeded(st, seed[..|seed| - 1]);
      var step := AddCategory(before.0, seed[|seed| - 1]);
      (step.0, before.1[seed[|seed| - 1].name := step.1])
  }

  /** The question loop over a seed list: the store after it, and whether every question went through. */
  function QuestionsSeeded(st: Catalog, seed: seq<QuestionSeed>, categoryMap: map<string, ObjectId>): (r: (Catalog, bool))
    ensures r.0.categories == st.categories && st.questions <= r.0.questions && st.nextId <= r.0.nextId
  {
    if seed == [] then (st, true)
    else
      var before := QuestionsSeeded(st, seed[..|seed| - 1], categoryMap);
      if !before.1 then before
      else AddQuestion(before.0, seed[|seed| - 1], categoryMap)
  }

  /** The whole seeding run: categories, then questions. */
  function Seeded(st: Catalog, categorySeed: seq<CategorySeed>, questionSeed: seq<QuestionSeed>): (r: (Catalog, bool))
    ensures st.categories <= r.0.categories && st.questions <= r.0.questions && st.nextId <= r.0.nextId
  {
    var cats := CategoriesSeeded(st, categorySeed);
    QuestionsSeeded(cats.0, questionSeed, cats.1)
  }

  // ------------------------------------------------------------ properties

  /** The map agrees with lookups by name in the store. */
  predicate MapAgrees(categories: seq<CategoryRecord>, categoryMap: map<string, ObjectId>) {
    forall n :: n in categoryMap ==>
      FindCategoryNamed(categories, n).Some? && FindCategoryNamed(categories, n).value.id == categoryMap[n]
  }

  /** One step of the category loop keeps the map in agreement with the store. */
  lemma CategoryStepAgrees(before: Catalog, categoryMap: map<string, ObjectId>, d: CategorySeed)
    requires MapAgrees(before.categories, categoryMap) && d.name != [] && IsTrimmed(d.name)
    ensures var step := AddCategory(before, d);
      MapAgrees(step.0.categories, categoryMap[d.name := step.1])
  {
    var step := AddCategory(before, d);
    var m := categoryMap[d.name := step.1];
    if FindCategoryNamed(before.categories, d.name).None? {
      TrimOfTrimmed(d.name);
      var added := [NewCategory(before.nextId, d)];
      forall n | n in m
        ensures FindCategoryNamed(step.0.categories, n).Some? && FindCategoryNamed(step.0.categories, n).value.id == m[n]
      {
        if n == d.name {
          FindCategoryMissingAppend(before.categories, added, n);
        } else {
          FindCategoryAppend(before.categories, added, n);
        }
      }
    }
  }

  /** After the category loop the map holds, for each name, the identifier a lookup by that name finds. */
  lemma {:induction false} CategoriesAgree(st: Catalog, seed: seq<CategorySeed>)
    requires ValidCategorySeeds(seed)
    ensures MapAgrees(CategoriesSeeded(st, seed).0.categories, CategoriesSeeded(st, seed).1)
  {
    if seed != [] {
      var prefix := seed[..|seed| - 1];
      assert ValidCategorySeeds(prefix) by {
        assert forall k :: 0 <= k < |prefix| ==> prefix[k] == seed[k];
      }
      CategoriesAgree(st, prefix);
      var before := CategoriesSeeded(st, prefix);
      CategoryStepAgrees(before.0, before.1, seed[|seed| - 1]);
    }
  }

  /** The names of a category seed list. */
  function Names(seed: seq<CategorySeed>): (r: set<string>)
    ensures forall k :: 0 <= k < |seed| ==> seed[k].name in r
    ensures forall n :: n in r ==> exists k :: 0 <= k < |seed| && seed[k].name == n
  {
    if seed == [] then {}
    else
      var prefix := seed[..|seed| - 1];
      assert forall k :: 0 <= k < |prefix| ==> prefix[k] == seed[k];
      Names(prefix) + {seed[|seed| - 1].name}
  }

  /** The category loop's map has exactly the seed names as keys. */
  lemma {:induction false} CategoryMapKeys(st: Catalog, seed: seq<CategorySeed>)
    ensures CategoriesSeeded(st, seed).1.Keys == Names(seed)
  {
    if seed != [] {
      CategoryMapKeys(st, seed[..|seed| - 1]);
    }
  }

  lemma {:induction false} FindCategoryMissingAppend(categories: seq<CategoryRecord>, added: seq<CategoryRecord>, name: string)
    requires FindCategoryNamed(categories, name).None?
    requires added != [] && added[0].name == name
    ensures FindCategoryNamed(categories + added, name) == Some(added[0])
  {
    if categories == [] {
      assert categories + added == added;
    } else {
      assert (categories + added)[0] == categories[0];
      assert (categories + added)[1..] == categories[1..] + added;
      FindCategoryMissingAppend(categories[1..], added, name);
    }
  }

  /** A category loop whose every name is already stored changes nothing and maps each name to what a lookup finds. */
  lemma {:induction false} CategoriesStable(st: Catalog, seed: seq<CategorySeed>)
    requires forall k :: 0 <= k < |seed| ==> FindCategoryNamed(st.categories, seed[k].name).Some?
    ensures CategoriesSeeded(st, seed).0 == st
  {
    if seed != [] {
      var prefix := seed[..|seed| - 1];
      assert forall k :: 0 <= k < |prefix| ==> prefix[k] == seed[k];
      CategoriesStable(st, prefix);
      assert FindCategoryNamed(st.categories, seed[|seed| - 1].name).Some?;
    }
  }

  /** Seed questions the store finds again once created: trimmed text. */
  predicate TrimmedQuestionSeeds(seed: seq<QuestionSeed>) {
    forall k :: 0 <= k < |seed| ==> IsTrimmed(seed[k].question)
  }

  predicate AllFound(questions: seq<QuestionRecord>, seed: seq<QuestionSeed>, categoryMap: map<string, ObjectId>) {
    forall k :: 0 <= k < |seed| ==>
      seed[k].categoryName in categoryMap
      && FindQuestion(questions, seed[k].question, categoryMap[seed[k].categoryName]).Some?
  }

  /** A step of the question loop that goes through keeps every earlier seed findable and makes its own so. */
  lemma QuestionStepFinds(before: Catalog, prefix: seq<QuestionSeed>, d: QuestionSeed, categoryMap: map<string, ObjectId>)
    requires AllFound(before.questions, prefix, categoryMap) && IsTrimmed(d.question)
    requires AddQuestion(before, d, categoryMap).1
    ensures AllFound(AddQuestion(before, d, categoryMap).0.questions, prefix + [d], categoryMap)
  {
    if FindQuestion(before.questions, d.question, categoryMap[d.categoryName]).None? {
      QuestionCreatedFinds(before, prefix, d, categoryMap);
    } else {
      var seed := prefix + [d];
      forall k | 0 <= k < |seed|
        ensures seed[k].categoryName in categoryMap
        ensures FindQuestion(before.questions, seed[k].question, categoryMap[seed[k].categoryName]).Some?
      {
        if k < |prefix| {
          assert seed[k] == prefix[k];
        }
      }
    }
  }

  /** A created seed question is stored under the seed's own text and its category's identifier. */
  lemma CreatedQuestionKey(d: QuestionSeed, categoryMap: map<string, ObjectId>)
    requires IsTrimmed(d.question) && ValidateQuestion(QuestionDocument(d, categoryMap)).Success?
    ensures d.categoryName in categoryMap
    ensures var q := ValidateQuestion(QuestionDocument(d, categoryMap)).value;
      q.text == d.question && q.categoryId == categoryMap[d.categoryName]
  {
    TrimOfTrimmed(d.question);
  }

  lemma QuestionCreatedFinds(before: Catalog, prefix: seq<QuestionSeed>, d: QuestionSeed, categoryMap: map<string, ObjectId>)
    requires AllFound(before.questions, prefix, categoryMap) && IsTrimmed(d.question)
    requires AddQuestion(before, d, categoryMap).1
    requires FindQuestion(before.questions, d.question, categoryMap[d.categoryName]).None?
    ensures AllFound(AddQuestion(before, d, categoryMap).0.questions, prefix + [d], categoryMap)
  {
    var q := ValidateQuestion(QuestionDocument(d, categoryMap)).value;
    CreatedQuestionKey(d, categoryMap);
    var added := [QuestionRecord(before.nextId, q)];
    assert AddQuestion(before, d, categoryMap).0.questions == before.questions + added;
    AppendKeepsFound(before.questions, added, prefix, d, categoryMap);
  }

  lemma AppendKeepsFound(questions: seq<QuestionRecord>, added: seq<QuestionRecord>, prefix: seq<QuestionSeed>, d: QuestionSeed,
                         categoryMap: map<string, ObjectId>)
    requires AllFound(questions, prefix, categoryMap) && d.categoryName in categoryMap
    requires added != [] && added[0].fields.text == d.question && added[0].fields.categoryId == categoryMap[d.categoryName]
    ensures AllFound(questions + added, prefix + [d], categoryMap)
  {
    var seed := prefix + [d];
    forall k | 0 <= k < |seed|
      ensures seed[k].categoryName in categoryMap
      ensures FindQuestion(questions + added, seed[k].question, categoryMap[seed[k].categoryName]).Some?
    {
      if k < |prefix| {
        assert seed[k] == prefix[k];
        FindQuestionAppend(questions, added, seed[k].question, categoryMap[seed[k].categoryName]);
      } else {
        assert added[0] in questions + added;
      }
    }
  }

  /** After a question loop that went through, a lookup finds every seed question. */
  lemma {:induction false} QuestionsFindable(st: Catalog, seed: seq<QuestionSeed>, categoryMap: map<string, ObjectId>)
    requires TrimmedQuestionSeeds(seed)
    requires QuestionsSeeded(st, seed, categoryMap).1
    ensures AllFound(QuestionsSeeded(st, seed, categoryMap).0.questions, seed, categoryMap)
  {
    if seed != [] {
      var prefix := seed[..|seed| - 1];
      var d := seed[|seed| - 1];
      assert forall k :: 0 <= k < |prefix| ==> prefix[k] == seed[k];
      assert seed == prefix + [d];
      var before := QuestionsSeeded(st, prefix, categoryMap);
      QuestionsFindable(st, prefix, categoryMap);
      QuestionStepFinds(before.0, prefix, d, categoryMap);
    }
  }

  /** A question loop whose every question is already stored changes nothing and goes through. */
  lemma {:induction false} QuestionsStable(st: Catalog, seed: seq<QuestionSeed>, categoryMap: map<string, ObjectId>)
    requires AllFound(st.questions, seed, categoryMap)
    ensures QuestionsSeeded(st, seed, categoryMap) == (st, true)
  {
    if seed != [] {
      var prefix := seed[..|seed| - 1];
      assert forall k :: 0 <= k < |prefix| ==> prefix[k] == seed[k];
      QuestionsStable(st, prefix, categoryMap);
      assert seed[|seed| - 1].categoryName in categoryMap;
    }
  }

  /** A second category loop over a store with the first loop's categories changes nothing and yields the same map. */
  lemma SecondCategoryRun(st: Catalog, seed: seq<CategorySeed>, later: Catalog)
    requires ValidCategorySeeds(seed)
    requires later.categories == CategoriesSeeded(st, seed).0.categories
    ensures CategoriesSeeded(later, seed) == (later, CategoriesSeeded(st, seed).1)
  {
    var first := CategoriesSeeded(st, seed);
    var again := CategoriesSeeded(later, seed);
    assert again.0 == later by {
      CategoriesAgree(st, seed);
      CategoryMapKeys(st, seed);
      forall k | 0 <= k < |seed|
        ensures FindCategoryNamed(later.categories, seed[k].name).Some?
      {
        assert seed[k].name in Names(seed);
      }
      CategoriesStable(later, seed);
    }
    assert again.1 == first.1 by {
      CategoriesAgree(st, seed);
      CategoriesAgree(later, seed);
      CategoryMapKeys(st, seed);
      CategoryMapKeys(later, seed);
      assert again.1.Keys == first.1.Keys;
    }
  }

  /**
   * Seeding is idempotent: once a run has gone through, a second run with the
   * same seeds leaves the store exactly as the first left it.
   */
  lemma SeedTwiceNoChange(st: Catalog, categorySeed: seq<CategorySeed>, questionSeed: seq<QuestionSeed>)
    requires ValidCategorySeeds(categorySeed) && TrimmedQuestionSeeds(questionSeed)
    requires Seeded(st, categorySeed, questionSeed).1
    ensures var once := Seeded(st, categorySeed, questionSeed).0;
      Seeded(once, categorySeed, questionSeed) == (once, true)
  {
    var cats := CategoriesSeeded(st, categorySeed);
    QuestionsFindable(cats.0, questionSeed, cats.1);
    var once := QuestionsSeeded(cats.0, questionSeed, cats.1).0;
    SecondCategoryRun(st, categorySeed, once);
    QuestionsStable(once, questionSeed, cats.1);
  }

  predicate DistinctNames(categories: seq<CategoryRecord>) {
    forall i, j :: 0 <= i < j < |categories| ==> categories[i].name != categories[j].name
  }

  predicate DistinctQuestionKeys(questions: seq<QuestionRecord>) {
    forall i, j :: 0 <= i < j < |questions| ==>
      !(questions[i].fields.text == questions[j].fields.text && questions[i].fields.categoryId == questions[j].fields.categoryId)
  }

  /** The category loop never stores a second category under a stored name. */
  lemma {:induction false} CategoriesStayDistinct(st: Catalog, seed: seq<CategorySeed>)
    requires ValidCategorySeeds(seed) && DistinctNames(st.categories)
    ensures DistinctNames(CategoriesSeeded(st, seed).0.categories)
  {
    if seed != [] {
      var prefix := seed[..|seed| - 1];
      var d := seed[|seed| - 1];
      assert ValidCategorySeeds(prefix) by {
        assert forall k :: 0 <= k < |prefix| ==> prefix[k] == seed[k];
      }
      CategoriesStayDistinct(st, prefix);
      var before := CategoriesSeeded(st, prefix).0;
      if FindCategoryNamed(before.categories, d.name).None? {
        TrimOfTrimmed(d.name);
        var cs := before.categories + [NewCategory(before.nextId, d)];
        forall i, j | 0 <= i < j < |cs|
          ensures cs[i].name != cs[j].name
        {
          if j == |cs| - 1 {
            assert cs[i] in before.categories;
          }
        }
      }
    }
  }

  /** The question loop never stores a second question with a stored text in the same category. */
  lemma {:induction false} QuestionsStayDistinct(st: Catalog, seed: seq<QuestionSeed>, categoryMap: map<string, ObjectId>)
    requires TrimmedQuestionSeeds(seed) && DistinctQuestionKeys(st.questions)
    ensures DistinctQuestionKeys(QuestionsSeeded(st, seed, categoryMap).0.questions)
  {
    if seed != [] {
      var prefix := seed[..|seed| - 1];
      var d := seed[|seed| - 1];
      assert TrimmedQuestionSeeds(prefix) by {
        assert forall k :: 0 <= k < |prefix| ==> prefix[k] == seed[k];
      }
      QuestionsStayDistinct(st, prefix, categoryMap);
      var before := QuestionsSeeded(st, prefix, categoryMap);
      if before.1 && d.categoryName in categoryMap
         && FindQuestion(before.0.questions, d.question, categoryMap[d.categoryName]).None?
         && ValidateQuestion(QuestionDocument(d, categoryMap)).Success? {
        var q := ValidateQuestion(QuestionDocument(d, categoryMap)).value;
        TrimOfTrimmed(d.question);
        var qs := before.0.questions + [QuestionRecord(before.0.nextId, q)];
        forall i, j | 0 <= i < j < |qs|
          ensures !(qs[i].fields.text == qs[j].fields.text && qs[i].fields.categoryId == qs[j].fields.categoryId)
        {
          if j == |qs| - 1 {
            assert qs[i] in before.0.questions;
          }
        }
      }
    }
  }

  /** The whole run keeps category names and question keys distinct. */
  lemma SeedingStaysDistinct(st: Catalog, categorySeed: seq<CategorySeed>, questionSeed: seq<QuestionSeed>)
    requires ValidCategorySeeds(categorySeed) && TrimmedQuestionSeeds(questionSeed)
    requires DistinctNames(st.categories) && DistinctQuestionKeys(st.questions)
    ensures var r := Seeded(st, categorySeed, questionSeed).0;
      DistinctNames(r.categories) && DistinctQuestionKeys(r.questions)
  {
    CategoriesStayDistinct(st, categorySeed);
    var cats := CategoriesSeeded(st, categorySeed);
    QuestionsStayDistinct(cats.0, questionSeed, cats.1);
  }

  /** Once a question fails, the rest of the list is not looked at. */
  lemma {:induction false} FailureStops(st: Catalog, seed: seq<QuestionSeed>, categoryMap: map<string, ObjectId>, i: nat)
    requires i <= |seed| && !QuestionsSeeded(st, seed[..i], categoryMap).1
    ensures QuestionsSeeded(st, seed, categoryMap) == QuestionsSeeded(st, seed[..i], categoryMap)
  {
    if i < |seed| {
      assert seed[..|seed| - 1][..i] == seed[..i];
      FailureStops(st, seed[..|seed| - 1], categoryMap, i);
    } else {
      assert seed[..i] == seed;
    }
  }

  lemma CategoriesSeededStep(st: Catalog, seed: seq<CategorySeed>, i: nat)
    requires i < |seed|
    ensures CategoriesSeeded(st, seed[..i + 1]).0 == AddCategory(CategoriesSeeded(st, seed[..i]).0, seed[i]).0
    ensures CategoriesSeeded(st, seed[..i + 1]).1
            == CategoriesSeeded(st, seed[..i]).1[seed[i].name := AddCategory(CategoriesSeeded(st, seed[..i]).0, seed[i]).1]
  {
    assert seed[..i + 1][..i] == seed[..i];
  }

  lemma QuestionsSeededStep(st: Catalog, seed: seq<QuestionSeed>, categoryMap: map<string, ObjectId>, i: nat)
    requires i < |seed| && QuestionsSeeded(st, seed[..i], categoryMap).1
    ensures QuestionsSeeded(st, seed[..i + 1], categoryMap)
            == AddQuestion(QuestionsSeeded(st, seed[..i], categoryMap).0, seed[i], categoryMap)
  {
    assert seed[..i + 1][..i] == seed[..i];
  }

  // ----------------------------------------------------------- the store

  /** The store the seeding route writes to: the two collections and the identifier counter. */
  class SeedStore {
    var categories: seq<CategoryRecord>
    var questions: seq<QuestionRecord>
    var nextId: nat

    function State(): Catalog
      reads this
    {
      Catalog(categories, questions, nextId)
    }

    constructor (initial: Catalog)
      ensures State() == initial
    {
      categories := initial.categories;
      questions := initial.questions;
      nextId := initial.nextId;
    }

    /** The category loop: find each seed category by name or create it, and remember its identifier. */
    method SeedCategories(seed: seq<CategorySeed>) returns (categoryMap: map<string, ObjectId>)
      modifies this
      ensures (State(), categoryMap) == CategoriesSeeded(old(State()), seed)
    {
      ghost var st0 := State();
      categoryMap := map[];
      var i := 0;
      while i < |seed|
        invariant 0 <= i <= |seed|
        invariant State() == CategoriesSeeded(st0, seed[..i]).0
        invariant categoryMap == CategoriesSeeded(st0, seed[..i]).1
      {
        CategoriesSeededStep(st0, seed, i);
        var step := AddCategory(State(), seed[i]);
        categories, nextId := step.0.categories, step.0.nextId;
        categoryMap := categoryMap[seed[i].name := step.1];
        i := i + 1;
      }
      assert seed[..|seed|] == seed;
    }

    /**
     * The question loop: find each seed question by text and category or
     * create it; a question that cannot be created ends the loop with false.
     */
    method SeedQuestions(seed: seq<QuestionSeed>, categoryMap: map<string, ObjectId>) returns (ok: bool)
      modifies this
      ensures (State(), ok) == QuestionsSeeded(old(State()), seed, categoryMap)
    {
      ghost var st0 := State();
      ok := true;
      var i := 0;
      while i < |seed| && ok
        invariant 0 <= i <= |seed|
        invariant (State(), ok) == QuestionsSeeded(st0, seed[..i], categoryMap)
      {
        QuestionsSeededStep(st0, seed, categoryMap, i);
        var step := AddQuestion(State(), seed[i], categoryMap);
        questions, nextId, ok := step.0.questions, step.0.nextId, step.1;
        i := i + 1;
      }
      if ok {
        assert seed[..i] == seed;
      } else {
        FailureStops(st0, seed, categoryMap, i);
      }
    }

    /** The route: the fixed categories, then the given seed questions; false is the 500 reply. */
    method SeedData(questionSeed: seq<QuestionSeed>) returns (ok: bool)
      modifies this
      ensures (State(), ok) == Seeded(old(State()), CategorySeeds, questionSeed)
    {
      var categoryMap := SeedCategories(CategorySeeds);
      ok := SeedQuestions(questionSeed, categoryMap);
    }
  }
}
