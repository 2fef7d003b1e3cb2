/**
 * GET /quiz-questions/:categoryId: the query parameters are normalised (a
 * count parsed as parseInt does and clamped to [1, 100], a random flag set
 * only by "true"), an empty category parameter answers with no questions,
 * and otherwise the category's questions are returned, either its first
 * `count` in storage order or a random sample of that size.
 */
module QuestionFetch {
  import opened Wrappers
  import opened Text
  import opened Records

  const DefaultCount: int := 10
  const MaxCount: int := 100

  /**
   * parseInt(s, 10): leading white space is skipped, then an optional sign
   * and the longest run of digits give the value; without a digit the result
   * is NaN, written None.
   */
  function ParseInt(s: string): (r: Option<int>)
    ensures r.None? <==> DigitPrefix(SignedPart(TrimStart(s))) == []
  {
    var t := TrimStart(s);
    var digits := DigitPrefix(SignedPart(t));
    if digits == [] then None
    else if t[0] == '-' then Some(-(ParseDigits(digits) as int))
    else Some(ParseDigits(digits))
  }

  /** What follows an optional leading sign. */
  function SignedPart(t: string): (r: string)
    ensures r == t || (t != [] && (t[0] == '-' || t[0] == '+') && r == t[1..])
  {
    if t != [] && (t[0] == '-' || t[0] == '+') then t[1..] else t
  }

  /** A string not starting with white space is its own TrimStart. */
  lemma TrimStartOfUnspaced(s: string)
    requires s != [] && !IsSpace(s[0])
    ensures TrimStart(s) == s
  {
  }

  /** A run of digits reads back as its value. */
  lemma ParseIntOfDigits(s: string)
    requires s != [] && forall i :: 0 <= i < |s| ==> IsDigit(s[i])
    ensures ParseInt(s).Some? && ParseInt(s).value == ParseDigits(s)
  {
    assert IsDigit(s[0]);
    TrimStartOfUnspaced(s);
    assert SignedPart(s) == s;
    DigitPrefixOfDigits(s);
  }

  /** A run of digits after a minus sign reads back as the negated value. */
  lemma ParseIntOfNegatedDigits(s: string)
    requires s != [] && forall i :: 0 <= i < |s| ==> IsDigit(s[i])
    ensures ParseInt("-" + s).Some? && ParseInt("-" + s).value == -(ParseDigits(s) as int)
  {
    var m := "-" + s;
    assert m[0] == '-' && m[1..] == s;
    TrimStartOfUnspaced(m);
    assert SignedPart(m) == s;
    DigitPrefixOfDigits(s);
  }

  /** parseInt reads back every decimal rendering, with or without a minus sign. */
  lemma ParseIntOfRendering(n: nat)
    ensures ParseInt(NatToString(n)).Some? && ParseInt(NatToString(n)).value == n
    ensures ParseInt("-" + NatToString(n)).Some? && ParseInt("-" + NatToString(n)).value == -(n as int)
  {
    var s := NatToString(n);
    ParseNatToString(n);
    ParseIntOfDigits(s);
    ParseIntOfNegatedDigits(s);
  }

  lemma ParseTen()
    ensures ParseInt("10").Some? && ParseInt("10").value == DefaultCount
  {
    assert NatToString(10) == NatToString(1) + [DigitChar(0)] == "10";
    ParseIntOfRendering(10);
  }

  /** Math.max(1, Math.min(100, n)). */
  function Clamp(n: int): (r: int)
    ensures 1 <= r <= MaxCount
    ensures 1 <= n <= MaxCount ==> r == n
    ensures n < 1 ==> r == 1
    ensures n > MaxCount ==> r == MaxCount
  {
    if n < 1 then 1 else if n > MaxCount then MaxCount else n
  }

  /**
   * The count a request asks for: a missing or empty parameter is "10"; a
   * parameter parseInt cannot read is NaN (None), which the clamp passes on.
   */
  function NormalizeCount(param: Option<string>): (r: Option<int>)
    ensures param.None? || param == Some("") ==> r == Some(DefaultCount)
    ensures r.Some? ==> 1 <= r.value <= MaxCount
    ensures param.Some? && param.value != "" ==>
      r == (if ParseInt(param.value).None? then None else Some(Clamp(ParseInt(param.value).value)))
  {
    var raw := if param.None? || param.value == "" then "10" else param.value;
    ParseTen();
    match ParseInt(raw)
    case None => None
    case Some(n) => Some(Clamp(n))
  }

  /** A count written in decimal within [1, 100] is taken as it is. */
  lemma CountWithinBoundsKept(n: nat)
    requires 1 <= n <= MaxCount
    ensures NormalizeCount(Some(NatToString(n))) == Some(n)
  {
    ParseIntOfRendering(n);
  }

  /** The random flag: only the exact text "true" turns it on (a missing or empty one is "false"). */
  predicate RandomFlag(param: Option<string>) {
    param == Some("true")
  }

  /** The questions of one category, in storage order. */
  function InCategory(store: seq<QuestionRecord>, c: ObjectId): (r: seq<QuestionRecord>)
    ensures |r| <= |store|
    ensures forall q :: q in r <==> q in store && q.fields.categoryId == c
  {
    if store == [] then []
    else
      var rest := InCategory(store[1..], c);
      assert store == [store[0]] + store[1..];
      if store[0].fields.categoryId == c then [store[0]] + rest else rest
  }

  lemma {:induction false} InCategoryAppend(a: seq<QuestionRecord>, b: seq<QuestionRecord>, c: ObjectId)
    ensures InCategory(a + b, c) == InCategory(a, c) + InCategory(b, c)
  {
    if a == [] {
      assert a + b == b;
    } else {
      assert (a + b)[0] == a[0] && (a + b)[1..] == a[1..] + b;
      InCategoryAppend(a[1..], b, c);
      if a[0].fields.categoryId == c {
        assert [a[0]] + (InCategory(a[1..], c) + InCategory(b, c))
            == ([a[0]] + InCategory(a[1..], c)) + InCategory(b, c);
      }
    }
  }

  /** The indices, from i on, of the stored questions of category c, in increasing order. */
  function MatchingFrom(store: seq<QuestionRecord>, c: ObjectId, i: nat): (r: seq<nat>)
    requires i <= |store|
    decreases |store| - i
    ensures forall k :: 0 <= k < |r| ==> i <= r[k] < |store| && store[r[k]].fields.categoryId == c
    ensures forall k, l :: 0 <= k < l < |r| ==> r[k] < r[l]
    ensures forall j :: i <= j < |store| && store[j].fields.categoryId == c ==> j in r
  {
    if i == |store| then []
    else if store[i].fields.categoryId == c then [i] + MatchingFrom(store, c, i + 1)
    else MatchingFrom(store, c, i + 1)
  }

  lemma InCategoryStep(store: seq<QuestionRecord>, c: ObjectId, i: nat)
    requires i < |store|
    ensures InCategory(store[i..], c)
         == if store[i].fields.categoryId == c then [store[i]] + InCategory(store[i + 1..], c) else InCategory(store[i + 1..], c)
  {
    assert store[i..][1..] == store[i + 1..];
  }

  /** Putting a matching position in front keeps a result indexed by its positions. */
  lemma ConsIndexed(store: seq<QuestionRecord>, i: nat, rest: seq<QuestionRecord>, idxRest: seq<nat>)
    requires i < |store| && |rest| == |idxRest|
    requires forall k :: 0 <= k < |idxRest| ==> idxRest[k] < |store| && rest[k] == store[idxRest[k]]
    ensures var r := [store[i]] + rest; var idx := [i] + idxRest;
      |r| == |idx| && forall k :: 0 <= k < |r| ==> idx[k] < |store| && r[k] == store[idx[k]]
  {
  }

  lemma {:induction false} InCategorySuffix(store: seq<QuestionRecord>, c: ObjectId, i: nat)
    requires i <= |store|
    decreases |store| - i
    ensures var r := InCategory(store[i..], c);
      var idx := MatchingFrom(store, c, i);
      |r| == |idx| && forall k :: 0 <= k < |r| ==> r[k] == store[idx[k]]
  {
    if i < |store| {
      InCategorySuffix(store, c, i + 1);
      InCategoryStep(store, c, i);
      if store[i].fields.categoryId == c {
        ConsIndexed(store, i, InCategory(store[i + 1..], c), MatchingFrom(store, c, i + 1));
      }
    }
  }

  /**
   * The category's questions are the stored questions of that category,
   * taken in increasing storage position and each matching position once.
   */
  lemma InCategoryInStorageOrder(store: seq<QuestionRecord>, c: ObjectId)
    ensures var r := InCategory(store, c);
      var idx := MatchingFrom(store, c, 0);
      && |r| == |idx|
      && (forall k :: 0 <= k < |r| ==> r[k] == store[idx[k]])
      && (forall k, l :: 0 <= k < l < |idx| ==> idx[k] < idx[l])
      && (forall j :: 0 <= j < |store| ==> (store[j].fields.categoryId == c <==> j in idx))
  {
    InCategorySuffix(store, c, 0);
    assert store[0..] == store;
  }

  function Min(a: int, b: int): int {
    if a <= b then a else b
  }

  /** find({ categoryId }).limit(count): the category's first `count` questions. */
  function FirstInCategory(store: seq<QuestionRecord>, c: ObjectId, count: int): (r: seq<QuestionRecord>)
    requires count >= 1
    ensures r <= InCategory(store, c)
    ensures |r| == Min(count, |InCategory(store, c)|)
  {
    var all := InCategory(store, c);
    if count < |all| then all[..count] else all
  }

  /**
   * Storing more questions never changes a fetch the category could already
   * fill: the earliest stored questions come first.
   */
  lemma FetchStableUnderAppend(store: seq<QuestionRecord>, more: seq<QuestionRecord>, c: ObjectId, count: int)
    requires count >= 1 && |InCategory(store, c)| >= count
    ensures FirstInCategory(store + more, c, count) == FirstInCategory(store, c, count)
  {
    InCategoryAppend(store, more, c);
  }

  /** A sample of `count` distinct questions of the pool (all of it when smaller). */
  predicate IsSample(pool: seq<QuestionRecord>, count: int, r: seq<QuestionRecord>) {
    |r| == Min(count, |pool|) && multiset(r) <= multiset(pool)
  }

  /** The pool's first questions are a sample, so a sample can always be drawn. */
  lemma {:induction false} SampleExists(pool: seq<QuestionRecord>, count: int)
    requires count >= 1
    ensures IsSample(pool, count, pool[..Min(count, |pool|)])
  {
    var k := Min(count, |pool|);
    assert pool == pool[..k] + pool[k..];
  }

  /** Every question of a sample is one of the pool's. */
  lemma SampleFromPool(pool: seq<QuestionRecord>, count: int, picked: seq<QuestionRecord>)
    requires IsSample(pool, count, picked)
    ensures forall q :: q in picked ==> q in pool
  {
    forall q | q in picked
      ensures q in pool
    {
      assert multiset(picked)[q] <= multiset(pool)[q];
    }
  }

  datatype Response =
    | Questions(items: seq<QuestionRecord>)
    /** The 500 response: a category parameter that is not an identifier. */
    | Failed
    /** A count parameter parseInt cannot read (NaN). */
    | UnreadableCount

  /**
   * The handler. The store's random sampling is the nondeterministic choice
   * of a sample.
   */
  method GetQuestions(store: seq<QuestionRecord>, categoryId: string, countParam: Option<string>, randomParam: Option<string>)
    returns (r: Response)
    ensures categoryId == "" || categoryId == "undefined" ==> r == Questions([])
    ensures categoryId != "" && categoryId != "undefined" ==>
      match ParseObjectId(categoryId)
      case None => r == Failed
      case Some(c) =>
        match NormalizeCount(countParam)
        case None => r == UnreadableCount
        case Some(count) =>
          && r.Questions?
          && (forall q :: q in r.items ==> q in store && q.fields.categoryId == c)
          && (!RandomFlag(randomParam) ==> r.items == FirstInCategory(store, c, count))
          && (RandomFlag(randomParam) ==> IsSample(InCategory(store, c), count, r.items))
  {
    var count := NormalizeCount(countParam);
    var random := RandomFlag(randomParam);
    if categoryId == "" || categoryId == "undefined" {
      return Questions([]);
    }
    var c := ParseObjectId(categoryId);
    if c.None? {
      return Failed;
    }
    if count.None? {
      return UnreadableCount;
    }
    var pool := InCategory(store, c.value);
    var items: seq<QuestionRecord>;
    if random {
      SampleExists(pool, count.value);
      items :| IsSample(pool, count.value, items);
      SampleFromPool(pool, count.value, items);
    } else {
      items := FirstInCategory(store, c.value, count.value);
      PrefixMembers(items, pool);
    }
    assert forall q :: q in items ==> q in pool;
    r := Questions(items);
  }

  lemma PrefixMembers(p: seq<QuestionRecord>, s: seq<QuestionRecord>)
    requires p <= s
    ensures forall q :: q in p ==> q in s
  {
    forall q | q in p
      ensures q in s
    {
      var i :| 0 <= i < |p| && p[i] == q;
      assert s[i] == q;
    }
  }

  /** A request without parameters receives the category's first ten questions in storage order. */
  lemma DefaultRequest(store: seq<QuestionRecord>, c: ObjectId)
    ensures NormalizeCount(None) == Some(DefaultCount) && !RandomFlag(None)
    ensures |FirstInCategory(store, c, DefaultCount)| == Min(DefaultCount, |InCategory(store, c)|)
  {
  }
}
