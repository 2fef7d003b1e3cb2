/**
 * The quiz history page: each attempt the history route returns becomes a
 * card with its category, time, score colour and percentage, and, when the
 * attempt has an analysis with feedback, a panel of recommendations. The
 * page shows a sign-in prompt without a user and an empty state without
 * attempts.
 */
module HistoryView {
  import opened Wrappers
  import opened Text
  import opened Numbers
  import Records
  import Analysis
  import History

  // ------------------------------------------------------------------- time

  /** JavaScript's `%`: the remainder takes the sign of the dividend. */
  function JsRem(a: int, b: int): (r: int)
    requires b > 0
    ensures a >= 0 ==> 0 <= r < b
    ensures a < 0 ==> -b < r <= 0
  {
    if a >= 0 then a % b else -((-a) % b)
  }

  /** formatTime: Math.floor(s / 60) minutes and s % 60 seconds, as "{m}m {s}s". */
  function FormatTime(seconds: int): string {
    IntToString(seconds / 60) + ("m " + (IntToString(JsRem(seconds, 60)) + "s"))
  }

  /** Reads a "{m}m {s}s" rendering back into a number of seconds. */
  function ReadTime(t: string): Option<int> {
    var minutes := DigitPrefix(t);
    var rest := t[|minutes|..];
    if minutes == [] || !StartsWith(rest, "m ") || ReadSeconds(rest[2..]).None? then None
    else Some(ParseDigits(minutes) * 60 + ReadSeconds(rest[2..]).value)
  }

  /** Reads the "{s}s" part. */
  function ReadSeconds(tail: string): Option<int> {
    var secs := DigitPrefix(tail);
    if secs == [] || tail[|secs|..] != "s" then None else Some(ParseDigits(secs))
  }

  lemma ReadSecondsOfDigits(ss: string)
    requires ss != [] && forall i :: 0 <= i < |ss| ==> IsDigit(ss[i])
    ensures ReadSeconds(ss + "s") == Some(ParseDigits(ss))
  {
    DigitPrefixOfDigitsThen(ss, "s");
    assert (ss + "s")[|ss|..] == "s";
  }

  lemma ReadTimeOfDigits(ms: string, tail: string)
    requires ms != [] && forall i :: 0 <= i < |ms| ==> IsDigit(ms[i])
    requires ReadSeconds(tail).Some?
    ensures ReadTime(ms + ("m " + tail)).Some?
    ensures ReadTime(ms + ("m " + tail)).value == ParseDigits(ms) * 60 + ReadSeconds(tail).value
  {
    var after := "m " + tail;
    var t := ms + after;
    DigitPrefixOfDigitsThen(ms, after);
    assert t[|ms|..] == after;
    assert after[..2] == "m ";
    assert after[2..] == tail;
  }

  /** Reading "{m}m {s}s" gives m * 60 + s. */
  lemma ReadTimeOfParts(m: nat, s: nat)
    ensures ReadTime(NatToString(m) + ("m " + (NatToString(s) + "s"))).Some?
    ensures ReadTime(NatToString(m) + ("m " + (NatToString(s) + "s"))).value == m * 60 + s
  {
    var ms := NatToString(m);
    var ss := NatToString(s);
    ReadSecondsOfDigits(ss);
    ReadTimeOfDigits(ms, ss + "s");
    ParseNatToString(m);
    ParseNatToString(s);
  }

  /** A non-negative time reads back from its rendering: minutes * 60 + seconds is the time. */
  lemma FormatTimeRoundTrip(seconds: nat)
    ensures ReadTime(FormatTime(seconds)) == Some(seconds)
  {
    assert FormatTime(seconds) == NatToString(seconds / 60) + ("m " + (NatToString(seconds % 60) + "s"));
    ReadTimeOfParts(seconds / 60, seconds % 60);
  }

  /** Distinct non-negative times are rendered differently. */
  lemma FormatTimeInjective(a: nat, b: nat)
    requires a != b
    ensures FormatTime(a) != FormatTime(b)
  {
    FormatTimeRoundTrip(a);
    FormatTimeRoundTrip(b);
  }

  /** What the time slot of a card holds. */
  datatype TimeSlot = NoTime | StrayZero | TimeLine(text: string)

  /**
   * `{quiz.time_taken && <div>…</div>}` as written: a missing time renders
   * nothing, but a time of 0 is itself rendered, as the text "0".
   */
  function TimeSlotAsWritten(timeTaken: Option<int>): TimeSlot {
    match timeTaken
    case None => NoTime
    case Some(t) => if t == 0 then StrayZero else TimeLine("Time: " + FormatTime(t))
  }

  lemma ZeroTimeRendersStrayText()
    ensures TimeSlotAsWritten(Some(0)) == StrayZero
    ensures TimeSlotAsWritten(Some(0)) != TimeSlotAsWritten(None)
  {
  }

  /** The time slot as intended: the time line for a non-zero time, and otherwise nothing. */
  function TimeSlotOf(timeTaken: Option<int>): (r: TimeSlot)
    ensures r != StrayZero
    ensures r.TimeLine? <==> timeTaken.Some? && timeTaken.value != 0
    ensures r.TimeLine? ==> r.text == "Time: " + FormatTime(timeTaken.value)
    ensures timeTaken != Some(0) ==> r == TimeSlotAsWritten(timeTaken)
  {
    if timeTaken.Some? && timeTaken.value != 0 then TimeLine("Time: " + FormatTime(timeTaken.value)) else NoTime
  }

  // ------------------------------------------------------------------ score

  const ScoreGreen: string := "text-green-400"
  const ScoreYellow: string := "text-yellow-400"
  const ScoreRed: string := "text-red-400"

  /**
   * getScoreColor: green from 80 percent, yellow from 60 percent, red below.
   * With no questions JavaScript divides by zero: a positive score gives
   * Infinity (green), a zero score NaN and a negative one -Infinity (red).
   */
  function ScoreColor(score: int, total: int): string {
    if total == 0 then (if score > 0 then ScoreGreen else ScoreRed)
    else if Percentage(score, total) >= 80.0 then ScoreGreen
    else if Percentage(score, total) >= 60.0 then ScoreYellow
    else ScoreRed
  }

  /** The three bands, both thresholds inclusive, as integer comparisons. */
  lemma ScoreColorBands(score: int, total: int)
    requires total > 0
    ensures ScoreColor(score, total) == ScoreGreen <==> score * 100 >= 80 * total
    ensures ScoreColor(score, total) == ScoreYellow <==> 60 * total <= score * 100 < 80 * total
    ensures ScoreColor(score, total) == ScoreRed <==> score * 100 < 60 * total
  {
    PercentageBelow(score, total, 80);
    PercentageBelow(score, total, 60);
  }

  /** A better score never gets a worse colour. */
  lemma ScoreColorMonotone(a: int, b: int, total: int)
    requires total > 0 && a <= b
    ensures ScoreColor(a, total) == ScoreGreen ==> ScoreColor(b, total) == ScoreGreen
    ensures ScoreColor(b, total) == ScoreRed ==> ScoreColor(a, total) == ScoreRed
  {
    ScoreColorBands(a, total);
    ScoreColorBands(b, total);
  }

  /** The percentage text `{Math.round(score / total * 100)}%`. */
  function PercentText(score: int, total: int): string {
    if total == 0 then
      (if score > 0 then "Infinity%" else if score == 0 then "NaN%" else "-Infinity%")
    else IntToString(JsRound(Percentage(score, total))) + "%"
  }

  // --------------------------------------------------------------- priority

  const PriorityRed: string := "bg-red-500/20 text-red-400 border-red-500/50"
  const PriorityYellow: string := "bg-yellow-500/20 text-yellow-400 border-yellow-500/50"
  const PriorityGreen: string := "bg-green-500/20 text-green-400 border-green-500/50"
  const PriorityGrey: string := "bg-gray-500/20 text-gray-400 border-gray-500/50"

  /** getPriorityColor; an absent priority is None. */
  function PriorityColor(priority: Option<string>): string {
    if priority == Some("high") then PriorityRed
    else if priority == Some("medium") then PriorityYellow
    else if priority == Some("low") then PriorityGreen
    else PriorityGrey
  }

  /** The three known priorities get the three colours, and every other value the grey default. */
  lemma PriorityColorCases(p: Analysis.Priority, other: Option<string>)
    ensures PriorityColor(Some(Analysis.PriorityName(p)))
            == match p
               case High => PriorityRed
               case Medium => PriorityYellow
               case Low => PriorityGreen
    ensures PriorityColor(other) == PriorityGrey
            <==> other != Some("high") && other != Some("medium") && other != Some("low")
  {
  }

  /** The badge label `priority?.toUpperCase() || 'MEDIUM'`. */
  function PriorityLabel(priority: Option<string>): (r: string)
    ensures r != []
    ensures priority.Some? && priority.value != [] ==> r == ToUpper(priority.value)
  {
    if priority.None? || ToUpper(priority.value) == [] then "MEDIUM" else ToUpper(priority.value)
  }

  lemma PriorityLabelOfName(p: Analysis.Priority)
    ensures PriorityLabel(Some(Analysis.PriorityName(p)))
            == match p
               case High => "HIGH"
               case Medium => "MEDIUM"
               case Low => "LOW"
  {
    var name := Analysis.PriorityName(p);
    var upper := ToUpper(name);
    assert |upper| == |name|;
    match p
    case High => assert upper == "HIGH" by { assert upper[0] == 'H' && upper[1] == 'I' && upper[2] == 'G' && upper[3] == 'H'; }
    case Medium => assert upper == "MEDIUM" by {
      assert upper[0] == 'M' && upper[1] == 'E' && upper[2] == 'D' && upper[3] == 'I' && upper[4] == 'U' && upper[5] == 'M';
    }
    case Low => assert upper == "LOW" by { assert upper[0] == 'L' && upper[1] == 'O' && upper[2] == 'W'; }
  }

  // ------------------------------------------------------------------ cards

  const MaxTipsShown: nat := 2

  /** `tips.slice(0, 2)`: the first two tips, or all of them when there are fewer. */
  function ShownTips(tips: seq<string>): (r: seq<string>)
    ensures r <= tips
    ensures |r| == if |tips| < MaxTipsShown then |tips| else MaxTipsShown
  {
    if |tips| <= MaxTipsShown then tips else tips[..MaxTipsShown]
  }

  /** A weak-area badge: its colour class and its label. */
  datatype Badge = Badge(colorClass: string, caption: string)

  /**
   * A stored weak area or recommendation is a string, so reading `priority`
   * or `tips` from it gives undefined.
   */
  function AreaBadge(area: string): Badge {
    Badge(PriorityColor(None), PriorityLabel(None))
  }

  /** The tips a stored recommendation shows: it has no `tips`, so none. */
  function RecommendationTips(recommendation: string): seq<string> {
    ShownTips([])
  }

  /** The recommendations panel: feedback, badges, tip lists and numbered next steps. */
  datatype Panel = Panel(
    feedback: string,
    badges: seq<Badge>,
    tipLists: seq<seq<string>>,
    steps: seq<(nat, string)>)

  /** The panel, shown only when the analysis exists and its feedback is non-empty. */
  function PanelOf(analysis: Option<History.AnalysisView>): (r: Option<Panel>)
    ensures r.Some? <==> analysis.Some? && analysis.value.overallFeedback.Some? && analysis.value.overallFeedback.value != ""
    ensures r.Some? ==> var a := analysis.value;
      && r.value.feedback == a.overallFeedback.value
      && |r.value.badges| == |a.weakAreas|
      && |r.value.tipLists| == |a.studyRecommendations|
      && |r.value.steps| == |a.nextSteps|
      && forall k :: 0 <= k < |a.nextSteps| ==> r.value.steps[k] == (k + 1, a.nextSteps[k])
  {
    if analysis.None? || analysis.value.overallFeedback.None? || analysis.value.overallFeedback.value == "" then None
    else
      var a := analysis.value;
      Some(Panel(a.overallFeedback.value,
                 seq(|a.weakAreas|, k requires 0 <= k < |a.weakAreas| => AreaBadge(a.weakAreas[k])),
                 seq(|a.studyRecommendations|, k requires 0 <= k < |a.studyRecommendations| => RecommendationTips(a.studyRecommendations[k])),
                 seq(|a.nextSteps|, k requires 0 <= k < |a.nextSteps| => (k + 1, a.nextSteps[k]))))
  }

  /** One attempt's card. */
  datatype Card = Card(
    title: string,
    dotColor: string,
    time: TimeSlot,
    scoreLine: string,
    scoreColor: string,
    percent: string,
    panel: Option<Panel>)

  /**
   * One attempt's card as the page renders it: `category?.name || 'Unknown
   * Category'`, `category?.color || '#6b7280'`, the time slot of lines
   * 142-144 (a time of 0 shows the stray "0"), the score line, its colour and
   * percentage, and the analysis panel.
   */
  function CardOf(e: History.HistoryEntry): (r: Card)
    ensures r.title != [] && r.dotColor != []
    ensures e.category.name != "" ==> r.title == e.category.name
    ensures e.category.color != "" ==> r.dotColor == e.category.color
    ensures r.time == NoTime <==> e.timeTaken.None?
    ensures r.time == StrayZero <==> e.timeTaken == Some(0)
    ensures r.time.TimeLine? ==> e.timeTaken.Some? && r.time.text == "Time: " + FormatTime(e.timeTaken.value)
    ensures r.panel.Some? <==> e.analysis.Some? && e.analysis.value.overallFeedback.Some? && e.analysis.value.overallFeedback.value != ""
  {
    Card(if e.category.name == "" then History.UnknownCategoryName else e.category.name,
         if e.category.color == "" then History.UnknownCategoryColor else e.category.color,
         TimeSlotAsWritten(e.timeTaken),
         IntToString(e.score) + "/" + IntToString(e.totalQuestions),
         ScoreColor(e.score, e.totalQuestions),
         PercentText(e.score, e.totalQuestions),
         PanelOf(e.analysis))
  }

  /**
   * The card as evidently intended: no time slot for a time of 0, and
   * otherwise the same card the page renders.
   */
  function CardOfIntended(e: History.HistoryEntry): (r: Card)
    ensures r.time != StrayZero
    ensures e.timeTaken == Some(0) ==> r.time == NoTime && CardOf(e).time == StrayZero
    ensures e.timeTaken != Some(0) ==> r == CardOf(e)
    ensures r.title == CardOf(e).title && r.dotColor == CardOf(e).dotColor && r.panel == CardOf(e).panel
  {
    CardOf(e).(time := TimeSlotOf(e.timeTaken))
  }

  /** Stored analyses hold strings, so every badge on a card is the grey MEDIUM default and no tips are shown. */
  lemma StoredAreasShowMedium(e: History.HistoryEntry)
    ensures var p := CardOf(e).panel;
      p.Some? ==> ((forall k :: 0 <= k < |p.value.badges| ==> p.value.badges[k] == Badge(PriorityGrey, "MEDIUM"))
                   && (forall k :: 0 <= k < |p.value.tipLists| ==> p.value.tipLists[k] == []))
  {
  }

  /** The page. */
  datatype View = PleaseLogIn | NoQuizHistory | HistoryList(countLabel: string, cards: seq<Card>)

  function Page(signedIn: bool, history: seq<History.HistoryEntry>): (r: View)
    ensures !signedIn <==> r == PleaseLogIn
    ensures signedIn ==> (r == NoQuizHistory <==> history == [])
    ensures r.HistoryList? ==> r.countLabel == NatToString(|history|) + " attempts"
                               && |r.cards| == |history|
                               && forall k :: 0 <= k < |history| ==> r.cards[k] == CardOf(history[k])
  {
    if !signedIn then PleaseLogIn
    else if history == [] then NoQuizHistory
    else HistoryList(NatToString(|history|) + " attempts", seq(|history|, k requires 0 <= k < |history| => CardOf(history[k])))
  }

  /**
   * For the history route's own entries the page's fallback never applies:
   * the route already put the unknown-category name in, so every card's
   * title is the name the route sent.
   */
  lemma HistoryTitlesFromRoute(attempts: seq<Records.AttemptRecord>, categories: seq<Records.CategoryRecord>,
                               analyses: seq<Records.AnalysisRecord>, userId: Records.ObjectId)
    ensures var h := History.ListHistory(attempts, categories, analyses, userId);
      forall k :: 0 <= k < |h| ==> h[k].category.name != "" && CardOf(h[k]).title == h[k].category.name
  {
    var h := History.ListHistory(attempts, categories, analyses, userId);
    forall k | 0 <= k < |h|
      ensures h[k].category.name != ""
    {
      var sorted := History.SortNewestFirst(History.OfUser(attempts, userId));
      assert h[k] == History.EntryOf(sorted[k], categories, analyses, userId);
    }
  }
}
