/** The Results card: how a job-match response is turned into the panels,
    rows and badges the card renders. Every optional part of the response is
    an `Option`; a panel exists exactly when its part is present, and a list
    block exactly when its list is present and non-empty. */
module ResultsView {
  import opened Wrappers
  import Text
  import Scoring
  import Expansion

  // ---------------------------------------------------------------------------
  // The job-match response

  datatype PriorityAction = PriorityAction(priority: Option<string>, area: string, recommendation: string)

  datatype SummaryInsights = SummaryInsights(
    overallGrade: Option<string>,
    atsReadiness: Option<real>,
    competitiveness: Option<real>,
    topStrengths: Option<seq<string>>,
    priorityActions: Option<seq<PriorityAction>>)

  /** A detail value is shown as it is, a number or a string. */
  datatype DetailValue = Number(n: real) | Word(w: string)

  /** One entry of `detailed_metrics`: a score and an optional detail table. */
  datatype Metric = Metric(score: Option<real>, details: Option<seq<(string, DetailValue)>>)

  datatype Comprehensive = Comprehensive(
    overallScore: Option<real>,
    detailedMetrics: Option<seq<(string, Metric)>>,
    strengths: Option<seq<string>>,
    weaknesses: Option<seq<string>>)

  datatype KeywordMatch = KeywordMatch(percentage: Option<real>, matches: Option<seq<string>>, missing: Option<seq<string>>)

  datatype AtsAnalysis = AtsAnalysis(
    score: Option<real>,
    overallAtsScore: Option<real>,
    keywordMatch: Option<KeywordMatch>,
    formatIssues: Option<seq<string>>,
    recommendations: Option<seq<string>>)

  datatype LearningPath = LearningPath(gap: string, recommendations: Option<seq<string>>)

  datatype GapAnalysis = GapAnalysis(identifiedGaps: Option<seq<string>>, learningPaths: Option<seq<LearningPath>>)

  /** A `section_feedback` entry: a falsy value (`null`, `undefined`, `false`,
      `0`), a string, or an object with optional `feedback` and `score`. */
  datatype Feedback = Falsy | Plain(text: string) | Scored(feedback: Option<string>, score: Option<real>)

  datatype IndustryInsights = IndustryInsights(trends: Option<seq<string>>, recommendations: Option<seq<string>>)

  datatype SkillsAnalysis = SkillsAnalysis(matching: Option<seq<string>>, missing: Option<seq<string>>, additional: Option<seq<string>>)

  datatype Suggestion = Suggestion(title: string, description: string, kind: Option<string>)

  datatype Enhancement = Enhancement(
    jobCategory: Option<string>,
    categoryConfidence: Option<real>,
    qualityMetrics: Option<seq<(string, real)>>,
    overallQualityScore: Option<real>,
    suggestions: Option<seq<Suggestion>>)

  /** The response of `POST /analyze`, as the card reads it. */
  datatype JobMatch = JobMatch(
    score: real,
    summary: Option<SummaryInsights>,
    comprehensive: Option<Comprehensive>,
    ats: Option<AtsAnalysis>,
    gaps: Option<GapAnalysis>,
    sectionFeedback: Option<seq<(string, Feedback)>>,
    industry: Option<IndustryInsights>,
    skills: Option<SkillsAnalysis>,
    enhancement: Option<Enhancement>)

  // ---------------------------------------------------------------------------
  // Small rules shared by the panels

  /** `x || 0` on a number: a missing number reads as zero. */
  function OrZero(x: Option<real>): real {
    x.GetOr(0.0)
  }

  /** `xs && xs.length > 0 && <block>`: a list block is rendered only when its
      list is present and non-empty, and then lists every item in order. */
  function ListBlock<T>(xs: Option<seq<T>>): (r: Option<seq<T>>)
    ensures r.Some? <==> xs.Some? && |xs.value| > 0
    ensures r.Some? ==> r.value == xs.value
  {
    match xs
    case Some(items) => if |items| > 0 then Some(items) else None
    case None => None
  }

  /** A collapsible panel: its header is always shown, its body only while the
      panel's flag in `expandedSections` is set. */
  datatype Panel<H, B> = Panel(header: H, body: Option<B>)

  function Collapsible<H, B>(flags: map<string, bool>, key: string, header: H, body: B): (p: Panel<H, B>)
    ensures p.header == header
    ensures p.body.Some? <==> Expansion.IsExpanded(flags, key)
    ensures p.body.Some? ==> p.body.value == body
  {
    Panel(header, if Expansion.IsExpanded(flags, key) then Some(body) else None)
  }

  // ---------------------------------------------------------------------------
  // Section feedback

  /** The icon category of a feedback row. */
  datatype Category =
    | SummaryIcon | EducationIcon | ExperienceIcon | SkillsIcon | ProjectsIcon
    | AchievementIcon | CertificationIcon | LanguageIcon | CommunityIcon
    | PublicationIcon | DefaultIcon

  /** One rung of the icon ladder: any of the keywords selects the category. */
  datatype CategoryRule = CategoryRule(keywords: seq<string>, category: Category)

  /** The ladder of `getSectionIcon`, in the order the source tests it. */
  const CategoryRules: seq<CategoryRule> := [
    CategoryRule(["summary", "profile"], SummaryIcon),
    CategoryRule(["education"], EducationIcon),
    CategoryRule(["experience", "work"], ExperienceIcon),
    CategoryRule(["skills", "technologies"], SkillsIcon),
    CategoryRule(["projects"], ProjectsIcon),
    CategoryRule(["achievement", "award"], AchievementIcon),
    CategoryRule(["certification"], CertificationIcon),
    CategoryRule(["language"], LanguageIcon),
    CategoryRule(["volunteer", "community"], CommunityIcon),
    CategoryRule(["publication", "research"], PublicationIcon)
  ]

  /** The lower-cased name contains one of the rule's keywords. */
  predicate RuleMatches(lowered: string, rule: CategoryRule) {
    exists k :: k in rule.keywords && Text.Contains(lowered, k)
  }

  /** The category of the first rule that matches, or the default. */
  function FirstMatch(lowered: string, rules: seq<CategoryRule>): (c: Category)
    requires forall i :: 0 <= i < |rules| ==> rules[i].category != DefaultIcon
    ensures c == DefaultIcon <==> forall i :: 0 <= i < |rules| ==> !RuleMatches(lowered, rules[i])
    ensures c != DefaultIcon ==>
      exists i :: 0 <= i < |rules| && rules[i].category == c && RuleMatches(lowered, rules[i])
        && forall j :: 0 <= j < i ==> !RuleMatches(lowered, rules[j])
  {
    if rules == [] then DefaultIcon
    else if RuleMatches(lowered, rules[0]) then rules[0].category
    else
      var c := FirstMatch(lowered, rules[1..]);
      assert forall i :: 1 <= i < |rules| ==> rules[1..][i - 1] == rules[i];
      c
  }

  /** `getSectionIcon(name)`: lower-case the name, then walk the ladder; the
      icon is that of the first rule with a keyword in the lowered name, and
      the default exactly when no rule has one. */
  function SectionCategory(name: string): (c: Category)
    ensures c == DefaultIcon <==>
      forall i :: 0 <= i < |CategoryRules| ==> !RuleMatches(Text.ToLower(name), CategoryRules[i])
    ensures c != DefaultIcon ==>
      exists i :: 0 <= i < |CategoryRules| && CategoryRules[i].category == c && RuleMatches(Text.ToLower(name), CategoryRules[i])
        && forall j :: 0 <= j < i ==> !RuleMatches(Text.ToLower(name), CategoryRules[j])
  {
    FirstMatch(Text.ToLower(name), CategoryRules)
  }

  /** First match wins: a name that mentions both a summary and projects
      matches two rules and gets the summary icon. */
  lemma SummaryBeforeProjects()
    ensures RuleMatches(Text.ToLower("Summary_Projects"), CategoryRules[4])
    ensures SectionCategory("Summary_Projects") == SummaryIcon
  {
    var a := Text.ToLower("Summary_Projects");
    assert a[..7] == "summary";
    assert Text.OccursAt(a, "summary", 0);
    assert "summary" in CategoryRules[0].keywords && Text.Contains(a, "summary");
    assert a[8..16] == "projects";
    assert Text.OccursAt(a, "projects", 8);
    assert "projects" in CategoryRules[4].keywords && Text.Contains(a, "projects");
  }

  /** `!feedback`: which entries the source skips. The empty string is falsy. */
  predicate Shown(f: Feedback) {
    match f
    case Falsy => false
    case Plain(t) => t != ""
    case Scored(_, _) => true
  }

  /** A rendered feedback row: label, icon, text and an optional score badge. */
  datatype FeedbackRow = FeedbackRow(heading: string, category: Category, text: string, badge: Option<(real, Scoring.MatchBand)>)

  /** The row for one shown entry. The text is the string itself, or the
      object's `feedback` (falsy becomes ""); a badge is drawn only for a
      truthy score, so a score of 0 draws none, and it uses the match bands. */
  function FeedbackRowOf(name: string, f: Feedback): (row: FeedbackRow)
    requires Shown(f)
    ensures row.heading == Text.UnderscoresToSpaces(name)
    ensures row.category == SectionCategory(name)
    ensures f.Plain? ==> row.text == f.text && row.badge.None?
    ensures f.Scored? ==> row.text == f.feedback.GetOr("")
    ensures row.badge.Some? <==> f.Scored? && f.score.Some? && f.score.value != 0.0
    ensures row.badge.Some? ==> row.badge.value == (f.score.value, Scoring.MatchColor(f.score.value))
  {
    var text := match f
      case Plain(t) => t
      case Scored(fb, _) => fb.GetOr("");
    var badge := match f
      case Scored(_, Some(s)) => if s != 0.0 then Some((s, Scoring.MatchColor(s))) else None
      case _ => None;
    FeedbackRow(Text.UnderscoresToSpaces(name), SectionCategory(name), text, badge)
  }

  /** The entries that produce a row, in order. */
  function ShownEntries(entries: seq<(string, Feedback)>): (kept: seq<(string, Feedback)>)
    ensures |kept| <= |entries|
    ensures forall i :: 0 <= i < |kept| ==> Shown(kept[i].1) && kept[i] in entries
    ensures forall e :: e in entries && Shown(e.1) ==> e in kept
  {
    if entries == [] then []
    else
      var rest := ShownEntries(entries[1..]);
      if Shown(entries[0].1) then [entries[0]] + rest else rest
  }

  /** The positions from `k` on of the truthy entries, in increasing order:
      an independent description of which entries `map` turns into rows. */
  ghost function ShownIndices(entries: seq<(string, Feedback)>, k: nat): (idx: seq<nat>)
    requires k <= |entries|
    ensures forall i :: 0 <= i < |idx| ==> k <= idx[i] < |entries| && Shown(entries[idx[i]].1)
    ensures forall i, j :: 0 <= i < j < |idx| ==> idx[i] < idx[j]
    ensures forall m :: k <= m < |entries| && Shown(entries[m].1) ==> m in idx
    decreases |entries| - k
  {
    if k == |entries| then []
    else
      var rest := ShownIndices(entries, k + 1);
      if Shown(entries[k].1) then [k] + rest else rest
  }

  /** `kept` lists the entries at positions `idx`, in that order. */
  ghost predicate AtPositions(kept: seq<(string, Feedback)>, entries: seq<(string, Feedback)>, idx: seq<nat>) {
    |kept| == |idx| && forall i :: 0 <= i < |idx| ==> idx[i] < |entries| && kept[i] == entries[idx[i]]
  }

  /** The kept entries are exactly the truthy entries, in their original order
      and each once: entry `i` of the result is the input at the `i`-th truthy
      position. */
  lemma {:induction false} ShownEntriesInOrder(entries: seq<(string, Feedback)>, k: nat)
    requires k <= |entries|
    ensures AtPositions(ShownEntries(entries[k..]), entries, ShownIndices(entries, k))
    decreases |entries| - k
  {
    if k < |entries| {
      ShownEntriesInOrder(entries, k + 1);
      ShownEntriesStep(entries, k);
      ShownIndicesStep(entries, k);
      AtPositionsCons(entries, k, ShownEntries(entries[k + 1..]), ShownIndices(entries, k + 1), Shown(entries[k].1));
    } else {
      assert entries[k..] == [];
    }
  }

  /** One step of `ShownEntries` on the suffix from `k`. */
  lemma ShownEntriesStep(entries: seq<(string, Feedback)>, k: nat)
    requires k < |entries|
    ensures ShownEntries(entries[k..]) ==
      (if Shown(entries[k].1) then [entries[k]] else []) + ShownEntries(entries[k + 1..])
  {
    assert entries[k..][1..] == entries[k + 1..];
    assert entries[k..][0] == entries[k];
  }

  /** One step of `ShownIndices` from `k`. */
  lemma ShownIndicesStep(entries: seq<(string, Feedback)>, k: nat)
    requires k < |entries|
    ensures ShownIndices(entries, k) == (if Shown(entries[k].1) then [k] else []) + ShownIndices(entries, k + 1)
  {
    if !Shown(entries[k].1) {
      assert [] + ShownIndices(entries, k + 1) == ShownIndices(entries, k + 1);
    }
  }

  /** Putting entry `k` (or nothing) in front of both lists keeps them aligned. */
  lemma AtPositionsCons(entries: seq<(string, Feedback)>, k: nat, rest: seq<(string, Feedback)>, later: seq<nat>, take: bool)
    requires k < |entries| && AtPositions(rest, entries, later)
    ensures AtPositions((if take then [entries[k]] else []) + rest, entries, (if take then [k] else []) + later)
  {
    if take {
      var kept, idx := [entries[k]] + rest, [k] + later;
      forall i | 1 <= i < |idx|
        ensures idx[i] < |entries| && kept[i] == entries[idx[i]]
      {
        assert kept[i] == rest[i - 1] && idx[i] == later[i - 1];
      }
    } else {
      assert [] + rest == rest && [] + later == later;
    }
  }

  /** The rows of the section-by-section panel: one per shown entry, in order. */
  function FeedbackRows(entries: seq<(string, Feedback)>): (rows: seq<FeedbackRow>)
    ensures |rows| == |ShownEntries(entries)|
    ensures forall i :: 0 <= i < |rows| ==>
      rows[i] == FeedbackRowOf(ShownEntries(entries)[i].0, ShownEntries(entries)[i].1)
  {
    var kept := ShownEntries(entries);
    seq(|kept|, i requires 0 <= i < |kept| => FeedbackRowOf(kept[i].0, kept[i].1))
  }

  /** An entry yields no row exactly when it is falsy. */
  lemma FalsyEntriesSkipped(entries: seq<(string, Feedback)>)
    ensures (forall i :: 0 <= i < |entries| ==> !Shown(entries[i].1)) <==> FeedbackRows(entries) == []
  {
    var kept := ShownEntries(entries);
    if FeedbackRows(entries) == [] {
      forall i | 0 <= i < |entries| ensures !Shown(entries[i].1) {
        assert entries[i] in entries;
      }
    } else {
      assert kept[0] in entries;
      var i :| 0 <= i < |entries| && entries[i] == kept[0];
      assert Shown(entries[i].1);
    }
  }

  /** A scored object with score 0 renders its text and no badge. */
  lemma ZeroScoreHasNoBadge(name: string, text: string)
    ensures FeedbackRowOf(name, Scored(Some(text), Some(0.0))).badge.None?
    ensures FeedbackRowOf(name, Scored(Some(text), Some(0.0))).text == text
    ensures FeedbackRowOf(name, Scored(None, Some(75.0))).text == ""
  {
  }

  // ---------------------------------------------------------------------------
  // Metric rows

  /** At most the first two entries of a detail table, labels with every
      underscore shown as a space. */
  function DetailRows(details: seq<(string, DetailValue)>): (rows: seq<(string, DetailValue)>)
    ensures |rows| == if |details| < 2 then |details| else 2
    ensures forall i :: 0 <= i < |rows| ==> rows[i] == (Text.UnderscoresToSpaces(details[i].0), details[i].1)
  {
    var firstTwo := if |details| < 2 then details else details[..2];
    seq(|firstTwo|, i requires 0 <= i < |firstTwo| => (Text.UnderscoresToSpaces(firstTwo[i].0), firstTwo[i].1))
  }

  /** One tile of the detailed-metrics grid. */
  datatype MetricRow = MetricRow(heading: string, score: real, bar: Scoring.QualityBand, details: Option<seq<(string, DetailValue)>>)

  function MetricRowOf(name: string, m: Metric): (row: MetricRow)
    ensures row.heading == Text.UnderscoresToSpaces(name)
    ensures row.score == OrZero(m.score) && row.bar == Scoring.QualityColor(OrZero(m.score))
    ensures row.details.Some? <==> m.details.Some?
    ensures row.details.Some? ==> |row.details.value| <= 2 && |row.details.value| <= |m.details.value|
    ensures row.details.Some? ==> row.details.value == DetailRows(m.details.value)
  {
    MetricRow(Text.UnderscoresToSpaces(name), OrZero(m.score), Scoring.QualityColor(OrZero(m.score)),
      match m.details
      case Some(d) => Some(DetailRows(d))
      case None => None)
  }

  function MetricRows(metrics: seq<(string, Metric)>): (rows: seq<MetricRow>)
    ensures |rows| == |metrics|
    ensures forall i :: 0 <= i < |rows| ==> rows[i] == MetricRowOf(metrics[i].0, metrics[i].1)
  {
    seq(|metrics|, i requires 0 <= i < |metrics| => MetricRowOf(metrics[i].0, metrics[i].1))
  }

  // ---------------------------------------------------------------------------
  // The rendered card

  datatype ActionRow = ActionRow(tone: Scoring.PriorityTone, action: PriorityAction)

  datatype SummaryView = SummaryView(
    grade: Option<string>,
    gradeTone: Scoring.GradeTone,
    atsReady: real,
    competitive: real,
    matchBand: Scoring.MatchBand,
    topStrengths: Option<seq<string>>,
    priorityActions: Option<seq<ActionRow>>)

  datatype ScoreCard = ScoreCard(
    band: Scoring.MatchBand,
    icon: Scoring.ScoreIcon,
    bar: string,
    jobCategory: Option<(string, Option<real>)>)

  datatype ComprehensiveBody = ComprehensiveBody(
    metrics: Option<seq<MetricRow>>,
    strengths: Option<seq<string>>,
    weaknesses: Option<seq<string>>)

  datatype AtsBody = AtsBody(
    keywordPercentage: real,
    keywordBar: Scoring.QualityBand,
    score: real,
    scoreBar: Scoring.QualityBand,
    formatIssues: Option<seq<string>>,
    matches: Option<seq<string>>,
    missing: Option<seq<string>>,
    recommendations: Option<seq<string>>)

  datatype PathRow = PathRow(gap: string, recommendations: Option<seq<string>>)

  datatype GapsBody = GapsBody(identified: Option<seq<string>>, paths: Option<seq<PathRow>>)

  datatype IndustryBody = IndustryBody(trends: Option<seq<string>>, recommendations: Option<seq<string>>)

  datatype QualityRow = QualityRow(heading: string, score: real, bar: Scoring.QualityBand)

  datatype QualityView = QualityView(overall: Option<real>, rows: seq<QualityRow>)

  datatype SkillsView = SkillsView(
    matchingCount: nat,
    matching: Option<seq<string>>,
    missingCount: nat,
    missing: Option<seq<string>>)

  datatype SuggestionRow = SuggestionRow(title: string, description: string, kindLabel: Option<string>)

  /** Everything the card shows for one response and one expansion state. */
  datatype View = View(
    summary: Option<SummaryView>,
    scoreCard: ScoreCard,
    comprehensive: Option<Panel<real, ComprehensiveBody>>,
    ats: Option<Panel<real, AtsBody>>,
    gaps: Option<Panel<(), GapsBody>>,
    sections: Option<Panel<(), seq<FeedbackRow>>>,
    industry: Option<Panel<(), IndustryBody>>,
    quality: Option<QualityView>,
    skills: SkillsView,
    additionalSkills: Option<seq<string>>,
    suggestions: Option<seq<SuggestionRow>>,
    nextSteps: Scoring.NextStep,
    atsNotice: Option<real>,
    qualityNotice: Option<real>,
    gradeNotice: Option<string>)

  /** The summary block: grade badge in its grade tone, the two readiness
      figures (`|| 0`), the match band of the score, the top strengths, and
      one row per priority action, in order, toned by its priority. */
  function SummaryOf(s: SummaryInsights, score: real): (v: SummaryView)
    ensures v.grade == s.overallGrade && v.gradeTone == Scoring.GradeColor(s.overallGrade)
    ensures v.atsReady == (if s.atsReadiness.Some? then s.atsReadiness.value else 0.0)
    ensures v.competitive == (if s.competitiveness.Some? then s.competitiveness.value else 0.0)
    ensures v.matchBand == Scoring.MatchColor(score)
    ensures v.topStrengths == ListBlock(s.topStrengths)
    ensures v.priorityActions.Some? <==> s.priorityActions.Some? && |s.priorityActions.value| > 0
    ensures v.priorityActions.Some? ==> |v.priorityActions.value| == |s.priorityActions.value|
    ensures v.priorityActions.Some? ==> forall i :: 0 <= i < |v.priorityActions.value| ==>
      && v.priorityActions.value[i].action == s.priorityActions.value[i]
      && v.priorityActions.value[i].tone == Scoring.PriorityColor(s.priorityActions.value[i].priority)
  {
    var actions := match s.priorityActions
      case Some(a) => Some(seq(|a|, i requires 0 <= i < |a| => ActionRow(Scoring.PriorityColor(a[i].priority), a[i])))
      case None => None;
    SummaryView(s.overallGrade, Scoring.GradeColor(s.overallGrade), OrZero(s.atsReadiness), OrZero(s.competitiveness),
      Scoring.MatchColor(score), ListBlock(s.topStrengths), ListBlock(actions))
  }

  /** `data.enhancement?.job_category && …`: shown for a non-empty category,
      with its confidence as a percentage. The source multiplies the
      confidence without a fallback, so a missing confidence is `NaN`, which
      the model writes as `None`. */
  function JobCategoryOf(e: Option<Enhancement>): (c: Option<(string, Option<real>)>)
    ensures c.Some? <==> e.Some? && e.value.jobCategory.Some? && e.value.jobCategory.value != ""
    ensures c.Some? ==> c.value.0 == e.value.jobCategory.value
    ensures c.Some? ==> (c.value.1.Some? <==> e.value.categoryConfidence.Some?)
    ensures c.Some? && c.value.1.Some? ==> c.value.1.value == e.value.categoryConfidence.value * 100.0
  {
    match e
    case Some(Enhancement(Some(c), conf, _, _, _)) =>
      if c != "" then Some((c, if conf.Some? then Some(conf.value * 100.0) else None)) else None
    case _ => None
  }


  /** The comprehensive panel's body: the metric grid whenever
      `detailed_metrics` is present (an empty object is truthy), and the
      strengths and weaknesses lists. */
  function ComprehensiveOf(c: Comprehensive): (b: ComprehensiveBody)
    ensures b.metrics.Some? <==> c.detailedMetrics.Some?
    ensures b.metrics.Some? ==> |b.metrics.value| == |c.detailedMetrics.value|
    ensures b.metrics.Some? ==> forall i :: 0 <= i < |b.metrics.value| ==>
      b.metrics.value[i] == MetricRowOf(c.detailedMetrics.value[i].0, c.detailedMetrics.value[i].1)
    ensures b.strengths == ListBlock(c.strengths) && b.weaknesses == ListBlock(c.weaknesses)
  {
    ComprehensiveBody(
      match c.detailedMetrics
      case Some(m) => Some(MetricRows(m))
      case None => None,
      ListBlock(c.strengths),
      ListBlock(c.weaknesses))
  }

  /** The ATS panel's body: keyword-match percentage (`?.percentage || 0`)
      and ATS score (`|| 0`) each with its quality bar, and the four lists;
      the matched and missing keyword lists need `keyword_match` present. */
  function AtsOf(a: AtsAnalysis): (b: AtsBody)
    ensures b.keywordPercentage == (if a.keywordMatch.Some? && a.keywordMatch.value.percentage.Some? then a.keywordMatch.value.percentage.value else 0.0)
    ensures b.keywordBar == Scoring.QualityColor(b.keywordPercentage)
    ensures b.score == (if a.score.Some? then a.score.value else 0.0)
    ensures b.scoreBar == Scoring.QualityColor(b.score)
    ensures b.formatIssues == ListBlock(a.formatIssues) && b.recommendations == ListBlock(a.recommendations)
    ensures b.matches.Some? <==> a.keywordMatch.Some? && a.keywordMatch.value.matches.Some? && |a.keywordMatch.value.matches.value| > 0
    ensures b.missing.Some? <==> a.keywordMatch.Some? && a.keywordMatch.value.missing.Some? && |a.keywordMatch.value.missing.value| > 0
    ensures b.matches.Some? ==> b.matches.value == a.keywordMatch.value.matches.value
    ensures b.missing.Some? ==> b.missing.value == a.keywordMatch.value.missing.value
  {
    var pct := match a.keywordMatch
      case Some(k) => OrZero(k.percentage)
      case None => 0.0;
    AtsBody(pct, Scoring.QualityColor(pct), OrZero(a.score), Scoring.QualityColor(OrZero(a.score)),
      ListBlock(a.formatIssues),
      if a.keywordMatch.Some? then ListBlock(a.keywordMatch.value.matches) else None,
      if a.keywordMatch.Some? then ListBlock(a.keywordMatch.value.missing) else None,
      ListBlock(a.recommendations))
  }

  /** The gap panel's body: the identified gaps, and one row per learning
      path, in order, with its own recommendation list. */
  function GapsOf(g: GapAnalysis): (b: GapsBody)
    ensures b.identified == ListBlock(g.identifiedGaps)
    ensures b.paths.Some? <==> g.learningPaths.Some? && |g.learningPaths.value| > 0
    ensures b.paths.Some? ==> |b.paths.value| == |g.learningPaths.value|
    ensures b.paths.Some? ==> forall i :: 0 <= i < |b.paths.value| ==>
      && b.paths.value[i].gap == g.learningPaths.value[i].gap
      && b.paths.value[i].recommendations == ListBlock(g.learningPaths.value[i].recommendations)
  {
    var paths := match g.learningPaths
      case Some(p) => Some(seq(|p|, i requires 0 <= i < |p| => PathRow(p[i].gap, ListBlock(p[i].recommendations))))
      case None => None;
    GapsBody(ListBlock(g.identifiedGaps), ListBlock(paths))
  }

  /** The quality-metric tiles; labels show every underscore as a space, as
      the other metric labels of the page do. */
  function QualityOf(e: Enhancement): (q: Option<QualityView>)
    ensures q.Some? <==> e.qualityMetrics.Some?
    ensures q.Some? ==> q.value.overall == e.overallQualityScore && |q.value.rows| == |e.qualityMetrics.value|
    ensures q.Some? ==> forall i :: 0 <= i < |q.value.rows| ==>
      && q.value.rows[i].heading == Text.UnderscoresToSpaces(e.qualityMetrics.value[i].0)
      && '_' !in q.value.rows[i].heading
      && q.value.rows[i].score == e.qualityMetrics.value[i].1
      && q.value.rows[i].bar == Scoring.QualityColor(e.qualityMetrics.value[i].1)
  {
    match e.qualityMetrics
    case Some(q) =>
      Some(QualityView(e.overallQualityScore,
        seq(|q|, i requires 0 <= i < |q| => QualityRow(Text.UnderscoresToSpaces(q[i].0), q[i].1, Scoring.QualityColor(q[i].1)))))
    case None => None
  }

  /** As written, a quality-metric label and a suggestion's type badge have
      only their first underscore replaced: a two-underscore key keeps its
      second one, while the corrected tile and badge show none. */
  lemma LabelsKeepUnderscore()
    ensures Text.FirstUnderscoreToSpace("a_b_c") == "a b_c"
    ensures var q := QualityOf(Enhancement(None, None, Some([("a_b_c", 75.0)]), None, None));
      q.Some? && q.value.rows[0].heading == "a b c"
    ensures SuggestionRowOf(Suggestion("Title", "Text", Some("a_b_c"))).kindLabel == Some("a b c")
  {
    assert Text.IndexOf("a_b_c", '_') == 1 by {
      assert "a_b_c"[0] == 'a' && "a_b_c"[1] == '_';
      assert "a_b_c"[..1] == "a";
    }
    assert "a_b_c"[..1] + " " + "a_b_c"[2..] == "a b_c";
    EveryUnderscoreExample();
  }

  lemma EveryUnderscoreExample()
    ensures Text.UnderscoresToSpaces("a_b_c") == "a b c"
  {
    assert Text.UnderscoresToSpaces("c") == "c";
    assert Text.UnderscoresToSpaces("_c") == " c";
    assert Text.UnderscoresToSpaces("b_c") == "b c";
    assert Text.UnderscoresToSpaces("_b_c") == " b c";
  }

  /** The skills columns: each header counts its list (`?.length || 0`) and
      the list below it is shown when non-empty, so a column shows a list
      exactly when its count is positive. */
  function SkillsOf(s: Option<SkillsAnalysis>): (v: SkillsView)
    ensures v.matchingCount == (if s.Some? && s.value.matching.Some? then |s.value.matching.value| else 0)
    ensures v.missingCount == (if s.Some? && s.value.missing.Some? then |s.value.missing.value| else 0)
    ensures v.matching == (if s.Some? then ListBlock(s.value.matching) else None)
    ensures v.missing == (if s.Some? then ListBlock(s.value.missing) else None)
    ensures v.matching.Some? <==> v.matchingCount > 0
    ensures v.missing.Some? <==> v.missingCount > 0
    ensures v.matching.Some? ==> v.matchingCount == |v.matching.value|
    ensures v.missing.Some? ==> v.missingCount == |v.missing.value|
  {
    match s
    case Some(k) =>
      SkillsView(
        if k.matching.Some? then |k.matching.value| else 0, ListBlock(k.matching),
        if k.missing.Some? then |k.missing.value| else 0, ListBlock(k.missing))
    case None => SkillsView(0, None, 0, None)
  }

  /** One suggestion: title, description and, when its type is a non-empty
      string, a type badge with every underscore shown as a space (corrected
      from the first-underscore-only replacement, as for quality labels). */
  function SuggestionRowOf(s: Suggestion): (r: SuggestionRow)
    ensures r.title == s.title && r.description == s.description
    ensures r.kindLabel.Some? <==> s.kind.Some? && s.kind.value != ""
    ensures r.kindLabel.Some? ==> r.kindLabel.value == Text.UnderscoresToSpaces(s.kind.value)
    ensures r.kindLabel.Some? ==> '_' !in r.kindLabel.value
  {
    SuggestionRow(s.title, s.description,
      match s.kind
      case Some(k) => if k != "" then Some(Text.UnderscoresToSpaces(k)) else None
      case None => None)
  }

  /** The suggestions card: drawn exactly when the list is present and
      non-empty, with one row per suggestion in order. */
  function SuggestionsOf(e: Option<Enhancement>): (r: Option<seq<SuggestionRow>>)
    ensures r.Some? <==> e.Some? && e.value.suggestions.Some? && |e.value.suggestions.value| > 0
    ensures r.Some? ==> |r.value| == |e.value.suggestions.value|
    ensures r.Some? ==> forall i :: 0 <= i < |r.value| ==> r.value[i] == SuggestionRowOf(e.value.suggestions.value[i])
  {
    match e
    case Some(en) =>
      (match en.suggestions
       case Some(s) => ListBlock(Some(seq(|s|, i requires 0 <= i < |s| => SuggestionRowOf(s[i]))))
       case None => None)
    case None => None
  }

  /** `data.ats_analysis && data.ats_analysis.overall_ats_score < 80`. */
  function AtsNotice(a: Option<AtsAnalysis>): (n: Option<real>)
    ensures n.Some? <==> a.Some? && a.value.overallAtsScore.Some? && a.value.overallAtsScore.value < 80.0
  {
    match a
    case Some(AtsAnalysis(_, Some(v), _, _, _)) => if v < 80.0 then Some(v) else None
    case _ => None
  }

  /** `data.comprehensive_analysis && data.comprehensive_analysis.overall_score < 70`. */
  function QualityNotice(c: Option<Comprehensive>): (n: Option<real>)
    ensures n.Some? <==> c.Some? && c.value.overallScore.Some? && c.value.overallScore.value < 70.0
  {
    match c
    case Some(Comprehensive(Some(v), _, _, _)) => if v < 70.0 then Some(v) else None
    case _ => None
  }

  /** `summary_insights && overall_grade && ["A", "B"].includes(overall_grade)`. */
  function GradeNotice(s: Option<SummaryInsights>): (n: Option<string>)
    ensures n.Some? <==> s.Some? && s.value.overallGrade in {Some("A"), Some("B")}
    ensures n.Some? ==> Some(n.value) == s.value.overallGrade
  {
    match s
    case Some(SummaryInsights(Some(g), _, _, _, _)) => if g == "A" || g == "B" then Some(g) else None
    case _ => None
  }

  /** A collapsible panel for an optional part of the response: present
      exactly when the part is, open exactly when its flag is set. */
  function PanelOf<T, H, B>(part: Option<T>, flags: map<string, bool>, key: string, header: T -> H, body: T -> B): (p: Option<Panel<H, B>>)
    ensures p.Some? <==> part.Some?
    ensures p.Some? ==> (p.value.body.Some? <==> Expansion.IsExpanded(flags, key))
    ensures p.Some? ==> p.value == Collapsible(flags, key, header(part.value), body(part.value))
  {
    match part
    case Some(x) => Some(Collapsible(flags, key, header(x), body(x)))
    case None => None
  }

  /** The whole card for a response and the current expansion flags. */
  function Render(data: JobMatch, flags: map<string, bool>): (v: View)
  {
    var summary := if data.summary.Some? then Some(SummaryOf(data.summary.value, data.score)) else None;
    var card := ScoreCard(Scoring.MatchColor(data.score), Scoring.MatchIcon(data.score), Scoring.ProgressColor(data.score),
      JobCategoryOf(data.enhancement));
    var comprehensive := PanelOf(data.comprehensive, flags, "comprehensive", (c: Comprehensive) => OrZero(c.overallScore), ComprehensiveOf);
    var ats := PanelOf(data.ats, flags, "ats", (a: AtsAnalysis) => OrZero(a.score), AtsOf);
    var gaps := PanelOf(data.gaps, flags, "gaps", (g: GapAnalysis) => (), GapsOf);
    var sections := PanelOf(data.sectionFeedback, flags, "sections", (f: seq<(string, Feedback)>) => (), FeedbackRows);
    var industry := PanelOf(data.industry, flags, "industry", (n: IndustryInsights) => (),
      (n: IndustryInsights) => IndustryBody(ListBlock(n.trends), ListBlock(n.recommendations)));
    var quality := if data.enhancement.Some? then QualityOf(data.enhancement.value) else None;
    var additional := if data.skills.Some? then ListBlock(data.skills.value.additional) else None;
    View(summary, card, comprehensive, ats, gaps, sections, industry, quality,
      SkillsOf(data.skills), additional, SuggestionsOf(data.enhancement),
      Scoring.NextSteps(data.score), AtsNotice(data.ats), QualityNotice(data.comprehensive), GradeNotice(data.summary))
  }

  /** A panel is rendered exactly when its part of the response is present;
      missing parts produce no panel and no placeholder. */
  lemma RenderPanelsPresent(data: JobMatch, flags: map<string, bool>)
    ensures var v := Render(data, flags);
      && (v.summary.Some? <==> data.summary.Some?)
      && (v.comprehensive.Some? <==> data.comprehensive.Some?)
      && (v.ats.Some? <==> data.ats.Some?)
      && (v.gaps.Some? <==> data.gaps.Some?)
      && (v.sections.Some? <==> data.sectionFeedback.Some?)
      && (v.industry.Some? <==> data.industry.Some?)
      && (v.quality.Some? <==> data.enhancement.Some? && data.enhancement.value.qualityMetrics.Some?)
      && (data.ats.None? ==> v.atsNotice.None?)
  {
  }

  /** A rendered panel shows its body exactly while its expansion flag is set. */
  lemma RenderPanelsFollowFlags(data: JobMatch, flags: map<string, bool>)
    ensures var v := Render(data, flags);
      && (v.comprehensive.Some? ==> (v.comprehensive.value.body.Some? <==> Expansion.IsExpanded(flags, "comprehensive")))
      && (v.ats.Some? ==> (v.ats.value.body.Some? <==> Expansion.IsExpanded(flags, "ats")))
      && (v.gaps.Some? ==> (v.gaps.value.body.Some? <==> Expansion.IsExpanded(flags, "gaps")))
      && (v.sections.Some? ==> (v.sections.value.body.Some? <==> Expansion.IsExpanded(flags, "sections")))
      && (v.industry.Some? ==> (v.industry.value.body.Some? <==> Expansion.IsExpanded(flags, "industry")))
  {
  }

  /** The score card's colour, icon and bar, and the next-steps block, all
      come from the same score bands. */
  lemma RenderScoreConsistent(data: JobMatch, flags: map<string, bool>)
    ensures var v := Render(data, flags);
      && v.scoreCard.band == Scoring.MatchColor(data.score)
      && v.scoreCard.icon == Scoring.IconOf(v.scoreCard.band)
      && v.scoreCard.bar == Scoring.HexOf(v.scoreCard.band)
      && v.nextSteps == Scoring.NextSteps(data.score)
  {
    Scoring.MatchLaddersAgree(data.score);
  }

  /** Every metric tile of a rendered card shows at most two detail rows. */
  lemma RenderCapsDetails(data: JobMatch, flags: map<string, bool>, i: nat)
    requires Render(data, flags).comprehensive.Some?
    requires Render(data, flags).comprehensive.value.body.Some?
    requires Render(data, flags).comprehensive.value.body.value.metrics.Some?
    requires i < |Render(data, flags).comprehensive.value.body.value.metrics.value|
    ensures var row := Render(data, flags).comprehensive.value.body.value.metrics.value[i];
      row.details.Some? ==> |row.details.value| <= 2
  {
  }

  /** A response with a score of 92 and a summary of grade "A" with one
      strength: the card has a summary with that grade and exactly that
      strength, the "excellent match" next step and no ATS panel. */
  lemma SummaryScenario()
    ensures var data := JobMatch(92.0,
        Some(SummaryInsights(Some("A"), None, None, Some(["Clear metrics"]), None)),
        None, None, None, None, None, None, None);
      var v := Render(data, Expansion.Initial());
      && v.summary.Some?
      && v.summary.value.gradeTone == Scoring.GradeA
      && v.summary.value.topStrengths == Some(["Clear metrics"])
      && v.nextSteps == Scoring.ExcellentMatch
      && v.gradeNotice == Some("A")
      && v.ats.None? && v.atsNotice.None?
  {
  }
}
