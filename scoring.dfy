/** The score-to-band ladders of the results views. Every ladder tests
    inclusive lower bounds from the top down and falls through to its lowest
    band, so any real score, negative or above 100, gets exactly one band. */
module Scoring {
  import opened Wrappers
  import Text

  /** The three bands of the job-match score: emerald, yellow and red styling. */
  datatype MatchBand = Emerald | Yellow | Red

  /** The icon shown beside the job-match score. */
  datatype ScoreIcon = Trophy | ThumbsUp | TrendingUp

  /** The four bands of quality bars and of the analysis pages' category bars. */
  datatype QualityBand = Green | Amber | Orange | Crimson

  /** The score tiers of the "Recommendations & Next Steps" card. */
  datatype NextStep = CriticalImprovements | GoodFoundation | ExcellentMatch

  /** Styling of a letter grade. */
  datatype GradeTone = GradeA | GradeB | GradeC | GradeD | GradeF | Ungraded

  /** Styling of an action's priority label. */
  datatype PriorityTone = High | Medium | Low | Unranked

  /** Results.jsx `getScoreColor`: three bands with inclusive bounds 80 and 60. */
  function MatchColor(score: real): (b: MatchBand)
    ensures b == Emerald <==> score >= 80.0
    ensures b == Yellow <==> 60.0 <= score < 80.0
    ensures b == Red <==> score < 60.0
  {
    if score >= 80.0 then Emerald
    else if score >= 60.0 then Yellow
    else Red
  }

  /** Results.jsx `getScoreIcon`. */
  function MatchIcon(score: real): (i: ScoreIcon)
    ensures i == Trophy <==> score >= 80.0
    ensures i == TrendingUp <==> score < 60.0
  {
    if score >= 80.0 then Trophy
    else if score >= 60.0 then ThumbsUp
    else TrendingUp
  }

  /** The colour of the job-match progress bar, a CSS hex literal. */
  function ProgressColor(score: real): (c: string)
    ensures c == "#10b981" <==> score >= 80.0
    ensures c == "#ef4444" <==> score < 60.0
    ensures c in {"#10b981", "#f59e0b", "#ef4444"}
  {
    if score >= 80.0 then "#10b981"
    else if score >= 60.0 then "#f59e0b"
    else "#ef4444"
  }

  /** The icon and the bar colour that go with a match band. */
  function IconOf(b: MatchBand): ScoreIcon {
    match b
    case Emerald => Trophy
    case Yellow => ThumbsUp
    case Red => TrendingUp
  }

  function HexOf(b: MatchBand): string {
    match b
    case Emerald => "#10b981"
    case Yellow => "#f59e0b"
    case Red => "#ef4444"
  }

  /** Colour, icon and progress bar are three ladders over the same bands,
      so they never disagree about a score. */
  lemma MatchLaddersAgree(score: real)
    ensures MatchIcon(score) == IconOf(MatchColor(score))
    ensures ProgressColor(score) == HexOf(MatchColor(score))
  {
  }

  /** The rank of a band, higher is better. */
  function MatchRank(b: MatchBand): nat {
    match b
    case Red => 0
    case Yellow => 1
    case Emerald => 2
  }

  /** A higher score never gets a worse match band. */
  lemma MatchColorMonotone(s: real, t: real)
    requires s <= t
    ensures MatchRank(MatchColor(s)) <= MatchRank(MatchColor(t))
  {
  }

  /** Results.jsx `getQualityColor`; the analysis pages' `getScoreColor` and
      `getScoreBgColor` use the same ladder. Bounds 80, 60 and 40 are
      inclusive; everything below 40, negatives included, is the lowest band. */
  function QualityColor(score: real): (b: QualityBand)
    ensures b == Green <==> score >= 80.0
    ensures b == Amber <==> 60.0 <= score < 80.0
    ensures b == Orange <==> 40.0 <= score < 60.0
    ensures b == Crimson <==> score < 40.0
  {
    if score >= 80.0 then Green
    else if score >= 60.0 then Amber
    else if score >= 40.0 then Orange
    else Crimson
  }

  function QualityRank(b: QualityBand): nat {
    match b
    case Crimson => 0
    case Orange => 1
    case Amber => 2
    case Green => 3
  }

  /** A higher score never gets a worse quality band. */
  lemma QualityColorMonotone(s: real, t: real)
    requires s <= t
    ensures QualityRank(QualityColor(s)) <= QualityRank(QualityColor(t))
  {
  }

  /** The "next steps" block for a job-match score: the source guards three
      blocks with `score < 60`, `60 <= score < 80` and `score >= 80`. */
  predicate ShowsCritical(score: real) { score < 60.0 }
  predicate ShowsFoundation(score: real) { score >= 60.0 && score < 80.0 }
  predicate ShowsExcellent(score: real) { score >= 80.0 }

  /** The one block the card shows for a score. */
  function NextSteps(score: real): (n: NextStep)
    ensures n == CriticalImprovements <==> ShowsCritical(score)
    ensures n == GoodFoundation <==> ShowsFoundation(score)
    ensures n == ExcellentMatch <==> ShowsExcellent(score)
  {
    if score < 60.0 then CriticalImprovements
    else if score < 80.0 then GoodFoundation
    else ExcellentMatch
  }

  /** Exactly one of the three guarded blocks is shown for any score, and it is
      the block of the score's match band. */
  lemma ExactlyOneNextStep(score: real)
    ensures ShowsCritical(score) || ShowsFoundation(score) || ShowsExcellent(score)
    ensures !(ShowsCritical(score) && ShowsFoundation(score))
    ensures !(ShowsCritical(score) && ShowsExcellent(score))
    ensures !(ShowsFoundation(score) && ShowsExcellent(score))
    ensures ShowsExcellent(score) <==> MatchColor(score) == Emerald
    ensures ShowsFoundation(score) <==> MatchColor(score) == Yellow
    ensures ShowsCritical(score) <==> MatchColor(score) == Red
  {
  }

  /** Results.jsx `getGradeColor`: a strict `switch` on the letters A, B, C,
      D and F; anything else, a missing grade included, is unstyled. */
  function GradeColor(grade: Option<string>): (t: GradeTone)
    ensures t == Ungraded <==> (grade.None? || grade.value !in {"A", "B", "C", "D", "F"})
    ensures t == GradeA <==> grade == Some("A")
    ensures t == GradeB <==> grade == Some("B")
    ensures t == GradeC <==> grade == Some("C")
    ensures t == GradeD <==> grade == Some("D")
    ensures t == GradeF <==> grade == Some("F")
  {
    match grade
    case None => Ungraded
    case Some(g) =>
      if g == "A" then GradeA
      else if g == "B" then GradeB
      else if g == "C" then GradeC
      else if g == "D" then GradeD
      else if g == "F" then GradeF
      else Ungraded
  }

  /** Results.jsx `getPriorityColor`: `priority?.toLowerCase()` compared with
      "high", "medium" and "low"; a missing priority is unranked. */
  function PriorityColor(priority: Option<string>): (t: PriorityTone)
    ensures t == High <==> (priority.Some? && Text.ToLower(priority.value) == "high")
    ensures t == Medium <==> (priority.Some? && Text.ToLower(priority.value) == "medium")
    ensures t == Low <==> (priority.Some? && Text.ToLower(priority.value) == "low")
  {
    match priority
    case None => Unranked
    case Some(p) =>
      var l := Text.ToLower(p);
      if l == "high" then High
      else if l == "medium" then Medium
      else if l == "low" then Low
      else Unranked
  }

  /** The priority comparison ignores letter case. */
  lemma PriorityIgnoresCase()
    ensures PriorityColor(Some("HIGH")) == High
    ensures PriorityColor(Some("Medium")) == Medium
    ensures PriorityColor(Some("urgent")) == Unranked
  {
    assert Text.ToLower("HIGH") == "high";
    assert Text.ToLower("Medium") == "medium";
    assert Text.ToLower("urgent") == "urgent";
  }
}
