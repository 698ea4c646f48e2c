/** The overall-analytics page: a résumé alone, sent to `<API_URL>/analyze-overall`. */
module AnalyticsPage {
  import opened Wrappers
  import Submission
  import Scoring

  /** The base URL when the deployment sets none. */
  const DefaultApiUrl: string := "http://localhost:5000/api"

  /** The catch's message when the thrown error has none. */
  const AnalysisFallback: string := "An error occurred while analyzing the resume"

  /** A failed analysis always shows a message: the thrown one, or this
      page's fallback when the thrown error has none (a rejected `fetch` or an
      unreadable body without a message). */
  lemma AnalysisErrorShown<P>(o: Submission.Outcome<P>)
    ensures Submission.Settle(o, AnalysisFallback).Failure? ==> Submission.Settle(o, AnalysisFallback).error != ""
    ensures o.Rejected? && o.message == "" ==> Submission.Settle(o, AnalysisFallback) == Failure(AnalysisFallback)
  {
    Submission.FailureHasMessage(o, AnalysisFallback);
  }

  /** `import.meta.env.VITE_API_URL || 'http://localhost:5000/api'`: an unset
      or empty variable falls back to the default. */
  function ApiUrl(viteApiUrl: Option<string>): (url: string)
    ensures viteApiUrl.Some? && viteApiUrl.value != "" ==> url == viteApiUrl.value
    ensures viteApiUrl.None? || viteApiUrl.value == "" ==> url == DefaultApiUrl
  {
    match viteApiUrl
    case Some(u) => if u != "" then u else DefaultApiUrl
    case None => DefaultApiUrl
  }

  /** The request of `handleAnalysis(file)`: only the `resume` field. */
  function AnalyzeOverallRequest(file: Submission.File, viteApiUrl: Option<string>): (r: Submission.Request)
    ensures r.url == ApiUrl(viteApiUrl) + "/analyze-overall"
    ensures r.contentType.None? && r.body.Multipart?
    ensures Submission.FieldKeys(r.body.fields) == ["resume"]
    ensures r.body.fields[0].FileField? && r.body.fields[0].file == file
  {
    Submission.Request(ApiUrl(viteApiUrl) + "/analyze-overall", None,
      Submission.Multipart([Submission.FileField("resume", file)]))
  }

  /** The page's `getScoreColor`: the four quality bands. */
  function ScoreColor(score: real): (b: Scoring.QualityBand)
    ensures b == Scoring.QualityColor(score)
  {
    if score >= 80.0 then Scoring.Green
    else if score >= 60.0 then Scoring.Amber
    else if score >= 40.0 then Scoring.Orange
    else Scoring.Crimson
  }
}
