/** The job-match page: a résumé plus a job description, sent to `/analyze`. */
module JobAnalysisPage {
  import opened Wrappers
  import Submission
  import Scoring

  /** The endpoint the page posts to. */
  const AnalyzeUrl: string := "http://localhost:5000/analyze"

  /** The catch's message when the thrown error has none. */
  const AnalysisFallback: string := "An error occurred while analyzing the resume"

  /** A failed analysis always shows a message: the thrown one, or this
      page's fallback when the thrown error has none (a rejected `fetch` or an
      unreadable body without a message). */
  lemma AnalysisErrorShown<P>(o: Submission.Outcome<P>)
    ensures Submission.Settle(o, AnalysisFallback).Failure? ==> Submission.Settle(o, AnalysisFallback).error != ""
    ensures o.Rejected? && o.message == "" ==> Submission.Settle(o, AnalysisFallback) == Failure(AnalysisFallback)
  {
    Submission.FailureHasMessage(o, AnalysisFallback);
  }

  /** The `FormData` of `handleAnalysis(file, jobDescription)`: exactly the
      fields `resume` and `job_description`, in that order. */
  function AnalyzeRequest(file: Submission.File, jobDescription: string): (r: Submission.Request)
    ensures r.url == AnalyzeUrl && r.contentType.None? && r.body.Multipart?
    ensures Submission.FieldKeys(r.body.fields) == ["resume", "job_description"]
    ensures r.body.fields[0].FileField? && r.body.fields[0].file == file
    ensures r.body.fields[1].TextField? && r.body.fields[1].text == jobDescription
  {
    Submission.Request(AnalyzeUrl, None,
      Submission.Multipart([Submission.FileField("resume", file), Submission.TextField("job_description", jobDescription)]))
  }

  /** The page's `getScoreColor` (and `getScoreBgColor`, which differs only in
      its CSS): the four quality bands of the Results card. */
  function ScoreColor(score: real): (b: Scoring.QualityBand)
    ensures b == Scoring.QualityColor(score)
  {
    if score >= 80.0 then Scoring.Green
    else if score >= 60.0 then Scoring.Amber
    else if score >= 40.0 then Scoring.Orange
    else Scoring.Crimson
  }
}
