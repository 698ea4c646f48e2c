# Resume analyzer front end — a Dafny model

This project models the logic of the React front end of a résumé analyzer:
the upload form that collects a PDF résumé and an optional job description,
the three pages that post it (job-match analysis, overall résumé analytics,
section improvement) and settle the server's reply into a result or an error
message, and the `Results` component that turns a job-match report into
score bands, collapsible panels, per-section feedback rows and next steps.
It also models the section-improvement page's `**bold**` splitter.

Modules, one per concern of the source:

- `Wrappers` — `Option` and `Result`.
- `Text` — the JavaScript string operations the components rely on: `trim`
  with JavaScript's whitespace set, ASCII `toLowerCase`, `includes`,
  `startsWith`/`endsWith`, `replace(/_/g, " ")` and `replace("_", " ")`, and
  the decimal rendering of a status code in a template literal.
- `Scoring` — the colour/icon ladders of `Results` (`getScoreColor`,
  `getScoreIcon`, `getQualityColor`, `getGradeColor`, `getPriorityColor`,
  the progress-bar colour) and the score-based next-steps block.
- `Expansion` — the `expandedSections` state and `toggleSection`, as a class
  whose `Toggle` updates a map in place.
- `ResultsView` — the job-match report as datatypes and `Render`, which
  decides which panels appear, what each panel shows and which notices are
  raised.
- `Submission` — the shared request/response protocol: the request a page
  builds, how `res.ok`, the JSON body and `status === "error"` are settled
  into a result or a message, and a `Controller` class holding the
  `result`/`isLoading`/`error` state of a page.
- `JobAnalysisPage`, `AnalyticsPage`, `SectionImprovement` — each page's
  endpoint, request body, fallback message, guard and page-specific state.
- `FileUpload` — the upload form as a class (file, job description,
  analysing and drag-over flags) with its submit guard and drop filter.
- `Markdown` — `parseMarkdownText`: the `split(/(\*\*.*?\*\*)/g)` of the
  text (lazy match, `.` not crossing line terminators) and the bold/plain
  rendering of the pieces.

The network, `FormData`, `res.json()` and React's scheduling are not
modelled as such: a fetch is represented by an `Outcome` value (rejected
with a message, or answered with a status and a parsed body or a parse
error), which the page methods take as a parameter.

## Model

| member | source | states |
|---|---|---|
| Text.Trim | src/components/FileUpload.jsx:12 | the result is the input with its leading and trailing JavaScript whitespace removed; it is a contiguous slice whose ends are not whitespace |
| Text.TrimEmptyIffBlank | src/components/FileUpload.jsx:138 | `trim()` is empty exactly when every character is whitespace, so `!text.trim()` means the text is blank |
| Text.ToLower | src/components/Results.jsx:84 | same length, each ASCII capital lowered and every other character kept |
| Text.Contains | src/components/Results.jsx:666-706 | `includes(k)` holds exactly when `k` occurs at some index of the string |
| Text.UnderscoresToSpaces | src/components/Results.jsx:301 | `replace(/_/g, " ")`: same length, every underscore becomes a space, every other character kept; no underscore remains |
| Text.FirstUnderscoreToSpace | src/components/Results.jsx:838 | `replace("_", " ")`: only the first underscore becomes a space and everything else is kept; a string without underscore is unchanged |
| Text.Decimal | src/pages/ResumeJobAnalysisPage.jsx:28 | a status code in a template literal is a non-empty string of digits without a leading zero |
| Text.DecimalRoundTrip | src/pages/ResumeJobAnalysisPage.jsx:28 | reading the digits of the rendered status gives the status back |
| Text.DecimalInjective | src/pages/ResumeJobAnalysisPage.jsx:28 | different status codes render differently |
| Scoring.MatchColor | src/components/Results.jsx:47-51 | emerald exactly at 80 or more, yellow exactly from 60 up to 80, red exactly below 60 |
| Scoring.MatchIcon | src/components/Results.jsx:53-57 | trophy exactly at 80 or more, trending-up exactly below 60 |
| Scoring.ProgressColor | src/components/Results.jsx:250-260 | green hex exactly at 80 or more, red hex exactly below 60, otherwise amber |
| Scoring.MatchLaddersAgree | src/components/Results.jsx:47-57 | the card colour, the icon and the bar colour always fall in the same band |
| Scoring.MatchColorMonotone | src/components/Results.jsx:47-51 | a higher score never gets a worse band |
| Scoring.QualityColor | src/components/Results.jsx:59-64 | the four quality bands with boundaries 80, 60 and 40, each as an if-and-only-if |
| Scoring.QualityColorMonotone | src/components/Results.jsx:59-64 | a higher score never gets a worse quality band |
| Scoring.NextSteps | src/components/Results.jsx:1021-1105 | the critical, foundation and excellent blocks show exactly below 60, from 60 to below 80, and at 80 or more |
| Scoring.ExactlyOneNextStep | src/components/Results.jsx:1022-1079 | the three score conditions cover every score, are pairwise exclusive, and agree with the score card's colour band |
| Scoring.GradeColor | src/components/Results.jsx:66-81 | each of "A", "B", "C", "D" and "F" gets its own tone exactly for that grade, and anything else (or no grade) the default tone |
| Scoring.PriorityColor | src/components/Results.jsx:83-94 | high, medium and low tones exactly when the lower-cased priority is "high", "medium" or "low" |
| Scoring.PriorityIgnoresCase | src/components/Results.jsx:84 | "HIGH" and "Medium" match regardless of case; "urgent" gets the default tone |
| Expansion.Initial | src/components/Results.jsx:32-38 | the five panels start expanded and no other key is set |
| Expansion.Toggled | src/components/Results.jsx:40-45 | the toggled key flips its visible state, every other key keeps its value, and the key is added if missing |
| Expansion.ToggleIsolated | src/components/Results.jsx:40-45 | toggling one panel never changes whether another is expanded |
| Expansion.ToggleTwice | src/components/Results.jsx:40-45 | toggling a present key twice restores the map |
| Expansion.ToggleTwiceVisible | src/components/Results.jsx:40-45 | toggling any key twice restores every visible state; for a missing key the map gains that key set to false |
| Expansion.InitialToggle | src/components/Results.jsx:32-45 | from the initial state a first toggle collapses a panel and a second re-expands it |
| Expansion.ExpandedSections.Toggle | src/components/Results.jsx:40-45 | the state becomes the toggled map: the key flips, every other key reads as before |
| ResultsView.ListBlock | src/components/Results.jsx:163-164 | a list block is drawn exactly when the list is present and non-empty, with that list |
| ResultsView.SummaryOf | src/components/Results.jsx:99-213 | the grade in its grade tone, ATS readiness and competitiveness or 0, the score's match band, the top strengths block, and one action row per priority action, in order, toned by its priority |
| ResultsView.JobCategoryOf | src/components/Results.jsx:222-233 | the category line is shown exactly for a present, non-empty category, with the confidence times 100, or no number (the source's `NaN`) when the confidence is missing |
| ResultsView.ComprehensiveOf | src/components/Results.jsx:293-380 | the metric grid exactly when detailed metrics are present, one tile per metric in order; strengths and weaknesses as list blocks |
| ResultsView.AtsOf | src/components/Results.jsx:382-540 | keyword percentage and ATS score, each present value or 0, each with its quality band; format issues and recommendations as list blocks; matched and missing keywords exactly when the keyword match has a non-empty list |
| ResultsView.GapsOf | src/components/Results.jsx:541-625 | identified gaps as a list block; learning paths exactly when the list is non-empty, one row per path in order with its own recommendation block |
| ResultsView.SkillsOf | src/components/Results.jsx:860-940 | each column's count is its list's length or 0, and its list is shown exactly when that count is positive |
| ResultsView.Collapsible | src/components/Results.jsx:268-290 | a panel's body is shown exactly when its key is expanded |
| ResultsView.FirstMatch | src/components/Results.jsx:667-713 | on an already lowered name, the category of the first rule of the ladder one of whose keywords occurs in it, or the default exactly when none does |
| ResultsView.SectionCategory | src/components/Results.jsx:665-713 | `getSectionIcon`: the name is lower-cased first, and the icon is that of the first rule with a keyword in the lowered name, or the default exactly when no rule has one |
| ResultsView.SummaryBeforeProjects | src/components/Results.jsx:666-690 | a name matching both the summary and projects rules gets the summary icon, the earlier branch |
| ResultsView.FeedbackRowOf | src/components/Results.jsx:650-747 | heading with underscores as spaces; string feedback shown as is, object feedback's text or empty; a badge exactly when the score is present and non-zero, banded at 80/60 |
| ResultsView.ShownEntries | src/components/Results.jsx:650-653 | keeps exactly the entries whose feedback is truthy, each one from the input |
| ResultsView.ShownEntriesInOrder | src/components/Results.jsx:650-653 | the kept entries are the truthy entries at strictly increasing input positions, each once: order and multiplicity are those of the input |
| ResultsView.FeedbackRows | src/components/Results.jsx:650-750 | one row per truthy entry, built from that entry |
| ResultsView.FalsyEntriesSkipped | src/components/Results.jsx:653 | the section list is empty exactly when every feedback is falsy |
| ResultsView.ZeroScoreHasNoBadge | src/components/Results.jsx:656-662 | a score of 0 draws no badge (in the markup, `0 && …` leaves React rendering the text "0" in the badge's place), and an object without feedback text shows an empty paragraph |
| ResultsView.DetailRows | src/components/Results.jsx:316-324 | at most the first two detail entries, in order, labels with underscores as spaces |
| ResultsView.MetricRowOf | src/components/Results.jsx:296-330 | a metric tile shows its label with every underscore as a space, its score or 0, the quality band of that score, and the detail rows of its details exactly when it has details |
| ResultsView.MetricRows | src/components/Results.jsx:293-332 | one tile per metric, in order |
| ResultsView.QualityOf | src/components/Results.jsx:820-858 | the quality card is drawn exactly when metrics are present; one tile per metric whose label is the key with every underscore as a space, with its score and band |
| ResultsView.LabelsKeepUnderscore | src/components/Results.jsx:838 | as written, "a_b_c" becomes "a b_c"; the corrected quality tile and suggestion badge read "a b c" |
| ResultsView.SuggestionRowOf | src/components/Results.jsx:980-1003 | title and description kept; a type badge exactly when the type is a non-empty string, reading the type with every underscore as a space |
| ResultsView.SuggestionsOf | src/components/Results.jsx:969-1007 | the suggestions card is drawn exactly when the list is present and non-empty, one row per suggestion in order |
| ResultsView.AtsNotice | src/components/Results.jsx:1108 | the ATS notice shows exactly when an ATS score is present and below 80 |
| ResultsView.QualityNotice | src/components/Results.jsx:1131-1133 | the quality notice shows exactly when an overall score is present and below 70 |
| ResultsView.GradeNotice | src/components/Results.jsx:1155-1157 | the success notice shows exactly for grade A or B, with that grade |
| ResultsView.PanelOf | src/components/Results.jsx:268-290 | a collapsible panel exists exactly when its part of the report does, and shows its body exactly when expanded |
| ResultsView.RenderPanelsPresent | src/components/Results.jsx:99-820 | each panel is rendered exactly when its part of the report is present |
| ResultsView.RenderPanelsFollowFlags | src/components/Results.jsx:272-758 | each of the five collapsible panels shows its body exactly when its flag reads as expanded |
| ResultsView.RenderScoreConsistent | src/components/Results.jsx:236-260 | the score card's band, icon, bar colour and the next-steps block all agree with the score |
| ResultsView.RenderCapsDetails | src/components/Results.jsx:318 | no rendered metric tile shows more than two details |
| ResultsView.SummaryScenario | src/components/Results.jsx:99-180 | a score of 92 with grade A and one strength renders that grade's tone, that strength, the excellent next step and the success notice, and no ATS panel |
| Submission.FieldKeys | src/pages/ResumeJobAnalysisPage.jsx:12-14 | the keys of a form body, in order |
| Submission.OrElse | src/pages/ResumeJobAnalysisPage.jsx:35 | a message or its fallback: the string if non-empty, else the fallback |
| Submission.ServerError | src/pages/ResumeJobAnalysisPage.jsx:28 | the message is "Server error: " followed by the decimal digits of the status |
| Submission.ServerErrorNamesStatus | src/pages/ResumeJobAnalysisPage.jsx:28 | two equal server-error messages come from the same status |
| Submission.Settle | src/pages/ResumeJobAnalysisPage.jsx:20-44 | success exactly for an ok status with a parsed body whose status is not "error", carrying that body; otherwise the message of each failure path, with the page's fallback for an empty message |
| Submission.FailureHasMessage | src/pages/ResumeJobAnalysisPage.jsx:39-41 | with a non-empty fallback every failure carries a non-empty message |
| Submission.LogicalErrorScenario | src/pages/ResumeJobAnalysisPage.jsx:34-36 | a 200 reply with status "error" fails with the server's own error text |
| Submission.NonOkIgnoresBody | src/pages/ResumeJobAnalysisPage.jsx:27-29 | a non-ok status fails with the status message whatever the body |
| Submission.AfterSubmission | src/pages/ResumeJobAnalysisPage.jsx:16-44 | after a submission the page is not loading; on success it holds the settled reply and no error, on failure the settled message and no result |
| Submission.AfterSubmissionVisibility | src/pages/ResumeJobAnalysisPage.jsx:486-528 | after a submission exactly one of the results or the error box is visible |
| Submission.VisibilityExclusive | src/pages/ResumeJobAnalysisPage.jsx:501-528 | results and the information panel are never shown together, and neither while loading |
| Submission.Controller.Begin | src/pages/ResumeJobAnalysisPage.jsx:16-18 | loading starts with result and error cleared |
| Submission.Controller.Complete | src/pages/ResumeJobAnalysisPage.jsx:38-44 | loading ends; success stores the reply, failure stores the message |
| Submission.Controller.Submit | src/pages/ResumeJobAnalysisPage.jsx:11-45 | the page's state after a whole submission is the settled state |
| JobAnalysisPage.AnalyzeRequest | src/pages/ResumeJobAnalysisPage.jsx:11-26 | a multipart post to /analyze with fields resume (the file) and job_description (the text), in that order |
| JobAnalysisPage.AnalysisErrorShown | src/pages/ResumeJobAnalysisPage.jsx:39-41 | every failed analysis shows a non-empty message, and a rejected fetch without a message shows the page's fallback |
| JobAnalysisPage.ScoreColor | src/pages/ResumeJobAnalysisPage.jsx:47-59 | the page's own score ladder coincides with the results card's quality ladder |
| AnalyticsPage.AnalysisErrorShown | src/pages/ResumeAnalytics.jsx:38-40 | every failed analysis shows a non-empty message, and a rejected fetch without a message shows the page's fallback |
| AnalyticsPage.ApiUrl | src/pages/ResumeAnalytics.jsx:10 | the configured API URL when set and non-empty, else the local default |
| AnalyticsPage.AnalyzeOverallRequest | src/pages/ResumeAnalytics.jsx:12-25 | a multipart post to the API URL plus /analyze-overall with the single field resume |
| AnalyticsPage.ScoreColor | src/pages/ResumeAnalytics.jsx:46-58 | the page's own score ladder coincides with the results card's quality ladder |
| SectionImprovement.Find | src/pages/SectionImprovementPage.jsx:118-120 | `find` returns an entry with the id exactly when one exists, and it is the first such entry |
| SectionImprovement.IdsDistinct | src/pages/SectionImprovementPage.jsx:24-60 | the five section types have distinct ids |
| SectionImprovement.SelectedInfoIsUnique | src/pages/SectionImprovementPage.jsx:118-120 | nothing is selected for the empty id, and a selected id finds exactly its own entry |
| SectionImprovement.Placeholder | src/pages/SectionImprovementPage.jsx:193-196 | the selected type's placeholder, or the prompt to select a type |
| SectionImprovement.SubmitDisabled | src/pages/SectionImprovementPage.jsx:206 | the button is disabled exactly when no type is selected, the text is blank, or a request is running |
| SectionImprovement.TextareaDisabledBlocksSubmit | src/pages/SectionImprovementPage.jsx:197-206 | while the text area is disabled (no type selected) the button is disabled too; with a type selected, non-blank text and no request running it is enabled |
| SectionImprovement.ImproveRequest | src/pages/SectionImprovementPage.jsx:81-90 | a JSON post to /improve-section with section_type and original_text |
| SectionImprovement.SectionPage.ChangeSection | src/pages/SectionImprovementPage.jsx:63-68 | selecting a type clears the text, the result and the error |
| SectionImprovement.SectionPage.EditText | src/pages/SectionImprovementPage.jsx:192 | the text becomes the edited value |
| SectionImprovement.SectionPage.Improve | src/pages/SectionImprovementPage.jsx:70-79 | a request is issued exactly when a type is selected and the text is not blank; otherwise only the validation message is set |
| SectionImprovement.SectionPage.Complete | src/pages/SectionImprovementPage.jsx:92-108 | loading ends and the settled result or message is stored, with the page's own fallback |
| SectionImprovement.SectionPage.Run | src/pages/SectionImprovementPage.jsx:70-108 | a whole click: a request exactly when a type is selected and the text is not blank, and then the settled state; otherwise only the validation message is set, and loading and the earlier result are kept |
| SectionImprovement.UnselectedScenario | src/pages/SectionImprovementPage.jsx:70-74 | a fresh page with nothing selected refuses to submit and shows the validation message |
| FileUpload.AnalyzeArguments | src/components/FileUpload.jsx:10-24 | `onAnalyze` is called exactly when a file is set and the job description is hidden or not blank; with the file alone when hidden, with the untrimmed description otherwise |
| FileUpload.SubmitDisabled | src/components/FileUpload.jsx:138 | the button is disabled exactly when there is no file, a needed description is blank, or an analysis runs; an enabled button always passes the submit guard |
| FileUpload.AfterDrop | src/components/FileUpload.jsx:36-43 | a drop replaces the file only with a first dropped file of type application/pdf |
| FileUpload.UploadForm.BeginSubmit | src/components/FileUpload.jsx:10-19 | returns the arguments of `onAnalyze` and sets the analysing flag exactly when it calls it |
| FileUpload.UploadForm.FinishSubmit | src/components/FileUpload.jsx:20-22 | the `finally` block: the analysing flag is cleared and nothing else changes, however `onAnalyze` ended |
| FileUpload.UploadForm.DragOver | src/components/FileUpload.jsx:26-29 | the drag highlight goes on |
| FileUpload.UploadForm.DragLeave | src/components/FileUpload.jsx:31-34 | the drag highlight goes off |
| FileUpload.UploadForm.Drop | src/components/FileUpload.jsx:36-43 | the highlight goes off and the file becomes the drop result |
| FileUpload.UploadForm.ChooseFile | src/components/FileUpload.jsx:83 | the picked first file is taken without a type check; an empty pick clears the file |
| FileUpload.UploadForm.EditJobDescription | src/components/FileUpload.jsx:118 | the description becomes the edited value |
| FileUpload.DropFiltersNonPdf | src/components/FileUpload.jsx:40 | a dropped text file is ignored, a dropped PDF is taken |
| FileUpload.BlankJobDescription | src/components/FileUpload.jsx:12 | a whitespace-only description blocks the job-match form but not the résumé-only form |
| Markdown.CloseFrom | src/pages/SectionImprovementPage.jsx:124 | the lazy `.*?\*\*` finds the nearest closing marker not preceded by a line terminator, or fails when a line terminator comes first |
| Markdown.FirstMatch | src/pages/SectionImprovementPage.jsx:124 | the leftmost match of the pattern, with no match starting earlier |
| Markdown.Split | src/pages/SectionImprovementPage.jsx:124 | an odd number of pieces with the captured spans at the odd positions |
| Markdown.SplitJoin | src/pages/SectionImprovementPage.jsx:124 | the split pieces joined give back the text |
| Markdown.SplitFollowsPattern | src/pages/SectionImprovementPage.jsx:124 | every captured piece is a match of the pattern starting and ending at that piece's position in the text, and no match starts inside a piece between captures |
| Markdown.MatchWellFormed | src/pages/SectionImprovementPage.jsx:124 | a match is `**`, a text without line terminators and without an inner `**`, and `**` |
| Markdown.SpansWellFormed | src/pages/SectionImprovementPage.jsx:124 | every captured piece of the split is such a span |
| Markdown.Inner | src/pages/SectionImprovementPage.jsx:127 | `slice(2, -2)`: the text between the markers, empty when they overlap |
| Markdown.PieceAsWritten | src/pages/SectionImprovementPage.jsx:126-130 | as written: bold exactly when the piece starts and ends with `**` |
| Markdown.ParseAsWritten | src/pages/SectionImprovementPage.jsx:123-132 | as written: each split piece rendered by that test |
| Markdown.Parse | src/pages/SectionImprovementPage.jsx:123-132 | corrected: exactly the captured spans are bold |
| Markdown.ParseLossless | src/pages/SectionImprovementPage.jsx:123-132 | putting the markers back around the bold pieces of the corrected parse gives the text back |
| Markdown.AgreeOnSpans | src/pages/SectionImprovementPage.jsx:124-128 | both versions render every captured span alike |
| Markdown.AsWrittenDropsMarkers | src/pages/SectionImprovementPage.jsx:126-128 | as written, the text "**" renders as an empty bold piece, so its asterisks disappear; the corrected parse keeps them |

## Left out

- The network, `FormData`, `res.json()` and `console.error`: a fetch is an `Outcome` parameter and JSON parsing is its `parsed` field.
- The clipboard buttons and their two-second `setTimeout` on the section-improvement page: browser I/O and a clock.
- JSX layout, CSS class strings, icons and widths: the model keeps the choice of band, icon and tone, not the markup; `getScoreBgColor` uses the same ladder as `getScoreColor` and is represented by `ScoreColor`.
- `Math.round` of displayed percentages: display only, and scores are modelled as reals.
- Scores that are `undefined`, `null` or `NaN` in places the source compares them without a fallback (for example `overall_ats_score < 80`, where `null` would count as 0): a missing score is `None` and raises no notice.
- ResultsView.JobCategoryOf: a `category_confidence` of `null`, which the source shows as 0%, is not told apart from a missing one, which it shows as `NaN`%; both are `None`.
- The literal "0" React renders for a section score of 0 (`{scoreValue && …}`): markup, not modelled.
- Section-feedback values that are truthy non-string scalars (numbers, `true`): only strings and objects are modelled.
- Non-ASCII case mapping in `toLowerCase`: only ASCII letters are lowered.
- The rendering of the analytics page, the job-analysis page's own result panels and the improvement-result panels, beyond which of results, loading, error and information panels are visible.
- React's batching of state updates and the interleaving of a second click while a request runs: each handler runs to completion, and `FileUpload.UploadForm.BeginSubmit` does not check the analysing flag, as the source's handler does not (only the disabled button does).
- `HomePage`, `HeroSection`, `Header`, `Layout`, `App`, `ScrollToTop`: routing and static pages with no logic of their own.
- ResultsView.Render: its properties are stated by the lemmas `RenderPanelsPresent`, `RenderPanelsFollowFlags`, `RenderScoreConsistent` and `RenderCapsDetails` rather than by its own contract.
- Expansion.Toggled: a key missing from the map reads as collapsed (`undefined` is falsy), and toggling it sets it to true.

## Findings

| source | as written | input that shows it | evidently intended | confidence | as-written member | corrected member |
|---|---|---|---|---|---|---|
| src/pages/SectionImprovementPage.jsx:126-128 | any split piece that starts and ends with `**` is drawn bold with two characters cut from each end, including pieces the pattern did not match | the text `**` (also `***`): no match, but the single plain piece is drawn as an empty bold element and the asterisks vanish | only the captured spans (odd positions of the split) are bold, so the text is rendered losslessly | medium, not executed | Markdown.AsWrittenDropsMarkers | Markdown.ParseLossless |
| src/components/Results.jsx:838 | quality-metric labels use `replace("_", " ")`, which replaces only the first underscore | a metric key `a_b_c` is labelled `a b_c` | every underscore shown as a space, as the other labels of the component do with `/_/g` | medium, not executed | ResultsView.LabelsKeepUnderscore | ResultsView.QualityOf |
| src/components/Results.jsx:999 | suggestion type badges use `replace("_", " ")`, which replaces only the first underscore | a suggestion of type `a_b_c` is badged `a b_c` | every underscore shown as a space | medium, not executed | ResultsView.LabelsKeepUnderscore | ResultsView.SuggestionRowOf |
