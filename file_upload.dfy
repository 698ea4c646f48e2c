/** The upload form shared by the two analysis pages: a PDF drop zone, an
    optional job-description box and a submit button that calls the page's
    `onAnalyze`. */
module FileUpload {
  import opened Wrappers
  import Text
  import Submission

  /** The MIME type a dropped file must have. */
  const PdfType: string := "application/pdf"

  /** The arguments `onAnalyze` is called with. */
  datatype AnalyzeCall =
    | FileOnly(file: Submission.File)
    | FileAndJob(file: Submission.File, jobDescription: string)

  /** The guard of `handleSubmit`: a file is set, and the job description is
      either hidden or not blank after trimming. */
  predicate CanSubmit(file: Option<Submission.File>, jobDesc: string, hideJobDescription: bool) {
    file.Some? && (hideJobDescription || Text.Trim(jobDesc) != "")
  }

  /** What `handleSubmit` passes to `onAnalyze`, if it calls it at all. */
  function AnalyzeArguments(file: Option<Submission.File>, jobDesc: string, hideJobDescription: bool): (call: Option<AnalyzeCall>)
    ensures call.Some? <==> file.Some? && (hideJobDescription || !Text.Blank(jobDesc))
    ensures call.Some? && hideJobDescription ==> call.value == FileOnly(file.value)
    ensures call.Some? && !hideJobDescription ==> call.value == FileAndJob(file.value, jobDesc)
  {
    Text.TrimEmptyIffBlank(jobDesc);
    if CanSubmit(file, jobDesc, hideJobDescription) then
      if hideJobDescription then Some(FileOnly(file.value)) else Some(FileAndJob(file.value, jobDesc))
    else None
  }

  /** The submit button's `disabled`. */
  function SubmitDisabled(file: Option<Submission.File>, jobDesc: string, hideJobDescription: bool, isAnalyzing: bool): (d: bool)
    ensures d <==> file.None? || (!hideJobDescription && Text.Blank(jobDesc)) || isAnalyzing
    ensures !d ==> AnalyzeArguments(file, jobDesc, hideJobDescription).Some?
  {
    Text.TrimEmptyIffBlank(jobDesc);
    file.None? || (!hideJobDescription && Text.Trim(jobDesc) == "") || isAnalyzing
  }

  /** The file after a drop of `files`: the first dropped file replaces the
      current one only if it is a PDF. */
  function AfterDrop(current: Option<Submission.File>, files: seq<Submission.File>): (f: Option<Submission.File>)
    ensures |files| > 0 && files[0].mimeType == PdfType ==> f == Some(files[0])
    ensures !(|files| > 0 && files[0].mimeType == PdfType) ==> f == current
    ensures f.Some? && f != current ==> f.value.mimeType == PdfType
  {
    if |files| > 0 && files[0].mimeType == PdfType then Some(files[0]) else current
  }

  /** The form's state. */
  class UploadForm {
    var file: Option<Submission.File>
    var jobDesc: string
    var isAnalyzing: bool
    var dragOver: bool
    const hideJobDescription: bool

    constructor (hideJobDescription: bool)
      ensures this.hideJobDescription == hideJobDescription
      ensures file.None? && jobDesc == "" && !isAnalyzing && !dragOver
    {
      this.hideJobDescription := hideJobDescription;
      file, jobDesc, isAnalyzing, dragOver := None, "", false, false;
    }

    /** The button's `disabled`, on the current state. */
    function Disabled(): bool
      reads this
    {
      SubmitDisabled(file, jobDesc, hideJobDescription, isAnalyzing)
    }

    /** The start of `handleSubmit`: when the guard holds, `isAnalyzing` is set
      and `onAnalyze` is called with the returned arguments. The guard does
      not look at `isAnalyzing`; only the button's `disabled` does. */
    method BeginSubmit() returns (call: Option<AnalyzeCall>)
      modifies this`isAnalyzing
      ensures call == AnalyzeArguments(file, jobDesc, hideJobDescription)
      ensures !old(Disabled()) ==> call.Some?
      ensures isAnalyzing == (call.Some? || old(isAnalyzing))
    {
      call := None;
      if file.Some? && (hideJobDescription || Text.Trim(jobDesc) != "") {
        isAnalyzing := true;
        if hideJobDescription {
          call := Some(FileOnly(file.value));
        } else {
          call := Some(FileAndJob(file.value, jobDesc));
        }
      }
    }

    /** The `finally` of `handleSubmit`: whether `onAnalyze` resolved or
      threw, the flag is cleared. */
    method FinishSubmit()
      modifies this`isAnalyzing
      ensures !isAnalyzing
    {
      isAnalyzing := false;
    }

    /** `handleDragOver`. */
    method DragOver()
      modifies this`dragOver
      ensures dragOver
    {
      dragOver := true;
    }

    /** `handleDragLeave`. */
    method DragLeave()
      modifies this`dragOver
      ensures !dragOver
    {
      dragOver := false;
    }

    /** `handleDrop`: the highlight goes off and a dropped PDF becomes the file. */
    method Drop(files: seq<Submission.File>)
      modifies this`dragOver, this`file
      ensures !dragOver
      ensures file == AfterDrop(old(file), files)
    {
      dragOver := false;
      if |files| > 0 && files[0].mimeType == PdfType {
        file := Some(files[0]);
      }
    }

    /** The file input's `onChange`: `files[0]` is taken as it is, whatever its
      type (`accept=".pdf"` only filters the picker); an empty selection
      clears the file. */
    method ChooseFile(files: seq<Submission.File>)
      modifies this`file
      ensures file == if |files| > 0 then Some(files[0]) else None
    {
      file := if |files| > 0 then Some(files[0]) else None;
    }

    /** The job-description textarea's `onChange`. */
    method EditJobDescription(text: string)
      modifies this`jobDesc
      ensures jobDesc == text
    {
      jobDesc := text;
    }
  }

  /** Only a PDF survives a drop: a dropped text file leaves the form empty. */
  lemma DropFiltersNonPdf()
    ensures AfterDrop(None, [Submission.File("cv.txt", "text/plain")]).None?
    ensures AfterDrop(None, [Submission.File("cv.pdf", PdfType)]) == Some(Submission.File("cv.pdf", PdfType))
  {
  }

  /** A blank job description blocks the job-match form but not the
      résumé-only form. */
  lemma BlankJobDescription(f: Submission.File)
    ensures AnalyzeArguments(Some(f), " \n\t", false).None?
    ensures AnalyzeArguments(Some(f), " \n\t", true) == Some(FileOnly(f))
  {
    assert Text.Blank(" \n\t");
  }
}
