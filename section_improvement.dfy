/** The section-improvement page: the user picks a section type, types the
    section's text and asks the service to rewrite it. */
module SectionImprovement {
  import opened Wrappers
  import Text
  import Submission

  /** One selectable section type. */
  datatype SectionType = SectionType(id: string, name: string, description: string, placeholder: string)

  /** The page's `sectionTypes`, in display order. */
  const SectionTypes: seq<SectionType> := [
    SectionType("summary", "Professional Summary",
      "A brief overview of your professional experience and goals",
      "Experienced software developer with 5+ years of experience in full-stack development..."),
    SectionType("experience", "Work Experience",
      "Individual job descriptions or bullet points",
      "Software Engineer at TechCorp\n\U{2022} Developed web applications using React and Node.js\n\U{2022} Collaborated with cross-functional teams..."),
    SectionType("skills", "Skills Section",
      "Technical and soft skills listing",
      "Programming Languages: JavaScript, Python, Java\nFrameworks: React, Angular, Django\nDatabases: MySQL, MongoDB..."),
    SectionType("education", "Education",
      "Educational background and achievements",
      "Bachelor of Science in Computer Science\nUniversity of Technology, 2020\nRelevant Coursework: Data Structures, Algorithms..."),
    SectionType("projects", "Projects",
      "Personal or professional project descriptions",
      "E-commerce Platform\n\U{2022} Built a full-stack e-commerce application using MERN stack\n\U{2022} Implemented payment processing with Stripe...")
  ]

  /** The endpoint and the messages of `handleImprovement`. */
  const ImproveUrl: string := "http://localhost:5000/improve-section"
  const ValidationMessage: string := "Please select a section type and enter text to improve"
  const ImprovementFallback: string := "An error occurred while improving the section"
  const NoSectionPlaceholder: string := "Select a section type first..."

  /** `types.find(s => s.id === id)`: the first entry with that id. */
  function Find(types: seq<SectionType>, id: string): (r: Option<SectionType>)
    ensures r.Some? <==> exists i :: 0 <= i < |types| && types[i].id == id
    ensures r.Some? ==> r.value.id == id
    ensures r.Some? ==> exists i :: 0 <= i < |types| && types[i] == r.value && (forall j :: 0 <= j < i ==> types[j].id != id)
  {
    if types == [] then None
    else if types[0].id == id then Some(types[0])
    else
      var r := Find(types[1..], id);
      assert forall i :: 1 <= i < |types| ==> types[1..][i - 1] == types[i];
      r
  }

  /** `selectedSectionInfo`. */
  function SelectedInfo(selected: string): Option<SectionType> {
    Find(SectionTypes, selected)
  }

  /** No two section types share an id. */
  lemma IdsDistinct()
    ensures forall i, j :: 0 <= i < j < |SectionTypes| ==> SectionTypes[i].id != SectionTypes[j].id
  {
  }

  /** The selected section's info is the one entry with that id, and there is
      none while nothing is selected. */
  lemma SelectedInfoIsUnique(selected: string)
    ensures selected == "" ==> SelectedInfo(selected).None?
    ensures forall i :: 0 <= i < |SectionTypes| && SectionTypes[i].id == selected ==>
      SelectedInfo(selected) == Some(SectionTypes[i])
  {
    IdsDistinct();
  }

  /** The textarea's placeholder: the selected type's, else a prompt. */
  function Placeholder(selected: string): (p: string)
    ensures SelectedInfo(selected).None? ==> p == NoSectionPlaceholder
    ensures SelectedInfo(selected).Some? && SelectedInfo(selected).value.placeholder != "" ==> p == SelectedInfo(selected).value.placeholder
  {
    match SelectedInfo(selected)
    case Some(t) => if t.placeholder != "" then t.placeholder else NoSectionPlaceholder
    case None => NoSectionPlaceholder
  }

  /** The guard of `handleImprovement`: a section is selected and the text is
      not blank after trimming. */
  predicate CanImprove(selected: string, text: string) {
    selected != "" && Text.Trim(text) != ""
  }

  /** The improve button's `disabled`. */
  function SubmitDisabled(selected: string, text: string, isLoading: bool): (d: bool)
    ensures d <==> selected == "" || Text.Blank(text) || isLoading
    ensures !d <==> CanImprove(selected, text) && !isLoading
  {
    Text.TrimEmptyIffBlank(text);
    selected == "" || Text.Trim(text) == "" || isLoading
  }

  /** The textarea's `disabled`: no section selected. */
  predicate TextareaDisabled(selected: string) {
    selected == ""
  }

  /** While the textarea is disabled, so is the improve button. */
  lemma TextareaDisabledBlocksSubmit(selected: string, text: string, isLoading: bool)
    ensures TextareaDisabled(selected) ==> SubmitDisabled(selected, text, isLoading)
    ensures !TextareaDisabled(selected) && !Text.Blank(text) && !isLoading ==> !SubmitDisabled(selected, text, isLoading)
  {
  }

  /** The JSON request of `handleImprovement`: exactly `section_type` and
      `original_text`, the text sent untrimmed. */
  function ImproveRequest(selected: string, text: string): (r: Submission.Request)
    ensures r.url == ImproveUrl && r.contentType == Some("application/json")
    ensures r.body == Submission.Json([("section_type", selected), ("original_text", text)])
  {
    Submission.Request(ImproveUrl, Some("application/json"),
      Submission.Json([("section_type", selected), ("original_text", text)]))
  }

  /** The page's state. */
  class SectionPage<P> {
    var selectedSection: string
    var originalText: string
    var isLoading: bool
    var result: Option<Submission.Reply<P>>
    var error: Option<string>

    function State(): Submission.PageState<P>
      reads this
    {
      Submission.PageState(result, isLoading, error)
    }

    constructor ()
      ensures selectedSection == "" && originalText == ""
      ensures !isLoading && result.None? && error.None?
    {
      selectedSection, originalText := "", "";
      isLoading, result, error := false, None, None;
    }

    /** `handleSectionChange(id)`: start over with the new section. */
    method ChangeSection(id: string)
      modifies this
      ensures selectedSection == id && originalText == ""
      ensures result.None? && error.None? && isLoading == old(isLoading)
    {
      selectedSection := id;
      originalText := "";
      result := None;
      error := None;
    }

    /** The textarea's `onChange`. */
    method EditText(text: string)
      modifies this`originalText
      ensures originalText == text
    {
      originalText := text;
    }

    /** The begin step of `handleImprovement`: the guard, then either the
      validation error with no request, or loading with the request to send. */
    method Improve() returns (request: Option<Submission.Request>)
      modifies this`isLoading, this`error, this`result
      ensures request.Some? <==> CanImprove(old(selectedSection), old(originalText))
      ensures request.None? ==> error == Some(ValidationMessage) && isLoading == old(isLoading) && result == old(result)
      ensures request.Some? ==> request.value == ImproveRequest(old(selectedSection), old(originalText))
      ensures request.Some? ==> isLoading && result.None? && error.None?
    {
      var selected, text := selectedSection, originalText;
      if CanImprove(selected, text) {
        isLoading, error, result := true, None, None;
        request := Some(ImproveRequest(selected, text));
      } else {
        error := Some(ValidationMessage);
        request := None;
      }
    }

    /** The complete step of `handleImprovement`, the same classification as
      the other pages with this page's fallback message. */
    method Complete(o: Submission.Outcome<P>)
      modifies this`isLoading, this`result, this`error
      ensures !isLoading
      ensures Submission.Settle(o, ImprovementFallback).Success? ==>
        result == Some(Submission.Settle(o, ImprovementFallback).value) && error == old(error)
      ensures Submission.Settle(o, ImprovementFallback).Failure? ==>
        error == Some(Submission.Settle(o, ImprovementFallback).error) && result == old(result)
    {
      match Submission.Settle(o, ImprovementFallback) {
        case Success(reply) => result := Some(reply);
        case Failure(message) => error := Some(message);
      }
      isLoading := false;
    }

    /** A whole `handleImprovement` call: when the guard passes, the page ends
      in the same settled state as the other pages, with its own fallback. */
    method Run(o: Submission.Outcome<P>) returns (request: Option<Submission.Request>)
      modifies this`isLoading, this`error, this`result
      ensures request.Some? <==> CanImprove(selectedSection, originalText)
      ensures request.Some? ==> State() == Submission.AfterSubmission(o, ImprovementFallback)
      ensures request.None? ==> error == Some(ValidationMessage) && isLoading == old(isLoading) && result == old(result)
    {
      request := Improve();
      if request.Some? {
        Complete(o);
      }
    }
  }

  /** With no section selected, a submission never leaves the idle state:
      loading stays off and no request is built. */
  method UnselectedScenario<P>() returns (page: SectionPage<P>, request: Option<Submission.Request>)
    ensures request.None? && !page.isLoading && page.error == Some(ValidationMessage)
  {
    page := new SectionPage();
    page.EditText("Led a team of five engineers");
    request := page.Improve();
  }
}
