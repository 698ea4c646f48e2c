/** The submission state machine that each analysis page runs in its
    `handleAnalysis`/`handleImprovement` handler, and the requests they send.
    A handler is a begin step (set loading, clear the old result and error)
    followed, once the awaited exchange is over, by a complete step that
    classifies the outcome and clears loading in `finally`. */
module Submission {
  import opened Wrappers
  import Text

  /** A file picked or dropped by the user. */
  datatype File = File(name: string, mimeType: string)

  /** One part of a `FormData` body. */
  datatype FormField = FileField(key: string, file: File) | TextField(key: string, text: string)

  /** How a request body is encoded. */
  datatype Body = Multipart(fields: seq<FormField>) | Json(members: seq<(string, string)>)

  /** A `fetch` call: always a `POST`. */
  datatype Request = Request(url: string, contentType: Option<string>, body: Body)

  /** The keys of a multipart body, in order. */
  function FieldKeys(fields: seq<FormField>): (keys: seq<string>)
    ensures |keys| == |fields|
    ensures forall i :: 0 <= i < |fields| ==> keys[i] == fields[i].key
  {
    if fields == [] then [] else [fields[0].key] + FieldKeys(fields[1..])
  }

  /** A 2xx body after `res.json()`: the optional `status` and `error`
      members the handlers test, and the rest of the payload. */
  datatype Reply<P> = Reply(status: Option<string>, error: Option<string>, payload: P)

  /** What the awaited exchange produced: `fetch` rejected (a network failure)
      with an error message, or a response arrived with a status code and a
      body that `res.json()` either parsed or rejected with a message. */
  datatype Outcome<P> = Rejected(message: string) | Responded(status: nat, parsed: Result<Reply<P>, string>)

  /** `res.ok`. */
  predicate IsOk(status: nat) {
    200 <= status <= 299
  }

  /** JavaScript's `s || fallback` on strings: the empty string is falsy. */
  function OrElse(s: string, fallback: string): (r: string)
    ensures s != "" ==> r == s
    ensures s == "" ==> r == fallback
  {
    if s != "" then s else fallback
  }

  /** The message a 2xx body with `status: "error"` and no usable `error` gets. */
  const ServerErrorOccurred: string := "Server error occurred"

  /** The message thrown for a non-ok status. */
  function ServerError(status: nat): (m: string)
    ensures |m| > 14 && m[..14] == "Server error: "
    ensures m[14..] == Text.Decimal(status)
  {
    "Server error: " + Text.Decimal(status)
  }

  /** Different statuses give different messages, so the status can be read
      back from the message. */
  lemma ServerErrorNamesStatus(a: nat, b: nat)
    requires ServerError(a) == ServerError(b)
    ensures a == b
  {
    assert ServerError(a)[14..] == Text.Decimal(a);
    assert ServerError(b)[14..] == Text.Decimal(b);
    Text.DecimalInjective(a, b);
  }

  /** The try/catch of a handler: a non-ok status throws "Server error:
      <status>"; a body that declares `status: "error"` throws its `error`
      member or "Server error occurred"; anything else is the result. The
      catch keeps the thrown message, or `fallback` if it is empty. */
  function Settle<P>(o: Outcome<P>, fallback: string): (r: Result<Reply<P>, string>)
    ensures r.Success? <==> o.Responded? && IsOk(o.status) && o.parsed.Success? && o.parsed.value.status != Some("error")
    ensures r.Success? ==> r.value == o.parsed.value
    ensures o.Rejected? ==> r == Failure(OrElse(o.message, fallback))
    ensures o.Responded? && !IsOk(o.status) ==> r == Failure(ServerError(o.status))
    ensures o.Responded? && IsOk(o.status) && o.parsed.Failure? ==> r == Failure(OrElse(o.parsed.error, fallback))
    ensures o.Responded? && IsOk(o.status) && o.parsed.Success? && o.parsed.value.status == Some("error") ==>
      r == Failure(OrElse(o.parsed.value.error.GetOr(""), ServerErrorOccurred))
  {
    match o
    case Rejected(m) => Failure(OrElse(m, fallback))
    case Responded(status, parsed) =>
      if !IsOk(status) then Failure(ServerError(status))
      else match parsed
        case Failure(m) => Failure(OrElse(m, fallback))
        case Success(reply) =>
          if reply.status == Some("error") then Failure(OrElse(reply.error.GetOr(""), ServerErrorOccurred))
          else Success(reply)
  }

  /** A failed submission always has a message to show. */
  lemma FailureHasMessage<P>(o: Outcome<P>, fallback: string)
    requires fallback != ""
    ensures Settle(o, fallback).Failure? ==> Settle(o, fallback).error != ""
  {
  }

  /** A 200 response whose body is `{status: "error", error: "Server error
      occurred"}` fails with exactly that message. */
  lemma LogicalErrorScenario<P>(payload: P, fallback: string)
    ensures Settle(Responded(200, Success(Reply(Some("error"), Some("Server error occurred"), payload))), fallback)
      == Failure("Server error occurred")
  {
  }

  /** The non-ok check comes first: the body of a non-ok response is never
      looked at, even one that parses as a success. */
  lemma NonOkIgnoresBody<P>(status: nat, reply: Reply<P>, fallback: string)
    requires !IsOk(status)
    ensures Settle(Responded(status, Success(reply)), fallback) == Failure(ServerError(status))
  {
  }

  /** The three state slots a page keeps for one flow. */
  datatype PageState<P> = PageState(result: Option<Reply<P>>, isLoading: bool, error: Option<string>)

  /** `result && !isLoading`: the results view is rendered. */
  predicate ResultsVisible<P>(s: PageState<P>) {
    s.result.Some? && !s.isLoading
  }

  /** `!result && !isLoading`: the explanatory panel is rendered. */
  predicate InfoVisible<P>(s: PageState<P>) {
    s.result.None? && !s.isLoading
  }

  /** `error && …`: the error banner is rendered. */
  predicate ErrorVisible<P>(s: PageState<P>) {
    s.error.Some? && s.error.value != ""
  }

  /** The state once a whole handler has run, begin step and complete step. */
  function AfterSubmission<P>(o: Outcome<P>, fallback: string): (s: PageState<P>)
    ensures !s.isLoading
    ensures s.result.Some? <==> Settle(o, fallback).Success?
    ensures s.error.Some? <==> Settle(o, fallback).Failure?
    ensures Settle(o, fallback).Success? ==> s.result == Some(Settle(o, fallback).value) && s.error.None?
    ensures Settle(o, fallback).Failure? ==> s.error == Some(Settle(o, fallback).error) && s.result.None?
  {
    match Settle(o, fallback)
    case Success(reply) => PageState(Some(reply), false, None)
    case Failure(message) => PageState(None, false, Some(message))
  }

  /** After a submission exactly one of the results view and the info panel
      is shown, and an error banner goes with the info panel. */
  lemma AfterSubmissionVisibility<P>(o: Outcome<P>, fallback: string)
    requires fallback != ""
    ensures var s := AfterSubmission(o, fallback);
      && (ResultsVisible(s) <==> Settle(o, fallback).Success?)
      && (InfoVisible(s) <==> !ResultsVisible(s))
      && (ErrorVisible(s) <==> InfoVisible(s))
  {
    FailureHasMessage(o, fallback);
  }

  /** The results view and the info panel are never shown together, and
      neither is shown while a request is loading. */
  lemma VisibilityExclusive<P>(s: PageState<P>)
    ensures !(ResultsVisible(s) && InfoVisible(s))
    ensures s.isLoading ==> !ResultsVisible(s) && !InfoVisible(s)
  {
  }

  /** The `result`, `isLoading` and `error` state of one analysis page. */
  class Controller<P> {
    var result: Option<Reply<P>>
    var isLoading: bool
    var error: Option<string>
    /** The catch's message when the thrown error has none. */
    const fallback: string

    function State(): PageState<P>
      reads this
    {
      PageState(result, isLoading, error)
    }

    /** The state on first render: nothing loaded, no error. */
    constructor (fallback: string)
      ensures this.fallback == fallback
      ensures result.None? && !isLoading && error.None?
    {
      this.fallback := fallback;
      result, isLoading, error := None, false, None;
    }

    /** The begin step: loading, with the old result and error cleared. */
    method Begin()
      modifies this
      ensures isLoading && result.None? && error.None?
    {
      isLoading := true;
      error := None;
      result := None;
    }

    /** The complete step: a success becomes the result, a failure the
      error; loading is cleared on every path. */
    method Complete(o: Outcome<P>)
      modifies this
      ensures !isLoading
      ensures Settle(o, fallback).Success? ==> result == Some(Settle(o, fallback).value) && error == old(error)
      ensures Settle(o, fallback).Failure? ==> error == Some(Settle(o, fallback).error) && result == old(result)
    {
      match Settle(o, fallback) {
        case Success(reply) => result := Some(reply);
        case Failure(message) => error := Some(message);
      }
      isLoading := false;
    }

    /** A whole handler run: the previous result or error never survives. */
    method Submit(o: Outcome<P>)
      modifies this
      ensures State() == AfterSubmission(o, fallback)
    {
      Begin();
      Complete(o);
    }
  }
}
