/**
 * `submitContactForm` (src/api/contact.ts and its copy resources/example/src/api/contact.ts):
 * post the form data as JSON to the endpoint configured in `VITE_FORM_ENDPOINT`, and turn
 * an unsuccessful response into an `Error` whose message comes from the response body or,
 * failing that, from the status code. The two copies differ only in the text of the
 * configuration error.
 */
module ContactApi {
  import opened Wrappers
  import opened JsString
  import opened Http
  import opened FormRules

  const MainConfigError := "Form endpoint environment variable (VITE_FORM_ENDPOINT) is not set"
  const ExampleConfigError := "Form endpoint environment variable is not set"
  const StatusFailurePrefix := "Form submission failed with status: "

  /** The headers of the POST, in the order they are written. */
  const JsonHeaders := [("Content-Type", "application/json"), ("Accept", "application/json")]

  /** What one call hands back: the requests it made and how its promise settles. */
  datatype Submission = Submission(sent: seq<HttpRequest<ContactFormData>>, result: Result<HttpResponse, Thrown>)

  /** `if (!endpoint)`: the setting counts only when it is present and non-empty. */
  predicate EndpointSet(endpoint: Option<string>) {
    endpoint.Some? && Truthy(endpoint.value)
  }

  /** The one request made per call. */
  function FormPost(url: string, data: ContactFormData): HttpRequest<ContactFormData> {
    HttpRequest("POST", url, JsonHeaders, data)
  }

  /** The requests one call hands to `fetch`: none without an endpoint, otherwise one POST and no retry. */
  function RequestsMade(endpoint: Option<string>, data: ContactFormData): (sent: seq<HttpRequest<ContactFormData>>)
    ensures !EndpointSet(endpoint) ==> sent == []
    ensures EndpointSet(endpoint) ==> sent == [HttpRequest("POST", endpoint.value, JsonHeaders, data)]
  {
    if EndpointSet(endpoint) then [FormPost(endpoint.value, data)] else []
  }

  /** The template-literal fallback message, with the status written in decimal. */
  function StatusText(status: nat): (m: string)
    ensures |m| > |StatusFailurePrefix| && m[..|StatusFailurePrefix|] == StatusFailurePrefix
  {
    StatusFailurePrefix + DecimalString(status)
  }

  /** Two statuses give the same fallback message only if they are the same status. */
  lemma StatusTextDeterminesStatus(a: nat, b: nat)
    requires StatusText(a) == StatusText(b)
    ensures a == b
  {
    var n := |StatusFailurePrefix|;
    assert StatusText(a)[n..] == DecimalString(a);
    assert StatusText(b)[n..] == DecimalString(b);
    DecimalStringInjective(a, b);
  }

  /**
   * `errorData?.message || \`Form submission failed with status: ${response.status}\``,
   * where `errorData` is null when the body does not parse: the body's message when it
   * is a non-empty string, otherwise the status text.
   */
  function NotOkMessage(response: HttpResponse): (m: string)
    ensures response.body.JsonObject? && response.body.message.Some? && Truthy(response.body.message.value)
      ==> m == response.body.message.value
    ensures !(response.body.JsonObject? && response.body.message.Some? && Truthy(response.body.message.value))
      ==> m == StatusText(response.status)
  {
    match response.body
    case JsonObject(Some(text)) => if Truthy(text) then text else StatusText(response.status)
    case _ => StatusText(response.status)
  }

  /**
   * The body shared by both copies of `submitContactForm`, given the configuration-error
   * text of the copy. `outcome` is how the `fetch` call would settle; it is consulted
   * only when a request is made.
   */
  function Submit(configError: string, endpoint: Option<string>, data: ContactFormData, outcome: FetchOutcome): (s: Submission)
    ensures !EndpointSet(endpoint) ==> s == Submission([], Failure(ErrorObj(configError)))
    ensures s.sent == RequestsMade(endpoint, data)
    ensures s.result.Success? <==> EndpointSet(endpoint) && outcome.Responded? && outcome.response.ok
    ensures s.result.Success? ==> s.result.value == outcome.response
    ensures EndpointSet(endpoint) && outcome.Rejected? ==> s.result == Failure(outcome.reason)
    ensures EndpointSet(endpoint) && outcome.Responded? && !outcome.response.ok
      ==> s.result == Failure(ErrorObj(NotOkMessage(outcome.response)))
  {
    var sent := RequestsMade(endpoint, data);
    if !EndpointSet(endpoint) then
      Submission(sent, Failure(ErrorObj(configError)))
    else
      match outcome
      case Rejected(reason) => Submission(sent, Failure(reason))
      case Responded(response) =>
        if !response.ok then Submission(sent, Failure(ErrorObj(NotOkMessage(response))))
        else Submission(sent, Success(response))
  }

  /** src/api/contact.ts */
  function SubmitContactForm(endpoint: Option<string>, data: ContactFormData, outcome: FetchOutcome): (s: Submission)
    ensures !EndpointSet(endpoint) ==> s.sent == [] && s.result == Failure(ErrorObj(MainConfigError))
    ensures EndpointSet(endpoint) ==>
      (|s.sent| == 1 && s.sent[0].verb == "POST" && s.sent[0].url == endpoint.value && s.sent[0].body == data)
  {
    Submit(MainConfigError, endpoint, data, outcome)
  }

  /** resources/example/src/api/contact.ts */
  function ExampleSubmitContactForm(endpoint: Option<string>, data: ContactFormData, outcome: FetchOutcome): (s: Submission)
    ensures !EndpointSet(endpoint) ==> s.sent == [] && s.result == Failure(ErrorObj(ExampleConfigError))
    ensures EndpointSet(endpoint) ==>
      (|s.sent| == 1 && s.sent[0].verb == "POST" && s.sent[0].url == endpoint.value && s.sent[0].body == data)
  {
    Submit(ExampleConfigError, endpoint, data, outcome)
  }

  /**
   * Two non-ok responses whose bodies do not parse are rejected with the same message
   * only when they carry the same status: the message names the status it came from.
   */
  lemma NotOkFailureIsDiagnosable(configError: string, endpoint: Option<string>, data: ContactFormData, r1: HttpResponse, r2: HttpResponse)
    requires EndpointSet(endpoint) && !r1.ok && !r2.ok
    requires r1.body.Unparsable? && r2.body.Unparsable?
    requires Submit(configError, endpoint, data, Responded(r1)).result == Submit(configError, endpoint, data, Responded(r2)).result
    ensures r1.status == r2.status
  {
    StatusTextDeterminesStatus(r1.status, r2.status);
  }

  /** The status fallback never reads as either copy's configuration error. */
  lemma StatusFailureIsNotConfigError(status: nat)
    ensures StatusText(status) != MainConfigError && StatusText(status) != ExampleConfigError
  {
    var m, d := StatusText(status), DecimalString(status);
    assert m[|m| - 1] == d[|d| - 1];
    assert IsDigit(m[|m| - 1]);
    assert MainConfigError[|MainConfigError| - 1] == 't';
    assert ExampleConfigError[|ExampleConfigError| - 1] == 't';
  }

  /** A 500 whose body says "boom" rejects with exactly "boom". */
  lemma ServerMessageSurfaces(endpoint: Option<string>, data: ContactFormData)
    requires EndpointSet(endpoint)
    ensures SubmitContactForm(endpoint, data, Responded(HttpResponse(false, 500, JsonObject(Some("boom"))))).result
      == Failure(ErrorObj("boom"))
  {
  }
}
