/**
 * What the site sees of `fetch` and of JavaScript exceptions. `fetch` is not run: its
 * settlement is an input (a `FetchOutcome`), and the request it was asked to make is
 * recorded as an `HttpRequest` value.
 */
module Http {
  import opened Wrappers

  /** A thrown JavaScript value: an `Error` instance carrying its `message`, or any other value. */
  datatype Thrown = ErrorObj(message: string) | NonError

  /**
   * What `response.json()` yields: a parse failure (the `SyntaxError` message it rejects
   * with), or a JSON object whose `message` property is a string (`None` when the
   * property is absent).
   */
  datatype Body = Unparsable(parseError: string) | JsonObject(message: Option<string>)

  /**
   * A `Response`. A real `Response` has `ok` true exactly for a 2xx status; here `ok` and
   * `status` are independent inputs, so every contract holds for every pairing of them.
   */
  datatype HttpResponse = HttpResponse(ok: bool, status: nat, body: Body)

  /** How a `fetch` call settles: rejected (network-level failure) or resolved with a response. */
  datatype FetchOutcome = Rejected(reason: Thrown) | Responded(response: HttpResponse)

  /** A request handed to `fetch`: HTTP method (`verb`), URL, headers in order, and the JSON body before serialisation. */
  datatype HttpRequest<B> = HttpRequest(verb: string, url: string, headers: seq<(string, string)>, body: B)
}
