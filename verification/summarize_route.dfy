/** The `/api/summarize` POST handler: validates the request's `text`,
    relays it to the hosted summarisation model and classifies the model's
    reply into a 400, 503, 200 or 500 response.

    The credential sent upstream, and the handler's logging of that
    credential on every failure path (a defect: secrets must not reach the
    log), are side effects and are not modelled. */
module SummarizeRoute {
  import opened Wrappers
  import opened Js
  import opened JsString

  /** What `const { text } = await request.json()` sees. */
  datatype RequestBody =
    | Unparseable          // `request.json()` rejects
    | NullJson             // the body is JSON `null`: destructuring it throws
    | Parsed(text: Value)  // any other JSON; `text` is Undefined when absent or not an object

  /** The `data` of an upstream reply that axios resolved. */
  datatype UpstreamData =
    | ErrorObject(error: string)
      // an object with an `error` key
    | SummaryArray(summaryTexts: seq<Option<string>>)
      // an array; each entry is that element's `summary_text`, None when the
      // element is null, not an object or has no such key
    | OtherObject
      // any other object: it has no `error` key and no element 0
    | NotAnObject
      // a string, number, boolean or null: the `in` operator throws on it

  /** The upstream call: the transport failed, or a reply with a status. */
  datatype Upstream =
    | TransportFailure
    | Replied(status: int, data: UpstreamData)

  datatype ResponseBody = ErrorBody(error: string) | SummaryBody(summary: string)

  datatype Response = Response(status: int, body: ResponseBody)

  /** The response, with the text forwarded upstream as `{ inputs: text }`
      when the upstream call was made. */
  datatype Handled = Handled(forwarded: Option<string>, response: Response)

  const InvalidInputMessage := "Invalid input. Text is required."
  const FailureMessage := "Failed to summarize text"
  const NoSummary := "No summary generated"

  const BadRequest := Response(400, ErrorBody(InvalidInputMessage))
  const InternalError := Response(500, ErrorBody(FailureMessage))

  /** axios's default acceptance: any other status rejects the promise. */
  predicate AxiosAccepts(status: int) {
    200 <= status < 300
  }

  /** `data[0]?.summary_text || 'No summary generated'`: the first element's
      non-empty summary text, else the placeholder. Never empty, and only
      the first element matters. */
  function FirstSummary(texts: seq<Option<string>>): (s: string)
    ensures s != ""
    ensures s == NoSummary || (|texts| > 0 && texts[0] == Some(s))
    ensures |texts| > 0 && texts[0].Some? && texts[0].value != "" ==> s == texts[0].value
    ensures |texts| > 0 ==> s == FirstSummary(texts[..1])
  {
    if |texts| > 0 && texts[0].Some? && texts[0].value != "" then texts[0].value else NoSummary
  }

  /** The part of the handler after the upstream call resolves or rejects. */
  function Classify(upstream: Upstream): (r: Response)
    ensures r.status in {200, 500, 503}
    ensures r.status == 503 <==> upstream.Replied? && AxiosAccepts(upstream.status) && upstream.data.ErrorObject?
    ensures r.status == 503 ==> r.body == ErrorBody(upstream.data.error)
    ensures r.status == 200 <==>
      upstream.Replied? && AxiosAccepts(upstream.status) && (upstream.data.SummaryArray? || upstream.data.OtherObject?)
    ensures r.status == 200 ==> r.body.SummaryBody? && r.body.summary != ""
    ensures upstream.Replied? && AxiosAccepts(upstream.status) && upstream.data.SummaryArray? ==>
      r == Response(200, SummaryBody(FirstSummary(upstream.data.summaryTexts)))
    ensures upstream.Replied? && AxiosAccepts(upstream.status) && upstream.data.OtherObject? ==>
      r == Response(200, SummaryBody(NoSummary))
    ensures r.status == 500 ==> r == InternalError
  {
    match upstream
    case TransportFailure => InternalError
    case Replied(status, data) =>
      if !AxiosAccepts(status) then InternalError
      else
        match data
        case ErrorObject(e) => Response(503, ErrorBody(e))
        case SummaryArray(texts) => Response(200, SummaryBody(FirstSummary(texts)))
        case OtherObject => Response(200, SummaryBody(NoSummary))
        case NotAnObject => InternalError
  }

  /** The handler. `upstream` is the outcome the upstream call would have;
      it only matters when the call is made. */
  function Post(body: RequestBody, upstream: Upstream): (h: Handled)
    ensures h.response.status in {200, 400, 500, 503}
    ensures h.response.status == 400 <==> body.Parsed? && !(body.text.Str? && body.text.s != "")
    ensures h.response.status == 400 ==> h.response == BadRequest
    ensures h.forwarded.Some? <==> body.Parsed? && body.text.Str? && body.text.s != ""
    ensures h.forwarded.Some? ==> body.text == Str(h.forwarded.value)
    ensures body.Unparseable? || body.NullJson? ==> h == Handled(None, InternalError)
    ensures h.forwarded.Some? ==> h.response == Classify(upstream)
  {
    match body
    case Unparseable => Handled(None, InternalError)
    case NullJson => Handled(None, InternalError)
    case Parsed(text) =>
      if !Truthy(text) || !text.Str? then Handled(None, BadRequest)
      else Handled(Some(text.s), Classify(upstream))
  }

  /** The model host answers "still loading" with HTTP 503 and an error
      object; axios rejects that, so the handler answers 500, not 503. The
      503 branch is reached only by an error object on a 2xx reply. */
  lemma UpstreamUnavailableIsInternalError(text: string, message: string)
    requires text != ""
    ensures Post(Parsed(Str(text)), Replied(503, ErrorObject(message))).response == InternalError
  {
  }

  /** Whitespace-only text passes validation and is forwarded unchanged:
      the handler checks truthiness, not content, so every non-empty
      string reaches the model. */
  lemma WhitespaceTextIsForwarded(text: string, upstream: Upstream)
    requires text != "" && Blank(text)
    ensures Post(Parsed(Str(text)), upstream).forwarded == Some(text)
    ensures Post(Parsed(Str(text)), upstream).response == Classify(upstream)
  {
  }
}
