/** The client-side wrappers the components call. The store calls
    (`createNote`, `updateNote`, `deleteNote`) are oracles: only their
    success or failure is modelled. `summarizeText` is modelled on top of
    the relay's response. */
module NotesApi {
  import opened Wrappers
  import opened Js
  import SummarizeRoute

  /** What a store call does: resolves, or rejects with a thrown value. */
  datatype StoreOutcome = StoreOk | StoreRejected(thrown: Thrown)

  /** What `summarizeText` does: resolves with `response.data.summary`
      (None when the body has no `summary`), or rejects. */
  datatype SummaryOutcome = Summarized(summary: Option<string>) | SummarizeRejected

  /** `summarizeText` given the relay's response: axios resolves only on a
      2xx status; every rejection is rethrown as one generic error, which
      callers cannot tell apart, so it is a bare tag here. */
  function SummarizeText(response: SummarizeRoute.Response): (o: SummaryOutcome)
    ensures o.Summarized? <==> 200 <= response.status < 300
    ensures o.Summarized? && response.body.SummaryBody? ==> o.summary == Some(response.body.summary)
    ensures o.Summarized? && response.body.ErrorBody? ==> o.summary == None
  {
    if 200 <= response.status < 300 then
      match response.body
      case SummaryBody(s) => Summarized(Some(s))
      case ErrorBody(_) => Summarized(None)
    else
      SummarizeRejected
  }
}
