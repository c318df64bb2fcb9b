/**
 * `DryRunRoundTripper`: a round tripper with no state that does no I/O and
 * answers every request with an empty response and no error.
 */
module DryRun {
  import opened Wrappers
  import opened Http

  /**
   * The request is taken but the body ignores it: the answer is the
   * zero-valued response whatever the request holds.
   */
  function RoundTrip(req: Request): (r: Result<Response, Error>)
    ensures r.Success?
    ensures r.value.status == 0 && r.value.body.None?
  {
    Success(ZeroResponse)
  }

  /** Having no state, the stub gives every request, and every repeated call, the same answer. */
  lemma SameAnswerForEveryRequest(a: Request, b: Request)
    ensures RoundTrip(a) == RoundTrip(b)
  {
  }
}
