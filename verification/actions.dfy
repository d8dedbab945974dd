/** One executed request and how it is classified (`executeAction` in
    engine/engine.go) and how the aggregator credits its counters for it
    (`updateStats`). */
module Actions {

  /** What the HTTP client returned: a transport-level error (refused
      connection, response-header timeout, ...) or a response with a status. */
  datatype CallOutcome = TransportError | Response(status: int)

  /** `httpActionResult`. `responseTime` is in nanoseconds; the response
      object itself is not modelled. */
  datatype ActionResult = ActionResult(
    isClientError: bool,
    isServerError: bool,
    hasTimedOut: bool,
    responseTime: nat,
    concurrentUsers: int)

  predicate Successful(r: ActionResult)
  {
    !r.isClientError && !r.isServerError && !r.hasTimedOut
  }

  predicate AtMostOneFlag(r: ActionResult)
  {
    && !(r.isClientError && r.isServerError)
    && !(r.isClientError && r.hasTimedOut)
    && !(r.isServerError && r.hasTimedOut)
  }

  predicate IsClientStatus(status: int)
  {
    400 <= status < 500
  }

  predicate IsServerStatus(status: int)
  {
    status >= 500
  }

  /** `executeAction`: a transport error is a timeout, a 4xx response a
      client error, a response of 500 or above a server error, anything else
      a success. The concurrency tag is left at Go's zero value; the worker
      fills it in. */
  function ExecuteAction(outcome: CallOutcome, elapsed: nat): (r: ActionResult)
    ensures r.hasTimedOut <==> outcome.TransportError?
    ensures r.isClientError <==> outcome.Response? && IsClientStatus(outcome.status)
    ensures r.isServerError <==> outcome.Response? && IsServerStatus(outcome.status)
    ensures AtMostOneFlag(r)
    ensures Successful(r) <==> outcome.Response? && outcome.status < 400
    ensures r.responseTime == elapsed && r.concurrentUsers == 0
  {
    var isTimeout := outcome.TransportError?;
    var clientErr := !isTimeout && IsClientStatus(outcome.status);
    var servErr := !isTimeout && !clientErr && IsServerStatus(outcome.status);
    ActionResult(clientErr, servErr, isTimeout, elapsed, 0)
  }

  /** The counters a result can be credited to, besides `hits`. */
  datatype Counter = ClientErrors | ServerErrors | Timeouts | NoErrorCounter

  /** The error counter `updateStats` credits, testing the flags in the order
      client error, server error, timeout. */
  function Credited(r: ActionResult): (c: Counter)
    ensures c == NoErrorCounter <==> Successful(r)
    ensures c == ClientErrors <==> r.isClientError
    ensures c == ServerErrors <==> !r.isClientError && r.isServerError
    ensures c == Timeouts <==> !r.isClientError && !r.isServerError && r.hasTimedOut
  {
    if r.isClientError then ClientErrors
    else if r.isServerError then ServerErrors
    else if r.hasTimedOut then Timeouts
    else NoErrorCounter
  }

  /** Independent reading of the outcome: which counter the operator expects
      an outcome to land in. */
  function Category(outcome: CallOutcome): Counter
  {
    match outcome
    case TransportError => Timeouts
    case Response(status) =>
      if IsClientStatus(status) then ClientErrors
      else if IsServerStatus(status) then ServerErrors
      else NoErrorCounter
  }

  /** Classification tests timeouts first, crediting tests them last; since
      at most one flag is ever set, every outcome still lands in the counter
      its category names. */
  lemma CreditMatchesCategory(outcome: CallOutcome, elapsed: nat)
    ensures Credited(ExecuteAction(outcome, elapsed)) == Category(outcome)
  {
  }
}
