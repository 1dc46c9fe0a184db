/**
  The three exception handlers of the HTTP error middleware: each counts the
  request as failed, picks the envelope shape from the request URL, and answers
  with an HTTP status equal to the envelope's code.
 */
module ErrorMiddleware {
  import opened Wrappers
  import opened Decimal
  import opened Metrics
  import ErrorEnvelope

  /** The URL fragment that marks a request of the custom protocol. */
  const GeneratePath: string := "/generate"

  const InternalServerError: int := 500

  predicate OccursAt(s: string, sub: string, i: int) {
    0 <= i && i + |sub| <= |s| && s[i..i + |sub|] == sub
  }

  /** Python's `sub in s`, as a left-to-right search. */
  function Contains(s: string, sub: string): (r: bool)
    ensures r ==> |sub| <= |s|
    ensures sub <= s ==> r
    decreases |s|
  {
    if |s| < |sub| then false
    else if s[..|sub|] == sub then true
    else Contains(s[1..], sub)
  }

  lemma {:induction false} ContainsIff(s: string, sub: string)
    ensures Contains(s, sub) <==> exists i :: OccursAt(s, sub, i)
    decreases |s|
  {
    if |s| < |sub| {
    } else if s[..|sub|] == sub {
      assert OccursAt(s, sub, 0);
    } else {
      ContainsIff(s[1..], sub);
      if Contains(s[1..], sub) {
        var i :| OccursAt(s[1..], sub, i);
        assert s[1..][i..i + |sub|] == s[i + 1..i + 1 + |sub|];
        assert OccursAt(s, sub, i + 1);
      } else {
        forall i | OccursAt(s, sub, i)
          ensures false
        {
          if i != 0 {
            assert s[1..][i - 1..i - 1 + |sub|] == s[i..i + |sub|];
            assert OccursAt(s[1..], sub, i - 1);
          }
        }
      }
    }
  }

  /** The protocol is "custom" exactly when "/generate" occurs somewhere in the URL. */
  function DetectProtocol(url: string): (p: string)
    ensures p == ErrorEnvelope.CustomProtocol || p == "default"
    ensures p == ErrorEnvelope.CustomProtocol <==> exists i :: OccursAt(url, GeneratePath, i)
  {
    ContainsIff(url, GeneratePath);
    if Contains(url, GeneratePath) then ErrorEnvelope.CustomProtocol else "default"
  }

  /** The middleware's own copy of the envelope mapping; it agrees with the engine's on every input. */
  function CreateErrorResponse(
    message: string,
    errorType: string := "BadRequestError",
    status: int := 400,
    requestId: Option<string> := None,
    protocol: string := "default"): (e: ErrorEnvelope.Envelope)
    ensures e == ErrorEnvelope.CreateErrorResponse(message, errorType, status, requestId, protocol)
  {
    if protocol == "custom" then ErrorEnvelope.CustomError(message, status, requestId)
    else ErrorEnvelope.ErrorResponse(message, errorType, status, requestId)
  }

  /** What a handler hands back: the metric reports it made, the JSON body, and the HTTP status. */
  datatype HandlerResponse = HandlerResponse(reports: seq<Report>, body: ErrorEnvelope.Envelope, status: int)

  /** The two counters every handler reports, tagged with the status as text. */
  function FailureCounters(status: int): (rs: seq<Report>)
    ensures |rs| == 2
    ensures rs[0].values == map["request_total" := IntNum(1)]
    ensures rs[1].values == map["request_failure" := IntNum(1)]
    ensures forall j :: 0 <= j < 2 ==> rs[j].methods == Some(AddMethod)
    ensures forall j :: 0 <= j < 2 ==> rs[j].tags == map["ret_code" := IntToString(status)]
    ensures forall j :: 0 <= j < 2 ==>
      IsCanonicalIntText(rs[j].tags["ret_code"]) && ParseInt(rs[j].tags["ret_code"]) == status
  {
    var tags := map["ret_code" := IntToString(status)];
    IntRoundTrip(status);
    [Report(map["request_total" := IntNum(1)], tags, Some(AddMethod)),
     Report(map["request_failure" := IntNum(1)], tags, Some(AddMethod))]
  }

  /** The facts shared by all three handlers: consistent status, URL-chosen shape, no request id. */
  ghost predicate WellFormed(url: string, r: HandlerResponse) {
    && r.status == r.body.Code()
    && (r.body.CustomError? <==> exists i :: OccursAt(url, GeneratePath, i))
    && r.body.requestId == None
    && r.reports == FailureCounters(r.status)
  }

  function ValidationExceptionHandler(url: string, excText: string): (r: HandlerResponse)
    ensures WellFormed(url, r)
    ensures r.status == 400 && r.body.Message() == excText
    ensures r.body.ErrorResponse? ==> r.body.errorType == "ValidationError"
  {
    var body := CreateErrorResponse(excText, "ValidationError", ErrorEnvelope.BadRequest,
      protocol := DetectProtocol(url));
    HandlerResponse(FailureCounters(ErrorEnvelope.BadRequest), body, ErrorEnvelope.BadRequest)
  }

  function HttpExceptionHandler(url: string, statusCode: int, detail: string): (r: HandlerResponse)
    ensures WellFormed(url, r)
    ensures r.status == statusCode && r.body.Message() == detail
    ensures r.body.ErrorResponse? ==> r.body.errorType == "HTTPException"
  {
    var body := CreateErrorResponse(detail, "HTTPException", statusCode, protocol := DetectProtocol(url));
    HandlerResponse(FailureCounters(statusCode), body, statusCode)
  }

  /** The catch-all handler never reveals the exception: fixed message and status 500. */
  function GeneralExceptionHandler(url: string): (r: HandlerResponse)
    ensures WellFormed(url, r)
    ensures r.status == 500 && r.body.Message() == "Internal server error"
    ensures r.body.ErrorResponse? ==> r.body.errorType == "InternalServerError"
  {
    var body := CreateErrorResponse("Internal server error", "InternalServerError", InternalServerError,
      protocol := DetectProtocol(url));
    HandlerResponse(FailureCounters(InternalServerError), body, InternalServerError)
  }
}
