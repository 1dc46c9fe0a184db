/**
  The non-streaming path of the response generator (`generate_full_response`):
  drain the snapshots keeping only the latest, checking the client connection
  once per snapshot, then report cost and throughput for the final response.
 */
module FullResponse {
  import opened Wrappers
  import opened Protocol
  import opened Metrics
  import opened ErrorEnvelope

  const DisconnectMessage: string := "Client disconnected"
  const DisconnectType: string := "ClientDisconnected"

  datatype FullOutcome =
    /** The final snapshot, from which the caller's response creator builds the answer, and the cost report. */
    | Completed(final: Snapshot, report: Report)
    /** The client went away: the disconnect envelope instead of a response. */
    | Disconnected(error: Envelope)
    /** The engine produced no snapshot, so the `final_res is not None` assertion fails. */
    | EmptyStream

  /**
    `_create_disconnect_error_response`: no status is passed, so the envelope
    carries the default 400.
   */
  function DisconnectErrorResponse(requestId: string, protocol: string): (e: Envelope)
    ensures e.Code() == 400 && e.Message() == DisconnectMessage && e.requestId == Some(requestId)
    ensures e.CustomError? <==> protocol == CustomProtocol
    ensures e.ErrorResponse? ==> e.errorType == DisconnectType
  {
    CreateErrorResponse(DisconnectMessage, DisconnectType, requestId := Some(requestId), protocol := protocol)
  }

  /**
    `probe[k]` is what the disconnect check answers once snapshot `k` has
    arrived; `completionTokensOf` is the completion token count of the
    response the caller's creator builds from a snapshot; `costMs` is the
    elapsed time read after the response is built.
   */
  method GenerateFullResponse(requestId: string, protocol: string, tags: Tags, snaps: seq<Snapshot>,
                              probe: seq<bool>, completionTokensOf: Snapshot -> int, costMs: int)
    returns (r: FullOutcome)
    requires |probe| == |snaps|
    ensures r.Disconnected? <==> exists k :: 0 <= k < |snaps| && probe[k]
    ensures r.Disconnected? ==> r.error == DisconnectErrorResponse(requestId, protocol)
    ensures r.EmptyStream? <==> |snaps| == 0
    ensures r.Completed? ==>
      && r.final == snaps[|snaps| - 1]
      && r.report == PerformanceMetrics(costMs, completionTokensOf(r.final), tags)
  {
    var finalRes: Option<Snapshot> := None;
    var k := 0;
    while k < |snaps|
      invariant 0 <= k <= |snaps|
      invariant forall j :: 0 <= j < k ==> !probe[j]
      invariant finalRes == if k == 0 then None else Some(snaps[k - 1])
    {
      if probe[k] {
        return Disconnected(DisconnectErrorResponse(requestId, protocol));
      }
      finalRes := Some(snaps[k]);
      k := k + 1;
    }
    if finalRes.None? {
      return EmptyStream;
    }
    var final := finalRes.value;
    r := Completed(final, PerformanceMetrics(costMs, completionTokensOf(final), tags));
  }
}
