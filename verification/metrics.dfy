/**
  Metric reports: request/success/failure counters, token counts and timings.
  A report is the triple handed to the metrics sink: the named values, the tag
  map, and the aggregation methods (absent when the call site gives none).
 */
module Metrics {
  import opened Wrappers
  import opened Protocol

  /** A reported value: Python int or float. */
  datatype Num = IntNum(i: int) | RealNum(r: real)

  type Tags = map<string, string>

  datatype Report = Report(values: map<string, Num>, tags: Tags, methods: Option<seq<string>>)

  /** The counter aggregation method. */
  const AddMethod: seq<string> := ["add"]

  /** Python's `str(bool)`. */
  function PyBool(b: bool): (s: string)
    ensures s == "True" || s == "False"
    ensures (s == "True") == b
  {
    if b then "True" else "False"
  }

  /** Throughput in tokens per second, guarded against a zero or negative elapsed time. */
  function Speed(completionTokens: int, costMs: int): (s: Num)
    ensures costMs <= 0 ==> s == IntNum(0)
    ensures costMs > 0 ==> s.RealNum? && s.r * (costMs as real) == (completionTokens * 1000) as real
  {
    if costMs <= 0 then IntNum(0) else RealNum((completionTokens * 1000) as real / costMs as real)
  }

  /** `report_request_metrics`: one `request_total` increment; caller tags win over the base tags. */
  function RequestMetrics(protocol: string, model: string, stream: bool, tags: Tags): (r: Report)
    ensures r.values == map["request_total" := IntNum(1)]
    ensures r.methods == Some(AddMethod)
    ensures r.tags.Keys == tags.Keys + {"model", "stream", "protocol"}
    ensures forall k :: k in tags ==> r.tags[k] == tags[k]
    ensures "model" !in tags ==> r.tags["model"] == model
    ensures "stream" !in tags ==> r.tags["stream"] == PyBool(stream)
    ensures "protocol" !in tags ==> r.tags["protocol"] == protocol
  {
    var base := map["model" := model, "stream" := PyBool(stream), "protocol" := protocol];
    Report(map["request_total" := IntNum(1)], base + tags, Some(AddMethod))
  }

  /** `report_success_metrics`: one `request_success` increment, tags passed through. */
  function SuccessMetrics(tags: Tags): (r: Report)
    ensures r.values.Keys == {"request_success"} && r.values["request_success"] == IntNum(1)
    ensures r.tags == tags && r.methods == Some(AddMethod)
  {
    Report(map["request_success" := IntNum(1)], tags, Some(AddMethod))
  }

  /** `report_failure_metrics`: one `request_failure` increment, tags passed through. */
  function FailureMetrics(tags: Tags): (r: Report)
    ensures r.values.Keys == {"request_failure"} && r.values["request_failure"] == IntNum(1)
    ensures r.tags == tags && r.methods == Some(AddMethod)
  {
    Report(map["request_failure" := IntNum(1)], tags, Some(AddMethod))
  }

  /**
    `report_tokens`: the caller's tag map is updated in place with the engine's
    protocol (overwriting any caller value); the updated map is returned beside
    the report so the caller's view of the mutation is part of the model.
   */
  function ReportTokens(protocol: string, usage: Usage, tags: Tags): (res: (Tags, Report))
    ensures res.0.Keys == tags.Keys + {"protocol"}
    ensures res.0["protocol"] == protocol
    ensures forall k :: k in tags && k != "protocol" ==> res.0[k] == tags[k]
    ensures res.1.tags == res.0 && res.1.methods == None
    ensures res.1.values.Keys == {"prompt_tokens", "completion_tokens", "total_tokens"}
    ensures res.1.values["prompt_tokens"] == IntNum(usage.promptTokens)
    ensures res.1.values["completion_tokens"] == IntNum(usage.completionTokens)
    ensures res.1.values["total_tokens"] == IntNum(usage.totalTokens)
  {
    var updated := tags["protocol" := protocol];
    var values := map[
      "prompt_tokens" := IntNum(usage.promptTokens),
      "completion_tokens" := IntNum(usage.completionTokens),
      "total_tokens" := IntNum(usage.totalTokens)];
    (updated, Report(values, updated, None))
  }

  /** `report_performance_metrics` (and the same report inside both response paths). */
  function PerformanceMetrics(costMs: int, completionTokens: int, tags: Tags): (r: Report)
    ensures r.values.Keys == {"request_cost_time", "speed"}
    ensures r.values["request_cost_time"] == IntNum(costMs)
    ensures costMs <= 0 ==> r.values["speed"] == IntNum(0)
    ensures costMs > 0 ==>
      r.values["speed"].RealNum? && r.values["speed"].r * (costMs as real) == (completionTokens * 1000) as real
    ensures r.tags == tags && r.methods == None
  {
    Report(map["request_cost_time" := IntNum(costMs), "speed" := Speed(completionTokens, costMs)], tags, None)
  }

  /** `report_first_token_metrics`: reports and returns the first-packet latency. */
  function FirstTokenMetrics(firstCostMs: int, tags: Tags): (res: (int, Report))
    ensures res.0 == firstCostMs
    ensures res.1.values.Keys == {"first_pkg_cost_time"}
    ensures res.1.values["first_pkg_cost_time"] == IntNum(firstCostMs)
    ensures res.1.tags == tags && res.1.methods == None
  {
    (firstCostMs, Report(map["first_pkg_cost_time" := IntNum(firstCostMs)], tags, None))
  }
}
