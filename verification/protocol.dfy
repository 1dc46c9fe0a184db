/**
  The values exchanged with the generation engine: one cumulative snapshot per
  engine update, one output per choice inside it, and the derived token usage.
 */
module Protocol {
  import opened Wrappers

  /** One choice of a snapshot: its cumulative text so far, its tokens so far, and
      the finish reason once the engine has stopped generating for it. */
  datatype ChoiceOutput = ChoiceOutput(
    index: int,
    text: string,
    tokenIds: seq<int>,
    finishReason: Option<string>)

  /** One engine update for a request (a `RequestOutput`). */
  datatype Snapshot = Snapshot(promptTokenIds: seq<int>, outputs: seq<ChoiceOutput>)

  datatype Usage = Usage(promptTokens: int, completionTokens: int, totalTokens: int)

  /** Usage is derived, never engine-reported: the total is the sum of its parts. */
  function CreateUsageInfo(promptTokens: int, completionTokens: int): (u: Usage)
    ensures u.promptTokens == promptTokens && u.completionTokens == completionTokens
    ensures u.totalTokens == u.promptTokens + u.completionTokens
  {
    Usage(promptTokens, completionTokens, promptTokens + completionTokens)
  }
}
