# vLLM inference service core, modelled in Dafny

This project models the request-serving core of a vLLM-based inference service and proves properties of that model. It covers four parts:

- **Response generator.** The streaming path (`generate_stream_response`) turns the engine's cumulative output snapshots into delta chunks, at most one terminal chunk per choice (exactly one for each choice that finishes), metric reports and a closing `data: [DONE]` sentinel. A per-choice text/length cache keyed `<request id>_<index>` computes the deltas. The full path (`generate_full_response`) drains the snapshots, checks for client disconnect on each one and reports cost and throughput.
- **Metrics and error envelopes.** The token, performance, first-packet, request, success and failure reports. `ErrorHandler.create_error_response` builds the two envelope shapes: `{ret_msg, ret_code, request_id}` for the `custom` protocol and `{message, type, code, request_id}` otherwise.
- **Error middleware.** The validation, HTTP and general exception handlers. Each reports the failure counters, picks the envelope shape by whether the URL contains `/generate`, and answers with the envelope and its status.
- **Game agent prompt construction.** The default collaborators: the Lua code-fence extractor with the two default regular expressions, `lstrip`, the instruction template and the no-op validator. `create_prompt` applies them to the last chat message.

Modules, one file each:

- `Wrappers`: Option and Result.
- `Decimal`: Python's `str(int)`, its canonical form, and its parse back.
- `Protocol`: outputs, snapshots and usage.
- `Metrics`
- `ErrorEnvelope`
- `ErrorMiddleware`
- `DeltaCache`
- `StreamResponse`: the generator as a fold, and the loops as written.
- `StreamProperties`: guarantees against reference definitions.
- `FullResponse`
- `GameAgent`

Modelling choices:

- **Loops as a fold.** The async nested loop of the streaming path is a fold over the flattened sequence of outputs, one `Step` per output. Each step carries its snapshot's prompt token count and two clock readings of its own: one for the first-packet report and one for the cost report. The method `GenerateStreamResponse` keeps the two loops as written and is proved equal to the fold.
- **Inputs from outside.** Clock readings and the disconnect probe are parameters. In the full path, the completion token count of the response that `response_creator_func` builds is a parameter too.
- **In-place updates as results.** `_format_message` rewrites the request's last message in place. `CreatePrompt` returns the message list as that update leaves it, next to the prompt.
- **Python semantics written out.** These are:
  - the clamped slice `s[k:]`;
  - dict update, where the right side wins;
  - the `in` substring search;
  - `str.isspace`;
  - the regex `$`, which also matches before one final newline;
  - the lazy group, which takes the shortest match.

Behaviour of the code that a reader might not expect:

- On a client disconnect the engine request is not aborted.
- Nothing checks that cumulative texts only grow; `DeltasReassemble` takes it as a premise.
- The disconnect envelope has code 400; there is no dedicated status.
- The cache stores a copy of each previous text next to its length.
- The streaming path has no cancellation check.
- A choice whose outputs never carry a finish reason gets no terminal chunk, yet the response still ends with the sentinel. Its `<request id>_<index>` cache entry is never cleared, because only a terminal output clears it, and the generator object outlives the request, so such entries accumulate.

## Model

| member | source | states |
|---|---|---|
| Decimal.IntToString | service/middleware/error_handler.py:24 | `str(i)` is canonical decimal text: a minus sign exactly for negative numbers, no leading zero except in "0" itself, and never "-0" |
| Decimal.IntRoundTrip | service/core/response_generator.py:70 | the decimal text of an integer (as in the f-string cache key or `str(status)`) parses back to that integer |
| Decimal.CanonicalRoundTrip | service/middleware/error_handler.py:24 | every canonical decimal text is `str` of the integer it denotes, so canonical texts and integers correspond one to one |
| Decimal.IntToStringInjective | service/core/response_generator.py:70 | different integers never render to the same decimal text |
| Protocol.CreateUsageInfo | service/core/response_generator.py:154-161 | the usage keeps prompt and completion counts and its total is their sum |
| Metrics.PyBool | service/core/base_engine.py:71 | `str(bool)` is "True" exactly for true and "False" otherwise |
| Metrics.Speed | service/core/base_engine.py:51 | speed is the integer 0 when the cost is not positive, otherwise the real number whose product with the cost is completion tokens times 1000 |
| Metrics.RequestMetrics | service/core/base_engine.py:67-75 | counts one request with "add"; tag keys are the caller's plus model/stream/protocol, caller tags win, and the base tags fill in only where the caller gave none |
| Metrics.SuccessMetrics | service/core/base_engine.py:77-79 | exactly one `request_success` counter of 1, caller tags, "add" method |
| Metrics.FailureMetrics | service/core/base_engine.py:81-83 | exactly one `request_failure` counter of 1, caller tags, "add" method |
| Metrics.ReportTokens | service/core/base_engine.py:38-46 | the caller's tags gain (or have overwritten) `protocol`, every other tag is kept, and the three token counts are reported with those updated tags |
| Metrics.PerformanceMetrics | service/core/base_engine.py:48-52 | reports exactly the cost and the guarded speed (0 for a non-positive cost, else completion×1000/cost) with the caller's tags |
| Metrics.FirstTokenMetrics | service/core/base_engine.py:54-58 | reports exactly the first-packet latency and returns that same latency |
| ErrorEnvelope.CreateErrorResponse | service/core/base_engine.py:89-103 | the custom shape exactly for protocol "custom"; either shape keeps message, status value and request id; only the default shape carries the error type |
| ErrorEnvelope.DefaultsAreBadRequest | service/core/base_engine.py:90-96 | with the defaults the envelope has code 400 and no request id, and the default shape is BadRequestError |
| ErrorMiddleware.Contains | service/middleware/error_handler.py:31 | `sub in s` can hold only when `sub` is no longer than `s`, and holds whenever `s` starts with `sub` (in particular for the empty `sub`) |
| ErrorMiddleware.ContainsIff | service/middleware/error_handler.py:31-32 | the left-to-right `in` search succeeds exactly when the substring occurs at some position |
| ErrorMiddleware.DetectProtocol | service/middleware/error_handler.py:30-32 | the protocol is "custom" exactly when "/generate" occurs in the URL, and "default" otherwise |
| ErrorMiddleware.CreateErrorResponse | service/middleware/error_handler.py:89-109 | the middleware's private builder produces the same envelope as `ErrorHandler.create_error_response` for all arguments |
| ErrorMiddleware.FailureCounters | service/middleware/error_handler.py:24-27 | two "add" reports, request_total then request_failure, each tagged only with `ret_code` set to `str(status)`: the canonical decimal text of the status, which parses back to it |
| ErrorMiddleware.ValidationExceptionHandler | service/middleware/error_handler.py:22-41 | status 400 equal to the envelope code, the exception text as message, ValidationError type, shape chosen by "/generate" in the URL, failure counters for 400 |
| ErrorMiddleware.HttpExceptionHandler | service/middleware/error_handler.py:44-62 | the exception's status both as HTTP status and envelope code, its detail as message, HTTPException type, shape chosen by the URL, failure counters for that status |
| ErrorMiddleware.GeneralExceptionHandler | service/middleware/error_handler.py:65-86 | status 500 equal to the envelope code, fixed "Internal server error" message, InternalServerError type, shape chosen by the URL, failure counters for 500 |
| DeltaCache.EmptyCacheValid | service/core/response_generator.py:19-20 | the generator starts with a cache whose two maps agree |
| DeltaCache.SliceFrom | service/core/response_generator.py:32 | Python's `s[k:]` is a suffix of `s` of length `len(s)-k`, and empty once `k` reaches the length |
| DeltaCache.PrefixThenSlice | service/core/response_generator.py:32 | a prefix followed by the slice after its length is the whole text again |
| DeltaCache.CacheKeyInjective | service/core/response_generator.py:70 | two choices of one request never share a cache key |
| DeltaCache.CacheKeyParts | service/core/response_generator.py:70 | the key `f"{request_id}_{i}"` is the request id, an underscore, and the canonical decimal text of the index, which parses back to the index |
| DeltaCache.GetDeltaText | service/core/response_generator.py:22-36 | on a cache whose lengths match its texts, hit or miss, the delta is the output after the previous text's length; the entry for the key then records the previous text, other entries are untouched and the cache stays consistent |
| DeltaCache.DeltaCompletesPrevious | service/core/response_generator.py:22-36 | when the output extends the previous text, previous text plus delta is the output |
| DeltaCache.ClearCache | service/core/response_generator.py:38-41 | removes exactly the key from both maps (absent keys are fine), keeps every other entry, keeps the cache consistent |
| StreamResponse.Init | service/core/response_generator.py:55-59 | n choices with empty texts, zero tokens, nothing finished, nothing reported |
| StreamResponse.StepDelta | service/core/response_generator.py:70-71 | the delta of an output is its text after the length of the choice's previous text |
| StreamResponse.FirstPacketEvents | service/core/response_generator.py:76-79 | when the report fires, exactly one first-packet report naming the choice, carrying only `first_pkg_cost_time` with the caller's tags; otherwise nothing |
| StreamResponse.ChunkEvents | service/core/response_generator.py:82-110 | the chunk comes last and carries the request id, the choice, the delta and the output's finish reason; a terminal chunk is preceded by the cost report (cost and speed from the output's token count) and carries usage with the snapshot's prompt tokens, the output's tokens as completion, and their sum |
| StreamResponse.StepEvents | service/core/response_generator.py:63-114 | a finished choice emits nothing and a live one emits something, all of it about that output's choice |
| StreamResponse.NextState | service/core/response_generator.py:63-114 | only the output's choice changes; a finished choice is skipped; otherwise text, token count, finished flag (set by a finish reason) and first-report flag (set by any tokens) are updated, and the cache stays consistent |
| StreamResponse.Run | service/core/response_generator.py:63-114 | across the whole fold the arrays keep one entry per choice and the cache stays consistent, clears included |
| StreamResponse.StepsOf | service/core/response_generator.py:63-105 | one step per output of the snapshot, in order, each with the snapshot's prompt token count and that output's own first-packet and cost readings |
| StreamResponse.StepsInRange | service/core/response_generator.py:64 | when every output names one of the n choices, so does every flattened step |
| StreamResponse.Stream | service/core/response_generator.py:61-117 | the streamed response always ends with the sentinel |
| StreamResponse.StreamSnapshot | service/core/response_generator.py:63-114 | the inner loop over one snapshot's outputs leaves exactly the fold's state and events for the outputs seen so far |
| StreamResponse.GenerateStreamResponse | service/core/response_generator.py:43-119 | the nested loops as written, then the sentinel, produce exactly the fold's events and the cache it leaves |
| StreamProperties.UnfinishedKeyRemains | service/core/response_generator.py:70-114 | a choice that produced output but never finished still has its `<request id>_<index>` entry in the cache when the stream ends: only a terminal output clears it |
| StreamProperties.NextStateKeepsKey | service/core/response_generator.py:70-114 | one output keeps choice i's cache entry (or creates it, for an output of live choice i), unless that output finishes i |
| StreamProperties.UnfinishedAcceptsLatest | service/core/response_generator.py:66-72 | for a choice that never finished, the accepted text is its latest text |
| StreamProperties.AcceptedIsSeen | service/core/response_generator.py:72 | the accepted text is empty or the text of some output of that choice |
| StreamProperties.FirstFinish | service/core/response_generator.py:66-67 | the first output of a choice with a finish reason exists exactly when the choice finished, is an output of that choice with a finish reason, and is one of the outputs |
| StreamProperties.StepCounts | service/core/response_generator.py:76-114 | per choice, one output yields a terminal chunk exactly when it is live and finished, a first-packet report exactly when live and firing, and its delta only when live |
| StreamProperties.LiveStepCounts | service/core/response_generator.py:76-114 | an output of a live choice yields one terminal chunk exactly when it has a finish reason, one first-packet report exactly when the report fires, and its delta |
| StreamProperties.StepTerminals | service/core/response_generator.py:91-101 | only a live output with a finish reason yields a terminal chunk, and that chunk carries the output's finish reason and the usage of the snapshot's prompt tokens and the output's tokens |
| StreamProperties.StepWellFormed | service/core/response_generator.py:82-110 | one output's events never contain the sentinel, and only its terminal chunk carries usage, with a consistent total |
| StreamProperties.FinishedChoiceFrozen | service/core/response_generator.py:66-67 | once a choice has finished, its stored text, token count and flags never change again |
| StreamProperties.FinishedChoiceSilent | service/core/response_generator.py:66-67 | once a choice has finished, no later event concerns it |
| StreamProperties.FinishedChoiceInert | service/core/response_generator.py:66-67 | after a choice has finished, no further event concerns it and its entries never change |
| StreamProperties.RunEventsWellFormed | service/core/response_generator.py:82-110 | across any run, no sentinel is emitted mid-stream and usage appears exactly on terminal chunks with total = prompt + completion |
| StreamProperties.RunStateMatchesReference | service/core/response_generator.py:66-111 | from a fresh choice, the stored text, finished flag and first-report flag equal the reference definitions (text up to the first finish; some output finished; tokens seen before finishing) |
| StreamProperties.RunCountsMatchReference | service/core/response_generator.py:76-111 | from a fresh choice, exactly one terminal chunk if some output finished (else none) and exactly one first-packet report if tokens arrived before finishing (else none) |
| StreamProperties.RunNoChunkAfterTerminal | service/core/response_generator.py:111 | no chunk of a choice follows its terminal chunk |
| StreamProperties.RunTerminalUsage | service/core/response_generator.py:91-111 | from a fresh choice, every terminal chunk carries the finish reason and usage of the choice's first output with a finish reason, and there is none if no output finished |
| StreamProperties.DeltasReassemble | service/core/response_generator.py:69-72 | when each output text of a choice extends the earlier ones, the choice's deltas concatenate to its accepted text |
| StreamProperties.StreamGuarantees | service/core/response_generator.py:43-119 | the whole response: sentinel last and only once; per choice the terminal/first-packet counts match the reference; the terminal chunk carries the finish reason and usage of the first output that finished; no chunk after the terminal one; consistent usage; deltas reassemble; the cache stays consistent |
| FullResponse.DisconnectErrorResponse | service/core/response_generator.py:168-176 | the disconnect envelope carries code 400, "Client disconnected", the request id, the ClientDisconnected type for the default shape, and the custom shape exactly for the custom protocol |
| FullResponse.GenerateFullResponse | service/core/response_generator.py:121-152 | disconnect error exactly when some probe fires; failed assertion exactly on an empty stream; otherwise the last snapshot with the cost report of the response built from it |
| GameAgent.LStrip | logic/game_agent/game_agent.py:60-63 | a suffix of the text that does not start with whitespace, having dropped only whitespace |
| GameAgent.LStripIdempotent | logic/game_agent/game_agent.py:62-63 | stripping twice is stripping once |
| GameAgent.LStripUnique | logic/game_agent/game_agent.py:62-63 | any suffix with those three properties is the stripped text |
| GameAgent.UserPatternCandidates | logic/game_agent/game_agent.py:70 | every group the user pattern admits lies between the opening and a closing fence at the end, or before one final newline, and content that admits one starts with the opening |
| GameAgent.UserMatch | logic/game_agent/game_agent.py:70 | the user pattern's group: a group that matches the pattern, the shortest such; none exactly when no group matches |
| GameAgent.AssistantMatch | logic/game_agent/game_agent.py:71 | the assistant pattern's group: a matching group, the shortest such; none exactly when no group matches |
| GameAgent.Extract | logic/game_agent/game_agent.py:83-91 | for "user" and "assistant", the shortest group of the role's pattern when one matches, otherwise the content unchanged; any other role gets the content unchanged |
| GameAgent.UserFenceRoundTrip | logic/game_agent/game_agent.py:83-91 | a user message that is exactly one Lua block yields that block's body |
| GameAgent.AssistantFenceRoundTrip | logic/game_agent/game_agent.py:83-91 | an assistant message opened as a Lua block yields the rest when the rest has no final newline, including the empty rest |
| GameAgent.ExtractUnmatchedIsIdentity | logic/game_agent/game_agent.py:83-91 | content that matches no group of its role's pattern, or has a role without a pattern, comes back unchanged |
| GameAgent.Render | logic/game_agent/game_agent.py:101-109 | the prompt is the template head, the input and the template tail, each recoverable by position |
| GameAgent.RenderInjective | logic/game_agent/game_agent.py:107-109 | different inputs give different prompts |
| GameAgent.FormatMessage | logic/game_agent/game_agent.py:151-160 | the content becomes the stripped extraction of the role's content (missing keys read as ""); every other key is unchanged |
| GameAgent.CreatePrompt | logic/game_agent/game_agent.py:151-173 | fails with "messages为空" exactly on an empty list; otherwise the template around the stripped extraction of the last message, and the message list with only its last entry replaced by the formatted message |
| GameAgent.CreatePromptUsesOnlyLast | logic/game_agent/game_agent.py:168-170 | earlier messages never affect the prompt and are left as they were |
| GameAgent.PromptInputIsStripped | logic/game_agent/game_agent.py:157-173 | the instruction inside every prompt is empty or starts with a non-whitespace character |
| GameAgent.ValidateAndTokenize | logic/game_agent/game_agent.py:112-120 | the default validator never yields token ids |

## Left out

- Asynchrony, the event loop and concurrency. Snapshots are a finite sequence, and the loops run in order.
- Clock readings are parameters, as is the rounding of elapsed time to whole milliseconds. In the streaming path the clock is a function from (snapshot position, output position) to that output's two readings, since the source reads the clock separately for each report.
- Metrics.Speed: the quotient is a Dafny `real` rather than a Python float. Floating-point rounding is not modelled.
- The metrics sink and the logger: reports are returned as values. The fourth argument `False` that the middleware passes to `report_metrics` is not modelled, because its meaning lies in a file that is not part of this model.
- JSON serialisation of chunks and envelopes (`.json(...)`, `.dict()`). Chunks are events with their fields, and the sentinel `data: [DONE]` is the event `Done`.
- `response_creator_func` and the pydantic models. In the full path, the completion token count of the created response is a function parameter.
- Request validation, the engine, the tokenizer and the `OpenAIServingChat` parent class. None of them is part of this model.
- `_handle_client_disconnect` only logs, so it has no modelled effect.
- Negative choice indices, which Python would wrap around: every output index must be in `0..n-1`. An out-of-range index raises IndexError in the source.
- ErrorMiddleware.HttpExceptionHandler: `HTTPStatus(exc.status_code)` raises ValueError for an unknown code. The model accepts any integer.
- Custom regular expressions and custom templates passed to the collaborators' constructors. Only the defaults are modelled, and `str.format` is modelled for a template with a single `{input}` placeholder.
- Configuration files and package `__init__` modules.
- StreamResponse.Stream: its own contract states only that the sentinel is last. The per-choice guarantees are in StreamProperties.StreamGuarantees.
- StreamResponse.Run: its own contract states only the array shape and the cache's consistency. The per-choice facts about the fold are the lemmas of `StreamProperties`.
