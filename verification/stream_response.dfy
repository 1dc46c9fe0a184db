/**
  The streaming path of the response generator (`generate_stream_response`).

  The engine's snapshots arrive in order and each carries one output per
  active choice; the generator visits every output of every snapshot in turn.
  That double loop is modelled as a fold over the flattened sequence of
  `Step`s, each step carrying the one output it handles together with what it
  reads from its snapshot (the prompt token count) and the two clock readings
  taken while it is handled. The fold produces the list of
  observable events: data chunks, metric reports (each with the choice index
  its accompanying log line names) and the closing sentinel.
 */
module StreamResponse {
  import opened Wrappers
  import opened Protocol
  import opened Metrics
  import opened DeltaCache

  datatype Event =
    | FirstPacket(index: int, report: Report)
    | Finished(index: int, report: Report)
    | Chunk(requestId: string, index: int, delta: string, finishReason: Option<string>, usage: Option<Usage>)
    | Done

  /** The per-choice arrays of the generator, plus the generator's delta cache. */
  datatype State = State(
    prevTexts: seq<string>,
    prevNumTokens: seq<int>,
    finishSent: seq<bool>,
    reportedFirst: seq<bool>,
    cache: Cache)

  /** The clock readings taken while one output is handled: for the first-packet report, and for the cost report. */
  datatype Readings = Readings(firstMs: int, costMs: int)

  datatype Step = Step(promptTokens: nat, firstMs: int, costMs: int, output: ChoiceOutput)

  predicate Shaped(st: State, n: nat) {
    |st.prevTexts| == n && |st.prevNumTokens| == n && |st.finishSent| == n && |st.reportedFirst| == n
  }

  /** The four arrays as the generator allocates them for `n` choices. */
  function Init(n: nat, cache: Cache): (st: State)
    ensures Shaped(st, n) && st.cache == cache
    ensures forall i :: 0 <= i < n ==>
      st.prevTexts[i] == "" && st.prevNumTokens[i] == 0 && !st.finishSent[i] && !st.reportedFirst[i]
  {
    State(seq(n, _ => ""), seq(n, _ => 0), seq(n, _ => false), seq(n, _ => false), cache)
  }

  /** Choice `i`'s entries are the same in both states. */
  predicate SameChoice(st: State, st': State, i: int)
    requires 0 <= i < |st.prevTexts| && Shaped(st, |st.prevTexts|) && Shaped(st', |st.prevTexts|)
  {
    && st'.prevTexts[i] == st.prevTexts[i]
    && st'.prevNumTokens[i] == st.prevNumTokens[i]
    && st'.finishSent[i] == st.finishSent[i]
    && st'.reportedFirst[i] == st.reportedFirst[i]
  }

  predicate AboutChoice(e: Event, i: int) {
    !e.Done? && e.index == i
  }

  /** Every event concerns choice `i`. */
  predicate AllAbout(es: seq<Event>, i: int) {
    forall k :: 0 <= k < |es| ==> AboutChoice(es[k], i)
  }

  lemma AllAboutAppend(a: seq<Event>, b: seq<Event>, i: int)
    requires AllAbout(a, i) && AllAbout(b, i)
    ensures AllAbout(a + b, i)
  {
    forall k | 0 <= k < |a + b|
      ensures AboutChoice((a + b)[k], i)
    {
      if k >= |a| {
        assert (a + b)[k] == b[k - |a|];
      }
    }
  }

  predicate IsTerminal(e: Event, i: int) {
    e.Chunk? && e.index == i && e.finishReason.Some?
  }

  predicate InRange(steps: seq<Step>, n: nat) {
    forall k :: 0 <= k < |steps| ==> 0 <= steps[k].output.index < n
  }

  /** How many first-packet reports name choice `i`. */
  function FirstPacketCount(i: int, es: seq<Event>): nat
    decreases |es|
  {
    if |es| == 0 then 0
    else FirstPacketCount(i, es[..|es| - 1]) + (if es[|es| - 1].FirstPacket? && es[|es| - 1].index == i then 1 else 0)
  }

  /** How many terminal chunks choice `i` has received. */
  function TerminalCount(i: int, es: seq<Event>): nat
    decreases |es|
  {
    if |es| == 0 then 0
    else TerminalCount(i, es[..|es| - 1]) + (if IsTerminal(es[|es| - 1], i) then 1 else 0)
  }

  /** The deltas of choice `i`'s chunks, joined in emission order. */
  function JoinDeltas(i: int, es: seq<Event>): string
    decreases |es|
  {
    if |es| == 0 then ""
    else
      var e := es[|es| - 1];
      JoinDeltas(i, es[..|es| - 1]) + (if e.Chunk? && e.index == i then e.delta else "")
  }

  /** The first-packet report, when it fires: one report of the latency, naming the choice. */
  function FirstPacketEvents(i: int, fires: bool, clockMs: int, tags: Tags): (es: seq<Event>)
    ensures fires <==> |es| == 1
    ensures !fires ==> es == []
    ensures AllAbout(es, i)
    ensures fires ==>
      && es[0].FirstPacket? && es[0].index == i
      && es[0].report.values == map["first_pkg_cost_time" := IntNum(clockMs)]
      && es[0].report.tags == tags && es[0].report.methods == None
  {
    if fires then [FirstPacket(i, FirstTokenMetrics(clockMs, tags).1)] else []
  }

  /**
    A plain chunk, or the cost report followed by the terminal chunk. The chunk
    is always last and carries the delta and the output's finish reason; a
    terminal chunk also carries the usage: the snapshot's prompt token count and
    the output's token count as the completion count.
   */
  function ChunkEvents(requestId: string, i: int, delta: string, tags: Tags, step: Step): (es: seq<Event>)
    ensures |es| == (if step.output.finishReason.Some? then 2 else 1)
    ensures AllAbout(es, i)
    ensures var c := es[|es| - 1];
      && c.Chunk? && c.requestId == requestId && c.index == i && c.delta == delta
      && c.finishReason == step.output.finishReason
      && (c.usage.Some? <==> c.finishReason.Some?)
    ensures var c := es[|es| - 1];
      c.usage.Some? ==>
        && c.usage.value.promptTokens == step.promptTokens
        && c.usage.value.completionTokens == |step.output.tokenIds|
        && c.usage.value.totalTokens == step.promptTokens + |step.output.tokenIds|
    ensures |es| == 2 ==>
      && es[0].Finished? && es[0].index == i
      && es[0].report == PerformanceMetrics(step.costMs, |step.output.tokenIds|, tags)
  {
    var out := step.output;
    if out.finishReason.None? then [Chunk(requestId, i, delta, None, None)]
    else
      var usage := CreateUsageInfo(step.promptTokens, |out.tokenIds|);
      [Finished(i, PerformanceMetrics(step.costMs, usage.completionTokens, tags)),
       Chunk(requestId, i, delta, out.finishReason, Some(usage))]
  }

  /** The delta of a live output, through the generator's cache. */
  function StepDelta(st: State, requestId: string, step: Step): (res: (Cache, string))
    requires 0 <= step.output.index < |st.prevTexts|
    ensures Valid(st.cache) ==> Valid(res.0) && res.1 == SliceFrom(step.output.text, |st.prevTexts[step.output.index]|)
  {
    GetDeltaText(st.cache, step.output.text, st.prevTexts[step.output.index], CacheKey(requestId, step.output.index))
  }

  /** The first-packet report fires on the first output of a choice that has any tokens. */
  predicate FirstPacketFires(st: State, step: Step)
    requires 0 <= step.output.index < |st.reportedFirst|
  {
    !st.reportedFirst[step.output.index] && |step.output.tokenIds| > 0
  }

  /**
    What one output makes the generator emit. A finished choice is skipped
    outright. Otherwise the delta is computed through the cache, the
    first-packet metric fires if this is the first output of the choice with
    tokens (before the finish check, so also on a terminal output), and either
    a plain chunk or, after the cost metric, a terminal chunk carrying the
    usage is emitted.
   */
  function StepEvents(st: State, requestId: string, tags: Tags, step: Step): (es: seq<Event>)
    requires Shaped(st, |st.finishSent|) && 0 <= step.output.index < |st.finishSent|
    ensures st.finishSent[step.output.index] <==> es == []
    ensures forall k :: 0 <= k < |es| ==> AboutChoice(es[k], step.output.index)
  {
    var i := step.output.index;
    if st.finishSent[i] then []
    else
      var a := FirstPacketEvents(i, FirstPacketFires(st, step), step.firstMs, tags);
      var b := ChunkEvents(requestId, i, StepDelta(st, requestId, step).1, tags, step);
      AllAboutAppend(a, b, i);
      a + b
  }

  /**
    The generator's arrays and cache after one output: a live choice records
    the output's text and token count, and a terminal output marks the choice
    finished and clears its cache entry.
   */
  function NextState(st: State, requestId: string, step: Step): (st': State)
    requires Shaped(st, |st.finishSent|) && 0 <= step.output.index < |st.finishSent|
    ensures Shaped(st', |st.finishSent|)
    ensures forall j :: 0 <= j < |st.finishSent| && j != step.output.index ==> SameChoice(st, st', j)
    ensures Valid(st.cache) ==> Valid(st'.cache)
    ensures st.finishSent[step.output.index] ==> st' == st
    ensures !st.finishSent[step.output.index] ==>
      && st'.prevTexts[step.output.index] == step.output.text
      && st'.prevNumTokens[step.output.index] == |step.output.tokenIds|
      && st'.finishSent[step.output.index] == step.output.finishReason.Some?
      && st'.reportedFirst[step.output.index] == (st.reportedFirst[step.output.index] || |step.output.tokenIds| > 0)
  {
    var i := step.output.index;
    var out := step.output;
    if st.finishSent[i] then st
    else
      var cache1 := StepDelta(st, requestId, step).0;
      var prevTexts := st.prevTexts[i := out.text];
      var prevNumTokens := st.prevNumTokens[i := |out.tokenIds|];
      var reported := if FirstPacketFires(st, step) then st.reportedFirst[i := true] else st.reportedFirst;
      if out.finishReason.None? then
        State(prevTexts, prevNumTokens, st.finishSent, reported, cache1)
      else
        State(prevTexts, prevNumTokens, st.finishSent[i := true], reported, ClearCache(cache1, CacheKey(requestId, i)))
  }

  /** Every terminal chunk carries usage whose total is prompt plus completion; no other chunk carries usage. */
  predicate UsageConsistent(es: seq<Event>) {
    forall k :: 0 <= k < |es| && es[k].Chunk? ==>
      && (es[k].usage.Some? <==> es[k].finishReason.Some?)
      && (es[k].usage.Some? ==>
            es[k].usage.value.totalTokens == es[k].usage.value.promptTokens + es[k].usage.value.completionTokens)
  }

  /**
    The generator's fold over the outputs seen so far. The arrays keep their
    length and the cache stays consistent, clears included.
   */
  function Run(st: State, requestId: string, tags: Tags, steps: seq<Step>): (res: (State, seq<Event>))
    requires Shaped(st, |st.finishSent|) && InRange(steps, |st.finishSent|)
    ensures Shaped(res.0, |st.finishSent|)
    ensures Valid(st.cache) ==> Valid(res.0.cache)
    decreases |steps|
  {
    if |steps| == 0 then (st, [])
    else
      var prev := Run(st, requestId, tags, steps[..|steps| - 1]);
      var step := steps[|steps| - 1];
      (NextState(prev.0, requestId, step), prev.1 + StepEvents(prev.0, requestId, tags, step))
  }

  /**
    The clock as the generator meets it: `clock(k, j)` are the readings taken
    while output `j` of snapshot `k` is handled.
   */
  type Clock = (nat, nat) -> Readings

  /** The outputs of snapshot `k`, in the order the generator visits them, each with its own readings. */
  function StepsOf(snap: Snapshot, k: nat, clock: Clock): (steps: seq<Step>)
    ensures |steps| == |snap.outputs|
    ensures forall j :: 0 <= j < |steps| ==>
      steps[j] == Step(|snap.promptTokenIds|, clock(k, j).firstMs, clock(k, j).costMs, snap.outputs[j])
  {
    seq(|snap.outputs|, j requires 0 <= j < |snap.outputs| =>
      Step(|snap.promptTokenIds|, clock(k, j).firstMs, clock(k, j).costMs, snap.outputs[j]))
  }

  /** All outputs of all snapshots, snapshot by snapshot. */
  function Steps(snaps: seq<Snapshot>, clock: Clock): seq<Step>
    decreases |snaps|
  {
    if |snaps| == 0 then []
    else Steps(snaps[..|snaps| - 1], clock) + StepsOf(snaps[|snaps| - 1], |snaps| - 1, clock)
  }

  /** Every output names one of the request's `n` choices (Python would raise IndexError otherwise). */
  predicate ChoicesInRange(snaps: seq<Snapshot>, n: nat) {
    forall k, j :: 0 <= k < |snaps| && 0 <= j < |snaps[k].outputs| ==> 0 <= snaps[k].outputs[j].index < n
  }

  lemma {:induction false} StepsInRange(snaps: seq<Snapshot>, clock: Clock, n: nat)
    requires ChoicesInRange(snaps, n)
    ensures InRange(Steps(snaps, clock), n)
    decreases |snaps|
  {
    if |snaps| > 0 {
      var m := |snaps| - 1;
      assert ChoicesInRange(snaps[..m], n) by {
        forall k, j | 0 <= k < m && 0 <= j < |snaps[..m][k].outputs|
          ensures 0 <= snaps[..m][k].outputs[j].index < n
        {
          assert snaps[..m][k] == snaps[k];
        }
      }
      StepsInRange(snaps[..m], clock, n);
    }
  }

  /**
    The whole streamed response: the fold's events followed by the sentinel,
    and the cache the generator is left with.
   */
  function Stream(n: nat, requestId: string, tags: Tags, snaps: seq<Snapshot>, clock: Clock, cache: Cache)
    : (res: (seq<Event>, Cache))
    requires ChoicesInRange(snaps, n)
    ensures |res.0| > 0 && res.0[|res.0| - 1] == Done
  {
    StepsInRange(snaps, clock, n);
    var r := Run(Init(n, cache), requestId, tags, Steps(snaps, clock));
    (r.1 + [Done], r.0.cache)
  }

  lemma RunSnoc(st: State, requestId: string, tags: Tags, xs: seq<Step>, step: Step)
    requires Shaped(st, |st.finishSent|) && InRange(xs, |st.finishSent|)
    requires 0 <= step.output.index < |st.finishSent|
    ensures InRange(xs + [step], |st.finishSent|)
    ensures var prev := Run(st, requestId, tags, xs);
      Run(st, requestId, tags, xs + [step]) ==
        (NextState(prev.0, requestId, step), prev.1 + StepEvents(prev.0, requestId, tags, step))
  {
    assert (xs + [step])[..|xs|] == xs;
  }

  lemma ExtendTake<T>(seen: seq<T>, s: seq<T>, j: nat)
    requires j < |s|
    ensures seen + s[..j + 1] == (seen + s[..j]) + [s[j]]
  {
    assert s[..j + 1] == s[..j] + [s[j]];
  }

  lemma StepsSnoc(snaps: seq<Snapshot>, clock: Clock, k: nat)
    requires k < |snaps|
    ensures Steps(snaps[..k + 1], clock) == Steps(snaps[..k], clock) + StepsOf(snaps[k], k, clock)
  {
    assert snaps[..k + 1][..k] == snaps[..k];
  }

  /** The generator's inner loop: every output of one snapshot, in order. */
  method StreamSnapshot(init: State, requestId: string, tags: Tags, seen: seq<Step>, snap: Snapshot,
                        k: nat, clock: Clock, st: State, events: seq<Event>)
    returns (st': State, events': seq<Event>)
    requires Shaped(init, |init.finishSent|) && InRange(seen, |init.finishSent|)
    requires forall j :: 0 <= j < |snap.outputs| ==> 0 <= snap.outputs[j].index < |init.finishSent|
    requires st == Run(init, requestId, tags, seen).0 && events == Run(init, requestId, tags, seen).1
    ensures InRange(seen + StepsOf(snap, k, clock), |init.finishSent|)
    ensures st' == Run(init, requestId, tags, seen + StepsOf(snap, k, clock)).0
    ensures events' == Run(init, requestId, tags, seen + StepsOf(snap, k, clock)).1
  {
    var here := StepsOf(snap, k, clock);
    st', events' := st, events;
    var j := 0;
    assert seen + here[..0] == seen;
    while j < |snap.outputs|
      invariant 0 <= j <= |snap.outputs|
      invariant InRange(seen + here[..j], |init.finishSent|)
      invariant st' == Run(init, requestId, tags, seen + here[..j]).0
      invariant events' == Run(init, requestId, tags, seen + here[..j]).1
    {
      var step := Step(|snap.promptTokenIds|, clock(k, j).firstMs, clock(k, j).costMs, snap.outputs[j]);
      assert InRange(seen + here[..j + 1], |init.finishSent|)
        && Run(init, requestId, tags, seen + here[..j + 1])
           == (NextState(st', requestId, step), events' + StepEvents(st', requestId, tags, step)) by {
        assert here[j] == step;
        ExtendTake(seen, here, j);
        RunSnoc(init, requestId, tags, seen + here[..j], step);
      }
      events' := events' + StepEvents(st', requestId, tags, step);
      st' := NextState(st', requestId, step);
      j := j + 1;
    }
    assert here[..j] == here;
  }

  /**
    The generator's loops as written: every output of every snapshot in
    arrival order, then the sentinel. Its result is the fold's.
   */
  method GenerateStreamResponse(n: nat, requestId: string, tags: Tags, snaps: seq<Snapshot>, clock: Clock,
                                cache: Cache)
    returns (events: seq<Event>, cacheOut: Cache)
    requires ChoicesInRange(snaps, n)
    ensures (events, cacheOut) == Stream(n, requestId, tags, snaps, clock, cache)
  {
    var init := Init(n, cache);
    var st := init;
    events := [];
    var k := 0;
    while k < |snaps|
      invariant 0 <= k <= |snaps|
      invariant InRange(Steps(snaps[..k], clock), n)
      invariant st == Run(init, requestId, tags, Steps(snaps[..k], clock)).0
      invariant events == Run(init, requestId, tags, Steps(snaps[..k], clock)).1
    {
      st, events := StreamSnapshot(init, requestId, tags, Steps(snaps[..k], clock), snaps[k], k, clock, st, events);
      StepsSnoc(snaps, clock, k);
      k := k + 1;
    }
    assert snaps[..k] == snaps;
    cacheOut := st.cache;
    events := events + [Done];
  }
}
