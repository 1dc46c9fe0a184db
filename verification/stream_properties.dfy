/**
  What the streaming generator guarantees, per choice and for the whole
  response, stated against reference definitions over the input outputs.
 */
module StreamProperties {
  import opened Wrappers
  import opened Protocol
  import opened Metrics
  import opened DeltaCache
  import opened StreamResponse

  // ---------------------------------------------------------------------------
  // Reference definitions over the outputs the engine sent
  // ---------------------------------------------------------------------------

  /** Some output of choice `i` carried a finish reason. */
  function HasFinished(i: int, steps: seq<Step>): bool
    decreases |steps|
  {
    if |steps| == 0 then false
    else
      var x := steps[|steps| - 1].output;
      HasFinished(i, steps[..|steps| - 1]) || (x.index == i && x.finishReason.Some?)
  }

  /** The first output of choice `i` that carried a finish reason, if any. */
  function FirstFinish(i: int, steps: seq<Step>): (r: Option<Step>)
    ensures r.Some? <==> HasFinished(i, steps)
    ensures r.Some? ==> r.value.output.index == i && r.value.output.finishReason.Some?
    ensures r.Some? ==> exists p :: 0 <= p < |steps| && steps[p] == r.value
    decreases |steps|
  {
    if |steps| == 0 then None
    else
      var pre := steps[..|steps| - 1];
      var x := steps[|steps| - 1];
      if HasFinished(i, pre) then
        var r := FirstFinish(i, pre);
        assert r.Some? ==> exists p :: 0 <= p < |steps| && steps[p] == r.value by {
          if r.Some? {
            var p :| 0 <= p < |pre| && pre[p] == r.value;
            assert steps[p] == pre[p];
          }
        }
        r
      else if x.output.index == i && x.output.finishReason.Some? then Some(x)
      else None
  }

  /** The usage a terminal chunk reports for an output: its snapshot's prompt tokens and its own tokens. */
  function UsageOf(s: Step): Usage {
    CreateUsageInfo(s.promptTokens, |s.output.tokenIds|)
  }

  /** The text of choice `i`'s latest output up to and including its first terminal one ("" if none). */
  function AcceptedText(i: int, steps: seq<Step>): string
    decreases |steps|
  {
    if |steps| == 0 then ""
    else
      var pre := steps[..|steps| - 1];
      var x := steps[|steps| - 1].output;
      if x.index == i && !HasFinished(i, pre) then x.text else AcceptedText(i, pre)
  }

  /** The text of choice `i`'s latest output, finished or not ("" if none). */
  function LatestText(i: int, steps: seq<Step>): string
    decreases |steps|
  {
    if |steps| == 0 then ""
    else if steps[|steps| - 1].output.index == i then steps[|steps| - 1].output.text
    else LatestText(i, steps[..|steps| - 1])
  }

  /** Some output of choice `i` with at least one token arrived before the choice finished. */
  function HasTokensBeforeFinish(i: int, steps: seq<Step>): bool
    decreases |steps|
  {
    if |steps| == 0 then false
    else
      var pre := steps[..|steps| - 1];
      var x := steps[|steps| - 1].output;
      HasTokensBeforeFinish(i, pre) || (x.index == i && !HasFinished(i, pre) && |x.tokenIds| > 0)
  }

  /** Each output text of choice `i` extends every earlier one of that choice. */
  predicate PrefixChain(i: int, steps: seq<Step>) {
    forall p, q :: 0 <= p < q < |steps| && steps[p].output.index == i && steps[q].output.index == i ==>
      steps[p].output.text <= steps[q].output.text
  }

  predicate SeenText(i: int, steps: seq<Step>, t: string) {
    exists p :: 0 <= p < |steps| && steps[p].output.index == i && steps[p].output.text == t
  }

  /**
    Every terminal chunk of choice `i` carries the finish reason and the usage
    of output `first`; with `first` absent, there is no terminal chunk of `i`.
   */
  predicate TerminalsFrom(i: int, es: seq<Event>, first: Option<Step>) {
    forall k :: 0 <= k < |es| && IsTerminal(es[k], i) ==>
      && first.Some?
      && es[k].finishReason == first.value.output.finishReason
      && es[k].usage == Some(UsageOf(first.value))
  }

  /** No chunk of choice `i` follows a terminal chunk of choice `i`. */
  predicate NoChunkAfterTerminal(i: int, es: seq<Event>) {
    forall a, b :: 0 <= a < b < |es| && IsTerminal(es[a], i) ==> !(es[b].Chunk? && es[b].index == i)
  }

  lemma {:induction false} UnfinishedAcceptsLatest(i: int, steps: seq<Step>)
    requires !HasFinished(i, steps)
    ensures AcceptedText(i, steps) == LatestText(i, steps)
    decreases |steps|
  {
    if |steps| > 0 {
      UnfinishedAcceptsLatest(i, steps[..|steps| - 1]);
    }
  }

  lemma {:induction false} AcceptedIsSeen(i: int, steps: seq<Step>)
    ensures AcceptedText(i, steps) == "" || SeenText(i, steps, AcceptedText(i, steps))
    decreases |steps|
  {
    if |steps| > 0 {
      var m := |steps| - 1;
      var pre := steps[..m];
      var x := steps[m].output;
      if x.index == i && !HasFinished(i, pre) {
        assert steps[m].output.text == AcceptedText(i, steps);
      } else {
        AcceptedIsSeen(i, pre);
        if AcceptedText(i, pre) != "" {
          var p :| 0 <= p < |pre| && pre[p].output.index == i && pre[p].output.text == AcceptedText(i, pre);
          assert steps[p] == pre[p];
        }
      }
    }
  }

  // ---------------------------------------------------------------------------
  // Counting over concatenated event lists
  // ---------------------------------------------------------------------------

  lemma {:induction false} TerminalCountAppend(i: int, a: seq<Event>, b: seq<Event>)
    ensures TerminalCount(i, a + b) == TerminalCount(i, a) + TerminalCount(i, b)
    decreases |b|
  {
    if |b| == 0 {
      assert a + b == a;
    } else {
      var m := |b| - 1;
      assert (a + b)[..|a + b| - 1] == a + b[..m];
      TerminalCountAppend(i, a, b[..m]);
    }
  }

  lemma {:induction false} FirstPacketCountAppend(i: int, a: seq<Event>, b: seq<Event>)
    ensures FirstPacketCount(i, a + b) == FirstPacketCount(i, a) + FirstPacketCount(i, b)
    decreases |b|
  {
    if |b| == 0 {
      assert a + b == a;
    } else {
      var m := |b| - 1;
      assert (a + b)[..|a + b| - 1] == a + b[..m];
      FirstPacketCountAppend(i, a, b[..m]);
    }
  }

  lemma {:induction false} JoinDeltasAppend(i: int, a: seq<Event>, b: seq<Event>)
    ensures JoinDeltas(i, a + b) == JoinDeltas(i, a) + JoinDeltas(i, b)
    decreases |b|
  {
    if |b| == 0 {
      assert a + b == a;
    } else {
      var m := |b| - 1;
      var e := b[m];
      var piece := if e.Chunk? && e.index == i then e.delta else "";
      assert (a + b)[..|a + b| - 1] == a + b[..m];
      assert (a + b)[|a + b| - 1] == e;
      assert JoinDeltas(i, a + b) == JoinDeltas(i, a + b[..m]) + piece;
      assert JoinDeltas(i, b) == JoinDeltas(i, b[..m]) + piece;
      JoinDeltasAppend(i, a, b[..m]);
    }
  }

  lemma CountsAppend(i: int, a: seq<Event>, b: seq<Event>)
    ensures TerminalCount(i, a + b) == TerminalCount(i, a) + TerminalCount(i, b)
    ensures FirstPacketCount(i, a + b) == FirstPacketCount(i, a) + FirstPacketCount(i, b)
    ensures JoinDeltas(i, a + b) == JoinDeltas(i, a) + JoinDeltas(i, b)
  {
    TerminalCountAppend(i, a, b);
    FirstPacketCountAppend(i, a, b);
    JoinDeltasAppend(i, a, b);
  }

  lemma CountsOfNone(i: int, es: seq<Event>)
    requires forall k :: 0 <= k < |es| ==> !AboutChoice(es[k], i)
    ensures TerminalCount(i, es) == 0 && FirstPacketCount(i, es) == 0 && JoinDeltas(i, es) == ""
    decreases |es|
  {
    if |es| > 0 {
      CountsOfNone(i, es[..|es| - 1]);
    }
  }

  // ---------------------------------------------------------------------------
  // One output
  // ---------------------------------------------------------------------------

  lemma ChunkEventsFacts(requestId: string, i: int, delta: string, tags: Tags, step: Step)
    ensures var es := ChunkEvents(requestId, i, delta, tags, step);
      && TerminalCount(i, es) == (if step.output.finishReason.Some? then 1 else 0)
      && FirstPacketCount(i, es) == 0
      && JoinDeltas(i, es) == delta
      && NoChunkAfterTerminal(i, es)
      && UsageConsistent(es)
      && (forall k :: 0 <= k < |es| ==> !es[k].Done?)
  {
    var es := ChunkEvents(requestId, i, delta, tags, step);
    if step.output.finishReason.Some? {
      CountsAppend(i, [es[0]], [es[1]]);
      assert es == [es[0]] + [es[1]];
      assert [es[0]][..0] == [] && [es[1]][..0] == [];
      assert es[..1] == [es[0]];
    }
    assert es[..0] == [];
  }

  lemma FirstPacketEventsFacts(i: int, fires: bool, clockMs: int, tags: Tags)
    ensures var es := FirstPacketEvents(i, fires, clockMs, tags);
      && TerminalCount(i, es) == 0
      && FirstPacketCount(i, es) == (if fires then 1 else 0)
      && JoinDeltas(i, es) == ""
      && (forall k :: 0 <= k < |es| ==> !es[k].Chunk? && !es[k].Done?)
  {
    if fires {
      var es := FirstPacketEvents(i, fires, clockMs, tags);
      assert es[..0] == [];
    }
  }

  /** Choice `i` is the one this output is for, and it has not finished yet. */
  predicate Live(st: State, step: Step, i: int)
    requires Shaped(st, |st.finishSent|) && 0 <= step.output.index < |st.finishSent|
  {
    step.output.index == i && !st.finishSent[i]
  }

  /** The event list of one output, counted per choice. */
  lemma StepCounts(st: State, requestId: string, tags: Tags, step: Step, i: int)
    requires Shaped(st, |st.finishSent|) && 0 <= step.output.index < |st.finishSent|
    ensures var es := StepEvents(st, requestId, tags, step);
      && TerminalCount(i, es) == (if Live(st, step, i) && step.output.finishReason.Some? then 1 else 0)
      && FirstPacketCount(i, es) == (if Live(st, step, i) && FirstPacketFires(st, step) then 1 else 0)
      && JoinDeltas(i, es) == (if Live(st, step, i) then StepDelta(st, requestId, step).1 else "")
  {
    if !Live(st, step, i) {
      CountsOfNone(i, StepEvents(st, requestId, tags, step));
    } else {
      LiveStepCounts(st, requestId, tags, step);
    }
  }

  /** A live choice's output gives the first-packet events, then the chunk events. */
  lemma LiveStepEvents(st: State, requestId: string, tags: Tags, step: Step)
    requires Shaped(st, |st.finishSent|) && 0 <= step.output.index < |st.finishSent|
    requires !st.finishSent[step.output.index]
    ensures StepEvents(st, requestId, tags, step) ==
      FirstPacketEvents(step.output.index, FirstPacketFires(st, step), step.firstMs, tags)
      + ChunkEvents(requestId, step.output.index, StepDelta(st, requestId, step).1, tags, step)
  {
  }

  /** The event list of an output of a live choice, counted for that choice. */
  lemma LiveStepCounts(st: State, requestId: string, tags: Tags, step: Step)
    requires Shaped(st, |st.finishSent|) && 0 <= step.output.index < |st.finishSent|
    requires !st.finishSent[step.output.index]
    ensures var es := StepEvents(st, requestId, tags, step); var i := step.output.index;
      && TerminalCount(i, es) == (if step.output.finishReason.Some? then 1 else 0)
      && FirstPacketCount(i, es) == (if FirstPacketFires(st, step) then 1 else 0)
      && JoinDeltas(i, es) == StepDelta(st, requestId, step).1
  {
    var i := step.output.index;
    var fires := FirstPacketFires(st, step);
    var delta := StepDelta(st, requestId, step).1;
    var a := FirstPacketEvents(i, fires, step.firstMs, tags);
    var b := ChunkEvents(requestId, i, delta, tags, step);
    LiveStepEvents(st, requestId, tags, step);
    FirstPacketEventsFacts(i, fires, step.firstMs, tags);
    ChunkEventsFacts(requestId, i, delta, tags, step);
    CountsAppend(i, a, b);
  }

  /** Within one output's events the only chunk is the last event. */
  lemma StepChunkIsLast(st: State, requestId: string, tags: Tags, step: Step)
    requires Shaped(st, |st.finishSent|) && 0 <= step.output.index < |st.finishSent|
    ensures var es := StepEvents(st, requestId, tags, step);
      forall k :: 0 <= k < |es| - 1 ==> !es[k].Chunk?
  {
    var i := step.output.index;
    if !st.finishSent[i] {
      var a := FirstPacketEvents(i, FirstPacketFires(st, step), step.firstMs, tags);
      var b := ChunkEvents(requestId, i, StepDelta(st, requestId, step).1, tags, step);
      LiveStepEvents(st, requestId, tags, step);
    }
  }

  lemma TerminalPositive(i: int, es: seq<Event>, a: int)
    requires 0 <= a < |es| && IsTerminal(es[a], i)
    ensures TerminalCount(i, es) >= 1
    decreases |es|
  {
    if a < |es| - 1 {
      TerminalPositive(i, es[..|es| - 1], a);
    }
  }

  lemma NoTerminalsFrom(i: int, es: seq<Event>, first: Option<Step>)
    requires TerminalCount(i, es) == 0
    ensures TerminalsFrom(i, es, first)
  {
    forall k | 0 <= k < |es| && IsTerminal(es[k], i)
      ensures false
    {
      TerminalPositive(i, es, k);
    }
  }

  lemma TerminalsFromAppend(i: int, a: seq<Event>, b: seq<Event>, first: Option<Step>)
    requires TerminalsFrom(i, a, first) && TerminalsFrom(i, b, first)
    ensures TerminalsFrom(i, a + b, first)
  {
    forall k | 0 <= k < |a + b| && IsTerminal((a + b)[k], i)
      ensures (a + b)[k] == (if k < |a| then a[k] else b[k - |a|])
    {
    }
  }

  /**
    One output's terminal chunk, if it has one, carries that output's finish
    reason and usage; only a live output with a finish reason has one.
   */
  lemma StepTerminals(st: State, requestId: string, tags: Tags, step: Step, i: int)
    requires Shaped(st, |st.finishSent|) && 0 <= step.output.index < |st.finishSent|
    ensures TerminalsFrom(i, StepEvents(st, requestId, tags, step),
                          if Live(st, step, i) && step.output.finishReason.Some? then Some(step) else None)
  {
    var es := StepEvents(st, requestId, tags, step);
    if Live(st, step, i) {
      var fires := FirstPacketFires(st, step);
      var a := FirstPacketEvents(i, fires, step.firstMs, tags);
      var b := ChunkEvents(requestId, i, StepDelta(st, requestId, step).1, tags, step);
      LiveStepEvents(st, requestId, tags, step);
      assert es[|es| - 1] == b[|b| - 1];
      StepChunkIsLast(st, requestId, tags, step);
    }
  }

  lemma TerminalsFromNone(i: int, es: seq<Event>, first: Option<Step>)
    requires TerminalsFrom(i, es, None)
    ensures TerminalsFrom(i, es, first)
  {
  }

  /** One event is not the sentinel, and a chunk carries usage exactly when it finishes, with a consistent total. */
  predicate WellFormedEvent(e: Event) {
    && !e.Done?
    && (e.Chunk? ==> (e.usage.Some? <==> e.finishReason.Some?))
    && (e.Chunk? && e.usage.Some? ==>
          e.usage.value.totalTokens == e.usage.value.promptTokens + e.usage.value.completionTokens)
  }

  predicate AllWellFormed(es: seq<Event>) {
    forall k :: 0 <= k < |es| ==> WellFormedEvent(es[k])
  }

  lemma AllWellFormedAppend(a: seq<Event>, b: seq<Event>)
    requires AllWellFormed(a) && AllWellFormed(b)
    ensures AllWellFormed(a + b)
  {
    forall k | 0 <= k < |a + b|
      ensures WellFormedEvent((a + b)[k])
    {
      if k >= |a| {
        assert (a + b)[k] == b[k - |a|];
      }
    }
  }

  /** Well-formed events are exactly usage-consistent events without the sentinel. */
  lemma AllWellFormedMeans(es: seq<Event>)
    ensures AllWellFormed(es) <==> UsageConsistent(es) && forall k :: 0 <= k < |es| ==> !es[k].Done?
  {
  }

  /** None of the events concerns choice `i`. */
  predicate NoneAbout(i: int, es: seq<Event>) {
    forall k :: 0 <= k < |es| ==> !AboutChoice(es[k], i)
  }

  lemma NoneAboutAppend(i: int, a: seq<Event>, b: seq<Event>)
    requires NoneAbout(i, a) && NoneAbout(i, b)
    ensures NoneAbout(i, a + b)
  {
    forall k | 0 <= k < |a + b|
      ensures !AboutChoice((a + b)[k], i)
    {
      if k >= |a| {
        assert (a + b)[k] == b[k - |a|];
      }
    }
  }

  /** Whatever the state, one output's events have consistent usage and no sentinel. */
  lemma StepWellFormed(st: State, requestId: string, tags: Tags, step: Step)
    requires Shaped(st, |st.finishSent|) && 0 <= step.output.index < |st.finishSent|
    ensures AllWellFormed(StepEvents(st, requestId, tags, step))
  {
    var i := step.output.index;
    if !st.finishSent[i] {
      var fires := FirstPacketFires(st, step);
      var delta := StepDelta(st, requestId, step).1;
      var a := FirstPacketEvents(i, fires, step.firstMs, tags);
      var b := ChunkEvents(requestId, i, delta, tags, step);
      LiveStepEvents(st, requestId, tags, step);
      FirstPacketEventsFacts(i, fires, step.firstMs, tags);
      ChunkEventsFacts(requestId, i, delta, tags, step);
      AllWellFormedMeans(b);
      AllWellFormedAppend(a, b);
    }
  }

  // ---------------------------------------------------------------------------
  // The fold
  // ---------------------------------------------------------------------------

  lemma {:induction false} RunSplit(st: State, requestId: string, tags: Tags, steps: seq<Step>)
    requires Shaped(st, |st.finishSent|) && InRange(steps, |st.finishSent|) && |steps| > 0
    ensures InRange(steps[..|steps| - 1], |st.finishSent|)
    ensures var m := |steps| - 1; var prev := Run(st, requestId, tags, steps[..m]);
      && 0 <= steps[m].output.index < |prev.0.finishSent|
      && Run(st, requestId, tags, steps) ==
        (NextState(prev.0, requestId, steps[m]), prev.1 + StepEvents(prev.0, requestId, tags, steps[m]))
  {
  }

  /** After a choice has finished, its entries never change. */
  lemma {:induction false} FinishedChoiceFrozen(st: State, requestId: string, tags: Tags, steps: seq<Step>, i: int)
    requires Shaped(st, |st.finishSent|) && InRange(steps, |st.finishSent|)
    requires 0 <= i < |st.finishSent| && st.finishSent[i]
    ensures SameChoice(st, Run(st, requestId, tags, steps).0, i)
    decreases |steps|
  {
    if |steps| > 0 {
      RunSplit(st, requestId, tags, steps);
      FinishedChoiceFrozen(st, requestId, tags, steps[..|steps| - 1], i);
    }
  }

  /** After a choice has finished, no event concerns it. */
  lemma {:induction false} FinishedChoiceSilent(st: State, requestId: string, tags: Tags, steps: seq<Step>, i: int)
    requires Shaped(st, |st.finishSent|) && InRange(steps, |st.finishSent|)
    requires 0 <= i < |st.finishSent| && st.finishSent[i]
    ensures NoneAbout(i, Run(st, requestId, tags, steps).1)
    decreases |steps|
  {
    if |steps| > 0 {
      var m := |steps| - 1;
      RunSplit(st, requestId, tags, steps);
      FinishedChoiceSilent(st, requestId, tags, steps[..m], i);
      FinishedChoiceFrozen(st, requestId, tags, steps[..m], i);
      var prev := Run(st, requestId, tags, steps[..m]);
      var next := StepEvents(prev.0, requestId, tags, steps[m]);
      assert NoneAbout(i, next);
      NoneAboutAppend(i, prev.1, next);
    }
  }

  /** A finished choice is inert: nothing more is emitted for it and its entries never change. */
  lemma FinishedChoiceInert(st: State, requestId: string, tags: Tags, steps: seq<Step>, i: int)
    requires Shaped(st, |st.finishSent|) && InRange(steps, |st.finishSent|)
    requires 0 <= i < |st.finishSent| && st.finishSent[i]
    ensures var res := Run(st, requestId, tags, steps);
      SameChoice(st, res.0, i) && NoneAbout(i, res.1)
  {
    FinishedChoiceFrozen(st, requestId, tags, steps, i);
    FinishedChoiceSilent(st, requestId, tags, steps, i);
  }

  /** Whatever the starting state, every chunk's usage is consistent and the sentinel is not among the events. */
  lemma {:induction false} RunEventsWellFormed(st: State, requestId: string, tags: Tags, steps: seq<Step>)
    requires Shaped(st, |st.finishSent|) && InRange(steps, |st.finishSent|)
    ensures AllWellFormed(Run(st, requestId, tags, steps).1)
    decreases |steps|
  {
    if |steps| > 0 {
      var m := |steps| - 1;
      RunSplit(st, requestId, tags, steps);
      RunEventsWellFormed(st, requestId, tags, steps[..m]);
      var prev := Run(st, requestId, tags, steps[..m]);
      StepWellFormed(prev.0, requestId, tags, steps[m]);
      AllWellFormedAppend(prev.1, StepEvents(prev.0, requestId, tags, steps[m]));
    }
  }

  /** From a fresh choice, its entries follow the reference definitions. */
  lemma {:induction false} RunStateMatchesReference(st: State, requestId: string, tags: Tags, steps: seq<Step>, i: int)
    requires Shaped(st, |st.finishSent|) && InRange(steps, |st.finishSent|)
    requires 0 <= i < |st.finishSent|
    requires st.prevTexts[i] == "" && !st.finishSent[i] && !st.reportedFirst[i]
    ensures var res := Run(st, requestId, tags, steps);
      && res.0.prevTexts[i] == AcceptedText(i, steps)
      && res.0.finishSent[i] == HasFinished(i, steps)
      && res.0.reportedFirst[i] == HasTokensBeforeFinish(i, steps)
    decreases |steps|
  {
    if |steps| > 0 {
      RunSplit(st, requestId, tags, steps);
      RunStateMatchesReference(st, requestId, tags, steps[..|steps| - 1], i);
    }
  }

  /** From a fresh choice, at most one terminal chunk and at most one first-packet report, as the reference says. */
  lemma {:induction false} RunCountsMatchReference(st: State, requestId: string, tags: Tags, steps: seq<Step>, i: int)
    requires Shaped(st, |st.finishSent|) && InRange(steps, |st.finishSent|)
    requires 0 <= i < |st.finishSent|
    requires st.prevTexts[i] == "" && !st.finishSent[i] && !st.reportedFirst[i]
    ensures var es := Run(st, requestId, tags, steps).1;
      && TerminalCount(i, es) == (if HasFinished(i, steps) then 1 else 0)
      && FirstPacketCount(i, es) == (if HasTokensBeforeFinish(i, steps) then 1 else 0)
    decreases |steps|
  {
    if |steps| > 0 {
      var m := |steps| - 1;
      RunSplit(st, requestId, tags, steps);
      RunCountsMatchReference(st, requestId, tags, steps[..m], i);
      RunStateMatchesReference(st, requestId, tags, steps[..m], i);
      var prev := Run(st, requestId, tags, steps[..m]);
      var next := StepEvents(prev.0, requestId, tags, steps[m]);
      StepCounts(prev.0, requestId, tags, steps[m], i);
      TerminalCountAppend(i, prev.1, next);
      FirstPacketCountAppend(i, prev.1, next);
    }
  }

  /** A terminal chunk, once emitted, is the last chunk of its choice. */
  lemma {:induction false} RunNoChunkAfterTerminal(st: State, requestId: string, tags: Tags, steps: seq<Step>, i: int)
    requires Shaped(st, |st.finishSent|) && InRange(steps, |st.finishSent|)
    requires 0 <= i < |st.finishSent|
    requires st.prevTexts[i] == "" && !st.finishSent[i] && !st.reportedFirst[i]
    ensures NoChunkAfterTerminal(i, Run(st, requestId, tags, steps).1)
    decreases |steps|
  {
    if |steps| > 0 {
      var m := |steps| - 1;
      RunSplit(st, requestId, tags, steps);
      RunNoChunkAfterTerminal(st, requestId, tags, steps[..m], i);
      RunCountsMatchReference(st, requestId, tags, steps[..m], i);
      RunStateMatchesReference(st, requestId, tags, steps[..m], i);
      var prev := Run(st, requestId, tags, steps[..m]);
      var next := StepEvents(prev.0, requestId, tags, steps[m]);
      StepChunkIsLast(prev.0, requestId, tags, steps[m]);
      if TerminalCount(i, prev.1) >= 1 {
        assert prev.0.finishSent[i];
        forall k | 0 <= k < |next|
          ensures !AboutChoice(next[k], i)
        {
          assert AboutChoice(next[k], steps[m].output.index);
        }
      }
      AppendNoChunkAfterTerminal(i, prev.1, next);
    }
  }

  /**
    From a fresh choice, every terminal chunk of it carries the finish reason
    and the usage of the first output of the choice that had a finish reason.
   */
  lemma {:induction false} RunTerminalUsage(st: State, requestId: string, tags: Tags, steps: seq<Step>, i: int)
    requires Shaped(st, |st.finishSent|) && InRange(steps, |st.finishSent|)
    requires 0 <= i < |st.finishSent|
    requires st.prevTexts[i] == "" && !st.finishSent[i] && !st.reportedFirst[i]
    ensures TerminalsFrom(i, Run(st, requestId, tags, steps).1, FirstFinish(i, steps))
    decreases |steps|
  {
    if |steps| > 0 {
      var m := |steps| - 1;
      var pre := steps[..m];
      RunSplit(st, requestId, tags, steps);
      RunStateMatchesReference(st, requestId, tags, pre, i);
      var prev := Run(st, requestId, tags, pre);
      var next := StepEvents(prev.0, requestId, tags, steps[m]);
      var first := FirstFinish(i, steps);
      StepTerminals(prev.0, requestId, tags, steps[m], i);
      if HasFinished(i, pre) {
        assert first == FirstFinish(i, pre);
        assert prev.0.finishSent[i];
        RunTerminalUsage(st, requestId, tags, pre, i);
        TerminalsFromNone(i, next, first);
      } else {
        assert !prev.0.finishSent[i];
        assert first == (if Live(prev.0, steps[m], i) && steps[m].output.finishReason.Some? then Some(steps[m]) else None);
        RunCountsMatchReference(st, requestId, tags, pre, i);
        NoTerminalsFrom(i, prev.1, first);
      }
      TerminalsFromAppend(i, prev.1, next, first);
    }
  }

  /** Some output of choice `i` arrived. */
  predicate SeenChoice(i: int, steps: seq<Step>) {
    exists p :: 0 <= p < |steps| && steps[p].output.index == i
  }

  /**
    A choice that has produced output but never finished keeps its cache
    entry: only a terminal output of the choice clears it.
   */
  lemma {:induction false} UnfinishedKeyRemains(st: State, requestId: string, tags: Tags, steps: seq<Step>, i: int)
    requires Shaped(st, |st.finishSent|) && InRange(steps, |st.finishSent|)
    requires 0 <= i < |st.finishSent|
    requires st.prevTexts[i] == "" && !st.finishSent[i] && !st.reportedFirst[i]
    requires SeenChoice(i, steps) && !HasFinished(i, steps)
    ensures CacheKey(requestId, i) in Run(st, requestId, tags, steps).0.cache.texts
    decreases |steps|
  {
    var m := |steps| - 1;
    var pre := steps[..m];
    var x := steps[m];
    assert !HasFinished(i, pre) && !(x.output.index == i && x.output.finishReason.Some?);
    RunSplit(st, requestId, tags, steps);
    RunStateMatchesReference(st, requestId, tags, pre, i);
    var prev := Run(st, requestId, tags, pre);
    assert !prev.0.finishSent[i];
    if x.output.index != i {
      SeenChoiceDropLast(i, steps);
      UnfinishedKeyRemains(st, requestId, tags, pre, i);
    }
    NextStateKeepsKey(prev.0, requestId, x, i);
  }

  lemma SeenChoiceDropLast(i: int, steps: seq<Step>)
    requires SeenChoice(i, steps) && steps[|steps| - 1].output.index != i
    ensures SeenChoice(i, steps[..|steps| - 1])
  {
    var p :| 0 <= p < |steps| && steps[p].output.index == i;
    assert steps[..|steps| - 1][p] == steps[p];
  }

  /** One output keeps choice `i`'s cache entry, or creates it for a live `i`, unless it finishes `i`. */
  lemma NextStateKeepsKey(st: State, requestId: string, step: Step, i: int)
    requires Shaped(st, |st.finishSent|) && 0 <= step.output.index < |st.finishSent|
    requires 0 <= i < |st.finishSent| && !st.finishSent[i]
    requires step.output.index == i ==> step.output.finishReason.None?
    requires step.output.index != i ==> CacheKey(requestId, i) in st.cache.texts
    ensures CacheKey(requestId, i) in NextState(st, requestId, step).cache.texts
  {
    var j := step.output.index;
    CacheKeyParts(requestId, i);
    CacheKeyParts(requestId, j);
    assert j != i ==> CacheKey(requestId, j) != CacheKey(requestId, i);
  }

  lemma AppendNoChunkAfterTerminal(i: int, p: seq<Event>, q: seq<Event>)
    requires NoChunkAfterTerminal(i, p)
    requires TerminalCount(i, p) >= 1 ==> forall k :: 0 <= k < |q| ==> !AboutChoice(q[k], i)
    requires forall k :: 0 <= k < |q| - 1 ==> !q[k].Chunk?
    ensures NoChunkAfterTerminal(i, p + q)
  {
    var es := p + q;
    forall a, b | 0 <= a < b < |es| && IsTerminal(es[a], i)
      ensures !(es[b].Chunk? && es[b].index == i)
    {
      if b < |p| {
        assert es[a] == p[a] && es[b] == p[b];
      } else if a < |p| {
        assert es[a] == p[a];
        TerminalPositive(i, p, a);
        assert es[b] == q[b - |p|];
      }
    }
  }

  lemma PrefixChainDropLast(i: int, steps: seq<Step>)
    requires |steps| > 0 && PrefixChain(i, steps)
    ensures PrefixChain(i, steps[..|steps| - 1])
  {
    var pre := steps[..|steps| - 1];
    forall p, q | 0 <= p < q < |pre| && pre[p].output.index == i && pre[q].output.index == i
      ensures pre[p].output.text <= pre[q].output.text
    {
      assert pre[p] == steps[p] && pre[q] == steps[q];
    }
  }

  /** Under a prefix chain, the text accepted so far is a prefix of the next output of the choice. */
  lemma AcceptedPrecedesNext(i: int, steps: seq<Step>)
    requires |steps| > 0 && PrefixChain(i, steps) && steps[|steps| - 1].output.index == i
    ensures AcceptedText(i, steps[..|steps| - 1]) <= steps[|steps| - 1].output.text
  {
    var m := |steps| - 1;
    var pre := steps[..m];
    var before := AcceptedText(i, pre);
    AcceptedIsSeen(i, pre);
    if before != "" {
      var p :| 0 <= p < |pre| && pre[p].output.index == i && pre[p].output.text == before;
      assert steps[p] == pre[p];
    }
  }

  /**
    When each output text of choice `i` extends the earlier ones, the deltas
    emitted for `i` join up to exactly the text the choice was last accepted at.
   */
  lemma {:induction false} DeltasReassemble(st: State, requestId: string, tags: Tags, steps: seq<Step>, i: int)
    requires Shaped(st, |st.finishSent|) && InRange(steps, |st.finishSent|)
    requires 0 <= i < |st.finishSent|
    requires st.prevTexts[i] == "" && !st.finishSent[i] && !st.reportedFirst[i]
    requires Valid(st.cache) && PrefixChain(i, steps)
    ensures JoinDeltas(i, Run(st, requestId, tags, steps).1) == AcceptedText(i, steps)
    decreases |steps|
  {
    if |steps| > 0 {
      var m := |steps| - 1;
      var pre := steps[..m];
      RunSplit(st, requestId, tags, steps);
      PrefixChainDropLast(i, steps);
      DeltasReassemble(st, requestId, tags, pre, i);
      RunStateMatchesReference(st, requestId, tags, pre, i);
      var prev := Run(st, requestId, tags, pre);
      var next := StepEvents(prev.0, requestId, tags, steps[m]);
      StepCounts(prev.0, requestId, tags, steps[m], i);
      CountsAppend(i, prev.1, next);
      if steps[m].output.index == i && !prev.0.finishSent[i] {
        AcceptedPrecedesNext(i, steps);
        PrefixThenSlice(AcceptedText(i, pre), steps[m].output.text);
      }
    }
  }

  // ---------------------------------------------------------------------------
  // The whole response
  // ---------------------------------------------------------------------------

  /** Appending the sentinel keeps every per-choice fact and makes the sentinel the only one, last. */
  lemma AppendSentinel(i: int, es: seq<Event>)
    requires AllWellFormed(es) && NoChunkAfterTerminal(i, es)
    ensures var all := es + [Done];
      && all[|all| - 1] == Done
      && (forall k :: 0 <= k < |all| - 1 ==> !all[k].Done?)
      && TerminalCount(i, all) == TerminalCount(i, es)
      && FirstPacketCount(i, all) == FirstPacketCount(i, es)
      && JoinDeltas(i, all) == JoinDeltas(i, es)
      && NoChunkAfterTerminal(i, all)
      && UsageConsistent(all)
  {
    var all := es + [Done];
    CountsAppend(i, es, [Done]);
    CountsOfNone(i, [Done]);
    forall k | 0 <= k < |all| - 1
      ensures all[k] == es[k]
    {
    }
    AllWellFormedMeans(es);
  }

  /**
    The streamed response of a request with `n` choices: per choice at most one
    terminal chunk (exactly when some output of it finished), carrying the
    finish reason and usage of the first output that finished, at most one
    first-packet report, no chunk after the terminal one, consistent usage, and
    the deltas reassembling the choice's text; and one sentinel, last.
   */
  lemma StreamGuarantees(n: nat, requestId: string, tags: Tags, snaps: seq<Snapshot>, clock: Clock,
                         cache: Cache, i: int)
    requires ChoicesInRange(snaps, n)
    requires 0 <= i < n
    ensures var es := Stream(n, requestId, tags, snaps, clock, cache).0;
      var steps := Steps(snaps, clock);
      && es[|es| - 1] == Done
      && (forall k :: 0 <= k < |es| - 1 ==> !es[k].Done?)
      && TerminalCount(i, es) == (if HasFinished(i, steps) then 1 else 0)
      && FirstPacketCount(i, es) == (if HasTokensBeforeFinish(i, steps) then 1 else 0)
      && NoChunkAfterTerminal(i, es)
      && UsageConsistent(es)
      && TerminalsFrom(i, es, FirstFinish(i, steps))
      && (Valid(cache) && PrefixChain(i, steps) ==> JoinDeltas(i, es) == AcceptedText(i, steps))
      && (Valid(cache) ==> Valid(Stream(n, requestId, tags, snaps, clock, cache).1))
  {
    StepsInRange(snaps, clock, n);
    var steps := Steps(snaps, clock);
    var init := Init(n, cache);
    var r := Run(init, requestId, tags, steps);
    var es := r.1 + [Done];
    RunEventsWellFormed(init, requestId, tags, steps);
    RunCountsMatchReference(init, requestId, tags, steps, i);
    RunNoChunkAfterTerminal(init, requestId, tags, steps, i);
    AppendSentinel(i, r.1);
    RunTerminalUsage(init, requestId, tags, steps, i);
    TerminalsFromAppend(i, r.1, [Done], FirstFinish(i, steps));
    if Valid(cache) && PrefixChain(i, steps) {
      DeltasReassemble(init, requestId, tags, steps, i);
    }
  }
}
