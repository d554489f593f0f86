/**
 Properties of the Anthropic gateway over every event sequence: the tool bookkeeping never breaks,
 and the emitted events add up to the response.
 */
module AnthropicProperties {
  import opened Prelude
  import opened Text
  import opened Json
  import opened ModelTypes
  import opened StructuredText
  import opened AnthropicStream
  import Sse

  ghost function Run(t: Trace, events: seq<Event>): Trace
    decreases |events|
  {
    if events == [] then t else Run(Apply(t, events[0]), events[1..])
  }

  // ---- Tool ordinals over every event sequence ----

  function ToolStarts(events: seq<Event>): nat {
    if events == [] then 0 else (if events[0].ToolStart? then 1 else 0) + ToolStarts(events[1..])
  }

  /** One step adds an ordinal for a tool start and otherwise keeps the set of ordinals. */
  lemma ApplyCounts(t: Trace, e: Event)
    ensures |Apply(t, e).state.toolCalls| == |t.state.toolCalls| + if e.ToolStart? then 1 else 0
  {
  }

  lemma {:induction false} RunCounts(t: Trace, events: seq<Event>)
    ensures |Run(t, events).state.toolCalls| == |t.state.toolCalls| + ToolStarts(events)
    decreases |events|
  {
    hide Apply;
    if events == [] {
    } else {
      ApplyCounts(t, events[0]);
      RunCounts(Apply(t, events[0]), events[1..]);
    }
  }

  /**
   Over every event sequence the ordinals are exactly 0 .. n-1 for n tool starts, each call is
   stored under its own index, and every block leads to a stored call, so the lookup cannot fail.
   */
  lemma OrdinalsDense(events: seq<Event>)
    ensures var s := Run(INITIAL, events).state;
      && (forall k :: k in s.toolCalls <==> 0 <= k < ToolStarts(events))
      && (forall k | k in s.toolCalls :: s.toolCalls[k].index == k)
      && (forall b | b in s.blockToTool :: s.blockToTool[b] in s.toolCalls)
  {
    RunCounts(INITIAL, events);
  }

  // ---- Events against state ----

  ghost predicate Sound(t: Trace) {
    && AddsUpTo(t.events, t.state.content, t.state.reasoning, t.state.Calls())
    && OnlyDeltas(t.events)
  }

  lemma CallsAt(s: State, k: nat)
    requires s.Valid()
    ensures Ordered(s.Calls())
    ensures CallAt(s.Calls(), k) == if k in s.toolCalls then Some(s.toolCalls[k]) else None
  {
    hide CallAt;
    CallAtIn(s.Calls(), k);
    if k in s.toolCalls {
      CallAtIndex(s.Calls(), k);
    }
  }

  /** The call that a tool delta leaves behind. */
  function Merged(calls: map<nat, ToolCall>, d: StreamEvent): ToolCall
    requires d.ToolCallDelta?
  {
    var known := d.index in calls;
    ToolCall(
      d.index,
      d.id,
      if d.name.Some? then d.name.value else if known then calls[d.index].name else "",
      (if known then calls[d.index].arguments else "") + d.argumentsDelta)
  }

  lemma ToolDeltaSound(t: Trace, t': Trace, e: StreamEvent, k: nat)
    requires Sound(t) && t'.events == t.events + [e] && e.ToolCallDelta?
    requires t'.state.toolCalls == t.state.toolCalls[e.index := Merged(t.state.toolCalls, e)]
    requires t'.state.content == t.state.content && t'.state.reasoning == t.state.reasoning
    ensures CallOf(t'.events, k) == CallAt(t'.state.Calls(), k)
    ensures ContentOf(t'.events) == t'.state.content && ReasoningOf(t'.events) == t'.state.reasoning
  {
    hide CallAt, State.Calls, State.Valid, CallOf, ContentOf, ReasoningOf;
    Appended(t.events, e, k);
    CallsAt(t.state, k);
    CallsAt(t'.state, k);
    assert CallOf(t.events, k) == CallAt(t.state.Calls(), k);
  }

  lemma ApplySound(t: Trace, e: Event)
    requires Sound(t)
    ensures Sound(Apply(t, e))
  {
    hide Sound, Apply, State.Valid;
    if e.ToolStart? || (e.InputDelta? && e.block in t.state.blockToTool) {
      ToolSound(t, e);
    } else if e.TextDelta? || e.ThinkingDelta? {
      TextSound(t, e);
    } else {
      QuietSound(t, e);
    }
  }

  lemma ToolSound(t: Trace, e: Event)
    requires Sound(t)
    requires e.ToolStart? || (e.InputDelta? && e.block in t.state.blockToTool)
    ensures Sound(Apply(t, e))
  {
    hide CallAt, State.Calls, State.Valid, CallOf, ContentOf, ReasoningOf, OnlyDeltas, Apply;
    var t' := Apply(t, e);
    ToolEmission(t, e);
    var emitted := t'.events[|t.events|];
    CallsAt(t'.state, 0);
    forall k: nat
      ensures CallOf(t'.events, k) == CallAt(t'.state.Calls(), k)
    {
      ToolDeltaSound(t, t', emitted, k);
    }
    ToolDeltaSound(t, t', emitted, 0);
    OneMoreDelta(t.events, emitted);
  }

  lemma OneMoreDelta(events: seq<StreamEvent>, e: StreamEvent)
    requires OnlyDeltas(events) && !e.UsageReport? && !e.Done?
    ensures OnlyDeltas(events + [e])
  {
  }

  lemma TextSound(t: Trace, e: Event)
    requires Sound(t) && (e.TextDelta? || e.ThinkingDelta?)
    ensures Sound(Apply(t, e))
  {
    hide Sound, State.Valid;
    var content, reasoning := t.state.content, t.state.reasoning;
    assert content + "" == content && reasoning + "" == reasoning;
    TextEmission(t, Apply(t, e), if e.TextDelta? then ContentDelta(e.text) else ReasoningDelta(e.thinking));
  }

  lemma QuietSound(t: Trace, e: Event)
    requires Sound(t)
    requires !e.ToolStart? && !e.TextDelta? && !e.ThinkingDelta?
    requires e.InputDelta? ==> e.block !in t.state.blockToTool
    ensures Sound(Apply(t, e))
  {
    hide State.Valid, State.Calls, AddsUpTo, OnlyDeltas;
    SameCalls(t.state, Apply(t, e).state);
  }

  lemma SameCalls(s: State, s': State)
    requires s.Valid() && s'.Valid() && s.toolCalls == s'.toolCalls
    ensures s.Calls() == s'.Calls()
  {
  }

  lemma ToolEmission(t: Trace, e: Event)
    requires e.ToolStart? || (e.InputDelta? && e.block in t.state.blockToTool)
    ensures var t' := Apply(t, e);
      && t'.events == t.events + [t'.events[|t.events|]]
      && var d := t'.events[|t.events|];
      && d.ToolCallDelta?
      && t'.state.content == t.state.content && t'.state.reasoning == t.state.reasoning
      && t'.state.toolCalls == t.state.toolCalls[d.index := Merged(t.state.toolCalls, d)]
  {
    if e.ToolStart? {
      assert |t.state.toolCalls| !in t.state.toolCalls;
      assert "" + "" == "";
    }
  }

  lemma TextEmission(t: Trace, t': Trace, e: StreamEvent)
    requires Sound(t) && t'.events == t.events + [e]
    requires e.ContentDelta? || e.ReasoningDelta?
    requires t'.state.toolCalls == t.state.toolCalls
    requires t'.state.content == t.state.content + ContentStep(e)
    requires t'.state.reasoning == t.state.reasoning + ReasoningStep(e)
    ensures Sound(t')
  {
  }

  lemma {:induction false} ConsumeSound(st: Sse.Status<Trace>, events: seq<string>, parse: Parser)
    requires Sound(st.state)
    ensures Sound(Sse.Consume(st, events, Handle(parse)).state)
    decreases |events|
  {
    hide Sse.Data, Sound, Apply, Decode;
    if events == [] {
    } else {
      var next := Sse.HandleEvent(st, events[0], Handle(parse));
      var data := Sse.Data(events[0]);
      if st.Running? && data.Some? && parse(data.value).Ok? {
        ApplySound(st.state, Decode(parse(data.value).value));
      }
      ConsumeSound(next, events[1..], parse);
    }
  }

  /** The emitted events reconstruct the response; a failed stream has reported neither usage nor its end. */
  lemma StreamReconstructs(chunks: seq<string>, hasSchema: bool, format: ResponseFormat, parse: Parser)
    ensures var (r, events) := StreamOutcome(chunks, hasSchema, format, parse);
      match r
      case Ok(response) =>
        && AddsUpTo(events, response.content, OrElse(response.reasoningContent, ""), response.toolCalls)
        && WellClosed(events, response)
      case Err(_) => OnlyDeltas(events)
  {
    hide Sse.Feed, Sse.Consume, Sse.ReadChunks, Handle, Sound, Finish;
    var start := Sse.Running(INITIAL);
    StartSound();
    Sse.ReadChunksFeeds(start, "", chunks, Handle(parse));
    ConsumeSound(start, Sse.Feed("", chunks).list, parse);
    ConcludeSound(Sse.ReadChunks(start, "", chunks, Handle(parse)), StreamIsStructured(hasSchema, format), parse);
  }

  lemma ConcludeSound(st: Sse.Status<Trace>, structured: bool, parse: Parser)
    requires Sound(st.state)
    ensures var (r, events) := Conclude(st, structured, parse);
      match r
      case Ok(response) =>
        && AddsUpTo(events, response.content, OrElse(response.reasoningContent, ""), response.toolCalls)
        && WellClosed(events, response)
      case Err(_) => OnlyDeltas(events)
  {
    hide State.Valid, State.Calls, CallAt, Ordered, CallOf, ContentOf, ReasoningOf, OnlyDeltas, WellClosed, Closing,
      StructuredValue, Trim;
    if st.Stopped? && Finish(st.state.state, structured, parse).Ok? {
      ClosedWell(st.state.events, Finish(st.state.state, structured, parse).value);
    }
  }

  lemma StartSound()
    ensures Sound(INITIAL)
  {
  }
}
