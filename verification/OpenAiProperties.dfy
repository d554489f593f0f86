/**
 Properties of the OpenAI-compatible stream: its events add up to its response, however the text
 was cut, and the replay used when streaming is not available emits events that add up as well.
 */
module OpenAiProperties {
  import opened Prelude
  import opened Json
  import opened ModelTypes
  import opened StructuredText
  import opened OpenAiStream
  import Sse

  /** The events emitted so far add up to the aggregate. */
  ghost predicate Sound(t: Trace) {
    && AddsUpTo(t.events, t.agg.content, t.agg.reasoning, t.agg.toolCalls)
    && OnlyDeltas(t.events)
  }

  lemma ApplyToolSound(t: Trace, d: ToolDelta)
    requires Sound(t)
    ensures Sound(ApplyTool(t, d))
  {
    hide CallAt, Put, Ordered, CallOf, ContentOf, ReasoningOf;
    var calls := t.agg.toolCalls;
    var call := MergeTool(calls, d);
    CallAtIn(calls, d.index);
    PutOrdered(calls, call);
    var t' := ApplyTool(t, d);
    var e := ToolCallDelta(d.index, call.id, d.name, d.arguments);
    forall k: nat
      ensures CallOf(t'.events, k) == CallAt(t'.agg.toolCalls, k)
    {
      Appended(t.events, e, k);
      CallAtPut(calls, call, k);
      assert CallOf(t.events, k) == CallAt(calls, k);
    }
    Appended(t.events, e, 0);
  }

  lemma {:induction false} ApplyToolsSound(t: Trace, tools: seq<ToolDelta>)
    requires Sound(t)
    ensures Sound(ApplyTools(t, tools))
  {
    hide ApplyTool, Sound;
    if tools == [] {
    } else {
      ApplyToolsSound(t, tools[..|tools| - 1]);
      ApplyToolSound(ApplyTools(t, tools[..|tools| - 1]), tools[|tools| - 1]);
    }
  }

  /** A content or reasoning delta that is also appended to the aggregate. */
  lemma TextSound(t: Trace, t': Trace, e: StreamEvent)
    requires Sound(t) && (e.ContentDelta? || e.ReasoningDelta?) && t'.events == t.events + [e]
    requires t'.agg.content == t.agg.content + ContentStep(e)
    requires t'.agg.reasoning == t.agg.reasoning + ReasoningStep(e)
    requires t'.agg.toolCalls == t.agg.toolCalls
    ensures Sound(t')
  {
  }

  lemma ApplySound(t: Trace, c: Chunk)
    requires Sound(t)
    ensures Sound(Apply(t, c))
  {
    hide ApplyTools, Sound;
    var t1 := ApplyReasoning(t, c.reasoning);
    if c.reasoning.Some? {
      assert t.agg.content + "" == t.agg.content;
      TextSound(t, t1, ReasoningDelta(c.reasoning.value));
    }
    var t2 := ApplyContent(t1, c.content);
    if c.content.Some? {
      assert t1.agg.reasoning + "" == t1.agg.reasoning;
      TextSound(t1, t2, ContentDelta(c.content.value));
    }
    ApplyToolsSound(t2, c.tools);
    EndSound(ApplyTools(t2, c.tools), c.finishReason, c.usage);
  }

  lemma EndSound(t: Trace, finishReason: Option<string>, usage: Option<Usage>)
    requires Sound(t)
    ensures Sound(ApplyEnd(t, finishReason, usage))
  {
  }

  lemma {:induction false} ConsumeSound(st: Sse.Status<Trace>, events: seq<string>, parse: Parser)
    requires Sound(st.state)
    ensures Sound(Sse.Consume(st, events, Handle(parse)).state)
    decreases |events|
  {
    hide Sse.Data, Sound, Apply, Decode;
    if events == [] {
    } else {
      var next := Sse.HandleEvent(st, events[0], Handle(parse));
      var data := Sse.Data(events[0]);
      if st.Running? && data.Some? && data.value != "[DONE]" && parse(data.value).Ok? {
        ApplySound(st.state, Decode(parse(data.value).value));
      }
      ConsumeSound(next, events[1..], parse);
    }
  }

  /**
   The emitted events reconstruct the response: deltas concatenate to content and reasoning, the
   deltas of each index add up to the tool calls, `Done` comes last and once, after at most one
   usage report. A failed stream has emitted neither.
   */
  lemma StreamReconstructs(chunks: seq<string>, structured: bool, parse: Parser)
    ensures var (r, events) := StreamOutcome(chunks, structured, parse);
      match r
      case Ok(response) =>
        && AddsUpTo(events, response.content, OrElse(response.reasoningContent, ""), response.toolCalls)
        && WellClosed(events, response)
      case Err(_) => OnlyDeltas(events)
  {
    hide Sse.Feed, Sse.Consume, Sse.ReadChunks, Handle, Sound, Finish;
    var start := Sse.Running(Trace(EMPTY, []));
    StartSound();
    Sse.ReadChunksFeeds(start, "", chunks, Handle(parse));
    ConsumeSound(start, Sse.Feed("", chunks).list, parse);
    ConcludeSound(Sse.ReadChunks(start, "", chunks, Handle(parse)), structured, parse);
  }

  lemma StartSound()
    ensures Sound(Trace(EMPTY, []))
  {
  }

  lemma ConcludeSound(st: Sse.Status<Trace>, structured: bool, parse: Parser)
    requires Sound(st.state)
    ensures var (r, events) := Conclude(st, structured, parse);
      match r
      case Ok(response) =>
        && AddsUpTo(events, response.content, OrElse(response.reasoningContent, ""), response.toolCalls)
        && WellClosed(events, response)
      case Err(_) => OnlyDeltas(events)
  {
    hide CallAt, Ordered, CallOf, ContentOf, ReasoningOf, OnlyDeltas, WellClosed, Closing, StructuredValue;
    if st.Stopped? && Finish(st.state.agg, structured, parse).Ok? {
      ClosedWell(st.state.events, Finish(st.state.agg, structured, parse).value);
    }
  }

  /** For tidy text, result and events do not depend on the chunks: one pass gives the same. */
  lemma StreamIgnoresChunks(chunks: seq<string>, structured: bool, parse: Parser)
    requires Sse.Tidy(Sse.Concat(chunks))
    ensures StreamOutcome(chunks, structured, parse) ==
      Conclude(Sse.Consume(Sse.Running(Trace(EMPTY, [])), Sse.Split(Sse.Concat(chunks)).list, Handle(parse)),
        structured, parse)
  {
    Sse.ReadingIgnoresChunks(Sse.Running(Trace(EMPTY, [])), chunks, Handle(parse));
  }

  // ---- Replaying a complete response as events ----

  function CallEvent(call: ToolCall): StreamEvent {
    ToolCallDelta(call.index, call.id, Some(call.name), call.arguments)
  }

  function CallEvents(calls: seq<ToolCall>): seq<StreamEvent> {
    seq(|calls|, i requires 0 <= i < |calls| => CallEvent(calls[i]))
  }

  function OpeningContent(r: Response): seq<StreamEvent> {
    if r.content != "" then [ContentDelta(r.content)] else []
  }

  function Opening(r: Response): seq<StreamEvent> {
    OpeningContent(r) + (if r.reasoningContent.Some? then [ReasoningDelta(r.reasoningContent.value)] else [])
  }

  function FallbackEvents(r: Response): seq<StreamEvent> {
    Opening(r) + CallEvents(r.toolCalls) + Closing(r)
  }

  method EmitFallbackStream(response: Response, sink: EventSink) returns (r: Result<Response, ModelError>)
    requires sink.events == []
    modifies sink
    ensures r == Ok(response) && sink.events == FallbackEvents(response)
  {
    if response.content != "" {
      sink.Emit(ContentDelta(response.content));
    }
    if response.reasoningContent.Some? {
      sink.Emit(ReasoningDelta(response.reasoningContent.value));
    }
    assert sink.events == Opening(response);
    for n := 0 to |response.toolCalls|
      invariant sink.events == Opening(response) + CallEvents(response.toolCalls[..n])
    {
      sink.Emit(CallEvent(response.toolCalls[n]));
      assert CallEvents(response.toolCalls[..n + 1])
        == CallEvents(response.toolCalls[..n]) + [CallEvent(response.toolCalls[n])];
    }
    assert response.toolCalls[..|response.toolCalls|] == response.toolCalls;
    if response.usage.totalTokens > 0 {
      sink.Emit(UsageReport(response.usage));
    }
    sink.Emit(Done(Some(response.finishReason)));
    assert sink.events == FallbackEvents(response);
    return Ok(response);
  }

  /** What the replayed calls of index `k` add up to: the last id and name, all arguments in order. */
  function Replayed(calls: seq<ToolCall>, k: nat): Option<ToolCall> {
    if calls == [] then None
    else
      var before, last := Replayed(calls[..|calls| - 1], k), calls[|calls| - 1];
      if last.index == k then Some(last.(arguments := ArgumentsOf(before) + last.arguments)) else before
  }

  function ArgumentsOf(call: Option<ToolCall>): string {
    if call.Some? then call.value.arguments else ""
  }

  lemma {:induction false} CallEventsSums(prefix: seq<StreamEvent>, calls: seq<ToolCall>, k: nat)
    requires OnlyDeltas(prefix) && CallOf(prefix, k) == None
    ensures OnlyDeltas(prefix + CallEvents(calls))
    ensures ContentOf(prefix + CallEvents(calls)) == ContentOf(prefix)
    ensures ReasoningOf(prefix + CallEvents(calls)) == ReasoningOf(prefix)
    ensures CallOf(prefix + CallEvents(calls), k) == Replayed(calls, k)
    decreases |calls|
  {
    hide ContentOf, ReasoningOf, CallOf;
    if calls == [] {
      assert prefix + CallEvents(calls) == prefix;
    } else {
      var n := |calls| - 1;
      CallEventsSums(prefix, calls[..n], k);
      var before := prefix + CallEvents(calls[..n]);
      assert prefix + CallEvents(calls) == before + [CallEvent(calls[n])];
      Appended(before, CallEvent(calls[n]), k);
      assert "" + calls[n].arguments == calls[n].arguments;
    }
  }

  lemma OpeningContentSums(r: Response, k: nat)
    ensures var events := OpeningContent(r);
      OnlyDeltas(events) && ContentOf(events) == r.content && ReasoningOf(events) == "" && CallOf(events, k) == None
  {
    if r.content != "" {
      Appended([], ContentDelta(r.content), k);
      assert [] + [ContentDelta(r.content)] == [ContentDelta(r.content)];
    }
  }

  lemma OpeningSums(r: Response, k: nat)
    ensures OnlyDeltas(Opening(r)) && CallOf(Opening(r), k) == None
    ensures ContentOf(Opening(r)) == r.content && ReasoningOf(Opening(r)) == OrElse(r.reasoningContent, "")
  {
    hide ContentOf, ReasoningOf, CallOf;
    var content := OpeningContent(r);
    OpeningContentSums(r, k);
    if r.reasoningContent.Some? {
      var e := ReasoningDelta(r.reasoningContent.value);
      Appended(content, e, k);
      assert Opening(r) == content + [e];
      assert r.content + "" == r.content && "" + e.delta == e.delta;
    } else {
      assert Opening(r) == content;
    }
  }

  /** Calls that share an index are one call repeated, and one without arguments. */
  predicate IndicesCarryOneCall(calls: seq<ToolCall>) {
    forall i, j | 0 <= i < |calls| && 0 <= j < |calls| && i != j && calls[i].index == calls[j].index ::
      calls[i] == calls[j] && calls[i].arguments == ""
  }

  lemma {:induction false} ReplayedHas(calls: seq<ToolCall>, i: nat)
    requires i < |calls|
    ensures |ArgumentsOf(Replayed(calls, calls[i].index))| >= |calls[i].arguments|
  {
    if i < |calls| - 1 {
      ReplayedHas(calls[..|calls| - 1], i);
    }
  }

  /** Calls of one index pool their arguments. */
  lemma {:induction false} ReplayedApart(calls: seq<ToolCall>, i: nat, j: nat)
    requires i < j < |calls| && calls[i].index == calls[j].index
    ensures |ArgumentsOf(Replayed(calls, calls[i].index))| >= |calls[i].arguments| + |calls[j].arguments|
  {
    var n := |calls| - 1;
    if j < n {
      ReplayedApart(calls[..n], i, j);
    } else {
      ReplayedHas(calls[..n], i);
    }
  }

  lemma {:induction false} ReplayedIn(calls: seq<ToolCall>, k: nat)
    ensures Replayed(calls, k).None? ==> forall c | c in calls :: c.index != k
    ensures Replayed(calls, k).Some? ==> exists c :: c in calls && c.index == k
    ensures (forall c | c in calls && c.index == k :: c.arguments == "") ==> ArgumentsOf(Replayed(calls, k)) == ""
  {
    if calls == [] {
    } else {
      var n := |calls| - 1;
      ReplayedIn(calls[..n], k);
      assert calls == calls[..n] + [calls[n]];
      assert calls[n] in calls;
    }
  }

  lemma {:induction false} ReplayedIs(calls: seq<ToolCall>, i: nat)
    requires IndicesCarryOneCall(calls) && i < |calls|
    ensures Replayed(calls, calls[i].index) == Some(calls[i])
  {
    var n := |calls| - 1;
    var before, k := calls[..n], calls[i].index;
    if i < n {
      ReplayedIs(before, i);
      assert calls[n].index == k ==> calls[i] == calls[n] && calls[i].arguments + "" == calls[i].arguments;
    } else {
      forall c | c in before && c.index == k
        ensures c.arguments == ""
      {
        var j :| 0 <= j < n && before[j] == c;
        assert calls[j].index == calls[n].index;
      }
      ReplayedIn(before, k);
      assert "" + calls[n].arguments == calls[n].arguments;
    }
  }

  /**
   The replay always gives back content and reasoning and closes well. It gives back every tool call
   if and only if calls that share an index are one call repeated and have no arguments.
   */
  lemma FallbackReconstructs(r: Response)
    ensures WellClosed(FallbackEvents(r), r)
    ensures ContentOf(FallbackEvents(r)) == r.content
    ensures ReasoningOf(FallbackEvents(r)) == OrElse(r.reasoningContent, "")
    ensures (forall c | c in r.toolCalls :: CallOf(FallbackEvents(r), c.index) == Some(c))
       <==> IndicesCarryOneCall(r.toolCalls)
    ensures forall e | e in FallbackEvents(r) && e.ContentDelta? :: e.delta != ""
  {
    hide CallOf, ContentOf, ReasoningOf, FallbackEvents, Replayed, IndicesCarryOneCall;
    var calls := r.toolCalls;
    NoEmptyContent(r);
    FallbackSums(r, 0);
    forall c | c in calls
      ensures CallOf(FallbackEvents(r), c.index) == Replayed(calls, c.index)
    {
      FallbackSums(r, c.index);
    }
    if IndicesCarryOneCall(calls) {
      forall c | c in calls
        ensures Replayed(calls, c.index) == Some(c)
      {
        var i :| 0 <= i < |calls| && calls[i] == c;
        ReplayedIs(calls, i);
      }
    }
    if forall c | c in calls :: Replayed(calls, c.index) == Some(c) {
      AllGivenBack(calls);
    }
  }

  lemma NoEmptyContent(r: Response)
    ensures forall e | e in FallbackEvents(r) && e.ContentDelta? :: e.delta != ""
  {
  }

  lemma AllGivenBack(calls: seq<ToolCall>)
    requires forall c | c in calls :: Replayed(calls, c.index) == Some(c)
    ensures IndicesCarryOneCall(calls)
  {
    hide Replayed;
    forall i, j | 0 <= i < |calls| && 0 <= j < |calls| && i != j && calls[i].index == calls[j].index
      ensures calls[i] == calls[j] && calls[i].arguments == ""
    {
      assert calls[i] in calls && calls[j] in calls;
      ReplayedApart(calls, if i < j then i else j, if i < j then j else i);
    }
  }

  /** Without tool calls the replay reconstructs all of the response. */
  lemma ReplayedWithoutTools(r: Response)
    requires r.toolCalls == []
    ensures AddsUpTo(FallbackEvents(r), r.content, OrElse(r.reasoningContent, ""), r.toolCalls)
    ensures WellClosed(FallbackEvents(r), r)
  {
    hide CallOf, ContentOf, ReasoningOf, FallbackEvents, WellClosed;
    forall k: nat
      ensures CallOf(FallbackEvents(r), k) == None
    {
      FallbackSums(r, k);
    }
    FallbackSums(r, 0);
  }

  /** The response of the mock's `chat`, as mock routing passes it on. */
  function MockChat(content: string, usage: Usage): Response {
    Response(content, None, usage, "stop", None, [])
  }

  /** The response that mock routing gives for a structured request. */
  function MockStructured(json: Json, usage: Usage): Response {
    Response(Print(json), Some(json), usage, "stop", None, [])
  }

  /** The responses that reach the replay, by way of `chat` or of `structured`. */
  function MockResponse(content: string, structured: Option<Json>, usage: Usage): Response {
    if structured.Some? then MockStructured(structured.value, usage) else MockChat(content, usage)
  }

  /** At its only call site the replay reconstructs all of the response. */
  lemma MockReplayReconstructs(content: string, structured: Option<Json>, usage: Usage)
    ensures var r := MockResponse(content, structured, usage);
      && r.content == (if structured.Some? then Print(structured.value) else content)
      && r.json == structured && r.usage == usage && r.finishReason == "stop"
      && AddsUpTo(FallbackEvents(r), r.content, "", [])
      && WellClosed(FallbackEvents(r), r)
  {
    hide FallbackEvents, AddsUpTo, WellClosed, Print;
    ReplayedWithoutTools(MockResponse(content, structured, usage));
  }

  /** Content, reasoning, tool calls, usage, end. */
  function Rank(e: StreamEvent): nat {
    match e
    case ContentDelta(_) => 0
    case ReasoningDelta(_) => 1
    case ToolCallDelta(_, _, _, _) => 2
    case UsageReport(_) => 3
    case Done(_) => 4
  }

  /** The replay tells the parts of the response in this order. */
  lemma ReplayInOrder(r: Response)
    ensures forall i, j | 0 <= i < j < |FallbackEvents(r)| ::
      Rank(FallbackEvents(r)[i]) <= Rank(FallbackEvents(r)[j])
  {
    RanksRise(Opening(r), CallEvents(r.toolCalls), Closing(r));
  }

  lemma RanksRise(a: seq<StreamEvent>, b: seq<StreamEvent>, c: seq<StreamEvent>)
    requires forall i, j | 0 <= i < j < |a| :: Rank(a[i]) <= Rank(a[j])
    requires forall i | 0 <= i < |a| :: Rank(a[i]) <= 1
    requires forall i | 0 <= i < |b| :: Rank(b[i]) == 2
    requires forall i, j | 0 <= i < j < |c| :: Rank(c[i]) <= Rank(c[j])
    requires forall i | 0 <= i < |c| :: Rank(c[i]) >= 3
    ensures var all := a + b + c; forall i, j | 0 <= i < j < |all| :: Rank(all[i]) <= Rank(all[j])
  {
    hide Rank;
    var all := a + b + c;
    forall i, j | 0 <= i < j < |all|
      ensures Rank(all[i]) <= Rank(all[j])
    {
      assert all[i] == if i < |a| then a[i] else if i < |a| + |b| then b[i - |a|] else c[i - |a| - |b|];
      assert all[j] == if j < |a| then a[j] else if j < |a| + |b| then b[j - |a|] else c[j - |a| - |b|];
    }
  }

  lemma FallbackSums(r: Response, k: nat)
    ensures WellClosed(FallbackEvents(r), r)
    ensures ContentOf(FallbackEvents(r)) == r.content
    ensures ReasoningOf(FallbackEvents(r)) == OrElse(r.reasoningContent, "")
    ensures CallOf(FallbackEvents(r), k) == Replayed(r.toolCalls, k)
  {
    hide CallOf, ContentOf, ReasoningOf, Opening, Closing, CallEvents, OnlyDeltas, WellClosed, Replayed;
    OpeningSums(r, k);
    CallEventsSums(Opening(r), r.toolCalls, k);
    ClosedWell(Opening(r) + CallEvents(r.toolCalls), r);
  }
}
