/** Types of the model gateway (crates/coevo-models/src/types.rs) and what a list of stream events adds up to. */
module ModelTypes {
  import opened Prelude
  import opened Json

  datatype Usage = Usage(promptTokens: nat, completionTokens: nat, totalTokens: nat)

  const NO_USAGE := Usage(0, 0, 0)

  datatype ToolCall = ToolCall(index: nat, id: Option<string>, name: string, arguments: string)

  datatype StreamEvent =
    | ContentDelta(delta: string)
    | ReasoningDelta(delta: string)
    | ToolCallDelta(index: nat, id: Option<string>, name: Option<string>, argumentsDelta: string)
    | UsageReport(usage: Usage)
    | Done(finishReason: Option<string>)

  /** The fields of `ModelResponse` that depend on what the provider sent. */
  datatype Response = Response(
    content: string,
    json: Option<Json>,
    usage: Usage,
    finishReason: string,
    reasoningContent: Option<string>,
    toolCalls: seq<ToolCall>)

  /** `ModelRequest::response_format` */
  datatype ResponseFormat = TextFormat | JsonFormat

  datatype ModelError = InvalidResponse(message: string) | JsonSchemaViolation(message: string)

  /** Receives the events a gateway emits; it accepts every one. */
  class EventSink {
    var events: seq<StreamEvent>

    constructor ()
      ensures events == []
    {
      events := [];
    }

    method Emit(e: StreamEvent)
      modifies this
      ensures events == old(events) + [e]
    {
      events := events + [e];
    }
  }

  // ---- `BTreeMap<usize, ModelToolCall>`, kept in key order ----

  predicate Ordered(calls: seq<ToolCall>) {
    forall i, j | 0 <= i < j < |calls| :: calls[i].index < calls[j].index
  }

  function CallAt(calls: seq<ToolCall>, k: nat): Option<ToolCall> {
    if calls == [] then None
    else if calls[0].index == k then Some(calls[0])
    else CallAt(calls[1..], k)
  }

  function Put(calls: seq<ToolCall>, c: ToolCall): seq<ToolCall> {
    if calls == [] then [c]
    else if calls[0].index == c.index then [c] + calls[1..]
    else if c.index < calls[0].index then [c] + calls
    else [calls[0]] + Put(calls[1..], c)
  }

  lemma {:induction false} PutOrdered(calls: seq<ToolCall>, c: ToolCall)
    requires Ordered(calls)
    ensures Ordered(Put(calls, c)) && Put(calls, c) != []
    ensures forall i | 0 <= i < |Put(calls, c)| :: Put(calls, c)[i] == c || Put(calls, c)[i] in calls
  {
    if calls != [] && calls[0].index < c.index {
      PutOrdered(calls[1..], c);
    }
  }

  lemma {:induction false} CallAtPut(calls: seq<ToolCall>, c: ToolCall, k: nat)
    ensures CallAt(Put(calls, c), k) == if k == c.index then Some(c) else CallAt(calls, k)
  {
    if calls != [] && calls[0].index < c.index {
      CallAtPut(calls[1..], c, k);
      assert Put(calls, c)[1..] == Put(calls[1..], c);
    }
  }

  lemma {:induction false} CallAtIndex(calls: seq<ToolCall>, i: nat)
    requires Ordered(calls) && i < |calls|
    ensures CallAt(calls, calls[i].index) == Some(calls[i])
  {
    if i > 0 {
      CallAtIndex(calls[1..], i - 1);
    }
  }

  lemma {:induction false} CallAtIn(calls: seq<ToolCall>, k: nat)
    ensures CallAt(calls, k).Some? ==> CallAt(calls, k).value in calls && CallAt(calls, k).value.index == k
  {
    if calls == [] {
    } else {
      CallAtIn(calls[1..], k);
    }
  }

  // ---- What a list of events adds up to ----

  function ContentOf(events: seq<StreamEvent>): string {
    if events == [] then ""
    else ContentOf(events[..|events| - 1]) + ContentStep(events[|events| - 1])
  }

  function ReasoningOf(events: seq<StreamEvent>): string {
    if events == [] then ""
    else ReasoningOf(events[..|events| - 1]) + ReasoningStep(events[|events| - 1])
  }

  /** The tool call that the deltas for index `k` add up to: last id, last name sent, all arguments. */
  function CallOf(events: seq<StreamEvent>, k: nat): Option<ToolCall> {
    if events == [] then None
    else CallStep(CallOf(events[..|events| - 1], k), events[|events| - 1], k)
  }

  function CallStep(before: Option<ToolCall>, e: StreamEvent, k: nat): Option<ToolCall> {
    if e.ToolCallDelta? && e.index == k then
      var base := OrElse(before, ToolCall(k, None, "", ""));
      Some(ToolCall(k, e.id, OrElse(e.name, base.name), base.arguments + e.argumentsDelta))
    else before
  }

  function ContentStep(e: StreamEvent): string {
    if e.ContentDelta? then e.delta else ""
  }

  function ReasoningStep(e: StreamEvent): string {
    if e.ReasoningDelta? then e.delta else ""
  }

  /** Everything before the end of a stream: no usage report and no end marker yet. */
  predicate OnlyDeltas(events: seq<StreamEvent>) {
    forall e | e in events :: !e.UsageReport? && !e.Done?
  }

  /** The deltas add up to this content, this reasoning and exactly these tool calls. */
  ghost predicate AddsUpTo(events: seq<StreamEvent>, content: string, reasoning: string, calls: seq<ToolCall>) {
    && ContentOf(events) == content
    && ReasoningOf(events) == reasoning
    && Ordered(calls)
    && forall k: nat :: CallOf(events, k) == CallAt(calls, k)
  }

  /** One more event moves each sum by its own step. */
  lemma Appended(events: seq<StreamEvent>, e: StreamEvent, k: nat)
    ensures ContentOf(events + [e]) == ContentOf(events) + ContentStep(e)
    ensures ReasoningOf(events + [e]) == ReasoningOf(events) + ReasoningStep(e)
    ensures CallOf(events + [e], k) == CallStep(CallOf(events, k), e, k)
  {
  }

  /** A usage report and the end marker change none of the sums. */
  lemma ClosingEvents(events: seq<StreamEvent>, e: StreamEvent, k: nat)
    requires e.UsageReport? || e.Done?
    ensures ContentOf(events + [e]) == ContentOf(events)
    ensures ReasoningOf(events + [e]) == ReasoningOf(events)
    ensures CallOf(events + [e], k) == CallOf(events, k)
  {
  }

  /** What a successful stream emits last. */
  function Closing(r: Response): seq<StreamEvent> {
    (if r.usage.totalTokens > 0 then [UsageReport(r.usage)] else []) + [Done(Some(r.finishReason))]
  }

  /** `Done` comes last and exactly once, preceded by at most one usage report. */
  ghost predicate WellClosed(events: seq<StreamEvent>, r: Response) {
    && |events| > 0
    && events[|events| - 1] == Done(Some(r.finishReason))
    && (forall i | 0 <= i < |events| - 1 :: !events[i].Done?)
    && (forall i | 0 <= i < |events| && events[i].UsageReport? ::
          i == |events| - 2 && events[i].usage == r.usage && r.usage.totalTokens > 0)
    && (r.usage.totalTokens > 0 ==> |events| > 1 && events[|events| - 2].UsageReport?)
  }

  lemma ClosedSums(events: seq<StreamEvent>, r: Response, k: nat)
    ensures ContentOf(events + Closing(r)) == ContentOf(events)
    ensures ReasoningOf(events + Closing(r)) == ReasoningOf(events)
    ensures CallOf(events + Closing(r), k) == CallOf(events, k)
  {
    hide ContentOf, ReasoningOf, CallOf;
    var done := Done(Some(r.finishReason));
    if r.usage.totalTokens > 0 {
      var report := UsageReport(r.usage);
      ClosingEvents(events, report, k);
      ClosingEvents(events + [report], done, k);
      assert events + Closing(r) == events + [report] + [done];
    } else {
      ClosingEvents(events, done, k);
      assert events + Closing(r) == events + [done];
    }
  }

  lemma DeltasAt(events: seq<StreamEvent>)
    requires OnlyDeltas(events)
    ensures forall i | 0 <= i < |events| :: !events[i].UsageReport? && !events[i].Done?
  {
  }

  lemma ClosedWell(events: seq<StreamEvent>, r: Response)
    requires OnlyDeltas(events)
    ensures WellClosed(events + Closing(r), r)
    ensures ContentOf(events + Closing(r)) == ContentOf(events)
    ensures ReasoningOf(events + Closing(r)) == ReasoningOf(events)
    ensures forall k: nat :: CallOf(events + Closing(r), k) == CallOf(events, k)
  {
    hide ContentOf, ReasoningOf, CallOf, OnlyDeltas;
    DeltasAt(events);
    forall k: nat
      ensures CallOf(events + Closing(r), k) == CallOf(events, k)
    {
      ClosedSums(events, r, k);
    }
    ClosedSums(events, r, 0);
  }
}
