/**
 The OpenAI-compatible stream (crates/coevo-models/src/openai.rs, lines 609-916): chunks are
 aggregated into a response while every delta is also emitted as an event.
 */
module OpenAiStream {
  import opened Prelude
  import opened Text
  import opened Json
  import opened ModelTypes
  import opened StructuredText
  import Sse

  // ---- What one chunk says ----

  datatype ToolDelta = ToolDelta(index: nat, id: Option<string>, name: Option<string>, arguments: string)

  datatype Chunk = Chunk(
    reasoning: Option<string>,
    content: Option<string>,
    tools: seq<ToolDelta>,
    finishReason: Option<string>,
    usage: Option<Usage>)

  function DecodeTool(tool: Json): ToolDelta {
    var function' := Get(tool, "function");
    ToolDelta(
      OrElse(AsU64(Get(tool, "index")), 0),
      AsStr(Get(tool, "id")),
      AsStr(Then(function', "name")),
      OrElse(AsStr(Then(function', "arguments")), ""))
  }

  function DecodeTools(tools: seq<Json>): seq<ToolDelta> {
    seq(|tools|, i requires 0 <= i < |tools| => DecodeTool(tools[i]))
  }

  function ParseUsage(value: Option<Json>): Option<Usage> {
    var prompt, completion, total :=
      AsU64(Then(value, "prompt_tokens")), AsU64(Then(value, "completion_tokens")), AsU64(Then(value, "total_tokens"));
    if prompt.Some? && completion.Some? && total.Some? then Some(Usage(prompt.value, completion.value, total.value))
    else None
  }

  function Choice(json: Json): Option<Json> {
    At(Get(json, "choices"), 0)
  }

  function Decode(json: Json): Chunk {
    var delta := Then(Choice(json), "delta");
    Chunk(
      AsStr(Then(delta, "reasoning_content")),
      AsStr(Then(delta, "content")),
      DecodeTools(OrElse(AsArray(Then(delta, "tool_calls")), [])),
      AsStr(Then(Choice(json), "finish_reason")),
      ParseUsage(Get(json, "usage")))
  }

  // ---- Specification of the aggregation ----

  datatype Aggregate = Aggregate(
    content: string,
    reasoning: string,
    toolCalls: seq<ToolCall>,
    usage: Usage,
    finishReason: Option<string>)

  const EMPTY := Aggregate("", "", [], NO_USAGE, None)

  /** The aggregate and the events emitted so far. */
  datatype Trace = Trace(agg: Aggregate, events: seq<StreamEvent>)

  function Emit(t: Trace, e: StreamEvent): Trace {
    t.(events := t.events + [e])
  }

  function ApplyReasoning(t: Trace, reasoning: Option<string>): Trace {
    if reasoning.None? then t
    else Emit(t.(agg := t.agg.(reasoning := t.agg.reasoning + reasoning.value)), ReasoningDelta(reasoning.value))
  }

  function ApplyContent(t: Trace, content: Option<string>): Trace {
    if content.None? then t
    else Emit(t.(agg := t.agg.(content := t.agg.content + content.value)), ContentDelta(content.value))
  }

  function MergeTool(calls: seq<ToolCall>, d: ToolDelta): ToolCall {
    var entry := OrElse(CallAt(calls, d.index), ToolCall(d.index, None, "", ""));
    entry.(
      id := if d.id.Some? then d.id else entry.id,
      name := OrElse(d.name, entry.name),
      arguments := entry.arguments + d.arguments)
  }

  function ApplyTool(t: Trace, d: ToolDelta): Trace {
    var call := MergeTool(t.agg.toolCalls, d);
    Emit(t.(agg := t.agg.(toolCalls := Put(t.agg.toolCalls, call))),
      ToolCallDelta(d.index, call.id, d.name, d.arguments))
  }

  function ApplyTools(t: Trace, tools: seq<ToolDelta>): Trace {
    if tools == [] then t
    else ApplyTool(ApplyTools(t, tools[..|tools| - 1]), tools[|tools| - 1])
  }

  function ApplyEnd(t: Trace, finishReason: Option<string>, usage: Option<Usage>): Trace {
    t.(agg := t.agg.(
      finishReason := if finishReason.Some? then finishReason else t.agg.finishReason,
      usage := OrElse(usage, t.agg.usage)))
  }

  function Apply(t: Trace, c: Chunk): Trace {
    ApplyEnd(ApplyTools(ApplyContent(ApplyReasoning(t, c.reasoning), c.content), c.tools), c.finishReason, c.usage)
  }

  function Finish(agg: Aggregate, structured: bool, parse: Parser): Result<Response, ModelError> {
    if agg.content == "" && agg.reasoning == "" && agg.toolCalls == [] then
      Err(if structured then JsonSchemaViolation("Provider returned empty structured stream")
          else InvalidResponse("Provider returned empty stream"))
    else
      var wanted := structured && agg.toolCalls == [] && Trim(agg.content) != "";
      var value := StructuredValue(agg.content, parse);
      if wanted && value.Err? then Err(JsonSchemaViolation(value.error))
      else Ok(Response(
        agg.content,
        if wanted then Some(value.value) else None,
        agg.usage,
        OrElse(agg.finishReason, "stop"),
        if agg.reasoning == "" then None else Some(agg.reasoning),
        agg.toolCalls))
  }

  // ---- The aggregate as the code updates it ----

  class StreamAggregate {
    var content: string
    var reasoning: string
    var toolCalls: seq<ToolCall>
    var usage: Usage
    var finishReason: Option<string>

    function View(): Aggregate
      reads this
    {
      Aggregate(content, reasoning, toolCalls, usage, finishReason)
    }

    constructor ()
      ensures View() == EMPTY
    {
      content, reasoning, toolCalls, usage, finishReason := "", "", [], NO_USAGE, None;
    }

    method ApplyToolCall(tool: Json, sink: EventSink)
      modifies this, sink
      ensures Trace(View(), sink.events) == ApplyTool(old(Trace(View(), sink.events)), DecodeTool(tool))
    {
      var index := OrElse(AsU64(Get(tool, "index")), 0);
      var entry := OrElse(CallAt(toolCalls, index), ToolCall(index, None, "", ""));
      var call := entry;
      var id := AsStr(Get(tool, "id"));
      if id.Some? {
        call := call.(id := id);
      }
      var emittedName := None;
      var name := AsStr(Then(Get(tool, "function"), "name"));
      if name.Some? {
        call := call.(name := name.value);
        emittedName := name;
      }
      var argumentsDelta := OrElse(AsStr(Then(Get(tool, "function"), "arguments")), "");
      assert call.arguments + "" == call.arguments;
      if argumentsDelta != "" {
        call := call.(arguments := call.arguments + argumentsDelta);
      }
      toolCalls := Put(toolCalls, call);
      sink.Emit(ToolCallDelta(index, call.id, emittedName, argumentsDelta));
    }

    method ApplyStreamChunk(json: Json, sink: EventSink)
      modifies this, sink
      ensures Trace(View(), sink.events) == Apply(old(Trace(View(), sink.events)), Decode(json))
    {
      hide Put, MergeTool, DecodeTool, AsU64, Get, At, ApplyTool, ParseUsage;
      ghost var t0 := Trace(View(), sink.events);
      ghost var c := Decode(json);
      ghost var t1 := ApplyReasoning(t0, c.reasoning);
      ghost var t2 := ApplyContent(t1, c.content);
      var choice := Choice(json);
      if choice.Some? {
        var delta := Then(choice, "delta");
        var reasoning' := AsStr(Then(delta, "reasoning_content"));
        if reasoning'.Some? {
          reasoning := reasoning + reasoning'.value;
          sink.Emit(ReasoningDelta(reasoning'.value));
        }
        var content' := AsStr(Then(delta, "content"));
        if content'.Some? {
          content := content + content'.value;
          sink.Emit(ContentDelta(content'.value));
        }
        var tools := AsArray(Then(delta, "tool_calls"));
        if tools.Some? {
          for n := 0 to |tools.value|
            invariant Trace(View(), sink.events) == ApplyTools(t2, c.tools[..n])
          {
            ApplyToolCall(tools.value[n], sink);
            assert c.tools[..n + 1][..n] == c.tools[..n];
          }
          assert c.tools[..|c.tools|] == c.tools;
        }
        var finish := AsStr(Then(choice, "finish_reason"));
        if finish.Some? {
          finishReason := finish;
        }
      }
      var usage' := ParseUsage(Get(json, "usage"));
      if usage'.Some? {
        usage := usage'.value;
      }
    }
  }

  // ---- The whole stream ----

  function Handle(parse: Parser): (Trace, string) -> Sse.Status<Trace> {
    (t: Trace, data: string) =>
      if data == "[DONE]" then Sse.Stopped(t)
      else
        match parse(data)
        case Err(e) => Sse.Failed(t, e)
        case Ok(json) => Sse.Running(Apply(t, Decode(json)))
  }

  /** The result and the events of a stream that left the reading loop with this status. */
  function Conclude(st: Sse.Status<Trace>, structured: bool, parse: Parser)
    : (Result<Response, ModelError>, seq<StreamEvent>)
  {
    match st
    case Failed(t, e) => (Err(InvalidResponse(e)), t.events)
    case Running(t) => (Err(InvalidResponse("stream ended before [DONE] sentinel")), t.events)
    case Stopped(t) =>
      var r := Finish(t.agg, structured, parse);
      (r, if r.Ok? then t.events + Closing(r.value) else t.events)
  }

  /** The status that the inner loop leaves behind. */
  function StatusOf(t: Trace, sawDone: bool, error: Option<string>): Sse.Status<Trace> {
    if error.Some? then Sse.Failed(t, error.value) else if sawDone then Sse.Stopped(t) else Sse.Running(t)
  }

  /** The inner loop: handles every complete event in the buffer. */
  method DrainBuffer(text: string, aggregate: StreamAggregate, parse: Parser, sink: EventSink)
    returns (buffer: string, sawDone: bool, error: Option<string>)
    modifies aggregate, sink
    ensures StatusOf(Trace(aggregate.View(), sink.events), sawDone, error)
         == Sse.Consume(Sse.Running(old(Trace(aggregate.View(), sink.events))), Sse.Split(text).list, Handle(parse))
    ensures !sawDone && error.None? ==> buffer == Sse.Split(text).rest
  {
    hide Sse.Data, Sse.SplitNext, Apply, Decode;
    buffer, sawDone, error := text, false, None;
    ghost var left := Sse.Split(text).list;
    ghost var goal := Sse.Consume(Sse.Running(Trace(aggregate.View(), sink.events)), left, Handle(parse));
    var cut := Sse.SplitNext(buffer);
    while cut.Some?
      invariant cut == Sse.SplitNext(buffer)
      invariant Sse.Split(buffer) == Sse.Events(left, Sse.Split(text).rest)
      invariant !sawDone && error.None?
      invariant goal == Sse.Consume(Sse.Running(Trace(aggregate.View(), sink.events)), left, Handle(parse))
      decreases |buffer|
    {
      buffer := cut.value.rest;
      ghost var t := Trace(aggregate.View(), sink.events);
      left := left[1..];
      var data := Sse.ExtractSseData(cut.value.event);
      if data.Some? {
        if data.value == "[DONE]" {
          Sse.ConsumeDone(Sse.Stopped(t), left, Handle(parse));
          sawDone := true;
          return;
        }
        var json := parse(data.value);
        if json.Err? {
          Sse.ConsumeDone(Sse.Failed(t, json.error), left, Handle(parse));
          error := Some(json.error);
          return;
        }
        aggregate.ApplyStreamChunk(json.value, sink);
      }
      cut := Sse.SplitNext(buffer);
    }
  }

  /** What a whole stream returns and emits. */
  function StreamOutcome(chunks: seq<string>, structured: bool, parse: Parser)
    : (Result<Response, ModelError>, seq<StreamEvent>)
  {
    Conclude(Sse.ReadChunks(Sse.Running(Trace(EMPTY, [])), "", chunks, Handle(parse)), structured, parse)
  }

  method StreamChatCompletions(chunks: seq<string>, structured: bool, parse: Parser, sink: EventSink)
    returns (r: Result<Response, ModelError>)
    requires sink.events == []
    modifies sink
    ensures (r, sink.events) == StreamOutcome(chunks, structured, parse)
  {
    hide Sse.Split, Sse.Consume, Handle, Finish;
    var aggregate := new StreamAggregate();
    var buffer := "";
    var sawDone := false;
    ghost var goal := Sse.ReadChunks(Sse.Running(Trace(EMPTY, [])), "", chunks, Handle(parse));
    for n := 0 to |chunks|
      invariant fresh(aggregate) && !sawDone
      invariant goal
        == Sse.ReadChunks(Sse.Running(Trace(aggregate.View(), sink.events)), buffer, chunks[n..], Handle(parse))
    {
      assert chunks[n..][1..] == chunks[n + 1..];
      var error;
      buffer, sawDone, error := DrainBuffer(buffer + chunks[n], aggregate, parse, sink);
      if error.Some? {
        return Err(InvalidResponse(error.value));
      }
      if sawDone {
        break;
      }
    }
    if !sawDone {
      return Err(InvalidResponse("stream ended before [DONE] sentinel"));
    }
    r := Finish(aggregate.View(), structured, parse);
    ghost var deltas := sink.events;
    if r.Ok? {
      if r.value.usage.totalTokens > 0 {
        sink.Emit(UsageReport(r.value.usage));
      }
      sink.Emit(Done(Some(r.value.finishReason)));
      assert sink.events == deltas + Closing(r.value);
    }
  }
}
