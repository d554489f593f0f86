/**
 The Anthropic Messages API (crates/coevo-models/src/anthropic.rs, lines 313-330, 366-475 and
 477-765): a complete message is parsed in one go, a stream is aggregated event by event.
 */
module AnthropicStream {
  import opened Prelude
  import opened Text
  import opened Json
  import opened ModelTypes
  import opened StructuredText
  import Sse

  function Either<T>(first: Option<T>, second: Option<T>): Option<T> {
    if first.Some? then first else second
  }

  function MapStopReason(reason: string): string {
    if reason == "end_turn" || reason == "stop_sequence" then "stop"
    else if reason == "tool_use" then "tool_calls"
    else if reason == "max_tokens" then "length"
    else reason
  }

  /** What each stop reason of the provider is reported as; any other is reported as it is. */
  const STOP_REASONS: map<string, string> := map[
    "end_turn" := "stop",
    "stop_sequence" := "stop",
    "tool_use" := "tool_calls",
    "max_tokens" := "length"
  ]

  lemma StopReasonsMapped(reason: string)
    ensures MapStopReason(reason) == ReportedStop(Some(reason))
  {
  }

  function ReportedStop(stop: Option<string>): string {
    match stop
    case None => "stop"
    case Some(reason) => if reason in STOP_REASONS then STOP_REASONS[reason] else reason
  }

  datatype Tokens = Tokens(prompt: Option<nat>, completion: Option<nat>)

  function ParseAnthropicUsage(usage: Option<Json>): Tokens {
    Tokens(AsU64(Then(usage, "input_tokens")), AsU64(Then(usage, "output_tokens")))
  }

  function TotalUsage(prompt: nat, completion: nat): Usage {
    Usage(prompt, completion, prompt + completion)
  }

  // ---- A complete message ----

  datatype Block =
    | Text(text: string)
    | Thinking(thinking: string)
    | ToolUse(id: Option<string>, name: string, arguments: string)
    | Other

  function DecodeBlock(block: Json): Block {
    var kind := AsStr(Get(block, "type"));
    if kind == Some("text") then Text(OrElse(AsStr(Get(block, "text")), ""))
    else if kind == Some("thinking") then Thinking(OrElse(AsStr(Get(block, "thinking")), ""))
    else if kind == Some("tool_use") then
      var input := Get(block, "input");
      ToolUse(
        AsStr(Get(block, "id")),
        OrElse(AsStr(Get(block, "name")), ""),
        if input.Some? then Print(input.value) else "{}")
    else Other
  }

  datatype Collected = Collected(content: string, reasoning: string, toolCalls: seq<ToolCall>)

  predicate SaysNothing(c: Collected) {
    c.content == "" && c.reasoning == "" && c.toolCalls == []
  }

  /** The response says what was collected, the token counts and the stop reason, and carries this value. */
  predicate IsAnswer(r: Response, c: Collected, json: Option<Json>, tokens: Tokens, stop: Option<string>) {
    && r.content == c.content
    && OrElse(r.reasoningContent, "") == c.reasoning
    && (r.reasoningContent.Some? <==> c.reasoning != "")
    && r.toolCalls == c.toolCalls
    && r.json == json
    && r.usage.promptTokens == OrElse(tokens.prompt, 0)
    && r.usage.completionTokens == OrElse(tokens.completion, 0)
    && r.usage.totalTokens == r.usage.promptTokens + r.usage.completionTokens
    && r.finishReason == ReportedStop(stop)
  }

  /** Result and errors for what was collected; `value` is what the content parses to, if that is wanted. */
  predicate IsOutcome(r: Result<Response, ModelError>, c: Collected, value: Option<Result<Json, string>>,
                      tokens: Tokens, stop: Option<string>, structured: bool) {
    if SaysNothing(c) then r.Err? && r.error.JsonSchemaViolation? == structured
    else
      match value
      case Some(Err(reason)) => r == Err(JsonSchemaViolation(reason))
      case Some(Ok(json)) => r.Ok? && IsAnswer(r.value, c, Some(json), tokens, stop)
      case None => r.Ok? && IsAnswer(r.value, c, None, tokens, stop)
  }

  function CollectNext(c: Collected, block: Json): Collected {
    match DecodeBlock(block)
    case Text(text) => c.(content := c.content + text)
    case Thinking(thinking) => c.(reasoning := c.reasoning + thinking)
    case ToolUse(id, name, arguments) =>
      c.(toolCalls := c.toolCalls + [ToolCall(|c.toolCalls|, id, name, arguments)])
    case Other => c
  }

  function Collect(blocks: seq<Json>): Collected {
    if blocks == [] then Collected("", "", [])
    else CollectNext(Collect(blocks[..|blocks| - 1]), blocks[|blocks| - 1])
  }

  function EmptyResponse(structured: bool, reason: string): ModelError {
    if structured then
      JsonSchemaViolation("Provider returned empty structured content (stop_reason: " + reason + ")")
    else
      InvalidResponse("Provider returned empty completion content (stop_reason: " + reason + ")")
  }

  function Respond(json: Json, c: Collected, structured: bool, parse: Parser): Result<Response, ModelError> {
    var content := Trim(c.content);
    var stop := AsStr(Get(json, "stop_reason"));
    if content == "" && c.reasoning == "" && c.toolCalls == [] then
      Err(EmptyResponse(structured, OrElse(stop, "unknown")))
    else
      var wanted := structured && c.toolCalls == [];
      var value := StructuredValue(content, parse);
      if wanted && value.Err? then Err(JsonSchemaViolation(value.error))
      else
        var tokens := ParseAnthropicUsage(Get(json, "usage"));
        Ok(Response(
          content,
          if wanted then Some(value.value) else None,
          TotalUsage(OrElse(tokens.prompt, 0), OrElse(tokens.completion, 0)),
          if stop.Some? then MapStopReason(stop.value) else "stop",
          if c.reasoning == "" then None else Some(c.reasoning),
          c.toolCalls))
  }

  /** What parsing a complete message gives. */
  function MessageOutcome(json: Json, structured: bool, parse: Parser): Result<Response, ModelError> {
    match AsArray(Get(json, "content"))
    case None => Err(InvalidResponse("Anthropic response has no content array"))
    case Some(blocks) => Respond(json, Collect(blocks), structured, parse)
  }

  method ParseMessagesResponse(json: Json, structured: bool, parse: Parser)
    returns (r: Result<Response, ModelError>)
    ensures r == MessageOutcome(json, structured, parse)
  {
    hide Respond, AsU64, Lookup, Print;
    var content := "";
    var reasoning := "";
    var toolCalls: seq<ToolCall> := [];
    var blocks := AsArray(Get(json, "content"));
    if blocks.None? {
      return Err(InvalidResponse("Anthropic response has no content array"));
    }
    for n := 0 to |blocks.value|
      invariant Collected(content, reasoning, toolCalls) == Collect(blocks.value[..n])
    {
      var block := blocks.value[n];
      var kind := AsStr(Get(block, "type"));
      assert blocks.value[..n + 1][..n] == blocks.value[..n];
      assert content + "" == content && reasoning + "" == reasoning;
      if kind == Some("text") {
        var text := AsStr(Get(block, "text"));
        if text.Some? {
          content := content + text.value;
        }
      } else if kind == Some("thinking") {
        var thinking := AsStr(Get(block, "thinking"));
        if thinking.Some? {
          reasoning := reasoning + thinking.value;
        }
      } else if kind == Some("tool_use") {
        var input := Get(block, "input");
        var arguments := if input.Some? then Print(input.value) else "{}";
        toolCalls := toolCalls + [
          ToolCall(|toolCalls|, AsStr(Get(block, "id")), OrElse(AsStr(Get(block, "name")), ""), arguments)];
      }
    }
    assert blocks.value[..|blocks.value|] == blocks.value;
    r := Respond(json, Collected(content, reasoning, toolCalls), structured, parse);
  }

  // ---- What one stream event says ----

  datatype Event =
    | MessageStart(tokens: Tokens)
    | ToolStart(block: nat, id: Option<string>, name: string)
    | TextDelta(text: string)
    | ThinkingDelta(thinking: string)
    | InputDelta(block: nat, partial: string)
    | MessageDelta(stopReason: Option<string>, tokens: Tokens)
    | MessageStop
    | Error(message: string)
    | Ignored

  function BlockIndex(json: Json): nat {
    OrElse(AsU64(Get(json, "index")), 0)
  }

  function DecodeStart(json: Json): Event {
    var block := Get(json, "content_block");
    if AsStr(Then(block, "type")) == Some("tool_use") then
      ToolStart(BlockIndex(json), AsStr(Then(block, "id")), OrElse(AsStr(Then(block, "name")), ""))
    else Ignored
  }

  function DecodeDelta(json: Json): Event {
    var delta := Get(json, "delta");
    var kind := AsStr(Then(delta, "type"));
    if kind == Some("text_delta") then
      var text := AsStr(Then(delta, "text"));
      if text.Some? then TextDelta(text.value) else Ignored
    else if kind == Some("thinking_delta") then
      var thinking := AsStr(Then(delta, "thinking"));
      if thinking.Some? then ThinkingDelta(thinking.value) else Ignored
    else if kind == Some("input_json_delta") then
      InputDelta(BlockIndex(json), OrElse(AsStr(Then(delta, "partial_json")), ""))
    else Ignored
  }

  function Decode(json: Json): Event {
    var kind := AsStr(Get(json, "type"));
    if kind == Some("message_start") then
      MessageStart(ParseAnthropicUsage(Then(Get(json, "message"), "usage")))
    else if kind == Some("content_block_start") then DecodeStart(json)
    else if kind == Some("content_block_delta") then DecodeDelta(json)
    else if kind == Some("message_delta") then
      MessageDelta(AsStr(Then(Get(json, "delta"), "stop_reason")), ParseAnthropicUsage(Get(json, "usage")))
    else if kind == Some("message_stop") then MessageStop
    else if kind == Some("error") then
      Error(OrElse(AsStr(Then(Get(json, "error"), "message")), "Anthropic stream error"))
    else Ignored
  }

  // ---- Specification of the aggregation ----

  datatype State = State(
    content: string,
    reasoning: string,
    toolCalls: map<nat, ToolCall>,
    blockToTool: map<nat, nat>,
    promptTokens: nat,
    completionTokens: nat,
    finishReason: Option<string>)
  {
    /** Ordinals are dense, a call is stored under its own index, and every block leads to a stored call. */
    ghost predicate Valid() {
      && (forall k :: k in toolCalls <==> 0 <= k < |toolCalls|)
      && (forall k | k in toolCalls :: toolCalls[k].index == k)
      && (forall b | b in blockToTool :: blockToTool[b] in toolCalls)
    }

    /** `tool_calls.into_values()` */
    function Calls(): (r: seq<ToolCall>)
      requires Valid()
      ensures |r| == |toolCalls|
    {
      seq(|toolCalls|, k requires 0 <= k < |toolCalls| => toolCalls[k])
    }
  }

  const START := State("", "", map[], map[], 0, 0, None)

  /** A valid state and the events emitted so far. */
  datatype RawTrace = Trace(state: State, events: seq<StreamEvent>)

  type Trace = t: RawTrace | t.state.Valid() ghost witness Trace(START, [])

  /** Nothing received, nothing emitted. */
  ghost const INITIAL: Trace := Trace(START, [])

  lemma GrowCalls(s: State, call: ToolCall, block: nat)
    requires s.Valid() && call.index == |s.toolCalls|
    ensures var n := |s.toolCalls|;
      s.(toolCalls := s.toolCalls[n := call], blockToTool := s.blockToTool[block := n]).Valid()
  {
  }

  lemma ReplaceCall(s: State, ordinal: nat, call: ToolCall)
    requires s.Valid() && ordinal in s.toolCalls && call.index == ordinal
    ensures s.(toolCalls := s.toolCalls[ordinal := call]).Valid()
  {
  }

  function Count(s: State, tokens: Tokens): State {
    s.(
      promptTokens := OrElse(tokens.prompt, s.promptTokens),
      completionTokens := OrElse(tokens.completion, s.completionTokens))
  }

  ghost function StartTool(t: Trace, block: nat, id: Option<string>, name: string): Trace {
    var s, ordinal := t.state, |t.state.toolCalls|;
    var call := ToolCall(ordinal, id, name, "");
    GrowCalls(s, call, block);
    Trace(
      s.(toolCalls := s.toolCalls[ordinal := call], blockToTool := s.blockToTool[block := ordinal]),
      t.events + [ToolCallDelta(ordinal, id, Some(name), "")])
  }

  ghost function ExtendTool(t: Trace, block: nat, partial: string): Trace {
    var s := t.state;
    if block in s.blockToTool then
      var ordinal := s.blockToTool[block];
      var entry := s.toolCalls[ordinal];
      var call := entry.(arguments := entry.arguments + partial);
      ReplaceCall(s, ordinal, call);
      Trace(
        s.(toolCalls := s.toolCalls[ordinal := call]),
        t.events + [ToolCallDelta(ordinal, entry.id, None, partial)])
    else t
  }

  ghost function Apply(t: Trace, e: Event): Trace {
    var s := t.state;
    match e
    case MessageStart(tokens) => Trace(Count(s, tokens), t.events)
    case ToolStart(block, id, name) => StartTool(t, block, id, name)
    case TextDelta(text) => Trace(s.(content := s.content + text), t.events + [ContentDelta(text)])
    case ThinkingDelta(thinking) =>
      Trace(s.(reasoning := s.reasoning + thinking), t.events + [ReasoningDelta(thinking)])
    case InputDelta(block, partial) => ExtendTool(t, block, partial)
    case MessageDelta(stopReason, tokens) =>
      var s' := if stopReason.Some? then s.(finishReason := Some(MapStopReason(stopReason.value))) else s;
      Trace(Count(s', tokens), t.events)
    case _ => t
  }

  function Finish(s: State, structured: bool, parse: Parser): Result<Response, ModelError>
    requires s.Valid()
  {
    if s.content == "" && s.reasoning == "" && s.toolCalls == map[] then
      Err(if structured then JsonSchemaViolation("Provider returned empty structured stream")
          else InvalidResponse("Provider returned empty stream"))
    else
      var wanted := structured && s.toolCalls == map[] && Trim(s.content) != "";
      var value := StructuredValue(s.content, parse);
      if wanted && value.Err? then Err(JsonSchemaViolation(value.error))
      else Ok(Response(
        s.content,
        if wanted then Some(value.value) else None,
        TotalUsage(s.promptTokens, s.completionTokens),
        OrElse(s.finishReason, "stop"),
        if s.reasoning == "" then None else Some(s.reasoning),
        s.Calls()))
  }

  // ---- The state as the code updates it ----

  class AnthropicStreamState {
    var content: string
    var reasoning: string
    var toolCalls: map<nat, ToolCall>
    var blockToTool: map<nat, nat>
    var promptTokens: nat
    var completionTokens: nat
    var finishReason: Option<string>

    function View(): State
      reads this
    {
      State(content, reasoning, toolCalls, blockToTool, promptTokens, completionTokens, finishReason)
    }

    ghost predicate Valid()
      reads this
    {
      View().Valid()
    }

    constructor ()
      ensures View() == START && Valid()
    {
      content, reasoning, toolCalls, blockToTool := "", "", map[], map[];
      promptTokens, completionTokens, finishReason := 0, 0, None;
    }

    method TakeTokens(tokens: Tokens)
      modifies this
      ensures View() == Count(old(View()), tokens)
    {
      if tokens.prompt.Some? {
        promptTokens := tokens.prompt.value;
      }
      if tokens.completion.Some? {
        completionTokens := tokens.completion.value;
      }
    }

    method StartBlock(json: Json, sink: EventSink)
      requires Valid()
      modifies this, sink
      ensures Valid()
      ensures Trace(View(), sink.events) == Apply(old(Trace(View(), sink.events)), DecodeStart(json))
    {
      var block := Get(json, "content_block");
      if AsStr(Then(block, "type")) == Some("tool_use") {
        var blockIndex := BlockIndex(json);
        var ordinal := |toolCalls|;
        var id := AsStr(Then(block, "id"));
        var name := OrElse(AsStr(Then(block, "name")), "");
        GrowCalls(View(), ToolCall(ordinal, id, name, ""), blockIndex);
        blockToTool := blockToTool[blockIndex := ordinal];
        toolCalls := toolCalls[ordinal := ToolCall(ordinal, id, name, "")];
        sink.Emit(ToolCallDelta(ordinal, id, Some(name), ""));
      }
    }

    method ExtendBlock(json: Json, sink: EventSink)
      requires Valid()
      modifies this, sink
      ensures Valid()
      ensures Trace(View(), sink.events) == Apply(old(Trace(View(), sink.events)), DecodeDelta(json))
    {
      hide AsU64, Lookup;
      var blockIndex := BlockIndex(json);
      var delta := Get(json, "delta");
      if delta.None? {
        return;
      }
      var kind := AsStr(Then(delta, "type"));
      if kind == Some("text_delta") {
        var text := AsStr(Then(delta, "text"));
        if text.Some? {
          content := content + text.value;
          sink.Emit(ContentDelta(text.value));
        }
      } else if kind == Some("thinking_delta") {
        var thinking := AsStr(Then(delta, "thinking"));
        if thinking.Some? {
          reasoning := reasoning + thinking.value;
          sink.Emit(ReasoningDelta(thinking.value));
        }
      } else if kind == Some("input_json_delta") {
        var partial := OrElse(AsStr(Then(delta, "partial_json")), "");
        if blockIndex in blockToTool {
          var ordinal := blockToTool[blockIndex];
          assert ordinal in toolCalls; // the lookup the code guards by `expect`
          var entry := toolCalls[ordinal];
          entry := entry.(arguments := entry.arguments + partial);
          ReplaceCall(View(), ordinal, entry);
          toolCalls := toolCalls[ordinal := entry];
          sink.Emit(ToolCallDelta(ordinal, entry.id, None, partial));
        }
      }
    }

    /** True on `message_stop`; an error event ends the stream with its message. */
    method ApplyAnthropicStreamEvent(json: Json, sink: EventSink) returns (r: Result<bool, string>)
      requires Valid()
      modifies this, sink
      ensures Valid()
      ensures Trace(View(), sink.events) == Apply(old(Trace(View(), sink.events)), Decode(json))
      ensures r == match Decode(json)
                   case MessageStop => Ok(true)
                   case Error(message) => Err(message)
                   case _ => Ok(false)
    {
      hide AsU64, Lookup;
      var kind := AsStr(Get(json, "type"));
      if kind == Some("message_start") {
        TakeTokens(ParseAnthropicUsage(Then(Get(json, "message"), "usage")));
      } else if kind == Some("content_block_start") {
        StartBlock(json, sink);
      } else if kind == Some("content_block_delta") {
        ExtendBlock(json, sink);
      } else if kind == Some("message_delta") {
        var stopReason := AsStr(Then(Get(json, "delta"), "stop_reason"));
        if stopReason.Some? {
          finishReason := Some(MapStopReason(stopReason.value));
        }
        TakeTokens(ParseAnthropicUsage(Get(json, "usage")));
      } else if kind == Some("message_stop") {
        return Ok(true);
      } else if kind == Some("error") {
        return Err(OrElse(AsStr(Then(Get(json, "error"), "message")), "Anthropic stream error"));
      }
      return Ok(false);
    }
  }

  // ---- The whole stream ----

  ghost function HandleEvent(t: Trace, e: Event): Sse.Status<Trace> {
    match e
    case MessageStop => Sse.Stopped(t)
    case Error(message) => Sse.Failed(t, message)
    case _ => Sse.Running(Apply(t, e))
  }

  ghost function Handle(parse: Parser): (Trace, string) -> Sse.Status<Trace> {
    (t: Trace, data: string) =>
      match parse(data)
      case Err(e) => Sse.Failed(t, e)
      case Ok(json) => HandleEvent(t, Decode(json))
  }

  ghost function Conclude(st: Sse.Status<Trace>, structured: bool, parse: Parser)
    : (Result<Response, ModelError>, seq<StreamEvent>)
  {
    match st
    case Failed(t, e) => (Err(InvalidResponse(e)), t.events)
    case Running(t) => (Err(InvalidResponse("stream ended before message_stop terminator")), t.events)
    case Stopped(t) =>
      var r := Finish(t.state, structured, parse);
      (r, if r.Ok? then t.events + Closing(r.value) else t.events)
  }

  ghost function StatusOf(t: Trace, sawStop: bool, error: Option<string>): Sse.Status<Trace> {
    if error.Some? then Sse.Failed(t, error.value) else if sawStop then Sse.Stopped(t) else Sse.Running(t)
  }

  /** The inner loop: handles every complete event in the buffer. */
  method DrainBuffer(text: string, state: AnthropicStreamState, parse: Parser, sink: EventSink)
    returns (buffer: string, sawStop: bool, error: Option<string>)
    requires state.Valid()
    modifies state, sink
    ensures state.Valid()
    ensures StatusOf(Trace(state.View(), sink.events), sawStop, error)
         == Sse.Consume(Sse.Running(old(Trace(state.View(), sink.events))), Sse.Split(text).list, Handle(parse))
    ensures !sawStop && error.None? ==> buffer == Sse.Split(text).rest
  {
    hide Sse.Data, Sse.SplitNext, Apply, Decode, State.Valid;
    buffer, sawStop, error := text, false, None;
    ghost var left := Sse.Split(text).list;
    ghost var goal := Sse.Consume(Sse.Running(Trace(state.View(), sink.events)), left, Handle(parse));
    var cut := Sse.SplitNext(buffer);
    while cut.Some?
      invariant state.Valid()
      invariant cut == Sse.SplitNext(buffer)
      invariant Sse.Split(buffer) == Sse.Events(left, Sse.Split(text).rest)
      invariant !sawStop && error.None?
      invariant goal == Sse.Consume(Sse.Running(Trace(state.View(), sink.events)), left, Handle(parse))
      decreases |buffer|
    {
      buffer := cut.value.rest;
      ghost var t: Trace := Trace(state.View(), sink.events);
      left := left[1..];
      var data := Sse.ExtractSseData(cut.value.event);
      if data.Some? {
        var json := parse(data.value);
        if json.Err? {
          Sse.ConsumeDone(Sse.Failed(t, json.error), left, Handle(parse));
          error := Some(json.error);
          return;
        }
        var r := state.ApplyAnthropicStreamEvent(json.value, sink);
        if r.Err? {
          EndsUnchanged(t, Decode(json.value));
          Sse.ConsumeDone(Sse.Failed(t, r.error), left, Handle(parse));
          error := Some(r.error);
          return;
        }
        if r.value {
          EndsUnchanged(t, Decode(json.value));
          Sse.ConsumeDone(Sse.Stopped(t), left, Handle(parse));
          sawStop := true;
          return;
        }
      }
      cut := Sse.SplitNext(buffer);
    }
  }

  lemma EndsUnchanged(t: Trace, e: Event)
    requires e.MessageStop? || e.Error?
    ensures Apply(t, e) == t
  {
  }

  /** A stream is structured on request; a complete message only when there is a schema (line 364). */
  predicate StreamIsStructured(hasSchema: bool, format: ResponseFormat) {
    hasSchema || format == JsonFormat
  }

  /** What a whole stream returns and emits. */
  ghost function StreamOutcome(chunks: seq<string>, hasSchema: bool, format: ResponseFormat, parse: Parser)
    : (Result<Response, ModelError>, seq<StreamEvent>)
  {
    Conclude(Sse.ReadChunks(Sse.Running(INITIAL), "", chunks, Handle(parse)),
      StreamIsStructured(hasSchema, format), parse)
  }

  method StreamMessages(chunks: seq<string>, hasSchema: bool, format: ResponseFormat, parse: Parser, sink: EventSink)
    returns (r: Result<Response, ModelError>)
    requires sink.events == []
    modifies sink
    ensures (r, sink.events) == StreamOutcome(chunks, hasSchema, format, parse)
  {
    hide Sse.Split, Sse.Consume, Handle, Finish, State.Valid;
    var state := new AnthropicStreamState();
    var buffer := "";
    var sawStop := false;
    ghost var goal := Sse.ReadChunks(Sse.Running(Trace(START, [])), "", chunks, Handle(parse));
    for n := 0 to |chunks|
      invariant fresh(state) && state.Valid() && !sawStop
      invariant goal
        == Sse.ReadChunks(Sse.Running(Trace(state.View(), sink.events)), buffer, chunks[n..], Handle(parse))
    {
      assert chunks[n..][1..] == chunks[n + 1..];
      var error;
      buffer, sawStop, error := DrainBuffer(buffer + chunks[n], state, parse, sink);
      if error.Some? {
        return Err(InvalidResponse(error.value));
      }
      if sawStop {
        break;
      }
    }
    var structured := hasSchema || format == JsonFormat;
    if !sawStop {
      return Err(InvalidResponse("stream ended before message_stop terminator"));
    }
    r := Finish(state.View(), structured, parse);
    ghost var deltas := sink.events;
    if r.Ok? {
      if r.value.usage.totalTokens > 0 {
        sink.Emit(UsageReport(r.value.usage));
      }
      sink.Emit(Done(Some(r.value.finishReason)));
      assert sink.events == deltas + Closing(r.value);
    }
  }
}
