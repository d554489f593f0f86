/**
 Streaming against parsing whole (crates/coevo-models/src/anthropic.rs): when a stream has the
 outcome of the complete message.
 */
module AnthropicAgreement {
  import opened Prelude
  import opened Text
  import opened Json
  import opened ModelTypes
  import opened StructuredText
  import opened AnthropicStream
  import opened AnthropicProperties
  import opened AnthropicMeaning
  import Sse

  // ---- Stream and message agree ----

  /**
   Same reasoning, tool calls, usage, finish reason and parsed value; same content up to trimming; or
   both fail alike.
   */
  predicate Agree(stream: Result<Response, ModelError>, message: Result<Response, ModelError>) {
    match (stream, message)
    case (Ok(s), Ok(m)) =>
      && Trim(s.content) == m.content
      && s.json == m.json
      && s.usage == m.usage
      && s.finishReason == m.finishReason
      && s.reasoningContent == m.reasoningContent
      && s.toolCalls == m.toolCalls
    case (Err(e), Err(f)) => e.JsonSchemaViolation? == f.JsonSchemaViolation?
    case _ => false
  }

  /**
   The two paths look at blank content differently, and only the stream looks at the response
   format: without tool calls, they part when the text is blank and would be the answer, and, for
   JSON without a schema, whenever there is an answer to parse or nothing at all.
   */
  predicate PathsPart(c: Collected, hasSchema: bool, format: ResponseFormat) {
    && c.toolCalls == []
    && if hasSchema || format == TextFormat
       then Trim(c.content) == "" && if c.reasoning == "" then c.content != "" else hasSchema
       else Trim(c.content) != "" || c.reasoning == ""
  }

  predicate IsToolUse(block: Json) {
    AsStr(Get(block, "type")) == Some("tool_use")
  }

  function ToolBlocks(blocks: seq<Json>): seq<Json> {
    if blocks == [] then []
    else
      var last := blocks[|blocks| - 1];
      ToolBlocks(blocks[..|blocks| - 1]) + if IsToolUse(last) then [last] else []
  }

  /** The arguments of a tool in a complete message: its input printed compactly, or `{}` without one. */
  function PrintedInput(block: Json): string {
    match Get(block, "input")
    case None => "{}"
    case Some(input) => Print(input)
  }

  /** The same tools are called, in order; nothing is said about their arguments. */
  ghost predicate SameTools(events: seq<Event>, blocks: seq<Json>) {
    var calls, tools := Spoken(events).toolCalls, ToolBlocks(blocks);
    && |calls| == |tools|
    && forall k | 0 <= k < |calls| ::
         calls[k].id == AsStr(Get(tools[k], "id")) && calls[k].name == OrElse(AsStr(Get(tools[k], "name")), "")
  }

  /** The input sent for each tool is, character by character, its printed input. */
  ghost predicate SameArguments(events: seq<Event>, blocks: seq<Json>) {
    var calls, tools := Spoken(events).toolCalls, ToolBlocks(blocks);
    && |calls| == |tools|
    && forall k | 0 <= k < |calls| :: calls[k].arguments == PrintedInput(tools[k])
  }

  /**
   The events announce and say what the complete message holds, as far as the provider's protocol
   promises: tool inputs may be spelled in any way.
   */
  ghost predicate Tells(events: seq<Event>, json: Json) {
    var content := AsArray(Get(json, "content"));
    && content.Some?
    && TextOf(events) == Collect(content.value).content
    && ThinkingOf(events) == Collect(content.value).reasoning
    && SameTools(events, content.value)
    && ParseAnthropicUsage(Get(json, "usage")) == Tokens(LastPrompt(events), LastCompletion(events))
    && AsStr(Get(json, "stop_reason")) == LastStop(events)
  }

  /** A message collects one call for each tool block, numbered in order, with its printed input. */
  lemma {:induction false} CollectsTools(blocks: seq<Json>)
    ensures var calls, tools := Collect(blocks).toolCalls, ToolBlocks(blocks);
      && |calls| == |tools|
      && forall k | 0 <= k < |calls| :: calls[k] ==
           ToolCall(k, AsStr(Get(tools[k], "id")), OrElse(AsStr(Get(tools[k], "name")), ""), PrintedInput(tools[k]))
  {
    hide Get, AsStr, Print;
    if blocks == [] {
    } else {
      CollectsTools(blocks[..|blocks| - 1]);
    }
  }

  lemma {:induction false} CallsNumbered(events: seq<Event>, first: nat)
    ensures forall k | 0 <= k < |CallsOf(events, first)| :: CallsOf(events, first)[k].index == first + k
  {
    hide InputAhead;
    if events == [] {
    } else {
      CallsNumbered(events[1..], if events[0].ToolStart? then first + 1 else first);
    }
  }

  lemma SameCallsExactly(events: seq<Event>, blocks: seq<Json>)
    requires SameTools(events, blocks)
    ensures Spoken(events).toolCalls == Collect(blocks).toolCalls <==> SameArguments(events, blocks)
  {
    hide Collect, CallsOf, Get, AsStr, PrintedInput, ToolBlocks;
    CollectsTools(blocks);
    CallsNumbered(events, 0);
  }

  /** What the aggregation holds and has been told, in the terms of the complete message. */
  ghost predicate Received(s: State, json: Json, c: Collected)
    requires s.Valid()
  {
    var tokens := ParseAnthropicUsage(Get(json, "usage"));
    var stop := AsStr(Get(json, "stop_reason"));
    && Holds(s, c)
    && (s.toolCalls == map[] <==> c.toolCalls == [])
    && s.promptTokens == OrElse(tokens.prompt, 0)
    && s.completionTokens == OrElse(tokens.completion, 0)
    && s.finishReason == if stop.Some? then Some(MapStopReason(stop.value)) else None
  }

  lemma ReceivesAll(events: seq<Event>, json: Json)
    requires Tells(events, json)
    ensures Received(Run(INITIAL, events).state, json, Spoken(events))
  {
    hide Run, Collect, Spoken, MapStopReason, ParseAnthropicUsage, LastPrompt, LastCompletion, LastStop, AsStr, Get,
      AsArray, SameTools;
    RunSpeaks(events);
    RunAnnouncements(INITIAL, events);
    var s := Run(INITIAL, events).state;
    assert |s.Calls()| == |s.toolCalls|;
  }

  lemma FinishAgrees(s: State, json: Json, c: Collected, hasSchema: bool, format: ResponseFormat, parse: Parser)
    requires s.Valid() && Received(s, json, c)
    requires parse("").Err?
    ensures Agree(Finish(s, StreamIsStructured(hasSchema, format), parse), Respond(json, c, hasSchema, parse))
       <==> !PathsPart(c, hasSchema, format)
  {
    hide Received, Trim, Finish, Respond, Agree, StructuredValue, State.Valid;
    if c.toolCalls == [] && Trim(c.content) == "" {
      SilentAgrees(s, json, c, hasSchema, format, parse);
    } else {
      SpokenAgrees(s, json, c, hasSchema, format, parse);
    }
  }

  lemma SpokenAgrees(s: State, json: Json, c: Collected, hasSchema: bool, format: ResponseFormat, parse: Parser)
    requires s.Valid() && Received(s, json, c)
    requires c.toolCalls != [] || Trim(c.content) != ""
    ensures Agree(Finish(s, StreamIsStructured(hasSchema, format), parse), Respond(json, c, hasSchema, parse))
       <==> c.toolCalls != [] || hasSchema || format == TextFormat
  {
    hide Trim, MapStopReason, ParseAnthropicUsage, AsStr, Get, StructuredValue, State.Valid, State.Calls;
    TrimTwice(c.content);
    TrimNothing();
    SameStructured(c.content, parse);
  }

  lemma SilentAgrees(s: State, json: Json, c: Collected, hasSchema: bool, format: ResponseFormat, parse: Parser)
    requires s.Valid() && Received(s, json, c)
    requires c.toolCalls == [] && Trim(c.content) == "" && parse("").Err?
    ensures Agree(Finish(s, StreamIsStructured(hasSchema, format), parse), Respond(json, c, hasSchema, parse))
       <==> !PathsPart(c, hasSchema, format)
  {
    hide Trim, MapStopReason, ParseAnthropicUsage, AsStr, Get, StructuredValue, State.Valid, State.Calls;
    BlankValue(parse);
  }

  lemma TrimNothing()
    ensures Trim("") == ""
  {
  }

  lemma SameStructured(content: string, parse: Parser)
    ensures StructuredValue(Trim(content), parse) == StructuredValue(content, parse)
  {
    hide Trim, Fences, Lines;
    TrimTwice(content);
  }

  lemma BlankValue(parse: Parser)
    requires parse("").Err?
    ensures StructuredValue("", parse).Err?
  {
  }

  /** With tool calls both paths succeed, so calls that differ in anything keep them apart. */
  lemma OtherCallsDisagree(events: seq<Event>, json: Json, structured: bool, hasSchema: bool, parse: Parser)
    requires Spoken(events).toolCalls != []
    requires var content := AsArray(Get(json, "content"));
      content.Some? ==> Collect(content.value).toolCalls != Spoken(events).toolCalls
    ensures var r := Finish(Run(INITIAL, events).state, structured, parse);
      r.Ok? && !Agree(r, MessageOutcome(json, hasSchema, parse))
  {
    hide Run, Spoken, Collect, StructuredValue, Trim, MapStopReason, ParseAnthropicUsage, State.Valid, State.Calls;
    RunSpeaks(events);
    var s := Run(INITIAL, events).state;
    assert |s.Calls()| == |s.toolCalls|;
  }

  /**
   For every event sequence that tells a message, in any interleaving and with tool inputs spelled in
   any way, the stream has the outcome of the message parsed whole, if and only if every tool input
   is spelled as the message prints it and the two paths do not part.
   */
  lemma StreamAgreesWithMessage(events: seq<Event>, json: Json, hasSchema: bool, format: ResponseFormat, parse: Parser)
    requires Tells(events, json) && parse("").Err?
    ensures Agree(
        Finish(Run(INITIAL, events).state, StreamIsStructured(hasSchema, format), parse),
        MessageOutcome(json, hasSchema, parse))
      <==> SameArguments(events, AsArray(Get(json, "content")).value) && !PathsPart(Spoken(events), hasSchema, format)
  {
    hide State.Valid, Run, Finish, Respond, Collect, PathsPart, Agree, Received, StreamIsStructured, SameTools,
      SameArguments, CallsOf, TextOf, ThinkingOf;
    var blocks := AsArray(Get(json, "content")).value;
    SameCallsExactly(events, blocks);
    if SameArguments(events, blocks) {
      ReceivesAll(events, json);
      FinishAgrees(Run(INITIAL, events).state, json, Spoken(events), hasSchema, format, parse);
    } else {
      SameToolsSameNumber(events, blocks);
      OtherCallsDisagree(events, json, StreamIsStructured(hasSchema, format), hasSchema, parse);
    }
  }

  lemma SameToolsSameNumber(events: seq<Event>, blocks: seq<Json>)
    requires SameTools(events, blocks) && !SameArguments(events, blocks)
    ensures Spoken(events).toolCalls != []
  {
  }

  // ---- Tool inputs that are spelled differently ----

  /** A parsed message never has empty arguments: it prints the input, or `{}`. */
  lemma PrintedNeverEmpty(block: Json)
    ensures PrintedInput(block) != ""
  {
    hide Print;
    var input := Get(block, "input");
    if input.Some? {
      PrintHead(input.value, "");
    }
  }

  /** So a stream in which some tool is sent no input succeeds and agrees with no complete message at all. */
  lemma SilentToolAgreesWithNothing(events: seq<Event>, k: nat, json: Json, structured: bool, hasSchema: bool,
                                    parse: Parser)
    requires k < |Spoken(events).toolCalls| && Spoken(events).toolCalls[k].arguments == ""
    ensures var r := Finish(Run(INITIAL, events).state, structured, parse);
      r.Ok? && !Agree(r, MessageOutcome(json, hasSchema, parse))
  {
    hide Run, Spoken, Collect, Finish, MessageOutcome, Agree, PrintedInput;
    var content := AsArray(Get(json, "content"));
    if content.Some? {
      CollectsTools(content.value);
      if k < |ToolBlocks(content.value)| {
        PrintedNeverEmpty(ToolBlocks(content.value)[k]);
      }
    }
    OtherCallsDisagree(events, json, structured, hasSchema, parse);
  }

  function ToolBlock(id: string, name: string, input: Json): Json {
    Obj([Member("type", Str("tool_use")), Member("id", Str(id)), Member("name", Str(name)), Member("input", input)])
  }

  /** A tool whose whole input arrives in one piece. */
  function ToolEvents(id: string, name: string, input: string): seq<Event> {
    [ToolStart(0, Some(id), name), InputDelta(0, input)]
  }

  lemma ToolEventsSay(id: string, name: string, input: string)
    ensures Spoken(ToolEvents(id, name, input)) == Collected("", "", [ToolCall(0, Some(id), name, input)])
  {
    var events := ToolEvents(id, name, input);
    var rest := events[1..];
    assert rest == [InputDelta(0, input)] && rest[1..] == [];
    assert input + "" == input;
    NoText(events);
    NoThinking(events);
    assert InputAhead(rest, 0) == input;
    assert CallsOf(rest, 1) == [];
    assert CallsOf(events, 0) == [ToolCall(0, Some(id), name, input)] + [];
  }

  lemma ToolBlockRead(id: string, name: string, input: Json)
    ensures ToolBlocks([ToolBlock(id, name, input)]) == [ToolBlock(id, name, input)]
    ensures PrintedInput(ToolBlock(id, name, input)) == Print(input)
  {
    hide Print;
    var block := ToolBlock(id, name, input);
    var m := block.members;
    assert "type"[0] != "input"[0] && "name"[0] != "input"[0];
    assert "id" != "input" by { assert |"id"| != |"input"|; }
    assert m[1..][1..] == m[2..] && m[2..][1..] == m[3..];
    assert Lookup(m[3..], "input") == Some(input);
    assert Lookup(m[2..], "input") == Some(input);
    assert Lookup(m[1..], "input") == Some(input);
    assert Get(block, "input") == Some(input);
    assert Get(block, "type") == Some(Str("tool_use"));
    assert [block][..0] == [];
  }

  /** Any spelling of a tool's input other than the printed one keeps stream and message apart. */
  lemma OtherSpellingDisagrees(id: string, name: string, input: Json, spelled: string, json: Json,
                               structured: bool, hasSchema: bool, parse: Parser)
    requires AsArray(Get(json, "content")) == Some([ToolBlock(id, name, input)]) && spelled != Print(input)
    ensures var r := Finish(Run(INITIAL, ToolEvents(id, name, spelled)).state, structured, parse);
      r.Ok? && !Agree(r, MessageOutcome(json, hasSchema, parse))
  {
    hide Print, Finish, MessageOutcome, Agree, Run, Spoken, Collect, ToolBlocks, PrintedInput, ToolBlock, ToolEvents;
    ToolEventsSay(id, name, spelled);
    ToolBlockRead(id, name, input);
    CollectsTools([ToolBlock(id, name, input)]);
    assert Collect([ToolBlock(id, name, input)]).toolCalls[0].arguments == Print(input);
    OtherCallsDisagree(ToolEvents(id, name, spelled), json, structured, hasSchema, parse);
  }

  const ONE: Json := Obj([Member("a", Num("1"))])
  const TWO: Json := Obj([Member("a", Num("1")), Member("b", Num("2"))])

  lemma PrintsShort(key: string, digit: Numeral)
    requires |key| == 1 && key[0] in "ab"
    ensures PrintMember(Member(key, Num(digit))) == "\"" + key + "\":" + digit
  {
    assert key[1..] == "" && Escape(key) == key;
  }

  lemma PrintsOne()
    ensures Print(ONE) == "{\"a\":1}"
  {
    PrintsShort("a", "1");
    assert ONE.members[1..] == [];
  }

  lemma PrintsTwo()
    ensures Print(TWO) == "{\"a\":1,\"b\":2}"
  {
    hide PrintMember;
    PrintsShort("a", "1");
    PrintsShort("b", "2");
    var b := [Member("b", Num("2"))];
    assert TWO.members[1..] == b && b[1..] == [];
    assert PrintMembers(b) == "," + ("\"b\":2" + "}");
  }

  /** One space after the colon, or keys in another order than the printed one, are such spellings. */
  lemma LayoutAndKeyOrderDisagree(id: string, name: string, json: Json, structured: bool, hasSchema: bool,
                                  parse: Parser)
    ensures AsArray(Get(json, "content")) == Some([ToolBlock(id, name, ONE)]) ==>
      !Agree(Finish(Run(INITIAL, ToolEvents(id, name, "{\"a\": 1}")).state, structured, parse),
        MessageOutcome(json, hasSchema, parse))
    ensures AsArray(Get(json, "content")) == Some([ToolBlock(id, name, TWO)]) ==>
      !Agree(Finish(Run(INITIAL, ToolEvents(id, name, "{\"b\":2,\"a\":1}")).state, structured, parse),
        MessageOutcome(json, hasSchema, parse))
  {
    hide Print, Finish, MessageOutcome, Agree, Run, ToolBlock, ToolEvents, Get, AsArray;
    var content := AsArray(Get(json, "content"));
    PrintsOne();
    PrintsTwo();
    assert "{\"a\":1}"[5] != "{\"a\": 1}"[5];
    assert "{\"a\":1,\"b\":2}"[2] != "{\"b\":2,\"a\":1}"[2];
    if content == Some([ToolBlock(id, name, ONE)]) {
      OtherSpellingDisagrees(id, name, ONE, "{\"a\": 1}", json, structured, hasSchema, parse);
    }
    if content == Some([ToolBlock(id, name, TWO)]) {
      OtherSpellingDisagrees(id, name, TWO, "{\"b\":2,\"a\":1}", json, structured, hasSchema, parse);
    }
  }

  // ---- The two ways to part exist ----

  function TextBlock(text: string): Json {
    Obj([Member("type", Str("text")), Member("text", Str(text))])
  }

  lemma CollectText(text: string)
    ensures Collect([TextBlock(text)]) == Collected(text, "", [])
  {
    var block := TextBlock(text);
    assert "type"[1] != "text"[1];
    assert Lookup(block.members[1..], "text") == Some(Str(text));
    assert Get(block, "type") == Some(Str("text")) && Get(block, "text") == Some(Str(text));
    assert DecodeBlock(block) == Text(text);
    assert [block][..0] == [] && "" + text == text;
    assert Collect([block]) == CollectNext(Collect([]), block);
  }

  lemma TextSaid(text: string)
    ensures Spoken([TextDelta(text)]) == Collected(text, "", [])
  {
    var events := [TextDelta(text)];
    var rest: seq<Event> := [];
    assert events[1..] == rest && TextOf(rest) == "" && text + "" == text;
    assert TextOf(events) == text + TextOf(rest);
    NoThinking(events);
    NoCalls(events, 0);
  }

  /** A single space succeeds as a stream and fails as the one text block of a message. */
  lemma BlankTextDiffers(json: Json, parse: Parser)
    requires AsArray(Get(json, "content")) == Some([TextBlock(" ")])
    ensures Finish(Run(INITIAL, [TextDelta(" ")]).state, false, parse).Ok?
    ensures MessageOutcome(json, false, parse).Err?
  {
    hide StructuredValue, Trim, Collect, Spoken, Run, State.Valid, State.Calls, ParseAnthropicUsage, MapStopReason,
      TextBlock;
    CollectText(" ");
    TextSaid(" ");
    RunSpeaks([TextDelta(" ")]);
    TrimEmpty(" ");
  }

  /**
   The text `hi`, asked for as JSON without a schema: parsed whole it has no value; a stream has one
   or fails.
   */
  lemma JsonFormatDiffers(json: Json, parse: Parser)
    requires AsArray(Get(json, "content")) == Some([TextBlock("hi")])
    ensures var r := MessageOutcome(json, false, parse); r.Ok? && r.value.json == None
    ensures var r := Finish(Run(INITIAL, [TextDelta("hi")]).state, StreamIsStructured(false, JsonFormat), parse);
      if StructuredValue("hi", parse).Ok? then r.Ok? && r.value.json.Some? else r.Err? && r.error.JsonSchemaViolation?
  {
    hide Finish, Respond, Collect, Trim, StructuredValue, Spoken, Run, State.Valid, State.Calls, TextBlock;
    CollectText("hi");
    TextSaid("hi");
    RunSpeaks([TextDelta("hi")]);
    TrimOfTrimmed("hi");
    SpokenWhole(json, Collected("hi", "", []), parse);
    SpokenStream(Run(INITIAL, [TextDelta("hi")]).state, parse);
  }

  lemma SpokenWhole(json: Json, c: Collected, parse: Parser)
    requires c.toolCalls == [] && Trim(c.content) != ""
    ensures var r := Respond(json, c, false, parse); r.Ok? && r.value.json == None
  {
    hide Trim, StructuredValue, ParseAnthropicUsage, AsStr, Get, MapStopReason;
  }

  lemma SpokenStream(s: State, parse: Parser)
    requires s.Valid() && s.Calls() == [] && Trim(s.content) != ""
    ensures var r := Finish(s, true, parse); var value := StructuredValue(s.content, parse);
      if value.Ok? then r.Ok? && r.value.json == Some(value.value) else r.Err? && r.error.JsonSchemaViolation?
  {
    hide Trim, StructuredValue;
    TrimNothing();
    assert |s.Calls()| == |s.toolCalls|;
  }

  // ---- From the received text to the outcome ----

  /** The split events carry exactly these stream events and then `message_stop`; what follows it does not matter. */
  predicate Delivers(received: seq<string>, events: seq<Event>, parse: Parser)
    decreases |received|
  {
    received != [] &&
    match Sse.Data(received[0])
    case None => Delivers(received[1..], events, parse)
    case Some(data) =>
      match parse(data)
      case Err(_) => false
      case Ok(json) =>
        var e := Decode(json);
        if e.MessageStop? then events == []
        else !e.Error? && events != [] && events[0] == e && Delivers(received[1..], events[1..], parse)
  }

  lemma {:induction false} ConsumeDelivered(t: Trace, received: seq<string>, events: seq<Event>, parse: Parser)
    requires Delivers(received, events, parse)
    ensures Sse.Consume(Sse.Running(t), received, Handle(parse)) == Sse.Stopped(Run(t, events))
    decreases |received|
  {
    hide Sse.Data, Apply, Decode;
    match Sse.Data(received[0])
    case None => ConsumeDelivered(t, received[1..], events, parse);
    case Some(data) =>
      var e := Decode(parse(data).value);
      if e.MessageStop? {
        Sse.ConsumeDone(Sse.Stopped(t), received[1..], Handle(parse));
      } else {
        ConsumeDelivered(Apply(t, e), received[1..], events[1..], parse);
      }
  }

  /**
   End to end: whatever the chunks, tidy text that delivers events telling a message gives the outcome
   of parsing the message whole, if and only if tool inputs are spelled as printed and the paths do
   not part.
   */
  lemma ChunkedStreamAgreesWithMessage(chunks: seq<string>, events: seq<Event>, json: Json,
                                       hasSchema: bool, format: ResponseFormat, parse: Parser)
    requires Sse.Tidy(Sse.Concat(chunks))
    requires Delivers(Sse.Split(Sse.Concat(chunks)).list, events, parse)
    requires Tells(events, json) && parse("").Err?
    ensures Agree(StreamOutcome(chunks, hasSchema, format, parse).0, MessageOutcome(json, hasSchema, parse))
       <==> SameArguments(events, AsArray(Get(json, "content")).value)
            && !PathsPart(Spoken(events), hasSchema, format)
  {
    hide Sse.Tidy, Sse.Split, Delivers, Tells, Finish, MessageOutcome, PathsPart, Agree, Handle, Run, Sse.Consume,
      Sse.ReadChunks, Spoken, StreamIsStructured, SameArguments;
    Sse.ReadingIgnoresChunks(Sse.Running(INITIAL), chunks, Handle(parse));
    ConsumeDelivered(INITIAL, Sse.Split(Sse.Concat(chunks)).list, events, parse);
    StreamAgreesWithMessage(events, json, hasSchema, format, parse);
  }
}
