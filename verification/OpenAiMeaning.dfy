/**
 What a list of chunks of an OpenAI-compatible stream says (crates/coevo-models/src/openai.rs), read
 field by field without the aggregate, and the stream returns exactly that.
 */
module OpenAiMeaning {
  import opened Prelude
  import opened Text
  import opened ModelTypes
  import opened StructuredText
  import opened OpenAiStream
  import Sse
  import SseFraming

  function Run(t: Trace, chunks: seq<Chunk>): Trace
    decreases |chunks|
  {
    if chunks == [] then t else Run(Apply(t, chunks[0]), chunks[1..])
  }

  // ---- What the chunks say ----

  function ContentSaid(chunks: seq<Chunk>): string {
    if chunks == [] then "" else OrElse(chunks[0].content, "") + ContentSaid(chunks[1..])
  }

  function ReasoningSaid(chunks: seq<Chunk>): string {
    if chunks == [] then "" else OrElse(chunks[0].reasoning, "") + ReasoningSaid(chunks[1..])
  }

  /** The later of two announcements, if there is one. */
  function Later<T>(first: Option<T>, second: Option<T>): Option<T> {
    if second.Some? then second else first
  }

  function LastFinish(chunks: seq<Chunk>): Option<string> {
    if chunks == [] then None else Later(chunks[0].finishReason, LastFinish(chunks[1..]))
  }

  function LastUsage(chunks: seq<Chunk>): Option<Usage> {
    if chunks == [] then None else Later(chunks[0].usage, LastUsage(chunks[1..]))
  }

  /** All tool deltas, in order. */
  function Deltas(chunks: seq<Chunk>): seq<ToolDelta> {
    if chunks == [] then [] else chunks[0].tools + Deltas(chunks[1..])
  }

  predicate Mentions(deltas: seq<ToolDelta>, k: nat) {
    exists i | 0 <= i < |deltas| :: deltas[i].index == k
  }

  function LastId(deltas: seq<ToolDelta>, k: nat): Option<string> {
    if deltas == [] then None
    else Later(if deltas[0].index == k then deltas[0].id else None, LastId(deltas[1..], k))
  }

  function LastName(deltas: seq<ToolDelta>, k: nat): Option<string> {
    if deltas == [] then None
    else Later(if deltas[0].index == k then deltas[0].name else None, LastName(deltas[1..], k))
  }

  function AllArguments(deltas: seq<ToolDelta>, k: nat): string {
    if deltas == [] then ""
    else (if deltas[0].index == k then deltas[0].arguments else "") + AllArguments(deltas[1..], k)
  }

  /** The call of one index: the last id and name sent, and all its argument fragments in order. */
  function CallSaid(deltas: seq<ToolDelta>, k: nat): Option<ToolCall> {
    if Mentions(deltas, k) then
      Some(ToolCall(k, LastId(deltas, k), OrElse(LastName(deltas, k), ""), AllArguments(deltas, k)))
    else None
  }

  /** These are the calls said, one for each index, in the order of the indices. */
  ghost predicate AreCallsSaid(calls: seq<ToolCall>, deltas: seq<ToolDelta>) {
    Ordered(calls) && forall k: nat :: CallAt(calls, k) == CallSaid(deltas, k)
  }

  // ---- The aggregate holds what was said ----

  lemma {:induction false} ToolsLeaveRest(t: Trace, tools: seq<ToolDelta>)
    ensures var agg := ApplyTools(t, tools).agg; agg == t.agg.(toolCalls := agg.toolCalls)
  {
    hide MergeTool, Put;
    if tools == [] {
    } else {
      ToolsLeaveRest(t, tools[..|tools| - 1]);
    }
  }

  lemma ChunkStep(t: Trace, c: Chunk)
    ensures var agg := Apply(t, c).agg;
      && agg.content == t.agg.content + OrElse(c.content, "")
      && agg.reasoning == t.agg.reasoning + OrElse(c.reasoning, "")
      && agg.finishReason == Later(t.agg.finishReason, c.finishReason)
      && agg.usage == OrElse(c.usage, t.agg.usage)
      && agg.toolCalls == ApplyTools(ApplyContent(ApplyReasoning(t, c.reasoning), c.content), c.tools).agg.toolCalls
  {
    hide ApplyTools;
    assert t.agg.content + "" == t.agg.content && t.agg.reasoning + "" == t.agg.reasoning;
    ToolsLeaveRest(ApplyContent(ApplyReasoning(t, c.reasoning), c.content), c.tools);
  }

  lemma {:induction false} RunSays(t: Trace, chunks: seq<Chunk>)
    ensures var agg := Run(t, chunks).agg;
      && agg.content == t.agg.content + ContentSaid(chunks)
      && agg.reasoning == t.agg.reasoning + ReasoningSaid(chunks)
      && agg.finishReason == Later(t.agg.finishReason, LastFinish(chunks))
      && agg.usage == OrElse(LastUsage(chunks), t.agg.usage)
    decreases |chunks|
  {
    hide Apply;
    var content, reasoning := t.agg.content, t.agg.reasoning;
    if chunks == [] {
      assert content + "" == content && reasoning + "" == reasoning;
    } else {
      var c, rest := chunks[0], chunks[1..];
      ChunkStep(t, c);
      RunSays(Apply(t, c), rest);
      Text3(content, OrElse(c.content, ""), ContentSaid(rest));
      Text3(reasoning, OrElse(c.reasoning, ""), ReasoningSaid(rest));
    }
  }

  lemma Text3(a: string, b: string, c: string)
    ensures (a + b) + c == a + (b + c)
  {
  }

  /** One call after further deltas for its index. */
  function Continued(before: Option<ToolCall>, deltas: seq<ToolDelta>, k: nat): Option<ToolCall> {
    if !Mentions(deltas, k) then before
    else
      var call := OrElse(before, ToolCall(k, None, "", ""));
      Some(call.(
        id := Later(call.id, LastId(deltas, k)),
        name := OrElse(LastName(deltas, k), call.name),
        arguments := call.arguments + AllArguments(deltas, k)))
  }

  lemma ToolStep(t: Trace, d: ToolDelta, k: nat)
    requires Ordered(t.agg.toolCalls)
    ensures Ordered(ApplyTool(t, d).agg.toolCalls)
    ensures CallAt(ApplyTool(t, d).agg.toolCalls, k) == Continued(CallAt(t.agg.toolCalls, k), [d], k)
  {
    hide CallAt, Put, Ordered;
    var calls := t.agg.toolCalls;
    var call := MergeTool(calls, d);
    PutOrdered(calls, call);
    CallAtIn(calls, d.index);
    CallAtPut(calls, call, k);
    SingleDelta(d, k);
  }

  lemma SingleDelta(d: ToolDelta, k: nat)
    ensures Mentions([d], k) <==> d.index == k
    ensures LastId([d], k) == (if d.index == k then d.id else None)
    ensures LastName([d], k) == (if d.index == k then d.name else None)
    ensures AllArguments([d], k) == if d.index == k then d.arguments else ""
  {
    assert [d][0] == d && [d][1..] == [];
    assert d.arguments + "" == d.arguments && "" + "" == "";
  }

  lemma {:induction false} DeltasConcat(a: seq<ToolDelta>, b: seq<ToolDelta>, k: nat)
    ensures Mentions(a + b, k) <==> Mentions(a, k) || Mentions(b, k)
    ensures LastId(a + b, k) == Later(LastId(a, k), LastId(b, k))
    ensures LastName(a + b, k) == Later(LastName(a, k), LastName(b, k))
    ensures AllArguments(a + b, k) == AllArguments(a, k) + AllArguments(b, k)
  {
    MentionsConcat(a, b, k);
    hide Mentions;
    if a == [] {
      assert a + b == b;
      assert "" + AllArguments(b, k) == AllArguments(b, k);
    } else {
      assert (a + b)[1..] == a[1..] + b;
      DeltasConcat(a[1..], b, k);
      Text3(if a[0].index == k then a[0].arguments else "", AllArguments(a[1..], k), AllArguments(b, k));
    }
  }

  lemma MentionsConcat(a: seq<ToolDelta>, b: seq<ToolDelta>, k: nat)
    ensures Mentions(a + b, k) <==> Mentions(a, k) || Mentions(b, k)
  {
    if Mentions(a, k) {
      var i :| 0 <= i < |a| && a[i].index == k;
      assert (a + b)[i].index == k;
    }
    if Mentions(b, k) {
      var i :| 0 <= i < |b| && b[i].index == k;
      assert (a + b)[|a| + i].index == k;
    }
  }

  lemma ContinuedTwice(before: Option<ToolCall>, a: seq<ToolDelta>, b: seq<ToolDelta>, k: nat)
    ensures Continued(Continued(before, a, k), b, k) == Continued(before, a + b, k)
  {
    hide Mentions, LastId, LastName, AllArguments;
    DeltasConcat(a, b, k);
    Unmentioned(a, k);
    Unmentioned(b, k);
    var start := OrElse(before, ToolCall(k, None, "", "")).arguments;
    Text3(start, AllArguments(a, k), AllArguments(b, k));
    assert AllArguments(a, k) + "" == AllArguments(a, k) && "" + AllArguments(b, k) == AllArguments(b, k);
  }

  lemma {:induction false} Unmentioned(deltas: seq<ToolDelta>, k: nat)
    ensures !Mentions(deltas, k) ==>
      LastId(deltas, k) == None && LastName(deltas, k) == None && AllArguments(deltas, k) == ""
  {
    if deltas == [] {
    } else {
      MentionsConcat([deltas[0]], deltas[1..], k);
      assert [deltas[0]] + deltas[1..] == deltas;
      Unmentioned(deltas[1..], k);
      assert "" + "" == "";
    }
  }

  lemma {:induction false} ToolsSay(t: Trace, tools: seq<ToolDelta>, k: nat)
    requires Ordered(t.agg.toolCalls)
    ensures Ordered(ApplyTools(t, tools).agg.toolCalls)
    ensures CallAt(ApplyTools(t, tools).agg.toolCalls, k) == Continued(CallAt(t.agg.toolCalls, k), tools, k)
  {
    hide CallAt, Ordered, ApplyTool, Continued;
    if tools == [] {
      NothingContinued(CallAt(t.agg.toolCalls, k), k);
    } else {
      var n := |tools| - 1;
      var before := ApplyTools(t, tools[..n]);
      ToolsSay(t, tools[..n], k);
      ToolStep(before, tools[n], k);
      ContinuedTwice(CallAt(t.agg.toolCalls, k), tools[..n], [tools[n]], k);
      assert tools[..n] + [tools[n]] == tools;
    }
  }

  lemma NothingContinued(before: Option<ToolCall>, k: nat)
    ensures Continued(before, [], k) == before
  {
  }

  lemma {:induction false} RunCalls(t: Trace, chunks: seq<Chunk>, k: nat)
    requires Ordered(t.agg.toolCalls)
    ensures Ordered(Run(t, chunks).agg.toolCalls)
    ensures CallAt(Run(t, chunks).agg.toolCalls, k) == Continued(CallAt(t.agg.toolCalls, k), Deltas(chunks), k)
    decreases |chunks|
  {
    hide CallAt, Ordered, Apply, ApplyTools, Continued;
    if chunks == [] {
      NothingContinued(CallAt(t.agg.toolCalls, k), k);
    } else {
      var c := chunks[0];
      ChunkStep(t, c);
      ToolsSay(ApplyContent(ApplyReasoning(t, c.reasoning), c.content), c.tools, k);
      RunCalls(Apply(t, c), chunks[1..], k);
      ContinuedTwice(CallAt(t.agg.toolCalls, k), c.tools, Deltas(chunks[1..]), k);
    }
  }

  /** The aggregate after these chunks, in the terms of the chunks alone. */
  ghost predicate Holds(agg: Aggregate, chunks: seq<Chunk>) {
    && agg.content == ContentSaid(chunks)
    && agg.reasoning == ReasoningSaid(chunks)
    && agg.finishReason == LastFinish(chunks)
    && agg.usage == OrElse(LastUsage(chunks), NO_USAGE)
    && AreCallsSaid(agg.toolCalls, Deltas(chunks))
  }

  /**
   After every list of chunks: content and reasoning are the concatenations of the chunks' own fields,
   each index has one call with the last id and name sent and all its argument fragments, and usage
   and finish reason are the last announced.
   */
  lemma ChunksAreHeld(chunks: seq<Chunk>)
    ensures Holds(Run(Trace(EMPTY, []), chunks).agg, chunks)
  {
    hide Run, CallAt;
    var t := Trace(EMPTY, []);
    RunSays(t, chunks);
    assert "" + ContentSaid(chunks) == ContentSaid(chunks) && "" + ReasoningSaid(chunks) == ReasoningSaid(chunks);
    forall k: nat
      ensures CallAt(Run(t, chunks).agg.toolCalls, k) == CallSaid(Deltas(chunks), k)
    {
      RunCalls(t, chunks, k);
      NoCallYet(k);
      assert "" + AllArguments(Deltas(chunks), k) == AllArguments(Deltas(chunks), k);
    }
    RunCalls(t, chunks, 0);
  }

  lemma NoCallYet(k: nat)
    ensures CallAt([], k) == None
  {
  }

  // ---- The events, chunk by chunk ----

  function TextEvents(c: Chunk): seq<StreamEvent> {
    (if c.reasoning.Some? then [ReasoningDelta(c.reasoning.value)] else [])
    + if c.content.Some? then [ContentDelta(c.content.value)] else []
  }

  /** One event for each tool delta, with the last id sent for its index so far. */
  function ToolEvents(said: seq<ToolDelta>, tools: seq<ToolDelta>): seq<StreamEvent>
    decreases |tools|
  {
    if tools == [] then []
    else
      var d, sofar := tools[0], said + [tools[0]];
      [ToolCallDelta(d.index, LastId(sofar, d.index), d.name, d.arguments)] + ToolEvents(sofar, tools[1..])
  }

  /** Reasoning, content and tool deltas of each chunk, in this order. */
  function EventsSaid(said: seq<ToolDelta>, chunks: seq<Chunk>): seq<StreamEvent>
    decreases |chunks|
  {
    if chunks == [] then []
    else
      TextEvents(chunks[0]) + ToolEvents(said, chunks[0].tools) + EventsSaid(said + chunks[0].tools, chunks[1..])
  }

  lemma ToolEmits(t: Trace, d: ToolDelta, said: seq<ToolDelta>)
    requires AreCallsSaid(t.agg.toolCalls, said)
    ensures ApplyTool(t, d).events
      == t.events + [ToolCallDelta(d.index, LastId(said + [d], d.index), d.name, d.arguments)]
    ensures AreCallsSaid(ApplyTool(t, d).agg.toolCalls, said + [d])
  {
    hide CallAt, Put, Ordered, Mentions, LastId, LastName, AllArguments;
    DeltasConcat(said, [d], d.index);
    SingleDelta(d, d.index);
    Unmentioned(said, d.index);
    CallAtIn(t.agg.toolCalls, d.index);
    assert CallAt(t.agg.toolCalls, d.index) == CallSaid(said, d.index);
    forall k: nat
      ensures CallAt(ApplyTool(t, d).agg.toolCalls, k) == CallSaid(said + [d], k)
    {
      ToolStep(t, d, k);
      SaidIsContinued(said, k);
      SaidIsContinued(said + [d], k);
      ContinuedTwice(None, said, [d], k);
    }
    ToolStep(t, d, 0);
  }

  lemma SaidIsContinued(deltas: seq<ToolDelta>, k: nat)
    ensures CallSaid(deltas, k) == Continued(None, deltas, k)
  {
    hide Mentions, LastId, LastName, AllArguments;
    assert "" + AllArguments(deltas, k) == AllArguments(deltas, k);
  }

  lemma {:induction false} ToolsEmit(t: Trace, tools: seq<ToolDelta>, said: seq<ToolDelta>)
    requires AreCallsSaid(t.agg.toolCalls, said)
    ensures ApplyTools(t, tools).events == t.events + ToolEvents(said, tools)
    ensures AreCallsSaid(ApplyTools(t, tools).agg.toolCalls, said + tools)
    decreases |tools|
  {
    hide AreCallsSaid, ApplyTool, LastId;
    if tools == [] {
      assert said + tools == said && t.events + [] == t.events;
    } else {
      var n := |tools| - 1;
      var before, last := ApplyTools(t, tools[..n]), tools[n];
      ToolsEmit(t, tools[..n], said);
      ToolEmits(before, last, said + tools[..n]);
      assert said + tools[..n] + [last] == said + tools;
      LastToolEvent(said, tools[..n], last);
      assert tools == tools[..n] + [last];
      assert t.events + ToolEvents(said, tools[..n]) + [ToolEvent(said + tools, last)]
        == t.events + (ToolEvents(said, tools[..n]) + [ToolEvent(said + tools, last)]);
    }
  }

  function ToolEvent(said: seq<ToolDelta>, d: ToolDelta): StreamEvent {
    ToolCallDelta(d.index, LastId(said, d.index), d.name, d.arguments)
  }

  lemma {:induction false} LastToolEvent(said: seq<ToolDelta>, tools: seq<ToolDelta>, last: ToolDelta)
    ensures ToolEvents(said, tools + [last]) == ToolEvents(said, tools) + [ToolEvent(said + tools + [last], last)]
    decreases |tools|
  {
    hide LastId;
    var all := tools + [last];
    if tools == [] {
      assert all == [last] && all[1..] == [] && said + tools == said;
    } else {
      assert all[0] == tools[0] && all[1..] == tools[1..] + [last];
      LastToolEvent(said + [tools[0]], tools[1..], last);
      assert said + [tools[0]] + tools[1..] == said + tools;
    }
  }

  lemma ChunkEmits(t: Trace, c: Chunk, said: seq<ToolDelta>)
    requires AreCallsSaid(t.agg.toolCalls, said)
    ensures Apply(t, c).events == t.events + (TextEvents(c) + ToolEvents(said, c.tools))
    ensures AreCallsSaid(Apply(t, c).agg.toolCalls, said + c.tools)
  {
    hide AreCallsSaid, ApplyTools, ToolEvents;
    var t2 := ApplyContent(ApplyReasoning(t, c.reasoning), c.content);
    ToolsEmit(t2, c.tools, said);
    assert t2.events == t.events + TextEvents(c);
    assert (t.events + TextEvents(c)) + ToolEvents(said, c.tools)
      == t.events + (TextEvents(c) + ToolEvents(said, c.tools));
  }

  lemma {:induction false} RunEmits(t: Trace, chunks: seq<Chunk>, said: seq<ToolDelta>)
    requires AreCallsSaid(t.agg.toolCalls, said)
    ensures Run(t, chunks).events == t.events + EventsSaid(said, chunks)
    decreases |chunks|
  {
    hide AreCallsSaid, Apply, TextEvents, ToolEvents;
    if chunks == [] {
      assert t.events + [] == t.events;
    } else {
      var c := chunks[0];
      ChunkEmits(t, c, said);
      RunEmits(Apply(t, c), chunks[1..], said + c.tools);
      var now, later := TextEvents(c) + ToolEvents(said, c.tools), EventsSaid(said + c.tools, chunks[1..]);
      assert (t.events + now) + later == t.events + (now + later);
    }
  }

  /**
   The events are, chunk by chunk, the reasoning delta, the content delta and one event for each tool
   delta, in this order; a completed stream closes with usage and end, a failed one does not.
   */
  lemma StreamEmitsChunks(pieces: seq<string>, chunks: seq<Chunk>, structured: bool, parse: Parser)
    requires Sse.Tidy(Sse.Concat(pieces))
    requires Delivers(Sse.Split(Sse.Concat(pieces)).list, chunks, parse)
    ensures var (r, events) := StreamOutcome(pieces, structured, parse);
      events == EventsSaid([], chunks) + if r.Ok? then Closing(r.value) else []
  {
    hide Sse.Tidy, Sse.Split, Delivers, Finish, Handle, Run, Sse.Consume, Sse.ReadChunks, EventsSaid, Closing;
    var start := Trace(EMPTY, []);
    Sse.ReadingIgnoresChunks(Sse.Running(start), pieces, Handle(parse));
    ConsumeDelivered(start, Sse.Split(Sse.Concat(pieces)).list, chunks, parse);
    NothingCalled();
    RunEmits(start, chunks, []);
    assert [] + EventsSaid([], chunks) == EventsSaid([], chunks);
    assert EventsSaid([], chunks) + [] == EventsSaid([], chunks);
  }

  lemma NothingCalled()
    ensures AreCallsSaid([], [])
  {
  }

  // ---- The outcome of a stream, from what its chunks say ----

  predicate SaysNothing(chunks: seq<Chunk>) {
    ContentSaid(chunks) == "" && ReasoningSaid(chunks) == "" && Deltas(chunks) == []
  }

  /** The answer has to be parsed: asked for as JSON, not blank, and no tool is called. */
  predicate WantsValue(chunks: seq<Chunk>, structured: bool) {
    structured && Deltas(chunks) == [] && Trim(ContentSaid(chunks)) != ""
  }

  /** Result and errors of a completed stream, in the terms of its chunks alone. */
  ghost predicate IsOutcome(r: Result<Response, ModelError>, chunks: seq<Chunk>, structured: bool, parse: Parser) {
    var value := StructuredValue(ContentSaid(chunks), parse);
    if SaysNothing(chunks) then r.Err? && r.error.JsonSchemaViolation? == structured
    else if WantsValue(chunks, structured) && value.Err? then r == Err(JsonSchemaViolation(value.error))
    else
      && r.Ok?
      && r.value.content == ContentSaid(chunks)
      && OrElse(r.value.reasoningContent, "") == ReasoningSaid(chunks)
      && (r.value.reasoningContent.Some? <==> ReasoningSaid(chunks) != "")
      && r.value.json == (if WantsValue(chunks, structured) then Some(value.value) else None)
      && r.value.usage == OrElse(LastUsage(chunks), NO_USAGE)
      && r.value.finishReason == OrElse(LastFinish(chunks), "stop")
      && AreCallsSaid(r.value.toolCalls, Deltas(chunks))
  }

  lemma NoCallsExactly(calls: seq<ToolCall>, deltas: seq<ToolDelta>)
    requires AreCallsSaid(calls, deltas)
    ensures calls == [] <==> deltas == []
  {
    if calls != [] {
      assert CallAt(calls, calls[0].index) == CallSaid(deltas, calls[0].index);
    }
    if deltas != [] {
      assert Mentions(deltas, deltas[0].index);
      assert CallAt(calls, deltas[0].index) == CallSaid(deltas, deltas[0].index);
    }
  }

  lemma FinishIsOutcome(agg: Aggregate, chunks: seq<Chunk>, structured: bool, parse: Parser)
    requires Holds(agg, chunks)
    ensures IsOutcome(Finish(agg, structured, parse), chunks, structured, parse)
  {
    hide AreCallsSaid, StructuredValue, Trim, ContentSaid, ReasoningSaid, Deltas, LastUsage, LastFinish;
    NoCallsExactly(agg.toolCalls, Deltas(chunks));
  }

  /** The split events carry exactly these chunks and then the end marker; what follows it does not matter. */
  predicate Delivers(received: seq<string>, chunks: seq<Chunk>, parse: Parser)
    decreases |received|
  {
    received != [] &&
    match Sse.Data(received[0])
    case None => Delivers(received[1..], chunks, parse)
    case Some(data) =>
      if data == "[DONE]" then chunks == []
      else
        && parse(data).Ok?
        && chunks != [] && chunks[0] == Decode(parse(data).value)
        && Delivers(received[1..], chunks[1..], parse)
  }

  lemma {:induction false} ConsumeDelivered(t: Trace, received: seq<string>, chunks: seq<Chunk>, parse: Parser)
    requires Delivers(received, chunks, parse)
    ensures Sse.Consume(Sse.Running(t), received, Handle(parse)) == Sse.Stopped(Run(t, chunks))
    decreases |received|
  {
    hide Sse.Data, Apply, Decode;
    match Sse.Data(received[0])
    case None => ConsumeDelivered(t, received[1..], chunks, parse);
    case Some(data) =>
      if data == "[DONE]" {
        Sse.ConsumeDone(Sse.Stopped(t), received[1..], Handle(parse));
      } else {
        ConsumeDelivered(Apply(t, chunks[0]), received[1..], chunks[1..], parse);
      }
  }

  /** End to end: tidy text, in whatever pieces, that delivers these chunks ends as the chunks say. */
  lemma StreamSaysChunks(pieces: seq<string>, chunks: seq<Chunk>, structured: bool, parse: Parser)
    requires Sse.Tidy(Sse.Concat(pieces))
    requires Delivers(Sse.Split(Sse.Concat(pieces)).list, chunks, parse)
    ensures IsOutcome(StreamOutcome(pieces, structured, parse).0, chunks, structured, parse)
  {
    hide Sse.Tidy, Sse.Split, Delivers, Finish, Handle, Run, Sse.Consume, Sse.ReadChunks, IsOutcome, Holds;
    var start := Trace(EMPTY, []);
    Sse.ReadingIgnoresChunks(Sse.Running(start), pieces, Handle(parse));
    ConsumeDelivered(start, Sse.Split(Sse.Concat(pieces)).list, chunks, parse);
    ChunksAreHeld(chunks);
    FinishIsOutcome(Run(start, chunks).agg, chunks, structured, parse);
  }

  // ---- From the sender ----

  const DONE: string := "[DONE]"

  /** The payloads carry these chunks, one each. */
  predicate Carry(payloads: seq<string>, chunks: seq<Chunk>, parse: Parser) {
    && |payloads| == |chunks|
    && forall i | 0 <= i < |payloads| ::
         payloads[i] != DONE && parse(payloads[i]).Ok? && Decode(parse(payloads[i]).value) == chunks[i]
  }

  lemma {:induction false} HandlesChunks(t: Trace, payloads: seq<string>, chunks: seq<Chunk>, parse: Parser)
    requires Carry(payloads, chunks, parse)
    ensures SseFraming.HandleAll(Sse.Running(t), payloads, Handle(parse)) == Sse.Running(Run(t, chunks))
    decreases |payloads|
  {
    hide Apply, Decode;
    if payloads == [] {
    } else {
      HandlesChunks(Apply(t, chunks[0]), payloads[1..], chunks[1..], parse);
    }
  }

  /** What a stream of these payloads, whatever follows them, has been handled to. */
  lemma HandlesThen(pieces: seq<string>, payloads: seq<string>, more: seq<string>, d: string, chunks: seq<Chunk>,
                    parse: Parser)
    requires SseFraming.IsDelimiter(d) && forall p | p in payloads + more :: SseFraming.Sendable(p)
    requires Sse.Concat(pieces) == SseFraming.Framed(SseFraming.DataEvents(payloads + more), d, "")
    requires Carry(payloads, chunks, parse)
    ensures Sse.ReadChunks(Sse.Running(Trace(EMPTY, [])), "", pieces, Handle(parse))
         == SseFraming.HandleAll(Sse.Running(Run(Trace(EMPTY, []), chunks)), more, Handle(parse))
  {
    hide Handle, Run, Carry, SseFraming.DataEvents, SseFraming.Framed, SseFraming.Sendable, Sse.Concat,
      SseFraming.HandleAll, Sse.ReadChunks;
    var start := Sse.Running(Trace(EMPTY, []));
    SseFraming.SentPayloadsHandled(start, payloads + more, d, pieces, Handle(parse));
    SseFraming.HandleAllConcat(start, payloads, more, Handle(parse));
    HandlesChunks(Trace(EMPTY, []), payloads, chunks, parse);
  }

  /**
   A sender that writes each chunk as one data line and then the end marker, with one delimiter
   style, is answered as the chunks say, however its bytes are cut on the way.
   */
  lemma SentChunksAnswered(pieces: seq<string>, payloads: seq<string>, d: string, chunks: seq<Chunk>,
                           structured: bool, parse: Parser)
    requires SseFraming.IsDelimiter(d) && forall p | p in payloads + [DONE] :: SseFraming.Sendable(p)
    requires Sse.Concat(pieces) == SseFraming.Framed(SseFraming.DataEvents(payloads + [DONE]), d, "")
    requires Carry(payloads, chunks, parse)
    ensures IsOutcome(StreamOutcome(pieces, structured, parse).0, chunks, structured, parse)
  {
    hide Finish, Run, Sse.ReadChunks, IsOutcome, Holds, Carry, SseFraming.DataEvents, SseFraming.Framed,
      SseFraming.Sendable, Sse.Concat;
    HandlesThen(pieces, payloads, [DONE], d, chunks, parse);
    ChunksAreHeld(chunks);
    FinishIsOutcome(Run(Trace(EMPTY, []), chunks).agg, chunks, structured, parse);
  }

  /** Without the end marker the stream fails, whatever has been said. */
  lemma UnfinishedStreamFails(pieces: seq<string>, payloads: seq<string>, d: string, chunks: seq<Chunk>,
                              structured: bool, parse: Parser)
    requires SseFraming.IsDelimiter(d) && forall p | p in payloads :: SseFraming.Sendable(p)
    requires Sse.Concat(pieces) == SseFraming.Framed(SseFraming.DataEvents(payloads), d, "")
    requires Carry(payloads, chunks, parse)
    ensures StreamOutcome(pieces, structured, parse).0.Err?
    ensures StreamOutcome(pieces, structured, parse).0.error.InvalidResponse?
  {
    hide Finish, Run, Sse.ReadChunks, Carry, SseFraming.DataEvents, SseFraming.Framed, SseFraming.Sendable, Sse.Concat;
    assert payloads + [] == payloads;
    HandlesThen(pieces, payloads, [], d, chunks, parse);
  }

  /** A payload that does not parse ends the stream with its error, whatever follows. */
  lemma MalformedChunkFails(pieces: seq<string>, payloads: seq<string>, bad: string, more: seq<string>, d: string,
                            chunks: seq<Chunk>, structured: bool, parse: Parser)
    requires SseFraming.IsDelimiter(d) && forall p | p in payloads + ([bad] + more) :: SseFraming.Sendable(p)
    requires Sse.Concat(pieces) == SseFraming.Framed(SseFraming.DataEvents(payloads + ([bad] + more)), d, "")
    requires Carry(payloads, chunks, parse) && bad != DONE && parse(bad).Err?
    ensures StreamOutcome(pieces, structured, parse).0 == Err(InvalidResponse(parse(bad).error))
  {
    hide Finish, Run, Sse.ReadChunks, Carry, SseFraming.DataEvents, SseFraming.Framed, SseFraming.Sendable, Sse.Concat;
    HandlesThen(pieces, payloads, [bad] + more, d, chunks, parse);
    assert ([bad] + more)[1..] == more;
  }
}
