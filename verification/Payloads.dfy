/**
 What the providers send, written out from the meaning of each payload, and proof that the gateways
 read every field from its own place: decoding an encoded payload gives the payload back.
 Absent optional fields are sent as `null`.
 */
module Payloads {
  import opened Prelude
  import opened Text
  import opened Json
  import opened ModelTypes
  import OpenAi = OpenAiStream
  import Anthropic = AnthropicStream

  // ---- Numbers and optional values ----

  lemma {:induction false} DecimalIsDigits(n: nat)
    ensures forall i | 0 <= i < |Decimal(n)| :: IsDigit(Decimal(n)[i])
    ensures DigitsValue(Decimal(n)) == n
  {
    if n >= 10 {
      DecimalIsDigits(n / 10);
      var s := Decimal(n);
      assert s[..|s| - 1] == Decimal(n / 10);
      DigitAt(n % 10);
    } else {
      DigitAt(n);
      assert Decimal(n)[..0] == "";
    }
  }

  lemma DigitAt(d: nat)
    requires d < 10
    ensures IsDigit(DIGITS[d]) && DIGITS[d] as int - '0' as int == d
  {
  }

  lemma {:induction false} DecimalIsNumber(n: nat)
    ensures NumberAfter(Decimal(n)) == if n == 0 then Zero else Whole
  {
    var s := Decimal(n);
    DigitAt(n % 10);
    if n >= 10 {
      DecimalIsNumber(n / 10);
      assert s[..|s| - 1] == Decimal(n / 10);
    } else {
      assert s[..0] == "";
      assert NumberAfter("") == Start;
      DigitNotZero(n);
    }
  }

  lemma DigitNotZero(d: nat)
    requires d < 10
    ensures DIGITS[d] == '0' <==> d == 0
    ensures DIGITS[d] != '-'
  {
  }

  function Number(n: nat): Json {
    DecimalIsDigits(n);
    DecimalIsNumber(n);
    Num(Decimal(n))
  }

  lemma NumberReads(n: nat)
    requires n < TWO_TO_THE_64
    ensures AsU64(Some(Number(n))) == Some(n)
  {
    DecimalIsDigits(n);
  }

  function OptNumber(n: Option<nat>): Json {
    if n.Some? then Number(n.value) else Null
  }

  predicate FitsU64(n: Option<nat>) {
    n.Some? ==> n.value < TWO_TO_THE_64
  }

  lemma OptNumberReads(n: Option<nat>)
    requires FitsU64(n)
    ensures AsU64(Some(OptNumber(n))) == n
  {
    if n.Some? {
      NumberReads(n.value);
    }
  }

  function OptStr(s: Option<string>): Json {
    if s.Some? then Str(s.value) else Null
  }

  // ---- Members of an object ----

  lemma {:induction false} LookupAt(members: seq<Member>, i: nat)
    requires DistinctKeys(members) && i < |members|
    ensures Lookup(members, members[i].key) == Some(members[i].value)
  {
    if i > 0 {
      assert members[0].key != members[i].key;
      LookupAt(members[1..], i - 1);
    }
  }

  /** Every member of an object with distinct keys is found under its key. */
  lemma GetsAll(members: seq<Member>)
    requires DistinctKeys(members)
    ensures forall i | 0 <= i < |members| :: Get(Obj(members), members[i].key) == Some(members[i].value)
  {
    hide Lookup;
    forall i | 0 <= i < |members|
      ensures Get(Obj(members), members[i].key) == Some(members[i].value)
    {
      LookupAt(members, i);
    }
  }

  // ---- OpenAI-compatible chunks ----

  function EncodeFunction(d: OpenAi.ToolDelta): Json {
    Obj([Member("name", OptStr(d.name)), Member("arguments", Str(d.arguments))])
  }

  function EncodeTool(d: OpenAi.ToolDelta): Json {
    Obj([Member("index", Number(d.index)), Member("id", OptStr(d.id)), Member("type", Str("function")),
      Member("function", EncodeFunction(d))])
  }

  lemma ToolRoundTrip(d: OpenAi.ToolDelta)
    requires d.index < TWO_TO_THE_64
    ensures OpenAi.DecodeTool(EncodeTool(d)) == d
  {
    hide AsU64, Lookup, Get, Number;
    var f, t := EncodeFunction(d).members, EncodeTool(d).members;
    GetsAll(f);
    GetsAll(t);
    assert Get(EncodeTool(d), t[0].key) == Some(Number(d.index));
    assert Get(EncodeTool(d), t[1].key) == Some(OptStr(d.id));
    assert Get(EncodeTool(d), t[3].key) == Some(EncodeFunction(d));
    assert Get(EncodeFunction(d), f[0].key) == Some(OptStr(d.name));
    assert Get(EncodeFunction(d), f[1].key) == Some(Str(d.arguments));
    NumberReads(d.index);
  }

  function EncodeTools(tools: seq<OpenAi.ToolDelta>): seq<Json> {
    seq(|tools|, i requires 0 <= i < |tools| => EncodeTool(tools[i]))
  }

  function EncodeUsage(u: Usage): Json {
    Obj([Member("prompt_tokens", Number(u.promptTokens)), Member("completion_tokens", Number(u.completionTokens)),
      Member("total_tokens", Number(u.totalTokens))])
  }

  function OptUsage(u: Option<Usage>): Json {
    if u.Some? then EncodeUsage(u.value) else Null
  }

  function EncodeDelta(c: OpenAi.Chunk): Json {
    Obj([Member("reasoning_content", OptStr(c.reasoning)), Member("content", OptStr(c.content)),
      Member("tool_calls", Arr(EncodeTools(c.tools)))])
  }

  function EncodeChoice(c: OpenAi.Chunk): Json {
    Obj([Member("index", Number(0)), Member("delta", EncodeDelta(c)), Member("finish_reason", OptStr(c.finishReason))])
  }

  function EncodeChunk(c: OpenAi.Chunk): Json {
    Obj([Member("object", Str("chat.completion.chunk")), Member("choices", Arr([EncodeChoice(c)])),
      Member("usage", OptUsage(c.usage))])
  }

  predicate ChunkFits(c: OpenAi.Chunk) {
    && (forall i | 0 <= i < |c.tools| :: c.tools[i].index < TWO_TO_THE_64)
    && (c.usage.Some? ==> UsageFits(c.usage.value))
  }

  predicate UsageFits(u: Usage) {
    u.promptTokens < TWO_TO_THE_64 && u.completionTokens < TWO_TO_THE_64 && u.totalTokens < TWO_TO_THE_64
  }

  lemma UsageRoundTrip(u: Usage)
    requires UsageFits(u)
    ensures OpenAi.ParseUsage(Some(EncodeUsage(u))) == Some(u)
  {
    hide AsU64, Lookup, Get, Number;
    var m := EncodeUsage(u).members;
    GetsAll(m);
    assert Get(EncodeUsage(u), m[0].key) == Some(Number(u.promptTokens));
    assert Get(EncodeUsage(u), m[1].key) == Some(Number(u.completionTokens));
    assert Get(EncodeUsage(u), m[2].key) == Some(Number(u.totalTokens));
    NumberReads(u.promptTokens);
    NumberReads(u.completionTokens);
    NumberReads(u.totalTokens);
  }

  lemma DeltaReads(c: OpenAi.Chunk)
    ensures Get(EncodeDelta(c), "reasoning_content") == Some(OptStr(c.reasoning))
    ensures Get(EncodeDelta(c), "content") == Some(OptStr(c.content))
    ensures Get(EncodeDelta(c), "tool_calls") == Some(Arr(EncodeTools(c.tools)))
  {
    hide Lookup, Get, EncodeTools;
    var m := EncodeDelta(c).members;
    GetsAll(m);
    assert Get(EncodeDelta(c), m[0].key) == Some(OptStr(c.reasoning));
    assert Get(EncodeDelta(c), m[1].key) == Some(OptStr(c.content));
    assert Get(EncodeDelta(c), m[2].key) == Some(Arr(EncodeTools(c.tools)));
  }

  lemma ChoiceReads(c: OpenAi.Chunk)
    ensures Get(EncodeChoice(c), "delta") == Some(EncodeDelta(c))
    ensures Get(EncodeChoice(c), "finish_reason") == Some(OptStr(c.finishReason))
    ensures Get(EncodeChunk(c), "choices") == Some(Arr([EncodeChoice(c)]))
    ensures Get(EncodeChunk(c), "usage") == Some(OptUsage(c.usage))
  {
    hide Lookup, Get, EncodeDelta, OptUsage, Number;
    var m, n := EncodeChoice(c).members, EncodeChunk(c).members;
    GetsAll(m);
    GetsAll(n);
    assert Get(EncodeChoice(c), m[1].key) == Some(EncodeDelta(c));
    assert Get(EncodeChoice(c), m[2].key) == Some(OptStr(c.finishReason));
    assert Get(EncodeChunk(c), n[1].key) == Some(Arr([EncodeChoice(c)]));
    assert Get(EncodeChunk(c), n[2].key) == Some(OptUsage(c.usage));
  }

  /** The gateway reads every field of a chunk from its own place. */
  lemma ChunkRoundTrip(c: OpenAi.Chunk)
    requires ChunkFits(c)
    ensures OpenAi.Decode(EncodeChunk(c)) == c
  {
    hide Lookup, EncodeDelta, EncodeChoice, EncodeChunk, EncodeUsage, OpenAi.DecodeTool, EncodeTool, AsU64;
    DeltaReads(c);
    ChoiceReads(c);
    assert OpenAi.Choice(EncodeChunk(c)) == Some(EncodeChoice(c));
    forall i | 0 <= i < |c.tools|
      ensures OpenAi.DecodeTools(EncodeTools(c.tools))[i] == c.tools[i]
    {
      ToolRoundTrip(c.tools[i]);
    }
    assert OpenAi.DecodeTools(EncodeTools(c.tools)) == c.tools;
    if c.usage.Some? {
      UsageRoundTrip(c.usage.value);
    }
    NullReads();
  }

  lemma NullReads()
    ensures OpenAi.ParseUsage(Some(Null)) == None
  {
  }

  // ---- Anthropic content blocks and events ----

  datatype ContentBlock =
    | TextBlock(text: string)
    | ThinkingBlock(thinking: string)
    | ToolBlock(id: string, name: string, input: Json)

  function EncodeBlock(b: ContentBlock): Json {
    match b
    case TextBlock(text) => Obj([Member("type", Str("text")), Member("text", Str(text))])
    case ThinkingBlock(thinking) => Obj([Member("type", Str("thinking")), Member("thinking", Str(thinking))])
    case ToolBlock(id, name, input) =>
      Obj([Member("type", Str("tool_use")), Member("id", Str(id)), Member("name", Str(name)), Member("input", input)])
  }

  function Meaning(b: ContentBlock): Anthropic.Block {
    match b
    case TextBlock(text) => Anthropic.Text(text)
    case ThinkingBlock(thinking) => Anthropic.Thinking(thinking)
    case ToolBlock(id, name, input) => Anthropic.ToolUse(Some(id), name, Print(input))
  }

  lemma BlockRoundTrip(b: ContentBlock)
    ensures Anthropic.DecodeBlock(EncodeBlock(b)) == Meaning(b)
  {
    hide Lookup, Get, Print;
    var m := EncodeBlock(b).members;
    GetsAll(m);
    assert Get(EncodeBlock(b), m[0].key) == Some(m[0].value);
    assert Get(EncodeBlock(b), m[1].key) == Some(m[1].value);
    if b.ToolBlock? {
      assert Get(EncodeBlock(b), m[2].key) == Some(m[2].value);
      assert Get(EncodeBlock(b), m[3].key) == Some(m[3].value);
    }
  }

  function EncodeTokens(t: Anthropic.Tokens): Json {
    Obj([Member("input_tokens", OptNumber(t.prompt)), Member("output_tokens", OptNumber(t.completion))])
  }

  function One(key: string, value: Json): Json {
    Obj([Member(key, value)])
  }

  function Two(kind: string, key: string, value: Json): Json {
    Obj([Member("type", Str(kind)), Member(key, value)])
  }

  function Three(kind: string, block: nat, key: string, value: Json): Json {
    Obj([Member("type", Str(kind)), Member("index", Number(block)), Member(key, value)])
  }

  function EncodeEvent(e: Anthropic.Event, block: nat): Json {
    match e
    case MessageStart(tokens) => Two("message_start", "message", One("usage", EncodeTokens(tokens)))
    case ToolStart(b, id, name) =>
      Three("content_block_start", b, "content_block",
        Obj([Member("type", Str("tool_use")), Member("id", OptStr(id)), Member("name", Str(name))]))
    case TextDelta(text) => Three("content_block_delta", block, "delta", Two("text_delta", "text", Str(text)))
    case ThinkingDelta(thinking) =>
      Three("content_block_delta", block, "delta", Two("thinking_delta", "thinking", Str(thinking)))
    case InputDelta(b, partial) =>
      Three("content_block_delta", b, "delta", Two("input_json_delta", "partial_json", Str(partial)))
    case MessageDelta(stop, tokens) =>
      Obj([Member("type", Str("message_delta")), Member("delta", One("stop_reason", OptStr(stop))),
        Member("usage", EncodeTokens(tokens))])
    case MessageStop => One("type", Str("message_stop"))
    case Error(message) => Two("error", "error", One("message", Str(message)))
    case Ignored => One("type", Str("ping"))
  }

  predicate EventFits(e: Anthropic.Event) {
    match e
    case MessageStart(tokens) => FitsU64(tokens.prompt) && FitsU64(tokens.completion)
    case MessageDelta(_, tokens) => FitsU64(tokens.prompt) && FitsU64(tokens.completion)
    case ToolStart(b, _, _) => b < TWO_TO_THE_64
    case InputDelta(b, _) => b < TWO_TO_THE_64
    case _ => true
  }

  lemma TokensRoundTrip(t: Anthropic.Tokens)
    requires FitsU64(t.prompt) && FitsU64(t.completion)
    ensures Anthropic.ParseAnthropicUsage(Some(EncodeTokens(t))) == t
  {
    hide AsU64, Lookup, Get, OptNumber;
    var m := EncodeTokens(t).members;
    GetsAll(m);
    assert Get(EncodeTokens(t), m[0].key) == Some(OptNumber(t.prompt));
    assert Get(EncodeTokens(t), m[1].key) == Some(OptNumber(t.completion));
    OptNumberReads(t.prompt);
    OptNumberReads(t.completion);
  }

  lemma OneReads(key: string, value: Json)
    ensures Get(One(key, value), key) == Some(value)
  {
  }

  lemma TwoReads(kind: string, key: string, value: Json)
    requires key != "type"
    ensures Get(Two(kind, key, value), "type") == Some(Str(kind)) && Get(Two(kind, key, value), key) == Some(value)
  {
    hide Lookup, Get;
    var m := Two(kind, key, value).members;
    GetsAll(m);
    assert Get(Two(kind, key, value), m[0].key) == Some(m[0].value);
    assert Get(Two(kind, key, value), m[1].key) == Some(m[1].value);
  }

  lemma ThreeReads(kind: string, block: nat, key: string, value: Json)
    requires key != "type" && key != "index"
    ensures Get(Three(kind, block, key, value), "type") == Some(Str(kind))
    ensures Get(Three(kind, block, key, value), "index") == Some(Number(block))
    ensures Get(Three(kind, block, key, value), key) == Some(value)
  {
    hide Lookup, Get, Number;
    var m := Three(kind, block, key, value).members;
    GetsAll(m);
    assert Get(Three(kind, block, key, value), m[0].key) == Some(m[0].value);
    assert Get(Three(kind, block, key, value), m[1].key) == Some(m[1].value);
    assert Get(Three(kind, block, key, value), m[2].key) == Some(m[2].value);
  }

  /** The gateway reads every field of an event from its own place; text may arrive under any block index. */
  lemma EventRoundTrip(e: Anthropic.Event, block: nat)
    requires EventFits(e)
    ensures Anthropic.Decode(EncodeEvent(e, block)) == e
  {
    hide Get, AsU64, Lookup, Number, One, Two, Three, EncodeTokens, Anthropic.ParseAnthropicUsage;
    match e
    case MessageStart(tokens) =>
      TwoReads("message_start", "message", One("usage", EncodeTokens(tokens)));
      OneReads("usage", EncodeTokens(tokens));
      TokensRoundTrip(tokens);
    case ToolStart(b, id, name) =>
      ToolStartRoundTrip(b, id, name, block);
    case TextDelta(text) =>
      ThreeReads("content_block_delta", block, "delta", Two("text_delta", "text", Str(text)));
      TwoReads("text_delta", "text", Str(text));
    case ThinkingDelta(thinking) =>
      ThreeReads("content_block_delta", block, "delta", Two("thinking_delta", "thinking", Str(thinking)));
      TwoReads("thinking_delta", "thinking", Str(thinking));
    case InputDelta(b, partial) =>
      ThreeReads("content_block_delta", b, "delta", Two("input_json_delta", "partial_json", Str(partial)));
      TwoReads("input_json_delta", "partial_json", Str(partial));
      NumberReads(b);
    case MessageDelta(stop, tokens) =>
      MessageDeltaRoundTrip(stop, tokens, block);
    case MessageStop =>
      OneReads("type", Str("message_stop"));
    case Error(message) =>
      TwoReads("error", "error", One("message", Str(message)));
      OneReads("message", Str(message));
    case Ignored =>
      OneReads("type", Str("ping"));
  }

  lemma ToolStartRoundTrip(b: nat, id: Option<string>, name: string, block: nat)
    requires b < TWO_TO_THE_64
    ensures Anthropic.Decode(EncodeEvent(Anthropic.ToolStart(b, id, name), block)) == Anthropic.ToolStart(b, id, name)
  {
    hide Get, AsU64, Lookup, Number, Three;
    var inner := [Member("type", Str("tool_use")), Member("id", OptStr(id)), Member("name", Str(name))];
    ThreeReads("content_block_start", b, "content_block", Obj(inner));
    GetsAll(inner);
    assert Get(Obj(inner), inner[0].key) == Some(inner[0].value);
    assert Get(Obj(inner), inner[1].key) == Some(inner[1].value);
    assert Get(Obj(inner), inner[2].key) == Some(inner[2].value);
    NumberReads(b);
  }

  lemma MessageDeltaRoundTrip(stop: Option<string>, tokens: Anthropic.Tokens, block: nat)
    requires FitsU64(tokens.prompt) && FitsU64(tokens.completion)
    ensures Anthropic.Decode(EncodeEvent(Anthropic.MessageDelta(stop, tokens), block))
      == Anthropic.MessageDelta(stop, tokens)
  {
    hide Get, AsU64, Lookup, One, EncodeTokens, Anthropic.ParseAnthropicUsage;
    var m := [Member("type", Str("message_delta")), Member("delta", One("stop_reason", OptStr(stop))),
      Member("usage", EncodeTokens(tokens))];
    GetsAll(m);
    assert Get(Obj(m), m[0].key) == Some(m[0].value);
    assert Get(Obj(m), m[1].key) == Some(m[1].value);
    assert Get(Obj(m), m[2].key) == Some(m[2].value);
    OneReads("stop_reason", OptStr(stop));
    TokensRoundTrip(tokens);
  }
}
