/**
 A complete Anthropic message, written out from its meaning, and what parsing it gives, in the terms
 of that meaning alone (crates/coevo-models/src/anthropic.rs, lines 366-475).
 */
module AnthropicMessages {
  import opened Prelude
  import opened Text
  import opened Json
  import opened ModelTypes
  import opened StructuredText
  import opened Payloads
  import Anthropic = AnthropicStream

  datatype Message = Message(blocks: seq<ContentBlock>, usage: Anthropic.Tokens, stopReason: Option<string>)

  function EncodeBlocks(blocks: seq<ContentBlock>): seq<Json> {
    seq(|blocks|, i requires 0 <= i < |blocks| => EncodeBlock(blocks[i]))
  }

  function EncodeMessage(m: Message): Json {
    Obj([Member("type", Str("message")), Member("content", Arr(EncodeBlocks(m.blocks))),
      Member("stop_reason", OptStr(m.stopReason)), Member("usage", EncodeTokens(m.usage))])
  }

  // ---- What the blocks say ----

  function TextIn(b: ContentBlock): string {
    if b.TextBlock? then b.text else ""
  }

  function ThinkingIn(b: ContentBlock): string {
    if b.ThinkingBlock? then b.thinking else ""
  }

  function TextOf(blocks: seq<ContentBlock>): string {
    if blocks == [] then "" else TextIn(blocks[0]) + TextOf(blocks[1..])
  }

  function ThinkingOf(blocks: seq<ContentBlock>): string {
    if blocks == [] then "" else ThinkingIn(blocks[0]) + ThinkingOf(blocks[1..])
  }

  /** One call for each tool block, numbered from `first`. */
  function CallsOf(blocks: seq<ContentBlock>, first: nat): seq<ToolCall> {
    if blocks == [] then []
    else
      match blocks[0]
      case ToolBlock(id, name, input) =>
        [ToolCall(first, Some(id), name, Print(input))] + CallsOf(blocks[1..], first + 1)
      case _ => CallsOf(blocks[1..], first)
  }

  lemma {:induction false} TextLast(blocks: seq<ContentBlock>, b: ContentBlock)
    ensures TextOf(blocks + [b]) == TextOf(blocks) + TextIn(b)
    ensures ThinkingOf(blocks + [b]) == ThinkingOf(blocks) + ThinkingIn(b)
  {
    hide TextIn, ThinkingIn;
    var all := blocks + [b];
    if blocks == [] {
      assert all == [b] && all[1..] == [];
      assert TextIn(b) + "" == "" + TextIn(b) && ThinkingIn(b) + "" == "" + ThinkingIn(b);
    } else {
      assert all[1..] == blocks[1..] + [b];
      TextLast(blocks[1..], b);
      Assoc(TextIn(blocks[0]), TextOf(blocks[1..]), TextIn(b));
      Assoc(ThinkingIn(blocks[0]), ThinkingOf(blocks[1..]), ThinkingIn(b));
    }
  }

  lemma {:induction false} CallsLast(blocks: seq<ContentBlock>, b: ContentBlock, first: nat)
    ensures CallsOf(blocks + [b], first) == CallsOf(blocks, first) + CallsOf([b], first + |CallsOf(blocks, first)|)
  {
    hide Print;
    var all := blocks + [b];
    if blocks == [] {
      assert all == [b];
    } else {
      assert all[0] == blocks[0] && all[1..] == blocks[1..] + [b];
      CallsLast(blocks[1..], b, if blocks[0].ToolBlock? then first + 1 else first);
    }
  }

  lemma SingleCall(b: ContentBlock, first: nat)
    ensures CallsOf([b], first) ==
      if b.ToolBlock? then [ToolCall(first, Some(b.id), b.name, Print(b.input))] else []
  {
    hide Print;
    assert [b][0] == b && [b][1..] == [];
  }

  /** The block loop collects what the blocks say. */
  lemma {:induction false} CollectsBlocks(blocks: seq<ContentBlock>)
    ensures Anthropic.Collect(EncodeBlocks(blocks))
         == Anthropic.Collected(TextOf(blocks), ThinkingOf(blocks), CallsOf(blocks, 0))
  {
    hide EncodeBlock, Anthropic.DecodeBlock, TextOf, ThinkingOf, CallsOf;
    if blocks == [] {
      NothingSaid();
    } else {
      var n := |blocks| - 1;
      CollectsBlocks(blocks[..n]);
      assert EncodeBlocks(blocks)[..n] == EncodeBlocks(blocks[..n]);
      BlockRoundTrip(blocks[n]);
      assert blocks == blocks[..n] + [blocks[n]];
      TextLast(blocks[..n], blocks[n]);
      CallsLast(blocks[..n], blocks[n], 0);
      SingleCall(blocks[n], |CallsOf(blocks[..n], 0)|);
      OneMoreBlock(Anthropic.Collect(EncodeBlocks(blocks[..n])), blocks[n]);
    }
  }

  lemma NothingSaid()
    ensures TextOf([]) == "" && ThinkingOf([]) == "" && CallsOf([], 0) == []
  {
  }

  lemma OneMoreBlock(c: Anthropic.Collected, b: ContentBlock)
    ensures Anthropic.CollectNext(c, EncodeBlock(b)) == Anthropic.Collected(
      c.content + TextIn(b),
      c.reasoning + ThinkingIn(b),
      c.toolCalls + if b.ToolBlock? then [ToolCall(|c.toolCalls|, Some(b.id), b.name, Print(b.input))] else [])
  {
    hide EncodeBlock, Anthropic.DecodeBlock, Print;
    BlockRoundTrip(b);
    assert c.content + "" == c.content && c.reasoning + "" == c.reasoning && c.toolCalls + [] == c.toolCalls;
  }

  // ---- The outcome ----

  /** What the blocks of a message say. */
  function SaidBy(blocks: seq<ContentBlock>): Anthropic.Collected {
    Anthropic.Collected(Trim(TextOf(blocks)), ThinkingOf(blocks), CallsOf(blocks, 0))
  }

  /** What the content parses to, if the answer is asked for as JSON and no tool is called. */
  function Wanted(c: Anthropic.Collected, structured: bool, parse: Parser): Option<Result<Json, string>> {
    if structured && c.toolCalls == [] then Some(StructuredValue(c.content, parse)) else None
  }

  lemma MessageReads(m: Message)
    requires FitsU64(m.usage.prompt) && FitsU64(m.usage.completion)
    ensures var json := EncodeMessage(m);
      && AsArray(Get(json, "content")) == Some(EncodeBlocks(m.blocks))
      && AsStr(Get(json, "stop_reason")) == m.stopReason
      && Anthropic.ParseAnthropicUsage(Get(json, "usage")) == m.usage
  {
    hide Lookup, Get, EncodeBlocks, EncodeTokens, Anthropic.ParseAnthropicUsage;
    var members := EncodeMessage(m).members;
    GetsAll(members);
    assert Get(EncodeMessage(m), members[1].key) == Some(members[1].value);
    assert Get(EncodeMessage(m), members[2].key) == Some(members[2].value);
    assert Get(EncodeMessage(m), members[3].key) == Some(members[3].value);
    TokensRoundTrip(m.usage);
  }

  /** Parsing a complete message gives exactly what its blocks, usage and stop reason say. */
  lemma MessageIsAnswered(m: Message, structured: bool, parse: Parser)
    requires FitsU64(m.usage.prompt) && FitsU64(m.usage.completion)
    ensures Anthropic.IsOutcome(Anthropic.MessageOutcome(EncodeMessage(m), structured, parse), SaidBy(m.blocks),
      Wanted(SaidBy(m.blocks), structured, parse), m.usage, m.stopReason, structured)
  {
    hide EncodeMessage, EncodeBlocks, Anthropic.Collect, StructuredValue, Trim, TextOf, ThinkingOf, CallsOf, Get, AsStr,
      AsArray, Anthropic.ParseAnthropicUsage, Anthropic.MapStopReason;
    MessageReads(m);
    CollectsBlocks(m.blocks);
    if m.stopReason.Some? {
      Anthropic.StopReasonsMapped(m.stopReason.value);
    }
  }
}
