/**
 What an event sequence of an Anthropic stream says (crates/coevo-models/src/anthropic.rs), read
 without the bookkeeping of block indices, and the aggregation holds exactly that.
 */
module AnthropicMeaning {
  import opened Prelude
  import opened Json
  import opened ModelTypes
  import opened AnthropicStream
  import opened AnthropicProperties

  // ---- What an event sequence says, read without any bookkeeping ----

  function TextIn(e: Event): string {
    if e.TextDelta? then e.text else ""
  }

  function ThinkingIn(e: Event): string {
    if e.ThinkingDelta? then e.thinking else ""
  }

  function TextOf(events: seq<Event>): string {
    if events == [] then "" else TextIn(events[0]) + TextOf(events[1..])
  }

  function ThinkingOf(events: seq<Event>): string {
    if events == [] then "" else ThinkingIn(events[0]) + ThinkingOf(events[1..])
  }

  /** The input sent for a block until a further tool starts under the same index. */
  function InputAhead(events: seq<Event>, block: nat): string {
    if events == [] || (events[0].ToolStart? && events[0].block == block) then ""
    else
      (if events[0].InputDelta? && events[0].block == block then events[0].partial else "")
      + InputAhead(events[1..], block)
  }

  /** One call for each tool start, numbered from `first`, with the input sent for its block. */
  function CallsOf(events: seq<Event>, first: nat): seq<ToolCall> {
    if events == [] then []
    else
      var rest := events[1..];
      match events[0]
      case ToolStart(block, id, name) =>
        [ToolCall(first, id, name, InputAhead(rest, block))] + CallsOf(rest, first + 1)
      case _ => CallsOf(rest, first)
  }

  function Spoken(events: seq<Event>): Collected {
    Collected(TextOf(events), ThinkingOf(events), CallsOf(events, 0))
  }

  /** The last value announced, if any. */
  function LastPrompt(events: seq<Event>): Option<nat> {
    if events == [] then None
    else Either(LastPrompt(events[1..]), TokensIn(events[0]).prompt)
  }

  function LastCompletion(events: seq<Event>): Option<nat> {
    if events == [] then None
    else Either(LastCompletion(events[1..]), TokensIn(events[0]).completion)
  }

  function LastStop(events: seq<Event>): Option<string> {
    if events == [] then None
    else Either(LastStop(events[1..]), if events[0].MessageDelta? then events[0].stopReason else None)
  }

  function TokensIn(e: Event): Tokens {
    if e.MessageStart? || e.MessageDelta? then e.tokens else Tokens(None, None)
  }

  // ---- The aggregation holds exactly what was said ----

  lemma {:induction false} RunText(t: Trace, events: seq<Event>)
    ensures Run(t, events).state.content == t.state.content + TextOf(events)
    decreases |events|
  {
    hide Apply, State.Valid;
    var before := t.state.content;
    if events == [] {
      assert before + "" == before;
    } else {
      TextStep(t, events[0]);
      RunText(Apply(t, events[0]), events[1..]);
      var said, rest := TextIn(events[0]), TextOf(events[1..]);
      assert (before + said) + rest == before + (said + rest);
    }
  }

  lemma {:induction false} RunThinking(t: Trace, events: seq<Event>)
    ensures Run(t, events).state.reasoning == t.state.reasoning + ThinkingOf(events)
    decreases |events|
  {
    hide Apply, State.Valid;
    var before := t.state.reasoning;
    if events == [] {
      assert before + "" == before;
    } else {
      TextStep(t, events[0]);
      RunThinking(Apply(t, events[0]), events[1..]);
      var said, rest := ThinkingIn(events[0]), ThinkingOf(events[1..]);
      assert (before + said) + rest == before + (said + rest);
    }
  }

  lemma TextStep(t: Trace, e: Event)
    ensures Apply(t, e).state.content == t.state.content + TextIn(e)
    ensures Apply(t, e).state.reasoning == t.state.reasoning + ThinkingIn(e)
  {
  }

  lemma {:induction false} RunAnnouncements(t: Trace, events: seq<Event>)
    ensures var s, s' := t.state, Run(t, events).state;
      && s'.promptTokens == OrElse(LastPrompt(events), s.promptTokens)
      && s'.completionTokens == OrElse(LastCompletion(events), s.completionTokens)
      && s'.finishReason == if LastStop(events).Some? then Some(MapStopReason(LastStop(events).value))
        else s.finishReason
    decreases |events|
  {
    hide MapStopReason, Apply;
    if events == [] {
    } else {
      AnnouncementStep(t, events[0]);
      RunAnnouncements(Apply(t, events[0]), events[1..]);
    }
  }

  lemma AnnouncementStep(t: Trace, e: Event)
    ensures var s, s' := t.state, Apply(t, e).state;
      && s'.promptTokens == OrElse(TokensIn(e).prompt, s.promptTokens)
      && s'.completionTokens == OrElse(TokensIn(e).completion, s.completionTokens)
      && s'.finishReason ==
           if e.MessageDelta? && e.stopReason.Some? then Some(MapStopReason(e.stopReason.value)) else s.finishReason
  {
    hide MapStopReason;
  }

  /** `at` is the block that leads to call `k`, if one still does. */
  ghost predicate LedBy(s: State, k: nat, at: Option<nat>) {
    forall b :: b in s.blockToTool && s.blockToTool[b] == k <==> at == Some(b)
  }

  function StillAt(at: Option<nat>, e: Event): Option<nat> {
    if e.ToolStart? && at == Some(e.block) then None else at
  }

  function InputIn(e: Event, at: Option<nat>): string {
    if e.InputDelta? && at == Some(e.block) then e.partial else ""
  }

  lemma CallStep(t: Trace, e: Event, k: nat, at: Option<nat>)
    requires k in t.state.toolCalls && LedBy(t.state, k, at)
    ensures var s, s' := t.state, Apply(t, e).state;
      && k in s'.toolCalls && LedBy(s', k, StillAt(at, e))
      && s'.toolCalls[k] == s.toolCalls[k].(arguments := s.toolCalls[k].arguments + InputIn(e, at))
  {
    var call := t.state.toolCalls[k];
    assert call.arguments + "" == call.arguments;
    match e
    case ToolStart(block, id, name) =>
      assert |t.state.toolCalls| !in t.state.toolCalls;
    case InputDelta(block, partial) =>
      assert block in t.state.blockToTool ==> (t.state.blockToTool[block] == k <==> at == Some(block));
    case _ =>
  }

  /**
   A stored call receives exactly the input for the block that leads to it, until another tool takes
   over that block.
   */
  lemma {:induction false} RunCall(t: Trace, events: seq<Event>, k: nat, at: Option<nat>)
    requires k in t.state.toolCalls && LedBy(t.state, k, at)
    ensures k in Run(t, events).state.toolCalls
    ensures var call := t.state.toolCalls[k];
      Run(t, events).state.toolCalls[k]
      == call.(arguments := call.arguments + if at.Some? then InputAhead(events, at.value) else "")
    decreases |events|
  {
    hide Apply, LedBy, State.Valid;
    var call := t.state.toolCalls[k];
    if events == [] {
      assert call.arguments + "" == call.arguments;
    } else {
      var e, t' := events[0], Apply(t, events[0]);
      CallStep(t, e, k, at);
      RunCall(t', events[1..], k, StillAt(at, e));
      var ahead := if StillAt(at, e).Some? then InputAhead(events[1..], StillAt(at, e).value) else "";
      assert call.arguments + InputIn(e, at) + ahead == call.arguments + (InputIn(e, at) + ahead);
      assert "" + ahead == ahead;
    }
  }

  lemma StartStep(t: Trace, block: nat, id: Option<string>, name: string)
    ensures var n, s' := |t.state.toolCalls|, Apply(t, ToolStart(block, id, name)).state;
      && |s'.toolCalls| == n + 1 && n in s'.toolCalls && s'.toolCalls[n] == ToolCall(n, id, name, "")
      && LedBy(s', n, Some(block))
  {
    assert |t.state.toolCalls| !in t.state.toolCalls;
  }

  lemma {:induction false} CallsCounted(events: seq<Event>, first: nat)
    ensures |CallsOf(events, first)| == ToolStarts(events)
  {
    if events == [] {
    } else {
      CallsCounted(events[1..], if events[0].ToolStart? then first + 1 else first);
    }
  }

  /** Every further call is the one the event sequence makes. */
  lemma {:induction false} RunCalls(t: Trace, events: seq<Event>, k: nat)
    requires |t.state.toolCalls| <= k < |t.state.toolCalls| + ToolStarts(events)
    ensures |CallsOf(events, |t.state.toolCalls|)| == ToolStarts(events)
    ensures k in Run(t, events).state.toolCalls
    ensures Run(t, events).state.toolCalls[k] == CallsOf(events, |t.state.toolCalls|)[k - |t.state.toolCalls|]
    decreases |events|
  {
    hide Apply, LedBy, State.Valid, InputAhead;
    var n, e, t' := |t.state.toolCalls|, events[0], Apply(t, events[0]);
    CallsCounted(events, n);
    ApplyCounts(t, e);
    if e.ToolStart? && k == n {
      StartStep(t, e.block, e.id, e.name);
      RunCall(t', events[1..], k, Some(e.block));
      assert "" + InputAhead(events[1..], e.block) == InputAhead(events[1..], e.block);
    } else {
      RunCalls(t', events[1..], k);
    }
  }

  /** The aggregation has collected exactly this. */
  ghost predicate Holds(s: State, c: Collected)
    requires s.Valid()
  {
    s.content == c.content && s.reasoning == c.reasoning && s.Calls() == c.toolCalls
  }

  /**
   After every event sequence, whatever its interleaving, the state holds the text and thinking in
   order and, for each tool start, one call with exactly the input sent for its block.
   */
  lemma RunSpeaks(events: seq<Event>)
    ensures Holds(Run(INITIAL, events).state, Spoken(events))
  {
    hide Run, CallsOf, TextOf, ThinkingOf, ToolStarts;
    var s := Run(INITIAL, events).state;
    RunText(INITIAL, events);
    RunThinking(INITIAL, events);
    assert "" + TextOf(events) == TextOf(events) && "" + ThinkingOf(events) == ThinkingOf(events);
    RunCounts(INITIAL, events);
    CallsCounted(events, 0);
    forall k | 0 <= k < |s.toolCalls|
      ensures s.Calls()[k] == CallsOf(events, 0)[k]
    {
      RunCalls(INITIAL, events, k);
    }
    assert s.Calls() == CallsOf(events, 0);
  }

  // ---- Sequences that say a given message ----

  /** Everything sent for a block, wherever it stands. */
  function InputOf(events: seq<Event>, block: nat): string {
    if events == [] then ""
    else
      (if events[0].InputDelta? && events[0].block == block then events[0].partial else "")
      + InputOf(events[1..], block)
  }

  function StartsOf(events: seq<Event>): seq<Event> {
    if events == [] then []
    else (if events[0].ToolStart? then [events[0]] else []) + StartsOf(events[1..])
  }

  /** No two tools start under one block index. */
  predicate DistinctBlocks(events: seq<Event>) {
    forall i, j | 0 <= i < j < |events| && events[i].ToolStart? && events[j].ToolStart? ::
      events[i].block != events[j].block
  }

  /** No input is sent for a block whose tool has yet to start. */
  predicate InputsFollow(events: seq<Event>) {
    forall i, j | 0 <= i < j < |events| && events[i].InputDelta? && events[j].ToolStart? ::
      events[i].block != events[j].block
  }

  function CallAtStart(events: seq<Event>, start: Event, index: nat): ToolCall
    requires start.ToolStart?
  {
    ToolCall(index, start.id, start.name, InputOf(events, start.block))
  }

  lemma {:induction false} StartsAreStarts(events: seq<Event>)
    ensures |StartsOf(events)| == ToolStarts(events)
    ensures forall e | e in StartsOf(events) :: e.ToolStart? && e in events
  {
    if events == [] {
    } else {
      StartsAreStarts(events[1..]);
    }
  }

  /**
   The provider's contract: text and thinking deltas concatenate in order, tools start in order
   under distinct block indices, and the deltas of each index concatenate to that tool's arguments.
   Deltas of different blocks may interleave in any way.
   */
  ghost predicate Interleaves(events: seq<Event>, c: Collected) {
    && TextOf(events) == c.content
    && ThinkingOf(events) == c.reasoning
    && DistinctBlocks(events) && InputsFollow(events)
    && |StartsOf(events)| == |c.toolCalls|
    && forall i | 0 <= i < |c.toolCalls| ::
         StartsOf(events)[i].ToolStart? && c.toolCalls[i] == CallAtStart(events, StartsOf(events)[i], i)
  }

  lemma {:induction false} AllAhead(events: seq<Event>, block: nat)
    requires forall e | e in events && e.ToolStart? :: e.block != block
    ensures InputAhead(events, block) == InputOf(events, block)
  {
    if events == [] {
    } else {
      assert events[0] in events;
      AllAhead(events[1..], block);
    }
  }

  /** Reading one event more moves the list of starts and the list of calls alike. */
  lemma HeadRead(events: seq<Event>, first: nat, i: nat)
    requires events != [] && i < |StartsOf(events)| == |CallsOf(events, first)|
    ensures var e, rest := events[0], events[1..];
      if e.ToolStart? && i == 0 then StartsOf(events)[0] == e
      else if e.ToolStart? then
        && |StartsOf(rest)| == |StartsOf(events)| - 1 && |CallsOf(rest, first + 1)| == |CallsOf(events, first)| - 1
        && StartsOf(events)[i] == StartsOf(rest)[i - 1]
        && CallsOf(events, first)[i] == CallsOf(rest, first + 1)[i - 1]
      else StartsOf(events) == StartsOf(rest) && CallsOf(events, first) == CallsOf(rest, first)
  {
    hide InputAhead;
  }

  lemma {:induction false} InterleavedCall(events: seq<Event>, first: nat, i: nat)
    requires DistinctBlocks(events) && InputsFollow(events) && i < ToolStarts(events)
    ensures |StartsOf(events)| == |CallsOf(events, first)| == ToolStarts(events)
    ensures StartsOf(events)[i].ToolStart?
    ensures CallsOf(events, first)[i] == CallAtStart(events, StartsOf(events)[i], first + i)
  {
    hide DistinctBlocks, InputsFollow, CallAtStart, StartsOf, CallsOf;
    StartsAreStarts(events);
    CallsCounted(events, first);
    HeadRead(events, first, i);
    var e, rest := events[0], events[1..];
    if e.ToolStart? && i == 0 {
      FirstCall(events, first);
    } else {
      TailKeeps(events);
      InterleavedCall(rest, if e.ToolStart? then first + 1 else first, if e.ToolStart? then i - 1 else i);
      StartsAreStarts(rest);
      LaterCall(events, StartsOf(events)[i], first + i);
    }
  }

  lemma FirstCall(events: seq<Event>, first: nat)
    requires DistinctBlocks(events) && events != [] && events[0].ToolStart?
    ensures CallsOf(events, first) != [] && CallsOf(events, first)[0] == CallAtStart(events, events[0], first)
  {
    hide DistinctBlocks, InputAhead;
    var e, rest := events[0], events[1..];
    NoRestart(events);
    AllAhead(rest, e.block);
    assert "" + InputOf(rest, e.block) == InputOf(rest, e.block);
  }

  lemma LaterCall(events: seq<Event>, start: Event, index: nat)
    requires InputsFollow(events) && events != [] && start.ToolStart? && start in events[1..]
    ensures CallAtStart(events, start, index) == CallAtStart(events[1..], start, index)
  {
    hide InputsFollow;
    NoEarlyInput(events, start);
    assert "" + InputOf(events[1..], start.block) == InputOf(events[1..], start.block);
  }

  lemma TailKeeps(events: seq<Event>)
    requires events != [] && DistinctBlocks(events) && InputsFollow(events)
    ensures DistinctBlocks(events[1..]) && InputsFollow(events[1..])
  {
  }

  lemma NoRestart(events: seq<Event>)
    requires events != [] && events[0].ToolStart? && DistinctBlocks(events)
    ensures forall e | e in events[1..] && e.ToolStart? :: e.block != events[0].block
  {
  }

  lemma NoEarlyInput(events: seq<Event>, start: Event)
    requires events != [] && start in events[1..] && start.ToolStart? && InputsFollow(events)
    ensures events[0].InputDelta? ==> events[0].block != start.block
  {
    var j :| 0 <= j < |events[1..]| && events[1..][j] == start;
    assert events[j + 1] == start;
  }

  /** A stream that keeps the contract says exactly the message, however it interleaves. */
  lemma InterleavedSpeaks(events: seq<Event>, c: Collected)
    requires Interleaves(events, c)
    ensures Spoken(events) == c
  {
    hide DistinctBlocks, InputsFollow, TextOf, ThinkingOf, StartsOf, CallsOf;
    CallsCounted(events, 0);
    StartsAreStarts(events);
    forall i | 0 <= i < |c.toolCalls|
      ensures CallsOf(events, 0)[i] == c.toolCalls[i]
    {
      InterleavedCall(events, 0, i);
    }
    assert CallsOf(events, 0) == c.toolCalls;
  }

  // ---- Block after block: the fragments of one block are not interleaved with another's ----

  /** `frag` starts a tool at position `i` and then sends its arguments; nothing else counts. */
  predicate ToolAt(frag: seq<Event>, i: nat, id: Option<string>, name: string, arguments: string) {
    && i < |frag| && frag[i].ToolStart? && frag[i].id == id && frag[i].name == name
    && (forall j | 0 <= j < i :: frag[j].Ignored?)
    && (forall j | i < j < |frag| :: frag[j].Ignored? || (frag[j].InputDelta? && frag[j].block == frag[i].block))
    && InputOf(frag[i + 1..], frag[i].block) == arguments
  }

  /** `frag` streams this content block under some block index, cut into any pieces. */
  ghost predicate Fragments(block: Block, frag: seq<Event>) {
    match block
    case Text(text) => (forall e | e in frag :: e.TextDelta? || e.Ignored?) && TextOf(frag) == text
    case Thinking(thinking) => (forall e | e in frag :: e.ThinkingDelta? || e.Ignored?) && ThinkingOf(frag) == thinking
    case ToolUse(id, name, arguments) => exists i :: ToolAt(frag, i, id, name, arguments)
    case Other => forall e | e in frag :: e.Ignored?
  }

  ghost predicate Streamed(blocks: seq<Json>, frags: seq<seq<Event>>) {
    |frags| == |blocks| && forall i | 0 <= i < |blocks| :: Fragments(DecodeBlock(blocks[i]), frags[i])
  }

  function Flatten(frags: seq<seq<Event>>): seq<Event> {
    if frags == [] then [] else Flatten(frags[..|frags| - 1]) + frags[|frags| - 1]
  }

  lemma {:induction false} TextConcat(a: seq<Event>, b: seq<Event>)
    ensures TextOf(a + b) == TextOf(a) + TextOf(b)
  {
    if a == [] {
      assert a + b == b;
    } else {
      assert (a + b)[1..] == a[1..] + b;
      TextConcat(a[1..], b);
    }
  }

  lemma {:induction false} ThinkingConcat(a: seq<Event>, b: seq<Event>)
    ensures ThinkingOf(a + b) == ThinkingOf(a) + ThinkingOf(b)
  {
    if a == [] {
      assert a + b == b;
    } else {
      assert (a + b)[1..] == a[1..] + b;
      ThinkingConcat(a[1..], b);
    }
  }

  /** Adds nothing to the input of any block opened before. */
  ghost predicate SelfContained(events: seq<Event>) {
    forall block: nat :: InputAhead(events, block) == ""
  }

  lemma {:induction false} AheadConcat(a: seq<Event>, b: seq<Event>, block: nat)
    requires SelfContained(b)
    ensures InputAhead(a + b, block) == InputAhead(a, block)
  {
    hide SelfContained;
    if a == [] {
      assert a + b == b;
      assert InputAhead(b, block) == "" by { EndsAhead(b, block); }
    } else {
      assert (a + b)[1..] == a[1..] + b;
      AheadConcat(a[1..], b, block);
    }
  }

  lemma EndsAhead(b: seq<Event>, block: nat)
    requires SelfContained(b)
    ensures InputAhead(b, block) == ""
  {
  }

  lemma {:induction false} CallsConcat(a: seq<Event>, b: seq<Event>, first: nat)
    requires SelfContained(b)
    ensures CallsOf(a + b, first) == CallsOf(a, first) + CallsOf(b, first + ToolStarts(a))
  {
    hide SelfContained, InputAhead;
    if a == [] {
      assert a + b == b;
    } else {
      assert (a + b)[1..] == a[1..] + b;
      CallsConcat(a[1..], b, if a[0].ToolStart? then first + 1 else first);
      if a[0].ToolStart? {
        AheadConcat(a[1..], b, a[0].block);
      }
    }
  }

  lemma {:induction false} NoTools(frag: seq<Event>, first: nat, block: nat)
    requires forall e | e in frag :: !e.ToolStart?
    requires forall e | e in frag && e.InputDelta? :: e.block != block
    ensures CallsOf(frag, first) == [] && InputAhead(frag, block) == ""
  {
    if frag == [] {
    } else {
      assert frag[0] in frag;
      NoTools(frag[1..], first, block);
    }
  }

  lemma {:induction false} NoText(frag: seq<Event>)
    requires forall e | e in frag :: !e.TextDelta?
    ensures TextOf(frag) == ""
  {
    if frag == [] {
    } else {
      assert frag[0] in frag;
      NoText(frag[1..]);
    }
  }

  lemma {:induction false} NoThinking(frag: seq<Event>)
    requires forall e | e in frag :: !e.ThinkingDelta?
    ensures ThinkingOf(frag) == ""
  {
    if frag == [] {
    } else {
      assert frag[0] in frag;
      NoThinking(frag[1..]);
    }
  }

  lemma {:induction false} ToolFragment(frag: seq<Event>, i: nat, id: Option<string>, name: string, arguments: string,
                                        first: nat, block: nat)
    requires ToolAt(frag, i, id, name, arguments)
    ensures CallsOf(frag, first) == [ToolCall(first, id, name, arguments)]
    ensures InputAhead(frag, block) == ""
  {
    var rest := frag[1..];
    if i == 0 {
      AllAhead(rest, frag[0].block);
      if frag[0].block == block {
        NoCalls(rest, first + 1);
      } else {
        NoTools(rest, first + 1, block);
      }
    } else {
      assert rest[i..] == frag[i + 1..];
      ToolFragment(rest, i - 1, id, name, arguments, first, block);
    }
  }

  lemma {:induction false} NoCalls(frag: seq<Event>, first: nat)
    requires forall e | e in frag :: !e.ToolStart?
    ensures CallsOf(frag, first) == []
  {
    if frag == [] {
    } else {
      assert frag[0] in frag;
      NoCalls(frag[1..], first);
    }
  }

  lemma FragmentSelfContained(block: Block, frag: seq<Event>)
    requires Fragments(block, frag)
    ensures SelfContained(frag)
  {
    hide InputAhead, TextOf, ThinkingOf, ToolAt;
    forall index: nat
      ensures InputAhead(frag, index) == ""
    {
      if block.ToolUse? {
        var i :| ToolAt(frag, i, block.id, block.name, block.arguments);
        ToolFragment(frag, i, block.id, block.name, block.arguments, 0, index);
      } else {
        NoTools(frag, 0, index);
      }
    }
  }

  lemma ToolSilent(frag: seq<Event>, i: nat, id: Option<string>, name: string, arguments: string)
    requires ToolAt(frag, i, id, name, arguments)
    ensures forall e | e in frag :: !e.TextDelta? && !e.ThinkingDelta?
  {
  }

  /** A block's fragments say what the block adds to the message. */
  lemma FragmentSpeaks(block: Json, frag: seq<Event>, c: Collected)
    requires Fragments(DecodeBlock(block), frag)
    ensures CollectNext(c, block) ==
      Collected(c.content + TextOf(frag), c.reasoning + ThinkingOf(frag), c.toolCalls + CallsOf(frag, |c.toolCalls|))
  {
    hide DecodeBlock, InputAhead, TextOf, ThinkingOf, CallsOf, ToolAt;
    assert c.content + "" == c.content && c.reasoning + "" == c.reasoning && c.toolCalls + [] == c.toolCalls;
    match DecodeBlock(block)
    case Text(text) =>
      NoThinking(frag);
      NoCalls(frag, |c.toolCalls|);
    case Thinking(thinking) =>
      NoText(frag);
      NoCalls(frag, |c.toolCalls|);
    case ToolUse(id, name, arguments) =>
      var i :| ToolAt(frag, i, id, name, arguments);
      ToolSilent(frag, i, id, name, arguments);
      NoText(frag);
      NoThinking(frag);
      ToolFragment(frag, i, id, name, arguments, |c.toolCalls|, 0);
    case Other =>
      NoText(frag);
      NoThinking(frag);
      NoCalls(frag, |c.toolCalls|);
  }

  /** Streaming a block list block after block, in any fragments, says what the block loop collects. */
  lemma {:induction false} StreamedSpeaks(blocks: seq<Json>, frags: seq<seq<Event>>)
    requires Streamed(blocks, frags)
    ensures Spoken(Flatten(frags)) == Collect(blocks)
    decreases |blocks|
  {
    hide DecodeBlock, TextOf, ThinkingOf, CallsOf, Fragments, CollectNext, ToolStarts, SelfContained;
    if blocks == [] {
      NothingSpoken();
    } else {
      var n := |blocks| - 1;
      var before := Flatten(frags[..n]);
      StreamedSpeaks(blocks[..n], frags[..n]);
      FragmentSelfContained(DecodeBlock(blocks[n]), frags[n]);
      TextConcat(before, frags[n]);
      ThinkingConcat(before, frags[n]);
      CallsConcat(before, frags[n], 0);
      CallsCounted(before, 0);
      FragmentSpeaks(blocks[n], frags[n], Collect(blocks[..n]));
    }
  }

  lemma NothingSpoken()
    ensures Spoken([]) == Collected("", "", [])
  {
  }
}
