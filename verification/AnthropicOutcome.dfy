/**
 What an Anthropic stream returns (crates/coevo-models/src/anthropic.rs, lines 506-557 and 690-765),
 in the terms of the events it is sent alone, from the sender on.
 */
module AnthropicOutcome {
  import opened Prelude
  import opened Text
  import opened Json
  import opened ModelTypes
  import opened StructuredText
  import opened AnthropicStream
  import opened AnthropicProperties
  import opened AnthropicMeaning
  import opened AnthropicAgreement
  import Sse
  import SseFraming

  /** What the content parses to, if the answer is asked for as JSON, is not blank and no tool is called. */
  function Wanted(c: Collected, structured: bool, parse: Parser): Option<Result<Json, string>> {
    if structured && c.toolCalls == [] && Trim(c.content) != "" then Some(StructuredValue(c.content, parse)) else None
  }

  function Announced(events: seq<Event>): Tokens {
    Tokens(LastPrompt(events), LastCompletion(events))
  }

  /** Result and errors of a completed stream, in the terms of its events. */
  ghost predicate EndsAsSaid(r: Result<Response, ModelError>, events: seq<Event>, structured: bool, parse: Parser) {
    IsOutcome(r, Spoken(events), Wanted(Spoken(events), structured, parse), Announced(events), LastStop(events),
      structured)
  }

  lemma FinishIsOutcome(events: seq<Event>, structured: bool, parse: Parser)
    ensures EndsAsSaid(Finish(Run(INITIAL, events).state, structured, parse), events, structured, parse)
  {
    hide Run, Spoken, StructuredValue, Trim, MapStopReason, LastPrompt, LastCompletion, LastStop, State.Valid;
    RunSpeaks(events);
    RunAnnouncements(INITIAL, events);
    var s := Run(INITIAL, events).state;
    assert |s.Calls()| == |s.toolCalls|;
    if LastStop(events).Some? {
      StopReasonsMapped(LastStop(events).value);
    }
  }

  /** End to end: tidy text, in whatever pieces, that delivers these events ends as the events say. */
  lemma StreamSaysEvents(pieces: seq<string>, events: seq<Event>, hasSchema: bool, format: ResponseFormat,
                         parse: Parser)
    requires Sse.Tidy(Sse.Concat(pieces))
    requires Delivers(Sse.Split(Sse.Concat(pieces)).list, events, parse)
    ensures EndsAsSaid(StreamOutcome(pieces, hasSchema, format, parse).0, events,
      hasSchema || format == JsonFormat, parse)
  {
    hide Sse.Tidy, Sse.Split, Delivers, Finish, Handle, Run, Sse.Consume, Sse.ReadChunks, EndsAsSaid;
    Sse.ReadingIgnoresChunks(Sse.Running(INITIAL), pieces, Handle(parse));
    ConsumeDelivered(INITIAL, Sse.Split(Sse.Concat(pieces)).list, events, parse);
    FinishIsOutcome(events, hasSchema || format == JsonFormat, parse);
  }

  /** The payloads carry these events, one each, none of which ends the stream. */
  predicate Carry(payloads: seq<string>, events: seq<Event>, parse: Parser) {
    && |payloads| == |events|
    && forall i | 0 <= i < |payloads| ::
         && parse(payloads[i]).Ok? && Decode(parse(payloads[i]).value) == events[i]
         && !events[i].MessageStop? && !events[i].Error?
  }

  lemma {:induction false} HandlesEvents(t: Trace, payloads: seq<string>, events: seq<Event>, parse: Parser)
    requires Carry(payloads, events, parse)
    ensures SseFraming.HandleAll(Sse.Running(t), payloads, Handle(parse)) == Sse.Running(Run(t, events))
    decreases |payloads|
  {
    hide Apply, Decode;
    if payloads == [] {
    } else {
      HandlesEvents(Apply(t, events[0]), payloads[1..], events[1..], parse);
    }
  }

  /** What a stream of these payloads, whatever follows them, has been handled to. */
  lemma HandlesThen(pieces: seq<string>, payloads: seq<string>, more: seq<string>, d: string, events: seq<Event>,
                    parse: Parser)
    requires SseFraming.IsDelimiter(d) && forall p | p in payloads + more :: SseFraming.Sendable(p)
    requires Sse.Concat(pieces) == SseFraming.Framed(SseFraming.DataEvents(payloads + more), d, "")
    requires Carry(payloads, events, parse)
    ensures Sse.ReadChunks(Sse.Running(INITIAL), "", pieces, Handle(parse))
         == SseFraming.HandleAll(Sse.Running(Run(INITIAL, events)), more, Handle(parse))
  {
    hide Handle, Run, Carry, SseFraming.DataEvents, SseFraming.Framed, SseFraming.Sendable, Sse.Concat,
      SseFraming.HandleAll, Sse.ReadChunks, State.Valid;
    SseFraming.SentPayloadsHandled(Sse.Running(INITIAL), payloads + more, d, pieces, Handle(parse));
    SseFraming.HandleAllConcat(Sse.Running(INITIAL), payloads, more, Handle(parse));
    HandlesEvents(INITIAL, payloads, events, parse);
  }

  /**
   A sender that writes each event and then the end as one data line, with one delimiter style, is
   answered as the events say, however its bytes are cut on the way.
   */
  lemma SentEventsAnswered(pieces: seq<string>, payloads: seq<string>, end: string, d: string, events: seq<Event>,
                           hasSchema: bool, format: ResponseFormat, parse: Parser)
    requires SseFraming.IsDelimiter(d) && forall p | p in payloads + [end] :: SseFraming.Sendable(p)
    requires Sse.Concat(pieces) == SseFraming.Framed(SseFraming.DataEvents(payloads + [end]), d, "")
    requires Carry(payloads, events, parse) && parse(end).Ok? && Decode(parse(end).value).MessageStop?
    ensures EndsAsSaid(StreamOutcome(pieces, hasSchema, format, parse).0, events,
      hasSchema || format == JsonFormat, parse)
  {
    hide Finish, Run, Sse.ReadChunks, EndsAsSaid, Carry, Decode, SseFraming.DataEvents, SseFraming.Framed,
      SseFraming.Sendable, Sse.Concat, State.Valid;
    HandlesThen(pieces, payloads, [end], d, events, parse);
    FinishIsOutcome(events, hasSchema || format == JsonFormat, parse);
  }

  /** Without the terminator the stream fails, whatever has been said. */
  lemma UnfinishedStreamFails(pieces: seq<string>, payloads: seq<string>, d: string, events: seq<Event>,
                              hasSchema: bool, format: ResponseFormat, parse: Parser)
    requires SseFraming.IsDelimiter(d) && forall p | p in payloads :: SseFraming.Sendable(p)
    requires Sse.Concat(pieces) == SseFraming.Framed(SseFraming.DataEvents(payloads), d, "")
    requires Carry(payloads, events, parse)
    ensures StreamOutcome(pieces, hasSchema, format, parse).0.Err?
    ensures StreamOutcome(pieces, hasSchema, format, parse).0.error.InvalidResponse?
  {
    hide Finish, Run, Sse.ReadChunks, Carry, Decode, SseFraming.DataEvents, SseFraming.Framed, SseFraming.Sendable,
      Sse.Concat, State.Valid;
    assert payloads + [] == payloads;
    HandlesThen(pieces, payloads, [], d, events, parse);
  }

  /** A payload that does not parse, or an error event, ends the stream with its message, whatever follows. */
  lemma BadEventFails(pieces: seq<string>, payloads: seq<string>, bad: string, more: seq<string>, d: string,
                      events: seq<Event>, hasSchema: bool, format: ResponseFormat, parse: Parser)
    requires SseFraming.IsDelimiter(d) && forall p | p in payloads + ([bad] + more) :: SseFraming.Sendable(p)
    requires Sse.Concat(pieces) == SseFraming.Framed(SseFraming.DataEvents(payloads + ([bad] + more)), d, "")
    requires Carry(payloads, events, parse) && (parse(bad).Ok? ==> Decode(parse(bad).value).Error?)
    ensures StreamOutcome(pieces, hasSchema, format, parse).0 ==
      Err(InvalidResponse(if parse(bad).Err? then parse(bad).error else Decode(parse(bad).value).message))
  {
    hide Finish, Run, Sse.ReadChunks, Carry, Decode, SseFraming.DataEvents, SseFraming.Framed, SseFraming.Sendable,
      Sse.Concat, State.Valid;
    HandlesThen(pieces, payloads, [bad] + more, d, events, parse);
    assert ([bad] + more)[1..] == more;
  }
}
