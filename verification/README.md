# Verified model of coevo's core protocols

coevo runs AI agents under governance. This project models the parts of it whose correctness does
not rest on a single function body: reading model output and provider streams, canonical signing
bytes, invalidation over the dependency graph, plan routing and revision, emergency leases, the
registry of child processes, the intent compiler, reputation scores and the in-process message bus.

| file | models |
|---|---|
| `Text`, `Json`, `JsonReader`, `Utf8` | the string, JSON and encoding primitives of Rust and serde_json that the code uses, and readers for what they write |
| `JsonExtraction`, `StructuredText` | recovering a JSON value from prose (`openai.rs`) |
| `Sse`, `SseFraming` | server-sent events over arbitrary chunks (`openai.rs`, `anthropic.rs`), from the sender to the handler |
| `ModelTypes`, `OpenAiStream`, `OpenAiProperties`, `OpenAiMeaning` | the OpenAI-compatible stream, its events, what its chunks say, and the replay |
| `AnthropicStream`, `AnthropicProperties` | the Anthropic message parser and stream |
| `AnthropicMeaning`, `AnthropicOutcome`, `AnthropicAgreement` | what a stream says, what it returns, and when it ends as the complete message does |
| `Payloads`, `AnthropicMessages` | the provider payloads, encoded independently of the readers, and what parsing a message gives |
| `Canonical`, `SigningTexts` | canonical bytes and the two signing payloads, with the texts they sign |
| `Dependency`, `DependencyProperties` | invalidation propagation |
| `Plan` | plan routing and chains of revisions |
| `Lease`, `LeaseProtocol` | emergency leases, alone and under concurrency |
| `ChildRegistry` | ownership of child processes, bounded output |
| `Intent`, `IntentMeaning` | the bilingual intent classifier, and what it makes of the terms and words of a text |
| `Reputation` | reputation vectors and the scoring engine |
| `MessageBus` | the in-process agent-to-agent bus |

`dafny verify dfyconfig.toml` checks everything.

## Modelling assumptions

- A `string` is a sequence of Unicode scalar values; Rust's byte offsets become character positions.
  A stream chunk is the text it decodes to, so chunks end on character boundaries.
- `serde_json::from_str` is a function parameter (`parses`, `parse`). Nothing assumes that it accepts
  every printed value, because its recursion limit makes that false for deep values. Where blank
  model output matters, the theorems assume that it rejects the empty text.
- A JSON number is the text it prints as, a number in the grammar of section 6 of RFC 8259. A JSON
  object is a sequence of members; `WellFormed` is the invariant of `serde_json::Map` that keys are
  distinct. The repository does not switch on key order preservation, so real maps are already sorted;
  the model does not rely on that.
- SHA-256 is a function parameter of which only the length of the result is used, and key namespaces
  are assumed distinct where the code relies on it. Ed25519 verification is a function parameter.
- `f64` is `real`. Counters that the code never brings near their limit (tokens, tasks, steps) are
  natural numbers. The budget of a lease keeps its widths: 32-bit unsigned in memory, signed in the row.
- Every SQL statement is atomic, as written in `coevo-store`. Clocks, run ids, new plan hashes and
  the outcomes of waiting and killing are parameters or steps of the environment.
- Lowercasing maps each character on its own, by a function parameter.

## Findings

Each of these is a place where the code does less than its comments or a plain reading promise. The
model follows the code.

- Events of a stream do not depend on the chunks only for `Tidy` text: `split_next_sse_event` looks for
  a CRLF blank line in the whole buffer before it looks for an LF one (`Sse.ChunkIndependentIffTidy`,
  `Sse.UntidyText`).
- `extract_sse_data` drops leading empty data lines, strips all leading white space and wants a colon,
  unlike section 9.2.6 of the WHATWG HTML Standard (`Sse.DataIsStandardExactly`,
  `Sse.DataDiffersFromStandard`).
- A message whose only content is blank text fails when parsed whole and succeeds as a stream; with
  structured output the same holds for reasoning without text
  (`AnthropicAgreement.StreamAgreesWithMessage`, `AnthropicAgreement.BlankTextDiffers`).
- Only the stream looks at the response format: an answer asked for as JSON without a schema is parsed,
  and possibly rejected, as a stream, and never parsed as a complete message
  (`AnthropicAgreement.StreamAgreesWithMessage`, `AnthropicAgreement.JsonFormatDiffers`).
- A stream keeps a tool's arguments as the provider spells them, a complete message prints the parsed
  input; the two agree only if the fragments concatenate to the compact print, so any white space, any
  other order of keys and any tool that is sent no input (`{}` in the message) keeps them apart
  (`AnthropicAgreement.StreamAgreesWithMessage`, `AnthropicAgreement.LayoutAndKeyOrderDisagree`,
  `AnthropicAgreement.SilentToolAgreesWithNothing`).
- Propagation from two valid roots on a cycle depends on their order
  (`DependencyProperties.CommuteExactly`, `DependencyProperties.CycleDoesNotCommute`).
- A revision whose completed steps are not the first ones breaks the wiring
  (`Plan.RevisionWiredExactly`, `Plan.LaterStepAloneUnwires`).
- The scope id of a plan is meant to change with any input. Among separator-free inputs the digested
  text tells a routing apart if and only if no field of it contains its separator
  (`Plan.ToldApartExactly`, `Plan.SeparatorsCollide`); among all inputs only if moreover there is one
  agent and it contains no bar (`Plan.AloneExactly`).
- A lease budget of 2^31 or more is stored as a negative number, and the stored lease never pays out
  (`Lease.FreshLeaseAgreesExactly`, `Lease.LargeBudgetNeverPays`).
- The public `penalize` and `reward` are documented as clamping to [0, 1]; each guards one side only, so
  a negative amount leaves the range. No caller in the repository passes one
  (`Reputation.ReputationVector.Penalize`, `Reputation.ReputationVector.Reward`,
  `Reputation.NegativeAmountsLeaveRange`).

## Model

| member | source | states |
|---|---|---|
| Text.TrimAppend | crates/coevo-mcl/src/compiler.rs:385 | the trimmed form of a non-blank text is a prefix of the trimmed form of any extension |
| Text.TrimUnique | crates/coevo-models/src/openai.rs:421 | trimming removes exactly the surrounding white space |
| Text.LinesOfJoin | crates/coevo-models/src/openai.rs:439-451 | splitting into lines undoes joining by LF |
| Text.LinesOfTerminated | crates/coevo-models/src/openai.rs:439-451 | lines each ended by LF or CRLF are split back, and no line follows the last end |
| Json.PrintInjective | crates/coevo-core/src/crypto.rs:246 | unique decodability: equal printed texts come from equal values, even with text following |
| Json.NumeralsAreNumbers | crates/coevo-core/src/crypto.rs:246 | the numerals are exactly the numbers of section 6 of RFC 8259 |
| JsonReader.PrintReadsBack | crates/coevo-core/src/crypto.rs:246 | a reader written after RFC 8259 reads every printed value back: literals, punctuation, escapes and numbers |
| JsonReader.PrintedReads | crates/coevo-models/src/anthropic.rs:394-397 | the same with any text behind the value that cannot extend a number |
| Utf8.EncodeDecodes | crates/coevo-core/src/crypto.rs:242-247 | a decoder written after section 3 of RFC 3629 reads every encoded text back |
| Utf8.EncodeInjective | crates/coevo-core/src/crypto.rs:242-247 | equal encoded bytes come from equal texts |
| Canonical.Canonicalize | crates/coevo-core/src/crypto.rs:250-269 | the recursive rebuilding with its loops computes the canonical form |
| Canonical.SortedUnique | crates/coevo-core/src/crypto.rs:254-257 | a sorted tree is determined by the map it stands for, so insertion order cannot show |
| Canonical.KeyOrderIsByteOrder | crates/coevo-core/src/crypto.rs:254-257 | keys are ordered as their UTF-8 bytes are, the order of a `BTreeMap` of strings |
| Canonical.CanonicalBytesReadBack | crates/coevo-core/src/crypto.rs:236-247 | the signed bytes, decoded and read, are the canonical value again |
| Canonical.CanonicalBytesIdentify | crates/coevo-core/src/crypto.rs:236-247 | canonical bytes are equal if and only if the values are equal up to key order at every level |
| Canonical.CanonIdempotent | crates/coevo-core/src/crypto.rs:250-269 | canonicalising twice is canonicalising once |
| Canonical.CanonKeepsMeaning | crates/coevo-core/src/crypto.rs:236-269 | canonicalising changes nothing but key order, and leaves the keys of every object at every level sorted |
| Canonical.LeasePayloadIdentifies | crates/coevo-risk/src/lease.rs:53-61 | lease signing bytes are equal if and only if agent, scope list and role are equal |
| Canonical.EnvelopeBytesIdentify | crates/coevo-core/src/cognitive.rs:100-113 | envelope signing bytes are equal if and only if content hash, agent, tool and timestamp are equal |
| SigningTexts.LeaseSignedText | crates/coevo-risk/src/lease.rs:53-61 | what is signed for a lease, character by character |
| SigningTexts.EnvelopeSignedText | crates/coevo-core/src/cognitive.rs:100-113 | what is signed for an envelope, character by character |
| Canonical.PayloadKindsDisjoint | crates/coevo-core/src/cognitive.rs:100-113 | a lease vouch and a provenance signature never cover the same bytes |
| JsonExtraction.ExtractFirstJsonValue | crates/coevo-models/src/openai.rs:466-513 | the scanning loop computes the specified first value |
| JsonExtraction.ScannerFindsGroups | crates/coevo-models/src/openai.rs:474-511 | the scan stops at a position if and only if the text up to there is one bracketed group, and the bail-out at depth 0 is unreachable |
| JsonExtraction.ExtractsFirstGroup | crates/coevo-models/src/openai.rs:466-513 | a bracketed group after bracket-free text is returned when it parses, whatever follows and whatever its layout and escapes |
| JsonExtraction.ExtractedIsFirstGroup | crates/coevo-models/src/openai.rs:466-513 | a result is always a parsed, trimmed group at the first bracket |
| JsonExtraction.ExtractsPrintedValue | crates/coevo-models/src/openai.rs:466-513 | every printed object or array is recovered exactly from any surroundings |
| StructuredText.ExtractLastFencedJsonBlock | crates/coevo-models/src/openai.rs:434-464 | the line loop returns the last closed fence that holds JSON |
| StructuredText.FenceFound | crates/coevo-models/src/openai.rs:439-461 | text before a fence is skipped and a closed fence contributes exactly its lines |
| StructuredText.FenceLines | crates/coevo-models/src/openai.rs:440-451 | a line opens a fence exactly when, trimmed, it starts with three backticks, and closes one exactly when it holds nothing else |
| StructuredText.UnclosedFenceDropped | crates/coevo-models/src/openai.rs:434-464 | a fence that is never closed contributes nothing |
| StructuredText.LastValidIsLast | crates/coevo-models/src/openai.rs:451-456 | the chosen fence is the last one that holds JSON, and there is none exactly when no fence does |
| StructuredText.ExtractStructuredJsonText | crates/coevo-models/src/openai.rs:420-432 | whole text first, then fences, then the first bracketed value |
| StructuredText.NothingExtractedExactly | crates/coevo-models/src/openai.rs:420-432 | nothing is extracted exactly when the text is blank, or it does not parse, no fence holds JSON and the first bracketed span does not parse |
| StructuredText.WholeTextWins | crates/coevo-models/src/openai.rs:425-427 | text that is JSON as a whole is the result, whatever brackets and fences it holds |
| StructuredText.BracketedValueFound | crates/coevo-models/src/openai.rs:428-432 | a printed object or array in prose is recovered exactly, or nothing is when it does not parse |
| StructuredText.StructuredIsValidAndStable | crates/coevo-models/src/openai.rs:420-432 | every result is non-empty, trimmed, valid JSON, and extracting again gives it back |
| StructuredText.FencedBlockWins | crates/coevo-models/src/openai.rs:428-431 | a fenced JSON block in prose is the result even after earlier brackets |
| StructuredText.StructuredValueOk | crates/coevo-models/src/openai.rs:881-890 | parsing the extracted text fails exactly when nothing could be extracted |
| Sse.ExtractSseData | crates/coevo-models/src/openai.rs:735-750 | the line loop computes the payload of an event |
| Sse.PayloadJoinsValues | crates/coevo-models/src/openai.rs:735-750 | the payload joins the data values by LF, without leading empty ones |
| Sse.DataIsStandardExactly | crates/coevo-models/src/openai.rs:735-750 | the payload is the data of section 9.2.6 of the WHATWG HTML Standard if and only if every data line has a colon and at most one space, and the first value is not empty |
| Sse.DataDiffersFromStandard | crates/coevo-models/src/openai.rs:735-744 | an event with a second space or a leading empty value is read differently |
| SseFraming.SplitLossless | crates/coevo-models/src/openai.rs:726-733 | the events of a text, each followed by one of the two delimiters, and the rest make up the text, and the rest contains no delimiter |
| SseFraming.FramedSplitsBack | crates/coevo-models/src/openai.rs:726-733 | events written with one delimiter style are split back into themselves if and only if each is whole, the rest is incomplete and LF framing holds no CRLF blank line |
| SseFraming.PayloadReadBack | crates/coevo-models/src/openai.rs:735-750 | a payload written as one data line is read back |
| SseFraming.SentPayloadsHandled | crates/coevo-models/src/openai.rs:683-708 | payloads sent as data lines reach the handler exactly and in order, however the text is cut into chunks |
| Sse.SplitInTwo | crates/coevo-models/src/openai.rs:683-694 | splitting tidy text in two stages gives the events of one pass |
| Sse.ChunkIndependentIffTidy | crates/coevo-models/src/openai.rs:683-708 | events are the same for every chunking if and only if no event ended by a CRLF blank line contains an LF one |
| Sse.UntidyText | crates/coevo-models/src/openai.rs:726-733 | an eight-character stream whose events depend on the chunks |
| Sse.OneStyleIsTidy | crates/coevo-models/src/openai.rs:726-733 | a stream with one delimiter style is tidy |
| Sse.ReadingIgnoresChunks | crates/coevo-models/src/openai.rs:683-708 | reading tidy text in any chunks, up to a stop or an error, ends as one pass does |
| ModelTypes.ClosedWell | crates/coevo-models/src/openai.rs:715-723 | the closing events leave the sums alone; `Done` is last and once, after at most one usage report |
| OpenAiStream.StreamAggregate.ApplyToolCall | crates/coevo-models/src/openai.rs:784-823 | one tool delta merges into its entry and is emitted |
| OpenAiStream.StreamAggregate.ApplyStreamChunk | crates/coevo-models/src/openai.rs:752-835 | one chunk moves aggregate and events as specified |
| OpenAiStream.DrainBuffer | crates/coevo-models/src/openai.rs:691-704 | the inner loop handles exactly the complete events of the buffer |
| OpenAiStream.StreamChatCompletions | crates/coevo-models/src/openai.rs:683-724 | result and events of the whole stream are those of the specified reading |
| OpenAiProperties.ApplySound | crates/coevo-models/src/openai.rs:752-835 | every chunk keeps the emitted deltas adding up to the aggregate |
| OpenAiProperties.StreamReconstructs | crates/coevo-models/src/openai.rs:644-724 | the events of a successful stream reconstruct content, reasoning and tool calls and close well; a failed one reports neither usage nor end |
| OpenAiProperties.StreamIgnoresChunks | crates/coevo-models/src/openai.rs:683-724 | for tidy text result and events do not depend on the chunks |
| OpenAiMeaning.ChunksAreHeld | crates/coevo-models/src/openai.rs:752-835 | after every list of chunks the aggregate holds the concatenated content and reasoning, for each index the last id and name and all argument fragments, and the last usage and finish reason |
| OpenAiMeaning.StreamSaysChunks | crates/coevo-models/src/openai.rs:644-724 | a stream that delivers these chunks ends exactly as they say, errors included |
| OpenAiMeaning.StreamEmitsChunks | crates/coevo-models/src/openai.rs:752-835 | the events are, chunk by chunk, reasoning, content and one event for each tool delta in this order; only a completed stream closes with usage and end |
| OpenAiMeaning.SentChunksAnswered | crates/coevo-models/src/openai.rs:683-724 | the same from the sender on: chunks written as data lines with either delimiter and cut in any way |
| OpenAiMeaning.UnfinishedStreamFails | crates/coevo-models/src/openai.rs:709-714 | without the end marker the stream fails, whatever has been said |
| OpenAiMeaning.MalformedChunkFails | crates/coevo-models/src/openai.rs:700-702 | a payload that does not parse ends the stream with its error, whatever follows |
| OpenAiProperties.EmitFallbackStream | crates/coevo-models/src/openai.rs:609-642 | the replay emits exactly the listed events |
| OpenAiProperties.ReplayInOrder | crates/coevo-models/src/openai.rs:609-642 | the replay tells content, reasoning, tool calls, usage and end in this order |
| OpenAiProperties.FallbackReconstructs | crates/coevo-models/src/openai.rs:609-642 | the replay gives back content and reasoning, and every tool call if and only if calls sharing an index are one call repeated without arguments |
| OpenAiProperties.ReplayedWithoutTools | crates/coevo-models/src/openai.rs:609-642 | without tool calls the replay reconstructs all of the response |
| OpenAiProperties.MockReplayReconstructs | crates/coevo-models/src/openai.rs:99-161 | the responses of both mock routes, the only ones that reach the replay, are reconstructed whole |
| Payloads.ChunkRoundTrip | crates/coevo-models/src/openai.rs:752-843 | an encoded chunk is read back field by field |
| Payloads.BlockRoundTrip | crates/coevo-models/src/anthropic.rs:381-416 | an encoded content block is read as what it means |
| Payloads.EventRoundTrip | crates/coevo-models/src/anthropic.rs:561-688 | an encoded stream event is read back field by field |
| AnthropicMessages.CollectsBlocks | crates/coevo-models/src/anthropic.rs:381-416 | the block loop collects the text, thinking and calls of the encoded blocks |
| AnthropicMessages.MessageIsAnswered | crates/coevo-models/src/anthropic.rs:366-475 | parsing an encoded message gives exactly what its blocks, usage and stop reason say, errors included |
| AnthropicStream.StopReasonsMapped | crates/coevo-models/src/anthropic.rs:313-322 | the reported finish reason of each stop reason |
| AnthropicStream.ParseMessagesResponse | crates/coevo-models/src/anthropic.rs:366-475 | the block loop and the checks after it compute the specified response |
| AnthropicStream.AnthropicStreamState.StartBlock | crates/coevo-models/src/anthropic.rs:577-607 | a tool start takes the next ordinal and keeps the bookkeeping valid |
| AnthropicStream.AnthropicStreamState.ExtendBlock | crates/coevo-models/src/anthropic.rs:609-657 | a delta goes to the call its block leads to; the guarded lookup cannot fail |
| AnthropicStream.AnthropicStreamState.ApplyAnthropicStreamEvent | crates/coevo-models/src/anthropic.rs:561-688 | one event moves state and events as specified and tells stop and error apart |
| AnthropicStream.DrainBuffer | crates/coevo-models/src/anthropic.rs:731-743 | the inner loop handles exactly the complete events of the buffer |
| AnthropicStream.StreamMessages | crates/coevo-models/src/anthropic.rs:721-765 | result and events of the whole stream are those of the specified reading |
| AnthropicProperties.OrdinalsDense | crates/coevo-models/src/anthropic.rs:577-654 | over every event sequence ordinals are exactly 0 to n-1, calls sit under their own index and every block leads to a stored call |
| AnthropicProperties.ApplySound | crates/coevo-models/src/anthropic.rs:561-688 | every event keeps the emitted deltas adding up to the state |
| AnthropicProperties.StreamReconstructs | crates/coevo-models/src/anthropic.rs:690-765 | the events of a successful stream reconstruct the response and close well |
| AnthropicMeaning.RunSpeaks | crates/coevo-models/src/anthropic.rs:561-688 | after every event sequence, however interleaved, the state holds the text and thinking in order and, for each tool start, one call with exactly the input sent for its block |
| AnthropicMeaning.RunCall | crates/coevo-models/src/anthropic.rs:633-654 | a stored call receives exactly the input for the block that leads to it, until another tool takes over that block |
| AnthropicMeaning.RunAnnouncements | crates/coevo-models/src/anthropic.rs:567-672 | token counts and finish reason are the last ones announced |
| AnthropicMeaning.InterleavedSpeaks | crates/coevo-models/src/anthropic.rs:577-654 | tools started in order under distinct block indices with their deltas interleaved in any way are read as exactly those calls |
| AnthropicMeaning.StreamedSpeaks | crates/coevo-models/src/anthropic.rs:381-654 | streaming a block list block after block in any fragments says what the block loop collects |
| AnthropicOutcome.StreamSaysEvents | crates/coevo-models/src/anthropic.rs:506-765 | a stream that delivers these events ends exactly as they say: text, thinking, calls, value, usage and finish reason, errors included |
| AnthropicOutcome.SentEventsAnswered | crates/coevo-models/src/anthropic.rs:721-765 | the same from the sender on: events written as data lines with either delimiter and cut in any way |
| AnthropicOutcome.UnfinishedStreamFails | crates/coevo-models/src/anthropic.rs:751-755 | without the terminator the stream fails, whatever has been said |
| AnthropicOutcome.BadEventFails | crates/coevo-models/src/anthropic.rs:673-688 | a payload that does not parse, or an error event, ends the stream with its message |
| AnthropicAgreement.CollectsTools | crates/coevo-models/src/anthropic.rs:393-411 | a message collects one call for each tool block, numbered in order, with its input printed compactly or `{}` |
| AnthropicAgreement.StreamAgreesWithMessage | crates/coevo-models/src/anthropic.rs:366-557 | for every event sequence that tells a message, in any interleaving and however tool inputs are spelled, stream and complete message have the same outcome if and only if every input is spelled as printed and the paths do not part: without tool calls they do over blank text that would be the answer, and over JSON asked for without a schema |
| AnthropicAgreement.SilentToolAgreesWithNothing | crates/coevo-models/src/anthropic.rs:393-411 | in particular, a stream in which a tool is sent no input succeeds and agrees with no complete message at all |
| AnthropicAgreement.OtherSpellingDisagrees | crates/coevo-models/src/anthropic.rs:393-398 | a tool input spelled in any way but the printed one keeps stream and message apart, for every parser and flag |
| AnthropicAgreement.LayoutAndKeyOrderDisagree | crates/coevo-models/src/anthropic.rs:635-644 | a space after a colon, or keys in another order, is such a spelling |
| AnthropicAgreement.BlankTextDiffers | crates/coevo-models/src/anthropic.rs:418-434 | a single space succeeds when it is streamed and fails as the one text block of a message |
| AnthropicAgreement.JsonFormatDiffers | crates/coevo-models/src/anthropic.rs:749-750 | a text asked for as JSON without a schema has a value or fails as a stream and has no value as a message |
| AnthropicAgreement.ChunkedStreamAgreesWithMessage | crates/coevo-models/src/anthropic.rs:690-765 | the same, from the received chunks to the outcome |
| Dependency.Store.FindDependents | crates/coevo-store/src/repos/cognitive_edge_repo.rs:36-49 | exactly the edges to the target whose source is an entry that is valid now |
| Dependency.Store.Invalidate | crates/coevo-store/src/repos/blackboard_repo.rs:66-72 | clears one flag and nothing else |
| Dependency.Store.AddEdge | crates/coevo-customs/src/dependency.rs:33-43 | appends one edge and changes no entry's validity |
| Dependency.Store.PropagateInvalidation | crates/coevo-customs/src/dependency.rs:47-82 | returns without duplicates exactly the entries reached through valid dependents, clears their flags other than the root's, and terminates on cycles |
| DependencyProperties.NoValidDependentLeft | crates/coevo-customs/src/dependency.rs:55-79 | no valid entry other than the root depends on a returned one |
| DependencyProperties.RepeatChangesNothing | crates/coevo-customs/src/dependency.rs:55-59 | a repeated run returns the root alone and changes nothing |
| DependencyProperties.CommuteExactly | crates/coevo-customs/src/dependency.rs:47-82 | two roots commute if and only if neither is valid and reached only through entries it invalidates itself; always for invalid roots |
| DependencyProperties.CycleDoesNotCommute | crates/coevo-customs/src/dependency.rs:47-82 | a three-edge graph on which the order of the roots shows |
| DependencyProperties.RemainsUnaffected | crates/coevo-customs/src/dependency.rs:47-82 | after any number of invalid roots, what remains valid is what none of them affects |
| DependencyProperties.OrderIrrelevant | crates/coevo-customs/src/dependency.rs:47-82 | the order and repetition of invalid roots do not matter |
| Plan.ReviseInSteps | crates/coevo-router/src/revision.rs:38-130 | the rebuilding loop computes the specified revision |
| Plan.ComputeWires | crates/coevo-router/src/pcdt.rs:19-119 | a routed plan follows the first agents, is wired, uses one scope, and gives the first and last step their roles |
| Plan.KeyReads | crates/coevo-router/src/pcdt.rs:57 | an output key, written out |
| Plan.KeyInjective | crates/coevo-router/src/pcdt.rs:57 | an output key determines its scope and its step |
| Plan.OutputsDistinct | crates/coevo-router/src/pcdt.rs:45-55 | no two steps of a plan write the same key |
| Plan.KeysFromExactly | crates/coevo-router/src/pcdt.rs:45-57 | the output keys from a step on are exactly those of the steps from there on |
| Plan.ScopeTextIdentifies | crates/coevo-router/src/pcdt.rs:133-162 | separator-free inputs have the same digested text only if they are the same |
| Plan.ScopeTextReads | crates/coevo-router/src/pcdt.rs:133-162 | the digested text is policy, goal, parent and agents, with bars between and a comma after each agent |
| Plan.RoutedScopeExactly | crates/coevo-router/src/pcdt.rs:133-162 | the scope of a routed plan is the first 16 characters of the digest of that text |
| Plan.ToldApartExactly | crates/coevo-router/src/pcdt.rs:133-162 | for a non-empty path, an input is the only separator-free one with its digested text if and only if none of its fields contains its separator |
| Plan.AloneExactly | crates/coevo-router/src/pcdt.rs:133-162 | for a non-empty path, no other input at all has its digested text if and only if there is one agent, without comma, and no field contains a bar |
| Plan.SeparatorsCollide | crates/coevo-router/src/pcdt.rs:146-160 | agents joined by a comma, and policy and goal or goal and parent joined by a bar, read like separate fields |
| Plan.RevisionWiredExactly | crates/coevo-router/src/revision.rs:58-107 | a revision is wired if and only if the completed steps come first |
| Plan.RevisionKeeps | crates/coevo-router/src/revision.rs:43-107 | completed configs are kept verbatim, the rest is rebuilt with available, unaffected agents under the new scope |
| Plan.RevisionRunsRemaining | crates/coevo-router/src/revision.rs:47-119 | after the kept steps a revision runs the available agents minus the affected ones, one step each, in their order and as often; it descends from its plan, keeps ceilings and failback agents, and fails exactly when no agent remains |
| Plan.LaterStepAloneUnwires | crates/coevo-router/src/revision.rs:58-66 | a two-step plan of which only the second step is completed loses its wiring |
| Plan.ChainStaysWired | crates/coevo-router/src/revision.rs:38-130 | at every stage of every chain the plan is wired with distinct outputs, completed configs are kept verbatim, the remaining agents run in order after them, and the rest of the plan is inherited |
| Plan.ChainNeverOverwrites | crates/coevo-router/src/revision.rs:66-107 | along every chain no blackboard key is written twice |
| Plan.RoutedChain | crates/coevo-router/src/pcdt.rs:19-119 | both, from routing through any number of revisions, the routed plan's own keys included |
| Lease.InScopeExactly | crates/coevo-core/src/lease.rs:54-58 | a URN is in scope exactly when it is a scope prefix followed by some text |
| Lease.CastsUndo | crates/coevo-risk/src/lease.rs:144-191 | a stored number is reported as it was |
| Lease.EmergencyLease.ConsumeOperation | crates/coevo-core/src/lease.rs:61-73 | consumes exactly when valid; the budget error is never reported |
| Lease.LeaseStore.ConsumeOperation | crates/coevo-store/src/repos/lease_repo.rs:43-51 | the conditional update changes one row, at most once |
| Lease.LeaseStore.Revoke | crates/coevo-store/src/repos/lease_repo.rs:53-59 | revocation changes the flags of one row |
| Lease.LeaseStore.ExpireAll | crates/coevo-store/src/repos/lease_repo.rs:61-70 | a sweep ends exactly the active leases whose expiry has passed |
| Lease.LeaseStore.Grant | crates/coevo-risk/src/lease.rs:75-141 | stores the described lease if and only if both role-bound attestations hold |
| Lease.LeaseStore.TryConsume | crates/coevo-risk/src/lease.rs:144-191 | verdict, error and new row of an undisturbed call |
| Lease.VerdictExactly | crates/coevo-risk/src/lease.rs:144-191 | exactly which row, URN and time give which verdict of an undisturbed call, and which row is left |
| Lease.AttestationBinds | crates/coevo-risk/src/lease.rs:94-111 | if no signature covers two messages, accepted signatures fit one agent and scope and never swapped roles |
| Lease.FreshLeaseAgreesExactly | crates/coevo-core/src/lease.rs:41-58 | stored and in-memory lease agree on a call unless the budget does not fit the stored column |
| Lease.StoredRefinesInMemory | crates/coevo-risk/src/lease.rs:144-191 | with one caller and a clock that does not go back they agree on every list of calls, and the row left behind represents the lease left behind, count included |
| Lease.GrantedLeaseRefines | crates/coevo-core/src/lease.rs:39-73 | in particular, a freshly granted lease whose budget fits the column gives the same answers and ends with the same count stored or in memory |
| Lease.LargeBudgetNeverPays | crates/coevo-store/src/repos/lease_repo.rs:19-41 | a lease with a budget of 2^31 pays in memory and not from the store |
| LeaseProtocol.StepKeeps | crates/coevo-risk/src/lease.rs:144-199 | every step of every caller, revocation, sweep and clock change keeps the invariant |
| LeaseProtocol.LeaseSafety | crates/coevo-risk/src/lease.rs:144-199 | in every interleaving use stays within budget, equals the consumptions that took effect and the successful calls, successes are in scope, nothing is taken after the end |
| LeaseProtocol.EndedStaysDead | crates/coevo-risk/src/lease.rs:194-199 | once revoked or swept a lease is never used again |
| LeaseProtocol.RevokedNeverUsed | crates/coevo-risk/src/lease.rs:194-199 | after a revocation nothing is taken and no further call succeeds, in any interleaving |
| LeaseProtocol.SweepEndsExactly | crates/coevo-store/src/repos/lease_repo.rs:61-70 | a sweep ends the lease exactly when it is active and expired |
| LeaseProtocol.NoSuccessAfterExpiry | crates/coevo-risk/src/lease.rs:155-191 | with a clock that never goes back, a call that has not passed the expiry check when the lease expires never succeeds, in any interleaving |
| LeaseProtocol.LateCallFails | crates/coevo-risk/src/lease.rs:144-191 | from the grant on, a call that begins after the expiry never succeeds |
| LeaseProtocol.AloneIsSequential | crates/coevo-risk/src/lease.rs:144-191 | a call that nothing interferes with does what the sequential manager does |
| ChildRegistry.LocalProcessExecutor.Register | crates/coevo-executors/src/local_process.rs:248-251 | registering a fresh run is the spawn step |
| ChildRegistry.LocalProcessExecutor.ReclaimChild | crates/coevo-executors/src/local_process.rs:349-359 | the collector takes the child or reports the cancellation |
| ChildRegistry.LocalProcessExecutor.ReturnCollectError | crates/coevo-executors/src/local_process.rs:263-266 | a collector error clears the registration |
| ChildRegistry.LocalProcessExecutor.ReturnTimeout | crates/coevo-executors/src/local_process.rs:267-273 | a timeout takes the child if it is still registered |
| ChildRegistry.LocalProcessExecutor.CancelExecution | crates/coevo-executors/src/local_process.rs:300-313 | a cancel takes the child or finds none |
| ChildRegistry.StepKeeps | crates/coevo-executors/src/local_process.rs:248-313 | every step of executor, collector, timeout and cancellers keeps the invariant |
| ChildRegistry.ChildrenTakenOnce | crates/coevo-executors/src/local_process.rs:248-274 | in every interleaving each child is taken at most once, is registered exactly until then, and is gone once `execute` returned |
| ChildRegistry.CancelledNeverSucceeds | crates/coevo-executors/src/local_process.rs:300-313 | a cancel that returned Ok means its execution never returns Ok |
| ChildRegistry.OneCancelWins | crates/coevo-executors/src/local_process.rs:300-313 | at most one cancel of a run returns Ok |
| ChildRegistry.CancelVerdictExactly | crates/coevo-executors/src/local_process.rs:300-313 | a cancel has returned Ok exactly when its kill worked on the child it had taken, and an error exactly when it found none or the kill broke |
| ChildRegistry.ResultExactly | crates/coevo-executors/src/local_process.rs:248-274 | `execute` has returned Ok, an error or a timeout exactly when the child's exit, a failed collector or the timeout came about |
| ChildRegistry.ReadLimitedOutput | crates/coevo-executors/src/local_process.rs:369-397 | keeps exactly the first 64 KiB and reports truncation exactly when there was more, however the stream was read |
| Intent.ParseIntent | crates/coevo-mcl/src/compiler.rs:384-512 | the conditional pushes compute the specified classification |
| IntentMeaning.WordsCoverText | crates/coevo-mcl/src/compiler.rs:361-376 | the words of a text, with the white gaps around them, make up the text |
| IntentMeaning.WordsCounted | crates/coevo-mcl/src/compiler.rs:361-376 | every word that is not Chinese only counts once, and Chinese characters one for each two, rounded up |
| IntentMeaning.ParsedExactly | crates/coevo-mcl/src/compiler.rs:384-512 | risk level, environment and ambiguity in terms of the concepts the text expresses and its word count |
| IntentMeaning.ContractExactly | crates/coevo-mcl/src/compiler.rs:37-121 | approval, risk ceiling, emergency leases, data domains and action modes in terms of the concepts the text expresses |
| Intent.WordCountMono | crates/coevo-mcl/src/compiler.rs:346-376 | extending a text lowers neither the word count nor the count of CJK characters |
| Intent.AppendingOnlyTightens | crates/coevo-mcl/src/compiler.rs:384-512 | appending text never lowers risk or environment, never raises ambiguity, and forgets no data domain or classified action |
| Intent.CompiledStaysStrict | crates/coevo-mcl/src/compiler.rs:37-121 | an intent that compiles still does, explicit approval is never relaxed and the risk ceiling never drops |
| Intent.GateExactly | crates/coevo-mcl/src/compiler.rs:47-54 | the gate passes exactly the non-blank intents that name an action |
| Reputation.ReputationVector.Penalize | crates/coevo-core/src/reputation.rs:42-50 | the new vector, and exactly when it stays in range |
| Reputation.ReputationVector.Reward | crates/coevo-core/src/reputation.rs:53-61 | the new vector, and exactly when it stays in range |
| Reputation.UpdateExactly | crates/coevo-reputation/src/scoring.rs:42-73 | an update moves competence by 0.05 times difficulty, kept in 1 to 5, times surprise, keeps it in 0 to 1, counts tasks and avoided tasks, and decays competence and honesty after more than ten avoided ones |
| Reputation.CleanOutcomeCounts | crates/coevo-reputation/src/scoring.rs:102-129 | an outcome with clean data is an update at difficulty 3, and moves competence the way the outcome differs from the confidence |
| Reputation.ReputationEngine.UpdateReputation | crates/coevo-reputation/src/scoring.rs:42-73 | the new rows after an update |
| Reputation.ReputationEngine.PenalizeReputation | crates/coevo-reputation/src/scoring.rs:76-100 | the new rows after a graded penalty |
| Reputation.ReputationEngine.ApplyAntiHindsight | crates/coevo-reputation/src/scoring.rs:104-129 | the new rows after an outcome with or without dirty tool data |
| Reputation.SeverityCosts | crates/coevo-reputation/src/scoring.rs:82-97 | what each severity takes off the score, and off compliance when severe; a graver one never costs less |
| Reputation.RunInRange | crates/coevo-reputation/src/scoring.rs:42-129 | in every run all four scores of every agent stay in [0, 1] |
| Reputation.DirtyDataSparesAgent | crates/coevo-reputation/src/scoring.rs:102-129 | in every run an agent ends with the scores it would have had without the outcomes blamed on dirty data of another tool |
| Reputation.DirtyDataCostsTool | crates/coevo-reputation/src/scoring.rs:102-116 | n such outcomes lower the tool's competence by exactly 0.05 n, down to 0 |
| Reputation.NegativeAmountsLeaveRange | crates/coevo-core/src/reputation.rs:42-61 | a penalty or reward of -1 takes a neutral score out of [0, 1] |
| Reputation.HonestyDecays | crates/coevo-reputation/src/scoring.rs:56-67 | k avoided tasks after a multiply honesty by exactly 0.95 to the power max(0, min(k, a + k - 10)) |
| Reputation.CompetenceDecays | crates/coevo-reputation/src/scoring.rs:52-67 | competence is bounded by the same factor when no outcome beats its expectation |
| Reputation.RunDecaysHonesty | crates/coevo-reputation/src/scoring.rs:42-73 | the same exact law over every run of the engine, with operations on other agents in between |
| Reputation.RunDecaysCompetence | crates/coevo-reputation/src/scoring.rs:42-73 | the same bound over every run of the engine |
| MessageBus.InProcessA2aRouter.RegisterAgent | crates/coevo-adapters/src/a2a_router.rs:106-109 | registering keeps an existing inbox |
| MessageBus.InProcessA2aRouter.UnregisterAgent | crates/coevo-adapters/src/a2a_router.rs:111-114 | unregistering discards exactly the queued messages |
| MessageBus.InProcessA2aRouter.SendMessage | crates/coevo-adapters/src/a2a_router.rs:64-94 | a send to a registered agent is appended, any other is rejected and changes nothing |
| MessageBus.InProcessA2aRouter.DrainInbox | crates/coevo-adapters/src/a2a_router.rs:116-122 | draining hands out the whole inbox in order and empties it |
| MessageBus.RunConserves | crates/coevo-adapters/src/a2a_router.rs:64-122 | over every run accepted messages are, in order, the drained or discarded ones followed by the queued ones |
| MessageBus.DeparturesExplained | crates/coevo-adapters/src/a2a_router.rs:106-122 | over every run, what counts as drained is what draining handed out, and what counts as discarded is what unregistering threw away |
| MessageBus.SinceRegistration | crates/coevo-adapters/src/a2a_router.rs:106-122 | while an agent is not unregistered, what was queued and sent is what was drained followed by what is queued |
| MessageBus.RegisteredAgentGetsAll | crates/coevo-adapters/src/a2a_router.rs:106-122 | since its registration an agent has drained or still has everything it was sent, in order |

## Left out

- HTTP, SQL plumbing, the file system, spawning and killing processes, keyrings, user interfaces and server routes.
- The internals of Ed25519, SHA-256 and `serde_json::from_str`; nothing is claimed about forging signatures.
- Sse.DataIsStandardExactly: compares the data of the same lines; a lone CR ends a line in the standard and not in the code.
- Event handlers that fail: the sink of the model accepts every event.
- Overflow of the token sum in `AnthropicStreamState::usage` and of the task and avoidance counters: natural numbers here.
- Model name, provider kind and latency of a response, which are copied from the request and the clock.
- Chunks that end inside a character: the code decodes each chunk on its own and would replace the pieces.
- Database errors, which the code maps to one error of each operation.
- Lease expiry at the instant of the update: the clock is read in an earlier step and the statement does not look at it.
- Store statements that other parts of the server might run on the same lease row, apart from revocation and the expiry sweep.
- Read errors in `read_limited_output`, which end the run with an error.
- Version strings, failback triggers and the exploration quota of a plan, and `max_hops` after a revision, which the code does not enforce.
- Sibling revisions of one plan, which share a scope id.
- Warnings, goal tree, evidence, termination and responsibility policies and the policy engine of the compiler: constants or calls into other components.
- Lowercasing that depends on neighbouring characters (final sigma).
- Blackboard versioning, provenance checks, promotion, the risk decision tree, tracks, resolution and evolution: case analysis over stored data.
