/**
 `extract_structured_json_text` (crates/coevo-models/src/openai.rs, lines 420-464): the whole text
 when it is JSON, else the last closed code fence that holds JSON, else the first bracketed value.
 */
module StructuredText {
  import opened Prelude
  import opened Text
  import opened Json
  import opened JsonExtraction

  const FENCE: string := "```"

  predicate OpensFence(line: string) { FENCE <= Trim(line) }

  predicate ClosesFence(line: string) { Trim(line) == FENCE }

  // ---- Closed fences of a text ----

  /** The lines inside each closed fence, in order; a fence that is never closed is dropped. */
  function Fences(lines: seq<string>): seq<seq<string>>
    decreases |lines|
  {
    if lines == [] then []
    else if OpensFence(lines[0]) then InFence(lines[1..], [])
    else Fences(lines[1..])
  }

  function InFence(lines: seq<string>, body: seq<string>): seq<seq<string>>
    decreases |lines|
  {
    if lines == [] then []
    else if ClosesFence(lines[0]) then [body] + Fences(lines[1..])
    else InFence(lines[1..], body + [lines[0]])
  }

  function Body(fence: seq<string>): string {
    Trim(Join(fence, "\n"))
  }

  predicate HoldsJson(fence: seq<string>, parses: string -> bool) {
    Body(fence) != "" && parses(Body(fence))
  }

  function LastValid(fences: seq<seq<string>>, parses: string -> bool): Option<string> {
    if fences == [] then None
    else
      var last := fences[|fences| - 1];
      if HoldsJson(last, parses) then Some(Body(last)) else LastValid(fences[..|fences| - 1], parses)
  }

  lemma OutsideStep(lines: seq<string>, n: nat)
    requires n < |lines|
    ensures Fences(lines[n..]) == if OpensFence(lines[n]) then InFence(lines[n + 1..], []) else Fences(lines[n + 1..])
  {
    hide OpensFence, ClosesFence;
    assert lines[n..][1..] == lines[n + 1..];
  }

  lemma InsideStep(lines: seq<string>, n: nat, body: seq<string>)
    requires n < |lines|
    ensures InFence(lines[n..], body)
         == if ClosesFence(lines[n]) then [body] + Fences(lines[n + 1..])
           else InFence(lines[n + 1..], body + [lines[n]])
  {
    hide OpensFence, ClosesFence;
    assert lines[n..][1..] == lines[n + 1..];
  }

  lemma NoMoreFences(body: seq<string>)
    ensures Fences([]) == [] && InFence([], body) == []
  {
  }

  lemma NoDoneFence(parses: string -> bool)
    ensures LastValid([], parses) == None
  {
  }

  lemma LastValidGrows(fences: seq<seq<string>>, last: seq<string>, parses: string -> bool)
    ensures LastValid(fences + [last], parses)
         == if HoldsJson(last, parses) then Some(Body(last)) else LastValid(fences, parses)
  {
    hide Body;
    assert (fences + [last])[..|fences|] == fences;
  }

  method ExtractLastFencedJsonBlock(content: string, parses: string -> bool) returns (lastValid: Option<string>)
    ensures lastValid == LastValid(Fences(Lines(content)), parses)
  {
    hide Body, Lines, OpensFence, ClosesFence, Fences, InFence, LastValid;
    NoDoneFence(parses);
    var inFence := false;
    var current: seq<string> := [];
    lastValid := None;
    var lines := Lines(content);
    ghost var done: seq<seq<string>> := [];
    for n := 0 to |lines|
      invariant lastValid == LastValid(done, parses)
      invariant Fences(lines) == done + if inFence then InFence(lines[n..], current) else Fences(lines[n..])
    {
      var line := lines[n];
      if !inFence {
        OutsideStep(lines, n);
        if OpensFence(line) {
          inFence := true;
          current := [];
        }
        continue;
      }
      InsideStep(lines, n, current);
      if ClosesFence(line) {
        var body := Body(current);
        LastValidGrows(done, current, parses);
        assert done + ([current] + Fences(lines[n + 1..])) == done + [current] + Fences(lines[n + 1..]);
        if body != "" && parses(body) {
          lastValid := Some(body);
        }
        done := done + [current];
        inFence := false;
        current := [];
        continue;
      }
      current := current + [line];
    }
    NoMoreFences(current);
    assert lines[|lines|..] == [] && done + [] == done;
  }

  // ---- What counts as a fence, without the state machine ----

  /** A fence opens with three backticks and anything after them, and closes with nothing else on the line. */
  lemma FenceLines(line: string)
    ensures OpensFence(line) <==> exists rest :: Trim(line) == "```" + rest
    ensures ClosesFence(line) <==> Trim(line) == "```"
  {
    hide Trim;
    if OpensFence(line) {
      assert Trim(line) == "```" + Trim(line)[3..];
    }
  }

  /** Text before the first fence is skipped, and a closed fence contributes exactly its lines. */
  lemma {:induction false} FenceFound(before: seq<string>, open: string, body: seq<string>, close: string,
                                      after: seq<string>)
    requires forall i | 0 <= i < |before| :: !OpensFence(before[i])
    requires OpensFence(open) && ClosesFence(close)
    requires forall i | 0 <= i < |body| :: !ClosesFence(body[i])
    ensures Fences(before + ([open] + (body + ([close] + after)))) == [body] + Fences(after)
    decreases |before|
  {
    hide OpensFence, ClosesFence;
    var tail := [open] + (body + ([close] + after));
    if before == [] {
      assert before + tail == tail;
      assert tail[1..] == body + ([close] + after);
      BodyRead(body, [], close, after);
      assert [] + body == body;
    } else {
      assert (before + tail)[0] == before[0];
      assert (before + tail)[1..] == before[1..] + tail;
      FenceFound(before[1..], open, body, close, after);
    }
  }

  lemma {:induction false} BodyRead(body: seq<string>, seen: seq<string>, close: string, after: seq<string>)
    requires ClosesFence(close) && forall i | 0 <= i < |body| :: !ClosesFence(body[i])
    ensures InFence(body + ([close] + after), seen) == [seen + body] + Fences(after)
    decreases |body|
  {
    hide OpensFence, ClosesFence;
    var lines := body + ([close] + after);
    if body == [] {
      assert lines == [close] + after;
      assert lines[1..] == after && seen + body == seen;
    } else {
      assert lines[0] == body[0];
      assert lines[1..] == body[1..] + ([close] + after);
      BodyRead(body[1..], seen + [body[0]], close, after);
      assert seen + [body[0]] + body[1..] == seen + body;
    }
  }

  /** A fence that is never closed is dropped. */
  lemma {:induction false} UnclosedFenceDropped(before: seq<string>, open: string, body: seq<string>)
    requires forall i | 0 <= i < |before| :: !OpensFence(before[i])
    requires OpensFence(open) && forall i | 0 <= i < |body| :: !ClosesFence(body[i])
    ensures Fences(before + ([open] + body)) == []
    decreases |before|
  {
    hide OpensFence, ClosesFence;
    var tail := [open] + body;
    if before == [] {
      assert before + tail == tail && tail[1..] == body;
      NeverClosed(body, []);
    } else {
      assert (before + tail)[0] == before[0] && (before + tail)[1..] == before[1..] + tail;
      UnclosedFenceDropped(before[1..], open, body);
    }
  }

  lemma {:induction false} NeverClosed(body: seq<string>, seen: seq<string>)
    requires forall i | 0 <= i < |body| :: !ClosesFence(body[i])
    ensures InFence(body, seen) == []
    decreases |body|
  {
    hide OpensFence, ClosesFence;
    if body == [] {
    } else {
      NeverClosed(body[1..], seen + [body[0]]);
    }
  }

  /** `LastValid` picks the last fence that holds JSON. */
  lemma {:induction false} LastValidIsLast(fences: seq<seq<string>>, parses: string -> bool)
    ensures LastValid(fences, parses).None? <==> forall i | 0 <= i < |fences| :: !HoldsJson(fences[i], parses)
    ensures forall k | 0 <= k < |fences| ::
      (HoldsJson(fences[k], parses) && forall i | k < i < |fences| :: !HoldsJson(fences[i], parses))
      ==> LastValid(fences, parses) == Some(Body(fences[k]))
    ensures LastValid(fences, parses).Some? ==>
      exists k :: 0 <= k < |fences| && HoldsJson(fences[k], parses)
        && LastValid(fences, parses) == Some(Body(fences[k]))
  {
    hide Body, HoldsJson;
    if fences == [] {
    } else {
      var n := |fences| - 1;
      if HoldsJson(fences[n], parses) {
        assert LastValid(fences, parses) == Some(Body(fences[n]));
      } else {
        LastValidIsLast(fences[..n], parses);
        assert forall i | 0 <= i < n :: fences[..n][i] == fences[i];
      }
    }
  }

  // ---- The extraction ----

  function StructuredJson(content: string, parses: string -> bool): Option<string> {
    var trimmed := Trim(content);
    if trimmed == "" then None
    else if parses(trimmed) then Some(trimmed)
    else
      var fenced := LastValid(Fences(Lines(trimmed)), parses);
      if fenced.Some? then fenced else FirstJsonValue(trimmed, parses)
  }

  method ExtractStructuredJsonText(content: string, parses: string -> bool) returns (r: Option<string>)
    ensures r == StructuredJson(content, parses)
  {
    var trimmed := Trim(content);
    if trimmed == "" {
      return None;
    }
    if parses(trimmed) {
      return Some(trimmed);
    }
    var fenced := ExtractLastFencedJsonBlock(trimmed, parses);
    if fenced.Some? {
      return fenced;
    }
    r := ExtractFirstJsonValue(trimmed, parses);
  }

  /** Trimmed valid JSON is its own extraction. */
  predicate IsExtracted(x: string, parses: string -> bool) {
    x != "" && Trim(x) == x && parses(x)
  }

  lemma ExtractedAgain(x: string, parses: string -> bool)
    requires IsExtracted(x, parses)
    ensures StructuredJson(x, parses) == Some(x)
  {
    hide Trim, Lines, Fences, LastValid, FirstJsonValue;
  }

  lemma FencedIsExtracted(fences: seq<seq<string>>, parses: string -> bool)
    requires LastValid(fences, parses).Some?
    ensures IsExtracted(LastValid(fences, parses).value, parses)
  {
    hide Trim, Join, LastValid;
    LastValidIsLast(fences, parses);
    var k :| 0 <= k < |fences| && HoldsJson(fences[k], parses) && LastValid(fences, parses) == Some(Body(fences[k]));
    TrimTwice(Join(fences[k], "\n"));
  }

  lemma FirstIsExtracted(content: string, parses: string -> bool)
    requires FirstJsonValue(content, parses).Some?
    ensures IsExtracted(FirstJsonValue(content, parses).value, parses)
  {
    hide Trim, FirstJsonValue;
    var prefix, suffix := ExtractedIsFirstGroup(content, parses);
  }

  /** Every result is non-empty, trimmed, valid JSON, and extracting from it again gives it back. */
  lemma StructuredIsValidAndStable(content: string, parses: string -> bool)
    requires StructuredJson(content, parses).Some?
    ensures var x := StructuredJson(content, parses).value;
      x != "" && Trim(x) == x && parses(x) && StructuredJson(x, parses) == Some(x)
  {
    hide Trim, Lines, Fences, LastValid, FirstJsonValue, StructuredJson;
    var x := StructuredJson(content, parses).value;
    assert IsExtracted(x, parses) by { StructuredIsExtracted(content, parses); }
    ExtractedAgain(x, parses);
  }

  lemma StructuredIsExtracted(content: string, parses: string -> bool)
    requires StructuredJson(content, parses).Some?
    ensures IsExtracted(StructuredJson(content, parses).value, parses)
  {
    hide Trim, Lines, Fences, LastValid, FirstJsonValue;
    var trimmed := Trim(content);
    if parses(trimmed) {
      TrimTwice(content);
    } else if LastValid(Fences(Lines(trimmed)), parses).Some? {
      FencedIsExtracted(Fences(Lines(trimmed)), parses);
    } else {
      FirstIsExtracted(trimmed, parses);
    }
  }

  lemma TrimTwice(s: string)
    ensures Trim(Trim(s)) == Trim(s)
  {
  }

  /** Some closed fence holds JSON. */
  ghost predicate SomeFenceHolds(text: string, parses: string -> bool) {
    exists k :: 0 <= k < |Fences(Lines(text))| && HoldsJson(Fences(Lines(text))[k], parses)
  }

  lemma NoFenceNoBlock(text: string, parses: string -> bool)
    ensures LastValid(Fences(Lines(text)), parses).None? <==> !SomeFenceHolds(text, parses)
  {
    hide Fences, Lines, HoldsJson, LastValid;
    LastValidIsLast(Fences(Lines(text)), parses);
  }

  /**
   Nothing is extracted exactly when none of the three sources has a value: the whole text does not
   parse, no closed fence holds JSON, and the first bracketed span does not parse.
   */
  lemma NothingExtractedExactly(content: string, parses: string -> bool)
    ensures var text := Trim(content);
      StructuredJson(content, parses).None?
      <==> text == "" || (!parses(text) && !SomeFenceHolds(text, parses) && FirstJsonValue(text, parses).None?)
  {
    hide Trim, Fences, Lines, LastValid, FirstJsonValue, SomeFenceHolds;
    NoFenceNoBlock(Trim(content), parses);
  }

  /** Text that is JSON as a whole is the result, whatever brackets and fences it holds. */
  lemma WholeTextWins(content: string, parses: string -> bool)
    requires Trim(content) != "" && parses(Trim(content))
    ensures StructuredJson(content, parses) == Some(Trim(content))
  {
    hide Trim, Fences, Lines, LastValid, FirstJsonValue;
  }

  /**
   A printed object or array in prose is recovered exactly, if no opening bracket stands before it, the
   text is not JSON as a whole, and no fence holds JSON; if the value itself does not parse, nothing is.
   */
  lemma BracketedValueFound(content: string, prefix: string, v: Json, suffix: string, parses: string -> bool)
    requires Trim(content) == prefix + (Print(v) + suffix) && (v.Arr? || v.Obj?)
    requires forall i | 0 <= i < |prefix| :: !Opens(prefix[i])
    requires !parses(Trim(content)) && !SomeFenceHolds(Trim(content), parses)
    ensures StructuredJson(content, parses) == if parses(Print(v)) then Some(Print(v)) else None
  {
    hide Trim, Fences, Lines, LastValid, FirstJsonValue, SomeFenceHolds, Print;
    NoFenceNoBlock(Trim(content), parses);
    ExtractsPrintedValue(prefix, v, suffix, parses);
    PrintHead(v, suffix);
    assert Trim(content) != "";
  }

  /** A fenced JSON block in prose is recovered, even when a bracket precedes it in the prose. */
  lemma FencedBlockWins(before: seq<string>, open: string, body: seq<string>, close: string, after: seq<string>,
                        parses: string -> bool)
    requires var lines := before + ([open] + (body + ([close] + after)));
      PlainLines(lines) && Trimmed(Join(lines, "\n")) && !parses(Join(lines, "\n"))
    requires forall i | 0 <= i < |before| :: !OpensFence(before[i])
    requires OpensFence(open) && ClosesFence(close)
    requires forall i | 0 <= i < |body| :: !ClosesFence(body[i])
    requires forall i | 0 <= i < |after| :: !OpensFence(after[i])
    requires HoldsJson(body, parses)
    ensures StructuredJson(Join(before + ([open] + (body + ([close] + after))), "\n"), parses)
         == Some(Trim(Join(body, "\n")))
  {
    hide OpensFence, ClosesFence, Lines, Trim, HoldsJson, FirstJsonValue, PlainLines, IsWhite, Join;
    var lines := before + ([open] + (body + ([close] + after)));
    LinesOfJoin(lines);
    TrimOfTrimmed(Join(lines, "\n"));
    FenceFound(before, open, body, close, after);
    NoFence(after);
    var fences := [body] + Fences(after);
    assert fences == [body];
    assert fences[0] == body;
    LastValidIsLast(fences, parses);
  }

  lemma {:induction false} NoFence(lines: seq<string>)
    requires forall i | 0 <= i < |lines| :: !OpensFence(lines[i])
    ensures Fences(lines) == []
    decreases |lines|
  {
    hide OpensFence;
    if lines == [] {
    } else {
      NoFence(lines[1..]);
    }
  }

  // ---- Parsing the extracted text ----

  /** `serde_json::from_str::<Value>`: the value, or the text of the error. */
  type Parser = string -> Result<Json, string>

  function Accepts(parse: Parser): string -> bool {
    s => parse(s).Ok?
  }

  /** The value parsed from model output that has to be JSON. */
  function StructuredValue(content: string, parse: Parser): Result<Json, string> {
    var extracted := StructuredJson(content, Accepts(parse));
    parse(if extracted.Some? then extracted.value else Trim(content))
  }

  /** Parsing fails exactly when nothing could be extracted. */
  lemma StructuredValueOk(content: string, parse: Parser)
    requires Trim(content) != ""
    ensures StructuredValue(content, parse).Ok? <==> StructuredJson(content, Accepts(parse)).Some?
  {
    hide Trim, Fences, Lines;
    if StructuredJson(content, Accepts(parse)).Some? {
      StructuredIsValidAndStable(content, Accepts(parse));
    }
  }
}
