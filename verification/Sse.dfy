/**
 Server-sent events over an arbitrarily cut stream (crates/coevo-models/src/openai.rs, lines
 683-708 and 726-750; the same loop is in crates/coevo-models/src/anthropic.rs, lines 721-747).
 A chunk is the text it decodes to.
 */
module Sse {
  import opened Prelude
  import opened Text

  const CRLF_BLANK: string := "\r\n\r\n"
  const LF_BLANK: string := "\n\n"

  // ---- Splitting one event off the buffer ----

  datatype Cut = Cut(event: string, rest: string)

  /** A CRLF blank line anywhere is taken before any LF blank line. */
  function SplitNext(buffer: string): (r: Option<Cut>)
    ensures r.Some? ==> |r.value.rest| < |buffer|
  {
    match Find(buffer, CRLF_BLANK)
    case Some(i) => Some(Cut(buffer[..i], buffer[i + 4..]))
    case None =>
      match Find(buffer, LF_BLANK)
      case Some(i) => Some(Cut(buffer[..i], buffer[i + 2..]))
      case None => None
  }

  // ---- The data of one event ----

  const DATA: string := "data:"

  function AppendLine(payload: string, line: string): string {
    if DATA <= line then
      (if payload == "" then "" else payload + "\n") + TrimStart(line[|DATA|..])
    else payload
  }

  function Payload(lines: seq<string>): string {
    if lines == [] then "" else AppendLine(Payload(lines[..|lines| - 1]), lines[|lines| - 1])
  }

  function DataOfLines(lines: seq<string>): Option<string> {
    if Payload(lines) == "" then None else Some(Payload(lines))
  }

  function Data(event: string): Option<string> {
    DataOfLines(Lines(event))
  }

  method ExtractSseData(event: string) returns (data: Option<string>)
    ensures data == Data(event)
  {
    hide TrimStart, Lines;
    var payload := "";
    var lines := Lines(event);
    for n := 0 to |lines|
      invariant payload == Payload(lines[..n])
    {
      assert lines[..n + 1][..n] == lines[..n];
      if DATA <= lines[n] {
        if payload != "" {
          payload := payload + "\n";
        }
        payload := payload + TrimStart(lines[n][|DATA|..]);
      }
    }
    assert lines[..|lines|] == lines;
    data := if payload == "" then None else Some(payload);
  }

  /** The value of a data line, without leading white space. */
  function DataValue(line: string): seq<string> {
    if DATA <= line then [TrimStart(line[|DATA|..])] else []
  }

  function DataValues(lines: seq<string>): seq<string> {
    if lines == [] then [] else DataValue(lines[0]) + DataValues(lines[1..])
  }

  function DropEmpty(values: seq<string>): seq<string> {
    if values != [] && values[0] == "" then DropEmpty(values[1..]) else values
  }

  /** The payload joins the data values by LF, except that leading empty values leave no trace. */
  lemma {:induction false} PayloadJoinsValues(lines: seq<string>)
    ensures Payload(lines) == Join(DropEmpty(DataValues(lines)), "\n")
  {
    hide TrimStart;
    if lines == [] {
    } else {
      var n := |lines| - 1;
      PayloadJoinsValues(lines[..n]);
      DataValuesLast(lines);
      if DATA <= lines[n] {
        var values := DataValues(lines[..n]);
        DropEmptyLast(values, TrimStart(lines[n][|DATA|..]));
      } else {
        assert DataValues(lines) == DataValues(lines[..n]);
      }
    }
  }

  lemma {:induction false} DataValuesLast(lines: seq<string>)
    requires lines != []
    ensures DataValues(lines) == DataValues(lines[..|lines| - 1]) + DataValue(lines[|lines| - 1])
  {
    hide DataValue;
    var n := |lines| - 1;
    var first, last := DataValue(lines[0]), DataValue(lines[n]);
    if n == 0 {
      assert lines[..0] == [] && lines[1..] == [];
      assert first + [] == first && [] + last == last;
    } else {
      DataValuesLast(lines[1..]);
      var middle := DataValues(lines[..n][1..]);
      assert lines[1..][..n - 1] == lines[..n][1..];
      assert first + (middle + last) == first + middle + last;
    }
  }

  lemma {:induction false} DropEmptyLast(values: seq<string>, v: string)
    ensures var d := DropEmpty(values);
      Join(DropEmpty(values + [v]), "\n") == (if Join(d, "\n") == "" then "" else Join(d, "\n") + "\n") + v
  {
    if values == [] {
      assert values + [v] == [v];
    } else if values[0] == "" {
      assert (values + [v])[1..] == values[1..] + [v];
      DropEmptyLast(values[1..], v);
    } else {
      assert (values + [v])[0] == values[0];
      JoinLast(values, v);
      JoinNonEmpty(values);
    }
  }

  lemma JoinNonEmpty(values: seq<string>)
    requires values != [] && values[0] != ""
    ensures Join(values, "\n") != ""
  {
  }

  lemma {:induction false} JoinLast(values: seq<string>, v: string)
    requires values != []
    ensures Join(values + [v], "\n") == Join(values, "\n") + "\n" + v
  {
    assert (values + [v])[1..] == values[1..] + [v];
    if |values| == 1 {
      assert values[1..] + [v] == [v];
    } else {
      JoinLast(values[1..], v);
      assert values[0] + "\n" + (Join(values[1..], "\n") + "\n" + v)
        == values[0] + "\n" + Join(values[1..], "\n") + "\n" + v;
    }
  }

  // ---- The data as section 9.2.6 of the WHATWG HTML Standard defines it ----

  function DropSpace(value: string): string {
    if value != "" && value[0] == ' ' then value[1..] else value
  }

  /** The values of the `data` fields; a field may also stand without a colon. */
  function StandardValues(lines: seq<string>): seq<string> {
    if lines == [] then []
    else
      (if DATA <= lines[0] then [DropSpace(lines[0][|DATA|..])] else if lines[0] == "data" then [""] else [])
      + StandardValues(lines[1..])
  }

  function StandardData(lines: seq<string>): Option<string> {
    var values := StandardValues(lines);
    if values == [] then None else Some(Join(values, "\n"))
  }

  predicate IsDataLine(line: string) {
    DATA <= line || line == "data"
  }

  /** A colon, and after it at most one space before the value or the end. */
  predicate PlainDataLine(line: string) {
    DATA <= line && var value := DropSpace(line[|DATA|..]); value == "" || !IsWhite(value[0])
  }

  predicate PlainDataLines(lines: seq<string>) {
    forall i | 0 <= i < |lines| && IsDataLine(lines[i]) :: PlainDataLine(lines[i])
  }

  /** All data lines are plain and the first of them, if any, carries a value. */
  predicate PlainData(lines: seq<string>) {
    && PlainDataLines(lines)
    && (StandardValues(lines) != [] ==> StandardValues(lines)[0] != "")
  }

  lemma PlainLineExactly(line: string)
    requires DATA <= line
    ensures PlainDataLine(line) <==> TrimStart(line[|DATA|..]) == DropSpace(line[|DATA|..])
  {
    var value := line[|DATA|..];
    if value != "" && value[0] == ' ' {
      TrimStartExactly(value[1..]);
    } else {
      TrimStartExactly(value);
    }
  }

  lemma TrimStartExactly(s: string)
    ensures TrimStart(s) == s <==> s == "" || !IsWhite(s[0])
  {
  }

  lemma PlainFirst(lines: seq<string>)
    requires lines != []
    ensures PlainDataLines(lines)
       <==> (IsDataLine(lines[0]) ==> PlainDataLine(lines[0])) && PlainDataLines(lines[1..])
  {
    hide IsDataLine, PlainDataLine;
    assert forall i | 0 < i < |lines| :: lines[i] == lines[1..][i - 1];
  }

  lemma {:induction false} ValuesAgreeExactly(lines: seq<string>)
    ensures |DataValues(lines)| <= |StandardValues(lines)|
    ensures DataValues(lines) == StandardValues(lines) <==> PlainDataLines(lines)
  {
    hide TrimStart, DropSpace, PlainDataLines;
    if lines == [] {
      NoLinesPlain();
    } else {
      var line, rest := lines[0], lines[1..];
      ValuesAgreeExactly(rest);
      PlainFirst(lines);
      if DATA <= line {
        PlainLineExactly(line);
        SameHeads(TrimStart(line[|DATA|..]), DropSpace(line[|DATA|..]), DataValues(rest), StandardValues(rest));
      } else if line == "data" {
        assert !PlainDataLine(line);
        assert |DataValues(lines)| == |DataValues(rest)| && |StandardValues(lines)| == 1 + |StandardValues(rest)|;
      } else {
        assert DataValues(lines) == DataValues(rest) && StandardValues(lines) == StandardValues(rest);
      }
    }
  }

  lemma SameHeads<T>(a: T, b: T, s: seq<T>, t: seq<T>)
    ensures [a] + s == [b] + t <==> a == b && s == t
  {
    assert ([a] + s)[0] == a && ([a] + s)[1..] == s;
    assert ([b] + t)[0] == b && ([b] + t)[1..] == t;
  }

  lemma NoLinesPlain()
    ensures PlainDataLines([])
  {
  }

  /** No line terminator inside any value. */
  predicate OneLine(values: seq<string>) {
    forall i | 0 <= i < |values| :: Free(values[i], '\n')
  }

  lemma JoinSeparates(values: seq<string>)
    requires |values| > 1
    ensures !Free(Join(values, "\n"), '\n')
  {
    assert Join(values, "\n")[|values[0]|] == '\n';
  }

  lemma {:induction false} JoinInjective(a: seq<string>, b: seq<string>)
    requires OneLine(a) && OneLine(b) && a != [] && b != []
    requires Join(a, "\n") == Join(b, "\n")
    ensures a == b
    decreases |a|
  {
    if |a| == 1 && |b| == 1 {
      assert a == b;
    } else if |a| == 1 || |b| == 1 {
      JoinSeparates(if |a| == 1 then b else a);
      assert false;
    } else {
      assert a[0] + "\n" + Join(a[1..], "\n") == a[0] + (['\n'] + Join(a[1..], "\n"));
      assert b[0] + "\n" + Join(b[1..], "\n") == b[0] + (['\n'] + Join(b[1..], "\n"));
      CutAtSeparator(a[0], Join(a[1..], "\n"), b[0], Join(b[1..], "\n"), '\n');
      JoinInjective(a[1..], b[1..]);
      assert a == [a[0]] + a[1..] && b == [b[0]] + b[1..];
    }
  }

  lemma {:induction false} ValuesOneLine(lines: seq<string>)
    requires OneLine(lines)
    ensures OneLine(DataValues(lines)) && OneLine(StandardValues(lines))
  {
    hide TrimStart, Free, DropSpace;
    if lines == [] {
    } else {
      ValuesOneLine(lines[1..]);
      if DATA <= lines[0] {
        FreeValue(lines[0]);
      }
      FreeEmpty();
    }
  }

  lemma FreeValue(line: string)
    requires DATA <= line && Free(line, '\n')
    ensures Free(TrimStart(line[|DATA|..]), '\n') && Free(DropSpace(line[|DATA|..]), '\n')
  {
    hide IsWhite, TrimStart;
    var value := line[|DATA|..];
    var r := TrimStart(value);
    assert r == value[|value| - |r|..];
  }

  lemma FreeEmpty()
    ensures Free("", '\n')
  {
  }

  lemma {:induction false} DropEmptyIs(values: seq<string>)
    ensures |DropEmpty(values)| <= |values|
    ensures DropEmpty(values) == values <==> |DropEmpty(values)| == |values|
    ensures DropEmpty(values) == values <==> values == [] || values[0] != ""
    ensures DropEmpty(values) == [] || DropEmpty(values)[0] != ""
    ensures OneLine(values) ==> OneLine(DropEmpty(values))
  {
    hide Free;
    if values != [] && values[0] == "" {
      DropEmptyIs(values[1..]);
    }
  }

  lemma LinesReadAlike(lines: seq<string>)
    requires OneLine(lines)
    ensures DataOfLines(lines) == StandardData(lines) <==> PlainData(lines)
  {
    hide OneLine, TrimStart, PlainDataLines, IsDataLine, Payload;
    var ours, theirs := DataValues(lines), StandardValues(lines);
    var kept := DropEmpty(ours);
    PayloadJoinsValues(lines);
    ValuesAgreeExactly(lines);
    ValuesOneLine(lines);
    DropEmptyIs(ours);
    if kept != [] {
      JoinNonEmpty(kept);
    }
    if DataOfLines(lines) == StandardData(lines) && theirs != [] {
      assert kept != [];
      JoinInjective(kept, theirs);
    }
    if PlainData(lines) {
      assert kept == ours == theirs;
    }
  }

  /** The lines that the event splitter hands over have no line terminator inside. */
  lemma {:induction false} LinesOneLine(s: string)
    ensures OneLine(Lines(s))
    decreases |s|
  {
    if s == "" {
    } else {
      match Find(s, "\n")
      case None => NoTerminator(s);
      case Some(i) =>
        LinesOneLine(s[i + 1..]);
        FirstLineFree(s, i);
    }
  }

  lemma NoTerminator(s: string)
    requires Find(s, "\n").None?
    ensures Free(s, '\n')
  {
    forall i | 0 <= i < |s|
      ensures s[i] != '\n'
    {
      assert !OccursAt(s, "\n", i);
      assert s[i..i + 1] == [s[i]];
    }
  }

  lemma FirstLineFree(s: string, i: nat)
    requires Find(s, "\n") == Some(i)
    ensures Free(StripTerminator(s[..i + 1]), '\n')
  {
    LineEndAt(s, i);
    forall j | 0 <= j < i
      ensures s[j] != '\n'
    {
      assert !OccursAt(s, "\n", j);
      assert s[j..j + 1] == [s[j]];
    }
  }

  /**
   The code and the standard read the same data from the lines of an event, if and only if every
   data line is a colon and at most one space before its value, and the first value is not empty.
   */
  lemma DataIsStandardExactly(event: string)
    ensures Data(event) == StandardData(Lines(event)) <==> PlainData(Lines(event))
  {
    hide Lines, DataOfLines, StandardData, PlainData, OneLine;
    LinesOneLine(event);
    LinesReadAlike(Lines(event));
  }

  /** An event with a further space, or with a leading empty value, is read differently. */
  lemma DataDiffersFromStandard()
    ensures var event := "data:  x"; Data(event) == Some("x") && StandardData(Lines(event)) == Some(" x")
    ensures var event := "data:\ndata: x"; Data(event) == Some("x") && StandardData(Lines(event)) == Some("\nx")
  {
    hide Lines, DataOfLines, StandardData;
    LinesDiffer();
    var one, two := [DATA + "  x"], [DATA + "", DATA + " x"];
    assert DATA + "  x" == "data:  x" && DATA + "" == "data:" && DATA + " x" == "data: x";
    assert two[1..] == ["data: x"];
    assert Join(one, "\n") == "data:  x" && Join(two, "\n") == "data:\ndata: x";
    LinesOfJoin(one);
    LinesOfJoin(two);
  }

  lemma LinesDiffer()
    ensures DataOfLines([DATA + "  x"]) == Some("x") && StandardData([DATA + "  x"]) == Some(" x")
    ensures DataOfLines([DATA + "", DATA + " x"]) == Some("x") && StandardData([DATA + "", DATA + " x"]) == Some("\nx")
  {
    hide Payload, DataValues, StandardValues, IsWhite;
    SpacesTrimmed();
    TwoValues("", " x");
    OneValue("  x");
    PayloadJoinsValues([DATA + "  x"]);
    PayloadJoinsValues([DATA + "", DATA + " x"]);
    assert ["", "x"][1..] == ["x"];
    assert "" + "\n" + "x" == "\nx";
  }

  lemma SpacesTrimmed()
    ensures TrimStart("  x") == "x" && TrimStart(" x") == "x" && TrimStart("") == ""
    ensures DropSpace("  x") == " x" && DropSpace(" x") == "x" && DropSpace("") == ""
  {
    hide TrimStart, DropSpace;
    LettersAreNotWhite();
    SpaceDropped(" x");
    SpaceDropped("x");
    assert " " + " x" == "  x" && " " + "x" == " x";
    SpaceTrimmed("x");
    SpaceTrimmed(" x");
    NothingDropped();
  }

  lemma LettersAreNotWhite()
    ensures !IsWhite("x"[0]) && TrimStart("x") == "x"
  {
  }

  lemma SpaceDropped(v: string)
    ensures DropSpace(" " + v) == v
  {
    assert (" " + v)[1..] == v;
  }

  lemma SpaceTrimmed(v: string)
    ensures TrimStart(" " + v) == TrimStart(v)
  {
    assert (" " + v)[0] == ' ' && (" " + v)[1..] == v;
  }

  lemma NothingDropped()
    ensures TrimStart("") == "" && DropSpace("") == ""
  {
  }

  lemma LineOf(v: string)
    ensures DATA <= DATA + v && (DATA + v)[|DATA|..] == v
  {
  }

  lemma OneValue(v: string)
    ensures DataValues([DATA + v]) == [TrimStart(v)] && StandardValues([DATA + v]) == [DropSpace(v)]
  {
    hide TrimStart, DropSpace;
    var line := DATA + v;
    LineOf(v);
    assert [line][1..] == [];
  }

  lemma TwoValues(v: string, w: string)
    ensures DataValues([DATA + v, DATA + w]) == [TrimStart(v), TrimStart(w)]
    ensures StandardValues([DATA + v, DATA + w]) == [DropSpace(v), DropSpace(w)]
  {
    hide TrimStart, DropSpace;
    var lines := [DATA + v, DATA + w];
    LineOf(v);
    OneValue(w);
    assert lines[1..] == [DATA + w];
  }

  // ---- One pass over the whole text, and the same text in chunks ----

  datatype Events = Events(list: seq<string>, rest: string)

  function Split(buffer: string): Events
    decreases |buffer|
  {
    match SplitNext(buffer)
    case None => Events([], buffer)
    case Some(cut) =>
      var more := Split(cut.rest);
      Events([cut.event] + more.list, more.rest)
  }

  /** The events found when the chunks are appended to the buffer one after the other. */
  function Feed(buffer: string, chunks: seq<string>): Events
    decreases |chunks|
  {
    if chunks == [] then Events([], buffer)
    else
      var now := Split(buffer + chunks[0]);
      var later := Feed(now.rest, chunks[1..]);
      Events(now.list + later.list, later.rest)
  }

  function Concat(chunks: seq<string>): string {
    if chunks == [] then "" else chunks[0] + Concat(chunks[1..])
  }

  /** No event that a CRLF blank line ends contains an LF blank line. */
  predicate Tidy(text: string)
    decreases |text|
  {
    match Find(text, CRLF_BLANK)
    case None => true
    case Some(i) => Find(text[..i], LF_BLANK).None? && Tidy(text[i + 4..])
  }

  /** Whether a pattern occurs within a prefix does not depend on what follows the prefix. */
  lemma OccursWithin(a: string, b: string, p: string, i: nat)
    requires i + |p| <= |a|
    ensures OccursAt(a + b, p, i) <==> OccursAt(a, p, i)
  {
    assert a[i..i + |p|] == (a + b)[i..i + |p|];
  }

  lemma FindInPrefix(a: string, b: string, p: string)
    requires Find(a, p).Some?
    ensures Find(a + b, p) == Find(a, p)
  {
    hide Find;
    var i := Find(a, p).value;
    forall j: nat | j <= i
      ensures OccursAt(a + b, p, j) <==> j == i
    {
      OccursWithin(a, b, p, j);
    }
    assert OccursAt(a + b, p, i);
  }

  lemma FindBeyondPrefix(a: string, b: string, p: string)
    requires Find(a, p).None? && Find(a + b, p).Some?
    ensures Find(a + b, p).value + |p| > |a|
  {
    hide Find;
    var i := Find(a + b, p).value;
    if i + |p| <= |a| {
      OccursWithin(a, b, p, i);
      assert false;
    }
  }

  /** An LF blank line and a CRLF blank line that ends later do not overlap. */
  lemma BlanksApart(s: string, i: nat, j: nat)
    requires OccursAt(s, LF_BLANK, i) && OccursAt(s, CRLF_BLANK, j) && i + 2 < j + 4
    ensures i + 2 <= j
  {
    assert s[i] == s[i..i + 2][0] == '\n' && s[i + 1] == s[i..i + 2][1] == '\n';
    assert s[j] == s[j..j + 4][0] == '\r' && s[j + 1] == s[j..j + 4][1] == '\n' && s[j + 2] == s[j..j + 4][2] == '\r';
  }

  /** In tidy text the next event does not depend on what has yet to arrive. */
  lemma SplitNextStable(a: string, b: string)
    requires Tidy(a + b) && SplitNext(a).Some?
    ensures var cut := SplitNext(a).value;
      SplitNext(a + b) == Some(Cut(cut.event, cut.rest + b)) && Tidy(cut.rest + b)
  {
    hide Find;
    var cut := SplitNext(a).value;
    if Find(a, CRLF_BLANK).Some? {
      FindInPrefix(a, b, CRLF_BLANK);
      var i := Find(a, CRLF_BLANK).value;
      assert (a + b)[..i] == a[..i] && (a + b)[i + 4..] == a[i + 4..] + b;
    } else {
      var i := Find(a, LF_BLANK).value;
      FindInPrefix(a, b, LF_BLANK);
      assert (a + b)[..i] == a[..i] && (a + b)[i + 2..] == a[i + 2..] + b;
      NoLaterCrlf(a, b, i);
    }
  }

  lemma NoLaterCrlf(a: string, b: string, i: nat)
    requires Tidy(a + b) && Find(a, CRLF_BLANK).None? && OccursAt(a, LF_BLANK, i)
    ensures Find(a + b, CRLF_BLANK).None?
    ensures Tidy(a[i + 2..] + b)
  {
    hide Find;
    if Find(a + b, CRLF_BLANK).Some? {
      var j := Find(a + b, CRLF_BLANK).value;
      FindBeyondPrefix(a, b, CRLF_BLANK);
      OccursInPrefix(a, a + b, LF_BLANK, i);
      BlanksApart(a + b, i, j);
      UntidyWithin(a + b, i, j);
      assert false;
    }
    NoneInSuffix(a + b, i + 2, CRLF_BLANK);
    assert (a + b)[i + 2..] == a[i + 2..] + b;
  }

  lemma UntidyWithin(s: string, i: nat, j: nat)
    requires OccursAt(s, LF_BLANK, i) && Find(s, CRLF_BLANK) == Some(j) && i + 2 <= j
    ensures !Tidy(s)
  {
    hide Find;
    assert s[..j][i..i + 2] == s[i..i + 2];
    assert OccursAt(s[..j], LF_BLANK, i);
  }

  lemma NoneInSuffix(s: string, k: nat, p: string)
    requires Find(s, p).None? && k <= |s|
    ensures Find(s[k..], p).None?
  {
    var t := s[k..];
    if Find(t, p).Some? {
      var i := Find(t, p).value;
      assert s[k + i..k + i + |p|] == t[i..i + |p|];
      assert OccursAt(s, p, k + i);
      assert false;
    }
  }

  lemma {:induction false} SplitInTwo(a: string, b: string)
    requires Tidy(a + b)
    ensures Tidy(Split(a).rest + b)
    ensures var now := Split(a);
      var later := Split(now.rest + b);
      Split(a + b) == Events(now.list + later.list, later.rest)
    decreases |a|
  {
    hide Find, SplitNext, Tidy;
    if SplitNext(a).Some? {
      var cut := SplitNext(a).value;
      SplitNextStable(a, b);
      SplitInTwo(cut.rest, b);
      var now, later := Split(cut.rest), Split(Split(cut.rest).rest + b);
      assert [cut.event] + (now.list + later.list) == [cut.event] + now.list + later.list;
    }
  }

  lemma {:induction false} FeedTidy(buffer: string, chunks: seq<string>)
    requires Tidy(buffer + Concat(chunks)) && Split(buffer) == Events([], buffer)
    ensures Feed(buffer, chunks) == Split(buffer + Concat(chunks))
    decreases |chunks|
  {
    hide Find, SplitNext, Tidy;
    if chunks == [] {
      assert buffer + Concat(chunks) == buffer;
    } else {
      var a, b := buffer + chunks[0], Concat(chunks[1..]);
      assert buffer + Concat(chunks) == a + b;
      SplitInTwo(a, b);
      SplitOnce(a);
      FeedTidy(Split(a).rest, chunks[1..]);
    }
  }

  lemma {:induction false} SplitOnce(a: string)
    ensures Split(Split(a).rest) == Events([], Split(a).rest)
    decreases |a|
  {
    hide SplitNext;
    if SplitNext(a).Some? {
      SplitOnce(SplitNext(a).value.rest);
    }
  }

  // ---- Exactly when the chunks do not matter ----

  ghost predicate ChunkIndependent(text: string) {
    forall chunks :: Concat(chunks) == text ==> Feed("", chunks) == Split(text)
  }

  /** Untidy text has a place to cut it that changes the events. */
  lemma {:induction false} UntidyCut(text: string) returns (k: nat)
    requires !Tidy(text)
    ensures k <= |text|
    ensures var now := Split(text[..k]);
      now.list + Split(now.rest + text[k..]).list != Split(text).list
    decreases |text|
  {
    hide Split, Find;
    var j := Find(text, CRLF_BLANK).value;
    if Find(text[..j], LF_BLANK).Some? {
      k := CutBetween(text, j);
    } else {
      var tail := text[j + 4..];
      var k' := UntidyCut(tail);
      k := j + 4 + k';
      SplitFirstCrlf(text, text, j);
      FirstCrlfOfPrefix(text, k, j);
      SplitFirstCrlf(text[..k], text, j);
      assert text[..k][j + 4..] == tail[..k'] && text[k..] == tail[k'..];
      var now := Split(tail[..k']);
      PrependDiffers(text[..j], now.list, Split(now.rest + tail[k'..]).list, Split(tail).list);
    }
  }

  lemma SplitFirstCrlf(a: string, text: string, j: nat)
    requires Find(a, CRLF_BLANK) == Some(j) && a <= text
    ensures Split(a) == Events([text[..j]] + Split(a[j + 4..]).list, Split(a[j + 4..]).rest)
  {
    hide Find;
    assert a[..j] == text[..j];
  }

  lemma PrependDiffers(first: string, a: seq<string>, b: seq<string>, c: seq<string>)
    requires a + b != c
    ensures ([first] + a) + b != [first] + c
  {
    assert (([first] + a) + b)[1..] == a + b;
    assert ([first] + c)[1..] == c;
  }

  lemma FirstCrlfOfPrefix(text: string, k: nat, j: nat)
    requires Find(text, CRLF_BLANK) == Some(j) && j + 4 <= k <= |text|
    ensures Find(text[..k], CRLF_BLANK) == Some(j)
  {
    var a := text[..k];
    assert a[j..j + 4] == text[j..j + 4];
    assert OccursAt(a, CRLF_BLANK, j);
    FindInPrefix(a, text[k..], CRLF_BLANK);
    assert a + text[k..] == text;
  }

  lemma CutBetween(text: string, j: nat) returns (k: nat)
    requires Find(text, CRLF_BLANK) == Some(j) && Find(text[..j], LF_BLANK).Some?
    ensures k <= |text|
    ensures var now := Split(text[..k]);
      now.list + Split(now.rest + text[k..]).list != Split(text).list
  {
    var i := Find(text[..j], LF_BLANK).value;
    k := i + 2;
    var a := text[..k];
    assert a == text[..j][..k];
    assert a[i..i + 2] == text[..j][i..i + 2];
    assert OccursAt(a, LF_BLANK, i);
    FindInPrefix(a, text[k..j], LF_BLANK);
    assert a + text[k..j] == text[..j];
    assert Find(a, LF_BLANK) == Some(i);
    assert a + text[k..] == text;
    if Find(a, CRLF_BLANK).Some? {
      FindInPrefix(a, text[k..], CRLF_BLANK);
      assert false;
    }
    assert Split(a).list[0] == a[..i] && |a[..i]| == i;
    assert Split(text).list[0] == text[..j] && |text[..j]| == j;
  }

  /** The events of a text do not depend on how it is cut into chunks, if and only if it is tidy. */
  lemma ChunkIndependentIffTidy(text: string)
    ensures ChunkIndependent(text) <==> Tidy(text)
  {
    hide Find, SplitNext, Tidy;
    if Tidy(text) {
      forall chunks | Concat(chunks) == text
        ensures Feed("", chunks) == Split(text)
      {
        assert "" + Concat(chunks) == text;
        EmptySplit();
        FeedTidy("", chunks);
      }
    } else {
      var k := UntidyCut(text);
      TwoChunks(text, k);
    }
  }

  lemma EmptySplit()
    ensures Split("") == Events([], "")
  {
  }

  lemma TwoChunks(text: string, k: nat)
    requires k <= |text|
    ensures Concat([text[..k], text[k..]]) == text
    ensures var now := Split(text[..k]);
      Feed("", [text[..k], text[k..]]).list == now.list + Split(now.rest + text[k..]).list
  {
    hide Find, SplitNext, Split;
    var a, b := text[..k], text[k..];
    assert [a, b][1..] == [b] && [b][1..] == [];
    assert Concat([b]) == b + "" == b;
    assert "" + a == a && a + b == text;
    var now := Split(a);
    assert Feed(now.rest, [b]).list == Split(now.rest + b).list + [];
  }

  /** Untidy text exists: an LF event followed by one that a CRLF blank line ends. */
  lemma UntidyText()
    ensures !ChunkIndependent("a\n\nb\r\n\r\n")
  {
    hide Find, Tidy;
    var s := "a\n\nb\r\n\r\n";
    assert s[4..8] == CRLF_BLANK && s[1..3] == LF_BLANK;
    assert OccursAt(s, CRLF_BLANK, 4);
    CrlfStarts(s, Find(s, CRLF_BLANK).value);
    UntidyWithin(s, 1, 4);
    ChunkIndependentIffTidy(s);
  }

  lemma CrlfStarts(s: string, i: nat)
    requires OccursAt(s, CRLF_BLANK, i)
    ensures s[i] == '\r' && i + 4 <= |s|
  {
    assert s[i..i + 4][0] == s[i];
  }

  /** A stream that uses one delimiter style is tidy. */
  lemma {:induction false} OneStyleIsTidy(text: string)
    requires !Contains(text, CRLF_BLANK) || !Contains(text, LF_BLANK)
    ensures Tidy(text)
    decreases |text|
  {
    if Find(text, CRLF_BLANK).Some? {
      var j := Find(text, CRLF_BLANK).value;
      NoneInSuffix(text, j + 4, LF_BLANK);
      assert text[..j] + text[j..] == text;
      if Find(text[..j], LF_BLANK).Some? {
        FindInPrefix(text[..j], text[j..], LF_BLANK);
        assert false;
      }
      OneStyleIsTidy(text[j + 4..]);
    }
  }

  // ---- Handling the data payloads as they come ----

  /** A handler keeps going, stops at the end marker, or gives up with an error. */
  datatype Status<S> = Running(state: S) | Stopped(state: S) | Failed(state: S, error: string)

  function HandleEvent<S>(st: Status<S>, event: string, handle: (S, string) -> Status<S>): Status<S> {
    if !st.Running? then st
    else
      match Data(event)
      case None => st
      case Some(data) => handle(st.state, data)
  }

  function Consume<S>(st: Status<S>, events: seq<string>, handle: (S, string) -> Status<S>): Status<S>
    decreases |events|
  {
    if events == [] then st
    else Consume(HandleEvent(st, events[0], handle), events[1..], handle)
  }

  /** The reading loop: nothing is read after the handler has stopped or failed. */
  function ReadChunks<S>(st: Status<S>, buffer: string, chunks: seq<string>,
                         handle: (S, string) -> Status<S>): Status<S>
    decreases |chunks|
  {
    if !st.Running? || chunks == [] then st
    else
      var now := Split(buffer + chunks[0]);
      ReadChunks(Consume(st, now.list, handle), now.rest, chunks[1..], handle)
  }

  lemma {:induction false} ConsumeDone<S>(st: Status<S>, events: seq<string>, handle: (S, string) -> Status<S>)
    requires !st.Running?
    ensures Consume(st, events, handle) == st
    decreases |events|
  {
    hide Data;
    if events == [] {
    } else {
      ConsumeDone(st, events[1..], handle);
    }
  }

  lemma {:induction false} ConsumeConcat<S>(st: Status<S>, a: seq<string>, b: seq<string>,
                                            handle: (S, string) -> Status<S>)
    ensures Consume(st, a + b, handle) == Consume(Consume(st, a, handle), b, handle)
    decreases |a|
  {
    hide Data, HandleEvent;
    if a == [] {
      assert a + b == b;
    } else {
      assert (a + b)[1..] == a[1..] + b;
      ConsumeConcat(HandleEvent(st, a[0], handle), a[1..], b, handle);
    }
  }

  lemma {:induction false} ReadChunksFeeds<S>(st: Status<S>, buffer: string, chunks: seq<string>,
                                              handle: (S, string) -> Status<S>)
    ensures ReadChunks(st, buffer, chunks, handle) == Consume(st, Feed(buffer, chunks).list, handle)
    decreases |chunks|
  {
    hide Data, Find, SplitNext, Split;
    if !st.Running? {
      ConsumeDone(st, Feed(buffer, chunks).list, handle);
    } else if chunks != [] {
      var now := Split(buffer + chunks[0]);
      ReadChunksFeeds(Consume(st, now.list, handle), now.rest, chunks[1..], handle);
      ConsumeConcat(st, now.list, Feed(now.rest, chunks[1..]).list, handle);
    }
  }

  /** Reading tidy text in any chunks ends as handling the payloads of a one-pass split does. */
  lemma ReadingIgnoresChunks<S>(st: Status<S>, chunks: seq<string>, handle: (S, string) -> Status<S>)
    requires Tidy(Concat(chunks))
    ensures ReadChunks(st, "", chunks, handle) == Consume(st, Split(Concat(chunks)).list, handle)
  {
    hide Data, Find, SplitNext, Split, Tidy;
    ReadChunksFeeds(st, "", chunks, handle);
    ChunkIndependentIffTidy(Concat(chunks));
  }
}
