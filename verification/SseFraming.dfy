/**
 What the event splitter gives in terms of the text itself: splitting loses nothing, and events
 written one after the other are split back into themselves.
 */
module SseFraming {
  import opened Prelude
  import opened Text
  import opened Sse

  predicate IsDelimiter(d: string) {
    d == CRLF_BLANK || d == LF_BLANK
  }

  predicate AreDelimiters(ends: seq<string>) {
    forall i | 0 <= i < |ends| :: IsDelimiter(ends[i])
  }

  /** Each event followed by its delimiter, then what is left over. */
  function Joined(events: seq<string>, ends: seq<string>, rest: string): string
    requires |events| == |ends|
  {
    if events == [] then rest else events[0] + (ends[0] + Joined(events[1..], ends[1..], rest))
  }

  /** No complete event: neither delimiter occurs. */
  ghost predicate Incomplete(text: string) {
    !Contains(text, CRLF_BLANK) && !Contains(text, LF_BLANK)
  }

  lemma SplitNextCuts(buffer: string) returns (d: string)
    ensures SplitNext(buffer).None? <==> Incomplete(buffer)
    ensures SplitNext(buffer).Some? ==>
      && IsDelimiter(d)
      && buffer == SplitNext(buffer).value.event + (d + SplitNext(buffer).value.rest)
  {
    hide Find;
    d := "";
    if Find(buffer, CRLF_BLANK).Some? {
      d := CRLF_BLANK;
      CutsAt(buffer, d, Find(buffer, CRLF_BLANK).value);
    } else if Find(buffer, LF_BLANK).Some? {
      d := LF_BLANK;
      CutsAt(buffer, d, Find(buffer, LF_BLANK).value);
    }
  }

  lemma CutsAt(s: string, d: string, i: nat)
    requires OccursAt(s, d, i)
    ensures s == s[..i] + (d + s[i + |d|..])
  {
    assert s == s[..i] + (s[i..i + |d|] + s[i + |d|..]);
  }

  /**
   Splitting is lossless: the events, each followed by one of the two delimiters, and the rest make up
   the text, and the rest contains neither delimiter.
   */
  lemma {:induction false} SplitLossless(text: string) returns (ends: seq<string>)
    ensures |ends| == |Split(text).list| && AreDelimiters(ends)
    ensures text == Joined(Split(text).list, ends, Split(text).rest)
    ensures Incomplete(Split(text).rest)
    decreases |text|
  {
    hide SplitNext, Incomplete;
    var d := SplitNextCuts(text);
    if SplitNext(text).None? {
      ends := [];
    } else {
      var cut := SplitNext(text).value;
      var more := SplitLossless(cut.rest);
      ends := [d] + more;
      assert ends[1..] == more;
      assert Split(text).list[1..] == Split(cut.rest).list;
    }
  }

  /** The same delimiter after each event. */
  function Framed(events: seq<string>, d: string, rest: string): string {
    if events == [] then rest else events[0] + (d + Framed(events[1..], d, rest))
  }

  /** The delimiter does not occur before the end of the event, not even with its first half inside. */
  ghost predicate Whole(event: string, d: string) {
    !Contains(event, d) && !Ends(event, d[..|d| / 2])
  }

  predicate Ends(s: string, suffix: string) {
    |suffix| <= |s| && s[|s| - |suffix|..] == suffix
  }

  lemma WholeExactly(event: string, d: string, more: string)
    requires IsDelimiter(d)
    ensures Find(event + (d + more), d) == Some(|event|) <==> Whole(event, d)
  {
    hide Find;
    var s := event + (d + more);
    assert s[|event|..|event| + |d|] == d;
    assert OccursAt(s, d, |event|);
    if Contains(event, d) {
      var i: nat :| OccursAt(event, d, i);
      assert s[i..i + |d|] == event[i..i + |d|];
      assert OccursAt(s, d, i);
    } else if Ends(event, d[..|d| / 2]) {
      var i := |event| - |d| / 2;
      assert s[i..i + |d|] == event[i..] + d[..|d| - |d| / 2];
      assert OccursAt(s, d, i);
    } else {
      forall i: nat | i < |event|
        ensures !OccursAt(s, d, i)
      {
        NotInside(event, d, more, i);
      }
    }
  }

  lemma NotInside(event: string, d: string, more: string, i: nat)
    requires IsDelimiter(d) && Whole(event, d) && i < |event|
    ensures !OccursAt(event + (d + more), d, i)
  {
    var s := event + (d + more);
    if OccursAt(s, d, i) {
      assert s[i..i + |d|] == d;
      if i + |d| <= |event| {
        assert s[i..i + |d|] == event[i..i + |d|];
        assert OccursAt(event, d, i);
      } else {
        Overlap(event, d, more, i);
      }
      assert false;
    }
  }

  /** The delimiters overlap themselves only by their halves. */
  lemma Overlap(event: string, d: string, more: string, i: nat)
    requires IsDelimiter(d) && i < |event| < i + |d| && OccursAt(event + (d + more), d, i)
    ensures Ends(event, d[..|d| / 2])
  {
    var s, k := event + (d + more), |event| - i;
    assert s[i..i + |d|] == d;
    assert forall j | 0 <= j < |d| :: s[i + j] == d[j];
    assert s[|event|] == d[0] && s[|event|] == d[k];
    forall j | 0 <= j < k
      ensures event[i..][j] == d[..k][j]
    {
      assert event[i + j] == s[i + j];
    }
    assert event[i..] == d[..k];
  }

  /** When the next event is the one in front. */
  lemma FrontExactly(event: string, d: string, more: string)
    requires IsDelimiter(d)
    ensures var text := event + (d + more);
      SplitNext(text) == Some(Cut(event, more))
      <==> Whole(event, d) && (d == LF_BLANK ==> !Contains(text, CRLF_BLANK))
  {
    hide Find, Whole;
    var text := event + (d + more);
    WholeExactly(event, d, more);
    assert text[..|event|] == event && text[|event| + |d|..] == more;
    if SplitNext(text) == Some(Cut(event, more)) {
      var e := if Find(text, CRLF_BLANK).Some? then CRLF_BLANK else LF_BLANK;
      var i := Find(text, e).value;
      assert |text[..i]| == i == |event| && |text[i + |e|..]| == |more|;
      assert |e| == |d|;
    }
  }

  /** An event cut off the front leaves what follows its delimiter. */
  lemma FrontLeaves(event: string, d: string, more: string)
    requires IsDelimiter(d)
    ensures var cut := SplitNext(event + (d + more));
      cut.Some? && cut.value.event == event ==> cut.value.rest == more
  {
    hide SplitNext;
    var text := event + (d + more);
    var e := SplitNextCuts(text);
    if SplitNext(text).Some? && SplitNext(text).value.event == event {
      var rest := SplitNext(text).value.rest;
      assert text[|event|] == d[0] == e[0];
      assert d == e;
      assert more == text[|event| + |d|..] && rest == text[|event| + |e|..];
    }
  }

  lemma SplitFront(event: string, d: string, more: string, events: seq<string>, rest: string)
    requires IsDelimiter(d)
    ensures Split(event + (d + more)) == Events([event] + events, rest)
       <==> SplitNext(event + (d + more)) == Some(Cut(event, more)) && Split(more) == Events(events, rest)
  {
    hide SplitNext;
    var text := event + (d + more);
    FrontLeaves(event, d, more);
    if SplitNext(text).Some? {
      var cut := SplitNext(text).value;
      var all := [cut.event] + Split(cut.rest).list;
      assert all[0] == cut.event && all[1..] == Split(cut.rest).list;
      assert ([event] + events)[0] == event && ([event] + events)[1..] == events;
    }
  }

  lemma NoneBehind(event: string, d: string, more: string, p: string)
    requires !Contains(event + (d + more), p)
    ensures !Contains(more, p)
  {
    var s, k := event + (d + more), |event| + |d|;
    assert s[k..] == more;
    NoneInSuffix(s, k, p);
  }

  /** All events are whole, and what is left is incomplete. */
  ghost predicate WellFramed(events: seq<string>, d: string, rest: string) {
    && (forall i | 0 <= i < |events| :: Whole(events[i], d))
    && Incomplete(rest)
    && (d == LF_BLANK ==> !Contains(Framed(events, d, rest), CRLF_BLANK))
  }

  lemma WellFramedStep(events: seq<string>, d: string, rest: string)
    requires IsDelimiter(d) && events != []
    ensures WellFramed(events, d, rest)
       <==> && Whole(events[0], d) && (d == LF_BLANK ==> !Contains(Framed(events, d, rest), CRLF_BLANK))
            && WellFramed(events[1..], d, rest)
  {
    hide Whole, Incomplete, Contains;
    assert forall i | 0 < i < |events| :: events[i] == events[1..][i - 1];
    if d == LF_BLANK && !Contains(Framed(events, d, rest), CRLF_BLANK) {
      NoneBehind(events[0], d, Framed(events[1..], d, rest), CRLF_BLANK);
    }
  }

  /**
   Events written with one delimiter style are split back into exactly those events, if and only if
   none of them contains the delimiter or ends with its first half, the rest is incomplete, and, for
   LF, the text holds no CRLF blank line.
   */
  lemma {:induction false} FramedSplitsBack(events: seq<string>, d: string, rest: string)
    requires IsDelimiter(d)
    ensures Split(Framed(events, d, rest)) == Events(events, rest) <==> WellFramed(events, d, rest)
    decreases |events|
  {
    hide Whole, Incomplete, WellFramed, SplitNext, Split, Contains;
    if events == [] {
      RestSplits(rest, d);
    } else {
      var more := Framed(events[1..], d, rest);
      FramedSplitsBack(events[1..], d, rest);
      WellFramedStep(events, d, rest);
      FrontExactly(events[0], d, more);
      SplitFront(events[0], d, more, events[1..], rest);
      assert events == [events[0]] + events[1..];
    }
  }

  lemma RestSplits(rest: string, d: string)
    ensures Split(rest) == Events([], rest) <==> WellFramed([], d, rest)
  {
    hide SplitNext, Contains;
    var e := SplitNextCuts(rest);
  }

  // ---- Payloads, from the text of a stream to the data handled ----

  /** A payload that fits one data line and does not start with white space. */
  predicate Sendable(payload: string) {
    PlainLine(payload) && payload != "" && !IsWhite(payload[0])
  }

  function DataEvents(payloads: seq<string>): seq<string> {
    if payloads == [] then [] else ["data: " + payloads[0]] + DataEvents(payloads[1..])
  }

  /** Written as one data line, a payload is read back. */
  lemma PayloadReadBack(payload: string)
    requires Sendable(payload)
    ensures Data("data: " + payload) == Some(payload)
  {
    hide IsWhite, TrimStart, Lines, PlainLine, Payload, DataValues;
    var line := "data: " + payload;
    PlainDataLineOf(payload);
    LinesOfJoin([line]);
    assert line == DATA + (" " + payload);
    SpaceIsBlank();
    TrimStartUnique(" ", payload);
    OneValue(" " + payload);
    PayloadJoinsValues([line]);
    assert Join(DropEmpty([payload]), "\n") == payload;
  }

  lemma SpaceIsBlank()
    ensures Blank(" ")
  {
  }

  lemma PlainDataLineOf(payload: string)
    requires PlainLine(payload)
    ensures PlainLines(["data: " + payload]) && PlainLine("data: " + payload)
  {
  }

  lemma {:induction false} DataEventsPlain(payloads: seq<string>)
    requires forall p | p in payloads :: Sendable(p)
    ensures |DataEvents(payloads)| == |payloads|
    ensures forall i | 0 <= i < |payloads| :: PlainLine(DataEvents(payloads)[i])
    ensures forall i | 0 <= i < |payloads| :: Data(DataEvents(payloads)[i]) == Some(payloads[i])
  {
    hide Data, PlainLine, IsWhite;
    if payloads == [] {
    } else {
      assert payloads[0] in payloads;
      PlainDataLineOf(payloads[0]);
      PayloadReadBack(payloads[0]);
      DataEventsPlain(payloads[1..]);
    }
  }

  lemma PlainIsWhole(event: string, d: string)
    requires PlainLine(event) && IsDelimiter(d)
    ensures Whole(event, d)
  {
    forall i: nat
      ensures !OccursAt(event, d, i)
    {
      if i + |d| <= |event| {
        OccursElsewhere(event, d, i);
      }
    }
    var half := d[..|d| / 2];
    if |half| <= |event| {
      OccursElsewhere(event, half, |event| - |half|);
    }
  }

  lemma OccursElsewhere(s: string, p: string, i: nat)
    requires p != "" && i + |p| <= |s| && s[i] != p[0]
    ensures s[i..i + |p|] != p
  {
    assert s[i..i + |p|][0] == s[i];
  }

  /** LF framing brings in no CR. */
  lemma {:induction false} LfStyle(events: seq<string>)
    requires forall i | 0 <= i < |events| :: PlainLine(events[i])
    ensures Free(Framed(events, LF_BLANK, ""), '\r')
  {
    if events == [] {
    } else {
      LfStyle(events[1..]);
      FreeConcat(LF_BLANK, Framed(events[1..], LF_BLANK, ""), '\r');
      FreeConcat(events[0], LF_BLANK + Framed(events[1..], LF_BLANK, ""), '\r');
    }
  }

  lemma FreeConcat(a: string, b: string, c: char)
    requires Free(a, c) && Free(b, c)
    ensures Free(a + b, c)
  {
  }

  /** No LF at the start, and no two in a row. */
  predicate LoneLf(s: string) {
    && (s != "" ==> s[0] != '\n')
    && forall i | 0 <= i < |s| - 1 :: s[i] == '\n' ==> s[i + 1] != '\n'
  }

  lemma LoneLfStep(event: string, more: string)
    requires PlainLine(event) && LoneLf(more)
    ensures LoneLf(event + (CRLF_BLANK + more))
  {
    var s, n := event + (CRLF_BLANK + more), |event|;
    assert s[n..n + 4] == CRLF_BLANK;
    forall i | 0 <= i < |s| - 1
      ensures s[i] == '\n' ==> s[i + 1] != '\n'
    {
      if i < n {
        assert s[i] == event[i];
      } else if i < n + 3 {
        assert s[i] == CRLF_BLANK[i - n] && s[i + 1] == CRLF_BLANK[i + 1 - n];
      } else if i > n + 3 {
        assert s[i] == more[i - n - 4] && s[i + 1] == more[i - n - 3];
      }
    }
  }

  lemma {:induction false} CrlfStyle(events: seq<string>)
    requires forall i | 0 <= i < |events| :: PlainLine(events[i])
    ensures LoneLf(Framed(events, CRLF_BLANK, ""))
  {
    hide LoneLf, PlainLine;
    if events == [] {
      NothingLone();
    } else {
      CrlfStyle(events[1..]);
      LoneLfStep(events[0], Framed(events[1..], CRLF_BLANK, ""));
    }
  }

  lemma NothingLone()
    ensures LoneLf("")
  {
  }

  lemma NotTwoLf(s: string, i: nat)
    requires LoneLf(s) && i + 2 <= |s|
    ensures s[i..i + 2] != LF_BLANK
  {
    var w := s[i..i + 2];
    assert w[0] == s[i] && w[1] == s[i + 1];
  }

  lemma FramedOneStyle(events: seq<string>, d: string)
    requires IsDelimiter(d) && forall i | 0 <= i < |events| :: PlainLine(events[i])
    ensures !Contains(Framed(events, d, ""), if d == LF_BLANK then CRLF_BLANK else LF_BLANK)
  {
    hide PlainLine, Framed;
    var s := Framed(events, d, "");
    if d == LF_BLANK {
      LfStyle(events);
      forall i: nat
        ensures !OccursAt(s, CRLF_BLANK, i)
      {
        if i + 4 <= |s| {
          OccursElsewhere(s, CRLF_BLANK, i);
        }
      }
    } else {
      CrlfStyle(events);
      forall i: nat
        ensures !OccursAt(s, LF_BLANK, i)
      {
        if i + 2 <= |s| {
          NotTwoLf(s, i);
        }
      }
    }
  }

  lemma NothingIncomplete()
    ensures Incomplete("")
  {
  }

  /** The payloads one after the other, until the handler stops or fails. */
  function HandleAll<S>(st: Status<S>, payloads: seq<string>, handle: (S, string) -> Status<S>): Status<S>
    decreases |payloads|
  {
    if !st.Running? || payloads == [] then st else HandleAll(handle(st.state, payloads[0]), payloads[1..], handle)
  }

  lemma {:induction false} ConsumeData<S>(st: Status<S>, events: seq<string>, payloads: seq<string>,
                                          handle: (S, string) -> Status<S>)
    requires |events| == |payloads| && forall i | 0 <= i < |events| :: Data(events[i]) == Some(payloads[i])
    ensures Consume(st, events, handle) == HandleAll(st, payloads, handle)
    decreases |events|
  {
    hide Data;
    if events == [] {
    } else if st.Running? {
      ConsumeData(HandleEvent(st, events[0], handle), events[1..], payloads[1..], handle);
    } else {
      ConsumeDone(st, events, handle);
    }
  }

  /**
   From the sender to the handler: payloads sent as data lines, each followed by the same delimiter,
   reach the handler exactly and in order, however the text is cut into chunks.
   */
  lemma SentPayloadsHandled<S>(st: Status<S>, payloads: seq<string>, d: string, chunks: seq<string>,
                               handle: (S, string) -> Status<S>)
    requires IsDelimiter(d) && forall p | p in payloads :: Sendable(p)
    requires Concat(chunks) == Framed(DataEvents(payloads), d, "")
    ensures ReadChunks(st, "", chunks, handle) == HandleAll(st, payloads, handle)
  {
    hide Data, Split, Find, Tidy, Whole, Incomplete, PlainLine, Contains, Framed, ReadChunks, Sendable;
    var events := DataEvents(payloads);
    DataEventsPlain(payloads);
    FramedOneStyle(events, d);
    OneStyleIsTidy(Concat(chunks));
    ReadingIgnoresChunks(st, chunks, handle);
    forall i | 0 <= i < |events|
      ensures Whole(events[i], d)
    {
      PlainIsWhole(events[i], d);
    }
    NothingIncomplete();
    FramedSplitsBack(events, d, "");
    ConsumeData(st, events, payloads, handle);
  }

  /** Handling two stretches of payloads one after the other. */
  lemma {:induction false} HandleAllConcat<S>(st: Status<S>, a: seq<string>, b: seq<string>,
                                              handle: (S, string) -> Status<S>)
    ensures HandleAll(st, a + b, handle) == HandleAll(HandleAll(st, a, handle), b, handle)
    decreases |a|
  {
    if a == [] {
      assert a + b == b;
    } else if st.Running? {
      assert (a + b)[0] == a[0] && (a + b)[1..] == a[1..] + b;
      HandleAllConcat(handle(st.state, a[0]), a[1..], b, handle);
    }
  }
}
