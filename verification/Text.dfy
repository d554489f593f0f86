/**
 String primitives of the Rust standard library that the modelled code relies on.
 A `string` is a sequence of Unicode scalar values, so positions count characters,
 where Rust counts UTF-8 bytes.
 */
module Text {
  import opened Prelude

  // ---- Searching ----

  predicate OccursAt(s: string, p: string, i: nat) {
    i + |p| <= |s| && s[i..i + |p|] == p
  }

  ghost predicate Contains(s: string, p: string) {
    exists i: nat :: OccursAt(s, p, i)
  }

  function FindFrom(s: string, p: string, from: nat): (r: Option<nat>)
    requires from <= |s|
    ensures r.Some? ==> from <= r.value && OccursAt(s, p, r.value)
    ensures r.Some? ==> forall i: nat | from <= i < r.value :: !OccursAt(s, p, i)
    ensures r.None? ==> forall i: nat | from <= i :: !OccursAt(s, p, i)
    decreases |s| - from
  {
    if OccursAt(s, p, from) then Some(from)
    else if from == |s| then None
    else FindFrom(s, p, from + 1)
  }

  /** `str::find` for a string pattern. */
  function Find(s: string, p: string): (r: Option<nat>)
    ensures r.Some? ==> OccursAt(s, p, r.value)
    ensures r.Some? ==> forall i: nat | i < r.value :: !OccursAt(s, p, i)
    ensures r.None? <==> !Contains(s, p)
  {
    FindFrom(s, p, 0)
  }

  /** Whatever occurs in a prefix occurs at the same place in the whole text. */
  lemma OccursInPrefix(s: string, t: string, p: string, i: nat)
    requires s <= t && OccursAt(s, p, i)
    ensures OccursAt(t, p, i)
  {
  }

  // ---- White space and trimming ----

  /** The Unicode `White_Space` property, used by `trim`, `trim_start` and `split_whitespace`. */
  predicate IsWhite(c: char) {
    var n := c as int;
    || 0x09 <= n <= 0x0D || n == 0x20 || n == 0x85 || n == 0xA0 || n == 0x1680
    || 0x2000 <= n <= 0x200A || n == 0x2028 || n == 0x2029 || n == 0x202F || n == 0x205F
    || n == 0x3000
  }

  predicate Blank(s: string) {
    forall i | 0 <= i < |s| :: IsWhite(s[i])
  }

  predicate Trimmed(s: string) {
    s != "" ==> !IsWhite(s[0]) && !IsWhite(s[|s| - 1])
  }

  function TrimStart(s: string): (r: string)
    ensures r != "" ==> !IsWhite(r[0])
    ensures |r| <= |s| && r == s[|s| - |r|..] && Blank(s[..|s| - |r|])
  {
    if s != "" && IsWhite(s[0]) then
      var r := TrimStart(s[1..]);
      assert s[..|s| - |r|] == [s[0]] + s[1..][..|s[1..]| - |r|];
      r
    else s
  }

  function TrimEnd(s: string): (r: string)
    ensures r != "" ==> !IsWhite(r[|r| - 1])
    ensures |r| <= |s| && r == s[..|r|] && Blank(s[|r|..])
  {
    if s != "" && IsWhite(s[|s| - 1]) then
      var r := TrimEnd(s[..|s| - 1]);
      assert s[|r|..] == s[..|s| - 1][|r|..] + [s[|s| - 1]];
      r
    else s
  }

  function Trim(s: string): string {
    TrimEnd(TrimStart(s))
  }

  lemma TrimStartSplits(s: string) returns (start: string, body: string)
    ensures s == start + body && body == TrimStart(s) && Blank(start)
    ensures body != "" ==> !IsWhite(body[0])
  {
    hide IsWhite, TrimStart;
    body := TrimStart(s);
    start := s[..|s| - |body|];
  }

  /** `Trim` removes a blank prefix and a blank suffix, and only those. */
  lemma TrimSplits(s: string) returns (pre: string, post: string)
    ensures s == pre + (Trim(s) + post) && Blank(pre) && Blank(post)
    ensures Trimmed(Trim(s))
  {
    hide IsWhite;
    var body, core;
    pre, body := TrimStartSplits(s);
    core, post := TrimEndSplits(body);
    assert core != "" ==> core[0] == body[0];
  }

  lemma TrimEndSplits(s: string) returns (body: string, end: string)
    ensures s == body + end && body == TrimEnd(s) && Blank(end)
    ensures body != "" ==> !IsWhite(body[|body| - 1])
  {
    hide IsWhite, TrimEnd;
    body := TrimEnd(s);
    end := s[|body|..];
  }

  lemma TrimEmpty(s: string)
    ensures Trim(s) == "" <==> Blank(s)
  {
  }

  /** ... and that determines the result, unless nothing is left. */
  lemma TrimUnique(pre: string, core: string, post: string)
    requires Blank(pre) && Blank(post) && Trimmed(core) && core != ""
    ensures Trim(pre + (core + post)) == core
  {
    hide IsWhite, Blank;
    assert (core + post)[0] == core[0];
    TrimStartUnique(pre, core + post);
    TrimEndUnique(core, post);
  }

  lemma {:induction false} TrimStartUnique(pre: string, rest: string)
    requires Blank(pre) && rest != "" && !IsWhite(rest[0])
    ensures TrimStart(pre + rest) == rest
  {
    hide IsWhite;
    if pre == "" {
      assert pre + rest == rest;
    } else {
      assert (pre + rest)[1..] == pre[1..] + rest;
      TrimStartUnique(pre[1..], rest);
    }
  }

  lemma {:induction false} TrimEndUnique(rest: string, post: string)
    requires Blank(post) && rest != "" && !IsWhite(rest[|rest| - 1])
    ensures TrimEnd(rest + post) == rest
  {
    hide IsWhite;
    if post == "" {
      assert rest + post == rest;
    } else {
      var s := rest + post;
      assert s[..|s| - 1] == rest + post[..|post| - 1];
      assert s[|s| - 1] == post[|post| - 1];
      TrimEndUnique(rest, post[..|post| - 1]);
    }
  }

  lemma TrimOfTrimmed(s: string)
    requires Trimmed(s)
    ensures Trim(s) == s
  {
  }

  /** Appending text to a non-blank string keeps its trimmed form as a prefix. */
  lemma TrimAppend(s: string, t: string)
    requires !Blank(s)
    ensures Trim(s) <= Trim(s + t)
  {
    hide IsWhite, Blank, Trim;
    var pre, post := TrimSplits(s);
    TrimEmpty(s);
    var tail, end := TrimEndSplits(post + t);
    TrimmedConcat(Trim(s), tail);
    TrimUnique(pre, Trim(s) + tail, end);
    Rebracket(pre, Trim(s), post, t, tail, end);
  }

  lemma Rebracket(a: string, b: string, c: string, d: string, e: string, f: string)
    requires c + d == e + f
    ensures a + (b + c) + d == a + ((b + e) + f)
  {
    assert a + (b + c) + d == a + (b + (c + d));
    assert (b + e) + f == b + (e + f);
  }

  lemma TrimmedConcat(core: string, tail: string)
    requires Trimmed(core) && core != ""
    requires tail != "" ==> !IsWhite(tail[|tail| - 1])
    ensures Trimmed(core + tail)
  {
  }

  // ---- Lines ----

  /** One item of `str::lines`: the terminator is LF or CRLF; a lone CR stays. */
  function StripTerminator(line: string): string {
    if line != "" && line[|line| - 1] == '\n' then
      var body := line[..|line| - 1];
      if body != "" && body[|body| - 1] == '\r' then body[..|body| - 1] else body
    else line
  }

  function Lines(s: string): seq<string>
    decreases |s|
  {
    if s == "" then []
    else
      match Find(s, "\n")
      case None => [s]
      case Some(i) =>
        [StripTerminator(s[..i + 1])] + Lines(s[i + 1..])
  }

  function Join(parts: seq<string>, sep: string): string {
    if parts == [] then ""
    else if |parts| == 1 then parts[0]
    else parts[0] + sep + Join(parts[1..], sep)
  }

  /** Free of line terminators, and not empty at the end: what joining by LF keeps apart. */
  predicate PlainLines(lines: seq<string>) {
    && lines != [] && lines[|lines| - 1] != ""
    && forall i | 0 <= i < |lines| :: PlainLine(lines[i])
  }

  predicate PlainLine(line: string) {
    forall j | 0 <= j < |line| :: line[j] != '\n' && line[j] != '\r'
  }

  lemma {:induction false} LinesOfJoin(lines: seq<string>)
    requires PlainLines(lines)
    ensures Lines(Join(lines, "\n")) == lines && Join(lines, "\n") != ""
    decreases |lines|
  {
    var s := Join(lines, "\n");
    if |lines| == 1 {
      NoLineEnd(s);
    } else {
      var rest := Join(lines[1..], "\n");
      LinesOfJoin(lines[1..]);
      FirstLineEnd(lines[0], rest);
      assert s == lines[0] + "\n" + rest;
      assert s[..|lines[0]| + 1] == lines[0] + "\n" && s[|lines[0]| + 1..] == rest;
      Stripped(lines[0]);
    }
  }

  lemma Stripped(line: string)
    requires PlainLine(line)
    ensures StripTerminator(line + "\n") == line
  {
  }

  lemma NoLineEnd(s: string)
    requires PlainLine(s)
    ensures Find(s, "\n") == None
  {
    if Find(s, "\n").Some? {
      LineEndAt(s, Find(s, "\n").value);
      assert false;
    }
  }

  lemma FirstLineEnd(line: string, rest: string)
    requires PlainLine(line)
    ensures Find(line + "\n" + rest, "\n") == Some(|line|)
  {
    var s := line + "\n" + rest;
    assert s[|line|..|line| + 1] == "\n";
    assert OccursAt(s, "\n", |line|);
    LineEndAt(s, Find(s, "\n").value);
  }

  lemma LineEndAt(s: string, i: nat)
    requires OccursAt(s, "\n", i)
    ensures s[i] == '\n'
  {
  }

  /** Lines, each with its terminator behind it. */
  function Terminated(lines: seq<string>, ends: seq<string>): string
    requires |lines| == |ends|
  {
    if lines == [] then "" else lines[0] + (ends[0] + Terminated(lines[1..], ends[1..]))
  }

  /** Holds no LF, and no CR where it would be taken for part of the terminator. */
  predicate Unterminated(line: string) {
    (forall j | 0 <= j < |line| :: line[j] != '\n') && (line != "" ==> line[|line| - 1] != '\r')
  }

  /** Terminated lines are split back, whether by LF or by CRLF, and no line follows the last terminator. */
  lemma {:induction false} LinesOfTerminated(lines: seq<string>, ends: seq<string>)
    requires |lines| == |ends| && forall i | 0 <= i < |lines| :: Unterminated(lines[i])
    requires forall i | 0 <= i < |ends| :: ends[i] == "\n" || ends[i] == "\r\n"
    ensures Lines(Terminated(lines, ends)) == lines
  {
    hide Find, Unterminated, Lines, StripTerminator;
    if lines == [] {
      NoLines();
    } else {
      var line, end, rest := lines[0], ends[0], Terminated(lines[1..], ends[1..]);
      var s := line + (end + rest);
      var n := |line| + |end|;
      LinesOfTerminated(lines[1..], ends[1..]);
      TerminatorFound(line, end, rest);
      assert s[..n] == line + end && s[n..] == rest;
      FirstLine(s, n - 1);
      TerminatorStripped(line, end);
      assert lines == [line] + lines[1..];
    }
  }

  lemma NoLines()
    ensures Lines("") == []
  {
  }

  lemma FirstLine(s: string, i: nat)
    requires Find(s, "\n") == Some(i)
    ensures i < |s| && Lines(s) == [StripTerminator(s[..i + 1])] + Lines(s[i + 1..])
  {
    hide Find, StripTerminator;
  }

  lemma TerminatorFound(line: string, end: string, rest: string)
    requires Unterminated(line) && (end == "\n" || end == "\r\n")
    ensures Find(line + (end + rest), "\n") == Some(|line| + |end| - 1)
  {
    hide Find;
    var s := line + (end + rest);
    var k := |line| + |end| - 1;
    assert s[k..k + 1] == "\n";
    assert OccursAt(s, "\n", k);
    forall i: nat | i < k
      ensures !OccursAt(s, "\n", i)
    {
      assert s[i] == if i < |line| then line[i] else end[0];
      assert s[i..i + 1] == [s[i]];
    }
  }

  lemma TerminatorStripped(line: string, end: string)
    requires Unterminated(line) && (end == "\n" || end == "\r\n")
    ensures StripTerminator(line + end) == line
  {
  }

  // ---- Fields and separators ----

  predicate Free(s: string, c: char) {
    forall i | 0 <= i < |s| :: s[i] != c
  }

  /** Text is cut at its first separator in one way only. */
  lemma CutAtSeparator(a: string, x: string, b: string, y: string, c: char)
    requires Free(a, c) && Free(b, c) && a + ([c] + x) == b + ([c] + y)
    ensures a == b && x == y
  {
    var s, t := a + ([c] + x), b + ([c] + y);
    assert s[|a|] == c && t[|b|] == c;
    assert |a| == |b|;
    assert a == s[..|a|] && b == t[..|b|];
    assert x == s[|a| + 1..] && y == t[|b| + 1..];
  }

  /** Where the first separator is. */
  lemma {:induction false} FirstSeparator(s: string, c: char) returns (i: nat)
    requires c in s
    ensures i < |s| && s[i] == c && Free(s[..i], c)
  {
    if s[0] == c {
      i := 0;
    } else {
      i := FirstSeparator(s[1..], c);
      i := i + 1;
    }
  }

  // ---- Decimal numerals ----

  const DIGITS: string := "0123456789"

  /** `format!("{n}")` for an unsigned integer. */
  function Decimal(n: nat): (s: string)
    ensures s != "" && forall c | c in s :: c in DIGITS
  {
    if n < 10 then [DIGITS[n]] else Decimal(n / 10) + [DIGITS[n % 10]]
  }

  lemma DigitsDistinct(i: nat, j: nat)
    requires i < 10 && j < 10 && DIGITS[i] == DIGITS[j]
    ensures i == j
  {
  }

  lemma {:induction false} DecimalInjective(m: nat, n: nat)
    requires Decimal(m) == Decimal(n)
    ensures m == n
  {
    var s, t := Decimal(m), Decimal(n);
    assert s[|s| - 1] == DIGITS[m % 10] && t[|t| - 1] == DIGITS[n % 10];
    DigitsDistinct(m % 10, n % 10);
    if m >= 10 && n >= 10 {
      assert s[..|s| - 1] == Decimal(m / 10) && t[..|t| - 1] == Decimal(n / 10);
      DecimalInjective(m / 10, n / 10);
    }
  }
}
